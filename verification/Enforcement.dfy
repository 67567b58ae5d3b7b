/** The hooks on the maps the loader built decide what the rule list says, whatever loads and
    rebinds came before. */
module Enforcement {
  import opened Strings
  import opened PathPatterns
  import opened Ir
  import opened Loader
  import opened EnforcementSpec
  import opened Hooks
  import KernelPath
  import Fnv

  // ---- category expansion ----

  /** The category of a class; sensitive /proc classes and Regular belong to none. */
  function CategoryOf(c: PathPattern): Option<nat> {
    match c
    case ProcGlobal | ProcGlobalSys | ProcGlobalNet => Some(0)
    case SysCgroupDocker | SysCgroupOther | SysClassNet | SysOther => Some(2)
    case RunDocker | RunUser | RunOther => Some(3)
    case DevPts | DevShm | DevOther => Some(4)
    case TmpRandom | TmpOther => Some(5)
    case Regular | ProcPidEnviron | ProcPidMaps | ProcPidMem | ProcPidRoot => None
    case _ => Some(1)
  }

  lemma SmallGroups(c: PathPattern)
    ensures c in PROC_GLOBAL_GROUP <==> CategoryOf(c) == Some(0)
    ensures c in SYS_GROUP <==> CategoryOf(c) == Some(2)
  {
  }

  lemma MoreSmallGroups(c: PathPattern)
    ensures c in RUN_GROUP <==> CategoryOf(c) == Some(3)
    ensures c in DEV_GROUP <==> CategoryOf(c) == Some(4)
    ensures c in TMP_GROUP <==> CategoryOf(c) == Some(5)
  {
  }

  lemma ProcPidGroup(c: PathPattern)
    ensures c in PROC_PID_GROUP <==> CategoryOf(c) == Some(1)
  {
  }

  lemma GroupsExactly(g: nat, c: PathPattern)
    requires g < |CATEGORY_GROUPS|
    ensures c in CATEGORY_GROUPS[g] <==> CategoryOf(c) == Some(g)
  {
    hide CategoryOf;
    SmallGroups(c);
    MoreSmallGroups(c);
    ProcPidGroup(c);
  }

  lemma {:induction false} AllowMissingAt(m: map<PatternKey, u8>, cgroup: u64, classes: seq<PathPattern>, owner: u64, c: PathPattern)
    ensures Get(AllowMissing(m, cgroup, classes), ClassKey(owner, c)) ==
            if ClassKey(owner, c) in m then Some(m[ClassKey(owner, c)])
            else if owner == cgroup && c in classes then Some(1) else None
  {
    hide PathPattern.Code;
    if classes != [] {
      var n := |classes| - 1;
      AllowMissingAt(m, cgroup, classes[..n], owner, c);
      SameCode(classes[n], c);
      assert c in classes <==> c in classes[..n] || c == classes[n];
    }
  }

  predicate Present(m: map<PatternKey, u8>, cgroup: u64, g: nat) {
    exists c :: CategoryOf(c) == Some(g) && ClassKey(cgroup, c) in m
  }

  lemma AnyPresentIsPresent(m: map<PatternKey, u8>, cgroup: u64, g: nat)
    requires g < |CATEGORY_GROUPS|
    ensures AnyPresent(m, cgroup, CATEGORY_GROUPS[g]) <==> Present(m, cgroup, g)
  {
    hide CategoryOf, ClassKey;
    var group := CATEGORY_GROUPS[g];
    forall c ensures c in group <==> CategoryOf(c) == Some(g) {
      GroupsExactly(g, c);
    }
    if AnyPresent(m, cgroup, group) {
      var i :| 0 <= i < |group| && ClassKey(cgroup, group[i]) in m;
      assert group[i] in group;
    }
    if Present(m, cgroup, g) {
      var c :| CategoryOf(c) == Some(g) && ClassKey(cgroup, c) in m;
      var i :| 0 <= i < |group| && group[i] == c;
    }
  }

  /** After expanding the first `n` categories, a class has its own entry, else an allowing one if a
      class of its category had an entry. */
  lemma {:induction false} ExpandAt(m: map<PatternKey, u8>, cgroup: u64, n: nat, owner: u64, c: PathPattern)
    requires n <= |CATEGORY_GROUPS|
    ensures Get(Expand(m, cgroup, CATEGORY_GROUPS[..n]), ClassKey(owner, c)) ==
            if ClassKey(owner, c) in m then Some(m[ClassKey(owner, c)])
            else if owner == cgroup && CategoryOf(c).Some? && CategoryOf(c).value < n && Present(m, cgroup, CategoryOf(c).value)
            then Some(1) else None
    decreases n, 0
  {
    hide CategoryOf, PathPattern.Code, AllowMissing, AnyPresent, Present;
    if n > 0 {
      var groups := CATEGORY_GROUPS[..n];
      assert groups[..n - 1] == CATEGORY_GROUPS[..n - 1] && groups[n - 1] == CATEGORY_GROUPS[n - 1];
      var before := Expand(m, cgroup, groups[..n - 1]);
      ExpandAt(m, cgroup, n - 1, owner, c);
      AnyPresentIsPresent(before, cgroup, n - 1);
      AllowMissingAt(before, cgroup, groups[n - 1], owner, c);
      GroupsExactly(n - 1, c);
      PresentKept(m, cgroup, n - 1);
    }
  }

  /** Expanding earlier categories does not touch this one. */
  lemma {:induction false} PresentKept(m: map<PatternKey, u8>, cgroup: u64, g: nat)
    requires g < |CATEGORY_GROUPS|
    ensures Present(Expand(m, cgroup, CATEGORY_GROUPS[..g]), cgroup, g) <==> Present(m, cgroup, g)
    decreases g, 1
  {
    hide CategoryOf, PathPattern.Code, Expand, ClassKey;
    var before := Expand(m, cgroup, CATEGORY_GROUPS[..g]);
    forall c | CategoryOf(c) == Some(g) ensures ClassKey(cgroup, c) in before <==> ClassKey(cgroup, c) in m {
      ExpandAt(m, cgroup, g, cgroup, c);
    }
  }

  // ---- the maps, whatever loads came before ----

  predicate GroupListed(rules: seq<Rule>, g: nat) {
    exists d :: CategoryOf(d) == Some(g) && LastVerdict(rules, ClassTarget(d)).Some?
  }

  /** The entry of a class: its last verdict, else "allow" once any class of its category is listed. */
  function ClassEntry(rules: seq<Rule>, c: PathPattern): Option<u8> {
    var last := LastVerdict(rules, ClassTarget(c));
    if last.Some? then Some(VerdictCode(last.value))
    else if CategoryOf(c).Some? && GroupListed(rules, CategoryOf(c).value) then Some(1)
    else None
  }

  /** The maps hold, for each cgroup of `bound`, exactly what `rules` say, and nothing else. */
  ghost predicate Consistent(m: Maps, bound: set<u64>, rules: seq<Rule>) {
    && PathsConsistent(m.filePaths, bound, rules)
    && ClassesConsistent(m.filePatterns, bound, rules)
    && ExecsConsistent(m.execPaths, bound, rules)
    && NetsConsistent(m.netRules, bound, rules)
    && PrefixesConsistent(m.filePrefixes, bound, rules)
    && m.execPatterns == map[]
  }

  ghost predicate PathsConsistent(m: map<PathPolicyKey, bv8>, bound: set<u64>, rules: seq<Rule>) {
    forall key: PathPolicyKey ::
      Get(m, key) == if key.cgroup in bound then MaskAfter(rules, key.pathHash, None) else None
  }

  ghost predicate ClassesConsistent(m: map<PatternKey, u8>, bound: set<u64>, rules: seq<Rule>) {
    forall owner: u64, c: PathPattern ::
      Get(m, ClassKey(owner, c)) == if owner in bound then ClassEntry(rules, c) else None
  }

  ghost predicate ExecsConsistent(m: map<PathPolicyKey, u8>, bound: set<u64>, rules: seq<Rule>) {
    forall key: PathPolicyKey ::
      Get(m, key) == if key.cgroup in bound then Over(LastVerdict(rules, ExecTarget(key.pathHash)), None) else None
  }

  ghost predicate NetsConsistent(m: map<NetPolicyKey, u8>, bound: set<u64>, rules: seq<Rule>) {
    forall owner: u64, ip: u32, port: u32 ::
      Get(m, NetPolicyKey(owner, ip, port, 0)) ==
      if owner in bound then Over(LastVerdict(rules, NetTarget(ip, port)), None) else None
  }

  /** Every key is some slot holding that slot's entry, whichever cgroup wrote it. */
  ghost predicate PrefixesConsistent(m: map<u64, PrefixEntry>, bound: set<u64>, rules: seq<Rule>) {
    && (forall key: u64 :: key in m ==> key % 0x100 < SlotsUsed(rules) && m[key] == PrefixEntries(rules)[key % 0x100])
    && (forall owner: u64, slot: nat :: owner in bound && slot < SlotsUsed(rules) ==> SlotKey(owner, slot) in m)
  }

  lemma EmptyIsConsistent(m: Maps, rules: seq<Rule>)
    requires m.filePaths == map[] && m.filePatterns == map[] && m.filePrefixes == map[]
    requires m.execPaths == map[] && m.execPatterns == map[] && m.netRules == map[]
    ensures Consistent(m, {}, rules)
  {
    hide MaskAfter, LastVerdict, ClassEntry, ClassKey;
  }

  lemma PathsStayConsistent(cgroup: u64, l: Loading, bound: set<u64>, rules: seq<Rule>)
    requires l.slot == 0 && PathsConsistent(l.maps.filePaths, bound, rules)
    ensures PathsConsistent(ApplyAll(cgroup, l, rules).maps.filePaths, bound + {cgroup}, rules)
  {
    hide MaskAfter, ApplyAll;
    forall key: PathPolicyKey
      ensures Get(ApplyAll(cgroup, l, rules).maps.filePaths, key) ==
              if key.cgroup in bound + {cgroup} then MaskAfter(rules, key.pathHash, None) else None
    {
      PathsAfter(cgroup, l, rules, key);
      MaskTwice(rules, key.pathHash);
    }
  }

  lemma ExecsStayConsistent(cgroup: u64, l: Loading, bound: set<u64>, rules: seq<Rule>)
    requires l.slot == 0 && ExecsConsistent(l.maps.execPaths, bound, rules)
    ensures ExecsConsistent(ApplyAll(cgroup, l, rules).maps.execPaths, bound + {cgroup}, rules)
  {
    hide LastVerdict, ApplyAll;
    forall key: PathPolicyKey
      ensures Get(ApplyAll(cgroup, l, rules).maps.execPaths, key) ==
              if key.cgroup in bound + {cgroup} then Over(LastVerdict(rules, ExecTarget(key.pathHash)), None) else None
    {
      ExecsAfter(cgroup, l, rules, key);
    }
  }

  lemma NetsStayConsistent(cgroup: u64, l: Loading, bound: set<u64>, rules: seq<Rule>)
    requires l.slot == 0 && NetsConsistent(l.maps.netRules, bound, rules)
    ensures NetsConsistent(ApplyAll(cgroup, l, rules).maps.netRules, bound + {cgroup}, rules)
  {
    hide LastVerdict, ApplyAll;
    forall owner: u64, ip: u32, port: u32
      ensures Get(ApplyAll(cgroup, l, rules).maps.netRules, NetPolicyKey(owner, ip, port, 0)) ==
              if owner in bound + {cgroup} then Over(LastVerdict(rules, NetTarget(ip, port)), None) else None
    {
      NetsAfter(cgroup, l, rules, owner, ip, port);
    }
  }

  lemma PrefixesStayConsistent(cgroup: u64, m: Maps, bound: set<u64>, rules: seq<Rule>)
    requires PrefixesConsistent(m.filePrefixes, bound, rules)
    ensures PrefixesConsistent(ApplyAll(cgroup, Loading(m, 0), rules).maps.filePrefixes, bound + {cgroup}, rules)
  {
    hide PrefixEntries, ApplyAll, SlotKey;
    var o := ApplyAll(cgroup, Loading(m, 0), rules).maps.filePrefixes;
    forall key: u64 | key in o
      ensures key % 0x100 < SlotsUsed(rules) && o[key] == PrefixEntries(rules)[key % 0x100]
    {
      PrefixesAfter(cgroup, m, rules, key);
    }
    forall owner: u64, slot: nat | owner in bound + {cgroup} && slot < SlotsUsed(rules)
      ensures SlotKey(owner, slot) in o
    {
      SlotKeyParts(owner, slot);
      PrefixesAfter(cgroup, m, rules, SlotKey(owner, slot));
    }
  }

  lemma ClassesStayConsistent(cgroup: u64, l: Loading, bound: set<u64>, rules: seq<Rule>)
    requires l.slot == 0 && ClassesConsistent(l.maps.filePatterns, bound, rules)
    ensures ClassesConsistent(Expand(ApplyAll(cgroup, l, rules).maps.filePatterns, cgroup, CATEGORY_GROUPS),
                              bound + {cgroup}, rules)
  {
    hide LastVerdict, ApplyAll, CategoryOf, ClassKey, Expand, Present, GroupListed;
    var applied := ApplyAll(cgroup, l, rules).maps.filePatterns;
    var all := CATEGORY_GROUPS;
    assert all[..|all|] == all;
    forall c ensures Get(applied, ClassKey(cgroup, c)) ==
                     Over(LastVerdict(rules, ClassTarget(c)), if cgroup in bound then ClassEntry(rules, c) else None)
    {
      ClassesAfter(cgroup, l, rules, cgroup, c);
    }
    forall g: nat ensures Present(applied, cgroup, g) <==> GroupListed(rules, g) {
      PresentWhenListed(applied, cgroup, rules, g, cgroup in bound);
    }
    forall owner: u64, c: PathPattern
      ensures Get(Expand(applied, cgroup, all), ClassKey(owner, c)) ==
              if owner in bound + {cgroup} then ClassEntry(rules, c) else None
    {
      ClassesAfter(cgroup, l, rules, owner, c);
      ExpandAt(applied, cgroup, |all|, owner, c);
      GroupBound(c);
    }
  }

  lemma GroupBound(c: PathPattern)
    ensures CategoryOf(c).Some? ==> CategoryOf(c).value < |CATEGORY_GROUPS|
  {
  }

  lemma PresentWhenListed(applied: map<PatternKey, u8>, cgroup: u64, rules: seq<Rule>, g: nat, again: bool)
    requires forall c :: Get(applied, ClassKey(cgroup, c)) ==
                         Over(LastVerdict(rules, ClassTarget(c)), if again then ClassEntry(rules, c) else None)
    ensures Present(applied, cgroup, g) <==> GroupListed(rules, g)
  {
    hide LastVerdict, CategoryOf, ClassKey;
    if Present(applied, cgroup, g) {
      var c :| CategoryOf(c) == Some(g) && ClassKey(cgroup, c) in applied;
      assert Get(applied, ClassKey(cgroup, c)).Some?;
    }
    if GroupListed(rules, g) {
      var d :| CategoryOf(d) == Some(g) && LastVerdict(rules, ClassTarget(d)).Some?;
      assert Get(applied, ClassKey(cgroup, d)).Some?;
    }
  }

  /** Binding one more cgroup, or one bound before, keeps every cgroup's entries what the rules say. */
  lemma BoundStaysConsistent(m: Maps, bound: set<u64>, cgroup: u64, auditOnly: bool, rules: seq<Rule>)
    requires Consistent(m, bound, rules)
    ensures var o := Bound(m, cgroup, auditOnly, rules);
      && Consistent(o, bound + {cgroup}, rules)
      && o.cgroups == m.cgroups[cgroup := PolicyConfig(0, if auditOnly then 1 else 0)]
      && o.skbCgroup == if m.skbCgroup.Some? then Some(cgroup) else None
  {
    hide ApplyAll, Expand, PathsConsistent, ClassesConsistent, ExecsConsistent, NetsConsistent, PrefixesConsistent;
    var a := Announce(m, cgroup, auditOnly);
    var l := Loading(a, 0);
    PathsStayConsistent(cgroup, l, bound, rules);
    ClassesStayConsistent(cgroup, l, bound, rules);
    ExecsStayConsistent(cgroup, l, bound, rules);
    NetsStayConsistent(cgroup, l, bound, rules);
    PrefixesStayConsistent(cgroup, a, bound, rules);
    OthersAfter(cgroup, l, rules);
  }
}
