/** Loader and hooks together: the decision of a hook is the one the rule list states. */
module Refinement {
  import opened Strings
  import opened PathPatterns
  import opened Ir
  import opened Loader
  import opened EnforcementSpec
  import opened Enforcement
  import opened Hooks
  import opened KernelPath
  import Fnv

  // ---- the rule list read directly ----

  predicate ForPath(r: Rule, path: seq<u8>) {
    OnFile(r) && r.obj.file.pattern.ExactPath? && Utf8(r.obj.file.pattern.path) == path
  }

  predicate ForBinary(r: Rule, path: seq<u8>) {
    && r.obj.Process? && r.action == ProcExec && r.obj.process.binary.BinaryPath?
    && Utf8(r.obj.process.binary.path) == path
  }

  /** What an open asks for. */
  datatype Opening = Opening(reading: bool, writing: bool)

  const READING := Opening(true, false)
  const WRITING := Opening(false, true)

  /** The access mode in the open flags; flags that cannot be read count as 0. */
  function AccessMode(flags: Option<u32>): int { (if flags.Some? then flags.value else 0) % 4 }

  /** Mode 0 reads, mode 1 writes, any other does both. */
  function OpeningOf(flags: Option<u32>): Opening { Opening(AccessMode(flags) != 1, AccessMode(flags) != 0) }

  predicate ListedPath(rules: seq<Rule>, path: seq<u8>) { exists i :: 0 <= i < |rules| && ForPath(rules[i], path) }

  predicate AllowsAt(rules: seq<Rule>, path: seq<u8>, writing: bool, i: int)
    requires 0 <= i < |rules|
  {
    && ForPath(rules[i], path) && rules[i].verdict == Allow && (rules[i].action == FileWrite <==> writing)
    && forall j :: i < j < |rules| && ForPath(rules[j], path) ==> rules[j].verdict == Allow
  }

  /** Some rule for the path allows writing, or else opening or reading, and every later rule for the path
      allows something. */
  predicate AllowsAccess(rules: seq<Rule>, path: seq<u8>, writing: bool) {
    exists i :: 0 <= i < |rules| && AllowsAt(rules, path, writing, i)
  }

  /** The last rule for the class does not deny it; without one, some rule names its category. */
  predicate ClassAllowed(rules: seq<Rule>, c: PathPattern) {
    || (exists i :: 0 <= i < |rules| && LastAt(rules, ClassTarget(c), i) && rules[i].verdict != Deny)
    || ((forall i :: 0 <= i < |rules| ==> !Hits(rules[i], ClassTarget(c))) && CategoryNamed(rules, c))
  }

  predicate CategoryNamed(rules: seq<Rule>, c: PathPattern) {
    exists i :: 0 <= i < |rules| && InCategory(rules[i], c)
  }

  predicate InCategory(r: Rule, c: PathPattern) {
    && OnFile(r) && r.obj.file.pattern.Classified?
    && CategoryOf(c).Some? && CategoryOf(r.obj.file.pattern.class_) == CategoryOf(c)
  }

  predicate ClassSettled(rules: seq<Rule>, c: PathPattern) {
    CategoryNamed(rules, c) || exists i :: 0 <= i < |rules| && Hits(rules[i], ClassTarget(c))
  }

  /** The bytes, those past the 128th aside, begin the path; no bytes begin none. */
  predicate CutBegins(bytes: seq<u8>, path: seq<u8>) {
    bytes != [] && if |bytes| <= 128 then bytes <= path else bytes[..128] <= path
  }

  predicate PrefixHits(r: Rule, path: seq<u8>) {
    OnFile(r) && r.obj.file.pattern.Prefix? && CutBegins(Utf8(r.obj.file.pattern.prefix), path)
  }

  /** Rule `i` is the first prefix rule to match, and among the first 64 prefix rules. */
  predicate FirstPrefixAt(rules: seq<Rule>, path: seq<u8>, i: int)
    requires 0 <= i < |rules|
  {
    && PrefixHits(rules[i], path) && |PrefixEntries(rules[..i])| < 64
    && forall j :: 0 <= j < i ==> !PrefixHits(rules[j], path)
  }

  /** Exact rules decide alone where there is one; then the class; then the first matching prefix. */
  predicate FileAllowed(rules: seq<Rule>, path: seq<u8>, c: PathPattern, o: Opening) {
    if ListedPath(rules, path) then
      && (o.reading ==> AllowsAccess(rules, path, false))
      && (o.writing ==> AllowsAccess(rules, path, true))
    else if c != Regular && ClassSettled(rules, c) then ClassAllowed(rules, c)
    else exists i :: 0 <= i < |rules| && FirstPrefixAt(rules, path, i) && rules[i].verdict != Deny
  }

  predicate ExecAllowed(rules: seq<Rule>, path: seq<u8>) {
    exists i :: 0 <= i < |rules| && ForBinary(rules[i], path) && rules[i].verdict != Deny
                && forall j :: i < j < |rules| ==> !ForBinary(rules[j], path)
  }

  /** The last rule for the endpoint, else the last one for the address with port 0 or none, does not deny. */
  predicate NetAllowed(rules: seq<Rule>, ip: u32, port: u32) {
    var t := if exists i :: 0 <= i < |rules| && Hits(rules[i], NetTarget(ip, port)) then NetTarget(ip, port)
             else NetTarget(ip, 0);
    exists i :: 0 <= i < |rules| && LastAt(rules, t, i) && rules[i].verdict != Deny
  }

  /** No path of the rules shares its hash with `path` without being it. */
  predicate NoCollision(rules: seq<Rule>, path: seq<u8>) {
    forall i :: 0 <= i < |rules| ==>
      && (HitsHash(rules[i], Fnv.Hash(path)) ==> ForPath(rules[i], path))
      && (Hits(rules[i], ExecTarget(Fnv.Hash(path))) ==> ForBinary(rules[i], path))
  }

  // ---- exact tier ----

  /** The mask grants what the flags ask for exactly when it holds the bits of the access mode. */
  lemma MaskCovers(m: bv8, flags: Option<u32>)
    ensures Grants(m, RequestedAccess(flags)) <==>
            (OpeningOf(flags).reading ==> m & ACCESS_READ != 0) && (OpeningOf(flags).writing ==> m & ACCESS_WRITE != 0)
  {
    var mode := AccessMode(flags);
    assert mode == 0 || mode == 1 || mode == 2 || mode == 3;
  }

  function BitFor(writing: bool): bv8 { if writing then ACCESS_WRITE else ACCESS_READ }

  lemma BitOfAction(a: Action, writing: bool)
    ensures AccessBit(a) == BitFor(writing) <==> (a == FileWrite <==> writing)
  {
  }

  lemma HashesArePaths(rules: seq<Rule>, path: seq<u8>, writing: bool)
    requires NoCollision(rules, path)
    ensures ListedHash(rules, Fnv.Hash(path)) <==> ListedPath(rules, path)
    ensures Permits(rules, Fnv.Hash(path), BitFor(writing)) <==> AllowsAccess(rules, path, writing)
  {
    hide Fnv.Hash, Utf8, AccessBit, BitFor;
    var h := Fnv.Hash(path);
    assert forall i :: 0 <= i < |rules| ==> (HitsHash(rules[i], h) <==> ForPath(rules[i], path));
    forall i | 0 <= i < |rules|
      ensures PermitsAt(rules, h, BitFor(writing), i) <==> AllowsAt(rules, path, writing, i)
    {
      BitOfAction(rules[i].action, writing);
    }
  }

  lemma ExactTier(rules: seq<Rule>, path: seq<u8>, flags: Option<u32>)
    requires NoCollision(rules, path)
    ensures var mask := MaskAfter(rules, Fnv.Hash(path), None);
      && (mask.Some? <==> ListedPath(rules, path))
      && (mask.Some? ==>
            (Grants(mask.value, RequestedAccess(flags)) <==>
             && (OpeningOf(flags).reading ==> AllowsAccess(rules, path, false))
             && (OpeningOf(flags).writing ==> AllowsAccess(rules, path, true))))
  {
    hide MaskAfter, ListedHash, Permits, ListedPath, AllowsAccess, NoCollision, Fnv.Hash, Grants, RequestedAccess, OpeningOf;
    var h := Fnv.Hash(path);
    HashesArePaths(rules, path, false);
    HashesArePaths(rules, path, true);
    MaskMeans(rules, h, ACCESS_READ);
    MaskMeans(rules, h, ACCESS_WRITE);
    var mask := MaskAfter(rules, h, None);
    if mask.Some? {
      MaskCovers(mask.value, flags);
    }
  }

  // ---- class tier ----

  lemma ListedCategory(rules: seq<Rule>, c: PathPattern)
    ensures CategoryOf(c).Some? && GroupListed(rules, CategoryOf(c).value) <==> CategoryNamed(rules, c)
  {
    hide LastVerdict, CategoryOf;
    if CategoryOf(c).Some? && GroupListed(rules, CategoryOf(c).value) {
      var d :| CategoryOf(d) == CategoryOf(c) && LastVerdict(rules, ClassTarget(d)).Some?;
      var i :| 0 <= i < |rules| && LastAt(rules, ClassTarget(d), i);
      assert InCategory(rules[i], c);
    }
    if CategoryNamed(rules, c) {
      var i :| 0 <= i < |rules| && InCategory(rules[i], c);
      assert Hits(rules[i], ClassTarget(rules[i].obj.file.pattern.class_));
    }
  }

  lemma LastVerdictIs(rules: seq<Rule>, t: Target)
    ensures var v := LastVerdict(rules, t);
      && (v.Some? <==> exists i :: 0 <= i < |rules| && Hits(rules[i], t))
      && (v.Some? && v.value != Deny <==> exists i :: 0 <= i < |rules| && LastAt(rules, t, i) && rules[i].verdict != Deny)
  {
    hide LastVerdict, Hits;
    var v := LastVerdict(rules, t);
    if v.Some? {
      var i :| 0 <= i < |rules| && LastAt(rules, t, i) && rules[i].verdict == v.value;
      assert forall j :: 0 <= j < |rules| && LastAt(rules, t, j) ==> j == i;
    }
  }

  lemma ClassTier(rules: seq<Rule>, c: PathPattern)
    ensures ClassEntry(rules, c).Some? <==> ClassSettled(rules, c)
    ensures ClassEntry(rules, c).Some? ==> (ClassEntry(rules, c).value != 0 <==> ClassAllowed(rules, c))
  {
    hide LastVerdict, CategoryOf, Hits, CategoryNamed, GroupListed;
    LastVerdictIs(rules, ClassTarget(c));
    ListedCategory(rules, c);
  }

  // ---- prefix tier ----

  /** First matching entry from `slot` on. */
  function Scan(entries: seq<PrefixEntry>, slot: nat, seen: seq<u8>, len: nat): (v: Option<u8>)
    ensures v.None? ==> forall i :: slot <= i < |entries| ==> !EntryMatches(entries[i], seen, len)
    ensures v.Some? ==> exists i :: slot <= i < |entries| && FirstMatch(entries, slot, i, seen, len) && entries[i].verdict == v.value
    decreases |entries| - slot
  {
    if slot >= |entries| then None
    else if EntryMatches(entries[slot], seen, len) then assert FirstMatch(entries, slot, slot, seen, len); Some(entries[slot].verdict)
    else
      assert forall i :: slot < i < |entries| && FirstMatch(entries, slot + 1, i, seen, len) ==> FirstMatch(entries, slot, i, seen, len);
      Scan(entries, slot + 1, seen, len)
  }

  predicate FirstMatch(entries: seq<PrefixEntry>, slot: int, i: int, seen: seq<u8>, len: nat)
    requires 0 <= slot <= i < |entries|
  {
    EntryMatches(entries[i], seen, len) && forall j :: slot <= j < i ==> !EntryMatches(entries[j], seen, len)
  }

  /** The search over slots misses no entry: the first empty slot comes after the last used one. */
  lemma {:induction false} SlotsScan(
      m: map<u64, PrefixEntry>, bound: set<u64>, rules: seq<Rule>, cgroup: u64, slot: nat, seen: seq<u8>, len: nat)
    requires PrefixesConsistent(m, bound, rules) && cgroup in bound && slot <= SlotsUsed(rules)
    ensures FirstPrefix(m, cgroup, slot, seen, len) == Scan(PrefixEntries(rules)[..SlotsUsed(rules)], slot, seen, len)
    decreases SlotsUsed(rules) - slot
  {
    hide PrefixEntries, SlotKey, EntryMatches;
    if slot < MAX_PREFIX_SLOTS {
      SlotKeyParts(cgroup, slot);
    }
    if slot < SlotsUsed(rules) {
      SlotsScan(m, bound, rules, cgroup, slot + 1, seen, len);
    }
  }

  /** The entry a prefix rule becomes stands after those of the prefix rules before it. */
  lemma {:induction false} EntryOfRule(rules: seq<Rule>, i: nat)
    requires i < |rules| && IsPrefixRule(rules[i])
    ensures var e := |PrefixEntries(rules[..i])|;
      e < |PrefixEntries(rules)| && PrefixEntries(rules)[e] == EntryOf(rules[i].obj.file.pattern.prefix, rules[i].verdict)
    decreases |rules|
  {
    hide EntryOf;
    var n := |rules| - 1;
    if i < n {
      assert rules[..n][..i] == rules[..i];
      EntryOfRule(rules[..n], i);
    }
  }

  /** Every entry comes from a prefix rule. */
  lemma {:induction false} RuleOfEntry(rules: seq<Rule>, e: nat) returns (i: nat)
    requires e < |PrefixEntries(rules)|
    ensures i < |rules| && IsPrefixRule(rules[i]) && |PrefixEntries(rules[..i])| == e
    decreases |rules|
  {
    hide EntryOf;
    var n := |rules| - 1;
    if e < |PrefixEntries(rules[..n])| {
      i := RuleOfEntry(rules[..n], e);
      assert rules[..n][..i] == rules[..i];
    } else {
      i := n;
    }
  }

  lemma {:induction false} EntriesGrow(rules: seq<Rule>, i: nat, j: nat)
    requires i <= j <= |rules|
    ensures |PrefixEntries(rules[..i])| <= |PrefixEntries(rules[..j])|
    ensures i < j && IsPrefixRule(rules[i]) ==> |PrefixEntries(rules[..i])| < |PrefixEntries(rules[..j])|
    decreases j
  {
    hide EntryOf;
    if i < j {
      EntriesGrow(rules, i, j - 1);
      assert rules[..j][..j - 1] == rules[..j - 1];
    }
  }

  lemma EntryMatchesRule(r: Rule, seen: seq<u8>, len: nat)
    requires IsPrefixRule(r) && |seen| <= len
    ensures EntryMatches(EntryOf(r.obj.file.pattern.prefix, r.verdict), seen, len) <==> PrefixHits(r, seen)
    ensures EntryOf(r.obj.file.pattern.prefix, r.verdict).verdict != 0 <==> r.verdict != Deny
  {
    hide Utf8;
  }

  /** From the first matching entry to the first matching rule. */
  lemma FirstEntryIsFirstRule(rules: seq<Rule>, seen: seq<u8>, len: nat, e: nat, i: nat)
    requires |seen| <= len && e < SlotsUsed(rules)
    requires i < |rules| && IsPrefixRule(rules[i]) && |PrefixEntries(rules[..i])| == e
    requires FirstMatch(PrefixEntries(rules)[..SlotsUsed(rules)], 0, e, seen, len)
    ensures FirstPrefixAt(rules, seen, i)
    ensures PrefixEntries(rules)[e].verdict != 0 <==> rules[i].verdict != Deny
  {
    hide PrefixEntries, EntryOf, EntryMatches, PrefixHits;
    var used := PrefixEntries(rules)[..SlotsUsed(rules)];
    EntryOfRule(rules, i);
    EntryMatchesRule(rules[i], seen, len);
    forall j | 0 <= j < i ensures !PrefixHits(rules[j], seen) {
      if IsPrefixRule(rules[j]) {
        EntryOfRule(rules, j);
        EntriesGrow(rules, j, i);
        EntryMatchesRule(rules[j], seen, len);
        assert !EntryMatches(used[|PrefixEntries(rules[..j])|], seen, len);
      } else {
        assert !PrefixHits(rules[j], seen) by { NotAPrefix(rules[j], seen); }
      }
    }
  }

  lemma NotAPrefix(r: Rule, seen: seq<u8>)
    requires !IsPrefixRule(r)
    ensures !PrefixHits(r, seen)
  {
  }

  lemma FirstRuleIsUnique(rules: seq<Rule>, seen: seq<u8>, i: int, j: int)
    requires 0 <= i < |rules| && 0 <= j < |rules| && FirstPrefixAt(rules, seen, i) && FirstPrefixAt(rules, seen, j)
    ensures i == j
  {
    hide PrefixHits, PrefixEntries;
  }

  lemma PrefixTier(m: map<u64, PrefixEntry>, bound: set<u64>, rules: seq<Rule>, cgroup: u64, seen: seq<u8>, len: nat)
    requires PrefixesConsistent(m, bound, rules) && cgroup in bound && |seen| <= len
    ensures var v := FirstPrefix(m, cgroup, 0, seen, len);
      v.Some? && v.value != 0 <==> exists i :: 0 <= i < |rules| && FirstPrefixAt(rules, seen, i) && rules[i].verdict != Deny
  {
    hide PrefixEntries, EntryOf, EntryMatches, PrefixHits, FirstPrefix, Scan, FirstPrefixAt, FirstMatch, PrefixesConsistent;
    SlotsScan(m, bound, rules, cgroup, 0, seen, len);
    var used := PrefixEntries(rules)[..SlotsUsed(rules)];
    var v := FirstPrefix(m, cgroup, 0, seen, len);
    if v.Some? {
      var e :| 0 <= e < |used| && FirstMatch(used, 0, e, seen, len) && used[e].verdict == v.value;
      var i := RuleOfEntry(rules, e);
      FirstEntryIsFirstRule(rules, seen, len, e, i);
      forall j | 0 <= j < |rules| && FirstPrefixAt(rules, seen, j) ensures j == i {
        FirstRuleIsUnique(rules, seen, i, j);
      }
    } else {
      forall i | 0 <= i < |rules| ensures !FirstPrefixAt(rules, seen, i) {
        NoMatchNoRule(rules, seen, len, i);
      }
    }
  }

  lemma NoMatchNoRule(rules: seq<Rule>, seen: seq<u8>, len: nat, i: nat)
    requires i < |rules| && |seen| <= len
    requires var used := PrefixEntries(rules)[..SlotsUsed(rules)];
      forall e :: 0 <= e < |used| ==> !EntryMatches(used[e], seen, len)
    ensures !FirstPrefixAt(rules, seen, i)
  {
    hide PrefixEntries, EntryOf, EntryMatches, PrefixHits;
    if IsPrefixRule(rules[i]) {
      EntryOfRule(rules, i);
      EntryMatchesRule(rules[i], seen, len);
      var used := PrefixEntries(rules)[..SlotsUsed(rules)];
      var e := |PrefixEntries(rules[..i])|;
      assert e < |used| ==> used[e] == PrefixEntries(rules)[e];
    } else {
      NotAPrefix(rules[i], seen);
    }
  }

  // ---- the hooks decide what the rules say ----

  const DENY_BY_DEFAULT: u8 := 0

  /** An open of a bound cgroup passes exactly when the rule list allows it. */
  lemma FileOpenFollowsRules(
      m: Maps, bound: set<u64>, rules: seq<Rule>, cgroup: u64, config: PolicyConfig, view: PathView, flags: Option<u32>)
    requires Consistent(m, bound, rules) && cgroup in bound && config.defaultAction == DENY_BY_DEFAULT
    requires NoCollision(rules, view.seen) && |view.seen| <= view.len
    ensures FileDecision(m, config, cgroup, view, RequestedAccess(flags)).Pass? <==>
            FileAllowed(rules, view.seen, view.Class(), OpeningOf(flags))
  {
    hide MaskAfter, ClassEntry, FirstPrefix, ListedPath, AllowsAccess, ClassAllowed, ClassSettled, NoCollision, Grants,
      FirstPrefixAt, Fnv.Hash, PathView.Class, PathPattern.Code, PrefixesConsistent, ExecsConsistent, NetsConsistent,
      RequestedAccess, OpeningOf;
    var exact := PathPolicyKey(cgroup, view.Hash());
    assert Get(m.filePaths, exact) == MaskAfter(rules, Fnv.Hash(view.seen), None);
    ExactTier(rules, view.seen, flags);
    assert Get(m.filePatterns, ClassKey(cgroup, view.Class())) == ClassEntry(rules, view.Class());
    ClassTier(rules, view.Class());
    PrefixTier(m.filePrefixes, bound, rules, cgroup, view.seen, view.len);
  }

  /** What an open of a bound cgroup reports: nothing when it is allowed; a refusal by an exact rule, or for
      want of any rule, in both modes, and one by a class or a prefix only when auditing. The event carries
      the cgroup, the path's hash and verdict 0; its pattern is 0 for an exact rule, the class's own
      number for a class, and 255 for a prefix or no rule. */
  lemma OpenReportsFollowRules(
      m: Maps, bound: set<u64>, rules: seq<Rule>, cgroup: u64, config: PolicyConfig, view: PathView, flags: Option<u32>)
    requires Consistent(m, bound, rules) && cgroup in bound && config.defaultAction == DENY_BY_DEFAULT
    requires NoCollision(rules, view.seen) && |view.seen| <= view.len
    ensures var d, c, hash := FileDecision(m, config, cgroup, view, RequestedAccess(flags)), view.Class(), Fnv.Hash(view.seen);
      Reports(d, config, cgroup, view.Hash(), FILE_OPEN) ==
      if FileAllowed(rules, view.seen, c, OpeningOf(flags)) then []
      else if ListedPath(rules, view.seen) then [AuditEvent(cgroup, hash, 0, 0, 0)]
      else if c != Regular && ClassSettled(rules, c) then
        (if config.auditOnly != 0 then [AuditEvent(cgroup, hash, c.Code(), 0, 0)] else [])
      else if SomePrefix(rules, view.seen) then
        (if config.auditOnly != 0 then [AuditEvent(cgroup, hash, 255, 0, 0)] else [])
      else [AuditEvent(cgroup, hash, 255, 0, 0)]
  {
    hide MaskAfter, ClassEntry, FirstPrefix, ListedPath, AllowsAccess, ClassAllowed, ClassSettled, NoCollision, Grants,
      FirstPrefixAt, Fnv.Hash, PathView.Class, PrefixesConsistent, ExecsConsistent, NetsConsistent,
      RequestedAccess, OpeningOf, FileAllowed, SomePrefix, PathPattern.Code;
    var exact := PathPolicyKey(cgroup, view.Hash());
    assert Get(m.filePaths, exact) == MaskAfter(rules, Fnv.Hash(view.seen), None);
    ExactTier(rules, view.seen, flags);
    assert Get(m.filePatterns, ClassKey(cgroup, view.Class())) == ClassEntry(rules, view.Class());
    ClassTier(rules, view.Class());
    FileOpenFollowsRules(m, bound, rules, cgroup, config, view, flags);
    PrefixTierFinds(m.filePrefixes, bound, rules, cgroup, view.seen, view.len);
    assert Regular.Code() == 0 by { RegularCode(); }
  }

  predicate SomePrefix(rules: seq<Rule>, path: seq<u8>) { exists i :: 0 <= i < |rules| && FirstPrefixAt(rules, path, i) }

  lemma RegularCode()
    ensures Regular.Code() == 0
  {
  }

  lemma PrefixTierFinds(m: map<u64, PrefixEntry>, bound: set<u64>, rules: seq<Rule>, cgroup: u64, seen: seq<u8>, len: nat)
    requires PrefixesConsistent(m, bound, rules) && cgroup in bound && |seen| <= len
    ensures FirstPrefix(m, cgroup, 0, seen, len).Some? <==> SomePrefix(rules, seen)
  {
    hide PrefixEntries, EntryOf, EntryMatches, PrefixHits, FirstPrefix, Scan, FirstPrefixAt, FirstMatch, PrefixesConsistent;
    SlotsScan(m, bound, rules, cgroup, 0, seen, len);
    var used := PrefixEntries(rules)[..SlotsUsed(rules)];
    var v := FirstPrefix(m, cgroup, 0, seen, len);
    if v.Some? {
      var e :| 0 <= e < |used| && FirstMatch(used, 0, e, seen, len) && used[e].verdict == v.value;
      var i := RuleOfEntry(rules, e);
      FirstEntryIsFirstRule(rules, seen, len, e, i);
    } else {
      forall i | 0 <= i < |rules| ensures !FirstPrefixAt(rules, seen, i) {
        NoMatchNoRule(rules, seen, len, i);
      }
    }
  }

  lemma LastBinary(rules: seq<Rule>, path: seq<u8>)
    requires NoCollision(rules, path)
    ensures ExecAllowed(rules, path) <==>
            exists i :: 0 <= i < |rules| && LastAt(rules, ExecTarget(Fnv.Hash(path)), i) && rules[i].verdict != Deny
  {
    hide Fnv.Hash, Utf8;
    var t := ExecTarget(Fnv.Hash(path));
    assert forall i :: 0 <= i < |rules| ==> (Hits(rules[i], t) <==> ForBinary(rules[i], path));
    assert forall i :: 0 <= i < |rules| ==>
      (LastAt(rules, t, i) <==> ForBinary(rules[i], path) && forall j :: i < j < |rules| ==> !ForBinary(rules[j], path));
  }

  /** An execution passes exactly when the last rule for the binary's path does not deny it. */
  lemma ExecFollowsRules(
      m: Maps, bound: set<u64>, rules: seq<Rule>, cgroup: u64, config: PolicyConfig, view: PathView)
    requires Consistent(m, bound, rules) && cgroup in bound && config.defaultAction == DENY_BY_DEFAULT
    requires NoCollision(rules, view.seen)
    ensures ExecDecision(m, config, cgroup, view).Pass? <==> ExecAllowed(rules, view.seen)
  {
    hide LastVerdict, Fnv.Hash, PathView.Class, PathPattern.Code, PrefixesConsistent, PathsConsistent, ClassesConsistent,
      NetsConsistent, NoCollision, ExecAllowed, LastAt;
    var exact := PathPolicyKey(cgroup, view.Hash());
    assert Get(m.execPaths, exact) == Over(LastVerdict(rules, ExecTarget(Fnv.Hash(view.seen))), None);
    LastVerdictIs(rules, ExecTarget(Fnv.Hash(view.seen)));
    LastBinary(rules, view.seen);
  }

  /** What an execution reports. */
  lemma ExecReportsFollowRules(
      m: Maps, bound: set<u64>, rules: seq<Rule>, cgroup: u64, config: PolicyConfig, view: PathView)
    requires Consistent(m, bound, rules) && cgroup in bound && config.defaultAction == DENY_BY_DEFAULT
    requires NoCollision(rules, view.seen)
    ensures var d, hash := ExecDecision(m, config, cgroup, view), Fnv.Hash(view.seen);
      Reports(d, config, cgroup, view.Hash(), PROC_EXEC) ==
      if ExecAllowed(rules, view.seen) then []
      else if SomeBinary(rules, view.seen) then (if config.auditOnly != 0 then [AuditEvent(cgroup, hash, 0, 5, 0)] else [])
      else [AuditEvent(cgroup, hash, 255, 5, 0)]
  {
    hide LastVerdict, Fnv.Hash, PathView.Class, PathPattern.Code, PrefixesConsistent, PathsConsistent, ClassesConsistent,
      NetsConsistent, NoCollision, ExecAllowed, LastAt;
    var exact := PathPolicyKey(cgroup, view.Hash());
    assert Get(m.execPaths, exact) == Over(LastVerdict(rules, ExecTarget(Fnv.Hash(view.seen))), None);
    LastVerdictIs(rules, ExecTarget(Fnv.Hash(view.seen)));
    LastBinary(rules, view.seen);
    SomeBinaryHits(rules, view.seen);
  }

  predicate SomeBinary(rules: seq<Rule>, path: seq<u8>) { exists i :: 0 <= i < |rules| && ForBinary(rules[i], path) }

  lemma SomeBinaryHits(rules: seq<Rule>, path: seq<u8>)
    requires NoCollision(rules, path)
    ensures SomeBinary(rules, path) <==> exists i :: 0 <= i < |rules| && Hits(rules[i], ExecTarget(Fnv.Hash(path)))
  {
    hide Fnv.Hash, Utf8;
    assert forall i :: 0 <= i < |rules| ==> (Hits(rules[i], ExecTarget(Fnv.Hash(path))) <==> ForBinary(rules[i], path));
  }

  /** A connection passes exactly when the rules for the endpoint, or for its address, allow it. */
  lemma ConnectFollowsRules(
      m: Maps, bound: set<u64>, rules: seq<Rule>, cgroup: u64, config: PolicyConfig, ip: u32, port: u32)
    requires Consistent(m, bound, rules) && cgroup in bound && config.defaultAction == DENY_BY_DEFAULT
    ensures NetDecision(m, config, cgroup, ip, port).Pass? <==> NetAllowed(rules, ip, port)
  {
    hide LastVerdict, PrefixesConsistent, PathsConsistent, ClassesConsistent, ExecsConsistent, LastAt, Hits;
    assert Get(m.netRules, NetPolicyKey(cgroup, ip, port, 0)) == Over(LastVerdict(rules, NetTarget(ip, port)), None);
    assert Get(m.netRules, NetPolicyKey(cgroup, ip, 0, 0)) == Over(LastVerdict(rules, NetTarget(ip, 0)), None);
    LastVerdictIs(rules, NetTarget(ip, port));
    LastVerdictIs(rules, NetTarget(ip, 0));
  }

  /** What a connection reports: the event's number is the address and then the port. */
  lemma ConnectReportsFollowRules(
      m: Maps, bound: set<u64>, rules: seq<Rule>, cgroup: u64, config: PolicyConfig, ip: u32, port: u32)
    requires Consistent(m, bound, rules) && cgroup in bound && config.defaultAction == DENY_BY_DEFAULT
    ensures var d, id := NetDecision(m, config, cgroup, ip, port), ip * 0x1_0000_0000 + port;
      Reports(d, config, cgroup, NetId(ip, port), NET_CONNECT) ==
      if NetAllowed(rules, ip, port) then []
      else if SomeHit(rules, NetTarget(ip, port)) || SomeHit(rules, NetTarget(ip, 0)) then
        (if config.auditOnly != 0 then [AuditEvent(cgroup, id, 0, 3, 0)] else [])
      else [AuditEvent(cgroup, id, 255, 3, 0)]
  {
    hide LastVerdict, PrefixesConsistent, PathsConsistent, ClassesConsistent, ExecsConsistent, LastAt, Hits, NetAllowed;
    assert Get(m.netRules, NetPolicyKey(cgroup, ip, port, 0)) == Over(LastVerdict(rules, NetTarget(ip, port)), None);
    assert Get(m.netRules, NetPolicyKey(cgroup, ip, 0, 0)) == Over(LastVerdict(rules, NetTarget(ip, 0)), None);
    ConnectFollowsRules(m, bound, rules, cgroup, config, ip, port);
    LastVerdictIs(rules, NetTarget(ip, port));
    LastVerdictIs(rules, NetTarget(ip, 0));
  }

  predicate SomeHit(rules: seq<Rule>, t: Target) { exists i :: 0 <= i < |rules| && Hits(rules[i], t) }

  // ---- which path the hooks see ----

  /** Of a file whose location fits 769 bytes, the hooks see exactly the absolute path; its classifier
      input is that path's. */
  lemma HooksSeeTheFile(k: Kernel, file: PathRef)
    requires Start(k, file, MAX_PATH_DEPTH).Some?
    requires var names := Start(k, file, MAX_PATH_DEPTH).value.names;
      Named(names) && ShortNames(names) && |Absolute(names)| <= 769
    ensures var path := Absolute(Start(k, file, MAX_PATH_DEPTH).value.names);
      && ViewOf(k, file).seen == path && ViewOf(k, file).len == |path|
      && ViewOf(k, file).classifyBytes == ClassifyBytes(Zeros(MAX_PATH_LEN - |path|) + path, Prepend, |path|)
  {
    hide Resolved, ClassifyBytes, Seen, Location;
    ResolveIsAbsolutePath(k, file, MAX_PATH_DEPTH);
    var path := Absolute(Start(k, file, MAX_PATH_DEPTH).value.names);
    var buffer := Zeros(MAX_PATH_LEN - |path|) + path;
    var seen := Seen(buffer, Prepend, |path|);
    forall i | 0 <= i < |path| ensures seen[i] == path[i] {
      SeenAt(buffer, path, i);
    }
  }

  // ---- policies without cut or dropped prefixes ----

  predicate AllPrefixesLoaded(rules: seq<Rule>) {
    && |PrefixEntries(rules)| <= 64
    && forall i :: 0 <= i < |rules| && IsPrefixRule(rules[i]) ==>
         1 <= |Utf8(rules[i].obj.file.pattern.prefix)| <= 128
  }

  /** With at most 64 prefixes of 1 to 128 bytes, the prefix tier is the first prefix rule, in rule
      order, whose whole prefix begins the path. */
  lemma LoadedPrefixesAreWhole(rules: seq<Rule>, path: seq<u8>, i: int)
    requires AllPrefixesLoaded(rules) && 0 <= i < |rules|
    ensures FirstPrefixAt(rules, path, i) <==>
            && IsPrefixRule(rules[i]) && Utf8(rules[i].obj.file.pattern.prefix) <= path
            && forall j :: 0 <= j < i && IsPrefixRule(rules[j]) ==> !(Utf8(rules[j].obj.file.pattern.prefix) <= path)
  {
    hide Utf8, PrefixEntries;
    if IsPrefixRule(rules[i]) {
      EntryOfRule(rules, i);
    }
    assert forall j :: 0 <= j < |rules| ==>
      (PrefixHits(rules[j], path) <==> IsPrefixRule(rules[j]) && Utf8(rules[j].obj.file.pattern.prefix) <= path);
  }

  /** The bytes a located path counts as in the exact and prefix tiers: itself up to 769 bytes, its last
      769 bytes beyond, and its rotation by 255 when it fills the buffer. */
  function CountsAs(path: seq<u8>): seq<u8>
    requires |path| <= MAX_PATH_LEN
  {
    if |path| <= 769 then path
    else if |path| < 1024 then path[|path| - 769..]
    else path[255..] + path[..255]
  }

  lemma ViewOfLocated(k: Kernel, file: PathRef)
    requires Start(k, file, MAX_PATH_DEPTH).Some?
    requires var names := Start(k, file, MAX_PATH_DEPTH).value.names; Named(names) && Fits(names)
    ensures var path := Absolute(Start(k, file, MAX_PATH_DEPTH).value.names);
      var buffer := Zeros(MAX_PATH_LEN - |path|) + path;
      && ViewOf(k, file).seen == Seen(buffer, Prepend, |path|) && ViewOf(k, file).len == |path|
      && RightAligned(buffer, path)
  {
    hide Resolved, ClassifyBytes, Seen, Location;
    ResolveIsAbsolutePath(k, file, MAX_PATH_DEPTH);
  }

  lemma FirstPrefixOfCut(
      prefixes: map<u64, PrefixEntry>, cgroup: u64, slot: nat, seen: seq<u8>, len: nat, cut: seq<u8>)
    requires PREFIX_MAX_LEN <= |cut| && cut <= seen && |seen| <= len
    ensures FirstPrefix(prefixes, cgroup, slot, seen, len) == FirstPrefix(prefixes, cgroup, slot, cut, |cut|)
    decreases MAX_PREFIX_SLOTS - slot
  {
    hide SlotKey;
    if slot < MAX_PREFIX_SLOTS && SlotKey(cgroup, slot) in prefixes {
      assert EntryMatches(prefixes[SlotKey(cgroup, slot)], seen, len) <==>
             EntryMatches(prefixes[SlotKey(cgroup, slot)], cut, |cut|);
      FirstPrefixOfCut(prefixes, cgroup, slot + 1, seen, len, cut);
    }
  }

  /** Bytes past the first 128 matter to the hash alone. */
  lemma CutDecides(m: Maps, config: PolicyConfig, cgroup: u64, view: PathView, cut: seq<u8>, req: bv8)
    requires PREFIX_MAX_LEN <= |cut| && cut <= view.seen && |view.seen| <= view.len
    requires Fnv.Hash(view.seen) == Fnv.Hash(cut)
    ensures FileDecision(m, config, cgroup, view, req) ==
            FileDecision(m, config, cgroup, view.(seen := cut, len := |cut|), req)
  {
    hide *;
    FirstPrefixOfCut(m.filePrefixes, cgroup, 0, view.seen, view.len, cut);
    var short := view.(seen := cut, len := |cut|);
    SameReading(view, short);
    ReadingDecides(m, config, cgroup, view, short, req);
  }

  lemma SameReading(v: PathView, w: PathView)
    ensures v.classifyBytes == w.classifyBytes ==> v.Class() == w.Class()
    ensures Fnv.Hash(v.seen) == Fnv.Hash(w.seen) ==> v.Hash() == w.Hash()
  {
    hide Fnv.Hash, Classifier.KernelClass;
  }

  /** The hash, the class and the first matching prefix are all the decision looks at. */
  lemma ReadingDecides(m: Maps, config: PolicyConfig, cgroup: u64, v: PathView, w: PathView, req: bv8)
    requires v.Hash() == w.Hash() && v.Class() == w.Class()
    requires FirstPrefix(m.filePrefixes, cgroup, 0, v.seen, v.len) == FirstPrefix(m.filePrefixes, cgroup, 0, w.seen, w.len)
    ensures FileDecision(m, config, cgroup, v, req) == FileDecision(m, config, cgroup, w, req)
  {
    hide FirstPrefix, PathView.Hash, PathView.Class, PathPattern.Code, Grants;
  }

  lemma SeenStartsWith(buffer: seq<u8>, path: seq<u8>)
    requires RightAligned(buffer, path)
    ensures CountsAs(path) <= Seen(buffer, Prepend, |path|)
    ensures |path| <= EXACT_LEN || |path| == MAX_PATH_LEN ==> Seen(buffer, Prepend, |path|) == CountsAs(path)
  {
    hide Seen;
    var seen, counts := Seen(buffer, Prepend, |path|), CountsAs(path);
    forall i | 0 <= i < |counts| ensures seen[i] == counts[i] {
      SeenAt(buffer, path, i);
    }
  }

  /** The whole chain for a located file: enforcing, the hook returns 0 exactly when the rule list
      allows the bytes the file's absolute path counts as; auditing, it always does. */
  lemma LocatedOpenFollowsRules(
      m: Maps, bound: set<u64>, rules: seq<Rule>, cgroup: u64, k: Kernel, file: PathRef, flags: Option<u32>)
    requires Consistent(m, bound, rules) && cgroup in bound && cgroup in m.cgroups
    requires m.cgroups[cgroup].defaultAction == DENY_BY_DEFAULT
    requires Start(k, file, MAX_PATH_DEPTH).Some?
    requires var names := Start(k, file, MAX_PATH_DEPTH).value.names;
      && Named(names) && Fits(names)
      && (|Absolute(names)| > 769 ==> Fnv.NulFree(Absolute(names)))
      && NoCollision(rules, CountsAs(Absolute(names)))
    ensures var path := Absolute(Start(k, file, MAX_PATH_DEPTH).value.names);
      var view, req, config := ViewOf(k, file), RequestedAccess(flags), m.cgroups[cgroup];
      ReturnCode(FileDecision(m, config, cgroup, view, req), config) == 0 <==>
      config.auditOnly != 0 || FileAllowed(rules, CountsAs(path), view.Class(), OpeningOf(flags))
  {
    hide ViewOf, FileDecision, FileAllowed, Consistent, NoCollision, Location, PathView.Class, RightAligned, Seen, Absolute;
    ViewOfLocated(k, file);
    var path := Absolute(Start(k, file, MAX_PATH_DEPTH).value.names);
    var buffer := Zeros(MAX_PATH_LEN - |path|) + path;
    var config, view, req := m.cgroups[cgroup], ViewOf(k, file), RequestedAccess(flags);
    SeenStartsWith(buffer, path);
    if EXACT_LEN < |path| < MAX_PATH_LEN {
      var cut := CountsAs(path);
      KernelHashIsUserHash(buffer, path);
      CutDecides(m, config, cgroup, view, cut, req);
      var short := view.(seen := cut, len := |cut|);
      FileOpenFollowsRules(m, bound, rules, cgroup, config, short, flags);
      SameClass(view, short);
    } else {
      FileOpenFollowsRules(m, bound, rules, cgroup, config, view, flags);
    }
  }

  /** Some allowing rule for the path, of one of the actions, is followed by no rule for the path that does
      not allow. */
  predicate Stands(rules: seq<Rule>, path: seq<u8>, actions: set<Action>) {
    exists i :: 0 <= i < |rules| && ForPath(rules[i], path) && rules[i].verdict == Allow && rules[i].action in actions
                && forall j :: i < j < |rules| && ForPath(rules[j], path) ==> rules[j].verdict == Allow
  }

  lemma StandsIsAccess(rules: seq<Rule>, path: seq<u8>)
    ensures AllowsAccess(rules, path, false) <==> Stands(rules, path, {FileOpen, FileRead})
    ensures AllowsAccess(rules, path, true) <==> Stands(rules, path, {FileWrite})
  {
    hide Utf8;
    forall i | 0 <= i < |rules|
      ensures ForPath(rules[i], path) && rules[i].action in {FileOpen, FileRead} <==>
              ForPath(rules[i], path) && !(rules[i].action == FileWrite)
    {
    }
    if Stands(rules, path, {FileOpen, FileRead}) {
      var i :| 0 <= i < |rules| && ForPath(rules[i], path) && rules[i].verdict == Allow && rules[i].action in {FileOpen, FileRead}
               && forall j :: i < j < |rules| && ForPath(rules[j], path) ==> rules[j].verdict == Allow;
      assert AllowsAt(rules, path, false, i);
    }
    if Stands(rules, path, {FileWrite}) {
      var i :| 0 <= i < |rules| && ForPath(rules[i], path) && rules[i].verdict == Allow && rules[i].action in {FileWrite}
               && forall j :: i < j < |rules| && ForPath(rules[j], path) ==> rules[j].verdict == Allow;
      assert AllowsAt(rules, path, true, i);
    }
  }

  /** For a file some exact rule names, the two low bits of the open flags decide what is asked: all but 1
      need a standing rule for opening or reading, all but 0 one for writing. Unreadable flags count as 0. */
  lemma ListedOpenFollowsModes(
      m: Maps, bound: set<u64>, rules: seq<Rule>, cgroup: u64, k: Kernel, file: PathRef, flags: Option<u32>)
    requires Consistent(m, bound, rules) && cgroup in bound && cgroup in m.cgroups
    requires m.cgroups[cgroup].defaultAction == DENY_BY_DEFAULT
    requires Start(k, file, MAX_PATH_DEPTH).Some?
    requires var names := Start(k, file, MAX_PATH_DEPTH).value.names;
      && Named(names) && Fits(names)
      && (|Absolute(names)| > 769 ==> Fnv.NulFree(Absolute(names)))
      && NoCollision(rules, CountsAs(Absolute(names)))
      && exists i :: 0 <= i < |rules| && ForPath(rules[i], CountsAs(Absolute(names)))
    ensures var path := CountsAs(Absolute(Start(k, file, MAX_PATH_DEPTH).value.names));
      var mode := (if flags.Some? then flags.value else 0) % 4;
      var config := m.cgroups[cgroup];
      ReturnCode(FileDecision(m, config, cgroup, ViewOf(k, file), RequestedAccess(flags)), config) == 0 <==>
      || config.auditOnly != 0
      || ((mode != 1 ==> Stands(rules, path, {FileOpen, FileRead})) && (mode != 0 ==> Stands(rules, path, {FileWrite})))
  {
    hide ViewOf, FileDecision, Consistent, NoCollision, Location, PathView.Class, Absolute, CountsAs, AllowsAccess, Stands,
      RequestedAccess, ForPath, ClassSettled, ClassAllowed, FirstPrefixAt;
    LocatedOpenFollowsRules(m, bound, rules, cgroup, k, file, flags);
    StandsIsAccess(rules, CountsAs(Absolute(Start(k, file, MAX_PATH_DEPTH).value.names)));
  }

  lemma SameClass(a: PathView, b: PathView)
    requires a.classifyBytes == b.classifyBytes
    ensures a.Class() == b.Class()
  {
  }

  // ---- exact rules shadow prefixes ----

  predicate OnlyAllows(rules: seq<Rule>) {
    forall i :: 0 <= i < |rules| && OnFile(rules[i]) ==> rules[i].verdict == Allow
  }

  /** Some exact rule names the path for writing, or else for opening or reading. */
  predicate Profiled(rules: seq<Rule>, path: seq<u8>, writing: bool) {
    exists i :: 0 <= i < |rules| && ForPath(rules[i], path) && (rules[i].action == FileWrite <==> writing)
  }

  lemma OnlyAllowsProfiled(rules: seq<Rule>, path: seq<u8>, writing: bool)
    requires OnlyAllows(rules)
    ensures AllowsAccess(rules, path, writing) <==> Profiled(rules, path, writing)
  {
    hide Utf8;
    if Profiled(rules, path, writing) {
      var i :| 0 <= i < |rules| && ForPath(rules[i], path) && (rules[i].action == FileWrite <==> writing);
      assert AllowsAt(rules, path, writing, i);
    }
    if AllowsAccess(rules, path, writing) {
      var i :| 0 <= i < |rules| && AllowsAt(rules, path, writing, i);
    }
  }

  lemma {:induction false} FirstHit(rules: seq<Rule>, path: seq<u8>, i: nat) returns (j: nat)
    requires i < |rules| && PrefixHits(rules[i], path)
    ensures j <= i && PrefixHits(rules[j], path) && forall l :: 0 <= l < j ==> !PrefixHits(rules[l], path)
  {
    hide PrefixHits;
    if l :| 0 <= l < i && PrefixHits(rules[l], path) {
      j := FirstHit(rules, path, l);
    } else {
      j := i;
    }
  }

  lemma OnlyAllowsClass(rules: seq<Rule>, c: PathPattern)
    requires OnlyAllows(rules) && ClassSettled(rules, c)
    ensures ClassAllowed(rules, c)
  {
    hide CategoryNamed, CategoryOf;
    LastVerdictIs(rules, ClassTarget(c));
    var v := LastVerdict(rules, ClassTarget(c));
    if v.Some? {
      var i :| 0 <= i < |rules| && LastAt(rules, ClassTarget(c), i) && rules[i].verdict == v.value;
    }
  }

  /** In a list of allowing rules, a path under a loaded prefix may be opened in either way, unless an
      exact rule names it: then only the accesses exact rules name remain. So the access of a prefix
      rule is not looked at, and adding an allowing exact rule can take an access away. */
  lemma PrefixUnlessShadowed(rules: seq<Rule>, path: seq<u8>, c: PathPattern, o: Opening, i: nat)
    requires OnlyAllows(rules) && AllPrefixesLoaded(rules)
    requires i < |rules| && IsPrefixRule(rules[i]) && Utf8(rules[i].obj.file.pattern.prefix) <= path
    ensures FileAllowed(rules, path, c, o) <==>
            (ListedPath(rules, path) ==>
               (o.reading ==> Profiled(rules, path, false)) && (o.writing ==> Profiled(rules, path, true)))
  {
    hide Utf8, ListedPath, AllowsAccess, Profiled, ClassAllowed, ClassSettled, PrefixEntries;
    OnlyAllowsProfiled(rules, path, false);
    OnlyAllowsProfiled(rules, path, true);
    if !ListedPath(rules, path) {
      if ClassSettled(rules, c) {
        OnlyAllowsClass(rules, c);
      }
      var j := FirstHit(rules, path, i);
      EntryOfRule(rules, j);
      assert FirstPrefixAt(rules, path, j);
    }
  }

  // ---- restarts ----

  /** Loading for the first id, then rebinding from each id to the next. */
  function AfterRun(m: Maps, auditOnly: bool, rules: seq<Rule>, ids: seq<u64>): Maps
    requires ids != []
  {
    var n := |ids| - 1;
    if n == 0 then Bound(m, ids[0], auditOnly, rules)
    else Rebound(AfterRun(m, auditOnly, rules, ids[..n]), ids[n - 1], ids[n], auditOnly, rules)
  }

  function IdSet(ids: seq<u64>): set<u64> { set id | id in ids }

  predicate Empty(m: Maps) {
    && m.cgroups == map[] && m.filePaths == map[] && m.filePatterns == map[] && m.filePrefixes == map[]
    && m.execPaths == map[] && m.execPatterns == map[] && m.netRules == map[]
  }

  predicate LastMoved(ids: seq<u64>)
    requires ids != []
  {
    |ids| == 1 || ids[|ids| - 2] != ids[|ids| - 1]
  }

  /** After any run of rebinds, returns to earlier ids included, the entries of every id are what the
      rules say, and the last id alone is enforced, provided the last rebind changed the id: rebinding
      an id to itself takes it off the allowlist. */
  lemma {:induction false} RunsStayConsistent(m: Maps, auditOnly: bool, rules: seq<Rule>, ids: seq<u64>)
    requires Empty(m) && ids != []
    ensures var o, last := AfterRun(m, auditOnly, rules, ids), ids[|ids| - 1];
      && Consistent(o, IdSet(ids), rules)
      && o.cgroups == (if LastMoved(ids) then map[last := PolicyConfig(0, if auditOnly then 1 else 0)] else map[])
      && o.skbCgroup == if m.skbCgroup.Some? then Some(last) else None
    decreases |ids|
  {
    hide Bound, Consistent, Rebound, IdSet;
    var n := |ids| - 1;
    IdSetGrows(ids);
    if n == 0 {
      EmptyIsConsistent(m, rules);
      BoundStaysConsistent(m, {}, ids[0], auditOnly, rules);
    } else {
      RunsStayConsistent(m, auditOnly, rules, ids[..n]);
      ReboundStaysConsistent(AfterRun(m, auditOnly, rules, ids[..n]), IdSet(ids[..n]), ids[n - 1], ids[n], auditOnly, rules);
    }
  }

  lemma IdSetGrows(ids: seq<u64>)
    requires ids != []
    ensures IdSet(ids) == IdSet(ids[..|ids| - 1]) + {ids[|ids| - 1]}
    ensures IdSet([]) == {}
  {
    assert ids == ids[..|ids| - 1] + [ids[|ids| - 1]];
  }

  lemma ReboundStaysConsistent(
      m: Maps, bound: set<u64>, oldCgroup: u64, newCgroup: u64, auditOnly: bool, rules: seq<Rule>)
    requires Consistent(m, bound, rules)
    requires m.cgroups.Keys <= {oldCgroup}
    ensures var o := Rebound(m, oldCgroup, newCgroup, auditOnly, rules);
      && Consistent(o, bound + {newCgroup}, rules)
      && o.cgroups == (if oldCgroup != newCgroup then map[newCgroup := PolicyConfig(0, if auditOnly then 1 else 0)] else map[])
      && o.skbCgroup == if m.skbCgroup.Some? then Some(newCgroup) else None
  {
    hide Bound, Consistent;
    BoundStaysConsistent(m, bound, newCgroup, auditOnly, rules);
    var b := Bound(m, newCgroup, auditOnly, rules);
    ConsistencyIgnoresAllowlist(b, b.cgroups - {oldCgroup}, bound + {newCgroup}, rules);
  }

  lemma ConsistencyIgnoresAllowlist(m: Maps, cgroups: map<u64, PolicyConfig>, bound: set<u64>, rules: seq<Rule>)
    requires Consistent(m, bound, rules)
    ensures Consistent(m.(cgroups := cgroups), bound, rules)
  {
    hide PathsConsistent, ClassesConsistent, ExecsConsistent, NetsConsistent, PrefixesConsistent;
  }

  /** Two cgroups bound to the same rules, in whatever maps, get the same decisions. */
  lemma SameFileDecisions(
      m: Maps, mBound: set<u64>, c: u64, n: Maps, nBound: set<u64>, d: u64,
      rules: seq<Rule>, config: PolicyConfig, view: PathView, req: bv8)
    requires Consistent(m, mBound, rules) && c in mBound && Consistent(n, nBound, rules) && d in nBound
    ensures FileDecision(m, config, c, view, req) == FileDecision(n, config, d, view, req)
  {
    hide MaskAfter, LastVerdict, ClassEntry, FirstPrefix, Scan, PathView.Hash, PathView.Class, PathPattern.Code,
      PrefixesConsistent, ExecsConsistent, NetsConsistent, PrefixEntries, Grants;
    var h, k := view.Hash(), view.Class();
    assert Get(m.filePaths, PathPolicyKey(c, h)) == Get(n.filePaths, PathPolicyKey(d, h));
    assert Get(m.filePatterns, ClassKey(c, k)) == Get(n.filePatterns, ClassKey(d, k));
    SlotsScan(m.filePrefixes, mBound, rules, c, 0, view.seen, view.len);
    SlotsScan(n.filePrefixes, nBound, rules, d, 0, view.seen, view.len);
  }

  lemma SameOtherDecisions(
      m: Maps, mBound: set<u64>, c: u64, n: Maps, nBound: set<u64>, d: u64,
      rules: seq<Rule>, config: PolicyConfig, view: PathView, ip: u32, port: u32)
    requires Consistent(m, mBound, rules) && c in mBound && Consistent(n, nBound, rules) && d in nBound
    ensures ExecDecision(m, config, c, view) == ExecDecision(n, config, d, view)
    ensures NetDecision(m, config, c, ip, port) == NetDecision(n, config, d, ip, port)
  {
    hide LastVerdict, PathView.Hash, PathView.Class, PathPattern.Code, PathsConsistent, ClassesConsistent,
      PrefixesConsistent;
    var h := view.Hash();
    assert Get(m.execPaths, PathPolicyKey(c, h)) == Get(n.execPaths, PathPolicyKey(d, h));
    assert Get(m.netRules, NetPolicyKey(c, ip, port, 0)) == Get(n.netRules, NetPolicyKey(d, ip, port, 0));
    assert Get(m.netRules, NetPolicyKey(c, ip, 0, 0)) == Get(n.netRules, NetPolicyKey(d, ip, 0, 0));
  }

  /** After any run whose last rebind changed the id, the current cgroup is decided as by a fresh load
      for it, and no other cgroup is enforced. */
  lemma RebindIsFreshLoad(
      m: Maps, auditOnly: bool, rules: seq<Rule>, ids: seq<u64>, view: PathView, req: bv8, ip: u32, port: u32)
    requires Empty(m) && ids != [] && LastMoved(ids)
    ensures var c := ids[|ids| - 1];
      var o, f := AfterRun(m, auditOnly, rules, ids), AfterRun(m, auditOnly, rules, [c]);
      && o.cgroups == f.cgroups && o.cgroups.Keys == {c}
      && FileDecision(o, o.cgroups[c], c, view, req) == FileDecision(f, f.cgroups[c], c, view, req)
      && ExecDecision(o, o.cgroups[c], c, view) == ExecDecision(f, f.cgroups[c], c, view)
      && NetDecision(o, o.cgroups[c], c, ip, port) == NetDecision(f, f.cgroups[c], c, ip, port)
  {
    hide AfterRun, Consistent, FileDecision, ExecDecision, NetDecision;
    var c := ids[|ids| - 1];
    RunsStayConsistent(m, auditOnly, rules, ids);
    RunsStayConsistent(m, auditOnly, rules, [c]);
    var o, f := AfterRun(m, auditOnly, rules, ids), AfterRun(m, auditOnly, rules, [c]);
    SameFileDecisions(o, IdSet(ids), c, f, IdSet([c]), c, rules, o.cgroups[c], view, req);
    SameOtherDecisions(o, IdSet(ids), c, f, IdSet([c]), c, rules, o.cgroups[c], view, ip, port);
  }
}
