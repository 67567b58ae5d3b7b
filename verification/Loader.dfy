/** The enforcement maps the loader fills and the kernel hooks read, and how a rule list is written
    into them for one cgroup. */
module Loader {
  import opened Strings
  import opened PathPatterns
  import opened Ir
  import Fnv

  // ---- map keys and values ----

  const ACCESS_READ: bv8 := 1
  const ACCESS_WRITE: bv8 := 2
  const MAX_PREFIX_SLOTS := 64

  datatype PolicyConfig = PolicyConfig(defaultAction: u8, auditOnly: u8)

  datatype PathPolicyKey = PathPolicyKey(cgroup: u64, pathHash: u64)

  datatype PatternKey = PatternKey(cgroup: u64, pattern: u8, action: u8)

  datatype NetPolicyKey = NetPolicyKey(cgroup: u64, dstIp: u32, dstPort: u32, protocol: u8)

  /** `bytes` is the prefix cut to the entry's fixed array. */
  datatype PrefixEntry = PrefixEntry(bytes: seq<u8>, verdict: u8)

  /** Contents of all the enforcement maps; `skbCgroup` is None when that map does not exist. */
  datatype Maps = Maps(
    cgroups: map<u64, PolicyConfig>,
    skbCgroup: Option<u64>,
    filePaths: map<PathPolicyKey, bv8>,
    filePatterns: map<PatternKey, u8>,
    filePrefixes: map<u64, PrefixEntry>,
    execPaths: map<PathPolicyKey, u8>,
    execPatterns: map<PatternKey, u8>,
    netRules: map<NetPolicyKey, u8>)

  /** `(cgroup << 8) | slot` on 64 bits. */
  function SlotKey(cgroup: u64, slot: nat): u64
    requires slot < MAX_PREFIX_SLOTS
  {
    cgroup * 0x100 % TWO_TO_THE_64 + slot
  }

  function VerdictCode(v: Verdict): u8 {
    match v case Deny => 0 case Allow => 1 case Audit => 2
  }

  function AccessBit(a: Action): bv8 { if a == FileWrite then ACCESS_WRITE else ACCESS_READ }

  function NetKey(cgroup: u64, n: NetworkObject): NetPolicyKey {
    NetPolicyKey(cgroup, if n.dstIp.Some? then n.dstIp.value else 0, if n.dstPort.Some? then n.dstPort.value else 0, 0)
  }

  function EntryOf(prefix: string, verdict: Verdict): PrefixEntry {
    var bytes := Utf8(prefix);
    PrefixEntry(bytes[..Min(|bytes|, PREFIX_MAX_LEN)], VerdictCode(verdict))
  }

  // ---- which rules reach which map ----

  predicate IsFileRule(r: Rule) { r.obj.File? && (r.action.FileOpen? || r.action.FileRead? || r.action.FileWrite?) }

  predicate IsPathRule(r: Rule) { IsFileRule(r) && r.obj.file.pattern.ExactPath? }

  predicate IsClassRule(r: Rule) { IsFileRule(r) && r.obj.file.pattern.Classified? }

  predicate IsPrefixRule(r: Rule) { IsFileRule(r) && r.obj.file.pattern.Prefix? }

  predicate IsExecRule(r: Rule) { r.obj.Process? && r.action.ProcExec? && r.obj.process.binary.BinaryPath? }

  predicate IsNetRule(r: Rule) { r.obj.Network? && r.action.NetConnect? && r.obj.net.dstIp.Some? }

  // ---- applying rules ----

  /** The maps and the next free prefix slot. */
  datatype Loading = Loading(maps: Maps, slot: nat)

  function PathKeyOf(cgroup: u64, path: string): PathPolicyKey { PathPolicyKey(cgroup, Fnv.Hash(Utf8(path))) }

  /** Exact paths hold an access mask: an allowing rule adds its bit, any other rule clears the mask. */
  function PathsWith(m: map<PathPolicyKey, bv8>, cgroup: u64, r: Rule): map<PathPolicyKey, bv8> {
    if IsPathRule(r) then
      var key := PathKeyOf(cgroup, r.obj.file.pattern.path);
      m[key := if r.verdict == Allow then (if key in m then m[key] else 0) | AccessBit(r.action) else 0]
    else m
  }

  function PatternsWith(m: map<PatternKey, u8>, cgroup: u64, r: Rule): map<PatternKey, u8> {
    if IsClassRule(r) then m[PatternKey(cgroup, r.obj.file.pattern.class_.Code(), 0) := VerdictCode(r.verdict)] else m
  }

  function PrefixesWith(m: map<u64, PrefixEntry>, cgroup: u64, slot: nat, r: Rule): map<u64, PrefixEntry> {
    if IsPrefixRule(r) && slot < MAX_PREFIX_SLOTS then
      m[SlotKey(cgroup, slot) := EntryOf(r.obj.file.pattern.prefix, r.verdict)]
    else m
  }

  function ExecsWith(m: map<PathPolicyKey, u8>, cgroup: u64, r: Rule): map<PathPolicyKey, u8> {
    if IsExecRule(r) then m[PathKeyOf(cgroup, r.obj.process.binary.path) := VerdictCode(r.verdict)] else m
  }

  function NetsWith(m: map<NetPolicyKey, u8>, cgroup: u64, r: Rule): map<NetPolicyKey, u8> {
    if IsNetRule(r) then m[NetKey(cgroup, r.obj.net) := VerdictCode(r.verdict)] else m
  }

  function ApplyRule(cgroup: u64, l: Loading, r: Rule): (o: Loading)
    requires l.slot <= MAX_PREFIX_SLOTS
    ensures o.slot <= MAX_PREFIX_SLOTS
  {
    var m := l.maps;
    Loading(m.(filePaths := PathsWith(m.filePaths, cgroup, r),
               filePatterns := PatternsWith(m.filePatterns, cgroup, r),
               filePrefixes := PrefixesWith(m.filePrefixes, cgroup, l.slot, r),
               execPaths := ExecsWith(m.execPaths, cgroup, r),
               netRules := NetsWith(m.netRules, cgroup, r)),
            if IsPrefixRule(r) && l.slot < MAX_PREFIX_SLOTS then l.slot + 1 else l.slot)
  }

  function ApplyAll(cgroup: u64, l: Loading, rules: seq<Rule>): (o: Loading)
    requires l.slot <= MAX_PREFIX_SLOTS
    ensures o.slot <= MAX_PREFIX_SLOTS
  {
    if rules == [] then l
    else ApplyRule(cgroup, ApplyAll(cgroup, l, rules[..|rules| - 1]), rules[|rules| - 1])
  }

  // The virtual-filesystem categories; a category with an entry gets all its members.

  const PROC_GLOBAL_GROUP: seq<PathPattern> := [ProcGlobal, ProcGlobalSys, ProcGlobalNet]
  const PROC_PID_GROUP: seq<PathPattern> :=
    [ProcPidCmdline, ProcPidComm, ProcPidCwd, ProcPidExe, ProcPidFd, ProcPidMountinfo, ProcPidMounts,
     ProcPidNet, ProcPidNs, ProcPidStat, ProcPidStatus, ProcPidTask, ProcPidCgroup, ProcPidOther, ProcSelf]
  const SYS_GROUP: seq<PathPattern> := [SysCgroupDocker, SysCgroupOther, SysClassNet, SysOther]
  const RUN_GROUP: seq<PathPattern> := [RunDocker, RunUser, RunOther]
  const DEV_GROUP: seq<PathPattern> := [DevPts, DevShm, DevOther]
  const TMP_GROUP: seq<PathPattern> := [TmpRandom, TmpOther]

  const CATEGORY_GROUPS: seq<seq<PathPattern>> :=
    [PROC_GLOBAL_GROUP, PROC_PID_GROUP, SYS_GROUP, RUN_GROUP, DEV_GROUP, TMP_GROUP]

  function ClassKey(cgroup: u64, c: PathPattern): PatternKey { PatternKey(cgroup, c.Code(), 0) }

  predicate AnyPresent(m: map<PatternKey, u8>, cgroup: u64, group: seq<PathPattern>) {
    exists i :: 0 <= i < |group| && ClassKey(cgroup, group[i]) in m
  }

  /** `m` with an allowing entry for each class of `classes` that has none. */
  function AllowMissing(m: map<PatternKey, u8>, cgroup: u64, classes: seq<PathPattern>): map<PatternKey, u8> {
    if classes == [] then m
    else
      var before := AllowMissing(m, cgroup, classes[..|classes| - 1]);
      var key := ClassKey(cgroup, classes[|classes| - 1]);
      if key in before then before else before[key := 1]
  }

  function ExpandGroup(m: map<PatternKey, u8>, cgroup: u64, group: seq<PathPattern>): map<PatternKey, u8> {
    if AnyPresent(m, cgroup, group) then AllowMissing(m, cgroup, group) else m
  }

  function Expand(m: map<PatternKey, u8>, cgroup: u64, groups: seq<seq<PathPattern>>): map<PatternKey, u8> {
    if groups == [] then m
    else ExpandGroup(Expand(m, cgroup, groups[..|groups| - 1]), cgroup, groups[|groups| - 1])
  }

  /** The maps once `cgroup` is announced to the hooks. */
  function Announce(m: Maps, cgroup: u64, auditOnly: bool): Maps {
    m.(cgroups := m.cgroups[cgroup := PolicyConfig(0, if auditOnly then 1 else 0)],
       skbCgroup := if m.skbCgroup.Some? then Some(cgroup) else None)
  }

  function Bound(m: Maps, cgroup: u64, auditOnly: bool, rules: seq<Rule>): Maps {
    var applied := ApplyAll(cgroup, Loading(Announce(m, cgroup, auditOnly), 0), rules).maps;
    applied.(filePatterns := Expand(applied.filePatterns, cgroup, CATEGORY_GROUPS))
  }

  function Rebound(m: Maps, oldCgroup: u64, newCgroup: u64, auditOnly: bool, rules: seq<Rule>): Maps {
    var b := Bound(m, newCgroup, auditOnly, rules);
    b.(cgroups := b.cgroups - {oldCgroup})
  }

  /** The retained map handles with the compiled rules. */
  class LoadedPolicy {
    const auditOnly: bool
    const rules: seq<Rule>
    var cgroups: map<u64, PolicyConfig>
    var skbCgroup: Option<u64>
    var filePaths: map<PathPolicyKey, bv8>
    var filePatterns: map<PatternKey, u8>
    var filePrefixes: map<u64, PrefixEntry>
    var execPaths: map<PathPolicyKey, u8>
    const execPatterns: map<PatternKey, u8>
    var netRules: map<NetPolicyKey, u8>

    function State(): Maps
      reads this
    {
      Maps(cgroups, skbCgroup, filePaths, filePatterns, filePrefixes, execPaths, execPatterns, netRules)
    }

    /** Takes over the maps `m` and applies `rules` for `cgroup`. */
    constructor (m: Maps, auditOnly: bool, rules: seq<Rule>, cgroup: u64)
      ensures this.auditOnly == auditOnly && this.rules == rules
      ensures State() == Bound(m, cgroup, auditOnly, rules)
    {
      this.auditOnly, this.rules := auditOnly, rules;
      cgroups, skbCgroup, filePaths, filePatterns := m.cgroups, m.skbCgroup, m.filePaths, m.filePatterns;
      filePrefixes, execPaths, execPatterns, netRules := m.filePrefixes, m.execPaths, m.execPatterns, m.netRules;
      new;
      assert State() == m;
      Bind(cgroup);
    }

    method Bind(cgroup: u64)
      modifies this
      ensures State() == Bound(old(State()), cgroup, auditOnly, rules)
    {
      hide ApplyAll, ApplyRule, ExpandGroup;
      cgroups := cgroups[cgroup := PolicyConfig(0, if auditOnly then 1 else 0)];
      if skbCgroup.Some? {
        skbCgroup := Some(cgroup);
      }
      ghost var start := Loading(State(), 0);
      assert start.maps == Announce(old(State()), cgroup, auditOnly);
      ApplyRules(cgroup);
      ghost var applied := State();
      for g := 0 to |CATEGORY_GROUPS|
        invariant State() == applied.(filePatterns := Expand(applied.filePatterns, cgroup, CATEGORY_GROUPS[..g]))
      {
        ExpandCategory(cgroup, CATEGORY_GROUPS[g]);
        assert CATEGORY_GROUPS[..g + 1][..g] == CATEGORY_GROUPS[..g];
      }
      assert CATEGORY_GROUPS[..|CATEGORY_GROUPS|] == CATEGORY_GROUPS;
    }

    method ApplyRules(cgroup: u64)
      modifies this
      ensures State() == ApplyAll(cgroup, Loading(old(State()), 0), rules).maps
    {
      ghost var start := Loading(State(), 0);
      var prefixSlot := 0;
      for i := 0 to |rules|
        invariant 0 <= prefixSlot <= MAX_PREFIX_SLOTS
        invariant Loading(State(), prefixSlot) == ApplyAll(cgroup, start, rules[..i])
      {
        prefixSlot := ApplyOne(cgroup, rules[i], prefixSlot);
        assert rules[..i + 1][..i] == rules[..i];
      }
      assert rules[..|rules|] == rules;
    }

    /** Writes one rule; `next` is the prefix slot the next prefix rule will use. */
    method ApplyOne(cgroup: u64, rule: Rule, prefixSlot: nat) returns (next: nat)
      requires prefixSlot <= MAX_PREFIX_SLOTS
      modifies this
      ensures Loading(State(), next) == ApplyRule(cgroup, Loading(old(State()), prefixSlot), rule)
    {
      var verdict := VerdictCode(rule.verdict);
      next := prefixSlot;
      match (rule.obj, rule.action)
      case (File(f), FileOpen) => next := ApplyFile(cgroup, rule, f, prefixSlot);
      case (File(f), FileRead) => next := ApplyFile(cgroup, rule, f, prefixSlot);
      case (File(f), FileWrite) => next := ApplyFile(cgroup, rule, f, prefixSlot);
      case (Process(p), ProcExec) =>
        match p.binary {
          case BinaryPath(path) =>
            var hash := Fnv.HashBytes(Utf8(path));
            execPaths := execPaths[PathPolicyKey(cgroup, hash) := verdict];
          case Comm(_) =>
        }
      case (Network(n), NetConnect) =>
        if n.dstIp.Some? {
          netRules := netRules[NetKey(cgroup, n) := verdict];
        }
      case _ =>
    }

    method ApplyFile(cgroup: u64, rule: Rule, f: FileObject, prefixSlot: nat) returns (next: nat)
      requires prefixSlot <= MAX_PREFIX_SLOTS
      requires rule.obj == File(f) && IsFileRule(rule)
      modifies this
      ensures Loading(State(), next) == ApplyRule(cgroup, Loading(old(State()), prefixSlot), rule)
    {
      next := prefixSlot;
      match f.pattern
      case ExactPath(path) =>
        var hash := Fnv.HashBytes(Utf8(path));
        var key := PathPolicyKey(cgroup, hash);
        var bit := AccessBit(rule.action);
        var mask: bv8 := 0;
        if rule.verdict == Allow {
          mask := if key in filePaths then filePaths[key] | bit else 0 | bit;
        }
        filePaths := filePaths[key := mask];
      case Classified(class_) =>
        filePatterns := filePatterns[PatternKey(cgroup, class_.Code(), 0) := VerdictCode(rule.verdict)];
      case Prefix(prefix) =>
        if prefixSlot < MAX_PREFIX_SLOTS {
          var bytes := Utf8(prefix);
          var copyLen := Min(|bytes|, PREFIX_MAX_LEN);
          var entry := PrefixEntry(bytes[..copyLen], VerdictCode(rule.verdict));
          filePrefixes := filePrefixes[SlotKey(cgroup, prefixSlot) := entry];
          next := prefixSlot + 1;
        }
    }

    method ExpandCategory(cgroup: u64, group: seq<PathPattern>)
      modifies this`filePatterns
      ensures filePatterns == ExpandGroup(old(filePatterns), cgroup, group)
    {
      hide ClassKey;
      var anyPresent := false;
      for i := 0 to |group|
        invariant anyPresent <==> exists j :: 0 <= j < i && ClassKey(cgroup, group[j]) in filePatterns
      {
        if ClassKey(cgroup, group[i]) in filePatterns {
          anyPresent := true;
          break;
        }
      }
      if anyPresent {
        for i := 0 to |group|
          invariant filePatterns == AllowMissing(old(filePatterns), cgroup, group[..i])
        {
          var key := ClassKey(cgroup, group[i]);
          if key !in filePatterns {
            filePatterns := filePatterns[key := 1];
          }
          assert group[..i + 1][..i] == group[..i];
        }
        assert group[..|group|] == group;
      }
    }

    /** Re-applies the policy under a new cgroup id and drops the old one from the allowlist. */
    method Rebind(oldCgroup: u64, newCgroup: u64)
      modifies this
      ensures State() == Rebound(old(State()), oldCgroup, newCgroup, auditOnly, rules)
    {
      Bind(newCgroup);
      cgroups := cgroups - {oldCgroup};
    }
  }
}
