/** The kernel hooks: tiered lookups in the enforcement maps, audit events and return codes. */
module Hooks {
  import opened Strings
  import opened PathPatterns
  import opened KernelPath
  import opened Loader
  import Classifier
  import Fnv

  const FILE_OPEN: u8 := 0
  const NET_CONNECT: u8 := 3
  const PROC_EXEC: u8 := 5
  const NOT_LISTED: u8 := 0xFF
  const AF_INET: u32 := 2

  datatype AuditEvent = AuditEvent(cgroup: u64, pathHash: u64, pattern: u8, action: u8, verdict: u8)

  // ---- decisions and their enactment ----

  /** `loud` refusals are reported in enforcing mode too. */
  datatype Decision = Pass | Refuse(pattern: u8, loud: bool)

  function ReturnCode(d: Decision, config: PolicyConfig): int {
    if d.Refuse? && config.auditOnly == 0 then -1 else 0
  }

  function Reports(d: Decision, config: PolicyConfig, cgroup: u64, id: u64, action: u8): seq<AuditEvent> {
    if d.Refuse? && (d.loud || config.auditOnly != 0) then [AuditEvent(cgroup, id, d.pattern, action, 0)] else []
  }

  /** What an entry with verdict code `v` decides. */
  function ByVerdict(v: u8, pattern: u8): Decision { if v == 0 then Refuse(pattern, false) else Pass }

  function ByDefault(config: PolicyConfig): Decision {
    if config.defaultAction == 0 then Refuse(NOT_LISTED, true) else Pass
  }

  function RequestedAccess(flags: Option<u32>): bv8 {
    var mode := (if flags.Some? then flags.value else 0) % 4;
    if mode == 0 then ACCESS_READ else if mode == 1 then ACCESS_WRITE else ACCESS_READ | ACCESS_WRITE
  }

  function VerdictToRc(v: u8): int { if v == 0 then -1 else 0 }

  // ---- the path a hook works on ----

  /** A resolved path as the readers of its buffer see it. */
  datatype PathView = PathView(seen: seq<u8>, len: nat, classifyBytes: seq<u8>)
  {
    function Hash(): u64 { Fnv.Hash(seen) }

    function Class(): PathPattern { Classifier.KernelClass(classifyBytes) }
  }

  /** What resolving `file` into a zeroed buffer gives. */
  function ViewOf(k: Kernel, file: PathRef): PathView {
    var b := Resolved(k, file, MAX_PATH_DEPTH, Built([], 0)).built;
    var mode := if ReachesBuffer(file) then Prepend else Append;
    var buffer := Zeros(MAX_PATH_LEN - |b.tail|) + b.tail;
    PathView(Seen(buffer, mode, b.len), b.len, ClassifyBytes(buffer, mode, b.len))
  }

  method ResolvePath(k: Kernel, file: PathRef) returns (path: Path)
    requires forall e :: e in k.name ==> |k.name[e]| <= U32_MAX
    ensures fresh(path) && fresh(path.buffer) && path.Valid()
    ensures ViewOf(k, file) == PathView(Seen(path.buffer[..], path.mode, path.len), path.len,
                                        ClassifyBytes(path.buffer[..], path.mode, path.len))
  {
    hide Resolved, Seen, ClassifyBytes, Classifier.KernelClass;
    path := new Path();
    assert path.Written() == Built([], 0);
    label start:
    var _ := path.CoreResolve(k, file, MAX_PATH_DEPTH);
    assert path.HeadKept@start();
    var b := path.Written();
    assert path.buffer[..] == Zeros(MAX_PATH_LEN - |b.tail|) + b.tail;
  }

  // ---- file opens ----

  predicate EntryMatches(e: PrefixEntry, seen: seq<u8>, len: nat) {
    0 < |e.bytes| <= len && |e.bytes| <= PREFIX_MAX_LEN && e.bytes <= seen
  }

  /** Verdict of the first matching slot from `slot` on; the search ends at the first empty slot. */
  function FirstPrefix(prefixes: map<u64, PrefixEntry>, cgroup: u64, slot: nat, seen: seq<u8>, len: nat): Option<u8>
    decreases MAX_PREFIX_SLOTS - slot
  {
    if slot >= MAX_PREFIX_SLOTS || SlotKey(cgroup, slot) !in prefixes then None
    else
      var e := prefixes[SlotKey(cgroup, slot)];
      if EntryMatches(e, seen, len) then Some(e.verdict) else FirstPrefix(prefixes, cgroup, slot + 1, seen, len)
  }

  /** The mask holds every requested access. */
  predicate Grants(mask: bv8, req: bv8) { mask != 0 && mask & req == req }

  function FileDecision(m: Maps, config: PolicyConfig, cgroup: u64, view: PathView, req: bv8): Decision {
    var exact := PathPolicyKey(cgroup, view.Hash());
    var class_ := PatternKey(cgroup, view.Class().Code(), FILE_OPEN);
    var prefix := FirstPrefix(m.filePrefixes, cgroup, 0, view.seen, view.len);
    if exact in m.filePaths then
      if Grants(m.filePaths[exact], req) then Pass
      else Refuse(Regular.Code(), true)
    else if view.Class() != Regular && class_ in m.filePatterns then
      ByVerdict(m.filePatterns[class_], view.Class().Code())
    else if prefix.Some? then ByVerdict(prefix.value, NOT_LISTED)
    else ByDefault(config)
  }

  method CheckPrefixMatch(m: Maps, config: PolicyConfig, cgroup: u64, hash: u64, path: Path)
    returns (rc: Option<int>, audit: seq<AuditEvent>)
    requires path.Valid()
    ensures match FirstPrefix(m.filePrefixes, cgroup, 0, Seen(path.buffer[..], path.mode, path.len), path.len)
            case None => rc == None && audit == []
            case Some(v) =>
              && rc == Some(ReturnCode(ByVerdict(v, NOT_LISTED), config))
              && audit == Reports(ByVerdict(v, NOT_LISTED), config, cgroup, hash, FILE_OPEN)
  {
    hide SlotKey;
    rc, audit := None, [];
    ghost var seen := Seen(path.buffer[..], path.mode, path.len);
    if path.len == 0 {
      NoPrefixOfEmpty(m.filePrefixes, cgroup, 0, seen);
      return;
    }
    var slot := 0;
    while slot < MAX_PREFIX_SLOTS
      invariant 0 <= slot <= MAX_PREFIX_SLOTS
      invariant FirstPrefix(m.filePrefixes, cgroup, 0, seen, path.len)
             == FirstPrefix(m.filePrefixes, cgroup, slot, seen, path.len)
    {
      var key := SlotKey(cgroup, slot);
      if key !in m.filePrefixes {
        break;
      }
      var entry := m.filePrefixes[key];
      if |entry.bytes| > 0 && |entry.bytes| <= path.len && |entry.bytes| <= PREFIX_MAX_LEN {
        var matched := MatchesEntry(path, entry.bytes);
        if matched {
          if config.auditOnly != 0 && entry.verdict == 0 {
            audit := [AuditEvent(cgroup, hash, NOT_LISTED, FILE_OPEN, entry.verdict)];
            return Some(0), audit;
          }
          return Some(VerdictToRc(entry.verdict)), audit;
        }
      }
      slot := slot + 1;
    }
  }

  lemma {:induction false} NoPrefixOfEmpty(prefixes: map<u64, PrefixEntry>, cgroup: u64, slot: nat, seen: seq<u8>)
    ensures FirstPrefix(prefixes, cgroup, slot, seen, 0) == None
    decreases MAX_PREFIX_SLOTS - slot
  {
    if slot < MAX_PREFIX_SLOTS {
      NoPrefixOfEmpty(prefixes, cgroup, slot + 1, seen);
    }
  }

  /** The byte-by-byte comparison of one entry with the path buffer. */
  method MatchesEntry(path: Path, prefix: seq<u8>) returns (matched: bool)
    requires path.Valid() && 0 < |prefix| <= path.len && |prefix| <= PREFIX_MAX_LEN
    ensures matched <==> prefix <= Seen(path.buffer[..], path.mode, path.len)
  {
    ghost var seen := Seen(path.buffer[..], path.mode, path.len);
    var start := RawStart(path.mode, path.len);
    matched := true;
    var i := 0;
    while i < PREFIX_MAX_LEN
      invariant 0 <= i <= |prefix|
      invariant matched && forall j :: 0 <= j < i ==> prefix[j] == seen[j]
    {
      if i >= |prefix| {
        break;
      }
      if i >= path.len {
        matched := false;
        break;
      }
      if path.buffer[(start + i) % MAX_PATH_LEN] != prefix[i] {
        assert prefix[i] != seen[i];
        matched := false;
        break;
      }
      i := i + 1;
    }
  }

  /** Is there a policy for the cgroup of the calling task? */
  predicate Enforced(m: Maps, cgroup: Option<u64>) { cgroup.Some? && cgroup.value in m.cgroups }

  /** `buffered` is false when the path buffer cannot be obtained. */
  method EnforceFileOpen(
      m: Maps, cgroup: Option<u64>, k: Kernel, file: PathRef, flags: Option<u32>, buffered: bool)
    returns (rc: int, audit: seq<AuditEvent>)
    requires forall e :: e in k.name ==> |k.name[e]| <= U32_MAX
    ensures !Enforced(m, cgroup) || !buffered ==> rc == 0 && audit == []
    ensures Enforced(m, cgroup) && buffered ==>
              var config, view := m.cgroups[cgroup.value], ViewOf(k, file);
              var d := FileDecision(m, config, cgroup.value, view, RequestedAccess(flags));
              rc == ReturnCode(d, config) && audit == Reports(d, config, cgroup.value, view.Hash(), FILE_OPEN)
  {
    hide ViewOf, Classifier.KernelClass, FirstPrefix, RequestedAccess, Seen, ClassifyBytes, Grants;
    audit := [];
    if cgroup.None? || cgroup.value !in m.cgroups || !buffered {
      return 0, audit;
    }
    var cgid := cgroup.value;
    var config := m.cgroups[cgid];
    var path := ResolvePath(k, file);
    var hash := path.HashPath();
    var pathKey := PathPolicyKey(cgid, hash);
    if pathKey in m.filePaths {
      var mask := m.filePaths[pathKey];
      var req := RequestedAccess(flags);
      if Grants(mask, req) {
        return 0, audit;
      }
      audit := [AuditEvent(cgid, hash, Regular.Code(), FILE_OPEN, 0)];
      if config.auditOnly != 0 {
        return 0, audit;
      }
      return -1, audit;
    }
    var buffer := path.ToClassifyBuffer();
    var pattern := Classifier.ClassifyPath(buffer[..]);
    if pattern != Regular {
      var patternKey := PatternKey(cgid, pattern.Code(), FILE_OPEN);
      if patternKey in m.filePatterns {
        var v := m.filePatterns[patternKey];
        if config.auditOnly != 0 && v == 0 {
          audit := [AuditEvent(cgid, hash, pattern.Code(), FILE_OPEN, v)];
          return 0, audit;
        }
        return VerdictToRc(v), audit;
      }
    }
    var prefixRc, prefixAudit := CheckPrefixMatch(m, config, cgid, hash, path);
    if prefixRc.Some? {
      return prefixRc.value, prefixAudit;
    }
    if config.defaultAction == 0 {
      audit := [AuditEvent(cgid, hash, NOT_LISTED, FILE_OPEN, 0)];
      if config.auditOnly != 0 {
        return 0, audit;
      }
      return -1, audit;
    }
    return 0, audit;
  }

  // ---- program executions ----

  function ExecDecision(m: Maps, config: PolicyConfig, cgroup: u64, view: PathView): Decision {
    var exact := PathPolicyKey(cgroup, view.Hash());
    var class_ := PatternKey(cgroup, view.Class().Code(), PROC_EXEC);
    if exact in m.execPaths then ByVerdict(m.execPaths[exact], 0)
    else if view.Class() != Regular && class_ in m.execPatterns then
      ByVerdict(m.execPatterns[class_], view.Class().Code())
    else ByDefault(config)
  }

  /** `file` is None when the binary's file cannot be read. */
  method EnforceBprmCheck(m: Maps, cgroup: Option<u64>, k: Kernel, file: Option<PathRef>, buffered: bool)
    returns (rc: int, audit: seq<AuditEvent>)
    requires forall e :: e in k.name ==> |k.name[e]| <= U32_MAX
    ensures !Enforced(m, cgroup) || !buffered || file.None? ==> rc == 0 && audit == []
    ensures Enforced(m, cgroup) && buffered && file.Some? ==>
              var config, view := m.cgroups[cgroup.value], ViewOf(k, file.value);
              var d := ExecDecision(m, config, cgroup.value, view);
              rc == ReturnCode(d, config) && audit == Reports(d, config, cgroup.value, view.Hash(), PROC_EXEC)
  {
    hide ViewOf, Classifier.KernelClass, Seen, ClassifyBytes;
    audit := [];
    if cgroup.None? || cgroup.value !in m.cgroups || file.None? || !buffered {
      return 0, audit;
    }
    var cgid := cgroup.value;
    var config := m.cgroups[cgid];
    var path := ResolvePath(k, file.value);
    var hash := path.HashPath();
    var pathKey := PathPolicyKey(cgid, hash);
    if pathKey in m.execPaths {
      var v := m.execPaths[pathKey];
      if config.auditOnly != 0 && v == 0 {
        audit := [AuditEvent(cgid, hash, 0, PROC_EXEC, v)];
        return 0, audit;
      }
      return VerdictToRc(v), audit;
    }
    var buffer := path.ToClassifyBuffer();
    var pattern := Classifier.ClassifyPath(buffer[..]);
    if pattern != Regular {
      var patternKey := PatternKey(cgid, pattern.Code(), PROC_EXEC);
      if patternKey in m.execPatterns {
        var v := m.execPatterns[patternKey];
        if config.auditOnly != 0 && v == 0 {
          audit := [AuditEvent(cgid, hash, pattern.Code(), PROC_EXEC, v)];
          return 0, audit;
        }
        return VerdictToRc(v), audit;
      }
    }
    if config.defaultAction == 0 {
      audit := [AuditEvent(cgid, hash, NOT_LISTED, PROC_EXEC, 0)];
      if config.auditOnly != 0 {
        return 0, audit;
      }
      return -1, audit;
    }
    return 0, audit;
  }

  // ---- outgoing connections ----

  function NetDecision(m: Maps, config: PolicyConfig, cgroup: u64, ip: u32, port: u32): Decision {
    var exact, wildcard := NetPolicyKey(cgroup, ip, port, 0), NetPolicyKey(cgroup, ip, 0, 0);
    if exact in m.netRules then ByVerdict(m.netRules[exact], 0)
    else if wildcard in m.netRules then ByVerdict(m.netRules[wildcard], 0)
    else ByDefault(config)
  }

  function NetId(ip: u32, port: u32): u64 { ip * 0x1_0000_0000 + port }

  /** None arguments are fields of the address that cannot be read. */
  method EnforceSocketConnect(m: Maps, cgroup: Option<u64>, family: Option<u32>, ip: Option<u32>, port: Option<u16>)
    returns (rc: int, audit: seq<AuditEvent>)
    ensures !Enforced(m, cgroup) || family != Some(2) || ip.None? || port.None? ==> rc == 0 && audit == []
    ensures Enforced(m, cgroup) && family == Some(2) && ip.Some? && port.Some? ==>
              var config := m.cgroups[cgroup.value];
              var d := NetDecision(m, config, cgroup.value, ip.value, port.value);
              && rc == ReturnCode(d, config)
              && audit == Reports(d, config, cgroup.value, NetId(ip.value, port.value), NET_CONNECT)
  {
    audit := [];
    if cgroup.None? || cgroup.value !in m.cgroups {
      return 0, audit;
    }
    var cgid := cgroup.value;
    var config := m.cgroups[cgid];
    if family.None? || family.value != AF_INET || ip.None? || port.None? {
      return 0, audit;
    }
    var key := NetPolicyKey(cgid, ip.value, port.value, 0);
    var netId := NetId(ip.value, port.value);
    if key in m.netRules {
      var v := m.netRules[key];
      if config.auditOnly != 0 && v == 0 {
        audit := [AuditEvent(cgid, netId, 0, NET_CONNECT, v)];
        return 0, audit;
      }
      return VerdictToRc(v), audit;
    }
    var wildcard := NetPolicyKey(cgid, ip.value, 0, 0);
    if wildcard in m.netRules {
      var v := m.netRules[wildcard];
      if config.auditOnly != 0 && v == 0 {
        audit := [AuditEvent(cgid, netId, 0, NET_CONNECT, v)];
        return 0, audit;
      }
      return VerdictToRc(v), audit;
    }
    if config.defaultAction == 0 {
      audit := [AuditEvent(cgid, netId, NOT_LISTED, NET_CONNECT, 0)];
      if config.auditOnly != 0 {
        return 0, audit;
      }
      return -1, audit;
    }
    return 0, audit;
  }

  /** The egress filter's verdict: 1 lets the packet pass, 0 drops it. It passes exactly when the
      connect hook would return 0 for the published cgroup. */
  method SkbEgressVerdict(m: Maps, ip: u32, port: u32) returns (verdict: int)
    ensures verdict == if !Enforced(m, m.skbCgroup) then 1 else
                         var config := m.cgroups[m.skbCgroup.value];
                         1 + ReturnCode(NetDecision(m, config, m.skbCgroup.value, ip, port), config)
  {
    if m.skbCgroup.None? || m.skbCgroup.value !in m.cgroups {
      return 1;
    }
    var cgid := m.skbCgroup.value;
    var config := m.cgroups[cgid];
    var key := NetPolicyKey(cgid, ip, port, 0);
    if key in m.netRules {
      return if m.netRules[key] == 0 && config.auditOnly == 0 then 0 else 1;
    }
    var wildcard := NetPolicyKey(cgid, ip, 0, 0);
    if wildcard in m.netRules {
      return if m.netRules[wildcard] == 0 && config.auditOnly == 0 then 0 else 1;
    }
    return if config.defaultAction == 0 && config.auditOnly == 0 then 0 else 1;
  }

  // ---- audit mode mirrors enforcing mode ----

  function SetMode(m: Maps, cgroup: u64, auditOnly: u8): Maps
    requires cgroup in m.cgroups
  {
    m.(cgroups := m.cgroups[cgroup := m.cgroups[cgroup].(auditOnly := auditOnly)])
  }

  /** Same state, two modes: auditing never refuses, and reports exactly what enforcing refuses. */
  predicate Mirrors(d: Decision, enforcing: PolicyConfig, auditing: PolicyConfig, cgroup: u64, id: u64, action: u8) {
    && ReturnCode(d, auditing) == 0
    && (ReturnCode(d, enforcing) == -1 <==> |Reports(d, auditing, cgroup, id, action)| == 1)
    && (ReturnCode(d, enforcing) == 0 <==> Reports(d, auditing, cgroup, id, action) == [])
    && (Reports(d, enforcing, cgroup, id, action) != [] ==> ReturnCode(d, enforcing) == -1)
  }

  /** Each hook decides the same in both modes, and the outcomes mirror each other. */
  lemma AuditMirrorsEnforcing(m: Maps, cgroup: u64, mode: u8, view: PathView, req: bv8, ip: u32, port: u32)
    requires cgroup in m.cgroups && mode != 0
    ensures var e, a := SetMode(m, cgroup, 0), SetMode(m, cgroup, mode);
      var ec, ac := e.cgroups[cgroup], a.cgroups[cgroup];
      var (file, exec, net) := (FileDecision(e, ec, cgroup, view, req), ExecDecision(e, ec, cgroup, view),
                                NetDecision(e, ec, cgroup, ip, port));
      && file == FileDecision(a, ac, cgroup, view, req)
      && exec == ExecDecision(a, ac, cgroup, view)
      && net == NetDecision(a, ac, cgroup, ip, port)
      && Mirrors(file, ec, ac, cgroup, view.Hash(), FILE_OPEN)
      && Mirrors(exec, ec, ac, cgroup, view.Hash(), PROC_EXEC)
      && Mirrors(net, ec, ac, cgroup, NetId(ip, port), NET_CONNECT)
  {
    hide FirstPrefix, PathView.Hash, PathView.Class, PathPattern.Code;
    var e, a := SetMode(m, cgroup, 0), SetMode(m, cgroup, mode);
    assert a.cgroups[cgroup].defaultAction == e.cgroups[cgroup].defaultAction == m.cgroups[cgroup].defaultAction;
    DecidesAlike(e, a, e.cgroups[cgroup], a.cgroups[cgroup], cgroup, view, req, ip, port);
    forall d: Decision, id: u64, action: u8
      ensures Mirrors(d, e.cgroups[cgroup], a.cgroups[cgroup], cgroup, id, action)
    {
    }
  }

  /** Decisions look at the rule entries and the default action only. */
  lemma DecidesAlike(
      m: Maps, n: Maps, c: PolicyConfig, d: PolicyConfig, cgroup: u64, view: PathView, req: bv8, ip: u32, port: u32)
    requires n == m.(cgroups := n.cgroups, skbCgroup := n.skbCgroup) && c.defaultAction == d.defaultAction
    ensures FileDecision(m, c, cgroup, view, req) == FileDecision(n, d, cgroup, view, req)
    ensures ExecDecision(m, c, cgroup, view) == ExecDecision(n, d, cgroup, view)
    ensures NetDecision(m, c, cgroup, ip, port) == NetDecision(n, d, cgroup, ip, port)
  {
    hide FirstPrefix, PathView.Hash, PathView.Class, PathPattern.Code, FileDecision;
    FileDecidesAlike(m, n, c, d, cgroup, view, req);
  }

  lemma FileDecidesAlike(
      m: Maps, n: Maps, c: PolicyConfig, d: PolicyConfig, cgroup: u64, view: PathView, req: bv8)
    requires n.filePaths == m.filePaths && n.filePatterns == m.filePatterns && n.filePrefixes == m.filePrefixes
    requires c.defaultAction == d.defaultAction
    ensures FileDecision(m, c, cgroup, view, req) == FileDecision(n, d, cgroup, view, req)
  {
    hide FirstPrefix, PathView.Hash, PathView.Class, PathPattern.Code, Grants;
  }
}
