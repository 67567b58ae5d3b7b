/** From the rules a profile starts from to what the file-open hook returns, and from a monitored access
    to the same access under enforcement. */
module EndToEnd {
  import opened Strings
  import opened PathPatterns
  import opened Ir
  import opened Canonical
  import opened PrefixGeneralize
  import opened RuleSets
  import opened FixedPoint
  import opened Pipeline
  import opened Realization
  import opened Linker
  import opened Loader
  import opened Hooks
  import opened EnforcementSpec
  import opened Enforcement
  import opened Refinement
  import opened Compile
  import opened CompiledAccess
  import opened KernelPath
  import opened Translator
  import opened ObservedEvents
  import opened ObservedReads
  import Classifier
  import Fnv

  // ---- hashes of the rules a profile starts from ----

  /** What the rule names does not share its hash with `path` without being it. */
  predicate KeyApart(k: Key, path: seq<u8>) {
    && (IsFileKey(k) && k.obj.file.pattern.ExactPath? ==>
          var text := Utf8(CanonicalPath(k.obj.file.pattern.path)); Fnv.Hash(text) == Fnv.Hash(path) ==> text == path)
    && (k.action == ProcExec && k.obj.Process? && k.obj.process.binary.BinaryPath? ==>
          var text := Utf8(k.obj.process.binary.path); Fnv.Hash(text) == Fnv.Hash(path) ==> text == path)
  }

  predicate Apart(ks: set<Key>, path: seq<u8>) { forall k :: k in ks ==> KeyApart(k, path) }

  predicate RuleApart(r: Rule, path: seq<u8>) {
    && (HitsHash(r, Fnv.Hash(path)) ==> ForPath(r, path))
    && (Hits(r, ExecTarget(Fnv.Hash(path))) ==> ForBinary(r, path))
  }

  lemma ExecApart(e: Rule, r: Rule, path: seq<u8>)
    requires ExecPath(e).Some? && KeyApart(e.ToKey(), path)
    ensures RuleApart(e, path)
    ensures r.obj == ExactFile(ExecPath(e).value) ==> RuleApart(r, path)
  {
    hide Utf8, Fnv.Hash, CanonicalPath;
  }

  lemma FileApart(r: Rule, o: Key, path: seq<u8>)
    requires IsPathRule(r) && IsExact(o) && o.action == r.action && KeyApart(o, path)
    requires CanonicalPath(o.obj.file.pattern.path) == r.obj.file.pattern.path
    ensures RuleApart(r, path)
  {
    hide Utf8, Fnv.Hash, CanonicalPath;
  }

  lemma OthersApart(r: Rule, path: seq<u8>)
    requires !IsPathRule(r) && ExecPath(r).None?
    ensures RuleApart(r, path)
  {
  }

  lemma OutputRuleApart(cfg: PassConfig, run: Run, r: Rule, path: seq<u8>)
    requires ValidRun(cfg, run) && AllAllow(run.input) && Apart(Keys(run.input), path) && r in run.output
    ensures RuleApart(r, path) && (ExecPath(r).Some? ==> KeyApart(r.ToKey(), path))
  {
    hide ValidRun, AllAllow, Keys, PipelineKeys, KeyApart, RuleApart, Classed, Collapses, SubsumedIn, CanonicalPath;
    var ks, k := Keys(run.input), r.ToKey();
    RunOutput(cfg, run);
    ListedKey(run.output, r);
    if ExecPath(r).Some? {
      ExecSurvives(cfg, ks, k);
      ExecApart(r, r, path);
    } else if IsPathRule(r) {
      ExactSurvives(cfg, ks, k);
      var o := ExactOrigin(ks, k);
      FileApart(r, o, path);
    } else {
      OthersApart(r, path);
    }
  }

  lemma ListedKey(rules: seq<Rule>, r: Rule)
    requires r in rules
    ensures r.ToKey() in Keys(rules)
  {
  }

  /** Rules apart from a path are compiled and linked into a list without a collision with it. */
  lemma CompiledApart(cfg: PassConfig, run: Run, path: seq<u8>)
    requires ValidRun(cfg, run) && AllAllow(run.input) && Apart(Keys(run.input), path)
    ensures NoCollision(Link(run.output), path)
  {
    hide ValidRun, AllAllow, Keys, KeyApart, Apart, Link, ExecPath, HitsHash, Hits, ForPath, ForBinary;
    var out := Link(run.output);
    LinkCloses(run.output);
    forall i | 0 <= i < |out| ensures RuleApart(out[i], path) {
      assert out[i] in out;
      if out[i] in run.output {
        OutputRuleApart(cfg, run, out[i], path);
      } else {
        var e :| e in run.output && ExecPath(e).Some? && out[i].obj == ExactFile(ExecPath(e).value);
        OutputRuleApart(cfg, run, e, path);
        ExecApart(e, out[i], path);
      }
    }
  }

  // ---- the hook ----

  /** The file is there, and its absolute path fits the kernel's buffer. */
  ghost predicate Located(k: Kernel, file: PathRef) {
    && Start(k, file, MAX_PATH_DEPTH).Some?
    && var names := Start(k, file, MAX_PATH_DEPTH).value.names;
       Named(names) && Fits(names) && (|Absolute(names)| > 769 ==> Fnv.NulFree(Absolute(names)))
  }

  ghost function PathOf(k: Kernel, file: PathRef): (path: seq<u8>)
    requires Located(k, file)
    ensures |path| <= MAX_PATH_LEN
  {
    Absolute(Start(k, file, MAX_PATH_DEPTH).value.names)
  }

  /** What the hook returns for an open in `cgroup`; a cgroup that is not enforced is let through. */
  function OpenReturns(m: Maps, cgroup: u64, k: Kernel, file: PathRef, flags: Option<u32>): int {
    if cgroup !in m.cgroups then 0
    else ReturnCode(FileDecision(m, m.cgroups[cgroup], cgroup, ViewOf(k, file), RequestedAccess(flags)), m.cgroups[cgroup])
  }

  /** The profile is compiled, in any order the hash maps choose, loaded for the first cgroup and rebound to
      each next one; then the file is opened in the last. */
  ghost predicate EveryRunOpens(
      cfg: PassConfig, raw: seq<Rule>, m0: Maps, auditOnly: bool, ids: seq<u64>, k: Kernel, file: PathRef, flags: Option<u32>)
    requires ids != []
  {
    forall run: Run :: ValidRun(cfg, run) && run.input == raw ==>
      OpenReturns(AfterRun(m0, auditOnly, Link(run.output), ids), ids[|ids| - 1], k, file, flags) == 0
  }

  lemma RunOpens(
      cfg: PassConfig, run: Run, m0: Maps, auditOnly: bool, ids: seq<u64>, k: Kernel, file: PathRef, flags: Option<u32>)
    requires ValidRun(cfg, run) && AllAllow(run.input) && Empty(m0) && ids != [] && LastMoved(ids)
    requires Located(k, file) && Apart(Keys(run.input), CountsAs(PathOf(k, file)))
    ensures OpenReturns(AfterRun(m0, auditOnly, Link(run.output), ids), ids[|ids| - 1], k, file, flags) == 0 <==>
            auditOnly || FileAllowed(Link(run.output), CountsAs(PathOf(k, file)), ViewOf(k, file).Class(), OpeningOf(flags))
  {
    hide ValidRun, AllAllow, Empty, Keys, Link, AfterRun, Apart, NoCollision, FileAllowed, ViewOf, Consistent, FileDecision,
      PathView.Class, RequestedAccess, CountsAs, Absolute, Location;
    var rules, cgroup := Link(run.output), ids[|ids| - 1];
    var m := AfterRun(m0, auditOnly, rules, ids);
    CompiledApart(cfg, run, CountsAs(PathOf(k, file)));
    RunsStayConsistent(m0, auditOnly, rules, ids);
    assert cgroup in IdSet(ids) by { assert cgroup in ids; }
    LocatedOpenFollowsRules(m, IdSet(ids), rules, cgroup, k, file, flags);
  }

  /** From the starting rules to the return code: in enforcing mode the open goes through in every run
      exactly when the rules keep the access; in audit mode it always does. */
  lemma OpenSucceedsExactlyWhen(
      cfg: PassConfig, raw: seq<Rule>, m0: Maps, auditOnly: bool, ids: seq<u64>, k: Kernel, file: PathRef, flags: Option<u32>)
    requires AllAllow(raw) && Empty(m0) && ids != [] && LastMoved(ids)
    requires Located(k, file) && Apart(Keys(raw), CountsAs(PathOf(k, file)))
    ensures EveryRunOpens(cfg, raw, m0, auditOnly, ids, k, file, flags) <==>
            auditOnly || AccessKept(cfg, Keys(raw), CountsAs(PathOf(k, file)), ViewOf(k, file).Class(), OpeningOf(flags))
  {
    hide ValidRun, AllAllow, Empty, Keys, Link, AfterRun, Apart, FileAllowed, ViewOf, Located, PathOf, LastMoved,
      PathView.Class, RequestedAccess, CountsAs, AccessKept, OpenReturns;
    forall run: Run | ValidRun(cfg, run) && run.input == raw
      ensures OpenReturns(AfterRun(m0, auditOnly, Link(run.output), ids), ids[|ids| - 1], k, file, flags) == 0 <==>
              auditOnly || FileAllowed(Link(run.output), CountsAs(PathOf(k, file)), ViewOf(k, file).Class(), OpeningOf(flags))
    {
      RunOpens(cfg, run, m0, auditOnly, ids, k, file, flags);
    }
    EveryRunAllowsExactlyWhen(cfg, raw, CountsAs(PathOf(k, file)), ViewOf(k, file).Class(), OpeningOf(flags));
    var some := SomeRun(cfg, raw);
  }

  // ---- from a recorded access to the same access enforced ----

  /** The hooks find the class the monitor recorded. */
  lemma SameClassAsMonitored(k: Kernel, file: PathRef)
    requires Located(k, file)
    ensures ViewOf(k, file).Class() == ResolvedClass(PathOf(k, file))
  {
    hide Resolved, ClassifyBytes, Seen, Location, Absolute, Classifier.KernelClass;
    ResolveIsAbsolutePath(k, file, MAX_PATH_DEPTH);
  }

  /** A recorded access to a file, made again after compiling and loading: for a path of at most 769 bytes
      and while the prefixes fit their slots, it is refused in some run exactly when enforcing and the path
      is still named, but not with this access. */
  lemma RecordedOpenSucceedsExactlyWhen(
      cfg: PassConfig, raw: seq<Rule>, m0: Maps, auditOnly: bool, ids: seq<u64>, k: Kernel, file: PathRef,
      flags: Option<u32>, e: FsEvent)
    requires AllAllow(raw) && Empty(m0) && ids != [] && LastMoved(ids)
    requires Located(k, file) && |PathOf(k, file)| <= 769 && Apart(Keys(raw), PathOf(k, file))
    requires Genuine(e) && FsKey(e) in Keys(raw) && Utf8(e.path) == PathOf(k, file)
    requires AccessMode(flags) == if e.write then 1 else 0
    requires |Prefixes(cfg, Keys(raw))| <= 64 && Classifier.RootedInKernel(e.class_)
    ensures EveryRunOpens(cfg, raw, m0, auditOnly, ids, k, file, flags) <==>
            auditOnly ||
            (StillNamed(cfg, Keys(raw), PathOf(k, file)) ==> NamedFor(cfg, Keys(raw), PathOf(k, file), e.write))
  {
    hide AllAllow, Empty, Keys, Apart, ViewOf, Located, PathOf, PathView.Class, RequestedAccess, AccessKept, EveryRunOpens,
      FsKey, Utf8, ResolvedClass, Prefixes, StillNamed, NamedFor, EveryRunAllows, Classifier.RootedInKernel, LastMoved,
      CanonicalPath;
    SameClassAsMonitored(k, file);
    OpenSucceedsExactlyWhen(cfg, raw, m0, auditOnly, ids, k, file, flags);
    EveryRunAllowsExactlyWhen(cfg, raw, Utf8(e.path), e.class_, Access(e));
    ObservedKeptWhileSlotsLast(cfg, raw, e);
  }

  /** When no watchable directory may collapse, every recorded read goes through again, whatever else was
      recorded, however often the container was restarted, and however the hash maps order the rules. */
  lemma RecordedReadsGoThrough(
      cfg: PassConfig, raw: seq<Rule>, fs: seq<FsEvent>, net: seq<NetEvent>, procs: seq<ProcessEvent>, e: FsEvent,
      m0: Maps, auditOnly: bool, ids: seq<u64>, k: Kernel, file: PathRef, flags: Option<u32>)
    requires !SomeDirCollapses(cfg)
    requires Records(raw, EventKeys(fs, net, procs)) && AllGenuine(fs) && e in fs && !e.write
    requires Empty(m0) && ids != [] && LastMoved(ids)
    requires Located(k, file) && |PathOf(k, file)| <= 769 && Apart(Keys(raw), PathOf(k, file))
    requires Utf8(e.path) == PathOf(k, file) && AccessMode(flags) == 0
    ensures EveryRunOpens(cfg, raw, m0, auditOnly, ids, k, file, flags)
  {
    hide AllAllow, Empty, Keys, Apart, ViewOf, Located, PathOf, PathView.Class, RequestedAccess, AccessKept, EveryRunOpens,
      FsKey, Utf8, ResolvedClass, EveryRunAllows, LastMoved, CanonicalPath, Records, EventKeys, SomeDirCollapses;
    EventsAllow(raw, fs, net, procs, e);
    SameClassAsMonitored(k, file);
    ReadIsKept(cfg, raw, fs, net, procs, e);
    OpenSucceedsExactlyWhen(cfg, raw, m0, auditOnly, ids, k, file, flags);
    EveryRunAllowsExactlyWhen(cfg, raw, Utf8(e.path), e.class_, READING);
  }

  // ---- connections ----

  function ConnectReturns(m: Maps, cgroup: u64, ip: u32, port: u32): int {
    if cgroup !in m.cgroups then 0 else ReturnCode(NetDecision(m, m.cgroups[cgroup], cgroup, ip, port), m.cgroups[cgroup])
  }

  /** A rule for connecting to the address, at the port, at port 0 or at no port in particular. */
  predicate ConnectsTo(k: Key, ip: u32, port: u32) {
    && k.action == NetConnect && k.obj.Network? && k.obj.net.dstIp == Some(ip)
    && (k.obj.net.dstPort == Some(port) || k.obj.net.dstPort == Some(0) || k.obj.net.dstPort == None)
  }

  ghost predicate SomeConnects(ks: set<Key>, ip: u32, port: u32) { exists k :: k in ks && ConnectsTo(k, ip, port) }

  lemma AllowingConnects(rules: seq<Rule>, ip: u32, port: u32)
    requires AllAllow(rules)
    ensures NetAllowed(rules, ip, port) <==> SomeConnects(Keys(rules), ip, port)
  {
    hide LastVerdict, LastAt;
    LastVerdictIs(rules, NetTarget(ip, port));
    LastVerdictIs(rules, NetTarget(ip, 0));
    if i :| 0 <= i < |rules| && (Hits(rules[i], NetTarget(ip, port)) || Hits(rules[i], NetTarget(ip, 0))) {
      assert rules[i].ToKey() in Keys(rules) && ConnectsTo(rules[i].ToKey(), ip, port);
    }
    if SomeConnects(Keys(rules), ip, port) {
      var k :| k in Keys(rules) && ConnectsTo(k, ip, port);
      var i := KeysHasIndex(rules, k);
      assert Hits(rules[i], NetTarget(ip, port)) || Hits(rules[i], NetTarget(ip, 0));
    }
  }

  /** Linking adds rules about files only. */
  lemma LinkedOthers(rules: seq<Rule>, k: Key)
    requires !k.obj.File?
    ensures k in Keys(Link(rules)) <==> k in Keys(rules)
  {
    hide Link;
    LinkCloses(rules);
    if k in Keys(Link(rules)) {
      var i := KeysHasIndex(Link(rules), k);
      assert Link(rules)[i] in Link(rules);
      assert Link(rules)[i] in rules || Justified(rules, Link(rules)[i]);
    }
    if k in Keys(rules) {
      var i := KeysHasIndex(rules, k);
      assert Link(rules)[i] == rules[i];
      assert Link(rules)[i].ToKey() in Keys(Link(rules));
    }
  }

  /** What is not about files is compiled and linked as it is. */
  lemma OthersKept(cfg: PassConfig, run: Run, k: Key)
    requires ValidRun(cfg, run) && AllAllow(run.input) && !k.obj.File?
    ensures k in Keys(Link(run.output)) <==> k in Keys(run.input)
  {
    hide ValidRun, AllAllow, Keys, Link, PipelineKeys;
    RunKeepsAllow(cfg, run);
    ExecSurvives(cfg, Keys(run.input), k);
    LinkedOthers(run.output, k);
  }

  lemma LinkedAllows(cfg: PassConfig, run: Run)
    requires ValidRun(cfg, run) && AllAllow(run.input)
    ensures AllAllow(Link(run.output))
  {
    hide ValidRun, AllAllow, Link;
    RunKeepsAllow(cfg, run);
    LinkKeepsAllow(run.output);
  }

  /** Compiled, loaded and rebound, the connect hook lets through exactly what the starting rules connect to. */
  lemma ConnectSucceedsExactlyWhen(
      cfg: PassConfig, run: Run, m0: Maps, auditOnly: bool, ids: seq<u64>, ip: u32, port: u32)
    requires ValidRun(cfg, run) && AllAllow(run.input) && Empty(m0) && ids != [] && LastMoved(ids)
    ensures ConnectReturns(AfterRun(m0, auditOnly, Link(run.output), ids), ids[|ids| - 1], ip, port) == 0 <==>
            auditOnly || SomeConnects(Keys(run.input), ip, port)
  {
    hide ValidRun, AllAllow, Empty, Keys, Link, AfterRun, NetAllowed, Consistent, NetDecision, ConnectsTo;
    var rules, cgroup := Link(run.output), ids[|ids| - 1];
    var m := AfterRun(m0, auditOnly, rules, ids);
    RunsStayConsistent(m0, auditOnly, rules, ids);
    assert cgroup in IdSet(ids) by { assert cgroup in ids; }
    ConnectFollowsRules(m, IdSet(ids), rules, cgroup, m.cgroups[cgroup], ip, port);
    LinkedAllows(cfg, run);
    AllowingConnects(rules, ip, port);
    SameConnections(cfg, run, ip, port);
  }

  lemma SameConnections(cfg: PassConfig, run: Run, ip: u32, port: u32)
    requires ValidRun(cfg, run) && AllAllow(run.input)
    ensures SomeConnects(Keys(Link(run.output)), ip, port) <==> SomeConnects(Keys(run.input), ip, port)
  {
    hide ValidRun, AllAllow, Keys, Link;
    forall k | ConnectsTo(k, ip, port) ensures k in Keys(Link(run.output)) <==> k in Keys(run.input) {
      OthersKept(cfg, run, k);
    }
  }

  /** After observing a container, exactly the endpoints it was seen connecting to may be connected to, in
      every run and after every restart; a connection recorded with port 0 opens all ports of its address. */
  lemma RecordedConnectionsGoThrough(
      cfg: PassConfig, run: Run, fs: seq<FsEvent>, net: seq<NetEvent>, procs: seq<ProcessEvent>,
      m0: Maps, auditOnly: bool, ids: seq<u64>, ip: u32, port: u32)
    requires ValidRun(cfg, run) && Records(run.input, EventKeys(fs, net, procs))
    requires Empty(m0) && ids != [] && LastMoved(ids)
    ensures ConnectReturns(AfterRun(m0, auditOnly, Link(run.output), ids), ids[|ids| - 1], ip, port) == 0 <==>
            auditOnly || exists i :: 0 <= i < |net| && net[i].direction == 1 && net[i].dstIp == ip
                                     && (net[i].dstPort == port || net[i].dstPort == 0)
  {
    hide ValidRun, Empty, Link, AfterRun, Records, EventKeys;
    RecordsAllow(run.input, fs, net, procs);
    ConnectSucceedsExactlyWhen(cfg, run, m0, auditOnly, ids, ip, port);
    RecordedConnections(run.input, fs, net, procs, ip, port);
  }

  lemma RecordedConnections(
      rules: seq<Rule>, fs: seq<FsEvent>, net: seq<NetEvent>, procs: seq<ProcessEvent>, ip: u32, port: u32)
    requires Records(rules, EventKeys(fs, net, procs))
    ensures SomeConnects(Keys(rules), ip, port) <==>
            exists i :: 0 <= i < |net| && net[i].direction == 1 && net[i].dstIp == ip
                        && (net[i].dstPort == port || net[i].dstPort == 0)
  {
    hide EventKeys, SubjectOf, ContainerOf, Records, Keys;
    var keys := EventKeys(fs, net, procs);
    EventKeysAt(fs, net, procs);
    RecordedKeys(rules, keys);
    if SomeConnects(Keys(rules), ip, port) {
      var k :| k in Keys(rules) && ConnectsTo(k, ip, port);
      var i :| 0 <= i < |keys| && keys[i] == k;
      assert |fs| <= i < |fs| + |net|;
      assert k == NetKeyOf(net[i - |fs|]);
    }
    if i :| 0 <= i < |net| && net[i].direction == 1 && net[i].dstIp == ip && (net[i].dstPort == port || net[i].dstPort == 0) {
      assert keys[|fs| + i] == NetKeyOf(net[i]) && keys[|fs| + i] in keys;
      assert ConnectsTo(NetKeyOf(net[i]), ip, port);
    }
  }

  // ---- executions ----

  function ExecReturns(m: Maps, cgroup: u64, k: Kernel, file: PathRef): int {
    if cgroup !in m.cgroups then 0 else ReturnCode(ExecDecision(m, m.cgroups[cgroup], cgroup, ViewOf(k, file)), m.cgroups[cgroup])
  }

  lemma AllowingExecutes(rules: seq<Rule>, path: seq<u8>)
    requires AllAllow(rules)
    ensures ExecAllowed(rules, path) <==> NamedByExec(Keys(rules), path)
  {
    hide Utf8;
    if ExecAllowed(rules, path) {
      var i :| 0 <= i < |rules| && ForBinary(rules[i], path);
      assert rules[i].ToKey() in Keys(rules) && KeyExecutes(rules[i].ToKey(), path);
    }
    if NamedByExec(Keys(rules), path) {
      var k :| k in Keys(rules) && KeyExecutes(k, path);
      var i := KeysHasIndex(rules, k);
      LastBinaryAllows(rules, path, i);
    }
  }

  lemma SameExecutions(cfg: PassConfig, run: Run, path: seq<u8>)
    requires ValidRun(cfg, run) && AllAllow(run.input)
    ensures NamedByExec(Keys(Link(run.output)), path) <==> NamedByExec(Keys(run.input), path)
  {
    hide ValidRun, AllAllow, Keys, Link, Utf8;
    forall k | KeyExecutes(k, path) ensures k in Keys(Link(run.output)) <==> k in Keys(run.input) {
      OthersKept(cfg, run, k);
    }
  }

  /** For a located file the execution hook sees the bytes its path counts as. */
  lemma LocatedExecFollowsRules(
      m: Maps, bound: set<u64>, rules: seq<Rule>, cgroup: u64, config: PolicyConfig, k: Kernel, file: PathRef)
    requires Consistent(m, bound, rules) && cgroup in bound && config.defaultAction == DENY_BY_DEFAULT
    requires Located(k, file) && NoCollision(rules, CountsAs(PathOf(k, file)))
    ensures ExecDecision(m, config, cgroup, ViewOf(k, file)).Pass? <==> ExecAllowed(rules, CountsAs(PathOf(k, file)))
  {
    hide ViewOf, ExecDecision, ExecAllowed, Consistent, NoCollision, Location, PathView.Class, PathView.Hash, RightAligned, Seen, Absolute;
    ViewOfLocated(k, file);
    var path := PathOf(k, file);
    var buffer, view := Zeros(MAX_PATH_LEN - |path|) + path, ViewOf(k, file);
    SeenStartsWith(buffer, path);
    if EXACT_LEN < |path| < MAX_PATH_LEN {
      var cut := CountsAs(path);
      var short := view.(seen := cut, len := |cut|);
      KernelHashIsUserHash(buffer, path);
      SameReading(view, short);
      ExecFollowsRules(m, bound, rules, cgroup, config, short);
      ExecReads(m, config, cgroup, view, short);
    } else {
      ExecFollowsRules(m, bound, rules, cgroup, config, view);
    }
  }

  lemma ExecReads(m: Maps, config: PolicyConfig, cgroup: u64, v: PathView, w: PathView)
    requires v.Hash() == w.Hash() && v.Class() == w.Class()
    ensures ExecDecision(m, config, cgroup, v) == ExecDecision(m, config, cgroup, w)
  {
    hide PathView.Hash, PathView.Class, PathPattern.Code;
  }

  /** Compiled, loaded and rebound, the execution hook lets through exactly the programs the starting rules
      execute. */
  lemma ExecSucceedsExactlyWhen(
      cfg: PassConfig, run: Run, m0: Maps, auditOnly: bool, ids: seq<u64>, k: Kernel, file: PathRef)
    requires ValidRun(cfg, run) && AllAllow(run.input) && Empty(m0) && ids != [] && LastMoved(ids)
    requires Located(k, file) && Apart(Keys(run.input), CountsAs(PathOf(k, file)))
    ensures ExecReturns(AfterRun(m0, auditOnly, Link(run.output), ids), ids[|ids| - 1], k, file) == 0 <==>
            auditOnly || NamedByExec(Keys(run.input), CountsAs(PathOf(k, file)))
  {
    hide ValidRun, AllAllow, Empty, Keys, Link, AfterRun, Apart, NoCollision, ExecAllowed, ViewOf, Consistent, ExecDecision,
      NamedByExec, CountsAs, Located, PathOf;
    var rules, cgroup := Link(run.output), ids[|ids| - 1];
    var m := AfterRun(m0, auditOnly, rules, ids);
    CompiledApart(cfg, run, CountsAs(PathOf(k, file)));
    RunsStayConsistent(m0, auditOnly, rules, ids);
    assert cgroup in IdSet(ids) by { assert cgroup in ids; }
    LocatedExecFollowsRules(m, IdSet(ids), rules, cgroup, m.cgroups[cgroup], k, file);
    LinkedAllows(cfg, run);
    AllowingExecutes(rules, CountsAs(PathOf(k, file)));
    SameExecutions(cfg, run, CountsAs(PathOf(k, file)));
  }

  lemma RecordedExecutions(rules: seq<Rule>, fs: seq<FsEvent>, net: seq<NetEvent>, procs: seq<ProcessEvent>, path: seq<u8>)
    requires Records(rules, EventKeys(fs, net, procs))
    ensures NamedByExec(Keys(rules), path) <==> exists i :: 0 <= i < |procs| && procs[i].execve && Utf8(procs[i].execPath) == path
  {
    hide EventKeys, Utf8, SubjectOf, ContainerOf, Records, Keys;
    var keys := EventKeys(fs, net, procs);
    EventKeysAt(fs, net, procs);
    RecordedKeys(rules, keys);
    if NamedByExec(Keys(rules), path) {
      var k :| k in Keys(rules) && KeyExecutes(k, path);
      var i :| 0 <= i < |keys| && keys[i] == k;
      assert |fs| + |net| <= i < |fs| + |net| + |procs|;
      assert k == ProcessKey(procs[i - |fs| - |net|]);
    }
    if i :| 0 <= i < |procs| && procs[i].execve && Utf8(procs[i].execPath) == path {
      assert keys[|fs| + |net| + i] == ProcessKey(procs[i]) && keys[|fs| + |net| + i] in keys;
      assert KeyExecutes(ProcessKey(procs[i]), path);
    }
  }

  /** After observing a container, exactly the programs it was seen executing may be executed, in every run
      and after every restart. */
  lemma RecordedExecutionsGoThrough(
      cfg: PassConfig, run: Run, fs: seq<FsEvent>, net: seq<NetEvent>, procs: seq<ProcessEvent>,
      m0: Maps, auditOnly: bool, ids: seq<u64>, k: Kernel, file: PathRef)
    requires ValidRun(cfg, run) && Records(run.input, EventKeys(fs, net, procs))
    requires Empty(m0) && ids != [] && LastMoved(ids)
    requires Located(k, file) && Apart(Keys(run.input), CountsAs(PathOf(k, file)))
    ensures ExecReturns(AfterRun(m0, auditOnly, Link(run.output), ids), ids[|ids| - 1], k, file) == 0 <==>
            auditOnly || exists i :: 0 <= i < |procs| && procs[i].execve && Utf8(procs[i].execPath) == CountsAs(PathOf(k, file))
  {
    hide ValidRun, Empty, Link, AfterRun, Records, EventKeys, Apart, Located, PathOf, CountsAs, ExecReturns, Utf8, NamedByExec;
    RecordsAllow(run.input, fs, net, procs);
    ExecSucceedsExactlyWhen(cfg, run, m0, auditOnly, ids, k, file);
    RecordedExecutions(run.input, fs, net, procs, CountsAs(PathOf(k, file)));
  }
}
