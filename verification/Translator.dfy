/** Monitored events turned into rules: what the compiler starts from when a profile was observed. */
module Translator {
  import opened Strings
  import opened PathPatterns
  import opened Ir

  /** `class_` is what the kernel classifier said of the path when the event was taken. */
  datatype FsEvent = FsEvent(
    path: string, class_: PathPattern, write: bool, isSensitive: bool, freq: u64, executable: string, uid: u32, cgroup: u64)

  datatype NetEvent = NetEvent(
    dstIp: u32, dstPort: u32, protocol: u8, direction: u8, freq: u64, executable: string, uid: u32, cgroup: u64)

  datatype ProcessEvent = ProcessEvent(execPath: string, execve: bool, freq: u64, uid: u32, cgroup: u64)

  function ContainerOf(cgroup: u64): Option<ContainerRef> { if cgroup != 0 then Some(CgroupId(cgroup)) else None }

  function SubjectOf(executable: string, uid: u32, cgroup: u64): Subject {
    Subject(ContainerOf(cgroup), if executable != "" then Some(BinaryPath(executable)) else None, Some(uid))
  }

  /** A path the kernel found a class for is recorded by its class alone. */
  function FsKey(e: FsEvent): Key {
    Key(SubjectOf(e.executable, e.uid, e.cgroup),
        File(FileObject(if e.class_ == Regular then ExactPath(e.path) else Classified(e.class_), e.isSensitive)),
        if e.write then FileWrite else FileRead,
        Allow)
  }

  function NetKeyOf(e: NetEvent): Key {
    Key(SubjectOf(e.executable, e.uid, e.cgroup),
        Network(NetworkObject(Some(e.dstIp), Some(e.dstPort), Some(e.protocol), Some(e.direction))),
        if e.direction == 1 then NetConnect else NetBind,
        Allow)
  }

  function ProcessKey(e: ProcessEvent): Key {
    Key(Subject(ContainerOf(e.cgroup), None, Some(e.uid)),
        Process(ProcessObject(BinaryPath(e.execPath))),
        if e.execve then ProcExec else ProcFork,
        Allow)
  }

  function RuleFor(id: RuleId, k: Key, source: SourceModule, freq: u64): Rule {
    Rule(id, k.subject, k.obj, k.action, k.verdict, Metadata(source, freq, 0, 0))
  }

  /** Hands out rule ids from 1 up. */
  class ProfileTranslator {
    var nextId: RuleId

    constructor ()
      ensures nextId == 1
    {
      nextId := 1;
    }

    method AllocId() returns (id: RuleId)
      modifies this
      ensures id == old(nextId) && nextId == (old(nextId) + 1) % TWO_TO_THE_64
    {
      id := nextId;
      nextId := (nextId + 1) % TWO_TO_THE_64;
    }

    method TranslateFsEvent(e: FsEvent) returns (rule: Rule)
      modifies this
      ensures rule == RuleFor(old(nextId), FsKey(e), Fs, e.freq)
      ensures nextId == (old(nextId) + 1) % TWO_TO_THE_64
    {
      var pattern := if e.class_ == Regular then ExactPath(e.path) else Classified(e.class_);
      var action := if e.write then FileWrite else FileRead;
      var id := AllocId();
      rule := Rule(id, SubjectOf(e.executable, e.uid, e.cgroup), File(FileObject(pattern, e.isSensitive)), action,
                   Allow, Metadata(Fs, e.freq, 0, 0));
    }

    method TranslateNetworkEvent(e: NetEvent) returns (rule: Rule)
      modifies this
      ensures rule == RuleFor(old(nextId), NetKeyOf(e), Net, e.freq)
      ensures nextId == (old(nextId) + 1) % TWO_TO_THE_64
    {
      var action := if e.direction == 1 then NetConnect else NetBind;
      var id := AllocId();
      var obj := NetworkObject(Some(e.dstIp), Some(e.dstPort), Some(e.protocol), Some(e.direction));
      rule := Rule(id, SubjectOf(e.executable, e.uid, e.cgroup), Network(obj), action, Allow, Metadata(Net, e.freq, 0, 0));
    }

    method TranslateProcessEvent(e: ProcessEvent) returns (rule: Rule)
      modifies this
      ensures rule == RuleFor(old(nextId), ProcessKey(e), Proc, e.freq)
      ensures nextId == (old(nextId) + 1) % TWO_TO_THE_64
    {
      var action := if e.execve then ProcExec else ProcFork;
      var id := AllocId();
      rule := Rule(id, Subject(ContainerOf(e.cgroup), None, Some(e.uid)), Process(ProcessObject(BinaryPath(e.execPath))),
                   action, Allow, Metadata(Proc, e.freq, 0, 0));
    }
  }

  /** What each event is recorded as, in the order of translation. */
  function EventKeys(fs: seq<FsEvent>, net: seq<NetEvent>, procs: seq<ProcessEvent>): (r: seq<Key>)
    ensures |r| == |fs| + |net| + |procs|
  {
    seq(|fs|, i requires 0 <= i < |fs| => FsKey(fs[i])) + seq(|net|, i requires 0 <= i < |net| => NetKeyOf(net[i]))
    + seq(|procs|, i requires 0 <= i < |procs| => ProcessKey(procs[i]))
  }

  /** The id of the rule after `n` others. */
  function NthId(n: nat): RuleId { (n + 1) % TWO_TO_THE_64 }

  lemma IdsCountUp(n: nat)
    ensures NthId(0) == 1 && NthId(n + 1) == (NthId(n) + 1) % TWO_TO_THE_64
  {
  }

  /** `rules` records the events `keys` under the ids 1, 2, ... */
  predicate Records(rules: seq<Rule>, keys: seq<Key>) {
    |rules| == |keys| && forall i :: 0 <= i < |rules| ==> rules[i].ToKey() == keys[i] && rules[i].id == NthId(i)
  }

  /** The rules count what the events were seen how often; nothing is known of when. */
  predicate Counted(rules: seq<Rule>, fs: seq<FsEvent>, net: seq<NetEvent>, procs: seq<ProcessEvent>) {
    forall i :: 0 <= i < |rules| && i < |fs| + |net| + |procs| ==>
      rules[i].metadata == (
        if i < |fs| then Metadata(Fs, fs[i].freq, 0, 0)
        else if i < |fs| + |net| then Metadata(Net, net[i - |fs|].freq, 0, 0)
        else Metadata(Proc, procs[i - |fs| - |net|].freq, 0, 0))
  }

  lemma EventKeysAt(fs: seq<FsEvent>, net: seq<NetEvent>, procs: seq<ProcessEvent>)
    ensures forall i :: 0 <= i < |fs| ==> EventKeys(fs, net, procs)[i] == FsKey(fs[i])
    ensures forall i :: |fs| <= i < |fs| + |net| ==> EventKeys(fs, net, procs)[i] == NetKeyOf(net[i - |fs|])
    ensures forall i :: |fs| + |net| <= i < |fs| + |net| + |procs| ==>
              EventKeys(fs, net, procs)[i] == ProcessKey(procs[i - |fs| - |net|])
  {
    hide FsKey, NetKeyOf, ProcessKey;
  }

  lemma OneMoreRecord(rules: seq<Rule>, keys: seq<Key>, rule: Rule)
    requires |rules| < |keys| && Records(rules, keys[..|rules|])
    requires rule.ToKey() == keys[|rules|] && rule.id == NthId(|rules|)
    ensures Records(rules + [rule], keys[..|rules| + 1])
  {
    assert keys[..|rules| + 1] == keys[..|rules|] + [keys[|rules|]];
  }

  method TranslateAllEvents(fs: seq<FsEvent>, net: seq<NetEvent>, procs: seq<ProcessEvent>) returns (rules: seq<Rule>)
    ensures Records(rules, EventKeys(fs, net, procs)) && Counted(rules, fs, net, procs)
  {
    hide FsKey, NetKeyOf, ProcessKey, EventKeys, Records, NthId;
    ghost var keys := EventKeys(fs, net, procs);
    EventKeysAt(fs, net, procs);
    var translator := new ProfileTranslator();
    rules := [];
    IdsCountUp(0);
    assert Records(rules, keys[..0]) by { NoRecords(keys); }
    for i := 0 to |fs|
      invariant |rules| == i && translator.nextId == NthId(i) && Records(rules, keys[..i])
      invariant Counted(rules, fs, net, procs)
    {
      var rule := translator.TranslateFsEvent(fs[i]);
      OneMoreRecord(rules, keys, rule);
      IdsCountUp(|rules|);
      rules := rules + [rule];
    }
    for i := 0 to |net|
      invariant |rules| == |fs| + i && translator.nextId == NthId(|rules|)
      invariant Records(rules, keys[..|rules|]) && Counted(rules, fs, net, procs)
    {
      var rule := translator.TranslateNetworkEvent(net[i]);
      OneMoreRecord(rules, keys, rule);
      IdsCountUp(|rules|);
      rules := rules + [rule];
    }
    for i := 0 to |procs|
      invariant |rules| == |fs| + |net| + i && translator.nextId == NthId(|rules|)
      invariant Records(rules, keys[..|rules|]) && Counted(rules, fs, net, procs)
    {
      var rule := translator.TranslateProcessEvent(procs[i]);
      OneMoreRecord(rules, keys, rule);
      IdsCountUp(|rules|);
      rules := rules + [rule];
    }
    assert keys[..|keys|] == keys;
  }

  lemma NoRecords(keys: seq<Key>)
    ensures Records([], keys[..0])
  {
  }

  /** Translated rules are told apart by id, and all allow, as long as ids last. */
  lemma RecordedIdsDistinct(rules: seq<Rule>, keys: seq<Key>)
    requires Records(rules, keys) && |keys| < TWO_TO_THE_64 - 1
    ensures DistinctIds(rules)
  {
    forall i | 0 <= i < |rules| ensures rules[i].id == i + 1 {}
  }

  /** The recorded set is the set of what the events say. */
  lemma RecordedKeys(rules: seq<Rule>, keys: seq<Key>)
    requires Records(rules, keys)
    ensures Keys(rules) == set k | k in keys
  {
    forall k | k in keys ensures k in Keys(rules) {
      var i :| 0 <= i < |keys| && keys[i] == k;
      assert rules[i] in rules;
    }
    forall k | k in Keys(rules) ensures k in keys {
      var i := KeysHasIndex(rules, k);
    }
  }

  /** Two events are recorded as one rule exactly when program, user, cgroup and what was done are the same:
      for a file the class, the path if it has none, the access and the sensitivity. */
  lemma RecordedAlikeExactlyWhen(
      f: FsEvent, g: FsEvent, n: NetEvent, o: NetEvent, p: ProcessEvent, q: ProcessEvent)
    ensures FsKey(f) == FsKey(g) <==>
            && f.executable == g.executable && f.uid == g.uid && f.cgroup == g.cgroup
            && f.class_ == g.class_ && (f.class_ == Regular ==> f.path == g.path)
            && f.write == g.write && f.isSensitive == g.isSensitive
    ensures NetKeyOf(n) == NetKeyOf(o) <==>
            && n.executable == o.executable && n.uid == o.uid && n.cgroup == o.cgroup
            && n.dstIp == o.dstIp && n.dstPort == o.dstPort && n.protocol == o.protocol && n.direction == o.direction
    ensures ProcessKey(p) == ProcessKey(q) <==>
            p.execPath == q.execPath && p.execve == q.execve && p.uid == q.uid && p.cgroup == q.cgroup
  {
    SubjectsAlike(f.executable, f.uid, f.cgroup, g.executable, g.uid, g.cgroup);
    SubjectsAlike(n.executable, n.uid, n.cgroup, o.executable, o.uid, o.cgroup);
  }

  lemma SubjectsAlike(a: string, u: u32, c: u64, b: string, v: u32, d: u64)
    ensures SubjectOf(a, u, c) == SubjectOf(b, v, d) <==> a == b && u == v && c == d
  {
  }
}
