/** The policy intermediate representation: subject, obj, action and verdict of a rule. */
module Ir {
  import opened Strings
  import opened PathPatterns

  datatype ContainerRef = ContainerName(name: string) | CgroupPath(path: string) | CgroupId(cgroup: u64)

  datatype BinaryRef = BinaryPath(path: string) | Comm(comm: seq<u8>)

  datatype Subject = Subject(container: Option<ContainerRef>, binary: Option<BinaryRef>, uid: Option<u32>)

  datatype FilePattern = Classified(class_: PathPattern) | ExactPath(path: string) | Prefix(prefix: string)

  datatype FileObject = FileObject(pattern: FilePattern, isSensitive: bool)

  datatype NetworkObject = NetworkObject(
    dstIp: Option<u32>, dstPort: Option<u32>, protocol: Option<u8>, direction: Option<u8>)

  datatype ProcessObject = ProcessObject(binary: BinaryRef)

  datatype Object = File(file: FileObject) | Network(net: NetworkObject) | Process(process: ProcessObject)

  datatype Action = FileOpen | FileRead | FileWrite | NetConnect | NetBind | ProcExec | ProcFork

  datatype Verdict = Allow | Deny | Audit

  datatype SourceModule = Fs | Net | Proc

  datatype Metadata = Metadata(source: SourceModule, observations: u64, firstSeen: u64, lastSeen: u64)

  type RuleId = u64

  datatype Signature = Signature(subject: Subject, obj: Object, action: Action)

  /** What a rule says, without its id and metadata. */
  datatype Key = Key(subject: Subject, obj: Object, action: Action, verdict: Verdict) {
    function Sig(): Signature { Signature(subject, obj, action) }
  }

  datatype Rule = Rule(
    id: RuleId, subject: Subject, obj: Object, action: Action, verdict: Verdict, metadata: Metadata)
  {
    function Sig(): Signature { Signature(subject, obj, action) }

    function ToKey(): Key { Key(subject, obj, action, verdict) }

    predicate ConflictsWith(other: Rule) {
      subject == other.subject && obj == other.obj && action == other.action && verdict != other.verdict
    }
  }

  function Keys(rules: seq<Rule>): set<Key> { set r | r in rules :: r.ToKey() }

  lemma KeysHasIndex(rules: seq<Rule>, k: Key) returns (i: nat)
    requires k in Keys(rules)
    ensures i < |rules| && rules[i].ToKey() == k
  {
    var r :| r in rules && r.ToKey() == k;
    i :| 0 <= i < |rules| && rules[i] == r;
  }

  function Ids(rules: seq<Rule>): set<RuleId> { set r | r in rules :: r.id }

  predicate DistinctIds(rules: seq<Rule>) {
    forall i, j :: 0 <= i < j < |rules| ==> rules[i].id != rules[j].id
  }

  // ---- rule sets without ids, order or metadata ----

  /** No two entries share a signature. */
  predicate NoClash(ks: set<Key>) {
    forall k, l :: k in ks && l in ks && k.Sig() == l.Sig() ==> k == l
  }

  /** `chosen` keeps exactly one entry per signature of `ks`. */
  ghost predicate Selection(ks: set<Key>, chosen: set<Key>) {
    && chosen <= ks
    && NoClash(chosen)
    && (forall k :: k in ks ==> exists d :: d in chosen && d.Sig() == k.Sig())
  }

  lemma SelectionOfNoClash(ks: set<Key>, chosen: set<Key>)
    requires NoClash(ks) && Selection(ks, chosen)
    ensures chosen == ks
  {
    forall k | k in ks ensures k in chosen {
      var d :| d in chosen && d.Sig() == k.Sig();
      assert d in ks;
    }
  }
}
