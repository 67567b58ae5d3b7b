/** Classification of concrete /proc/<x>/... paths into shared classes. */
module Generalize {
  import opened Strings
  import opened PathPatterns
  import opened PatternRelation
  import opened Ir

  const PROC: string := "/proc/"

  /** The class of the part after "/proc/<component>/". */
  function ClassOfTail(tail: string): PathPattern {
    if tail == "cmdline" then ProcPidCmdline
    else if tail == "comm" then ProcPidComm
    else if tail == "cwd" then ProcPidCwd
    else if tail == "environ" then ProcPidEnviron
    else if tail == "exe" then ProcPidExe
    else if tail == "maps" then ProcPidMaps
    else if tail == "mem" then ProcPidMem
    else if tail == "mountinfo" then ProcPidMountinfo
    else if tail == "mounts" then ProcPidMounts
    else if tail == "root" then ProcPidRoot
    else if tail == "stat" then ProcPidStat
    else if tail == "status" then ProcPidStatus
    else if tail == "cgroup" then ProcPidCgroup
    else if "fd/" <= tail then ProcPidFd
    else if "net/" <= tail then ProcPidNet
    else if "ns/" <= tail then ProcPidNs
    else if "task/" <= tail then ProcPidTask
    else ProcPidOther
  }

  function TryClassify(path: string): Option<PathPattern> {
    if PROC <= path then
      var remainder := path[6..];
      var slash := IndexOf(remainder, '/');
      if slash < |remainder| then Some(ClassOfTail(remainder[slash + 1..])) else None
    else None
  }

  function GenPattern(p: FilePattern): FilePattern {
    if p.ExactPath? && TryClassify(p.path).Some? then Classified(TryClassify(p.path).value) else p
  }

  function GenObject(o: Object): Object {
    if o.File? then File(o.file.(pattern := GenPattern(o.file.pattern))) else o
  }

  function GenRule(r: Rule): Rule { r.(obj := GenObject(r.obj)) }

  function GenKey(k: Key): Key { k.(obj := GenObject(k.obj)) }

  /** The classification pass. */
  function GenRules(rules: seq<Rule>): (out: seq<Rule>)
    ensures |out| == |rules|
  {
    seq(|rules|, i requires 0 <= i < |rules| => GenRule(rules[i]))
  }

  lemma TryClassifyRoot(path: string)
    requires TryClassify(path).Some?
    ensures GlobRoot(TryClassify(path).value.AsStr()) == PROC
  {
    RootIsGlobRoot(TryClassify(path).value);
  }

  /** A meaning that accepts everything the compiler itself files under a class. */
  ghost predicate Classifies(m: Meaning) {
    forall path: string :: TryClassify(path).Some? ==> m(TryClassify(path).value, path)
  }

  /** "In the class `TryClassify` gave it" is itself an admissible meaning. */
  lemma TryClassifyIsAMeaning(m: Meaning)
    requires forall c: PathPattern, p: string :: m(c, p) == (TryClassify(p) == Some(c))
    ensures Rooted(m) && Classifies(m)
  {
    forall c: PathPattern, p: string | m(c, p) ensures GlobRoot(c.AsStr()) <= p {
      TryClassifyRoot(p);
    }
  }

  lemma GenCovers(m: Meaning, p: FilePattern)
    requires Classifies(m)
    ensures Covers(m, GenPattern(p), p)
  {
  }
}
