/** What the compiled policy still allows of the file accesses the monitor recorded. */
module ObservedEvents {
  import opened Strings
  import opened PathPatterns
  import opened Ir
  import opened PatternRelation
  import opened Canonical
  import opened Generalize
  import opened PrefixGeneralize
  import opened RuleSets
  import opened Optimizer
  import opened FixedPoint
  import opened Refinement
  import opened Compile
  import opened CompiledAccess
  import opened KernelPath
  import Classifier
  import opened ClassifierAgreement
  import opened Translator
  import L = Loader

  /** The class the kernel finds for a path it resolved, when monitoring as when enforcing. */
  function ResolvedClass(path: seq<u8>): PathPattern
    requires |path| <= MAX_PATH_LEN
  {
    Classifier.KernelClass(ClassifyBytes(KernelPath.Zeros(MAX_PATH_LEN - |path|) + path, Prepend, |path|))
  }

  /** The event of an access to a canonical absolute path that fits the kernel's buffer. */
  predicate Genuine(e: FsEvent) {
    && IsAbsolute(e.path) && CanonicalPath(e.path) == e.path && |Utf8(e.path)| <= MAX_PATH_LEN
    && e.class_ == ResolvedClass(Utf8(e.path))
  }

  /** The access an event records. */
  function Access(e: FsEvent): Opening { Opening(!e.write, e.write) }

  ghost predicate StillNamed(cfg: PassConfig, ks: set<Key>, path: seq<u8>) {
    NamedByFile(cfg, ks, path) || NamedByExec(ks, path)
  }

  // ---- the class of a path against its text ----

  lemma ProcIsNeverRegular(s: seq<u8>)
    ensures Classifier.ProcClass(s) != Regular
  {
    hide Classifier.ProcSuffix;
    if Classifier.ProcClass(s) == Regular {
      Classifier.ProcClassRoots(s);
    }
  }

  lemma ResolvedBytes(text: seq<u8>)
    requires text != [] && |text| <= MAX_PATH_LEN
    ensures ResolvedClass(text) ==
            Classifier.KernelClass(if |text| < MAX_PATH_DEPTH then ShortBytes(text) else text[..MAX_PATH_DEPTH])
  {
    hide Classifier.KernelClass, ClassifyBytes;
    Classifier.ClassifyBytesOfResolved(KernelPath.Zeros(MAX_PATH_LEN - |text|) + text, text);
  }

  /** The trees the kernel classifier looks into. */
  const TREES: seq<string> := ["/proc/", "/sys/", "/run/", "/dev/", "/tmp/"]

  predicate OutsideTrees(path: string) { forall i :: 0 <= i < |TREES| ==> !(TREES[i] <= path) }

  lemma BytesBegin(path: string, root: string)
    requires path != "" && |Utf8(path)| <= MAX_PATH_LEN && IsAscii(root) && 2 <= |root| <= 6
    requires root[|root| - 1] != root[|root| - 2]
    ensures var text := Utf8(path);
      Classifier.Begins(if |text| < MAX_PATH_DEPTH then ShortBytes(text) else text[..MAX_PATH_DEPTH], root) <==> root <= path
  {
    hide Utf8;
    AsciiPrefix(path, root);
    Utf8Head(path);
    var text := Utf8(path);
    if |text| < MAX_PATH_DEPTH {
      if Classifier.Begins(ShortBytes(text), root) {
        Classifier.ShortBytesRooted(text, root);
      }
    }
  }

  lemma TreeShapes()
    ensures forall i :: 0 <= i < |TREES| ==> IsAscii(TREES[i]) && 5 <= |TREES[i]| <= 6
    ensures forall i :: 0 <= i < |TREES| ==> TREES[i][|TREES[i]| - 1] == '/' != TREES[i][|TREES[i]| - 2]
  {
  }

  lemma KernelTrees(bytes: seq<u8>)
    requires |bytes| == MAX_PATH_DEPTH
    ensures Classifier.KernelClass(bytes) == Regular <==> forall i :: 0 <= i < |TREES| ==> !Classifier.Begins(bytes, TREES[i])
  {
    hide Classifier.Begins, Classifier.ProcClass, Classifier.ContainsDocker;
    assert TREES[0] == "/proc/" && TREES[1] == "/sys/" && TREES[2] == "/run/" && TREES[3] == "/dev/" && TREES[4] == "/tmp/";
    if Classifier.Begins(bytes, "/proc/") {
      ProcIsNeverRegular(bytes[6..]);
    }
  }

  /** The kernel calls a path regular exactly when it is in none of the trees. */
  lemma RegularIsOutside(path: string)
    requires path != "" && |Utf8(path)| <= MAX_PATH_LEN
    ensures ResolvedClass(Utf8(path)) == Regular <==> OutsideTrees(path)
  {
    hide Utf8, Classifier.KernelClass, Classifier.Begins, IsAscii, ResolvedClass, ShortBytes;
    Utf8Head(path);
    var text := Utf8(path);
    ResolvedBytes(text);
    var bytes := if |text| < MAX_PATH_DEPTH then ShortBytes(text) else text[..MAX_PATH_DEPTH];
    KernelTrees(bytes);
    TreeShapes();
    forall i | 0 <= i < |TREES| ensures Classifier.Begins(bytes, TREES[i]) <==> TREES[i] <= path {
      BytesBegin(path, TREES[i]);
    }
  }

  /** What the kernel calls regular the compiler does not classify. */
  lemma RegularIsUnclassified(path: string)
    requires path != "" && |Utf8(path)| <= MAX_PATH_LEN && ResolvedClass(Utf8(path)) == Regular
    ensures TryClassify(path) == None
  {
    hide Utf8, ResolvedClass, ClassOfTail;
    RegularIsOutside(path);
    assert TREES[0] == PROC;
  }

  /** A classed path, cgroup classes aside, lies under the root the compiler takes the class for. */
  lemma ClassedIsRooted(path: string)
    requires path != "" && |Utf8(path)| <= MAX_PATH_LEN
    requires Classifier.RootedInKernel(ResolvedClass(Utf8(path)))
    ensures GlobRoot(ResolvedClass(Utf8(path)).AsStr()) <= path
  {
    hide Utf8, ClassifyBytes, Classifier.KernelClass, Root, PathPattern.AsStr, GlobRoot, Classifier.RootedInKernel;
    var text := Utf8(path);
    assert text != [] by { Utf8Head(path); }
    var c := ResolvedClass(text);
    Classifier.ResolvedPathIsRooted(KernelPath.Zeros(MAX_PATH_LEN - |text|) + text, text);
    RootIsAscii(c);
    AsciiPrefix(path, Root(c));
    RootIsGlobRoot(c);
  }

  lemma RootIsAscii(c: PathPattern)
    ensures IsAscii(Root(c))
  {
  }

  // ---- a recorded entry through the passes ----

  lemma RecordedIsFixed(e: FsEvent)
    requires Genuine(e)
    ensures CanonKey(FsKey(e)) == FsKey(e) && GenKey(FsKey(e)) == FsKey(e)
  {
    hide CanonicalPath, TryClassify, ResolvedClass, Utf8;
    if e.class_ == Regular { RegularIsUnclassified(e.path); }
  }

  lemma RecordedIsClassed(ks: set<Key>, e: FsEvent)
    requires Genuine(e) && FsKey(e) in ks
    ensures FsKey(e) in Classed(ks)
  {
    hide CanonKey, GenKey, Genuine, FsKey;
    RecordedIsFixed(e);
    assert FsKey(e) in CanonKeys(ks);
  }

  lemma CollapsedIsCanonical(cfg: PassConfig, ks: set<Key>)
    ensures CanonicalSet(Collapsed(cfg, ks))
  {
    hide CanonicalSet, CanonKeys, GenKeys, PrefixGenKeys;
    CanonKeysCanonical(ks);
    CollapsedSetCanonical(cfg, CanonKeys(ks));
  }

  lemma Utf8Keeps(a: string, b: string)
    requires a != "" && a <= b
    ensures Utf8(a) != [] && Utf8(a) <= Utf8(b)
  {
    hide Utf8;
    Utf8Head(a);
    Utf8Append(a, b[|a|..]);
    assert a + b[|a|..] == b;
  }

  /** A kept prefix that begins a path reaches it, even cut to 128 bytes. */
  lemma PrefixOfReaches(cfg: PassConfig, ks: set<Key>, s: Key, path: string)
    requires s in SubsumeKeys(Collapsed(cfg, ks)) && IsPrefixKey(s) && s.obj.file.pattern.prefix <= path
    ensures SomeReaches(Prefixes(cfg, ks), Utf8(path))
  {
    hide Utf8, Collapsed, CanonicalPrefix, Subsumes;
    CollapsedIsCanonical(cfg, ks);
    assert CanonKey(s) == s;
    var d := s.obj.file.pattern.prefix;
    CanonicalPrefixEnding(d);
    Utf8Keeps(d, path);
    assert PrefixReaches(s, Utf8(path));
  }

  /** An entry lost to prefixes leaves one of them over everything it begins with. */
  lemma LostToPrefix(cfg: PassConfig, ks: set<Key>, b: Key, k: Key, path: string)
    requires b in Collapsed(cfg, ks) && Subsumes(b, k) && IsFileKey(k)
    requires k.obj.file.pattern.ExactPath? ==> k.obj.file.pattern.path == path
    requires k.obj.file.pattern.Classified? ==> GlobRoot(k.obj.file.pattern.class_.AsStr()) <= path
    requires !k.obj.file.pattern.Prefix?
    ensures SomeReaches(Prefixes(cfg, ks), Utf8(path))
  {
    hide Utf8, Collapsed, SubsumeKeys, RelationTo, GlobRoot, PathPattern.AsStr, SomeReaches, Prefixes;
    var s := SurvivingSubsumer(Collapsed(cfg, ks), k, b);
    SupersetIsPrefix(s.obj.file.pattern, k.obj.file.pattern);
    PrefixOfReaches(cfg, ks, s, path);
  }

  /** An entry that joined its siblings leaves their prefix or a shorter one. */
  lemma LostToCollapse(cfg: PassConfig, ks: set<Key>, k: Key)
    requires k in Classed(ks) && Collapses(cfg, Classed(ks), k) && IsFileKey(k)
    ensures k.obj.file.pattern.ExactPath? && SomeReaches(Prefixes(cfg, ks), Utf8(k.obj.file.pattern.path))
  {
    hide Utf8, Classed, Fires, SubsumeKeys, SomeReaches, Prefixes, RelationTo;
    var g := GroupOf(k).value;
    var p := PrefixKey(g);
    MemberFacts(k, g);
    GroupDirIsPrefix(k, g);
    assert p in Collapsed(cfg, ks);
    var path := k.obj.file.pattern.path;
    if SubsumedIn(Collapsed(cfg, ks), p) {
      var b :| b in Collapsed(cfg, ks) && Subsumes(b, p);
      var s := SurvivingSubsumer(Collapsed(cfg, ks), p, b);
      SupersetIsPrefix(s.obj.file.pattern, p.obj.file.pattern);
      PrefixOfReaches(cfg, ks, s, path);
    } else {
      assert p in SubsumeKeys(Collapsed(cfg, ks)) by { Unsubsumed(Collapsed(cfg, ks), p); }
      PrefixOfReaches(cfg, ks, p, path);
    }
  }

  lemma Unsubsumed(ks: set<Key>, k: Key)
    requires k in ks && !SubsumedIn(ks, k)
    ensures k in SubsumeKeys(ks)
  {
  }

  /** A recorded access keeps its exact rule, or its class rule, or falls under a kept prefix. */
  lemma RecordedIsCovered(cfg: PassConfig, ks: set<Key>, e: FsEvent)
    requires Genuine(e) && FsKey(e) in ks
    ensures var path := Utf8(e.path);
      || (e.class_ == Regular && NamedFor(cfg, ks, path, e.write))
      || ClassListed(cfg, ks, e.class_)
      || (Classifier.RootedInKernel(e.class_) ==> SomeReaches(Prefixes(cfg, ks), path))
  {
    hide Utf8, Classed, ResolvedClass, CanonicalPath, SomeReaches, Prefixes, Subsumes, GlobRoot, PathPattern.AsStr,
      Collapses, Classifier.RootedInKernel;
    var k, path := FsKey(e), Utf8(e.path);
    RecordedIsClassed(ks, e);
    if Collapses(cfg, Classed(ks), k) {
      LostToCollapse(cfg, ks, k);
    } else {
      assert k in Collapsed(cfg, ks);
      if b :| b in Collapsed(cfg, ks) && Subsumes(b, k) {
        if Classifier.RootedInKernel(e.class_) {
          ClassedIsRooted(e.path);
          LostToPrefix(cfg, ks, b, k, e.path);
        }
      } else if e.class_ == Regular {
        assert StaysExact(cfg, ks, k) && KeyForPath(k, path) && (k.action == FileWrite <==> e.write);
      } else {
        assert ListsClass(k, e.class_);
      }
    }
  }

  /** The fate of a recorded access in whatever rules it is compiled with: if some rule still names the
      path, the access must be one it is named with; otherwise its class must be listed, or too few
      prefixes must miss the path to take all the slots before the one that reaches it. Only the cgroup
      classes reach past their roots, so that only their paths can lack such a prefix. */
  lemma ObservedStaysAllowedExactlyWhen(cfg: PassConfig, rules: seq<Rule>, e: FsEvent)
    requires AllAllow(rules) && Genuine(e) && FsKey(e) in Keys(rules)
    ensures var ks, path := Keys(rules), Utf8(e.path);
      EveryRunAllows(cfg, rules, path, e.class_, Access(e)) <==>
      if StillNamed(cfg, ks, path) then NamedFor(cfg, ks, path, e.write)
      else
        || ClassListed(cfg, ks, e.class_)
        || (|Missing(Prefixes(cfg, ks), path)| < 64
            && (Classifier.RootedInKernel(e.class_) || SomeReaches(Prefixes(cfg, ks), path)))
  {
    hide Utf8, Genuine, FsKey, Keys, AllAllow, EveryRunAllows, ClassListed, SomeReaches, Prefixes, Missing, StaysExact,
      KeyForPath, NamedByExec, Classifier.RootedInKernel;
    var ks, path := Keys(rules), Utf8(e.path);
    EveryRunAllowsExactlyWhen(cfg, rules, path, e.class_, Access(e));
    RecordedIsCovered(cfg, ks, e);
    if NamedFor(cfg, ks, path, e.write) {
      NamedForNames(cfg, ks, path, e.write);
    }
  }

  /** While the prefixes fit their slots, a recorded access is lost exactly when its path is still named,
      but not with this access. */
  lemma ObservedKeptWhileSlotsLast(cfg: PassConfig, rules: seq<Rule>, e: FsEvent)
    requires AllAllow(rules) && Genuine(e) && FsKey(e) in Keys(rules)
    requires |Prefixes(cfg, Keys(rules))| <= 64 && Classifier.RootedInKernel(e.class_)
    ensures var ks, path := Keys(rules), Utf8(e.path);
      EveryRunAllows(cfg, rules, path, e.class_, Access(e)) <==> (StillNamed(cfg, ks, path) ==> NamedFor(cfg, ks, path, e.write))
  {
    hide Utf8, Genuine, FsKey, Keys, AllAllow, EveryRunAllows, ClassListed, SomeReaches, Prefixes, Missing, StillNamed, NamedFor,
      Classifier.RootedInKernel;
    var ks, path := Keys(rules), Utf8(e.path);
    ObservedStaysAllowedExactlyWhen(cfg, rules, e);
    RecordedIsCovered(cfg, ks, e);
    if NamedFor(cfg, ks, path, e.write) {
      NamedForNames(cfg, ks, path, e.write);
    }
    if SomeReaches(Prefixes(cfg, ks), path) {
      FewMissing(Prefixes(cfg, ks), path);
    }
  }

  lemma NamedForNames(cfg: PassConfig, ks: set<Key>, path: seq<u8>, writing: bool)
    requires NamedFor(cfg, ks, path, writing)
    ensures StillNamed(cfg, ks, path)
  {
    hide StaysExact, KeyForPath, NamedByExec;
  }

  // ---- a profile of events and nothing else ----

  /** Some event executed the path. */
  predicate Executed(procs: seq<ProcessEvent>, path: seq<u8>) {
    exists i :: 0 <= i < |procs| && procs[i].execve && Utf8(procs[i].execPath) == path
  }

  lemma OnlyEventsExecute(rules: seq<Rule>, fs: seq<FsEvent>, net: seq<NetEvent>, procs: seq<ProcessEvent>, path: seq<u8>)
    requires Records(rules, EventKeys(fs, net, procs))
    ensures NamedByExec(Keys(rules), path) <==> Executed(procs, path)
  {
    hide Utf8, EventKeys, Records, Keys;
    var keys := EventKeys(fs, net, procs);
    EventKeysAt(fs, net, procs);
    RecordedKeys(rules, keys);
    if i :| 0 <= i < |procs| && procs[i].execve && Utf8(procs[i].execPath) == path {
      assert keys[|fs| + |net| + i] in keys && KeyExecutes(ProcessKey(procs[i]), path);
    }
    if NamedByExec(Keys(rules), path) {
      var k :| k in Keys(rules) && KeyExecutes(k, path);
      var i :| 0 <= i < |keys| && keys[i] == k;
      assert i >= |fs| + |net| && k == ProcessKey(procs[i - |fs| - |net|]);
    }
  }

  lemma FileEventsFirst(fs: seq<FsEvent>, net: seq<NetEvent>, procs: seq<ProcessEvent>)
    ensures forall i :: 0 <= i < |fs| ==> EventKeys(fs, net, procs)[i] == FsKey(fs[i])
    ensures forall i :: |fs| <= i < |fs| + |net| + |procs| ==> !EventKeys(fs, net, procs)[i].obj.File?
  {
    hide EventKeys, FsKey;
    EventKeysAt(fs, net, procs);
  }

  lemma FileKeysAreEvents(rules: seq<Rule>, fs: seq<FsEvent>, net: seq<NetEvent>, procs: seq<ProcessEvent>, k: Key)
    returns (i: nat)
    requires Records(rules, EventKeys(fs, net, procs)) && k in Keys(rules) && k.obj.File?
    ensures i < |fs| && k == FsKey(fs[i])
  {
    hide EventKeys, Records, Keys, FsKey;
    FileEventsFirst(fs, net, procs);
    RecordedKeys(rules, EventKeys(fs, net, procs));
    i :| 0 <= i < |EventKeys(fs, net, procs)| && EventKeys(fs, net, procs)[i] == k;
  }

  lemma ExactOrigin(ks: set<Key>, k: Key) returns (o: Key)
    requires k in Classed(ks) && IsExact(k)
    ensures o in ks && IsExact(o) && CanonicalPath(o.obj.file.pattern.path) == k.obj.file.pattern.path
    ensures o.action == k.action
  {
    hide CanonicalPath, TryClassify;
    var c :| c in CanonKeys(ks) && GenKey(c) == k;
    o :| o in ks && CanonKey(o) == c;
  }

  /** Exact rules only ever come from paths the kernel calls regular. */
  lemma ExactIsRegular(rules: seq<Rule>, fs: seq<FsEvent>, net: seq<NetEvent>, procs: seq<ProcessEvent>, k: Key)
    requires Records(rules, EventKeys(fs, net, procs)) && forall i :: 0 <= i < |fs| ==> Genuine(fs[i])
    requires k in Classed(Keys(rules)) && IsExact(k)
    ensures var path := k.obj.file.pattern.path;
      IsAbsolute(path) && CanonicalPath(path) == path && |Utf8(path)| <= MAX_PATH_LEN && ResolvedClass(Utf8(path)) == Regular
  {
    hide Utf8, EventKeys, Records, Keys, ResolvedClass, CanonicalPath, Classed;
    var o := ExactOrigin(Keys(rules), k);
    var i := FileKeysAreEvents(rules, fs, net, procs, o);
    assert Genuine(fs[i]);
  }

  lemma ClassedIsNotNamed(
      cfg: PassConfig, rules: seq<Rule>, fs: seq<FsEvent>, net: seq<NetEvent>, procs: seq<ProcessEvent>, path: seq<u8>)
    requires Records(rules, EventKeys(fs, net, procs)) && forall i :: 0 <= i < |fs| ==> Genuine(fs[i])
    requires |path| <= MAX_PATH_LEN && ResolvedClass(path) != Regular
    ensures !NamedByFile(cfg, Keys(rules), path)
  {
    hide Utf8, EventKeys, Records, Keys, ResolvedClass, Classed, Collapses, SubsumedIn, Genuine;
    if NamedByFile(cfg, Keys(rules), path) {
      var k :| StaysExact(cfg, Keys(rules), k) && KeyForPath(k, path);
      ExactIsRegular(rules, fs, net, procs, k);
    }
  }

  /** In a profile of genuine events, what happened to a path the kernel classes, cgroup classes aside,
      stays allowed unless the path was also executed and the access is a write: the read rules linked to
      the execution then name it, for reading alone. Without an execution only the slots can run out. */
  lemma ClassedAccessStaysExactlyWhen(
      cfg: PassConfig, rules: seq<Rule>, fs: seq<FsEvent>, net: seq<NetEvent>, procs: seq<ProcessEvent>, e: FsEvent)
    requires Records(rules, EventKeys(fs, net, procs)) && e in fs && forall i :: 0 <= i < |fs| ==> Genuine(fs[i])
    requires e.class_ != Regular && Classifier.RootedInKernel(e.class_)
    ensures var ks, path := Keys(rules), Utf8(e.path);
      && (EveryRunAllows(cfg, rules, path, e.class_, Access(e)) <==>
          if Executed(procs, path) then !e.write
          else ClassListed(cfg, ks, e.class_) || |Missing(Prefixes(cfg, ks), path)| < 64)
      && (|Prefixes(cfg, ks)| <= 64 ==>
          (EveryRunAllows(cfg, rules, path, e.class_, Access(e)) <==> !(e.write && Executed(procs, path))))
  {
    hide Utf8, EventKeys, Records, Keys, ResolvedClass, CanonicalPath, ClassListed, SomeReaches, Prefixes, Missing,
      EveryRunAllows, StaysExact, KeyForPath, KeyExecutes, Executed, AllAllow, FsKey, Classifier.RootedInKernel;
    var ks, path := Keys(rules), Utf8(e.path);
    EventsAllow(rules, fs, net, procs, e);
    OnlyEventsExecute(rules, fs, net, procs, path);
    ClassedIsNotNamed(cfg, rules, fs, net, procs, path);
    ObservedStaysAllowedExactlyWhen(cfg, rules, e);
    if |Prefixes(cfg, ks)| <= 64 {
      ObservedKeptWhileSlotsLast(cfg, rules, e);
    }
  }

  lemma RecordsAllow(rules: seq<Rule>, fs: seq<FsEvent>, net: seq<NetEvent>, procs: seq<ProcessEvent>)
    requires Records(rules, EventKeys(fs, net, procs))
    ensures AllAllow(rules)
  {
    hide EventKeys, SubjectOf, ContainerOf;
    var keys := EventKeys(fs, net, procs);
    EventKeysAt(fs, net, procs);
    forall i | 0 <= i < |rules| ensures rules[i].verdict == Allow {
      assert rules[i].ToKey() == keys[i];
      assert i >= |fs| + |net| ==> keys[i] == ProcessKey(procs[i - |fs| - |net|]);
      assert |fs| <= i < |fs| + |net| ==> keys[i] == NetKeyOf(net[i - |fs|]);
    }
  }

  lemma EventsAllow(rules: seq<Rule>, fs: seq<FsEvent>, net: seq<NetEvent>, procs: seq<ProcessEvent>, e: FsEvent)
    requires Records(rules, EventKeys(fs, net, procs))
    ensures AllAllow(rules)
    ensures e in fs ==> FsKey(e) in Keys(rules)
  {
    hide EventKeys, Keys, FsKey, AllAllow;
    var keys := EventKeys(fs, net, procs);
    RecordsAllow(rules, fs, net, procs);
    EventKeysAt(fs, net, procs);
    RecordedKeys(rules, keys);
    if i :| 0 <= i < |fs| && fs[i] == e {
      assert keys[i] in keys;
    }
  }
}
