/** Which configurations let the compiled policy keep every file read the monitor recorded. */
module ObservedReads {
  import opened Strings
  import opened PathPatterns
  import opened Ir
  import opened PatternRelation
  import opened Canonical
  import opened Generalize
  import CollapseGuards
  import opened PrefixGeneralize
  import opened RuleSets
  import opened Optimizer
  import opened FixedPointLimit
  import opened Pipeline
  import opened Realization
  import opened Linker
  import opened Refinement
  import opened Compile
  import opened CompiledAccess
  import opened KernelPath
  import Classifier
  import opened ClassifierAgreement
  import opened Translator
  import opened ObservedEvents
  import L = Loader
  import T = Text

  /** A directory whose files the monitor records by path: absolute, canonical, outside the classed trees,
      not the root, and short enough to become a prefix. */
  predicate Watchable(dir: string) {
    && IsAbsolute(dir) && CanonicalPrefix(dir) == dir && dir != "/" && OutsideTrees(dir)
    && |Utf8(dir)| <= PREFIX_MAX_LEN
  }

  // ---- the files "0", "1", ... of a directory ----

  function FileIn(dir: string, i: nat): string { dir + T.Dec(i) }

  function ReadAt(dir: string, i: nat): FsEvent { FsEvent(FileIn(dir, i), Regular, false, false, 1, "", 0, 0) }

  function WriteAt(dir: string, i: nat): FsEvent { ReadAt(dir, i).(write := true) }

  lemma DecIsAName(i: nat)
    ensures var s := T.Dec(i); IsName(s) && s != ".."
  {
    var s := T.Dec(i);
    assert T.IsDigitChar(s[0]);
  }

  /** A canonical directory other than the root is its components with a slash behind. */
  lemma DirIsRendered(dir: string)
    requires IsAbsolute(dir) && CanonicalPrefix(dir) == dir && dir != "/"
    ensures Components(dir) != [] && Normal(true, Components(dir)) && dir == Render(true, Components(dir)) + "/"
  {
    hide Components, Join;
    ComponentsNormal(dir);
    JoinNames(Components(dir));
    EmptyJoin();
  }

  lemma FileIsCanonical(dir: string, name: string)
    requires IsAbsolute(dir) && CanonicalPrefix(dir) == dir && dir != "/"
    requires IsName(name) && name != ".."
    ensures IsAbsolute(dir + name) && CanonicalPath(dir + name) == dir + name && ParentDir(dir + name) == Some(dir)
  {
    hide Components, Join, Render, ParentDir;
    DirIsRendered(dir);
    var comps := Components(dir);
    var out := comps + [name];
    assert forall i :: 0 <= i < |comps| ==> out[i] == comps[i];
    assert out[|comps|] == name;
    assert Normal(true, out);
    RenderChild(true, comps, name);
    assert Render(true, out) == dir + name;
    ParentOfRender(true, comps, name);
    ComponentsOfRender(true, out);
  }

  lemma OutsideStays(dir: string, name: string)
    requires IsAbsolute(dir) && EndsWithSlash(dir) && dir != "/"
    ensures OutsideTrees(dir + name) <==> OutsideTrees(dir)
  {
    TreeShapes();
    forall i | 0 <= i < |TREES| ensures TREES[i] <= dir + name <==> TREES[i] <= dir {
      TreeBegins(TREES[i], dir, name);
    }
  }

  /** A path begins with "/x.../" exactly when its directory does. */
  lemma TreeBegins(root: string, dir: string, name: string)
    requires IsAbsolute(dir) && EndsWithSlash(dir) && dir != "/" && |root| >= 2 && root in TREES
    ensures root <= dir + name <==> root <= dir
  {
    if root <= dir + name && |dir| < |root| {
      assert forall i :: 0 <= i < |dir| ==> (dir + name)[i] == dir[i];
      assert root[|dir| - 1] == '/';
      OneInnerSlash(root, |dir| - 1);
    }
  }

  lemma OneInnerSlash(root: string, i: nat)
    requires root in TREES && 0 < i < |root| - 1
    ensures root[i] != '/'
  {
  }

  // ---- short names that look generated ----

  function Pow10(k: nat): nat { if k == 0 then 1 else 10 * Pow10(k - 1) }

  lemma {:induction false} DecIsShort(n: nat, k: nat)
    requires n < Pow10(k)
    ensures |T.Dec(n)| <= Max(k, 1)
  {
    if n >= 10 {
      DecIsShort(n / 10, k - 1);
    }
  }

  lemma IdsFitTwentyDigits(n: nat)
    requires n <= U64_MAX
    ensures n < Pow10(20)
  {
    assert Pow10(5) == 100000;
    assert Pow10(10) == 10000000000;
    assert Pow10(15) == 1000000000000000;
    assert Pow10(20) == 100000000000000000000;
  }

  lemma DecIsHex(n: nat)
    ensures HexToken(Utf8(T.Dec(n)))
  {
    hide Utf8;
    var s := T.Dec(n);
    assert forall i :: 0 <= i < |s| ==> T.IsDigitChar(s[i]);
    AsciiText(s);
    assert IsDigit(Utf8(s)[0]);
  }

  lemma FileFits(dir: string, i: nat)
    requires |Utf8(dir)| <= PREFIX_MAX_LEN && i <= U64_MAX
    ensures |Utf8(FileIn(dir, i))| <= MAX_PATH_LEN
    ensures FileIn(dir, i)[|dir|..] == T.Dec(i)
  {
    hide Utf8, T.Dec;
    IdsFitTwentyDigits(i);
    DecIsShort(i, 20);
    var s := T.Dec(i);
    assert forall j :: 0 <= j < |s| ==> T.IsDigitChar(s[j]);
    AsciiText(s);
    Utf8Append(dir, s);
  }

  lemma EventsAreGenuine(dir: string, i: nat)
    requires Watchable(dir) && i <= U64_MAX
    ensures Genuine(ReadAt(dir, i)) && Genuine(WriteAt(dir, i))
  {
    hide Utf8, T.Dec, CanonicalPath, CanonicalPrefix, ResolvedClass, OutsideTrees;
    CanonicalPrefixEnding(dir);
    DecIsAName(i);
    FileIsCanonical(dir, T.Dec(i));
    FileFits(dir, i);
    OutsideStays(dir, T.Dec(i));
    RegularIsOutside(FileIn(dir, i));
  }

  // ---- all files read, one also written ----

  /** The first `n` files are read, the first one is also written. */
  function WatchedEvents(dir: string, n: nat): (fs: seq<FsEvent>)
    ensures |fs| == n + 1
  {
    seq(n, i requires 0 <= i => ReadAt(dir, i)) + [WriteAt(dir, 0)]
  }

  predicate IsReadOf(dir: string, n: nat, k: Key) { exists i :: 0 <= i < n && k == FsKey(ReadAt(dir, i)) }

  lemma ReadsDiffer(dir: string, i: nat, j: nat)
    requires FsKey(ReadAt(dir, i)) == FsKey(ReadAt(dir, j))
    ensures i == j
  {
    assert FileIn(dir, i)[|dir|..] == T.Dec(i) && FileIn(dir, j)[|dir|..] == T.Dec(j);
    T.ValueOfDec(i);
    T.ValueOfDec(j);
  }

  function ReadKeys(dir: string, n: nat): (ks: set<Key>)
    ensures |ks| == n
    ensures forall k :: k in ks <==> IsReadOf(dir, n, k)
  {
    if n == 0 then {}
    else
      var k := FsKey(ReadAt(dir, n - 1));
      assert forall l :: IsReadOf(dir, n, l) <==> IsReadOf(dir, n - 1, l) || l == k;
      assert !IsReadOf(dir, n - 1, k) by {
        if i :| 0 <= i < n - 1 && k == FsKey(ReadAt(dir, i)) { ReadsDiffer(dir, i, n - 1); }
      }
      ReadKeys(dir, n - 1) + {k}
  }

  function WriteKey(dir: string): Key { FsKey(WriteAt(dir, 0)) }

  function WatchedKeys(dir: string, n: nat): set<Key> { ReadKeys(dir, n) + {WriteKey(dir)} }

  lemma WatchedKeysRecorded(rules: seq<Rule>, dir: string, n: nat)
    requires Records(rules, EventKeys(WatchedEvents(dir, n), [], []))
    ensures Keys(rules) == WatchedKeys(dir, n)
  {
    hide FsKey, Keys, Records, ReadAt, WriteAt;
    var fs := WatchedEvents(dir, n);
    var keys := EventKeys(fs, [], []);
    RecordedKeys(rules, keys);
    forall k | k in keys ensures k in WatchedKeys(dir, n) {
      var i :| 0 <= i < |keys| && keys[i] == k;
      assert i < n ==> keys[i] == FsKey(ReadAt(dir, i));
    }
    forall k | k in WatchedKeys(dir, n) ensures k in keys {
      if IsReadOf(dir, n, k) {
        var i :| 0 <= i < n && k == FsKey(ReadAt(dir, i));
        assert keys[i] == k;
      } else {
        assert keys[n] == WriteKey(dir);
      }
    }
  }

  function InDir(dir: string, a: Action): Group { Group(SubjectOf("", 0, 0), a, Allow, dir) }

  lemma WatchedKeyFacts(dir: string, i: nat)
    requires Watchable(dir) && i <= U64_MAX
    ensures forall k :: k == FsKey(ReadAt(dir, i)) || k == FsKey(WriteAt(dir, i)) ==>
              CanonKey(k) == k && GenKey(k) == k && k.verdict == Allow && IsExact(k) && KeyForPath(k, Utf8(FileIn(dir, i)))
    ensures GroupOf(FsKey(ReadAt(dir, i))) == Some(InDir(dir, FileRead))
    ensures GroupOf(FsKey(WriteAt(dir, i))) == Some(InDir(dir, FileWrite))
  {
    hide Utf8, T.Dec, CanonicalPath, CanonicalPrefix, OutsideTrees, ParentDir, Genuine, CanonKey, GenKey;
    EventsAreGenuine(dir, i);
    RecordedIsFixed(ReadAt(dir, i));
    RecordedIsFixed(WriteAt(dir, i));
    DecIsAName(i);
    FileIsCanonical(dir, T.Dec(i));
  }

  /** What the proof needs to know of one entry. */
  predicate Plain(k: Key, dir: string, a: Action) {
    && CanonKey(k) == k && GenKey(k) == k && k.verdict == Allow && IsExact(k) && k.action == a
    && GroupOf(k) == Some(InDir(dir, a)) && HexToken(Leaf(k, dir))
  }

  lemma ReadIsPlain(dir: string, n: nat, k: Key)
    requires Watchable(dir) && n <= U64_MAX && IsReadOf(dir, n, k)
    ensures Plain(k, dir, FileRead)
  {
    hide Utf8, CanonKey, GenKey, GroupOf, Watchable, HexToken, T.Dec;
    var i :| 0 <= i < n && k == FsKey(ReadAt(dir, i));
    WatchedKeyFacts(dir, i);
    assert FileIn(dir, i)[|dir|..] == T.Dec(i);
    DecIsHex(i);
  }

  lemma WriteIsPlain(dir: string)
    requires Watchable(dir)
    ensures Plain(WriteKey(dir), dir, FileWrite) && KeyForPath(WriteKey(dir), Utf8(FileIn(dir, 0)))
  {
    hide Utf8, CanonKey, GenKey, GroupOf, Watchable, HexToken, T.Dec;
    WatchedKeyFacts(dir, 0);
    assert FileIn(dir, 0)[|dir|..] == T.Dec(0);
    DecIsHex(0);
  }

  lemma AllPlain(dir: string, n: nat)
    requires Watchable(dir) && n <= U64_MAX
    ensures forall k :: k in WatchedKeys(dir, n) ==>
              Plain(k, dir, FileRead) || (k == WriteKey(dir) && Plain(k, dir, FileWrite))
    ensures forall k :: k in ReadKeys(dir, n) ==> Plain(k, dir, FileRead)
  {
    hide Plain, Watchable, WriteKey, IsReadOf;
    forall k | k in ReadKeys(dir, n) ensures Plain(k, dir, FileRead) { ReadIsPlain(dir, n, k); }
    WriteIsPlain(dir);
  }

  lemma WatchedGroups(dir: string, n: nat)
    requires Watchable(dir) && n <= U64_MAX
    ensures Classed(WatchedKeys(dir, n)) == WatchedKeys(dir, n)
    ensures Siblings(WatchedKeys(dir, n), InDir(dir, FileRead)) == ReadKeys(dir, n)
    ensures Siblings(WatchedKeys(dir, n), InDir(dir, FileWrite)) == {WriteKey(dir)}
    ensures forall x :: x in Leaves(WatchedKeys(dir, n), InDir(dir, FileRead)) ==> HexToken(x)
  {
    hide Watchable, WriteKey, IsReadOf, CanonKey, GenKey, GroupOf, HexToken, Leaf, CanonKeys, GenKeys, IsExact, ReadKeys;
    AllPlain(dir, n);
    WriteIsPlain(dir);
    ImageFixed(WatchedKeys(dir, n));
  }

  lemma ReadsFire(cfg: PassConfig, dir: string, n: nat)
    requires Watchable(dir) && DirGeneralizable(cfg, dir) && 2 <= n <= U64_MAX && n >= cfg.minCluster
    ensures Fires(cfg, WatchedKeys(dir, n), InDir(dir, FileRead))
    ensures !Fires(cfg, WatchedKeys(dir, n), InDir(dir, FileWrite))
  {
    hide Utf8, GroupOf, Leaf, SharePrefix, ShareSuffix, HexToken, DirGeneralizable, Leaves, Siblings, ReadKeys, RelationTo,
      WatchedKeys, CanonKey, GenKey, OutsideTrees, CanonicalPrefix, WriteKey;
    WatchedGroups(dir, n);
    AllPlain(dir, n);
  }

  /** The reads join the prefix, the write keeps its exact rule. */
  lemma OnlyTheWriteStays(cfg: PassConfig, dir: string, n: nat)
    requires Watchable(dir) && DirGeneralizable(cfg, dir) && 2 <= n <= U64_MAX && n >= cfg.minCluster
    ensures forall k :: StaysExact(cfg, WatchedKeys(dir, n), k) <==> k == WriteKey(dir)
  {
    hide Watchable, DirGeneralizable, Fires, IsReadOf, CanonKey, GenKey, GroupOf, HexToken, Leaf, Subsumes, WriteKey,
      ReadKeys, Classed, IsExact;
    var ks := WatchedKeys(dir, n);
    WatchedGroups(dir, n);
    AllPlain(dir, n);
    WriteIsPlain(dir);
    ReadsFire(cfg, dir, n);
    forall b | b in Collapsed(cfg, ks) ensures !Subsumes(b, WriteKey(dir)) {
      CollapsedActions(cfg, dir, n, b);
      OtherActionsDoNotSubsume(b, WriteKey(dir));
    }
  }

  lemma CollapsedActions(cfg: PassConfig, dir: string, n: nat, b: Key)
    requires Watchable(dir) && DirGeneralizable(cfg, dir) && 2 <= n <= U64_MAX && n >= cfg.minCluster
    requires b in Collapsed(cfg, WatchedKeys(dir, n))
    ensures IsExact(b) || b.action == FileRead
  {
    hide Watchable, DirGeneralizable, Fires, IsReadOf, CanonKey, GenKey, GroupOf, HexToken, Leaf, WriteKey, ReadKeys,
      Classed, WatchedKeys, IsExact;
    WatchedGroups(dir, n);
    AllPlain(dir, n);
    ReadsFire(cfg, dir, n);
    var from := OriginOf(cfg, WatchedKeys(dir, n), b);
  }

  lemma OtherActionsDoNotSubsume(b: Key, k: Key)
    requires k.action == FileWrite && (IsExact(b) || b.action == FileRead)
    ensures !Subsumes(b, k)
  {
    hide RelationTo;
    if Subsumes(b, k) { SubsumesFacts(b, k); }
  }

  /** Whatever class the kernel finds, opening for reading is refused. */
  predicate NeverReadable(rules: seq<Rule>, path: seq<u8>) {
    forall c :: !FileAllowed(rules, path, c, READING)
  }

  /** If a watchable directory may collapse, genuine events exist that every run compiles into a list
      refusing a read among them: the reads of enough files become a prefix, and the one file also
      written keeps an exact rule for the write alone. */
  lemma ObservedReadRefused(cfg: PassConfig, dir: string, n: nat, rules: seq<Rule>, run: Run)
    requires Watchable(dir) && DirGeneralizable(cfg, dir) && 2 <= n <= U64_MAX && n >= cfg.minCluster
    requires Records(rules, EventKeys(WatchedEvents(dir, n), [], [])) && ValidRun(cfg, run) && run.input == rules
    ensures forall i :: 0 <= i <= n ==> Genuine(WatchedEvents(dir, n)[i])
    ensures NeverReadable(Link(run.output), Utf8(WatchedEvents(dir, n)[0].path))
  {
    hide Utf8, Watchable, DirGeneralizable, ValidRun, Records, EventKeys, Link, FileAllowed, Genuine, AllAllow, StaysExact,
      WriteKey, Keys, Executed, NamedByExec, KeyForPath, WatchedKeys, FsKey, ClassListed, T.Dec, PrefixFound;
    var fs := WatchedEvents(dir, n);
    forall i | 0 <= i <= n ensures Genuine(fs[i]) {
      EventsAreGenuine(dir, if i < n then i else 0);
    }
    var path := Utf8(FileIn(dir, 0));
    assert fs[0] == ReadAt(dir, 0) && fs[0].path == FileIn(dir, 0);
    EventsAllow(rules, fs, [], [], fs[0]);
    WatchedKeysRecorded(rules, dir, n);
    OnlyTheWriteStays(cfg, dir, n);
    WriteIsPlain(dir);
    OnlyEventsExecute(rules, fs, [], [], path);
    NothingExecuted(path);
    WriteIsNoRead(dir);
    forall c ensures !FileAllowed(Link(run.output), path, c, READING) {
      RunAllows(cfg, run, path, c, READING);
    }
  }

  lemma NothingExecuted(path: seq<u8>)
    ensures !Executed([], path)
  {
  }

  lemma WriteIsNoRead(dir: string)
    ensures WriteKey(dir).action == FileWrite
  {
  }

  // ---- when no directory collapses ----

  predicate AllGenuine(fs: seq<FsEvent>) { forall i :: 0 <= i < |fs| ==> Genuine(fs[i]) }

  ghost predicate SomeDirCollapses(cfg: PassConfig) { exists dir :: Watchable(dir) && DirGeneralizable(cfg, dir) }

  /** The directory of a recorded regular path is watchable, its length aside. */
  lemma ParentIsWatchable(path: string)
    requires IsAbsolute(path) && CanonicalPath(path) == path && OutsideTrees(path) && ParentDir(path).Some?
    requires |Utf8(ParentDir(path).value)| <= PREFIX_MAX_LEN
    ensures Watchable(ParentDir(path).value)
  {
    hide Utf8, CanonicalPath, CanonicalPrefix, ParentDir, OutsideTrees;
    CanonicalExactHasName(path);
    ParentDirSplits(path);
    ParentDirCanonical(path);
    var dir := ParentDir(path).value;
    assert dir[0] == path[0];
    assert dir + path[|dir|..] == path;
    OutsideStays(dir, path[|dir|..]);
  }

  lemma NoneCollapses(
      cfg: PassConfig, rules: seq<Rule>, fs: seq<FsEvent>, net: seq<NetEvent>, procs: seq<ProcessEvent>, k: Key)
    requires Records(rules, EventKeys(fs, net, procs)) && AllGenuine(fs) && !SomeDirCollapses(cfg)
    requires k in Classed(Keys(rules))
    ensures !Collapses(cfg, Classed(Keys(rules)), k)
  {
    hide Utf8, Records, EventKeys, Keys, Classed, Genuine, DirGeneralizable, CanonicalPath, ParentDir, OutsideTrees,
      ResolvedClass, LooksGenerated, Siblings, Leaves, RelationTo, Watchable;
    if Collapses(cfg, Classed(Keys(rules)), k) {
      var g := GroupOf(k).value;
      MemberFacts(k, g);
      ExactIsRegular(rules, fs, net, procs, k);
      RegularIsOutside(k.obj.file.pattern.path);
      ParentIsWatchable(k.obj.file.pattern.path);
    }
  }

  lemma PrefixOrigin(ks: set<Key>, k: Key) returns (o: Key)
    requires k in Classed(ks) && k.obj.File? && k.obj.file.pattern.Prefix?
    ensures o in ks && o.obj.File? && o.obj.file.pattern.Prefix?
  {
    hide CanonicalPrefix, CanonicalPath, TryClassify;
    var c :| c in CanonKeys(ks) && GenKey(c) == k;
    o :| o in ks && CanonKey(o) == c;
  }

  lemma NoPrefixRecorded(
      rules: seq<Rule>, fs: seq<FsEvent>, net: seq<NetEvent>, procs: seq<ProcessEvent>, k: Key)
    requires Records(rules, EventKeys(fs, net, procs)) && k in Classed(Keys(rules)) && k.obj.File?
    ensures !k.obj.file.pattern.Prefix?
  {
    hide Records, EventKeys, Keys, Classed, SubjectOf;
    if k.obj.file.pattern.Prefix? {
      var o := PrefixOrigin(Keys(rules), k);
      var i := FileKeysAreEvents(rules, fs, net, procs, o);
    }
  }

  /** Nothing joins, nothing is subsumed. */
  lemma NothingIsLost(cfg: PassConfig, rules: seq<Rule>, fs: seq<FsEvent>, net: seq<NetEvent>, procs: seq<ProcessEvent>, k: Key)
    requires Records(rules, EventKeys(fs, net, procs)) && AllGenuine(fs) && !SomeDirCollapses(cfg)
    requires k in Classed(Keys(rules))
    ensures StaysExact(cfg, Keys(rules), k) && k in Collapsed(cfg, Keys(rules))
  {
    hide Records, EventKeys, Keys, Classed, AllGenuine, SomeDirCollapses, Collapses, Subsumes;
    var ks := Keys(rules);
    forall l | l in Classed(ks) ensures !Collapses(cfg, Classed(ks), l) {
      NoneCollapses(cfg, rules, fs, net, procs, l);
    }
    forall b | b in Collapsed(cfg, ks) ensures !Subsumes(b, k) {
      assert b in Classed(ks);
      if Subsumes(b, k) {
        SubsumesFacts(b, k);
        NoPrefixRecorded(rules, fs, net, procs, b);
      }
    }
  }

  lemma ReadIsKept(
      cfg: PassConfig, rules: seq<Rule>, fs: seq<FsEvent>, net: seq<NetEvent>, procs: seq<ProcessEvent>, e: FsEvent)
    requires Records(rules, EventKeys(fs, net, procs)) && AllGenuine(fs) && !SomeDirCollapses(cfg)
    requires e in fs && !e.write
    ensures EveryRunAllows(cfg, rules, Utf8(e.path), e.class_, READING)
  {
    hide Utf8, Records, EventKeys, Keys, Classed, Collapsed, SomeDirCollapses, Subsumes, Collapses, ResolvedClass,
      EveryRunAllows, Prefixes, Missing, Executed, NamedByExec, CanonicalPath, AllAllow, Classifier.RootedInKernel,
      SomeReaches, SameCategory;
    var ks, path, k := Keys(rules), Utf8(e.path), FsKey(e);
    EventsAllow(rules, fs, net, procs, e);
    RecordedIsClassed(ks, e);
    NothingIsLost(cfg, rules, fs, net, procs, k);
    ObservedStaysAllowedExactlyWhen(cfg, rules, e);
    if e.class_ == Regular {
      assert StaysExact(cfg, ks, k) && KeyForPath(k, path) && k.action != FileWrite;
    } else {
      ClassedIsNotNamed(cfg, rules, fs, net, procs, path);
      assert ListsClass(k, e.class_) by { SameCategoryAsItself(e.class_); }
    }
  }

  lemma SameCategoryAsItself(c: PathPattern)
    ensures SameCategory(c, c)
  {
  }

  // ---- exactly which configurations keep all reads ----

  /** Whatever genuine events are compiled, every run allows every recorded read. */
  ghost predicate KeepsObservedReads(cfg: PassConfig) {
    forall rules: seq<Rule>, fs: seq<FsEvent>, net: seq<NetEvent>, procs: seq<ProcessEvent>, e: FsEvent ::
      Records(rules, EventKeys(fs, net, procs)) && AllGenuine(fs) && e in fs && !e.write ==>
        EveryRunAllows(cfg, rules, Utf8(e.path), e.class_, READING)
  }

  lemma SomeRecord(keys: seq<Key>) returns (rules: seq<Rule>)
    ensures Records(rules, keys)
  {
    rules := seq(|keys|, i requires 0 <= i < |keys| => RuleFor(NthId(i), keys[i], Fs, 1));
  }

  /** A configuration keeps every recorded read of every profile exactly when no watchable directory may
      collapse: none of at most 128 bytes outside the classed trees that is deep enough is left out of the
      sensitive roots. */
  lemma ReadsAreKeptExactlyWhen(cfg: PassConfig)
    ensures KeepsObservedReads(cfg) <==> !SomeDirCollapses(cfg)
  {
    hide Utf8, Records, EventKeys, AllGenuine, Watchable, DirGeneralizable, EveryRunAllows, Genuine;
    if SomeDirCollapses(cfg) {
      var dir :| Watchable(dir) && DirGeneralizable(cfg, dir);
      LosesARead(cfg, dir);
    } else {
      forall rules: seq<Rule>, fs: seq<FsEvent>, net: seq<NetEvent>, procs: seq<ProcessEvent>, e: FsEvent
        | Records(rules, EventKeys(fs, net, procs)) && AllGenuine(fs) && e in fs && !e.write
        ensures EveryRunAllows(cfg, rules, Utf8(e.path), e.class_, READING)
      {
        ReadIsKept(cfg, rules, fs, net, procs, e);
      }
    }
  }

  lemma LosesARead(cfg: PassConfig, dir: string)
    requires Watchable(dir) && DirGeneralizable(cfg, dir)
    ensures !KeepsObservedReads(cfg)
  {
    hide Utf8, Records, EventKeys, Watchable, DirGeneralizable, FileAllowed, Genuine, ValidRun, Link, AllAllow, FileIn;
    var n := Max(cfg.minCluster, 2);
    var fs := WatchedEvents(dir, n);
    var rules := SomeRecord(EventKeys(fs, [], []));
    EventsAllow(rules, fs, [], [], fs[0]);
    var run := SomeRun(cfg, rules);
    ObservedReadRefused(cfg, dir, n, rules, run);
    assert fs[0] in fs && !fs[0].write && AllGenuine(fs);
    assert !EveryRunAllows(cfg, rules, Utf8(fs[0].path), fs[0].class_, READING);
  }

  // ---- the built-in configuration ----

  const APP: string := "/srv/app/"

  /** A minimum depth of two, as by default, lets "/srv/app/" collapse. */
  lemma AppIsGeneralizable(cfg: PassConfig)
    requires cfg.minDepth <= 2 && APP !in cfg.sensitiveRoots
    ensures DirGeneralizable(cfg, APP)
  {
    hide Split;
    assert APP == "" + "/" + ("srv" + "/" + ("app" + "/" + ""));
    SplitAppend("", "srv" + "/" + ("app" + "/" + ""), '/');
    SplitAppend("srv", "app" + "/" + "", '/');
    SplitAppend("app", "", '/');
    SplitOne("", '/');
    SplitOne("srv", '/');
    SplitOne("app", '/');
    assert Split(APP, '/') == ["", "srv", "app", ""];
    assert ["", "srv", "app", ""][1..] == ["srv", "app", ""] && ["srv", "app", ""][1..] == ["app", ""];
    assert ["app", ""][1..] == [""] && [""][1..] == [];
    assert CountNonEmpty([]) == 0 && CountNonEmpty([""]) == 0 && CountNonEmpty(["app", ""]) == 1;
    assert CountNonEmpty(["srv", "app", ""]) == 2;
  }

  lemma AppIsWatchable()
    ensures Watchable(APP)
  {
    hide Utf8, CanonicalPrefix, Components, Render, Split;
    AsciiText(APP);
    var out := ["srv", "app"];
    assert out[1..] == ["app"] && Join(["app"], '/') == "app" && Join(out, '/') == "srv" + ['/'] + "app";
    assert Render(true, out) + "/" == APP by { RenderTwo("srv", "app"); }
    RenderedDirCanonical(true, out);
    assert APP[1] == 's' && APP[2] == 'r' && TREES[1][2] == 'y';
  }

  lemma RenderTwo(a: string, b: string)
    ensures Render(true, [a, b]) == "/" + a + "/" + b
  {
    assert [a, b][1..] == [b] && Join([b], '/') == b;
  }

  const DEFAULT_CONFIG: PassConfig := PassConfig(4, 2, 3,
    ["/", "/etc/", "/root/", "/boot/", "/proc/", "/sys/", "/dev/", "/usr/", "/bin/", "/sbin/", "/lib/", "/lib64/"])

  /** Out of the box, compiling what was observed can refuse part of it. */
  lemma DefaultLosesReads()
    ensures !KeepsObservedReads(DEFAULT_CONFIG)
  {
    hide KeepsObservedReads, Watchable, DirGeneralizable;
    AppIsNotSensitive();
    AppIsGeneralizable(DEFAULT_CONFIG);
    AppIsWatchable();
    ReadsAreKeptExactlyWhen(DEFAULT_CONFIG);
  }

  lemma AppIsNotSensitive()
    ensures APP !in DEFAULT_CONFIG.sensitiveRoots
  {
    assert forall r :: r in DEFAULT_CONFIG.sensitiveRoots ==> |r| <= 7;
  }

  // ---- the built-in configuration ----

  /** No slash but at the ends. */
  predicate Shallow(dir: string) { forall i :: 0 < i < |dir| - 1 ==> dir[i] != '/' }

  lemma SomeRootsShallow()
    ensures Shallow("/") && Shallow("/etc/") && Shallow("/root/") && Shallow("/boot/") && Shallow("/proc/") && Shallow("/sys/")
  {
  }

  lemma OtherRootsShallow()
    ensures Shallow("/dev/") && Shallow("/usr/") && Shallow("/bin/") && Shallow("/sbin/") && Shallow("/lib/") && Shallow("/lib64/")
  {
  }

  lemma ListedAreShallow(dir: string)
    requires dir in DEFAULT_CONFIG.sensitiveRoots
    ensures Shallow(dir)
  {
    hide Shallow;
    SomeRootsShallow();
    OtherRootsShallow();
  }

  lemma DeepIsUnlisted(dirs: seq<string>)
    requires CollapseGuards.Names(dirs) && |dirs| >= 2
    ensures "/" + Join(dirs, '/') + "/" !in DEFAULT_CONFIG.sensitiveRoots
  {
    hide Join;
    var rest, dir := Join(dirs[1..], '/'), "/" + Join(dirs, '/') + "/";
    assert Join(dirs, '/') == dirs[0] + ['/'] + rest by { JoinSplits(dirs); }
    assert dir[1 + |dirs[0]|] == '/' && 0 < 1 + |dirs[0]| < |dir| - 1;
    assert !Shallow(dir);
    if dir in DEFAULT_CONFIG.sensitiveRoots { ListedAreShallow(dir); }
  }

  lemma JoinSplits(parts: seq<string>)
    requires |parts| >= 2
    ensures Join(parts, '/') == parts[0] + ['/'] + Join(parts[1..], '/')
  {
  }

  /** Out of the box an exact path in a directory "/a/b/" collapses exactly when it is not sensitive; it has
      at least three siblings; the directory has two names or more and fits 128 bytes; the siblings' names
      share three bytes at the start or the end, or are all hexadecimal with a decimal digit; and no entry of
      the same subject with another verdict could touch the directory. The built-in list of sensitive
      directories never decides: each of them is too shallow already. */
  lemma DefaultCollapsesExactlyWhen(ks: set<Key>, k: Key, dirs: seq<string>)
    requires CollapseGuards.Names(dirs) && dirs != []
    requires k in ks && k.obj.File? && k.obj.file.pattern.ExactPath?
    requires CollapseGuards.InDir(k.obj.file.pattern.path, "/" + Join(dirs, '/') + "/")
    ensures var dir := "/" + Join(dirs, '/') + "/";
      var siblings, names := CollapseGuards.SiblingsOf(ks, k, dir), CollapseGuards.NamesOf(ks, k, dir);
      Collapses(DEFAULT_CONFIG, ks, k) <==>
      && !k.obj.file.isSensitive && |siblings| >= 4 && |dirs| >= 2 && |Utf8(dir)| <= 128
      && (CollapseGuards.OneStart(names, 3) || CollapseGuards.OneEnd(names, 3)
          || forall x :: x in names ==> CollapseGuards.HexName(x))
      && forall l :: l in ks && l.subject == k.subject && l.verdict != k.verdict && l.obj.File? ==>
           !CollapseGuards.Touches(dir, l.obj.file.pattern)
  {
    hide Collapses, Utf8, Join, CollapseGuards.OneStart, CollapseGuards.OneEnd, CollapseGuards.HexName, CollapseGuards.Touches,
      CollapseGuards.SiblingsOf, CollapseGuards.InDir, CollapseGuards.Names;
    CollapseGuards.CollapsesExactlyWhen(DEFAULT_CONFIG, ks, k, dirs);
    if |dirs| >= 2 { DeepIsUnlisted(dirs); }
  }
}
