/** Where re-running the pipeline does change its output: a configuration that lets "/proc/" itself
    be collapsed. There the last deduplication can drop the very entry whose verdict was blocking. */
module FixedPointLimit {
  import opened Strings
  import opened PathPatterns
  import opened Ir
  import opened PatternRelation
  import opened Canonical
  import opened Generalize
  import opened PrefixGeneralize
  import opened RuleSets
  import opened Optimizer
  import opened FixedPoint

  function Repeat(n: nat): (s: string)
    ensures |s| == n && forall i :: 0 <= i < n ==> s[i] == 'a'
  {
    if n == 0 then "" else "a" + Repeat(n - 1)
  }

  const NOBODY := Subject(None, None, None)

  function Entry(pattern: FilePattern, verdict: Verdict): Key {
    Key(NOBODY, File(FileObject(pattern, false)), FileRead, verdict)
  }

  /** "/proc/aaa...a" */
  function Plain(n: nat): string { PROC + Repeat(n) }

  /** `n` sibling entries directly under "/proc/", all names at least `base` + 1 long. */
  function Cluster(base: nat, n: nat): (ks: set<Key>)
    ensures |ks| == n
    ensures forall k :: k in ks <==> IsSibling(base, n, k)
  {
    if n == 0 then {}
    else
      var k := Sibling(base + n);
      assert forall l :: IsSibling(base, n, l) <==> IsSibling(base, n - 1, l) || l == k;
      assert !IsSibling(base, n - 1, k) by { assert forall i: nat :: i < base + n ==> |Plain(i)| != |Plain(base + n)|; }
      Cluster(base, n - 1) + {k}
  }

  function Sibling(i: nat): Key { Entry(ExactPath(Plain(i)), Allow) }

  predicate IsSibling(base: nat, n: nat, k: Key) { exists i :: base < i <= base + n && k == Sibling(i) }

  /** "/proc/<c>/stat" */
  function StatOf(c: char): string { PROC + [c] + "/stat" }

  predicate OrdinaryName(s: string) { s != "" && s != "." && s != ".." && '/' !in s }

  lemma CanonicalTwo(a: string, b: string)
    requires OrdinaryName(a) && OrdinaryName(b)
    ensures CanonicalPath("/" + a + "/" + b) == "/" + a + "/" + b
  {
    hide CanonicalPath;
    var out := [a, b];
    assert out[1..] == [b] && Join([b], '/') == b;
    assert Join(out, '/') == a + ['/'] + b;
    assert "/" + a + "/" + b == "/" + Join(out, '/');
    CanonicalAbsolute(out);
  }

  lemma CanonicalThree(a: string, b: string, c: string)
    requires OrdinaryName(a) && OrdinaryName(b) && OrdinaryName(c)
    ensures CanonicalPath("/" + a + "/" + b + "/" + c) == "/" + a + "/" + b + "/" + c
  {
    hide CanonicalPath;
    var out := [a, b, c];
    assert out[1..] == [b, c] && [b, c][1..] == [c] && Join([c], '/') == c;
    assert Join([b, c], '/') == b + ['/'] + c;
    assert Join(out, '/') == a + ['/'] + (b + ['/'] + c);
    assert "/" + a + "/" + b + "/" + c == "/" + Join(out, '/');
    CanonicalAbsolute(out);
  }

  lemma CanonicalAbsolute(out: seq<string>)
    requires Normal(true, out)
    ensures CanonicalPath("/" + Join(out, '/')) == "/" + Join(out, '/')
  {
    ComponentsOfRender(true, out);
  }

  lemma PlainFacts(n: nat)
    requires n > 0
    ensures CanonicalPath(Plain(n)) == Plain(n) && TryClassify(Plain(n)) == None
    ensures ParentDir(Plain(n)) == Some(PROC)
  {
    hide CanonicalPath, ParentDir;
    var name := Repeat(n);
    assert name[0] == 'a';
    assert Plain(n) == "/" + "proc" + "/" + name;
    CanonicalTwo("proc", name);
    assert Plain(n)[6..] == name;
    IndexOfUnique(name, '/', n);
    ParentOfChild("/proc", name);
    assert Plain(n) == "/proc" + "/" + name;
  }

  lemma StatClass(c: char)
    requires c != '/'
    ensures TryClassify(StatOf(c)) == Some(ProcPidStat)
  {
    var remainder := StatOf(c)[6..];
    assert remainder == [c] + "/stat";
    IndexOfUnique(remainder, '/', 1);
    assert remainder[2..] == "stat";
  }

  lemma StatFacts(c: char)
    requires c == '1' || c == '2'
    ensures CanonicalPath(StatOf(c)) == StatOf(c) && TryClassify(StatOf(c)) == Some(ProcPidStat)
  {
    hide CanonicalPath, TryClassify;
    CanonicalThree("proc", [c], "stat");
    assert StatOf(c) == "/" + "proc" + "/" + [c] + "/" + "stat";
    StatClass(c);
  }

  lemma Utf8OfRepeat(n: nat)
    ensures var b := Utf8(Repeat(n)); |b| == n && forall i :: 0 <= i < n ==> b[i] == 0x61
  {
    if n > 0 {
      Utf8OfRepeat(n - 1);
      assert Repeat(n)[1..] == Repeat(n - 1);
    }
  }

  // ---- the two runs ----

  function Stat(): Key { Entry(Classified(ProcPidStat), Allow) }

  function StatDenied(): Key { Entry(Classified(ProcPidStat), Deny) }

  function Read1(): Key { Entry(ExactPath(StatOf('1')), Allow) }

  function Read2(): Key { Entry(ExactPath(StatOf('2')), Deny) }

  function InProc(): Group { Group(NOBODY, FileRead, Allow, PROC) }

  function Input(base: nat, n: nat): set<Key> { Cluster(base, n) + {Read1(), Read2()} }

  function FirstOutput(base: nat, n: nat): set<Key> { Cluster(base, n) + {Stat()} }

  function AfterClassify(base: nat, n: nat): set<Key> { FirstOutput(base, n) + {StatDenied()} }

  /** What the proof needs to know of one sibling. */
  predicate SiblingFacts(k: Key) {
    && CanonKey(k) == k && GenKey(k) == k && GroupOf(k) == Some(InProc()) && IsExact(k)
    && k.verdict == Allow && |k.obj.file.pattern.path| > 6 && k.obj.file.pattern.path[6] == 'a'
  }

  lemma MemberFactsOf(base: nat, n: nat, k: Key)
    requires k in Cluster(base, n)
    ensures SiblingFacts(k)
  {
    hide CanonicalPath, TryClassify, ParentDir;
    var i :| base < i <= base + n && k == Sibling(i);
    PlainFacts(i);
    assert Plain(i)[6] == Repeat(i)[0];
  }

  lemma ClusterFacts(base: nat, n: nat)
    ensures forall k :: k in Cluster(base, n) ==> SiblingFacts(k)
  {
    hide SiblingFacts;
    forall k | k in Cluster(base, n) ensures SiblingFacts(k) { MemberFactsOf(base, n, k); }
  }

  lemma StatEntryFacts()
    ensures CanonKey(Read1()) == Read1() && CanonKey(Read2()) == Read2()
    ensures GenKey(Read1()) == Stat() && GenKey(Read2()) == StatDenied()
    ensures Read1().Sig() != Read2().Sig()
  {
    hide CanonicalPath, TryClassify;
    StatFacts('1');
    StatFacts('2');
    assert StatOf('1')[6] == '1' && StatOf('2')[6] == '2';
  }

  lemma GenUnion(a: set<Key>, b: set<Key>)
    ensures GenKeys(a + b) == GenKeys(a) + GenKeys(b)
  {
    hide GenKey;
  }

  lemma ImageFixed(ks: set<Key>)
    ensures (forall k :: k in ks ==> GenKey(k) == k) ==> GenKeys(ks) == ks
    ensures (forall k :: k in ks ==> CanonKey(k) == k) ==> CanonKeys(ks) == ks
  {
    hide GenKey, CanonKey;
  }

  lemma InputFacts(base: nat, n: nat)
    ensures CanonKeys(Input(base, n)) == Input(base, n)
    ensures GenKeys(Input(base, n)) == AfterClassify(base, n)
  {
    hide CanonKey, GenKey, GroupOf, Cluster, IsExact, GenKeys, CanonKeys, Read1, Read2, Stat, StatDenied, InProc;
    ClusterFacts(base, n);
    StatEntryFacts();
    assert CanonKeys(Input(base, n)) == Input(base, n) by { ImageFixed(Input(base, n)); }
    assert GenKeys(Input(base, n)) == AfterClassify(base, n) by {
      ImageFixed(Cluster(base, n));
      GenUnion(Cluster(base, n), {Read1(), Read2()});
      GenPair(Read1(), Read2());
      PairIsTwo(Cluster(base, n), Stat(), StatDenied());
    }
  }

  lemma PairIsTwo(ks: set<Key>, a: Key, b: Key)
    ensures ks + {a, b} == ks + {a} + {b}
  {
  }

  lemma GenPair(a: Key, b: Key)
    ensures GenKeys({a, b}) == {GenKey(a), GenKey(b)}
  {
    hide GenKey;
    assert a in {a, b} && b in {a, b};
  }

  predicate Telling(k: Key, c: char) {
    IsExact(k) && |k.obj.file.pattern.path| > 6 && k.obj.file.pattern.path[6] == c
  }

  lemma InputNoClash(base: nat, n: nat)
    ensures NoClash(Input(base, n))
  {
    hide CanonKey, GenKey, GroupOf, Cluster, InProc, Read1, Read2, Telling, Key.Sig, IsExact;
    ClusterFacts(base, n);
    StatsAreTelling();
    forall k, l | k in Input(base, n) && l in Input(base, n) && k.Sig() == l.Sig() ensures k == l {
      SiblingIsTelling(k);
      SiblingIsTelling(l);
      SignatureTells(k, l);
    }
  }

  lemma SiblingIsTelling(k: Key)
    ensures SiblingFacts(k) ==> Telling(k, 'a') && k.verdict == Allow
  {
    hide CanonKey, GenKey, GroupOf;
  }

  /** The signature fixes the telling character, and with the verdict the entry. */
  lemma SignatureTells(k: Key, l: Key)
    requires k.Sig() == l.Sig()
    ensures k.verdict == l.verdict ==> k == l
    ensures forall c, d :: Telling(k, c) && Telling(l, d) ==> c == d
  {
  }

  lemma StatsAreTelling()
    ensures Telling(Read1(), '1') && Telling(Read2(), '2')
  {
  }

  lemma OutputFacts(base: nat, n: nat)
    ensures NoClash(FirstOutput(base, n))
    ensures CanonKeys(FirstOutput(base, n)) == FirstOutput(base, n)
    ensures GenKeys(FirstOutput(base, n)) == FirstOutput(base, n)
  {
    hide CanonKey, GenKey, GroupOf, Cluster, GenKeys, CanonKeys, Stat, InProc;
    ClusterFacts(base, n);
    StatFactsOnly();
    ImageFixed(FirstOutput(base, n));
  }

  /** The classified entries: stable, groupless, and telling the siblings apart by shape alone. */
  lemma StatFactsOnly()
    ensures CanonKey(Stat()) == Stat() && GenKey(Stat()) == Stat()
    ensures GroupOf(Stat()) == None && GroupOf(StatDenied()) == None
    ensures !IsExact(Stat()) && !IsExact(StatDenied())
    ensures !HasPrefix(Stat()) && !HasPrefix(StatDenied())
    ensures StatDenied().Sig() == Stat().Sig() && Stat().verdict == Allow && StatDenied().verdict == Deny
  {
  }

  lemma StatDeniedBlocks(cfg: PassConfig, ks: set<Key>)
    requires StatDenied() in ks
    ensures !Fires(cfg, ks, InProc())
  {
    hide PathPattern.AsStr, GlobRoot;
    hide RelationTo, DirGeneralizable, LooksGenerated, Siblings, Leaves;
    RootUnderProc(ProcPidStat);
    SupersetIsPrefix(Prefix(PROC), Classified(ProcPidStat));
    assert Opposes(StatDenied(), NOBODY, Allow, PROC);
  }

  predicate HasPrefix(k: Key) { k.obj.File? && k.obj.file.pattern.Prefix? }

  /** Without prefixes nothing is subsumed; without firing groups nothing collapses. */
  lemma NothingHappens(cfg: PassConfig, ks: set<Key>)
    requires forall k :: k in ks ==> !HasPrefix(k) && !Collapses(cfg, ks, k)
    ensures PrefixGenKeys(cfg, ks) == ks && SubsumeKeys(ks) == ks
  {
    hide Collapses, Subsumes;
    forall k | k in ks ensures !SubsumedIn(ks, k) {
      forall b | b in ks ensures !Subsumes(b, k) {
        if Subsumes(b, k) { SubsumesFacts(b, k); }
      }
    }
  }

  /** First run: the Deny classified entry blocks the cluster, then loses its signature to the Allow. */
  lemma FirstRun(cfg: PassConfig, base: nat, n: nat)
    ensures PipelineStep(cfg, Input(base, n), Input(base, n), FirstOutput(base, n))
  {
    hide CanonKey, GenKey, GroupOf, Input, AfterClassify, FirstOutput, Cluster, NoClash, PrefixGenKeys, SubsumeKeys;
    InputFacts(base, n);
    InputNoClash(base, n);
    SelectsItself(Input(base, n));
    NothingCollapsesFirst(cfg, base, n);
    NothingHappens(cfg, AfterClassify(base, n));
    FirstSelection(base, n);
  }

  lemma NothingCollapsesFirst(cfg: PassConfig, base: nat, n: nat)
    ensures forall k :: k in AfterClassify(base, n) ==> !HasPrefix(k) && !Collapses(cfg, AfterClassify(base, n), k)
  {
    hide CanonKey, GenKey, GroupOf, Cluster, Fires, Stat, StatDenied, InProc;
    ClusterFacts(base, n);
    StatFactsOnly();
    StatDeniedBlocks(cfg, AfterClassify(base, n));
  }

  lemma SelectionDrops(ks: set<Key>, out: set<Key>, dropped: Key, kept: Key)
    requires ks == out + {dropped} && NoClash(out) && kept in out && dropped.Sig() == kept.Sig()
    ensures Selection(ks, out)
  {
    hide NoClash;
  }

  lemma StatIsKept(base: nat, n: nat)
    ensures Stat() in FirstOutput(base, n)
    ensures AfterClassify(base, n) == FirstOutput(base, n) + {StatDenied()}
  {
  }

  lemma FirstSelection(base: nat, n: nat)
    ensures Selection(AfterClassify(base, n), FirstOutput(base, n))
  {
    hide *;
    OutputFacts(base, n);
    StatFactsOnly();
    StatIsKept(base, n);
    SelectionDrops(AfterClassify(base, n), FirstOutput(base, n), StatDenied(), Stat());
  }

  ghost predicate LongRepeat(base: nat, x: Bytes) { exists i: nat :: base < i && x == Utf8(Repeat(i)) }

  lemma ClusterLooksGenerated(base: nat, n: nat, leaves: set<Bytes>)
    requires forall x :: x in leaves ==> LongRepeat(base, x)
    ensures SharePrefix(leaves, base)
  {
    forall x | x in leaves ensures base <= |x| && x[..base] == seq(base, i => 0x61) {
      var i: nat :| base < i && x == Utf8(Repeat(i));
      Utf8OfRepeat(i);
    }
  }

  lemma LeafOfMember(base: nat, n: nat, k: Key)
    requires k in Cluster(base, n)
    ensures LongRepeat(base, Leaf(k, PROC))
  {
    hide Utf8;
    var i :| base < i <= base + n && k == Sibling(i);
    assert Plain(i)[6..] == Repeat(i);
  }

  lemma OutputSiblings(base: nat, n: nat)
    ensures Siblings(FirstOutput(base, n), InProc()) == Cluster(base, n)
    ensures forall k :: k in FirstOutput(base, n) ==> k.verdict == Allow
  {
    hide CanonKey, GenKey, GroupOf, Cluster, Stat, InProc;
    ClusterFacts(base, n);
    StatFactsOnly();
  }

  lemma OutputLeaves(base: nat, n: nat)
    ensures SharePrefix(Leaves(FirstOutput(base, n), InProc()), base)
  {
    hide GroupOf, IsSibling, Leaf, SharePrefix, Cluster, FirstOutput, LongRepeat;
    OutputSiblings(base, n);
    var leaves := Leaves(FirstOutput(base, n), InProc());
    forall x | x in leaves ensures LongRepeat(base, x) {
      var k :| k in FirstOutput(base, n) && GroupOf(k) == Some(InProc()) && Leaf(k, PROC) == x;
      assert k in Siblings(FirstOutput(base, n), InProc());
      LeafOfMember(base, n, k);
    }
    ClusterLooksGenerated(base, n, leaves);
  }

  /** Second run: nothing opposes any more, and the cluster collapses. */
  lemma SecondRunFires(cfg: PassConfig, n: nat)
    requires DirGeneralizable(cfg, PROC) && n >= 2 && n >= cfg.minCluster
    ensures Fires(cfg, FirstOutput(cfg.minAffix, n), InProc())
  {
    hide GroupOf, IsSibling, Leaf, RelationTo, SharePrefix, ShareSuffix, DirGeneralizable, FirstOutput, Leaves, Siblings;
    OutputSiblings(cfg.minAffix, n);
    OutputLeaves(cfg.minAffix, n);
    ProcBytes();
  }

  lemma ProcBytes()
    ensures |Utf8(PROC)| == 6
  {
    assert PROC == ['/', 'p', 'r', 'o', 'c', '/'];
    assert PROC[1..] == ['p', 'r', 'o', 'c', '/'];
    assert PROC[1..][1..] == ['r', 'o', 'c', '/'];
    assert PROC[1..][1..][1..] == ['o', 'c', '/'];
    assert PROC[1..][1..][1..][1..] == ['c', '/'];
    assert PROC[1..][1..][1..][1..][1..] == ['/'];
    assert PROC[1..][1..][1..][1..][1..][1..] == "";
  }

  /** A configuration that may collapse "/proc/" has an input whose output the pipeline changes again. */
  lemma UnstableInput(cfg: PassConfig)
    returns (input: set<Key>, chosen: set<Key>, output: set<Key>, output2: set<Key>)
    requires DirGeneralizable(cfg, PROC)
    ensures PipelineStep(cfg, input, chosen, output) && PipelineStep(cfg, output, output, output2)
    ensures NoClash(CanonKeys(input)) && chosen == CanonKeys(input) && NoClash(CanonKeys(output)) && output == CanonKeys(output)
    ensures output2 != output
  {
    hide Fires, CanonKeys, GenKeys, SubsumedIn, Input, FirstOutput, DirGeneralizable, Selection, PrefixGenKeys, NoClash;
    var base, n := cfg.minAffix, Max(cfg.minCluster, 2);
    input, chosen, output := Input(base, n), Input(base, n), FirstOutput(base, n);
    FirstRun(cfg, base, n);
    InputFacts(base, n);
    InputNoClash(base, n);
    OutputFacts(base, n);
    SecondRunFires(cfg, n);
    output2 := SubsumeKeys(PrefixGenKeys(cfg, output));
    CollapseKeepsNoClash(cfg, output);
    NoClashSubset(output2, PrefixGenKeys(cfg, output));
    FirstMember(cfg, n);
    SelectsItself(output);
    SelectsItself(output2);
  }

  lemma SelectsItself(ks: set<Key>)
    requires NoClash(ks)
    ensures Selection(ks, ks)
  {
  }

  lemma FirstMember(cfg: PassConfig, n: nat)
    requires n >= 1 && Fires(cfg, FirstOutput(cfg.minAffix, n), InProc())
    ensures var out := FirstOutput(cfg.minAffix, n); exists k :: k in out && k !in PrefixGenKeys(cfg, out)
  {
    hide Fires, GroupOf, CanonKey, GenKey;
    var k := Sibling(cfg.minAffix + 1);
    var out := FirstOutput(cfg.minAffix, n);
    assert IsSibling(cfg.minAffix, n, k);
    MemberFactsOf(cfg.minAffix, n, k);
    assert k in out && Collapses(cfg, out, k) && IsExact(k);
  }

  /** Both runs of the pipeline, as one statement about a configuration. */
  ghost predicate RerunIsNoOp(cfg: PassConfig) {
    forall input: set<Key>, chosen: set<Key>, output: set<Key>, chosen2: set<Key>, output2: set<Key> ::
      PipelineStep(cfg, input, chosen, output) && PipelineStep(cfg, output, chosen2, output2) ==> output2 == output
  }

  /** Re-running is a no-op on every input exactly for the configurations that keep "/proc/" uncollapsed. */
  lemma RerunIsNoOpExactlyWhen(cfg: PassConfig)
    ensures RerunIsNoOp(cfg) <==> !DirGeneralizable(cfg, PROC)
  {
    hide PipelineStep, DirGeneralizable;
    if DirGeneralizable(cfg, PROC) {
      var input, chosen, output, output2 := UnstableInput(cfg);
    } else {
      forall input: set<Key>, chosen: set<Key>, output: set<Key>, chosen2: set<Key>, output2: set<Key>
        | PipelineStep(cfg, input, chosen, output) && PipelineStep(cfg, output, chosen2, output2)
        ensures output2 == output
      {
        PipelineIsFixed(cfg, input, chosen, output, chosen2, output2);
      }
    }
  }

  lemma ProcDepth()
    ensures CountNonEmpty(Split(PROC, '/')) == 1
  {
    hide IndexOf, Split;
    assert Split("proc", '/') == ["proc"] && Split("", '/') == [""] by { SplitOne("proc", '/'); SplitOne("", '/'); }
    assert PROC == "" + ['/'] + "proc/" && "proc/" == "proc" + ['/'] + "";
    SplitAppend("", "proc/", '/');
    SplitAppend("proc", "", '/');
    var parts := [""] + (["proc"] + [""]);
    assert parts[1..][1..] == [""] && CountNonEmpty([""]) == 0;
  }

  /** The built-in configuration is one of them, twice over. */
  lemma DefaultConfigIsStable(cfg: PassConfig)
    requires PROC in cfg.sensitiveRoots || cfg.minDepth >= 2
    ensures RerunIsNoOp(cfg)
  {
    hide RerunIsNoOp;
    ProcDepth();
    RerunIsNoOpExactlyWhen(cfg);
  }
}
