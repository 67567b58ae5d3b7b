/** Which file accesses the hooks allow after compiling a profile, told from the rules it starts from. */
module CompiledAccess {
  import opened Strings
  import opened PathPatterns
  import opened Ir
  import opened Canonical
  import opened Dedup
  import opened Generalize
  import opened PrefixGeneralize
  import opened RuleSets
  import opened FixedPoint
  import opened Pipeline
  import opened Realization
  import opened Linker
  import opened EnforcementSpec
  import opened Enforcement
  import opened Refinement
  import opened Compile
  import L = Loader

  // ---- the rules after classification and collapse ----

  function Classed(ks: set<Key>): set<Key> { GenKeys(CanonKeys(ks)) }

  function Collapsed(cfg: PassConfig, ks: set<Key>): set<Key> { PrefixGenKeys(cfg, Classed(ks)) }

  predicate IsFileAction(a: Action) { a.FileOpen? || a.FileRead? || a.FileWrite? }

  predicate IsFileKey(k: Key) { k.obj.File? && IsFileAction(k.action) }

  /** An exact rule for the path. */
  predicate KeyForPath(k: Key, path: seq<u8>) {
    IsFileKey(k) && k.obj.file.pattern.ExactPath? && Utf8(k.obj.file.pattern.path) == path
  }

  /** It neither joins a directory prefix nor falls to one. */
  predicate StaysExact(cfg: PassConfig, ks: set<Key>, k: Key) {
    k in Classed(ks) && !Collapses(cfg, Classed(ks), k) && !SubsumedIn(Collapsed(cfg, ks), k)
  }

  /** A rule executing the path. */
  predicate KeyExecutes(k: Key, path: seq<u8>) {
    k.action == ProcExec && k.obj.Process? && k.obj.process.binary.BinaryPath? && Utf8(k.obj.process.binary.path) == path
  }

  ghost predicate NamedByFile(cfg: PassConfig, ks: set<Key>, path: seq<u8>) {
    exists k :: StaysExact(cfg, ks, k) && KeyForPath(k, path)
  }

  ghost predicate NamedByExec(ks: set<Key>, path: seq<u8>) { exists k :: k in ks && KeyExecutes(k, path) }

  ghost predicate NamedFor(cfg: PassConfig, ks: set<Key>, path: seq<u8>, writing: bool) {
    || (exists k :: StaysExact(cfg, ks, k) && KeyForPath(k, path) && (k.action == FileWrite <==> writing))
    || (!writing && NamedByExec(ks, path))
  }

  predicate SameCategory(c: PathPattern, d: PathPattern) {
    c == d || (CategoryOf(c).Some? && CategoryOf(c) == CategoryOf(d))
  }

  predicate ListsClass(k: Key, found: PathPattern) {
    IsFileKey(k) && k.obj.file.pattern.Classified? && SameCategory(found, k.obj.file.pattern.class_)
  }

  /** The class the kernel finds for the path, or another one of its category, is listed. */
  ghost predicate ClassListed(cfg: PassConfig, ks: set<Key>, found: PathPattern) {
    && found != Regular
    && exists k :: k in Collapsed(cfg, ks) && !SubsumedIn(Collapsed(cfg, ks), k) && ListsClass(k, found)
  }

  predicate IsPrefixKey(k: Key) { IsFileKey(k) && k.obj.file.pattern.Prefix? }

  function Prefixes(cfg: PassConfig, ks: set<Key>): set<Key> {
    set k | k in Collapsed(cfg, ks) && !SubsumedIn(Collapsed(cfg, ks), k) && IsPrefixKey(k)
  }

  /** The prefix, cut to 128 bytes, begins the path. */
  predicate PrefixReaches(k: Key, path: seq<u8>) {
    IsPrefixKey(k) && CutBegins(Utf8(k.obj.file.pattern.prefix), path)
  }

  predicate SomeReaches(prefixes: set<Key>, path: seq<u8>) { exists k :: k in prefixes && PrefixReaches(k, path) }

  function Missing(prefixes: set<Key>, path: seq<u8>): set<Key> { set k | k in prefixes && !PrefixReaches(k, path) }

  /** Some prefix reaches the path, and too few others exist to take all 64 slots before it. */
  predicate PrefixSure(prefixes: set<Key>, path: seq<u8>) {
    SomeReaches(prefixes, path) && |Missing(prefixes, path)| < 64
  }

  /** What remains allowed: of a path that is still named, the accesses it is named with; of any other,
      everything if its class is listed or a prefix surely reaches it, else nothing. */
  ghost predicate AccessKept(cfg: PassConfig, ks: set<Key>, path: seq<u8>, found: PathPattern, o: Opening) {
    if NamedByFile(cfg, ks, path) || NamedByExec(ks, path) then
      && (o.reading ==> NamedFor(cfg, ks, path, false))
      && (o.writing ==> NamedFor(cfg, ks, path, true))
    else ClassListed(cfg, ks, found) || PrefixSure(Prefixes(cfg, ks), path)
  }

  // ---- a list of allowing rules, read tier by tier ----

  ghost predicate PrefixFound(rules: seq<Rule>, path: seq<u8>) {
    exists i :: 0 <= i < |rules| && FirstPrefixAt(rules, path, i)
  }

  lemma AllowListMeans(rules: seq<Rule>, path: seq<u8>, c: PathPattern, o: Opening)
    requires AllAllow(rules)
    ensures FileAllowed(rules, path, c, o) <==>
            if ListedPath(rules, path) then
              && (o.reading ==> Profiled(rules, path, false))
              && (o.writing ==> Profiled(rules, path, true))
            else (c != Regular && ClassSettled(rules, c)) || PrefixFound(rules, path)
  {
    hide ListedPath, AllowsAccess, Profiled, ClassAllowed, ClassSettled, FirstPrefixAt;
    OnlyAllowsProfiled(rules, path, false);
    OnlyAllowsProfiled(rules, path, true);
    if ClassSettled(rules, c) {
      OnlyAllowsClass(rules, c);
    }
  }

  // ---- the exact tier of a linked list ----

  lemma ForPathIsKey(r: Rule, path: seq<u8>)
    ensures ForPath(r, path) <==> KeyForPath(r.ToKey(), path)
    ensures ExecPath(r).Some? && Utf8(ExecPath(r).value) == path <==> KeyExecutes(r.ToKey(), path)
  {
    hide Utf8;
  }

  ghost predicate FileNames(rules: seq<Rule>, path: seq<u8>, writing: bool) {
    exists k :: k in Keys(rules) && KeyForPath(k, path) && (k.action == FileWrite <==> writing)
  }

  lemma LinkedKeeps(rules: seq<Rule>, r: Rule)
    requires r in rules
    ensures r in Link(rules)
  {
    assert r in rules + LinkFirst(rules, |rules|).synthetic;
  }

  lemma LinkedExecReads(rules: seq<Rule>, path: seq<u8>)
    requires NamedByExec(Keys(rules), path)
    ensures Profiled(Link(rules), path, false)
  {
    hide Utf8, Link;
    var k :| k in Keys(rules) && KeyExecutes(k, path);
    var i := KeysHasIndex(rules, k);
    ForPathIsKey(rules[i], path);
    LinkCloses(rules);
    LinkedKeeps(rules, rules[i]);
    var p := ExecPath(rules[i]).value;
    assert Implied()[1] == FileRead && FileRead in Implied();
    assert Provided(Link(rules), rules[i].subject, ExactFile(p), FileRead);
    var r :| r in Link(rules) && Provides(r, rules[i].subject, ExactFile(p), FileRead);
    var j :| 0 <= j < |Link(rules)| && Link(rules)[j] == r;
    assert ForPath(Link(rules)[j], path);
  }

  /** Linking adds reads of executed paths and nothing else to the exact tier. */
  lemma LinkedNames(rules: seq<Rule>, path: seq<u8>, writing: bool)
    ensures Profiled(Link(rules), path, writing) <==>
            FileNames(rules, path, writing) || (!writing && NamedByExec(Keys(rules), path))
  {
    hide Utf8, Link, LinkFirst, KeyForPath, KeyExecutes, ForPath;
    LinkCloses(rules);
    var out := Link(rules);
    if FileNames(rules, path, writing) {
      var k :| k in Keys(rules) && KeyForPath(k, path) && (k.action == FileWrite <==> writing);
      var i := KeysHasIndex(rules, k);
      ForPathIsKey(rules[i], path);
      assert out[i] == rules[i];
    }
    if !writing && NamedByExec(Keys(rules), path) {
      LinkedExecReads(rules, path);
    }
    if Profiled(out, path, writing) {
      var i :| 0 <= i < |out| && ForPath(out[i], path) && (out[i].action == FileWrite <==> writing);
      ForPathIsKey(out[i], path);
      assert out[i] in out;
      if out[i] in rules {
        assert out[i].ToKey() in Keys(rules);
      } else {
        AddedReads(rules, out[i], path);
      }
    }
  }

  lemma AddedReads(rules: seq<Rule>, r: Rule, path: seq<u8>)
    requires Justified(rules, r) && ForPath(r, path)
    ensures r.action != FileWrite && NamedByExec(Keys(rules), path)
  {
    hide Utf8;
    var e :| e in rules && ExecPath(e).Some? && r.action in Implied() && r.obj == ExactFile(ExecPath(e).value);
    var p := ExecPath(e).value;
    assert r.obj == ExactFile(p);
    assert ExactFile(p) == File(FileObject(ExactPath(p), false));
    assert r.obj.file.pattern == ExactPath(p);
    ForPathIsKey(e, path);
    assert e.ToKey() in Keys(rules) && KeyExecutes(e.ToKey(), path);
  }

  lemma ListedIsProfiled(rules: seq<Rule>, path: seq<u8>)
    ensures ListedPath(rules, path) <==> Profiled(rules, path, false) || Profiled(rules, path, true)
  {
    hide ForPath;
    if ListedPath(rules, path) {
      var i :| 0 <= i < |rules| && ForPath(rules[i], path);
      assert (rules[i].action == FileWrite <==> true) || (rules[i].action == FileWrite <==> false);
    }
  }

  // ---- what the passes leave, entry by entry ----

  lemma ExactSurvives(cfg: PassConfig, ks: set<Key>, k: Key)
    requires k.obj.File? && k.obj.file.pattern.ExactPath?
    ensures k in PipelineKeys(cfg, ks) <==> StaysExact(cfg, ks, k)
  {
    hide Collapses, Subsumes, GenKeys, CanonKeys, GroupOf;
    forall o | o in Classed(ks) && Collapses(cfg, Classed(ks), o) ensures GroupOf(o).Some? && PrefixKey(GroupOf(o).value) != k {
      CollapsesHasGroup(cfg, Classed(ks), o);
    }
  }

  lemma ExecSurvives(cfg: PassConfig, ks: set<Key>, k: Key)
    requires !k.obj.File?
    ensures k in PipelineKeys(cfg, ks) <==> k in ks
  {
    hide CanonObject, GenObject, Collapses, SubsumedIn;
    if k in ks {
      OthersPassThrough(cfg, ks, k);
    }
    if k in PipelineKeys(cfg, ks) {
      OnlyFilesChange(cfg, ks, k);
    }
  }

  lemma OnlyFilesChange(cfg: PassConfig, ks: set<Key>, k: Key)
    requires !k.obj.File? && k in PrefixGenKeys(cfg, GenKeys(CanonKeys(ks)))
    ensures k in ks
  {
    hide Collapses;
    var gen := GenKeys(CanonKeys(ks));
    forall o | o in gen && Collapses(cfg, gen, o) ensures GroupOf(o).Some? && PrefixKey(GroupOf(o).value) != k {
      CollapsesHasGroup(cfg, gen, o);
    }
    assert k in gen;
    var c :| c in CanonKeys(ks) && GenKey(c) == k;
    var o :| o in ks && CanonKey(o) == c;
  }

  lemma NamesAreKept(cfg: PassConfig, ks: set<Key>, rules: seq<Rule>, path: seq<u8>, writing: bool)
    requires Keys(rules) == PipelineKeys(cfg, ks)
    ensures Profiled(Link(rules), path, writing) <==> NamedFor(cfg, ks, path, writing)
    ensures FileNames(rules, path, writing) <==>
            exists k :: StaysExact(cfg, ks, k) && KeyForPath(k, path) && (k.action == FileWrite <==> writing)
  {
    hide Utf8, Link, PipelineKeys, StaysExact, Profiled;
    LinkedNames(rules, path, writing);
    forall k | KeyForPath(k, path) ensures k in Keys(rules) <==> StaysExact(cfg, ks, k) { ExactSurvives(cfg, ks, k); }
    forall k | KeyExecutes(k, path) ensures k in Keys(rules) <==> k in ks { ExecSurvives(cfg, ks, k); }
  }

  lemma ListedIsNamed(cfg: PassConfig, ks: set<Key>, rules: seq<Rule>, path: seq<u8>)
    requires Keys(rules) == PipelineKeys(cfg, ks)
    ensures ListedPath(Link(rules), path) <==> NamedByFile(cfg, ks, path) || NamedByExec(ks, path)
  {
    hide Utf8, Link, PipelineKeys, StaysExact, Profiled, ListedPath, KeyForPath, FileNames;
    NamesAreKept(cfg, ks, rules, path, false);
    NamesAreKept(cfg, ks, rules, path, true);
    ListedIsProfiled(Link(rules), path);
    assert forall k :: StaysExact(cfg, ks, k) && KeyForPath(k, path) ==>
      (k.action == FileWrite <==> true) || (k.action == FileWrite <==> false);
  }

  // ---- the class tier ----

  lemma ClassRuleLists(r: Rule, c: PathPattern)
    ensures InCategory(r, c) || Hits(r, ClassTarget(c)) <==> ListsClass(r.ToKey(), c)
  {
    hide CategoryOf;
  }

  lemma SettledIsListed(rules: seq<Rule>, c: PathPattern)
    ensures ClassSettled(rules, c) <==> exists k :: k in Keys(rules) && ListsClass(k, c)
  {
    hide InCategory, Hits, ListsClass;
    if k :| k in Keys(rules) && ListsClass(k, c) {
      var i := KeysHasIndex(rules, k);
      ClassRuleLists(rules[i], c);
    }
    if ClassSettled(rules, c) {
      var i :| 0 <= i < |rules| && (InCategory(rules[i], c) || Hits(rules[i], ClassTarget(c)));
      ClassRuleLists(rules[i], c);
      assert rules[i] in rules && rules[i].ToKey() in Keys(rules);
    }
  }

  lemma LinkedClasses(rules: seq<Rule>, c: PathPattern)
    ensures ClassSettled(Link(rules), c) <==> exists k :: k in Keys(rules) && ListsClass(k, c)
  {
    hide Link, ClassSettled, SameCategory;
    LinkCloses(rules);
    SettledIsListed(Link(rules), c);
    if k :| k in Keys(Link(rules)) && ListsClass(k, c) {
      var i := KeysHasIndex(Link(rules), k);
      assert Link(rules)[i] in Link(rules);
      if Link(rules)[i] !in rules { AddedAreExact(rules, Link(rules)[i]); }
      assert k in Keys(rules);
    }
    if k :| k in Keys(rules) && ListsClass(k, c) {
      var i := KeysHasIndex(rules, k);
      LinkedKeeps(rules, rules[i]);
      assert k in Keys(Link(rules));
    }
  }

  lemma AddedAreExact(rules: seq<Rule>, r: Rule)
    requires Justified(rules, r)
    ensures r.obj.File? && r.obj.file.pattern.ExactPath?
  {
  }

  lemma ClassesAreKept(cfg: PassConfig, ks: set<Key>, rules: seq<Rule>, c: PathPattern)
    requires Keys(rules) == PipelineKeys(cfg, ks)
    ensures c != Regular && ClassSettled(Link(rules), c) <==> ClassListed(cfg, ks, c)
  {
    hide Link, ClassSettled, ListsClass, PrefixGenKeys, GenKeys, CanonKeys, SubsumedIn;
    LinkedClasses(rules, c);
  }

  // ---- the prefix tier ----

  function PrefixKeysOf(rules: seq<Rule>): set<Key> { set k | k in Keys(rules) && IsPrefixKey(k) }

  lemma PrefixRuleIsKey(r: Rule, path: seq<u8>)
    ensures L.IsPrefixRule(r) <==> IsPrefixKey(r.ToKey())
    ensures PrefixHits(r, path) <==> PrefixReaches(r.ToKey(), path)
  {
    hide CutBegins, Utf8;
  }

  /** With distinct signatures, prefix entries and prefix rules are equally many. */
  lemma {:induction false} PrefixCount(rules: seq<Rule>, n: nat)
    requires n <= |rules| && DistinctSigs(rules)
    ensures |PrefixEntries(rules[..n])| == |PrefixKeysOf(rules[..n])|
  {
    hide Keys, IsPrefixKey, L.EntryOf;
    NoKeys(rules);
    if n > 0 {
      PrefixCount(rules, n - 1);
      assert rules[..n][..n - 1] == rules[..n - 1];
      KeysOfPrefix(rules, n);
      var r := rules[n - 1];
      PrefixRuleIsKey(r, []);
      if IsPrefixKey(r.ToKey()) {
        NotAmongFirst(rules, n);
        assert PrefixKeysOf(rules[..n]) == PrefixKeysOf(rules[..n - 1]) + {r.ToKey()};
      } else {
        assert PrefixKeysOf(rules[..n]) == PrefixKeysOf(rules[..n - 1]);
      }
    }
  }

  lemma NotAmongFirst(rules: seq<Rule>, n: nat)
    requires 0 < n <= |rules| && DistinctSigs(rules)
    ensures rules[n - 1].ToKey() !in Keys(rules[..n - 1])
  {
    var front := rules[..n - 1];
    forall r | r in front ensures r.ToKey() != rules[n - 1].ToKey() {
      var i :| 0 <= i < |front| && front[i] == r;
      assert rules[i].Sig() != rules[n - 1].Sig();
    }
  }

  lemma SubsetSize(a: set<Key>, b: set<Key>)
    requires a <= b
    ensures |a| <= |b|
  {
    assert b == a + (b - a);
  }

  lemma FoundWhenSure(rules: seq<Rule>, path: seq<u8>)
    requires DistinctSigs(rules) && PrefixSure(PrefixKeysOf(rules), path)
    ensures PrefixFound(Link(rules), path)
  {
    hide Link, PrefixHits, PrefixReaches, PrefixEntries, DistinctSigs;
    var k :| k in PrefixKeysOf(rules) && PrefixReaches(k, path);
    var i := KeysHasIndex(rules, k);
    PrefixRuleIsKey(rules[i], path);
    var j := FirstHit(rules, path, i);
    LinkCloses(rules);
    var out := Link(rules);
    assert out[..j] == rules[..j] && forall l :: 0 <= l <= j ==> out[l] == rules[l];
    PrefixCount(rules, j);
    forall m | m in PrefixKeysOf(rules[..j]) ensures m in Missing(PrefixKeysOf(rules), path) {
      var l := KeysHasIndex(rules[..j], m);
      PrefixRuleIsKey(rules[l], path);
      assert rules[l] in rules;
    }
    SubsetSize(PrefixKeysOf(rules[..j]), Missing(PrefixKeysOf(rules), path));
    assert FirstPrefixAt(out, path, j);
  }

  lemma HitIsReached(rules: seq<Rule>, path: seq<u8>, i: nat)
    requires i < |Link(rules)| && PrefixHits(Link(rules)[i], path)
    ensures i < |rules| && Link(rules)[i] == rules[i]
    ensures rules[i].ToKey() in PrefixKeysOf(rules) && PrefixReaches(rules[i].ToKey(), path)
  {
    hide PrefixReaches;
    var out := Link(rules);
    PrefixRuleIsKey(out[i], path);
    LinkCloses(rules);
    LinkFirstJustified(rules, |rules|);
    if i >= |rules| {
      assert out[i] == LinkFirst(rules, |rules|).synthetic[i - |rules|];
      AddedAreExact(rules, out[i]);
    }
    assert rules[i] in rules;
  }

  lemma NotFoundWhenNone(rules: seq<Rule>, path: seq<u8>)
    requires !SomeReaches(PrefixKeysOf(rules), path)
    ensures !PrefixFound(Link(rules), path)
  {
    hide Link, PrefixHits, PrefixReaches, PrefixEntries;
    forall i | 0 <= i < |Link(rules)| ensures !FirstPrefixAt(Link(rules), path, i) {
      if PrefixHits(Link(rules)[i], path) {
        HitIsReached(rules, path, i);
      }
    }
  }

  // ---- an order in which the slots run out ----

  predicate Misses(r: Rule, path: seq<u8>) { IsPrefixKey(r.ToKey()) && !PrefixReaches(r.ToKey(), path) }

  /** The hash map may hand out the prefixes that miss the path first. */
  lemma MissesFirst(rules: seq<Rule>, path: seq<u8>, given: seq<Rule>) returns (out: seq<Rule>, n: nat)
    requires IsDedup(given, rules)
    ensures IsDedup(given, out) && Keys(out) == Keys(rules) && n <= |out|
    ensures forall i :: 0 <= i < |out| ==> (Misses(out[i], path) <==> i < n)
  {
    hide Misses, DedupMap;
    var first := Listing(set r | r in rules && Misses(r, path));
    var last := Listing(set r | r in rules && !Misses(r, path));
    n := |first|;
    out := first + last;
    assert forall i :: 0 <= i < n ==> out[i] in first;
    assert forall i :: n <= i < |out| ==> out[i] in last;
    assert forall r :: r in out <==> r in rules;
    assert forall i, j :: 0 <= i < j < |out| ==> out[i] != out[j];
    forall i, j | 0 <= i < j < |out| ensures out[i].Sig() != out[j].Sig() {
      var a :| 0 <= a < |rules| && rules[a] == out[i];
      var b :| 0 <= b < |rules| && rules[b] == out[j];
    }
    SameElements(out, rules);
  }

  lemma SameElements(a: seq<Rule>, b: seq<Rule>)
    requires forall r :: r in a <==> r in b
    ensures Keys(a) == Keys(b)
  {
  }

  lemma SlotsRunOut(rules: seq<Rule>, path: seq<u8>, n: nat)
    requires DistinctSigs(rules) && n <= |rules|
    requires forall i :: 0 <= i < |rules| ==> (Misses(rules[i], path) <==> i < n)
    requires |Missing(PrefixKeysOf(rules), path)| >= L.MAX_PREFIX_SLOTS
    ensures !PrefixFound(Link(rules), path)
  {
    hide Link, PrefixHits, PrefixReaches, PrefixEntries, DistinctSigs, IsPrefixKey;
    LinkCloses(rules);
    var out := Link(rules);
    forall k | k in Missing(PrefixKeysOf(rules), path) ensures k in PrefixKeysOf(rules[..n]) {
      var i := KeysHasIndex(rules, k);
      assert Misses(rules[i], path) && rules[..n][i] == rules[i];
      assert rules[..n][i] in rules[..n];
    }
    SubsetSize(Missing(PrefixKeysOf(rules), path), PrefixKeysOf(rules[..n]));
    PrefixCount(rules, n);
    forall i | 0 <= i < |out| ensures !FirstPrefixAt(out, path, i) {
      if PrefixHits(out[i], path) {
        HitIsReached(rules, path, i);
        assert n <= i;
        assert out[..i] == rules[..i];
        EntriesGrow(rules, n, i);
      }
    }
  }

  // ---- exactly what is allowed ----

  lemma RunOutput(cfg: PassConfig, run: Run)
    requires ValidRun(cfg, run) && AllAllow(run.input)
    ensures AllAllow(run.output) && AllAllow(Link(run.output)) && DistinctSigs(run.output)
    ensures Keys(run.output) == PipelineKeys(cfg, Keys(run.input))
    ensures PrefixKeysOf(run.output) == Prefixes(cfg, Keys(run.input))
  {
    hide AllAllow, PipelineKeys, Keys, CanonRules, GenRules, IsPrefixGen, Link, IsPrefixKey;
    RunKeepsAllow(cfg, run);
    LinkKeepsAllow(run.output);
    DistinctAfterDedup(run.subsumed, run.output);
    OutputPrefixes(cfg, Keys(run.input));
  }

  lemma OutputPrefixes(cfg: PassConfig, ks: set<Key>)
    ensures (set k | k in PipelineKeys(cfg, ks) && IsPrefixKey(k)) == Prefixes(cfg, ks)
  {
    hide PrefixGenKeys, GenKeys, CanonKeys, SubsumedIn, IsPrefixKey;
  }

  /** One run, tier by tier: only the prefix tier depends on more than the set of rules. */
  lemma RunAllows(cfg: PassConfig, run: Run, path: seq<u8>, found: PathPattern, o: Opening)
    requires ValidRun(cfg, run) && AllAllow(run.input)
    ensures var ks := Keys(run.input);
      FileAllowed(Link(run.output), path, found, o) <==>
      if NamedByFile(cfg, ks, path) || NamedByExec(ks, path) then
        && (o.reading ==> NamedFor(cfg, ks, path, false))
        && (o.writing ==> NamedFor(cfg, ks, path, true))
      else ClassListed(cfg, ks, found) || PrefixFound(Link(run.output), path)
  {
    hide ValidRun, AllAllow, PipelineKeys, Keys, Link, FileAllowed, ListedPath, Profiled, ClassSettled, PrefixFound,
      NamedByFile, NamedByExec, NamedFor, ClassListed, FileNames, StaysExact, KeyForPath, Prefixes, PrefixKeysOf;
    RunOutput(cfg, run);
    AllowListMeans(Link(run.output), path, found, o);
    ListedIsNamed(cfg, Keys(run.input), run.output, path);
    NamesAreKept(cfg, Keys(run.input), run.output, path, false);
    NamesAreKept(cfg, Keys(run.input), run.output, path, true);
    ClassesAreKept(cfg, Keys(run.input), run.output, found);
  }

  lemma FewMissing(prefixes: set<Key>, path: seq<u8>)
    requires SomeReaches(prefixes, path) && |prefixes| <= L.MAX_PREFIX_SLOTS
    ensures PrefixSure(prefixes, path)
  {
    hide PrefixReaches;
    var k :| k in prefixes && PrefixReaches(k, path);
    SubsetSize(Missing(prefixes, path), prefixes - {k});
  }

  /** While the prefixes fit the 64 slots, every run on given rules, in any order and with any
      duplicates, allows exactly the accesses kept. */
  lemma RunAllowsExactlyWhen(cfg: PassConfig, run: Run, path: seq<u8>, found: PathPattern, o: Opening)
    requires ValidRun(cfg, run) && AllAllow(run.input)
    requires |Prefixes(cfg, Keys(run.input))| <= 64
    ensures FileAllowed(Link(run.output), path, found, o) <==> AccessKept(cfg, Keys(run.input), path, found, o)
  {
    hide ValidRun, AllAllow, PipelineKeys, Keys, Link, FileAllowed, PrefixFound, NamedByFile, NamedByExec, NamedFor,
      ClassListed, Prefixes, PrefixKeysOf, PrefixSure, SomeReaches, DistinctSigs;
    RunOutput(cfg, run);
    RunAllows(cfg, run, path, found, o);
    var prefixes := Prefixes(cfg, Keys(run.input));
    if SomeReaches(prefixes, path) {
      FewMissing(prefixes, path);
      FoundWhenSure(run.output, path);
    } else {
      NotFoundWhenNone(run.output, path);
      assert !PrefixSure(prefixes, path) by { SureReaches(prefixes, path); }
    }
  }

  lemma SureReaches(prefixes: set<Key>, path: seq<u8>)
    ensures PrefixSure(prefixes, path) ==> SomeReaches(prefixes, path)
  {
  }

  /** The access is allowed whatever order the hash maps choose. */
  ghost predicate EveryRunAllows(cfg: PassConfig, rules: seq<Rule>, path: seq<u8>, found: PathPattern, o: Opening) {
    forall run: Run :: ValidRun(cfg, run) && run.input == rules ==> FileAllowed(Link(run.output), path, found, o)
  }

  /** Without any bound on the prefixes: the compiled policy is sure to allow an access exactly when the
      rules keep it. */
  lemma EveryRunAllowsExactlyWhen(cfg: PassConfig, rules: seq<Rule>, path: seq<u8>, found: PathPattern, o: Opening)
    requires AllAllow(rules)
    ensures EveryRunAllows(cfg, rules, path, found, o) <==> AccessKept(cfg, Keys(rules), path, found, o)
  {
    hide ValidRun, AllAllow, PipelineKeys, Keys, Link, FileAllowed, PrefixFound, NamedByFile, NamedByExec, NamedFor,
      ClassListed, Prefixes, PrefixKeysOf, PrefixSure, DistinctSigs;
    if AccessKept(cfg, Keys(rules), path, found, o) {
      forall run: Run | ValidRun(cfg, run) && run.input == rules ensures FileAllowed(Link(run.output), path, found, o) {
        RunOutput(cfg, run);
        RunAllows(cfg, run, path, found, o);
        if PrefixSure(Prefixes(cfg, Keys(rules)), path) { FoundWhenSure(run.output, path); }
      }
    } else {
      var run := ContraryRun(cfg, rules, path);
      RunAllows(cfg, run, path, found, o);
    }
  }

  /** If the prefix tier is not sure of the path, some run misses it. */
  lemma ContraryRun(cfg: PassConfig, rules: seq<Rule>, path: seq<u8>) returns (run: Run)
    requires AllAllow(rules)
    ensures ValidRun(cfg, run) && run.input == rules
    ensures PrefixFound(Link(run.output), path) ==> PrefixSure(Prefixes(cfg, Keys(rules)), path)
  {
    hide AllAllow, PipelineKeys, Keys, Link, PrefixFound, Prefixes, PrefixKeysOf, DistinctSigs, SomeReaches, CanonRules,
      GenRules, IsPrefixGen, IsDedup, Unsubsumed, Missing, Misses;
    run := SomeRun(cfg, rules);
    RunOutput(cfg, run);
    var prefixes := Prefixes(cfg, Keys(rules));
    if !SomeReaches(prefixes, path) {
      NotFoundWhenNone(run.output, path);
    } else if |Missing(prefixes, path)| >= L.MAX_PREFIX_SLOTS {
      var out, n := MissesFirst(run.output, path, run.subsumed);
      run := run.(output := out);
      RunOutput(cfg, run);
      SlotsRunOut(out, path, n);
    }
  }
}
