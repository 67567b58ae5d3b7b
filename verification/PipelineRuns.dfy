/** What holds of every run of the compiler, stated on rule lists. */
module PipelineRuns {
  import opened Strings
  import opened PathPatterns
  import opened Ir
  import opened PatternRelation
  import opened Canonical
  import opened Dedup
  import opened Generalize
  import opened PrefixGeneralize
  import opened RuleSets
  import opened Optimizer
  import opened FixedPoint
  import opened Pipeline
  import opened Linker

  /** The guard a caller can evaluate before running: no two verdicts meet on one signature once paths
      are canonical and classified. */
  predicate ClashFree(rules: seq<Rule>) { NoClash(GenKeys(CanonKeys(Keys(rules)))) }

  /** Order, duplicates and hash-map iteration never change what a clash-free input compiles to. */
  lemma RunsConverge(cfg: PassConfig, a: Run, b: Run)
    requires ValidRun(cfg, a) && ValidRun(cfg, b)
    requires Keys(a.input) == Keys(b.input) && ClashFree(a.input)
    ensures Keys(a.output) == Keys(b.output)
  {
    hide ValidRun, PipelineKeys, GenKeys, CanonKeys, Keys, NoClash;
    RunRefines(cfg, a);
    RunRefines(cfg, b);
    OutputIsAFunction(cfg, Keys(a.input), Keys(a.deduped), Keys(a.output));
    OutputIsAFunction(cfg, Keys(b.input), Keys(b.deduped), Keys(b.output));
  }

  /** Running the pipeline on a run's output changes nothing. */
  lemma RerunChangesNothing(cfg: PassConfig, first: Run, second: Run)
    requires ValidRun(cfg, first) && ValidRun(cfg, second) && second.input == first.output
    requires ClashFree(first.input) || !DirGeneralizable(cfg, PROC)
    ensures Keys(second.output) == Keys(first.output)
  {
    hide ValidRun, GenKeys, CanonKeys, Keys, NoClash, DirGeneralizable;
    RunRefines(cfg, first);
    RunRefines(cfg, second);
    PipelineIsFixed(cfg, Keys(first.input), Keys(first.deduped), Keys(first.output), Keys(second.deduped),
                    Keys(second.output));
  }

  /** A path some canonicalized input file rule matches is matched by an output rule of the same
      subject, action and verdict. */
  lemma RunCovers(m: Meaning, cfg: PassConfig, run: Run, scope: Key, path: string)
    requires ValidRun(cfg, run) && ClashFree(run.input) && Rooted(m) && Classifies(m)
    requires Grants(m, Keys(run.canonical), scope, path)
    ensures Grants(m, Keys(run.output), scope, path)
  {
    hide GenKeys, Keys, NoClash, Grants, IsDedup, IsPrefixGen, GenRules, Unsubsumed;
    RunRefines(cfg, run);
    CanonRefines(run.input);
    PipelineCovers(m, cfg, Keys(run.input), Keys(run.deduped), Keys(run.output), scope, path);
  }

  /** Every output file rule is a canonicalized input rule, or a class given to some exact input path
      of its scope, or a prefix over enough guarded siblings of its scope. */
  lemma RunWidensOnlyAsJustified(cfg: PassConfig, run: Run, k: Key)
    requires ValidRun(cfg, run) && k in Keys(run.output) && k.obj.File?
    ensures var canon := Keys(run.canonical);
      k in canon || WidenedByClass(canon, k) || WidenedByPrefix(cfg, canon, k)
  {
    hide Keys, IsDedup, IsPrefixGen, GenRules, Unsubsumed, WidenedByClass, WidenedByPrefix;
    RunRefines(cfg, run);
    CanonRefines(run.input);
    PipelineWidensOnlyAsJustified(cfg, Keys(run.input), Keys(run.deduped), Keys(run.output), k);
  }

  /** Conflict detection after a run is always empty: the last pass leaves one rule per signature, so
      the conflict report cannot show a verdict that deduplication dropped. */
  lemma RunReportsNoConflict(cfg: PassConfig, run: Run)
    requires ValidRun(cfg, run)
    ensures Conflicts(run.output, |run.output|) == []
  {
    hide Conflicts, IsPrefixGen, DedupMap;
    ConflictsComplete(run.output, |run.output|);
    assert forall i, j :: 0 <= i < j < |run.output| ==> run.output[i].Sig() != run.output[j].Sig();
  }

  // ---- ids ----

  lemma {:induction false} KeptIds(cfg: PassConfig, rules: seq<Rule>, n: nat)
    requires n <= |rules| && DistinctIds(rules)
    ensures DistinctIds(Kept(cfg, rules, n))
  {
    hide CollapsesOn;
    if n > 0 {
      KeptIds(cfg, rules, n - 1);
      KeptMembers(cfg, rules, n - 1);
      assert forall r :: r in Kept(cfg, rules, n - 1) ==> r.id != rules[n - 1].id;
    }
  }

  lemma SynthesizedId(rules: seq<Rule>, g: Group) returns (i: nat)
    requires Members(rules, |rules|, g) != []
    ensures i < |rules| && rules[i].id == Synthesized(rules, g).id && GroupOf(rules[i].ToKey()) == Some(g)
  {
    hide GroupOf, FoldedObs, FoldedFirst, FoldedLast;
    i := Members(rules, |rules|, g)[0];
  }

  lemma PrefixGenIds(cfg: PassConfig, rules: seq<Rule>, out: seq<Rule>)
    requires IsPrefixGen(cfg, rules, out) && DistinctIds(rules)
    ensures DistinctIds(out) && Ids(out) <= Ids(rules)
  {
    hide GroupOf, FiresOn, Synthesized, Kept, Members;
    var order :| Enumerates(cfg, rules, order) && out == Kept(cfg, rules, |rules|) + SynthesizedAll(rules, order);
    var kept, syn := Kept(cfg, rules, |rules|), SynthesizedAll(rules, order);
    KeptIds(cfg, rules, |rules|);
    KeptMembers(cfg, rules, |rules|);
    forall n | 0 <= n < |syn|
      ensures syn[n].id in Ids(rules)
      ensures forall a :: 0 <= a < |kept| ==> kept[a].id != syn[n].id
      ensures forall l :: 0 <= l < n ==> syn[l].id != syn[n].id
    {
      var i := SynthesizedId(rules, order[n]);
      assert rules[i] in rules && CollapsesOn(cfg, rules, i);
      forall a | 0 <= a < |kept| ensures kept[a].id != syn[n].id {
        assert kept[a] in kept;
      }
      forall l | 0 <= l < n ensures syn[l].id != syn[n].id {
        var j := SynthesizedId(rules, order[l]);
      }
    }
    forall r | r in out ensures r.id in Ids(rules) {
      if r in kept {
        var i :| 0 <= i < |rules| && rules[i] == r;
      }
    }
  }

  lemma {:induction false} UnsubsumedIds(rules: seq<Rule>, n: nat)
    requires n <= |rules| && DistinctIds(rules)
    ensures DistinctIds(Unsubsumed(rules, n))
  {
    hide IsSubsumed;
    if n > 0 {
      UnsubsumedIds(rules, n - 1);
      UnsubsumedKeys(rules, n - 1);
      assert forall r :: r in Unsubsumed(rules, n - 1) ==> r.id != rules[n - 1].id;
    }
  }

  lemma MapsKeepIds(rules: seq<Rule>)
    ensures DistinctIds(rules) ==> DistinctIds(CanonRules(rules)) && DistinctIds(GenRules(rules))
  {
    hide CanonObject, GenObject;
  }

  /** Distinct ids come out of the compiler distinct. */
  lemma CompileKeepsIdsDistinct(cfg: PassConfig, run: Run)
    requires ValidRun(cfg, run) && DistinctIds(run.input)
    requires MaxId(run.output) + 1 + 2 * |run.output| <= U64_MAX
    ensures DistinctIds(run.output) && DistinctIds(Link(run.output))
  {
    hide CanonRules, GenRules, IsPrefixGen, IsDedup, Unsubsumed, Link;
    MapsKeepIds(run.input);
    DedupIds(run.canonical, run.deduped);
    MapsKeepIds(run.deduped);
    PrefixGenIds(cfg, run.classified, run.collapsed);
    UnsubsumedIds(run.collapsed, |run.collapsed|);
    DedupIds(run.subsumed, run.output);
    LinkKeepsIdsDistinct(run.output);
  }

  // ---- fixed points in general, and the linker ----

  /** A clash-free set is a fixed point of the whole pipeline exactly when each pass leaves each of its
      entries alone: no pass ever undoes what another did. */
  lemma FixedSetsExactly(cfg: PassConfig, ks: set<Key>)
    requires NoClash(GenKeys(CanonKeys(ks)))
    ensures PipelineKeys(cfg, ks) == ks <==> Untouched(cfg, ks)
  {
    hide Untouched, CanonKeys, GenKeys, PrefixGenKeys, SubsumedIn;
    if Untouched(cfg, ks) {
      UntouchedIsFixed(cfg, ks);
    }
    if PipelineKeys(cfg, ks) == ks {
      var canon := CanonKeys(ks);
      CanonKeysCanonical(ks);
      NoClashBeforeClassify(canon);
      CollapseKeepsNoClash(cfg, GenKeys(canon));
      NoClashSubset(ks, PrefixGenKeys(cfg, GenKeys(canon)));
      assert Settled(cfg, canon, ks);
      SettledIsFixed(cfg, canon, ks);
    }
  }

  const SELF_EXE := "/proc/self/exe"

  lemma SelfExeIsClassified(k: Key)
    requires k.obj == ExactFile(SELF_EXE)
    ensures GenKey(k) != k
  {
    var remainder := SELF_EXE[6..];
    assert remainder == "self/exe";
    IndexOfUnique(remainder, '/', 4);
  }

  /** Linked rules are outside that promise: linking an exec of "/proc/self/exe" adds an exact rule
      that the next run would classify. */
  lemma LinkedOutputCanMove(cfg: PassConfig, exec: Rule)
    requires ExecPath(exec) == Some(SELF_EXE)
    ensures !Untouched(cfg, Keys(Link([exec])))
  {
    hide Collapses, SubsumedIn, CanonKey, GenKey, Link, ExecPath;
    LinkCloses([exec]);
    assert Link([exec])[0] == exec && Implied()[0] == FileOpen;
    assert exec in Link([exec]) && FileOpen in Implied();
    assert Provided(Link([exec]), exec.subject, ExactFile(SELF_EXE), FileOpen);
    var r :| r in Link([exec]) && Provides(r, exec.subject, ExactFile(SELF_EXE), FileOpen);
    SelfExeIsClassified(r.ToKey());
    assert r.ToKey() in Keys(Link([exec]));
  }

  // ---- when a linked output is a fixed point ----

  predicate IsPlainExact(k: Key) { k.obj.File? && k.obj.file.pattern.ExactPath? && !k.obj.file.isSensitive }

  /** A prefix of the entry's scope over its path. */
  predicate PrefixOver(b: Key, k: Key)
    requires IsPlainExact(k)
  {
    SameScope(b, k) && b.obj.file.pattern.Prefix? && b.obj.file.pattern.prefix <= k.obj.file.pattern.path
  }

  /** The passes leave an entry for a linked path alone: the path is canonical and unclassified, no prefix
      of its scope covers it, and its directory does not collapse. */
  predicate LinkedPathStays(cfg: PassConfig, own: set<Key>, linked: set<Key>, k: Key)
    requires IsPlainExact(k)
  {
    var path := k.obj.file.pattern.path;
    && CanonicalPath(path) == path
    && TryClassify(path).None?
    && (forall b :: b in own ==> !PrefixOver(b, k))
    && (ParentDir(path).Some? ==> !Fires(cfg, linked, Group(k.subject, k.action, k.verdict, ParentDir(path).value)))
  }

  lemma RelationsOfExact(a: FilePattern, b: FilePattern)
    ensures a.ExactPath? ==> RelationTo(a, b) != Superset
    ensures b.ExactPath? ==> (RelationTo(a, b) == Superset <==> a.Prefix? && a.prefix <= b.path)
  {
    hide GlobRoot, PathPattern.AsStr;
    if a.ExactPath? && b.Prefix? {
      assert RelationTo(a, b) == RelationTo(b, a).Swap();
    }
    if a.Classified? && b.ExactPath? {
      assert RelationTo(a, b) == RelationTo(b, a).Swap();
    }
  }

  lemma ExactCoversNothing(b: Key, k: Key)
    ensures Subsumes(b, k) ==> !IsPlainExact(b)
    ensures IsPlainExact(k) ==> (Subsumes(b, k) <==> PrefixOver(b, k))
  {
    hide RelationTo;
    if b.obj.File? && k.obj.File? {
      RelationsOfExact(b.obj.file.pattern, k.obj.file.pattern);
    }
  }

  lemma StaysAlone(cfg: PassConfig, own: set<Key>, linked: set<Key>, k: Key)
    requires IsPlainExact(k) && own <= linked && forall l :: l in linked - own ==> IsPlainExact(l)
    ensures LinkedPathStays(cfg, own, linked, k) <==>
            CanonKey(k) == k && GenKey(k) == k && !Collapses(cfg, linked, k) && !SubsumedIn(linked, k)
  {
    hide CanonicalPath, TryClassify, ParentDir, Fires, Subsumes, PrefixOver;
    forall b ensures (Subsumes(b, k) <==> PrefixOver(b, k)) && (Subsumes(b, k) ==> !IsPlainExact(b)) {
      ExactCoversNothing(b, k);
    }
  }

  /** A group that gains no sibling does not fire more easily. */
  lemma OldGroupFires(cfg: PassConfig, own: set<Key>, linked: set<Key>, g: Group)
    requires own <= linked && Fires(cfg, linked, g)
    requires forall l :: l in linked - own ==> GroupOf(l) != Some(g)
    ensures Fires(cfg, own, g)
  {
    hide GroupOf, Opposes, DirGeneralizable, LooksGenerated, Leaf;
    assert Siblings(linked, g) == Siblings(own, g);
    assert Leaves(linked, g) == Leaves(own, g);
  }

  lemma AddedStay(cfg: PassConfig, own: set<Key>, linked: set<Key>)
    requires Untouched(cfg, own) && own <= linked && forall l :: l in linked - own ==> IsPlainExact(l)
    ensures Untouched(cfg, linked) <==> forall k :: k in linked - own ==> LinkedPathStays(cfg, own, linked, k)
  {
    hide CanonKey, GenKey, Fires, GroupOf, Subsumes, LinkedPathStays;
    forall k | k in linked - own
      ensures LinkedPathStays(cfg, own, linked, k) <==>
              CanonKey(k) == k && GenKey(k) == k && !Collapses(cfg, linked, k) && !SubsumedIn(linked, k)
    {
      StaysAlone(cfg, own, linked, k);
    }
    if forall k :: k in linked - own ==> LinkedPathStays(cfg, own, linked, k) {
      forall k | k in own ensures !Collapses(cfg, linked, k) && !SubsumedIn(linked, k) {
        OwnStays(cfg, own, linked, k);
      }
    }
  }

  lemma OwnStays(cfg: PassConfig, own: set<Key>, linked: set<Key>, k: Key)
    requires k in own && own <= linked && forall l :: l in linked - own ==> IsPlainExact(l)
    requires !Collapses(cfg, own, k) && !SubsumedIn(own, k)
    requires forall l :: l in linked - own ==> !Collapses(cfg, linked, l)
    ensures !Collapses(cfg, linked, k) && !SubsumedIn(linked, k)
  {
    hide Fires, GroupOf, Subsumes, IsPlainExact;
    forall b | b in linked ensures !Subsumes(b, k) { ExactCoversNothing(b, k); }
    if GroupOf(k).Some? && Fires(cfg, linked, GroupOf(k).value) {
      OldGroupFires(cfg, own, linked, GroupOf(k).value);
    }
  }

  lemma LinkedAreExact(rules: seq<Rule>)
    ensures Keys(rules) <= Keys(Link(rules))
    ensures forall k :: k in Keys(Link(rules)) - Keys(rules) ==> IsPlainExact(k)
  {
    hide Link, ExecPath;
    LinkCloses(rules);
    forall k | k in Keys(rules) ensures k in Keys(Link(rules)) {
      var i := KeysHasIndex(rules, k);
      assert Link(rules)[i] == rules[i] && Link(rules)[i] in Link(rules);
    }
    forall k | k in Keys(Link(rules)) - Keys(rules) ensures IsPlainExact(k) {
      var i := KeysHasIndex(Link(rules), k);
      var r := Link(rules)[i];
      assert r in Link(rules);
      assert r in rules ==> r.ToKey() in Keys(rules);
      var e :| e in rules && ExecPath(e).Some? && r.obj == ExactFile(ExecPath(e).value);
    }
  }

  lemma OutputUntouched(cfg: PassConfig, input: set<Key>, chosen: set<Key>, output: set<Key>)
    requires PipelineStep(cfg, input, chosen, output) && NoClash(GenKeys(CanonKeys(input)))
    ensures Untouched(cfg, output)
  {
    hide CanonKey, GenKey, Untouched, SubsumedIn, Collapses;
    CanonKeysCanonical(input);
    NoClashSubset(GenKeys(chosen), GenKeys(CanonKeys(input)));
    SettledIsFixed(cfg, chosen, output);
  }
}
