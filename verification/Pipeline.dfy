/** Subsumption, conflict detection, and the six-pass pipeline on rule lists, with the proof that a
    run acts on rule sets exactly as `RuleSets.PipelineStep` says. */
module Pipeline {
  import opened Strings
  import opened Ir
  import opened PatternRelation
  import opened Canonical
  import opened Dedup
  import opened Generalize
  import opened PrefixGeneralize
  import opened RuleSets
  import opened Optimizer

  // ---- subsumption ----

  predicate ObjectSubsumed(narrow: Object, broad: Object) {
    narrow.File? && broad.File? && RelationTo(broad.file.pattern, narrow.file.pattern) == Superset
  }

  predicate SubsumedBy(rules: seq<Rule>, i: nat, j: nat)
    requires i < |rules| && j < |rules|
  {
    && i != j && rules[i].subject == rules[j].subject && rules[i].action == rules[j].action
    && rules[i].verdict == rules[j].verdict && ObjectSubsumed(rules[i].obj, rules[j].obj)
  }

  predicate IsSubsumed(rules: seq<Rule>, i: nat)
    requires i < |rules|
  {
    exists j :: 0 <= j < |rules| && SubsumedBy(rules, i, j)
  }

  /** The unsubsumed rules among the first `n`, in order. */
  function Unsubsumed(rules: seq<Rule>, n: nat): seq<Rule>
    requires n <= |rules|
  {
    if n == 0 then []
    else if IsSubsumed(rules, n - 1) then Unsubsumed(rules, n - 1)
    else Unsubsumed(rules, n - 1) + [rules[n - 1]]
  }

  method Subsume(rules: seq<Rule>) returns (result: seq<Rule>)
    ensures result == Unsubsumed(rules, |rules|)
  {
    result := [];
    var i := 0;
    while i < |rules|
      invariant 0 <= i <= |rules|
      invariant result == Unsubsumed(rules, i)
    {
      var isSubsumed := false;
      var j := 0;
      while j < |rules| && !isSubsumed
        invariant 0 <= j <= |rules|
        invariant isSubsumed ==> IsSubsumed(rules, i)
        invariant !isSubsumed ==> forall j' :: 0 <= j' < j ==> !SubsumedBy(rules, i, j')
      {
        isSubsumed := SubsumedBy(rules, i, j);
        j := j + 1;
      }
      if !isSubsumed {
        result := result + [rules[i]];
      }
      i := i + 1;
    }
  }

  lemma SubsumedOnSets(rules: seq<Rule>, i: nat)
    requires i < |rules|
    ensures IsSubsumed(rules, i) <==> SubsumedIn(Keys(rules), rules[i].ToKey())
  {
    hide RelationTo;
    if IsSubsumed(rules, i) {
      var j :| 0 <= j < |rules| && SubsumedBy(rules, i, j);
      assert rules[j].ToKey() in Keys(rules);
    }
    if SubsumedIn(Keys(rules), rules[i].ToKey()) {
      var b :| b in Keys(rules) && Subsumes(b, rules[i].ToKey());
      var j := KeysHasIndex(rules, b);
      assert i != j by { SubsumesIrreflexive(b); }
      assert SubsumedBy(rules, i, j);
    }
  }

  lemma SubsumesIrreflexive(k: Key)
    ensures !Subsumes(k, k)
  {
  }

  lemma {:induction false} UnsubsumedKeys(rules: seq<Rule>, n: nat)
    requires n <= |rules|
    ensures forall r :: r in Unsubsumed(rules, n) ==> exists i :: 0 <= i < n && rules[i] == r && !IsSubsumed(rules, i)
    ensures forall i :: 0 <= i < n && !IsSubsumed(rules, i) ==> rules[i] in Unsubsumed(rules, n)
  {
    hide IsSubsumed;
    if n > 0 {
      UnsubsumedKeys(rules, n - 1);
    }
  }

  lemma SubsumeRefines(rules: seq<Rule>)
    ensures Keys(Unsubsumed(rules, |rules|)) == SubsumeKeys(Keys(rules))
  {
    hide IsSubsumed, SubsumedIn, Unsubsumed;
    var out := Unsubsumed(rules, |rules|);
    UnsubsumedKeys(rules, |rules|);
    forall k | k in Keys(out) ensures k in SubsumeKeys(Keys(rules)) {
      var r :| r in out && r.ToKey() == k;
      var i :| 0 <= i < |rules| && rules[i] == r && !IsSubsumed(rules, i);
      SubsumedOnSets(rules, i);
    }
    forall k | k in SubsumeKeys(Keys(rules)) ensures k in Keys(out) {
      var i := KeysHasIndex(rules, k);
      SubsumedOnSets(rules, i);
    }
  }

  // ---- conflict detection ----

  datatype Conflict = Conflict(a: Rule, b: Rule)

  /** All conflicting pairs, in the order the two nested loops meet them. */
  function ConflictsWith(rules: seq<Rule>, i: nat, n: nat): seq<Conflict>
    requires i < |rules| && i < n <= |rules|
  {
    if n == i + 1 then []
    else if rules[i].ConflictsWith(rules[n - 1]) then
      ConflictsWith(rules, i, n - 1) + [Conflict(rules[i], rules[n - 1])]
    else ConflictsWith(rules, i, n - 1)
  }

  function Conflicts(rules: seq<Rule>, n: nat): seq<Conflict>
    requires n <= |rules|
  {
    if n == 0 then [] else Conflicts(rules, n - 1) + ConflictsWith(rules, n - 1, |rules|)
  }

  method Detect(rules: seq<Rule>) returns (conflicts: seq<Conflict>)
    ensures conflicts == Conflicts(rules, |rules|)
  {
    conflicts := [];
    for i := 0 to |rules|
      invariant conflicts == Conflicts(rules, i)
    {
      for j := i + 1 to |rules|
        invariant conflicts == Conflicts(rules, i) + ConflictsWith(rules, i, j)
      {
        if rules[i].ConflictsWith(rules[j]) {
          conflicts := conflicts + [Conflict(rules[i], rules[j])];
        }
      }
    }
  }

  lemma {:induction false} NoConflictsWith(rules: seq<Rule>, i: nat, n: nat)
    requires i < |rules| && i < n <= |rules|
    ensures ConflictsWith(rules, i, n) == [] <==> forall j :: i < j < n ==> !rules[i].ConflictsWith(rules[j])
  {
    if n > i + 1 { NoConflictsWith(rules, i, n - 1); }
  }

  /** Detection finds nothing exactly when no two rules conflict. */
  lemma {:induction false} ConflictsComplete(rules: seq<Rule>, n: nat)
    requires n <= |rules|
    ensures Conflicts(rules, n) == [] <==>
            forall i, j :: 0 <= i < n && i < j < |rules| ==> !rules[i].ConflictsWith(rules[j])
  {
    hide ConflictsWith, Rule.ConflictsWith;
    if n > 0 {
      ConflictsComplete(rules, n - 1);
      NoConflictsWith(rules, n - 1, |rules|);
    }
  }

  /** Positions of two rules. */
  datatype Pair = Pair(first: nat, second: nat) {
    predicate Before(p: Pair) { first < p.first || (first == p.first && second < p.second) }
  }

  predicate Increasing(pairs: seq<Pair>) { forall i, j :: 0 <= i < j < |pairs| ==> pairs[i].Before(pairs[j]) }

  /** Rules `p.first` < `p.second` share subject, object and action, and differ in verdict. */
  predicate Clash(rules: seq<Rule>, p: Pair) {
    && p.first < p.second < |rules|
    && rules[p.first].subject == rules[p.second].subject && rules[p.first].obj == rules[p.second].obj
    && rules[p.first].action == rules[p.second].action && rules[p.first].verdict != rules[p.second].verdict
  }

  /** `found` lists the rules at `pairs`. */
  predicate Lists(rules: seq<Rule>, found: seq<Conflict>, pairs: seq<Pair>) {
    && |found| == |pairs|
    && forall i :: 0 <= i < |pairs| ==>
         pairs[i].first < |rules| && pairs[i].second < |rules| &&
         found[i] == Conflict(rules[pairs[i].first], rules[pairs[i].second])
  }

  lemma ClashIs(rules: seq<Rule>, i: nat, j: nat)
    ensures Clash(rules, Pair(i, j)) <==> i < j < |rules| && rules[i].ConflictsWith(rules[j])
  {
  }

  lemma ListsAppend(rules: seq<Rule>, a: seq<Conflict>, p: seq<Pair>, b: seq<Conflict>, q: seq<Pair>)
    requires Lists(rules, a, p) && Lists(rules, b, q)
    ensures Lists(rules, a + b, p + q)
  {
    hide Rule.ConflictsWith;
  }

  lemma IncreasingAppend(p: seq<Pair>, q: seq<Pair>)
    requires Increasing(p) && Increasing(q) && forall a: Pair, b: Pair :: a in p && b in q ==> a.Before(b)
    ensures Increasing(p + q)
  {
    hide Pair.Before;
    forall i, j | 0 <= i < j < |p + q| ensures (p + q)[i].Before((p + q)[j]) {
      if i < |p| && |p| <= j {
        assert p[i] in p && q[j - |p|] in q;
      }
    }
  }

  lemma {:induction false} PairsWith(rules: seq<Rule>, i: nat, n: nat) returns (pairs: seq<Pair>)
    requires i < |rules| && i < n <= |rules|
    ensures Lists(rules, ConflictsWith(rules, i, n), pairs) && Increasing(pairs)
    ensures forall p :: p in pairs <==> p.first == i && p.second < n && Clash(rules, p)
  {
    hide Clash, Rule.ConflictsWith, Lists, Increasing;
    assert Lists(rules, [], []) && Increasing([]) by { NoPairs(rules); }
    if n == i + 1 {
      pairs := [];
      forall p: Pair | p.first == i && p.second < n ensures !Clash(rules, p) { ClashIs(rules, i, p.second); }
    } else {
      var before := PairsWith(rules, i, n - 1);
      var last := Pair(i, n - 1);
      ClashIs(rules, i, n - 1);
      if rules[i].ConflictsWith(rules[n - 1]) {
        OnePair(rules, last);
        ListsAppend(rules, ConflictsWith(rules, i, n - 1), before, [Conflict(rules[i], rules[n - 1])], [last]);
        IncreasingAppend(before, [last]);
        pairs := before + [last];
      } else {
        pairs := before;
      }
      assert forall p: Pair :: p.first == i && p.second < n && !(p.second < n - 1) ==> p == last;
    }
  }

  lemma NoPairs(rules: seq<Rule>)
    ensures Lists(rules, [], []) && Increasing([])
  {
  }

  lemma OnePair(rules: seq<Rule>, p: Pair)
    requires p.first < |rules| && p.second < |rules|
    ensures Lists(rules, [Conflict(rules[p.first], rules[p.second])], [p]) && Increasing([p])
  {
  }

  lemma {:induction false} PairsOf(rules: seq<Rule>, n: nat) returns (pairs: seq<Pair>)
    requires n <= |rules|
    ensures Lists(rules, Conflicts(rules, n), pairs) && Increasing(pairs)
    ensures forall p :: p in pairs <==> p.first < n && Clash(rules, p)
  {
    hide ConflictsWith, Clash, Lists, Increasing;
    if n == 0 {
      pairs := [];
      NoPairs(rules);
    } else {
      var before := PairsOf(rules, n - 1);
      var more := PairsWith(rules, n - 1, |rules|);
      ListsAppend(rules, Conflicts(rules, n - 1), before, ConflictsWith(rules, n - 1, |rules|), more);
      assert forall a: Pair, b: Pair :: a in before && b in more ==> a.first < b.first;
      IncreasingAppend(before, more);
      pairs := before + more;
      forall p: Pair | p.first == n - 1 && Clash(rules, p) ensures p in more { ClashInRange(rules, p); }
    }
  }

  /** The conflicts reported are exactly the pairs of rules that clash, each once, earlier rules first. */
  lemma ConflictsAreClashes(rules: seq<Rule>)
    ensures exists pairs :: Lists(rules, Conflicts(rules, |rules|), pairs) && Increasing(pairs)
                            && forall p :: p in pairs <==> Clash(rules, p)
  {
    hide Conflicts, Clash;
    var pairs := PairsOf(rules, |rules|);
    forall p ensures p in pairs <==> Clash(rules, p) {
      assert Clash(rules, p) ==> p.first < |rules| by { ClashInRange(rules, p); }
    }
  }

  lemma ClashInRange(rules: seq<Rule>, p: Pair)
    ensures Clash(rules, p) ==> p.first < |rules| && p.second < |rules|
  {
  }

  // ---- the pipeline ----

  /** Rule lists before and after each pass. */
  datatype Run = Run(
    input: seq<Rule>, canonical: seq<Rule>, deduped: seq<Rule>, classified: seq<Rule>,
    collapsed: seq<Rule>, subsumed: seq<Rule>, output: seq<Rule>)

  ghost predicate ValidRun(cfg: PassConfig, run: Run) {
    && run.canonical == CanonRules(run.input)
    && IsDedup(run.canonical, run.deduped)
    && run.classified == GenRules(run.deduped)
    && IsPrefixGen(cfg, run.classified, run.collapsed)
    && run.subsumed == Unsubsumed(run.collapsed, |run.collapsed|)
    && IsDedup(run.subsumed, run.output)
  }

  datatype PassStat = PassStat(name: string, before: nat, after: nat)

  function StatsOf(run: Run): seq<PassStat> {
    [PassStat("canonicalize", |run.input|, |run.canonical|),
     PassStat("dedup", |run.canonical|, |run.deduped|),
     PassStat("generalize", |run.deduped|, |run.classified|),
     PassStat("prefix-generalize", |run.classified|, |run.collapsed|),
     PassStat("subsumption", |run.collapsed|, |run.subsumed|),
     PassStat("dedup", |run.subsumed|, |run.output|)]
  }

  method RunPipelineReported(rules: seq<Rule>, cfg: PassConfig)
    returns (optimized: seq<Rule>, conflicts: seq<Conflict>, stats: seq<PassStat>)
    ensures exists run :: ValidRun(cfg, run) && run.input == rules && run.output == optimized && stats == StatsOf(run)
    ensures conflicts == Conflicts(optimized, |optimized|)
  {
    hide IsDedup, IsPrefixGen;
    var canonical := CanonRules(rules);
    var deduped := Deduplicate(canonical);
    var classified := GenRules(deduped);
    var collapsed := PrefixGeneralize.PrefixGeneralize(cfg, classified);
    var subsumed := Subsume(collapsed);
    optimized := Deduplicate(subsumed);
    ghost var run := Run(rules, canonical, deduped, classified, collapsed, subsumed, optimized);
    stats := [PassStat("canonicalize", |rules|, |canonical|), PassStat("dedup", |canonical|, |deduped|),
      PassStat("generalize", |deduped|, |classified|), PassStat("prefix-generalize", |classified|, |collapsed|),
      PassStat("subsumption", |collapsed|, |subsumed|), PassStat("dedup", |subsumed|, |optimized|)];
    assert ValidRun(cfg, run);
    conflicts := Detect(optimized);
  }

  // ---- each pass on lists is its set-level counterpart ----

  lemma CanonRefines(rules: seq<Rule>)
    ensures Keys(CanonRules(rules)) == CanonKeys(Keys(rules))
  {
    hide CanonObject;
    var out := CanonRules(rules);
    assert forall i :: 0 <= i < |rules| ==> out[i].ToKey() == CanonKey(rules[i].ToKey()) && out[i] in out;
  }

  lemma GenRefines(rules: seq<Rule>)
    ensures Keys(GenRules(rules)) == GenKeys(Keys(rules))
  {
    hide GenObject;
    var out := GenRules(rules);
    assert forall i :: 0 <= i < |rules| ==> out[i].ToKey() == GenKey(rules[i].ToKey()) && out[i] in out;
  }

  predicate DistinctSigs(rules: seq<Rule>) {
    forall i, j :: 0 <= i < j < |rules| ==> rules[i].Sig() != rules[j].Sig()
  }

  /** Rules of one group carry distinct keys. */
  predicate DistinctSiblings(rules: seq<Rule>) {
    forall i, j :: 0 <= i < j < |rules| && GroupOf(rules[i].ToKey()).Some? && GroupOf(rules[j].ToKey()).Some? ==>
      rules[i].ToKey() != rules[j].ToKey()
  }

  lemma ClassifyKeepsSiblingsDistinct(rules: seq<Rule>)
    requires DistinctSigs(rules)
    ensures DistinctSiblings(GenRules(rules))
  {
    hide ParentDir, TryClassify;
    var out := GenRules(rules);
    forall i, j | 0 <= i < j < |out| && GroupOf(out[i].ToKey()).Some? && GroupOf(out[j].ToKey()).Some?
      ensures out[i].ToKey() != out[j].ToKey()
    {
      assert out[i] == rules[i] && out[j] == rules[j];
    }
  }

  lemma KeysOfPrefix(rules: seq<Rule>, n: nat)
    requires 0 < n <= |rules|
    ensures Keys(rules[..n]) == Keys(rules[..n - 1]) + {rules[n - 1].ToKey()}
  {
    assert rules[..n] == rules[..n - 1] + [rules[n - 1]];
  }

  lemma NoKeys(rules: seq<Rule>)
    ensures Keys(rules[..0]) == {}
  {
  }

  lemma NotAmongEarlier(rules: seq<Rule>, n: nat, g: Group)
    requires 0 < n <= |rules| && DistinctSiblings(rules) && GroupOf(rules[n - 1].ToKey()) == Some(g)
    ensures rules[n - 1].ToKey() !in Keys(rules[..n - 1])
  {
    hide GroupOf;
    if rules[n - 1].ToKey() in Keys(rules[..n - 1]) {
      var i := KeysHasIndex(rules[..n - 1], rules[n - 1].ToKey());
    }
  }

  /** With distinct siblings, counting rules of a group counts entries of the group. */
  lemma {:induction false} MembersCount(rules: seq<Rule>, n: nat, g: Group)
    requires n <= |rules| && DistinctSiblings(rules)
    ensures |Members(rules, n, g)| == |Siblings(Keys(rules[..n]), g)|
  {
    hide GroupOf, Keys;
    NoKeys(rules);
    if n > 0 {
      MembersCount(rules, n - 1, g);
      var k := rules[n - 1].ToKey();
      var before, after := Siblings(Keys(rules[..n - 1]), g), Siblings(Keys(rules[..n]), g);
      KeysOfPrefix(rules, n);
      if GroupOf(k) == Some(g) {
        NotAmongEarlier(rules, n, g);
        assert after == before + {k};
      } else {
        assert after == before;
      }
    }
  }

  lemma FiresRefines(cfg: PassConfig, rules: seq<Rule>, g: Group)
    requires DistinctSiblings(rules)
    ensures FiresOn(cfg, rules, g) <==> Fires(cfg, Keys(rules), g)
  {
    hide GuardsPass, Siblings, Members;
    MembersCount(rules, |rules|, g);
    assert rules[..|rules|] == rules;
  }

  lemma {:induction false} KeptMembers(cfg: PassConfig, rules: seq<Rule>, n: nat)
    requires n <= |rules|
    ensures forall r :: r in Kept(cfg, rules, n) ==> exists i :: 0 <= i < n && rules[i] == r && !CollapsesOn(cfg, rules, i)
    ensures forall i :: 0 <= i < n && !CollapsesOn(cfg, rules, i) ==> rules[i] in Kept(cfg, rules, n)
  {
    hide CollapsesOn;
    if n > 0 { KeptMembers(cfg, rules, n - 1); }
  }

  lemma PrefixGenRefines(cfg: PassConfig, rules: seq<Rule>, out: seq<Rule>)
    requires DistinctSiblings(rules) && IsPrefixGen(cfg, rules, out)
    ensures Keys(out) == PrefixGenKeys(cfg, Keys(rules))
  {
    hide Collapses, CollapsesOn, GroupOf, Synthesized, SynthesizedAll, Kept, FiresOn;
    var order :| Enumerates(cfg, rules, order) && out == Kept(cfg, rules, |rules|) + SynthesizedAll(rules, order);
    KeptMembers(cfg, rules, |rules|);
    forall r | r in out ensures r.ToKey() in PrefixGenKeys(cfg, Keys(rules)) {
      if r in Kept(cfg, rules, |rules|) {
        var i :| 0 <= i < |rules| && rules[i] == r && !CollapsesOn(cfg, rules, i);
        CollapsesRefines(cfg, rules, i);
      } else {
        SynthesizedMember(cfg, rules, order, r);
      }
    }
    forall k | k in PrefixGenKeys(cfg, Keys(rules)) ensures k in Keys(out) {
      var from := OriginOf(cfg, Keys(rules), k);
      var i := KeysHasIndex(rules, from);
      CollapsesRefines(cfg, rules, i);
      if !Survives(cfg, Keys(rules), k) {
        assert CollapsedFrom(cfg, Keys(rules), k, from);
        SynthesizedIndex(cfg, rules, order, i);
      } else {
        var i' := KeysHasIndex(rules, k);
        CollapsesRefines(cfg, rules, i');
      }
    }
  }

  lemma CollapsesRefines(cfg: PassConfig, rules: seq<Rule>, i: nat)
    requires DistinctSiblings(rules) && i < |rules|
    ensures CollapsesOn(cfg, rules, i) <==> Collapses(cfg, Keys(rules), rules[i].ToKey())
  {
    hide FiresOn, Fires, GroupOf;
    if GroupOf(rules[i].ToKey()).Some? { FiresRefines(cfg, rules, GroupOf(rules[i].ToKey()).value); }
  }

  lemma SynthesizedKey(rules: seq<Rule>, g: Group)
    requires Members(rules, |rules|, g) != []
    ensures Synthesized(rules, g).ToKey() == PrefixKey(g)
  {
  }

  lemma SynthesizedMember(cfg: PassConfig, rules: seq<Rule>, order: seq<Group>, r: Rule)
    requires DistinctSiblings(rules) && Enumerates(cfg, rules, order) && r in SynthesizedAll(rules, order)
    ensures r.ToKey() in PrefixGenKeys(cfg, Keys(rules))
  {
    hide FiresOn, Fires, GroupOf, Synthesized;
    var n :| 0 <= n < |order| && r == Synthesized(rules, order[n]);
    SynthesizedKey(rules, order[n]);
    var i := Members(rules, |rules|, order[n])[0];
    FiresRefines(cfg, rules, order[n]);
    assert GroupOf(rules[i].ToKey()) == Some(order[n]);
    assert rules[i].ToKey() in Keys(rules) && Collapses(cfg, Keys(rules), rules[i].ToKey());
  }

  lemma SynthesizedIndex(cfg: PassConfig, rules: seq<Rule>, order: seq<Group>, i: nat)
    requires Enumerates(cfg, rules, order) && i < |rules| && CollapsesOn(cfg, rules, i)
    ensures PrefixKey(GroupOf(rules[i].ToKey()).value) in Keys(SynthesizedAll(rules, order))
  {
    hide FiresOn, GroupOf, Synthesized;
    var g := GroupOf(rules[i].ToKey()).value;
    var n :| 0 <= n < |order| && order[n] == g;
    SynthesizedKey(rules, g);
    assert SynthesizedAll(rules, order)[n] == Synthesized(rules, g);
  }

  /** A run of the program acts on rule sets as `PipelineStep` says. */
  lemma RunRefines(cfg: PassConfig, run: Run)
    requires ValidRun(cfg, run)
    ensures PipelineStep(cfg, Keys(run.input), Keys(run.deduped), Keys(run.output))
  {
    hide CanonRules, GenRules, IsPrefixGen, Selection, Unsubsumed, Keys, CanonKeys, GenKeys, PrefixGenKeys, SubsumeKeys, DedupMap;
    CanonRefines(run.input);
    DedupSelects(run.canonical, run.deduped);
    GenRefines(run.deduped);
    ClassifyKeepsSiblingsDistinct(run.deduped);
    PrefixGenRefines(cfg, run.classified, run.collapsed);
    SubsumeRefines(run.collapsed);
    DedupSelects(run.subsumed, run.output);
  }
}
