/** No pass of the pipeline makes the list of rules longer, so what the statistics say was removed adds up. */
module PassSizes {
  import opened Strings
  import opened PathPatterns
  import opened Ir
  import opened Canonical
  import opened Dedup
  import opened Generalize
  import opened PrefixGeneralize
  import opened Pipeline

  // ---- sizes of sets and sequences ----

  lemma SubsetSize<T>(a: set<T>, b: set<T>)
    requires a <= b
    ensures |a| <= |b|
  {
    if a != {} {
      var x :| x in a;
      SubsetSize(a - {x}, b - {x});
    }
  }

  function Sigs(rules: seq<Rule>): set<Signature> { set r | r in rules :: r.Sig() }

  lemma {:induction false} SigsAtMost(rules: seq<Rule>)
    ensures |Sigs(rules)| <= |rules|
  {
    if rules != [] {
      var n := |rules| - 1;
      SigsAtMost(rules[..n]);
      assert rules == rules[..n] + [rules[n]];
      assert Sigs(rules) == Sigs(rules[..n]) + {rules[n].Sig()};
    }
  }

  lemma {:induction false} DistinctSigsCount(rules: seq<Rule>)
    requires forall i, j :: 0 <= i < j < |rules| ==> rules[i].Sig() != rules[j].Sig()
    ensures |Sigs(rules)| == |rules|
  {
    if rules != [] {
      var n := |rules| - 1;
      var front := rules[..n];
      DistinctSigsCount(front);
      assert rules == front + [rules[n]];
      assert Sigs(rules) == Sigs(front) + {rules[n].Sig()};
      forall r | r in front ensures r.Sig() != rules[n].Sig() {
        var i :| 0 <= i < n && front[i] == r;
        assert rules[i] == r;
      }
    }
  }

  lemma DedupShrinks(rules: seq<Rule>, out: seq<Rule>)
    requires IsDedup(rules, out)
    ensures |out| <= |rules|
  {
    hide DedupMap;
    DistinctSigsCount(out);
    SigsAtMost(rules);
    forall sig | sig in Sigs(out) ensures sig in Sigs(rules) {
      var r :| r in out && r.Sig() == sig;
      DedupMapKeys(rules, sig);
    }
    SubsetSize(Sigs(out), Sigs(rules));
  }

  // ---- the collapse ----

  function Collapsing(cfg: PassConfig, rules: seq<Rule>, n: nat): set<int>
    requires n <= |rules|
  {
    set i | 0 <= i < n && CollapsesOn(cfg, rules, i)
  }

  lemma {:induction false} KeptAndCollapsing(cfg: PassConfig, rules: seq<Rule>, n: nat)
    requires n <= |rules|
    ensures |Kept(cfg, rules, n)| + |Collapsing(cfg, rules, n)| == n
  {
    hide CollapsesOn;
    if n == 0 {
      assert Collapsing(cfg, rules, 0) == {};
    } else {
      KeptAndCollapsing(cfg, rules, n - 1);
      var before := Collapsing(cfg, rules, n - 1);
      if CollapsesOn(cfg, rules, n - 1) {
        assert Collapsing(cfg, rules, n) == before + {n - 1};
      } else {
        assert Collapsing(cfg, rules, n) == before;
      }
    }
  }

  lemma {:induction false} MembersAscend(rules: seq<Rule>, n: nat, g: Group)
    requires n <= |rules|
    ensures forall i, j :: 0 <= i < j < |Members(rules, n, g)| ==> Members(rules, n, g)[i] < Members(rules, n, g)[j]
  {
    hide GroupOf;
    if n > 0 {
      MembersAscend(rules, n - 1, g);
    }
  }

  lemma FiringHasTwo(cfg: PassConfig, rules: seq<Rule>, g: Group) returns (a: nat, b: nat)
    requires FiresOn(cfg, rules, g)
    ensures a < b < |rules| && GroupOf(rules[a].ToKey()) == Some(g) && GroupOf(rules[b].ToKey()) == Some(g)
  {
    hide GroupOf, Members;
    var m := Members(rules, |rules|, g);
    MembersAscend(rules, |rules|, g);
    assert |m| >= 2 by { TwoAtLeast(cfg, rules, g); }
    a, b := m[0], m[1];
  }

  lemma TwoAtLeast(cfg: PassConfig, rules: seq<Rule>, g: Group)
    requires FiresOn(cfg, rules, g)
    ensures |Members(rules, |rules|, g)| >= 2
  {
    hide Members, Leaves, SharePrefix, ShareSuffix, DirGeneralizable, Opposes;
  }

  /** Positions of the rules in the groups. */
  function InGroups(rules: seq<Rule>, groups: seq<Group>): set<int> {
    set i | 0 <= i < |rules| && GroupOf(rules[i].ToKey()).Some? && GroupOf(rules[i].ToKey()).value in groups
  }

  lemma {:induction false} TwoPerGroup(cfg: PassConfig, rules: seq<Rule>, groups: seq<Group>)
    requires forall i :: 0 <= i < |groups| ==> FiresOn(cfg, rules, groups[i])
    requires forall i, j :: 0 <= i < j < |groups| ==> groups[i] != groups[j]
    ensures |InGroups(rules, groups)| >= 2 * |groups|
  {
    hide GroupOf, FiresOn;
    if groups != [] {
      var n := |groups| - 1;
      var front, g := groups[..n], groups[n];
      assert groups == front + [g];
      TwoPerGroup(cfg, rules, front);
      var a, b := FiringHasTwo(cfg, rules, g);
      assert g !in front;
      assert a !in InGroups(rules, front) && b !in InGroups(rules, front);
      assert InGroups(rules, front) + {a, b} <= InGroups(rules, groups);
      SubsetSize(InGroups(rules, front) + {a, b}, InGroups(rules, groups));
      assert |InGroups(rules, front) + {a, b}| == |InGroups(rules, front)| + 2 by { TwoMore(InGroups(rules, front), a, b); }
    }
  }

  lemma TwoMore(s: set<int>, a: int, b: int)
    requires a !in s && b !in s && a != b
    ensures |s + {a, b}| == |s| + 2
  {
    assert s + {a, b} == (s + {a}) + {b};
  }

  /** Each collapse takes two rules or more for one. */
  lemma CollapseShrinks(cfg: PassConfig, rules: seq<Rule>, out: seq<Rule>)
    requires IsPrefixGen(cfg, rules, out)
    ensures |out| <= |rules|
    ensures |out| == |rules| <==> forall i :: 0 <= i < |rules| ==> !CollapsesOn(cfg, rules, i)
  {
    hide FiresOn, GroupOf, Kept, SynthesizedAll, CollapsesOn, AllInhabited;
    var order :| Enumerates(cfg, rules, order) && out == Kept(cfg, rules, |rules|) + SynthesizedAll(rules, order);
    var collapsing := Collapsing(cfg, rules, |rules|);
    KeptAndCollapsing(cfg, rules, |rules|);
    assert |SynthesizedAll(rules, order)| == |order| by { OnePerGroup(rules, order); }
    TwoPerGroup(cfg, rules, order);
    forall i | i in InGroups(rules, order) ensures i in collapsing { GroupCollapses(cfg, rules, order, i); }
    SubsetSize(InGroups(rules, order), collapsing);
    if order == [] {
      NoGroupNoCollapse(cfg, rules);
      assert collapsing == {};
    } else {
      assert collapsing != {};
    }
  }

  lemma NoGroupNoCollapse(cfg: PassConfig, rules: seq<Rule>)
    requires Enumerates(cfg, rules, [])
    ensures forall i :: 0 <= i < |rules| ==> !CollapsesOn(cfg, rules, i)
  {
    hide FiresOn, GroupOf;
  }

  lemma OnePerGroup(rules: seq<Rule>, order: seq<Group>)
    requires AllInhabited(rules, order)
    ensures |SynthesizedAll(rules, order)| == |order|
  {
    hide Synthesized, Members;
  }

  lemma GroupCollapses(cfg: PassConfig, rules: seq<Rule>, order: seq<Group>, i: int)
    requires Enumerates(cfg, rules, order) && i in InGroups(rules, order)
    ensures 0 <= i < |rules| && CollapsesOn(cfg, rules, i)
  {
    hide FiresOn, GroupOf, AllInhabited;
    var k :| 0 <= k < |order| && order[k] == GroupOf(rules[i].ToKey()).value;
  }

  lemma {:induction false} SubsumeShrinks(rules: seq<Rule>, n: nat)
    requires n <= |rules|
    ensures |Unsubsumed(rules, n)| <= n
  {
    hide IsSubsumed;
    if n > 0 {
      SubsumeShrinks(rules, n - 1);
    }
  }

  /** In every run no pass makes the list longer, and canonicalizing and classifying keep its length. */
  lemma PassesNeverGrow(cfg: PassConfig, run: Run)
    requires ValidRun(cfg, run)
    ensures |run.input| == |run.canonical| >= |run.deduped| == |run.classified|
    ensures |run.classified| >= |run.collapsed| >= |run.subsumed| >= |run.output|
  {
    hide IsDedup, IsPrefixGen, Unsubsumed, CanonRule, GenRule;
    DedupShrinks(run.canonical, run.deduped);
    CollapseShrinks(cfg, run.classified, run.collapsed);
    SubsumeShrinks(run.collapsed, |run.collapsed|);
    DedupShrinks(run.subsumed, run.output);
  }

  /** Rules a pass says it removed: none if it added some. */
  function Removed(s: PassStat): nat { if s.before >= s.after then s.before - s.after else 0 }

  function TotalRemoved(stats: seq<PassStat>): nat {
    if stats == [] then 0 else TotalRemoved(stats[..|stats| - 1]) + Removed(stats[|stats| - 1])
  }

  lemma {:induction false} RemovedSoFar(stats: seq<PassStat>, n: nat)
    requires n <= |stats| && stats != []
    requires forall i :: 0 <= i < |stats| ==> stats[i].after <= stats[i].before
    requires forall i :: 0 <= i < |stats| - 1 ==> stats[i].after == stats[i + 1].before
    ensures TotalRemoved(stats[..n]) == stats[0].before - if n == 0 then stats[0].before else stats[n - 1].after
  {
    if n > 0 {
      RemovedSoFar(stats, n - 1);
      assert stats[..n][..n - 1] == stats[..n - 1];
    }
  }

  /** The statistics of a run name the six passes in order, each starts where the one before ended, and what
      they say was removed is exactly what the run removed. */
  lemma StatsAddUp(cfg: PassConfig, run: Run)
    requires ValidRun(cfg, run)
    ensures var s := StatsOf(run);
      && |s| == 6 && s[0].before == |run.input| && s[5].after == |run.output|
      && (forall i :: 0 <= i < 5 ==> s[i].after == s[i + 1].before)
      && s[0].name == "canonicalize" && s[1].name == "dedup" && s[2].name == "generalize"
      && s[3].name == "prefix-generalize" && s[4].name == "subsumption" && s[5].name == "dedup"
      && TotalRemoved(s) == |run.input| - |run.output|
  {
    hide ValidRun;
    PassesNeverGrow(cfg, run);
    var s := StatsOf(run);
    RemovedSoFar(s, 6);
    assert s[..6] == s;
  }
}
