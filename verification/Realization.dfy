/** Every set-level outcome of the pipeline is the outcome of some run on lists, so that a rerun is a
    no-op for all runs exactly under the condition found on sets. */
module Realization {
  import opened Strings
  import opened Ir
  import opened Canonical
  import opened Dedup
  import opened Generalize
  import opened PrefixGeneralize
  import opened RuleSets
  import opened FixedPoint
  import opened FixedPointLimit
  import opened Pipeline

  // ---- lists of sets ----

  lemma Listing<T>(s: set<T>) returns (list: seq<T>)
    ensures forall x :: x in list <==> x in s
    ensures forall i, j :: 0 <= i < j < |list| ==> list[i] != list[j]
    decreases |s|
  {
    if s == {} {
      list := [];
    } else {
      var x :| x in s;
      var rest := Listing(s - {x});
      list := [x] + rest;
    }
  }

  function RuleOf(k: Key): Rule {
    Rule(0, k.subject, k.obj, k.action, k.verdict, Metadata(Fs, 1, 0, 0))
  }

  lemma RulesOf(ks: set<Key>) returns (rules: seq<Rule>)
    ensures Keys(rules) == ks
  {
    var keys := Listing(ks);
    rules := seq(|keys|, i requires 0 <= i < |keys| => RuleOf(keys[i]));
    assert forall i :: 0 <= i < |keys| ==> rules[i].ToKey() == keys[i] && rules[i] in rules && keys[i] in keys;
  }

  // ---- an order in which the wanted entry of each signature comes first ----

  /** No rule with a wanted key comes after a rule of the same signature with another key. */
  predicate WantedFirst(rules: seq<Rule>, wanted: set<Key>) {
    forall i, j :: 0 <= i < j < |rules| && rules[j].ToKey() in wanted && rules[i].Sig() == rules[j].Sig() ==>
      rules[i].ToKey() == rules[j].ToKey()
  }

  predicate Distinct<T(==)>(list: seq<T>) { forall i, j :: 0 <= i < j < |list| ==> list[i] != list[j] }

  predicate Lists(m: map<Signature, Rule>, sigs: seq<Signature>) {
    && Distinct(sigs)
    && (forall i :: 0 <= i < |sigs| ==> sigs[i] in m)
    && (forall sig :: sig in m ==> sig in sigs)
  }

  function Values(m: map<Signature, Rule>, sigs: seq<Signature>): (out: seq<Rule>)
    requires Lists(m, sigs)
    ensures |out| == |sigs| && forall i :: 0 <= i < |sigs| ==> out[i] == m[sigs[i]]
  {
    seq(|sigs|, i requires 0 <= i < |sigs| => m[sigs[i]])
  }

  /** Any listing of the map's signatures gives a possible result of deduplication. */
  lemma ListedIsDedup(rules: seq<Rule>, sigs: seq<Signature>)
    requires Lists(DedupMap(rules), sigs)
    ensures IsDedup(rules, Values(DedupMap(rules), sigs))
  {
    hide Values;
    var m := DedupMap(rules);
    var out := Values(m, sigs);
    forall sig | sig in m ensures m[sig] in out {
      var i :| 0 <= i < |sigs| && sigs[i] == sig;
      assert out[i] == m[sig];
    }
  }

  /** Deduplication in an order that puts the rules whose class is wanted first. */
  lemma DedupWanted(rules: seq<Rule>, wanted: set<Key>) returns (out: seq<Rule>)
    requires NoClash(wanted)
    ensures IsDedup(rules, out) && WantedFirst(GenRules(out), wanted)
  {
    hide GenKey, GenRules, DedupMap, IsDedup, WantedFirst, Values, NoClash;
    var m := DedupMap(rules);
    var first := Listing(set sig | sig in m && GenKey(m[sig].ToKey()) in wanted);
    var last := Listing(set sig | sig in m && GenKey(m[sig].ToKey()) !in wanted);
    var sigs := first + last;
    assert forall i :: 0 <= i < |first| ==> sigs[i] in first;
    assert forall i :: |first| <= i < |sigs| ==> sigs[i] in last;
    assert Distinct(sigs);
    assert Lists(m, sigs);
    ListedIsDedup(rules, sigs);
    out := Values(m, sigs);
    WantedPrefix(out, wanted, |first|);
  }

  lemma WantedPrefix(rules: seq<Rule>, wanted: set<Key>, n: nat)
    requires NoClash(wanted)
    requires forall i :: 0 <= i < |rules| ==> (GenKey(rules[i].ToKey()) in wanted <==> i < n)
    ensures WantedFirst(GenRules(rules), wanted)
  {
    hide GenObject;
    var gen := GenRules(rules);
    assert forall i :: 0 <= i < |gen| ==> gen[i].ToKey() == GenKey(rules[i].ToKey());
    assert forall i :: 0 <= i < |gen| ==> gen[i].Sig() == gen[i].ToKey().Sig();
  }

  lemma AnEnumeration(cfg: PassConfig, rules: seq<Rule>) returns (order: seq<Group>)
    ensures Enumerates(cfg, rules, order)
  {
    hide FiresOn, GroupOf;
    order := Listing(set i | 0 <= i < |rules| && CollapsesOn(cfg, rules, i) :: GroupOf(rules[i].ToKey()).value);
    forall n | 0 <= n < |order|
      ensures Members(rules, |rules|, order[n]) != [] && FiresOn(cfg, rules, order[n])
    {
      assert order[n] in order;
      var i :| 0 <= i < |rules| && CollapsesOn(cfg, rules, i) && GroupOf(rules[i].ToKey()).value == order[n];
      assert i in Members(rules, |rules|, order[n]);
    }
  }

  // ---- the order survives the passes ----

  lemma {:induction false} KeptWantedFirst(cfg: PassConfig, rules: seq<Rule>, n: nat, wanted: set<Key>)
    requires n <= |rules| && WantedFirst(rules, wanted)
    ensures WantedFirst(Kept(cfg, rules, n), wanted)
  {
    hide CollapsesOn;
    if n > 0 {
      KeptWantedFirst(cfg, rules, n - 1, wanted);
      KeptMembers(cfg, rules, n - 1);
      var before := Kept(cfg, rules, n - 1);
      assert forall i :: 0 <= i < |before| ==> before[i] in before;
    }
  }

  lemma {:induction false} UnsubsumedWantedFirst(rules: seq<Rule>, n: nat, wanted: set<Key>)
    requires n <= |rules| && WantedFirst(rules, wanted)
    ensures WantedFirst(Unsubsumed(rules, n), wanted)
  {
    hide IsSubsumed;
    if n > 0 {
      UnsubsumedWantedFirst(rules, n - 1, wanted);
      UnsubsumedKeys(rules, n - 1);
      var before := Unsubsumed(rules, n - 1);
      assert forall i :: 0 <= i < |before| ==> before[i] in before;
    }
  }

  /** Synthesized prefixes never share a signature with a rule of another key. */
  lemma SynthesizedWantedFirst(cfg: PassConfig, chosen: set<Key>, rules: seq<Rule>, order: seq<Group>, wanted: set<Key>)
    requires NoClash(chosen) && Keys(rules) == GenKeys(chosen) && DistinctSiblings(rules)
    requires WantedFirst(rules, wanted) && Enumerates(cfg, rules, order)
    ensures WantedFirst(Kept(cfg, rules, |rules|) + SynthesizedAll(rules, order), wanted)
  {
    hide CollapsesOn, GroupOf, FiresOn, GenKeys, Synthesized, NoClash, PrefixGenKeys, DistinctSiblings;
    var kept, syn := Kept(cfg, rules, |rules|), SynthesizedAll(rules, order);
    var out := kept + syn;
    KeptWantedFirst(cfg, rules, |rules|, wanted);
    assert IsPrefixGen(cfg, rules, out);
    PrefixGenRefines(cfg, rules, out);
    forall i, j | 0 <= i < j < |out| && out[j].ToKey() in wanted && out[i].Sig() == out[j].Sig()
      ensures out[i].ToKey() == out[j].ToKey()
    {
      if j >= |kept| {
        var n := j - |kept|;
        SynthesizedKey(rules, order[n]);
        assert out[j] == Synthesized(rules, order[n]);
        assert out[i] in out && out[j] in out;
        if out[i].ToKey() != out[j].ToKey() {
          ClashIsOld(cfg, Keys(rules), out[i].ToKey(), out[j].ToKey());
          ClashIsProcClass(chosen, out[j].ToKey(), out[i].ToKey());
        }
      } else {
        assert out[i] == kept[i] && out[j] == kept[j];
      }
    }
  }

  lemma WantedIsKept(rules: seq<Rule>, wanted: set<Key>, k: Key)
    requires WantedFirst(rules, wanted) && k in wanted && k in Keys(rules)
    ensures k.Sig() in DedupMap(rules) && DedupMap(rules)[k.Sig()].ToKey() == k
  {
    hide DedupMap;
    var j := KeysHasIndex(rules, k);
    assert rules[j] in rules && rules[j].Sig() == k.Sig();
    DedupMapKeys(rules, k.Sig());
    var i := DedupMapValue(rules, k.Sig());
    assert i <= j;
  }

  lemma SelectionWithin(all: set<Key>, kept: set<Key>)
    requires Selection(all, kept)
    ensures kept <= all && NoClash(kept)
  {
  }

  lemma Representative(all: set<Key>, kept: set<Key>, k: Key) returns (d: Key)
    requires Selection(all, kept) && k in all
    ensures d in kept && d.Sig() == k.Sig()
  {
    hide NoClash;
    d :| d in kept && d.Sig() == k.Sig();
  }

  lemma SelectedIsWanted(all: set<Key>, kept: set<Key>, wanted: set<Key>, k: Key)
    requires Selection(all, kept) && Selection(all, wanted) && wanted <= kept && k in kept
    ensures k in wanted
  {
    hide Selection;
    SelectionWithin(all, kept);
    var d := Representative(all, wanted, k);
    assert d in kept;
  }

  /** Deduplicating a list with the wanted rules first keeps exactly the wanted selection. */
  lemma FinalSelection(rules: seq<Rule>, wanted: set<Key>) returns (out: seq<Rule>)
    requires Selection(Keys(rules), wanted) && WantedFirst(rules, wanted)
    ensures IsDedup(rules, out) && Keys(out) == wanted
  {
    hide Values, Selection, IsDedup, WantedFirst, DedupMap;
    assert wanted <= Keys(rules) by { SelectionWithin(Keys(rules), wanted); }
    var m := DedupMap(rules);
    var sigs := Listing(m.Keys);
    assert forall i :: 0 <= i < |sigs| ==> sigs[i] in sigs;
    ListedIsDedup(rules, sigs);
    out := Values(m, sigs);
    DedupSelects(rules, out);
    forall k | k in wanted ensures k in Keys(out) {
      WantedIsKept(rules, wanted, k);
      var n :| 0 <= n < |sigs| && sigs[n] == k.Sig();
      assert out[n] in out && out[n].ToKey() == k;
    }
    forall k | k in Keys(out) ensures k in wanted {
      SelectedIsWanted(Keys(rules), Keys(out), wanted, k);
    }
  }

  /** What deduplication keeps of a list: the first entry of each signature. */
  function FirstKeys(rules: seq<Rule>): set<Key> {
    var m := DedupMap(rules);
    set sig | sig in m :: m[sig].ToKey()
  }

  lemma DedupKeepsFirst(rules: seq<Rule>, out: seq<Rule>)
    requires IsDedup(rules, out)
    ensures Keys(out) == FirstKeys(rules)
  {
    hide DedupMap;
    var m := DedupMap(rules);
    forall k | k in Keys(out) ensures k in FirstKeys(rules) {
      var r :| r in out && r.ToKey() == k;
      assert r.Sig() in m && m[r.Sig()] == r;
    }
    forall sig | sig in m ensures m[sig].ToKey() in Keys(out) {
      assert m[sig] in out;
    }
  }

  /** The entries left once `chosen` went through the passes between the two deduplications. */
  function After(cfg: PassConfig, chosen: set<Key>): set<Key> { SubsumeKeys(PrefixGenKeys(cfg, GenKeys(chosen))) }

  /** The set the last deduplication selects from, for runs on one list. */
  function BeforeLastDedup(cfg: PassConfig, rules: seq<Rule>): set<Key> { After(cfg, FirstKeys(CanonRules(rules))) }

  /** The outputs of the runs on a list are exactly the selections from one set: any of them is reached. */
  lemma RealizeOnList(cfg: PassConfig, rules: seq<Rule>, output: set<Key>) returns (run: Run)
    requires Selection(BeforeLastDedup(cfg, rules), output)
    ensures ValidRun(cfg, run) && run.input == rules && Keys(run.output) == output
  {
    hide CanonRules, GenRules, IsDedup, IsPrefixGen, Unsubsumed, Keys, CanonKeys, GenKeys, PrefixGenKeys, SubsumeKeys,
      WantedFirst, NoClash, Enumerates, Kept, SynthesizedAll, Selection, FirstKeys;
    var canonical := CanonRules(rules);
    SelectionWithin(BeforeLastDedup(cfg, rules), output);
    var deduped := DedupWanted(canonical, output);
    DedupKeepsFirst(canonical, deduped);
    DedupSelects(canonical, deduped);
    SelectionWithin(Keys(canonical), Keys(deduped));
    var classified := GenRules(deduped);
    GenRefines(deduped);
    DistinctAfterDedup(canonical, deduped);
    ClassifyKeepsSiblingsDistinct(deduped);
    var order := AnEnumeration(cfg, classified);
    EnumerationInhabits(cfg, classified, order);
    var collapsed := Kept(cfg, classified, |classified|) + SynthesizedAll(classified, order);
    SynthesizedWantedFirst(cfg, Keys(deduped), classified, order, output);
    assert IsPrefixGen(cfg, classified, collapsed) by { APrefixGen(cfg, classified, order); }
    PrefixGenRefines(cfg, classified, collapsed);
    var subsumed := Unsubsumed(collapsed, |collapsed|);
    SubsumeRefines(collapsed);
    UnsubsumedWantedFirst(collapsed, |collapsed|, output);
    var out := FinalSelection(subsumed, output);
    run := Run(rules, canonical, deduped, classified, collapsed, subsumed, out);
  }

  /** And nothing else is. */
  lemma RunSelects(cfg: PassConfig, run: Run)
    requires ValidRun(cfg, run)
    ensures Selection(BeforeLastDedup(cfg, run.input), Keys(run.output))
  {
    hide CanonRules, GenRules, IsDedup, IsPrefixGen, Unsubsumed, Keys, GenKeys, PrefixGenKeys, SubsumeKeys, Selection, FirstKeys;
    DedupKeepsFirst(run.canonical, run.deduped);
    GenRefines(run.deduped);
    DistinctAfterDedup(run.canonical, run.deduped);
    ClassifyKeepsSiblingsDistinct(run.deduped);
    PrefixGenRefines(cfg, run.classified, run.collapsed);
    SubsumeRefines(run.collapsed);
    DedupSelects(run.subsumed, run.output);
  }

  lemma FirstKeysOfNoClash(rules: seq<Rule>)
    requires NoClash(CanonKeys(Keys(rules)))
    ensures FirstKeys(CanonRules(rules)) == CanonKeys(Keys(rules))
  {
    hide NoClash, CanonRules, CanonKeys, Selection, FirstKeys, IsDedup;
    CanonRefines(rules);
    var canonical := CanonRules(rules);
    var out := DedupWanted(canonical, {}) by { assert NoClash({}) by { EmptyNoClash(); } }
    DedupKeepsFirst(canonical, out);
    DedupSelects(canonical, out);
    SelectionOfNoClash(Keys(canonical), Keys(out));
  }

  lemma EmptyNoClash()
    ensures NoClash({})
  {
  }

  /** Any outcome the set-level pipeline allows for a list without clashes is reached by a run on it. */
  lemma Realize(cfg: PassConfig, rules: seq<Rule>, output: set<Key>) returns (run: Run)
    requires NoClash(CanonKeys(Keys(rules)))
    requires PipelineStep(cfg, Keys(rules), CanonKeys(Keys(rules)), output)
    ensures ValidRun(cfg, run) && run.input == rules && Keys(run.output) == output
  {
    hide NoClash, CanonKeys, Keys, CanonRules, GenKeys, PrefixGenKeys, SubsumeKeys, Selection, FirstKeys, ValidRun;
    FirstKeysOfNoClash(rules);
    run := RealizeOnList(cfg, rules, output);
  }

  lemma DistinctAfterDedup(rules: seq<Rule>, out: seq<Rule>)
    requires IsDedup(rules, out)
    ensures DistinctSigs(out)
  {
  }

  lemma EnumerationInhabits(cfg: PassConfig, rules: seq<Rule>, order: seq<Group>)
    requires Enumerates(cfg, rules, order)
    ensures AllInhabited(rules, order)
  {
  }

  lemma APrefixGen(cfg: PassConfig, rules: seq<Rule>, order: seq<Group>)
    requires Enumerates(cfg, rules, order) && AllInhabited(rules, order)
    ensures IsPrefixGen(cfg, rules, Kept(cfg, rules, |rules|) + SynthesizedAll(rules, order))
  {
  }

  /** Every run on a run's output gives back that output. */
  ghost predicate RerunsAreNoOps(cfg: PassConfig) {
    forall first: Run, second: Run :: ValidRun(cfg, first) && ValidRun(cfg, second) && second.input == first.output ==>
      Keys(second.output) == Keys(first.output)
  }

  /** Over all inputs and runs, the pipeline's output is a fixed point exactly when the configuration
      never collapses "/proc/" itself. */
  lemma RerunsAreNoOpsExactlyWhen(cfg: PassConfig)
    ensures RerunsAreNoOps(cfg) <==> !DirGeneralizable(cfg, PROC)
  {
    hide ValidRun, PipelineStep, DirGeneralizable, NoClash, CanonKeys, Keys;
    if DirGeneralizable(cfg, PROC) {
      var input, chosen, output, output2 := UnstableInput(cfg);
      var rules := RulesOf(input);
      var first := Realize(cfg, rules, output);
      var second := Realize(cfg, first.output, output2);
    } else {
      RerunIsNoOpExactlyWhen(cfg);
      forall first: Run, second: Run | ValidRun(cfg, first) && ValidRun(cfg, second) && second.input == first.output
        ensures Keys(second.output) == Keys(first.output)
      {
        RunRefines(cfg, first);
        RunRefines(cfg, second);
      }
    }
  }

  // ---- when all runs agree ----

  lemma ASelection(ks: set<Key>) returns (sel: set<Key>)
    ensures Selection(ks, sel)
    decreases |ks|
  {
    if ks == {} {
      sel := {};
    } else {
      var k :| k in ks;
      sel := SelectionWith(ks, k);
    }
  }

  /** Any entry can be the one that is kept. */
  lemma SelectionWith(ks: set<Key>, k: Key) returns (sel: set<Key>)
    requires k in ks
    ensures Selection(ks, sel) && k in sel
    decreases |ks|, 0
  {
    var others := set l | l in ks && l.Sig() != k.Sig();
    assert others < ks;
    SmallerSet(others, ks);
    var rest := ASelection(others);
    sel := {k} + rest;
    SelectionPlus(ks, k, others, rest);
  }

  lemma SmallerSet(a: set<Key>, b: set<Key>)
    requires a < b
    ensures |a| < |b|
  {
    assert b == a + (b - a);
  }

  lemma SelectionPlus(ks: set<Key>, k: Key, others: set<Key>, rest: set<Key>)
    requires k in ks && others == (set l | l in ks && l.Sig() != k.Sig()) && Selection(others, rest)
    ensures Selection(ks, {k} + rest)
  {
    hide Selection;
    SelectionWithin(others, rest);
    var sel := {k} + rest;
    assert NoClash(sel);
    forall l | l in ks ensures exists d :: d in sel && d.Sig() == l.Sig() {
      if l.Sig() == k.Sig() {
        assert k in sel;
      } else {
        var d := Representative(others, rest, l);
        assert d in sel;
      }
    }
    IsSelection(ks, sel);
  }

  lemma IsSelection(ks: set<Key>, sel: set<Key>)
    requires sel <= ks && NoClash(sel) && forall k :: k in ks ==> exists d :: d in sel && d.Sig() == k.Sig()
    ensures Selection(ks, sel)
  {
    hide NoClash;
  }

  /** There is a run on every list. */
  lemma SomeRun(cfg: PassConfig, rules: seq<Rule>) returns (run: Run)
    ensures ValidRun(cfg, run) && run.input == rules
  {
    hide ValidRun, Selection, BeforeLastDedup;
    var sel := ASelection(BeforeLastDedup(cfg, rules));
    run := RealizeOnList(cfg, rules, sel);
  }

  /** All runs on the list give the same set of rules. */
  ghost predicate RunsAgree(cfg: PassConfig, rules: seq<Rule>) {
    forall a: Run, b: Run :: ValidRun(cfg, a) && ValidRun(cfg, b) && a.input == rules && b.input == rules ==>
      Keys(a.output) == Keys(b.output)
  }

  /** Hash-map order is invisible in the output for a list exactly when no two verdicts meet on one
      signature after subsumption. */
  lemma RunsAgreeExactlyWhen(cfg: PassConfig, rules: seq<Rule>)
    ensures RunsAgree(cfg, rules) <==> NoClash(BeforeLastDedup(cfg, rules))
  {
    hide ValidRun, BeforeLastDedup, Keys, Selection, NoClash;
    var last := BeforeLastDedup(cfg, rules);
    if NoClash(last) {
      forall a: Run, b: Run | ValidRun(cfg, a) && ValidRun(cfg, b) && a.input == rules && b.input == rules
        ensures Keys(a.output) == Keys(b.output)
      {
        RunSelects(cfg, a);
        RunSelects(cfg, b);
        SelectionOfNoClash(last, Keys(a.output));
        SelectionOfNoClash(last, Keys(b.output));
      }
    } else {
      var k, l := ClashingPair(last);
      var sk := SelectionWith(last, k);
      var sl := SelectionWith(last, l);
      var a := RealizeOnList(cfg, rules, sk);
      var b := RealizeOnList(cfg, rules, sl);
      SelectionWithin(last, sk);
      OnlyOneOf(sk, k, l);
    }
  }

  lemma ClashingPair(ks: set<Key>) returns (k: Key, l: Key)
    requires !NoClash(ks)
    ensures k in ks && l in ks && k.Sig() == l.Sig() && k != l
  {
    k, l :| k in ks && l in ks && k.Sig() == l.Sig() && k != l;
  }

  lemma OnlyOneOf(ks: set<Key>, k: Key, l: Key)
    requires NoClash(ks) && k in ks && k.Sig() == l.Sig() && k != l
    ensures l !in ks
  {
  }

  /** An allowed and a denied read of two processes' "stat" file: whatever the configuration, two runs on
      the same list keep different verdicts. */
  lemma DivergentInput(cfg: PassConfig) returns (a: Run, b: Run)
    ensures ValidRun(cfg, a) && ValidRun(cfg, b) && a.input == b.input
    ensures Keys(a.input) == {Read1(), Read2()} && Keys(a.output) != Keys(b.output)
  {
    hide ValidRun, Keys, NoClash, CanonKeys, GenKeys, PrefixGenKeys, SubsumeKeys, FirstKeys, CanonRules, Read1, Read2, Stat, StatDenied;
    var ks := {Read1(), Read2()};
    var rules := RulesOf(ks);
    StatsClash(cfg);
    FirstKeysOfNoClash(rules);
    RunsAgreeExactlyWhen(cfg, rules);
    a, b :| ValidRun(cfg, a) && ValidRun(cfg, b) && a.input == rules && b.input == rules && Keys(a.output) != Keys(b.output);
  }

  lemma StatsClash(cfg: PassConfig)
    ensures NoClash(CanonKeys({Read1(), Read2()}))
    ensures !NoClash(PipelineKeys(cfg, {Read1(), Read2()}))
  {
    hide CanonKey, GenKey, Collapses, Subsumes, Stat, StatDenied, Read1, Read2, CanonKeys, GenKeys, PrefixGenKeys, SubsumeKeys;
    assert Input(0, 0) == {Read1(), Read2()} && AfterClassify(0, 0) == {Stat(), StatDenied()};
    InputFacts(0, 0);
    InputNoClash(0, 0);
    NothingCollapsesFirst(cfg, 0, 0);
    NothingHappens(cfg, AfterClassify(0, 0));
    StatFactsOnly();
    assert Stat() in AfterClassify(0, 0) && StatDenied() in AfterClassify(0, 0);
  }
}
