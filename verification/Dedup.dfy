/** Deduplication: one rule per signature, metadata folded together, order of the survivors left to
    the hash map. */
module Dedup {
  import opened Strings
  import opened Ir

  /** Folding a repeated rule into the first one; the count wraps at 64 bits. */
  function Merge(existing: Rule, rule: Rule): Rule {
    var m := existing.metadata;
    existing.(metadata := Metadata(
      m.source,
      (m.observations + rule.metadata.observations) % TWO_TO_THE_64,
      Min(m.firstSeen, rule.metadata.firstSeen),
      Max(m.lastSeen, rule.metadata.lastSeen)))
  }

  function DedupMap(rules: seq<Rule>): (m: map<Signature, Rule>)
    ensures forall sig :: sig in m ==> m[sig].Sig() == sig
  {
    if rules == [] then map[]
    else
      var m := DedupMap(rules[..|rules| - 1]);
      var rule := rules[|rules| - 1];
      var sig := rule.Sig();
      if sig in m then m[sig := Merge(m[sig], rule)] else m[sig := rule]
  }

  /** `out` lists the values of the map once each, in some order. */
  ghost predicate IsDedup(rules: seq<Rule>, out: seq<Rule>) {
    var m := DedupMap(rules);
    && (forall i, j :: 0 <= i < j < |out| ==> out[i].Sig() != out[j].Sig())
    && (forall r :: r in out ==> r.Sig() in m && m[r.Sig()] == r)
    && (forall sig :: sig in m ==> m[sig] in out)
  }

  method Deduplicate(rules: seq<Rule>) returns (out: seq<Rule>)
    ensures IsDedup(rules, out)
  {
    var seen: map<Signature, Rule> := map[];
    var i := 0;
    while i < |rules|
      invariant 0 <= i <= |rules|
      invariant seen == DedupMap(rules[..i])
    {
      assert rules[..i + 1][..i] == rules[..i];
      var rule := rules[i];
      var sig := rule.Sig();
      if sig in seen {
        var existing := seen[sig];
        existing := existing.(metadata := existing.metadata.(
          observations := (existing.metadata.observations + rule.metadata.observations) % TWO_TO_THE_64));
        if rule.metadata.firstSeen < existing.metadata.firstSeen {
          existing := existing.(metadata := existing.metadata.(firstSeen := rule.metadata.firstSeen));
        }
        if rule.metadata.lastSeen > existing.metadata.lastSeen {
          existing := existing.(metadata := existing.metadata.(lastSeen := rule.metadata.lastSeen));
        }
        seen := seen[sig := existing];
      } else {
        seen := seen[sig := rule];
      }
      i := i + 1;
    }
    assert rules[..i] == rules;
    out := [];
    var left := seen.Keys;
    while left != {}
      invariant left <= seen.Keys
      invariant forall i, j :: 0 <= i < j < |out| ==> out[i].Sig() != out[j].Sig()
      invariant forall r :: r in out ==> r.Sig() in seen.Keys - left && seen[r.Sig()] == r
      invariant forall sig :: sig in seen.Keys - left ==> seen[sig] in out
      decreases |left|
    {
      var sig :| sig in left;
      out := out + [seen[sig]];
      left := left - {sig};
    }
  }

  // ---- what the fold computes ----

  /** Observations of `sig` in all of `rules`. */
  function Total(rules: seq<Rule>, sig: Signature): nat {
    if rules == [] then 0
    else
      var rule := rules[|rules| - 1];
      Total(rules[..|rules| - 1], sig) + (if rule.Sig() == sig then rule.metadata.observations else 0)
  }

  /** Index of the first rule carrying `sig`. */
  ghost predicate IsFirst(rules: seq<Rule>, sig: Signature, i: int) {
    && 0 <= i < |rules|
    && rules[i].Sig() == sig
    && forall j :: 0 <= j < i ==> rules[j].Sig() != sig
  }

  lemma {:induction false} DedupMapKeys(rules: seq<Rule>, sig: Signature)
    ensures sig in DedupMap(rules) <==> exists r :: r in rules && r.Sig() == sig
  {
    if rules != [] {
      var init, rule := rules[..|rules| - 1], rules[|rules| - 1];
      assert rules == init + [rule];
      DedupMapKeys(init, sig);
    }
  }

  lemma {:induction false} DedupMapValue(rules: seq<Rule>, sig: Signature) returns (i: nat)
    requires sig in DedupMap(rules)
    ensures IsFirst(rules, sig, i)
    ensures var r := DedupMap(rules)[sig];
      r == rules[i].(metadata := r.metadata) && r.metadata.source == rules[i].metadata.source
  {
    var init, rule := rules[..|rules| - 1], rules[|rules| - 1];
    if sig in DedupMap(init) {
      i := DedupMapValue(init, sig);
    } else {
      i := |rules| - 1;
      forall j | 0 <= j < i ensures rules[j].Sig() != sig {
        DedupMapKeys(init, sig);
        assert rules[j] == init[j] && init[j] in init;
      }
    }
  }

  /** The survivor of a signature counts every observation of it, modulo 64-bit wrap-around. */
  lemma {:induction false} DedupCounts(rules: seq<Rule>, sig: Signature)
    requires sig in DedupMap(rules)
    ensures DedupMap(rules)[sig].metadata.observations == Total(rules, sig) % TWO_TO_THE_64
  {
    var init, rule := rules[..|rules| - 1], rules[|rules| - 1];
    if sig in DedupMap(init) {
      DedupCounts(init, sig);
    } else {
      DedupMapKeys(init, sig);
      TotalOfAbsent(init, sig);
    }
  }

  /** `m` spans the times at which `sig` was seen: both bounds hold and both are attained. */
  ghost predicate SpansTimes(rules: seq<Rule>, sig: Signature, m: Metadata) {
    && (forall r :: r in rules && r.Sig() == sig ==>
          m.firstSeen <= r.metadata.firstSeen && r.metadata.lastSeen <= m.lastSeen)
    && (exists r :: r in rules && r.Sig() == sig && r.metadata.firstSeen == m.firstSeen)
    && (exists r :: r in rules && r.Sig() == sig && r.metadata.lastSeen == m.lastSeen)
  }

  lemma {:induction false} DedupTimes(rules: seq<Rule>, sig: Signature)
    requires sig in DedupMap(rules)
    ensures SpansTimes(rules, sig, DedupMap(rules)[sig].metadata)
  {
    var init, rule := rules[..|rules| - 1], rules[|rules| - 1];
    assert forall r :: r in rules <==> r in init || r == rule by {
      assert rules == init + [rule];
    }
    if sig in DedupMap(init) {
      DedupTimes(init, sig);
      if rule.Sig() == sig {
        var old_ := DedupMap(init)[sig].metadata;
        var first :| first in init && first.Sig() == sig && first.metadata.firstSeen == old_.firstSeen;
        var last :| last in init && last.Sig() == sig && last.metadata.lastSeen == old_.lastSeen;
        assert first in rules && last in rules && rule in rules;
      }
    } else {
      DedupMapKeys(init, sig);
    }
  }

  lemma TotalOfAbsent(rules: seq<Rule>, sig: Signature)
    requires forall r :: r in rules ==> r.Sig() != sig
    ensures Total(rules, sig) == 0
  {
  }

  // ---- set level ----

  /** Deduplication keeps exactly one entry per signature. */
  lemma DedupSelects(rules: seq<Rule>, out: seq<Rule>)
    requires IsDedup(rules, out)
    ensures Selection(Keys(rules), Keys(out))
  {
    var m := DedupMap(rules);
    forall k | k in Keys(out) ensures k in Keys(rules) {
      var r :| r in out && r.ToKey() == k;
      var i := DedupMapValue(rules, r.Sig());
      assert rules[i] in rules && rules[i].ToKey() == k;
    }
    forall k, l | k in Keys(out) && l in Keys(out) && k.Sig() == l.Sig() ensures k == l {
      var r :| r in out && r.ToKey() == k;
      var s :| s in out && s.ToKey() == l;
      assert r.Sig() == s.Sig();
    }
    forall k | k in Keys(rules) ensures exists d :: d in Keys(out) && d.Sig() == k.Sig() {
      var r :| r in rules && r.ToKey() == k;
      DedupMapKeys(rules, r.Sig());
      assert m[r.Sig()].ToKey() in Keys(out);
    }
  }

  /** Ids: every survivor keeps an input id, and distinct ids stay distinct. */
  lemma DedupIds(rules: seq<Rule>, out: seq<Rule>)
    requires IsDedup(rules, out)
    ensures Ids(out) <= Ids(rules)
    ensures DistinctIds(rules) ==> DistinctIds(out)
  {
    forall a | 0 <= a < |out| ensures out[a].id in Ids(rules) {
      var i := DedupMapValue(rules, out[a].Sig());
      assert rules[i] in rules;
    }
    if DistinctIds(rules) {
      forall a, b | 0 <= a < b < |out| ensures out[a].id != out[b].id {
        var i := DedupMapValue(rules, out[a].Sig());
        var j := DedupMapValue(rules, out[b].Sig());
      }
    }
  }
}
