/** Cross-category linking: an exec rule needs its binary to be openable and readable too. */
module Linker {
  import opened Strings
  import opened Ir

  /** The two file actions an exec rule implies, in the order they are linked. */
  function Implied(): seq<Action> { [FileOpen, FileRead] }

  /** The binary path of an exec rule, if it names one. */
  function ExecPath(rule: Rule): Option<string> {
    if rule.action == ProcExec && rule.obj.Process? && rule.obj.process.binary.BinaryPath? then
      Some(rule.obj.process.binary.path)
    else None
  }

  function ExactFile(path: string): Object { File(FileObject(ExactPath(path), false)) }

  predicate Provides(r: Rule, subject: Subject, obj: Object, action: Action) {
    r.subject == subject && r.obj == obj && r.action == action
  }

  predicate Provided(rules: seq<Rule>, subject: Subject, obj: Object, action: Action) {
    exists r :: r in rules && Provides(r, subject, obj, action)
  }

  function Wrap(n: int): u64 { n % TWO_TO_THE_64 }

  function MaxId(rules: seq<Rule>): u64 {
    if rules == [] then 0 else Max(rules[0].id, MaxId(rules[1..]))
  }

  function Synthetic(id: RuleId, rule: Rule, path: string, action: Action): Rule {
    Rule(id, rule.subject, ExactFile(path), action, rule.verdict,
         Metadata(Fs, 0, rule.metadata.firstSeen, rule.metadata.lastSeen))
  }

  /** Synthetic rules so far and the next free id. */
  datatype Linking = Linking(synthetic: seq<Rule>, nextId: u64)

  function LinkOne(rules: seq<Rule>, s: Linking, rule: Rule, path: string, action: Action): Linking {
    if Provided(rules + s.synthetic, rule.subject, ExactFile(path), action) then s
    else Linking(s.synthetic + [Synthetic(s.nextId, rule, path, action)], Wrap(s.nextId + 1))
  }

  function LinkRule(rules: seq<Rule>, s: Linking, rule: Rule): Linking {
    match ExecPath(rule)
    case None => s
    case Some(path) => LinkOne(rules, LinkOne(rules, s, rule, path, FileOpen), rule, path, FileRead)
  }

  function LinkFirst(rules: seq<Rule>, n: nat): Linking
    requires n <= |rules|
  {
    if n == 0 then Linking([], Wrap(MaxId(rules) + 1))
    else LinkRule(rules, LinkFirst(rules, n - 1), rules[n - 1])
  }

  function Link(rules: seq<Rule>): seq<Rule> { rules + LinkFirst(rules, |rules|).synthetic }

  method LinkCrossCategory(rules: seq<Rule>) returns (out: seq<Rule>)
    ensures out == Link(rules)
  {
    var nextId: u64 := Wrap(MaxId(rules) + 1);
    var synthetic: seq<Rule> := [];
    var i := 0;
    while i < |rules|
      invariant 0 <= i <= |rules|
      invariant Linking(synthetic, nextId) == LinkFirst(rules, i)
    {
      var rule := rules[i];
      if rule.action == ProcExec && rule.obj.Process? && rule.obj.process.binary.BinaryPath? {
        var path := rule.obj.process.binary.path;
        var fileObj := File(FileObject(ExactPath(path), false));
        ghost var before := Linking(synthetic, nextId);
        for a := 0 to 2
          invariant a == 0 ==> Linking(synthetic, nextId) == before
          invariant a == 1 ==> Linking(synthetic, nextId) == LinkOne(rules, before, rule, path, FileOpen)
          invariant a == 2 ==> Linking(synthetic, nextId) == LinkRule(rules, before, rule)
        {
          var action := [FileOpen, FileRead][a];
          var exists_ := Provided(rules + synthetic, rule.subject, fileObj, action);
          if !exists_ {
            synthetic := synthetic + [Rule(nextId, rule.subject, fileObj, action, rule.verdict,
              Metadata(Fs, 0, rule.metadata.firstSeen, rule.metadata.lastSeen))];
            nextId := Wrap(nextId + 1);
          }
        }
      }
      i := i + 1;
    }
    if synthetic != [] {
      out := rules + synthetic;
    } else {
      out := rules;
      assert rules + [] == rules;
    }
  }

  // ---- closure ----

  /** Every exec rule naming a binary can open and read it, for its own subject. */
  predicate Closed(rules: seq<Rule>, execs: seq<Rule>) {
    forall r, a :: r in execs && ExecPath(r).Some? && a in Implied() ==>
      Provided(rules, r.subject, ExactFile(ExecPath(r).value), a)
  }

  lemma ProvidedGrows(a: seq<Rule>, b: seq<Rule>, subject: Subject, obj: Object, action: Action)
    requires Provided(a, subject, obj, action) && (forall r :: r in a ==> r in b)
    ensures Provided(b, subject, obj, action)
  {
  }

  lemma LinkOneProvides(rules: seq<Rule>, s: Linking, rule: Rule, path: string, action: Action)
    ensures var s' := LinkOne(rules, s, rule, path, action);
      s.synthetic <= s'.synthetic && Provided(rules + s'.synthetic, rule.subject, ExactFile(path), action)
  {
    var s' := LinkOne(rules, s, rule, path, action);
    if s' != s {
      var new_ := Synthetic(s.nextId, rule, path, action);
      assert new_ in rules + s'.synthetic && Provides(new_, rule.subject, ExactFile(path), action);
    }
  }

  lemma {:induction false} LinkFirstCloses(rules: seq<Rule>, n: nat)
    requires n <= |rules|
    ensures Closed(rules + LinkFirst(rules, n).synthetic, rules[..n])
  {
    if n > 0 {
      hide Provided, LinkOne;
      LinkFirstCloses(rules, n - 1);
      var s, rule := LinkFirst(rules, n - 1), rules[n - 1];
      var all := rules + LinkFirst(rules, n).synthetic;
      if ExecPath(rule).Some? {
        var path := ExecPath(rule).value;
        var mid := LinkOne(rules, s, rule, path, FileOpen);
        LinkOneProvides(rules, s, rule, path, FileOpen);
        LinkOneProvides(rules, mid, rule, path, FileRead);
        ProvidedGrows(rules + mid.synthetic, all, rule.subject, ExactFile(path), FileOpen);
      }
      forall r, a | r in rules[..n] && ExecPath(r).Some? && a in Implied()
        ensures Provided(all, r.subject, ExactFile(ExecPath(r).value), a)
      {
        if r in rules[..n - 1] {
          ProvidedGrows(rules + s.synthetic, all, r.subject, ExactFile(ExecPath(r).value), a);
        } else {
          assert r == rule;
        }
      }
    }
  }

  /** What linking adds: only file opens and reads of some exec rule's own binary, with its subject
      and verdict. */
  ghost predicate Justified(rules: seq<Rule>, r: Rule) {
    exists e :: e in rules && ExecPath(e).Some? && r.action in Implied() && r.subject == e.subject
      && r.verdict == e.verdict && r.obj == ExactFile(ExecPath(e).value)
      && r.metadata == Metadata(Fs, 0, e.metadata.firstSeen, e.metadata.lastSeen)
  }

  lemma {:induction false} LinkFirstJustified(rules: seq<Rule>, n: nat)
    requires n <= |rules|
    ensures forall r :: r in LinkFirst(rules, n).synthetic ==> Justified(rules, r)
  {
    if n > 0 {
      LinkFirstJustified(rules, n - 1);
      assert rules[n - 1] in rules;
    }
  }

  /** The linker only appends justified rules, and afterwards every named binary is open and readable. */
  lemma LinkCloses(rules: seq<Rule>)
    ensures rules <= Link(rules)
    ensures forall r :: r in Link(rules) ==> r in rules || Justified(rules, r)
    ensures Closed(Link(rules), Link(rules))
  {
    hide Provided, Justified;
    LinkFirstCloses(rules, |rules|);
    LinkFirstJustified(rules, |rules|);
    assert rules[..|rules|] == rules;
    forall r | r in Link(rules) && ExecPath(r).Some? ensures r in rules {
      if r !in rules { JustifiedIsNoExec(rules, r); }
    }
  }

  lemma JustifiedIsNoExec(rules: seq<Rule>, r: Rule)
    requires Justified(rules, r)
    ensures ExecPath(r).None?
  {
  }

  lemma {:induction false} NothingToLink(rules: seq<Rule>, n: nat)
    requires n <= |rules| && Closed(rules, rules)
    ensures LinkFirst(rules, n).synthetic == []
  {
    if n > 0 {
      hide Provided;
      NothingToLink(rules, n - 1);
      assert rules[n - 1] in rules;
      assert rules + [] == rules;
      assert FileOpen in Implied() && FileRead in Implied();
    }
  }

  lemma LinkIdempotent(rules: seq<Rule>)
    ensures Link(Link(rules)) == Link(rules)
  {
    LinkCloses(rules);
    NothingToLink(Link(rules), |Link(rules)|);
  }

  // ---- ids ----

  lemma MaxIdBounds(rules: seq<Rule>)
    ensures forall r :: r in rules ==> r.id <= MaxId(rules)
  {
  }

  /** Synthetic ids are consecutive from `base`. */
  predicate Numbered(s: Linking, base: nat) {
    && s.nextId == base + |s.synthetic|
    && forall i :: 0 <= i < |s.synthetic| ==> s.synthetic[i].id == base + i
  }

  lemma LinkOneNumbered(rules: seq<Rule>, s: Linking, rule: Rule, path: string, action: Action, base: nat)
    requires Numbered(s, base) && s.nextId < U64_MAX
    ensures var s' := LinkOne(rules, s, rule, path, action);
      Numbered(s', base) && |s'.synthetic| <= |s.synthetic| + 1
  {
    hide Provided;
  }

  lemma {:induction false} LinkFirstNumbered(rules: seq<Rule>, n: nat)
    requires n <= |rules| && MaxId(rules) + 1 + 2 * n <= U64_MAX
    ensures var s := LinkFirst(rules, n); |s.synthetic| <= 2 * n && Numbered(s, MaxId(rules) + 1)
  {
    if n > 0 {
      hide LinkOne;
      LinkFirstNumbered(rules, n - 1);
      var s, rule := LinkFirst(rules, n - 1), rules[n - 1];
      if ExecPath(rule).Some? {
        var path := ExecPath(rule).value;
        LinkOneNumbered(rules, s, rule, path, FileOpen, MaxId(rules) + 1);
        LinkOneNumbered(rules, LinkOne(rules, s, rule, path, FileOpen), rule, path, FileRead, MaxId(rules) + 1);
      }
    }
  }

  /** Distinct ids stay distinct through linking, as long as ids do not run out. */
  lemma LinkKeepsIdsDistinct(rules: seq<Rule>)
    requires DistinctIds(rules) && MaxId(rules) + 1 + 2 * |rules| <= U64_MAX
    ensures DistinctIds(Link(rules))
  {
    hide Provided, LinkFirst;
    MaxIdBounds(rules);
    LinkFirstNumbered(rules, |rules|);
    assert forall i :: 0 <= i < |rules| ==> rules[i] in rules;
  }

  // ---- nothing is added twice ----

  predicate Repeats(a: Rule, b: Rule) { a.subject == b.subject && a.obj == b.obj && a.action == b.action }

  /** No added rule repeats what a rule of the list, or another added one, speaks of. */
  predicate Once(rules: seq<Rule>, added: seq<Rule>) {
    && (forall i :: 0 <= i < |added| ==> !Provided(rules, added[i].subject, added[i].obj, added[i].action))
    && (forall i, j :: 0 <= i < j < |added| ==> !Repeats(added[i], added[j]))
  }

  lemma LinkOneOnce(rules: seq<Rule>, s: Linking, rule: Rule, path: string, action: Action)
    requires Once(rules, s.synthetic)
    ensures Once(rules, LinkOne(rules, s, rule, path, action).synthetic)
  {
    var obj := ExactFile(path);
    if !Provided(rules + s.synthetic, rule.subject, obj, action) {
      var added := Synthetic(s.nextId, rule, path, action);
      forall r | r in rules || r in s.synthetic ensures !Provides(r, rule.subject, obj, action) {
        assert r in rules + s.synthetic;
      }
      assert added.subject == rule.subject && added.obj == obj && added.action == action;
      forall i | 0 <= i < |s.synthetic| ensures !Repeats(s.synthetic[i], added) {
        assert s.synthetic[i] in s.synthetic;
      }
    }
  }

  lemma {:induction false} LinkFirstOnce(rules: seq<Rule>, n: nat)
    requires n <= |rules|
    ensures Once(rules, LinkFirst(rules, n).synthetic)
  {
    hide LinkOne, Once, ExecPath;
    if n == 0 {
      assert Once(rules, []) by { NothingAdded(rules); }
    } else {
      LinkFirstOnce(rules, n - 1);
      var s, rule := LinkFirst(rules, n - 1), rules[n - 1];
      if ExecPath(rule).Some? {
        var path := ExecPath(rule).value;
        LinkOneOnce(rules, s, rule, path, FileOpen);
        LinkOneOnce(rules, LinkOne(rules, s, rule, path, FileOpen), rule, path, FileRead);
      }
    }
  }

  lemma NothingAdded(rules: seq<Rule>)
    ensures Once(rules, [])
  {
  }

  /** What linking adds no rule of the list speaks of, and it adds nothing twice. */
  lemma LinkAddsOnce(rules: seq<Rule>)
    ensures Link(rules)[..|rules|] == rules && Once(rules, Link(rules)[|rules|..])
  {
    hide Once, LinkFirst;
    LinkFirstOnce(rules, |rules|);
    assert Link(rules)[|rules|..] == LinkFirst(rules, |rules|).synthetic;
  }
}
