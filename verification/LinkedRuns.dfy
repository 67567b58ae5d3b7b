/** When a compiled and linked policy is a fixed point of the compiler, told from the paths it executes. */
module LinkedRuns {
  import opened Strings
  import opened PathPatterns
  import opened Ir
  import opened Canonical
  import opened Generalize
  import opened PrefixGeneralize
  import opened RuleSets
  import opened FixedPoint
  import opened Pipeline
  import opened PipelineRuns
  import opened Linker
  import opened Realization

  // ---- what linking adds, on sets of rules ----

  function ExecOf(k: Key): Option<string> {
    if k.action == ProcExec && k.obj.Process? && k.obj.process.binary.BinaryPath? then Some(k.obj.process.binary.path)
    else None
  }

  predicate HasRule(ks: set<Key>, subject: Subject, obj: Object, action: Action) {
    exists l :: l in ks && l.subject == subject && l.obj == obj && l.action == action
  }

  /** The execution `e` calls for access `a` to its binary, and no rule speaks of it yet. */
  predicate Adds(ks: set<Key>, e: Key, a: Action) {
    && e in ks && ExecOf(e).Some? && (a == FileOpen || a == FileRead)
    && !HasRule(ks, e.subject, ExactFile(ExecOf(e).value), a)
  }

  function ImpliedKey(e: Key, a: Action): Key
    requires ExecOf(e).Some?
  {
    Key(e.subject, ExactFile(ExecOf(e).value), a, e.verdict)
  }

  function Added(ks: set<Key>): set<Key> {
    set e, a | e in ks && a in {FileOpen, FileRead} && Adds(ks, e, a) :: ImpliedKey(e, a)
  }

  lemma {:induction false} SyntheticIsMissing(rules: seq<Rule>, n: nat)
    requires n <= |rules|
    ensures forall r :: r in LinkFirst(rules, n).synthetic ==> !Provided(rules, r.subject, r.obj, r.action)
  {
    if n > 0 {
      hide Provided;
      SyntheticIsMissing(rules, n - 1);
      var s, rule := LinkFirst(rules, n - 1), rules[n - 1];
      if ExecPath(rule).Some? {
        var path := ExecPath(rule).value;
        LinkOneIsMissing(rules, s, rule, path, FileOpen);
        LinkOneIsMissing(rules, LinkOne(rules, s, rule, path, FileOpen), rule, path, FileRead);
      }
    }
  }

  lemma LinkOneIsMissing(rules: seq<Rule>, s: Linking, rule: Rule, path: string, a: Action)
    requires forall r :: r in s.synthetic ==> !Provided(rules, r.subject, r.obj, r.action)
    ensures forall r :: r in LinkOne(rules, s, rule, path, a).synthetic ==> !Provided(rules, r.subject, r.obj, r.action)
  {
    hide Provided;
    if !Provided(rules + s.synthetic, rule.subject, ExactFile(path), a) {
      MissingBefore(rules, s.synthetic, rule.subject, ExactFile(path), a);
    }
  }

  lemma MissingBefore(rules: seq<Rule>, more: seq<Rule>, subject: Subject, obj: Object, a: Action)
    requires !Provided(rules + more, subject, obj, a)
    ensures !Provided(rules, subject, obj, a)
  {
    assert forall r :: r in rules ==> r in rules + more;
  }

  lemma ProvidedIsHas(rules: seq<Rule>, subject: Subject, obj: Object, a: Action)
    ensures Provided(rules, subject, obj, a) <==> HasRule(Keys(rules), subject, obj, a)
  {
    if r :| r in rules && Provides(r, subject, obj, a) {
      assert r.ToKey() in Keys(rules);
    }
    if l :| l in Keys(rules) && l.subject == subject && l.obj == obj && l.action == a {
      var i := KeysHasIndex(rules, l);
      assert rules[i] in rules && Provides(rules[i], subject, obj, a);
    }
  }

  lemma SyntheticIsAdded(rules: seq<Rule>, r: Rule)
    requires r in LinkFirst(rules, |rules|).synthetic
    ensures r.ToKey() in Added(Keys(rules))
  {
    hide LinkFirst, Provided, HasRule, Keys;
    LinkFirstJustified(rules, |rules|);
    SyntheticIsMissing(rules, |rules|);
    var e :| e in rules && ExecPath(e).Some? && r.action in Implied() && r.subject == e.subject
      && r.verdict == e.verdict && r.obj == ExactFile(ExecPath(e).value);
    ProvidedIsHas(rules, r.subject, r.obj, r.action);
    KeyListed(rules, e);
    assert ExecOf(e.ToKey()) == ExecPath(e);
    assert Adds(Keys(rules), e.ToKey(), r.action);
    assert r.ToKey() == ImpliedKey(e.ToKey(), r.action);
  }

  lemma KeyListed(rules: seq<Rule>, r: Rule)
    requires r in rules
    ensures r.ToKey() in Keys(rules)
  {
  }

  lemma AddedIsSynthetic(rules: seq<Rule>, e: Key, a: Action)
    requires NoClash(Keys(rules)) && Adds(Keys(rules), e, a)
    ensures ImpliedKey(e, a) in Keys(Link(rules))
  {
    hide Link, HasRule, Keys, NoClash;
    LinkCloses(rules);
    var i := KeysHasIndex(rules, e);
    var exec, path := rules[i], ExecOf(e).value;
    assert exec in Link(rules) && ExecPath(exec) == Some(path) && Implied()[0] == FileOpen && Implied()[1] == FileRead;
    assert a in Implied();
    assert Provided(Link(rules), e.subject, ExactFile(path), a);
    var r :| r in Link(rules) && Provides(r, e.subject, ExactFile(path), a);
    ProvidedIsHas(rules, e.subject, ExactFile(path), a);
    assert r !in rules;
    var f :| f in rules && ExecPath(f).Some? && r.subject == f.subject && r.verdict == f.verdict &&
             r.obj == ExactFile(ExecPath(f).value);
    KeyListed(rules, f);
    SameExec(Keys(rules), e, f.ToKey());
    assert r.ToKey() == ImpliedKey(e, a);
    KeyListed(Link(rules), r);
  }

  lemma SameExec(ks: set<Key>, e: Key, f: Key)
    requires NoClash(ks) && e in ks && f in ks && e.subject == f.subject && ExecOf(e).Some? && ExecOf(e) == ExecOf(f)
    ensures e == f
  {
    assert e.Sig() == f.Sig();
  }

  /** Linking a list adds to its set exactly the opens and reads its executions call for. */
  lemma LinkedKeysAre(rules: seq<Rule>)
    requires NoClash(Keys(rules))
    ensures Keys(Link(rules)) == Keys(rules) + Added(Keys(rules))
  {
    hide Link, HasRule, NoClash;
    var own := Keys(rules);
    forall k | k in Keys(Link(rules)) ensures k in own + Added(own) {
      var i := KeysHasIndex(Link(rules), k);
      if Link(rules)[i] in rules {
        KeyListed(rules, Link(rules)[i]);
      } else {
        LinkedIsSynthetic(rules, Link(rules)[i]);
        SyntheticIsAdded(rules, Link(rules)[i]);
      }
    }
    forall k | k in own + Added(own) ensures k in Keys(Link(rules)) {
      if k in own {
        LinkedAreExact(rules);
      } else {
        var e, a :| e in own && a in {FileOpen, FileRead} && Adds(own, e, a) && k == ImpliedKey(e, a);
        AddedIsSynthetic(rules, e, a);
      }
    }
  }

  lemma LinkedIsSynthetic(rules: seq<Rule>, r: Rule)
    requires r in Link(rules) && r !in rules
    ensures r in LinkFirst(rules, |rules|).synthetic
  {
  }

  lemma LinkedNoClash(own: set<Key>)
    requires NoClash(own)
    ensures NoClash(own + Added(own))
  {
    forall k, l | k in own + Added(own) && l in own + Added(own) && k.Sig() == l.Sig() ensures k == l {
      if k in Added(own) && l in Added(own) {
        var e, a :| e in own && a in {FileOpen, FileRead} && Adds(own, e, a) && k == ImpliedKey(e, a);
        var f, b :| f in own && b in {FileOpen, FileRead} && Adds(own, f, b) && l == ImpliedKey(f, b);
        SameExec(own, e, f);
      }
    }
  }

  lemma AddedIsExact(own: set<Key>, k: Key)
    requires k in Added(own)
    ensures IsPlainExact(k) && k !in own
  {
    var e, a :| e in own && a in {FileOpen, FileRead} && Adds(own, e, a) && k == ImpliedKey(e, a);
  }

  // ---- when every run gives the linked policy back ----

  /** The passes leave the access added for an executed path alone: the path is canonical and unclassified,
      no prefix rule of the subject, access and verdict is over it, and its directory's rules, those added
      for executed paths included, do not collapse. */
  predicate ExecPathStays(cfg: PassConfig, own: set<Key>, e: Key, a: Action)
    requires ExecOf(e).Some?
  {
    LinkedPathStays(cfg, own, own + Added(own), ImpliedKey(e, a))
  }

  ghost predicate LinkedComesBack(cfg: PassConfig, rules: seq<Rule>) {
    forall second: Run :: ValidRun(cfg, second) && second.input == Link(rules) ==>
      Keys(second.output) == Keys(Link(rules))
  }

  /** A set some run gives back unchanged is one the passes leave alone. */
  lemma ComesBackUntouched(cfg: PassConfig, ks: set<Key>, chosen: set<Key>)
    requires PipelineStep(cfg, ks, chosen, ks)
    ensures NoClash(ks) && Untouched(cfg, ks)
  {
    hide NoClash, CanonKey, GenKey, PrefixGenKeys, SubsumedIn, Untouched;
    CanonKeysCanonical(ks);
    SelectionWithin(CanonKeys(ks), chosen);
    CollapsedSetCanonical(cfg, chosen);
    SelectionWithin(After(cfg, chosen), ks);
    forall k | k in ks ensures CanonKey(k) == k && GenKey(k) == k {
      ExactSurvivorsUnclassified(cfg, chosen, k);
    }
    assert CanonKeys(ks) == ks && GenKeys(ks) == ks;
    SelectionOfNoClash(ks, chosen);
    SettledIsFixed(cfg, ks, ks);
  }

  lemma OutputIsUntouched(cfg: PassConfig, run: Run)
    requires ValidRun(cfg, run) && (ClashFree(run.input) || !DirGeneralizable(cfg, PROC))
    ensures NoClash(Keys(run.output)) && Untouched(cfg, Keys(run.output))
  {
    hide ValidRun, NoClash, GenKeys, CanonKeys, PrefixGenKeys, SubsumeKeys, Untouched, DirGeneralizable, Keys;
    RunRefines(cfg, run);
    var chosen, output := Keys(run.deduped), Keys(run.output);
    SelectionWithin(CanonKeys(Keys(run.input)), chosen);
    SelectionWithin(After(cfg, chosen), output);
    CanonKeysCanonical(Keys(run.input));
    if ClashFree(run.input) {
      OutputUntouched(cfg, Keys(run.input), chosen, output);
    } else {
      SettledIsFixed(cfg, chosen, output);
    }
  }

  /** Compiling the linked policy again gives it back in every run exactly when each path it executes and
      has no rule for stays where the linker put it. */
  lemma LinkedComesBackExactlyWhen(cfg: PassConfig, run: Run)
    requires ValidRun(cfg, run) && (ClashFree(run.input) || !DirGeneralizable(cfg, PROC))
    ensures var own := Keys(run.output);
      LinkedComesBack(cfg, run.output) <==> forall e, a :: Adds(own, e, a) ==> ExecPathStays(cfg, own, e, a)
  {
    hide ValidRun, NoClash, GenKeys, CanonKeys, PrefixGenKeys, SubsumeKeys, Untouched, DirGeneralizable, Keys, Link,
      LinkedPathStays, Adds, PipelineStep, ExecOf, IsPlainExact, PipelineKeys;
    var own := Keys(run.output);
    var linked := own + Added(own);
    OutputIsUntouched(cfg, run);
    LinkedKeysAre(run.output);
    forall k | k in Added(own) ensures IsPlainExact(k) { AddedIsExact(own, k); }
    AddedStay(cfg, own, linked);
    StayingPaths(cfg, own);
    if Untouched(cfg, linked) {
      LinkedNoClash(own);
      forall second: Run | ValidRun(cfg, second) && second.input == Link(run.output)
        ensures Keys(second.output) == linked
      {
        UntouchedComesBack(cfg, second, linked);
      }
    }
    if LinkedComesBack(cfg, run.output) {
      var second := SomeRun(cfg, Link(run.output));
      RunRefines(cfg, second);
      ComesBackUntouched(cfg, linked, Keys(second.deduped));
    }
  }

  lemma StayingPaths(cfg: PassConfig, own: set<Key>)
    requires forall k :: k in Added(own) ==> IsPlainExact(k)
    ensures (forall k :: k in own + Added(own) - own ==> IsPlainExact(k) && LinkedPathStays(cfg, own, own + Added(own), k)) <==>
            (forall e, a :: Adds(own, e, a) ==> ExecPathStays(cfg, own, e, a))
  {
    hide LinkedPathStays, HasRule;
    if forall k :: k in own + Added(own) - own ==> IsPlainExact(k) && LinkedPathStays(cfg, own, own + Added(own), k) {
      forall e, a | Adds(own, e, a) ensures ExecPathStays(cfg, own, e, a) {
        assert ImpliedKey(e, a) in Added(own);
        AddedIsExact(own, ImpliedKey(e, a));
      }
    }
    if forall e, a :: Adds(own, e, a) ==> ExecPathStays(cfg, own, e, a) {
      forall k | k in Added(own) ensures LinkedPathStays(cfg, own, own + Added(own), k) {
        var e, a :| e in own && a in {FileOpen, FileRead} && Adds(own, e, a) && k == ImpliedKey(e, a);
        assert ExecPathStays(cfg, own, e, a);
      }
    }
  }

  lemma UntouchedComesBack(cfg: PassConfig, second: Run, linked: set<Key>)
    requires ValidRun(cfg, second) && Keys(second.input) == linked && Untouched(cfg, linked) && NoClash(linked)
    ensures Keys(second.output) == linked
  {
    hide ValidRun, NoClash, GenKeys, CanonKeys, PrefixGenKeys, SubsumeKeys, Untouched, Keys, PipelineStep;
    UntouchedIsFixed(cfg, linked);
    RunRefines(cfg, second);
    OutputIsAFunction(cfg, linked, Keys(second.deduped), Keys(second.output));
  }
}
