/** When the order the hash maps choose shows in the compiled rules, told from the rules themselves. */
module Agreement {
  import opened Strings
  import opened PathPatterns
  import opened Ir
  import opened PatternRelation
  import opened Canonical
  import opened Dedup
  import opened Generalize
  import opened PrefixGeneralize
  import opened RuleSets
  import opened Optimizer
  import opened FixedPoint
  import opened FixedPointLimit
  import opened Pipeline
  import opened Realization

  /** The class a file rule has, or is given. */
  function ClassOf(k: Key): Option<PathPattern> {
    if !k.obj.File? || k.obj.file.pattern.Prefix? then None
    else if k.obj.file.pattern.ExactPath? then TryClassify(k.obj.file.pattern.path)
    else Some(k.obj.file.pattern.class_)
  }

  /** Two file rules of one subject, action and sensitivity but different verdicts that come into one class. */
  predicate Meets(k: Key, l: Key) {
    && k.subject == l.subject && k.action == l.action && k.verdict != l.verdict
    && ClassOf(k).Some? && ClassOf(k) == ClassOf(l) && k.obj.file.isSensitive == l.obj.file.isSensitive
  }

  /** A rule for all of "/" or "/proc/" says the same already. */
  predicate Covered(ks: set<Key>, k: Key) {
    exists p :: p in ks && SameScope(p, k) && p.obj.file.pattern in {Prefix("/"), Prefix(PROC)}
  }

  predicate SomeMeet(ks: set<Key>) {
    exists k, l :: k in ks && l in ks && Meets(k, l) && !Covered(ks, k) && !Covered(ks, l)
  }

  lemma ClassedKey(k: Key)
    requires ClassOf(k).Some?
    ensures var g := GenKey(k);
      && g.obj.File? && g.obj.file.pattern == Classified(ClassOf(k).value)
      && g.obj.file.isSensitive == k.obj.file.isSensitive
      && g.subject == k.subject && g.action == k.action && g.verdict == k.verdict && GroupOf(g) == None
  {
    hide TryClassify;
  }

  lemma KeyOfClass(k: Key)
    requires GenKey(k).obj.File? && GenKey(k).obj.file.pattern.Classified?
    ensures ClassOf(k) == Some(GenKey(k).obj.file.pattern.class_)
    ensures k.obj.file.isSensitive == GenKey(k).obj.file.isSensitive
    ensures k.subject == GenKey(k).subject && k.action == GenKey(k).action && k.verdict == GenKey(k).verdict
  {
    hide TryClassify;
  }

  /** Rules that meet carry one signature after classification, in a class rooted at "/proc/". */
  lemma MeetingClass(chosen: set<Key>, k: Key, l: Key)
    requires NoClash(chosen) && k in chosen && l in chosen && Meets(k, l)
    ensures GenKey(k).Sig() == GenKey(l).Sig() && GenKey(k) != GenKey(l)
    ensures GlobRoot(ClassOf(k).value.AsStr()) == PROC
  {
    hide NoClash, GlobRoot, PathPattern.AsStr, TryClassify, GroupOf;
    ClassedKey(k);
    ClassedKey(l);
    assert GenKey(k) in GenKeys(chosen) && GenKey(l) in GenKeys(chosen);
    ClashIsProcClass(chosen, GenKey(k), GenKey(l));
  }

  /** A covering rule stays and subsumes the class. */
  lemma CoveringSubsumes(cfg: PassConfig, chosen: set<Key>, k: Key, p: Key)
    requires p in chosen && SameScope(p, k) && p.obj.file.pattern in {Prefix("/"), Prefix(PROC)}
    requires ClassOf(k).Some? && GlobRoot(ClassOf(k).value.AsStr()) == PROC
    ensures GenKey(k) !in After(cfg, chosen)
  {
    hide GlobRoot, PathPattern.AsStr, TryClassify, Fires, RelationTo;
    ClassedKey(k);
    assert GenKey(p) == p && p in GenKeys(chosen) && GroupOf(p) == None;
    assert p in PrefixGenKeys(cfg, GenKeys(chosen));
    assert "/" <= PROC;
    SupersetIsPrefix(p.obj.file.pattern, GenKey(k).obj.file.pattern);
    assert Subsumes(p, GenKey(k));
  }

  /** A prefix over the whole class is one of the covering rules: none can be made where verdicts meet. */
  lemma SubsumerCovers(cfg: PassConfig, chosen: set<Key>, k: Key, l: Key, b: Key)
    requires CanonicalSet(chosen) && NoClash(chosen) && k in chosen && l in chosen && Meets(k, l)
    requires b in PrefixGenKeys(cfg, GenKeys(chosen)) && Subsumes(b, GenKey(k))
    ensures Covered(chosen, k)
  {
    hide GlobRoot, PathPattern.AsStr, TryClassify, RelationTo, ParentDir, CanonicalPrefix, CanonicalPath, NoClash,
      DirGeneralizable, LooksGenerated, Siblings, Leaves;
    MeetingClass(chosen, k, l);
    ClassedKey(k);
    ClassedKey(l);
    SupersetIsPrefix(b.obj.file.pattern, GenKey(k).obj.file.pattern);
    var d := b.obj.file.pattern.prefix;
    CollapsedSetCanonical(cfg, chosen);
    assert CanonKey(b) == b;
    CanonicalPrefixEnding(d);
    ShortDirs(d);
    var from := OriginOf(cfg, GenKeys(chosen), b);
    if Survives(cfg, GenKeys(chosen), b) {
      var o :| o in chosen && GenKey(o) == b;
      assert o == b && SameScope(o, k);
    } else {
      var g := GroupOf(from).value;
      NotTheRoot(cfg, chosen, from);
      OpposedDoesNotFire(cfg, chosen, l, g);
    }
  }

  lemma OpposedDoesNotFire(cfg: PassConfig, chosen: set<Key>, l: Key, g: Group)
    requires l in chosen && ClassOf(l).Some? && GlobRoot(ClassOf(l).value.AsStr()) == PROC
    requires g.subject == l.subject && g.verdict != l.verdict && g.dir == PROC
    ensures !Fires(cfg, GenKeys(chosen), g)
  {
    hide GlobRoot, PathPattern.AsStr, TryClassify, RelationTo, DirGeneralizable, LooksGenerated, Siblings, Leaves;
    ClassedKey(l);
    SupersetIsPrefix(Prefix(PROC), GenKey(l).obj.file.pattern);
    assert GenKey(l) in GenKeys(chosen);
    assert Opposes(GenKey(l), g.subject, g.verdict, g.dir);
  }

  lemma ShortDirs(d: string)
    requires EndsWithSlash(d) && d <= PROC
    ensures d == "/" || d == PROC
  {
    if |d| > 1 { DirsUpToProc(d); }
  }

  lemma NotTheRoot(cfg: PassConfig, chosen: set<Key>, from: Key)
    requires CanonicalSet(chosen) && from in GenKeys(chosen) && GroupOf(from).Some?
    ensures GroupOf(from).value.dir != "/"
  {
    hide ParentDir, CanonicalPath, TryClassify;
    var g := GroupOf(from).value;
    MemberFacts(from, g);
    UngeneralizedOrigin(chosen, from);
    assert CanonKey(from) == from;
    CanonicalExactHasName(from.obj.file.pattern.path);
    ParentDirSplits(from.obj.file.pattern.path);
  }

  lemma MeetingClashes(cfg: PassConfig, chosen: set<Key>)
    requires CanonicalSet(chosen) && NoClash(chosen) && SomeMeet(chosen)
    ensures !NoClash(After(cfg, chosen))
  {
    hide PrefixGenKeys, GenKeys, NoClash, Meets, Covered, CanonicalSet, Subsumes, GenKey;
    var k, l :| k in chosen && l in chosen && Meets(k, l) && !Covered(chosen, k) && !Covered(chosen, l);
    MeetsBack(k, l);
    StaysUncovered(cfg, chosen, k, l);
    StaysUncovered(cfg, chosen, l, k);
    MeetingClass(chosen, k, l);
    TwoClash(After(cfg, chosen), GenKey(k), GenKey(l));
  }

  lemma MeetsBack(k: Key, l: Key)
    requires Meets(k, l)
    ensures Meets(l, k)
  {
    hide TryClassify;
  }

  lemma TwoClash(ks: set<Key>, k: Key, l: Key)
    requires k in ks && l in ks && k.Sig() == l.Sig() && k != l
    ensures !NoClash(ks)
  {
  }

  lemma StaysUncovered(cfg: PassConfig, chosen: set<Key>, k: Key, l: Key)
    requires CanonicalSet(chosen) && NoClash(chosen) && k in chosen && l in chosen && Meets(k, l)
    requires !Covered(chosen, k)
    ensures GenKey(k) in After(cfg, chosen)
  {
    hide NoClash, Meets, Covered, CanonicalSet, Subsumes, GenKey, Fires, GroupOf;
    assert ClassOf(k).Some? by { MeetsHasClass(k, l); }
    ClassedKey(k);
    assert GenKey(k) in PrefixGenKeys(cfg, GenKeys(chosen));
    if b :| b in PrefixGenKeys(cfg, GenKeys(chosen)) && Subsumes(b, GenKey(k)) {
      SubsumerCovers(cfg, chosen, k, l, b);
    }
  }

  lemma MeetsHasClass(k: Key, l: Key)
    requires Meets(k, l)
    ensures ClassOf(k).Some?
  {
    hide TryClassify;
  }

  lemma ClashMeets(cfg: PassConfig, chosen: set<Key>)
    requires NoClash(chosen) && !NoClash(After(cfg, chosen))
    ensures SomeMeet(chosen)
  {
    hide PrefixGenKeys, NoClash, Covered, GenKey, Subsumes, GlobRoot, PathPattern.AsStr, ClassOf, Key.Sig;
    var k', l' := ClashingPair(After(cfg, chosen));
    ClashIsOld(cfg, GenKeys(chosen), k', l');
    ClashIsProcClass(chosen, k', l');
    var k :| k in chosen && GenKey(k) == k';
    var l :| l in chosen && GenKey(l) == l';
    SameSigMeets(k, l);
    if Covered(chosen, k) { CoveredIsGone(cfg, chosen, k); }
    if Covered(chosen, l) { CoveredIsGone(cfg, chosen, l); }
  }

  lemma SameSigMeets(k: Key, l: Key)
    requires GenKey(k).obj.File? && GenKey(k).obj.file.pattern.Classified?
    requires GenKey(k).Sig() == GenKey(l).Sig() && GenKey(k) != GenKey(l)
    ensures Meets(k, l) && ClassOf(k) == Some(GenKey(k).obj.file.pattern.class_) && ClassOf(l) == ClassOf(k)
  {
    hide GenKey;
    KeyOfClass(k);
    KeyOfClass(l);
  }

  lemma CoveredIsGone(cfg: PassConfig, chosen: set<Key>, k: Key)
    requires Covered(chosen, k) && ClassOf(k).Some? && GlobRoot(ClassOf(k).value.AsStr()) == PROC
    ensures GenKey(k) !in After(cfg, chosen)
  {
    hide After, GenKey, GlobRoot, PathPattern.AsStr, ClassOf;
    var p :| p in chosen && SameScope(p, k) && p.obj.file.pattern in {Prefix("/"), Prefix(PROC)};
    CoveringSubsumes(cfg, chosen, k, p);
  }

  // ---- one list ----

  lemma FirstKeysFacts(rules: seq<Rule>)
    ensures NoClash(FirstKeys(CanonRules(rules))) && CanonicalSet(FirstKeys(CanonRules(rules)))
    ensures Selection(CanonKeys(Keys(rules)), FirstKeys(CanonRules(rules)))
  {
    hide NoClash, CanonRules, CanonKeys, Selection, FirstKeys, IsDedup, CanonKey;
    CanonRefines(rules);
    var canonical := CanonRules(rules);
    var out := DedupWanted(canonical, {}) by { assert NoClash({}) by { EmptyNoClash(); } }
    DedupKeepsFirst(canonical, out);
    DedupSelects(canonical, out);
    SelectionWithin(Keys(canonical), Keys(out));
    CanonKeysCanonical(Keys(rules));
  }

  /** Hash-map order is invisible in the output for a list exactly when no two of its rules, the first of
      each signature taken canonically, bring opposite verdicts of one subject, action and sensitivity into
      one class, unless a rule of theirs for all of "/" or "/proc/" covers one of the two. The configuration
      plays no part. */
  lemma RunsAgreeUnlessRulesMeet(cfg: PassConfig, rules: seq<Rule>)
    ensures RunsAgree(cfg, rules) <==> !SomeMeet(FirstKeys(CanonRules(rules)))
  {
    hide RunsAgree, SomeMeet, FirstKeys, CanonRules, NoClash, PrefixGenKeys, GenKeys, CanonicalSet, Selection, CanonKeys;
    var chosen := FirstKeys(CanonRules(rules));
    FirstKeysFacts(rules);
    RunsAgreeExactlyWhen(cfg, rules);
    if SomeMeet(chosen) {
      MeetingClashes(cfg, chosen);
    } else if !NoClash(After(cfg, chosen)) {
      ClashMeets(cfg, chosen);
    }
  }

  // ---- all lists of one set ----

  /** All runs on all lists of one set of rules, whatever their order and duplicates, give the same set. */
  ghost predicate ListsAgree(cfg: PassConfig, ks: set<Key>) {
    forall a: Run, b: Run :: ValidRun(cfg, a) && ValidRun(cfg, b) && Keys(a.input) == ks && Keys(b.input) == ks ==>
      Keys(a.output) == Keys(b.output)
  }

  /** Any choice of one verdict per canonical signature is what some list's order makes. */
  lemma SomeListChooses(ks: set<Key>, chosen: set<Key>) returns (rules: seq<Rule>)
    requires Selection(CanonKeys(ks), chosen)
    ensures Keys(rules) == ks && FirstKeys(CanonRules(rules)) == chosen
  {
    hide CanonKey, CanonRules, IsDedup, FirstKeys, Selection, NoClash, CanonKeys;
    SelectionWithin(CanonKeys(ks), chosen);
    var first := RulesOf(set k | k in ks && CanonKey(k) in chosen);
    var last := RulesOf(set k | k in ks && CanonKey(k) !in chosen);
    rules := first + last;
    KeysOfBoth(first, last);
    assert Keys(rules) == ks;
    CanonRefines(rules);
    var canonical := CanonRules(rules);
    ChosenComeFirst(first, last, chosen);
    var out := FinalSelection(canonical, chosen);
    DedupKeepsFirst(canonical, out);
  }

  lemma KeysOfBoth(a: seq<Rule>, b: seq<Rule>)
    ensures Keys(a + b) == Keys(a) + Keys(b)
  {
    forall k | k in Keys(a) + Keys(b) ensures k in Keys(a + b) {
      var r :| (r in a || r in b) && r.ToKey() == k;
      assert r in a + b;
    }
  }

  lemma ChosenComeFirst(first: seq<Rule>, last: seq<Rule>, chosen: set<Key>)
    requires forall k :: k in Keys(first) ==> CanonKey(k) in chosen
    requires forall k :: k in Keys(last) ==> CanonKey(k) !in chosen
    requires NoClash(chosen)
    ensures WantedFirst(CanonRules(first + last), chosen)
  {
    hide CanonObject;
    var rules := first + last;
    var out := CanonRules(rules);
    forall i | 0 <= i < |out| ensures out[i].ToKey() == CanonKey(rules[i].ToKey()) {}
    forall i | 0 <= i < |out| ensures out[i].ToKey() in chosen <==> i < |first| {
      if i < |first| {
        assert rules[i] in first && rules[i].ToKey() in Keys(first);
      } else {
        assert rules[i] in last && rules[i].ToKey() in Keys(last);
      }
    }
    assert forall i :: 0 <= i < |out| ==> out[i].Sig() == out[i].ToKey().Sig();
  }

  /** However the verdicts that clash canonically are chosen, none meet and the same entries are left. */
  ghost predicate Settles(cfg: PassConfig, ks: set<Key>) {
    forall f: set<Key>, g: set<Key> :: Selection(CanonKeys(ks), f) && Selection(CanonKeys(ks), g) ==>
      !SomeMeet(f) && After(cfg, f) == After(cfg, g)
  }

  lemma RunGivesAfter(cfg: PassConfig, run: Run)
    requires ValidRun(cfg, run)
    ensures var chosen := FirstKeys(CanonRules(run.input));
      !SomeMeet(chosen) ==> Keys(run.output) == After(cfg, chosen)
  {
    hide ValidRun, SomeMeet, FirstKeys, CanonRules, NoClash, PrefixGenKeys, GenKeys, CanonicalSet, Selection, CanonKeys;
    var chosen := FirstKeys(CanonRules(run.input));
    FirstKeysFacts(run.input);
    if !SomeMeet(chosen) {
      if !NoClash(After(cfg, chosen)) {
        ClashMeets(cfg, chosen);
      }
      RunSelects(cfg, run);
      assert BeforeLastDedup(cfg, run.input) == After(cfg, chosen);
      SelectionOfNoClash(After(cfg, chosen), Keys(run.output));
    }
  }

  /** Over all lists of a set of rules, in any order and with any duplicates, the output is one set of rules
      exactly when the set settles. */
  lemma ListsAgreeWhenSettled(cfg: PassConfig, ks: set<Key>)
    ensures ListsAgree(cfg, ks) <==> Settles(cfg, ks)
  {
    hide ValidRun, SomeMeet, FirstKeys, CanonRules, After, Selection, CanonKeys, Keys;
    if Settles(cfg, ks) {
      forall a: Run, b: Run | ValidRun(cfg, a) && ValidRun(cfg, b) && Keys(a.input) == ks && Keys(b.input) == ks
        ensures Keys(a.output) == Keys(b.output)
      {
        FirstKeysFacts(a.input);
        FirstKeysFacts(b.input);
        RunGivesAfter(cfg, a);
        RunGivesAfter(cfg, b);
      }
    }
    if ListsAgree(cfg, ks) {
      forall f: set<Key>, g: set<Key> | Selection(CanonKeys(ks), f) && Selection(CanonKeys(ks), g)
        ensures !SomeMeet(f) && After(cfg, f) == After(cfg, g)
      {
        AgreementSettles(cfg, ks, f, g);
      }
    }
  }

  lemma AgreementSettles(cfg: PassConfig, ks: set<Key>, f: set<Key>, g: set<Key>)
    requires ListsAgree(cfg, ks) && Selection(CanonKeys(ks), f) && Selection(CanonKeys(ks), g)
    ensures !SomeMeet(f) && After(cfg, f) == After(cfg, g)
  {
    hide ValidRun, SomeMeet, FirstKeys, CanonRules, After, Selection, CanonKeys, Keys;
    var rf := SomeListChooses(ks, f);
    var rg := SomeListChooses(ks, g);
    var a := SomeRun(cfg, rf);
    var b := SomeRun(cfg, rg);
    RunsAgreeUnlessRulesMeet(cfg, rf);
    RunsAgreeUnlessRulesMeet(cfg, rg);
    assert RunsAgree(cfg, rf) && RunsAgree(cfg, rg);
    RunGivesAfter(cfg, a);
    RunGivesAfter(cfg, b);
  }

  /** Without canonical clashes that is: no two of the rules meet. */
  lemma ClashFreeListsAgree(cfg: PassConfig, ks: set<Key>)
    requires NoClash(CanonKeys(ks))
    ensures ListsAgree(cfg, ks) <==> !SomeMeet(CanonKeys(ks))
  {
    hide SomeMeet, After, Selection, CanonKeys, ListsAgree, NoClash;
    ListsAgreeWhenSettled(cfg, ks);
    SelectsItself(CanonKeys(ks));
    forall f: set<Key> | Selection(CanonKeys(ks), f) ensures f == CanonKeys(ks) {
      SelectionOfNoClash(CanonKeys(ks), f);
    }
  }
}
