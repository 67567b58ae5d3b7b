/** The pipeline as a map on rule sets: confluence, coverage end to end, and re-running it. */
module FixedPoint {
  import opened Strings
  import opened PathPatterns
  import opened Ir
  import opened PatternRelation
  import opened Canonical
  import opened Generalize
  import opened PrefixGeneralize
  import opened RuleSets
  import opened Optimizer

  // ---- clashes: entries that differ only in verdict ----

  lemma NoClashSubset(small: set<Key>, big: set<Key>)
    requires small <= big && NoClash(big)
    ensures NoClash(small)
  {
  }

  lemma NoClashBeforeClassify(ks: set<Key>)
    requires NoClash(GenKeys(ks))
    ensures NoClash(ks)
  {
    forall k, l | k in ks && l in ks && k.Sig() == l.Sig() ensures k == l {
      assert GenKey(k) in GenKeys(ks) && GenKey(l) in GenKeys(ks);
      assert GenKey(k).Sig() == GenKey(l).Sig();
    }
  }

  /** Entries that meet on one object and disagree are never separated. */
  lemma SameObjectNotSeparated(a: Key, b: Key)
    requires a.Sig() == b.Sig() && a.obj.File? && Separated(a, b)
    ensures a == b
  {
  }

  /** A clash after the collapse was already there before it. */
  lemma ClashIsOld(cfg: PassConfig, ks: set<Key>, k: Key, l: Key)
    requires k in PrefixGenKeys(cfg, ks) && l in PrefixGenKeys(cfg, ks) && k.Sig() == l.Sig() && k != l
    ensures k in ks && l in ks
  {
    hide Collapses, Separated, GroupOf;
    var fk := OriginOf(cfg, ks, k);
    var fl := OriginOf(cfg, ks, l);
    if CollapsedFrom(cfg, ks, k, fk) {
      SynthesizedSeparated(cfg, ks, k, fk, l);
      SameObjectNotSeparated(k, l);
    } else if CollapsedFrom(cfg, ks, l, fl) {
      SynthesizedSeparated(cfg, ks, l, fl, k);
      SameObjectNotSeparated(l, k);
    }
  }

  lemma CollapseKeepsNoClash(cfg: PassConfig, ks: set<Key>)
    requires NoClash(ks)
    ensures NoClash(PrefixGenKeys(cfg, ks))
  {
    hide Collapses;
    forall k, l | k in PrefixGenKeys(cfg, ks) && l in PrefixGenKeys(cfg, ks) && k.Sig() == l.Sig()
      ensures k == l
    {
      if k != l { ClashIsOld(cfg, ks, k, l); }
    }
  }

  /** Classification is the only pass that can create a clash, and only on a "/proc/"-rooted class. */
  lemma ClashIsProcClass(chosen: set<Key>, k: Key, l: Key)
    requires NoClash(chosen) && k in GenKeys(chosen) && l in GenKeys(chosen) && k.Sig() == l.Sig() && k != l
    ensures k.obj.File? && k.obj.file.pattern.Classified?
    ensures GlobRoot(k.obj.file.pattern.class_.AsStr()) == PROC
  {
    hide GlobRoot, PathPattern.AsStr, TryClassify;
    var ok :| ok in chosen && GenKey(ok) == k;
    var ol :| ol in chosen && GenKey(ol) == l;
    if ok != k {
      TryClassifyRoot(ok.obj.file.pattern.path);
    } else if ol != l {
      TryClassifyRoot(ol.obj.file.pattern.path);
    }
  }

  // ---- confluence ----

  /** The pipeline as a function of the input set, for inputs without clashes. */
  function PipelineKeys(cfg: PassConfig, input: set<Key>): set<Key> {
    SubsumeKeys(PrefixGenKeys(cfg, GenKeys(CanonKeys(input))))
  }

  /** When canonicalization and classification bring no two verdicts onto one signature, the output
      set is a function of the input set: order, duplicates and hash-map order cannot matter. */
  lemma OutputIsAFunction(cfg: PassConfig, input: set<Key>, chosen: set<Key>, output: set<Key>)
    requires PipelineStep(cfg, input, chosen, output)
    requires NoClash(GenKeys(CanonKeys(input)))
    ensures chosen == CanonKeys(input) && output == PipelineKeys(cfg, input)
  {
    hide CanonKey, GenKey, Collapses, SubsumedIn;
    NoClashBeforeClassify(CanonKeys(input));
    SelectionOfNoClash(CanonKeys(input), chosen);
    CollapseKeepsNoClash(cfg, GenKeys(chosen));
    NoClashSubset(PipelineKeys(cfg, input), PrefixGenKeys(cfg, GenKeys(chosen)));
    SelectionOfNoClash(PipelineKeys(cfg, input), output);
  }

  /** One verdict per subject is enough for that. */
  predicate OneVerdictPerSubject(ks: set<Key>) {
    forall k, l :: k in ks && l in ks && k.subject == l.subject ==> k.verdict == l.verdict
  }

  lemma OneVerdictNoClash(input: set<Key>)
    requires OneVerdictPerSubject(input)
    ensures NoClash(GenKeys(CanonKeys(input)))
  {
    hide CanonObject, GenObject;
    forall k, l | k in GenKeys(CanonKeys(input)) && l in GenKeys(CanonKeys(input)) && k.Sig() == l.Sig()
      ensures k == l
    {
      var k' :| k' in CanonKeys(input) && GenKey(k') == k;
      var l' :| l' in CanonKeys(input) && GenKey(l') == l;
      var k'' :| k'' in input && CanonKey(k'') == k';
      var l'' :| l'' in input && CanonKey(l'') == l';
      assert k''.verdict == l''.verdict;
    }
  }

  // ---- coverage and bounded widening, end to end ----

  /** No path an input rule matched (once canonicalized) is lost, in its own scope. */
  lemma PipelineCovers(
    m: Meaning, cfg: PassConfig, input: set<Key>, chosen: set<Key>, output: set<Key>, scope: Key, path: string)
    requires PipelineStep(cfg, input, chosen, output)
    requires NoClash(GenKeys(CanonKeys(input)))
    requires Rooted(m) && Classifies(m)
    requires Grants(m, CanonKeys(input), scope, path)
    ensures Grants(m, output, scope, path)
  {
    hide CanonKey, GenKey, Collapses, Grants;
    OutputIsAFunction(cfg, input, chosen, output);
    var canon := CanonKeys(input);
    ClassifyCovers(m, canon, scope, path);
    CollapseCovers(m, cfg, GenKeys(canon), scope, path);
    SubsumptionExact(m, PrefixGenKeys(cfg, GenKeys(canon)), scope, path);
  }

  /** Nothing else is matched except through a class some input path was filed under, or under a
      directory with enough guarded siblings. Holds for every input, clashing or not. */
  lemma PipelineWidensOnlyAsJustified(
    cfg: PassConfig, input: set<Key>, chosen: set<Key>, output: set<Key>, k: Key)
    requires PipelineStep(cfg, input, chosen, output) && k in output && k.obj.File?
    ensures k in CanonKeys(input) || WidenedByClass(CanonKeys(input), k) || WidenedByPrefix(cfg, CanonKeys(input), k)
  {
    hide CanonKey, GenKey, Collapses, SubsumedIn;
    WideningBounded(cfg, chosen, k);
    if WidenedByPrefix(cfg, chosen, k) {
      var sibs :| JustifiedBy(cfg, chosen, k, sibs);
      WiderJustification(cfg, chosen, CanonKeys(input), k, sibs);
    }
  }

  lemma WiderJustification(cfg: PassConfig, small: set<Key>, big: set<Key>, k: Key, sibs: set<Key>)
    requires small <= big && JustifiedBy(cfg, small, k, sibs)
    ensures JustifiedBy(cfg, big, k, sibs)
  {
  }

  // ---- the fixed point ----

  lemma CollapsedSetCanonical(cfg: PassConfig, chosen: set<Key>)
    requires CanonicalSet(chosen)
    ensures CanonicalSet(PrefixGenKeys(cfg, GenKeys(chosen)))
  {
    hide Fires;
    forall k | k in PrefixGenKeys(cfg, GenKeys(chosen)) ensures CanonKey(k) == k {
      var from := OriginOf(cfg, GenKeys(chosen), k);
      if Survives(cfg, GenKeys(chosen), k) {
        var o :| o in chosen && GenKey(o) == k;
      } else {
        MemberFacts(from, GroupOf(from).value);
        UngeneralizedOrigin(chosen, from);
        ParentDirCanonical(from.obj.file.pattern.path);
      }
    }
  }

  lemma CanonKeysCanonical(input: set<Key>)
    ensures CanonicalSet(CanonKeys(input))
  {
    forall k | k in CanonKeys(input) ensures CanonKey(k) == k {
      var o :| o in input && CanonKey(o) == k;
      CanonKeyIdempotent(o);
    }
  }

  /** Exact entries that survive the collapse are unclassified. */
  lemma ExactSurvivorsUnclassified(cfg: PassConfig, chosen: set<Key>, k: Key)
    requires k in PrefixGenKeys(cfg, GenKeys(chosen))
    ensures GenKey(k) == k
    ensures IsExact(k) ==> k in chosen && Survives(cfg, GenKeys(chosen), k)
  {
    hide Fires, TryClassify;
    var from := OriginOf(cfg, GenKeys(chosen), k);
    if Survives(cfg, GenKeys(chosen), k) {
      var o :| o in chosen && GenKey(o) == k;
    }
  }

  /** The state of one run, as the second run sees it. */
  ghost predicate Settled(cfg: PassConfig, chosen: set<Key>, output: set<Key>) {
    && CanonicalSet(chosen) && NoClash(chosen)
    && Selection(SubsumeKeys(PrefixGenKeys(cfg, GenKeys(chosen))), output)
  }

  /** Siblings are subsumed all or none: if one is kept, so is every other. */
  lemma SiblingsStayTogether(cfg: PassConfig, chosen: set<Key>, output: set<Key>, k: Key, s: Key, g: Group)
    requires Settled(cfg, chosen, output)
    requires k in output && GroupOf(k) == Some(g)
    requires s in GenKeys(chosen) && GroupOf(s) == Some(g)
    ensures s in output
  {
    hide Fires, CanonObject, TryClassify, RelationTo, ParentDir;
    var collapsed := PrefixGenKeys(cfg, GenKeys(chosen));
    MemberFacts(k, g);
    MemberFacts(s, g);
    ExactSurvivorsUnclassified(cfg, chosen, k);
    assert s in collapsed;
    ExactSurvivorsUnclassified(cfg, chosen, s);
    if SubsumedIn(collapsed, s) {
      var b :| b in collapsed && Subsumes(b, s);
      SubsumerOfSibling(cfg, chosen, b, s, k, g);
    }
    var e :| e in output && e.Sig() == s.Sig();
    ExactSurvivorsUnclassified(cfg, chosen, e);
  }

  lemma SubsumerOfSibling(cfg: PassConfig, chosen: set<Key>, b: Key, s: Key, k: Key, g: Group)
    requires CanonicalSet(chosen) && b in PrefixGenKeys(cfg, GenKeys(chosen)) && Subsumes(b, s)
    requires GroupOf(s) == Some(g) && GroupOf(k) == Some(g) && CanonKey(s) == s && CanonKey(k) == k
    ensures Subsumes(b, k)
  {
    hide Fires, PrefixGenKeys, GenKeys, ParentDir, CanonicalPath, CanonicalPrefix, RelationTo, TryClassify;
    CollapsedSetCanonical(cfg, chosen);
    assert CanonKey(b) == b;
    SubsumesFacts(b, s);
    var d := b.obj.file.pattern.prefix;
    CanonicalPrefixEnding(d);
    CanonicalExactHasName(s.obj.file.pattern.path);
    PrefixOfParent(d, s.obj.file.pattern.path);
    GroupDirIsPrefix(k, g);
    SupersetIsPrefix(b.obj.file.pattern, k.obj.file.pattern);
  }

  /** An entry that blocked a directory before the collapse is represented after it. */
  lemma BlockerAfterCollapse(cfg: PassConfig, ks: set<Key>, o: Key, subject: Subject, verdict: Verdict, dir: string)
    returns (o': Key)
    requires o in ks && Opposes(o, subject, verdict, dir) && EndsWithSlash(dir)
    requires IsExact(o) && ParentDir(o.obj.file.pattern.path).Some? ==> !EndsWithSlash(o.obj.file.pattern.path)
    ensures o' in PrefixGenKeys(cfg, ks) && Opposes(o', subject, verdict, dir)
  {
    hide Fires, ParentDir;
    if Collapses(cfg, ks, o) {
      var g := GroupOf(o).value;
      o' := PrefixKey(g);
      MemberFacts(o, g);
      PrefixOfParent(dir, o.obj.file.pattern.path);
    } else {
      o' := o;
    }
  }

  /** ... and after subsumption. */
  lemma BlockerAfterSubsumption(ks: set<Key>, o: Key, subject: Subject, verdict: Verdict, dir: string)
    returns (o': Key)
    requires o in ks && Opposes(o, subject, verdict, dir)
    ensures o' in SubsumeKeys(ks) && Opposes(o', subject, verdict, dir)
  {
    if SubsumedIn(ks, o) {
      var b :| b in ks && Subsumes(b, o);
      var s := SurvivingSubsumer(ks, o, b);
      o' := s;
      SubsumerOpposes(s, o, subject, verdict, dir);
    } else {
      o' := o;
    }
  }

  lemma SubsumerOpposes(b: Key, o: Key, subject: Subject, verdict: Verdict, dir: string)
    requires Subsumes(b, o) && Opposes(o, subject, verdict, dir)
    ensures Opposes(b, subject, verdict, dir)
  {
    hide RelationTo;
    if RelationTo(Prefix(dir), b.obj.file.pattern) == Disjoint {
      DisjointInherited(dir, b.obj.file.pattern, o.obj.file.pattern);
    }
  }

  lemma ProcClassTouches(dir: string, c: PathPattern)
    requires GlobRoot(c.AsStr()) == PROC && RelationTo(Prefix(dir), Classified(c)) != Disjoint
    ensures PROC <= dir || dir <= PROC
  {
    hide GlobRoot, PathPattern.AsStr;
  }

  /** The directory of an output path touches a "/proc/" class only when it is "/proc/". */
  lemma ProcClassBlocksOnlyProc(cfg: PassConfig, chosen: set<Key>, output: set<Key>, k: Key, g: Group, c: PathPattern)
    requires Settled(cfg, chosen, output) && k in output && GroupOf(k) == Some(g)
    requires GlobRoot(c.AsStr()) == PROC && RelationTo(Prefix(g.dir), Classified(c)) != Disjoint
    ensures g.dir == PROC
  {
    hide Fires, TryClassify, ParentDir, GlobRoot, PathPattern.AsStr, RelationTo, CanonicalPath, Settled;
    MemberFacts(k, g);
    OutputExactWasInput(cfg, chosen, output, k);
    OutputUnclassified(cfg, chosen, output, k);
    CanonicalExactHasName(k.obj.file.pattern.path);
    ProcClassTouches(g.dir, c);
    UnclassifiedNearProc(k.obj.file.pattern.path);
  }

  lemma OutputUnclassified(cfg: PassConfig, chosen: set<Key>, output: set<Key>, k: Key)
    requires Settled(cfg, chosen, output) && k in output && IsExact(k)
    ensures TryClassify(k.obj.file.pattern.path).None?
  {
    hide Fires, TryClassify, CanonObject;
    ExactSurvivorsUnclassified(cfg, chosen, k);
  }

  /** ... and after the last selection, unless the directory is "/proc/" itself and verdicts clash. */
  lemma BlockerSelected(cfg: PassConfig, chosen: set<Key>, output: set<Key>, o: Key, k: Key, g: Group)
    returns (o': Key)
    requires Settled(cfg, chosen, output)
    requires NoClash(GenKeys(chosen)) || g.dir != PROC
    requires k in output && GroupOf(k) == Some(g)
    requires o in SubsumeKeys(PrefixGenKeys(cfg, GenKeys(chosen))) && Opposes(o, g.subject, g.verdict, g.dir)
    ensures o' in output && Opposes(o', g.subject, g.verdict, g.dir)
  {
    hide Collapses, CanonObject, GenObject, GroupOf, RelationTo, GlobRoot, PathPattern.AsStr;
    o' :| o' in output && o'.Sig() == o.Sig();
    if o' != o {
      ClashIsOld(cfg, GenKeys(chosen), o', o);
      ClashIsProcClass(chosen, o, o');
      ProcClassBlocksOnlyProc(cfg, chosen, output, k, g, o.obj.file.pattern.class_);
    }
  }

  /** Nothing in the output of a run can collapse again. */
  lemma NoSecondCollapse(cfg: PassConfig, chosen: set<Key>, output: set<Key>, k: Key)
    requires Settled(cfg, chosen, output) && k in output
    requires NoClash(GenKeys(chosen)) || !DirGeneralizable(cfg, PROC)
    ensures !Collapses(cfg, output, k)
  {
    hide Fires, Settled, NoClash, DirGeneralizable;
    if GroupOf(k).Some? {
      GroupStaysBlocked(cfg, chosen, output, k, GroupOf(k).value);
    }
  }

  lemma OutputExactWasInput(cfg: PassConfig, chosen: set<Key>, output: set<Key>, s: Key)
    requires Settled(cfg, chosen, output) && s in output && IsExact(s)
    ensures s in GenKeys(chosen) && CanonKey(s) == s && !Collapses(cfg, GenKeys(chosen), s)
  {
    hide Collapses, CanonObject;
    ExactSurvivorsUnclassified(cfg, chosen, s);
  }

  lemma SameSiblings(cfg: PassConfig, chosen: set<Key>, output: set<Key>, k: Key, g: Group)
    requires Settled(cfg, chosen, output) && k in output && GroupOf(k) == Some(g)
    ensures Siblings(output, g) == Siblings(GenKeys(chosen), g)
    ensures Leaves(output, g) == Leaves(GenKeys(chosen), g)
  {
    hide GroupOf, Collapses, CanonKey, Leaf, GenKeys, Settled;
    forall s | s in output && GroupOf(s) == Some(g) ensures s in GenKeys(chosen) {
      MemberFacts(s, g);
      OutputExactWasInput(cfg, chosen, output, s);
    }
    forall s | s in GenKeys(chosen) && GroupOf(s) == Some(g) ensures s in output {
      SiblingsStayTogether(cfg, chosen, output, k, s, g);
    }
  }

  lemma GroupStaysBlocked(cfg: PassConfig, chosen: set<Key>, output: set<Key>, k: Key, g: Group)
    requires Settled(cfg, chosen, output) && k in output && GroupOf(k) == Some(g)
    requires NoClash(GenKeys(chosen)) || !DirGeneralizable(cfg, PROC)
    ensures !Fires(cfg, output, g)
  {
    hide GroupOf, CanonKey, Opposes, Settled, LooksGenerated, DirGeneralizable, Siblings, Leaves, GenKeys;
    MemberFacts(k, g);
    OutputExactWasInput(cfg, chosen, output, k);
    SameSiblings(cfg, chosen, output, k, g);
    assert !Fires(cfg, GenKeys(chosen), g);
    if exists o :: o in GenKeys(chosen) && Opposes(o, g.subject, g.verdict, g.dir) {
      var o :| o in GenKeys(chosen) && Opposes(o, g.subject, g.verdict, g.dir);
      if DirGeneralizable(cfg, g.dir) { BlockerPersists(cfg, chosen, output, k, g, o); }
    }
  }

  lemma BlockerPersists(cfg: PassConfig, chosen: set<Key>, output: set<Key>, k: Key, g: Group, o: Key)
    requires Settled(cfg, chosen, output) && k in output && GroupOf(k) == Some(g)
    requires NoClash(GenKeys(chosen)) || g.dir != PROC
    requires o in GenKeys(chosen) && Opposes(o, g.subject, g.verdict, g.dir)
    ensures exists o' :: o' in output && Opposes(o', g.subject, g.verdict, g.dir)
  {
    hide Collapses, Opposes, ParentDir, TryClassify, CanonicalPath;
    MemberFacts(k, g);
    OutputExactWasInput(cfg, chosen, output, k);
    DirShape(k, g);
    if IsExact(o) {
      UngeneralizedOrigin(chosen, o);
      if ParentDir(o.obj.file.pattern.path).Some? { CanonicalExactHasName(o.obj.file.pattern.path); }
    }
    var o1 := BlockerAfterCollapse(cfg, GenKeys(chosen), o, g.subject, g.verdict, g.dir);
    var o2 := BlockerAfterSubsumption(PrefixGenKeys(cfg, GenKeys(chosen)), o1, g.subject, g.verdict, g.dir);
    var o3 := BlockerSelected(cfg, chosen, output, o2, k, g);
  }

  lemma DirShape(k: Key, g: Group)
    requires GroupOf(k) == Some(g) && CanonKey(k) == k
    ensures EndsWithSlash(g.dir)
  {
    CanonicalExactHasName(k.obj.file.pattern.path);
    ParentDirSplits(k.obj.file.pattern.path);
  }

  /** Each pass leaves each entry of the set alone. */
  predicate Untouched(cfg: PassConfig, ks: set<Key>) {
    forall k :: k in ks ==>
      CanonKey(k) == k && GenKey(k) == k && !Collapses(cfg, ks, k) && !SubsumedIn(ks, k)
  }

  lemma UntouchedIsFixed(cfg: PassConfig, ks: set<Key>)
    requires Untouched(cfg, ks)
    ensures CanonKeys(ks) == ks && GenKeys(ks) == ks
    ensures PrefixGenKeys(cfg, ks) == ks && SubsumeKeys(ks) == ks
  {
    hide CanonKey, GenKey, Collapses, SubsumedIn;
  }

  /** The passes leave a settled output alone. */
  lemma SettledIsFixed(cfg: PassConfig, chosen: set<Key>, output: set<Key>)
    requires Settled(cfg, chosen, output)
    requires NoClash(GenKeys(chosen)) || !DirGeneralizable(cfg, PROC)
    ensures Untouched(cfg, output)
  {
    hide Collapses, CanonKey, GenKey, Subsumes, NoClash, DirGeneralizable;
    var collapsed := PrefixGenKeys(cfg, GenKeys(chosen));
    CollapsedSetCanonical(cfg, chosen);
    forall k | k in output ensures CanonKey(k) == k && GenKey(k) == k && !Collapses(cfg, output, k) {
      ExactSurvivorsUnclassified(cfg, chosen, k);
      NoSecondCollapse(cfg, chosen, output, k);
    }
    forall k | k in output ensures !SubsumedIn(output, k) {
      assert !SubsumedIn(collapsed, k);
    }
  }

  /** Re-running the pipeline on its own output changes nothing, whatever the second run's choices,
      provided no two verdicts meet on one signature, or "/proc/" itself may not be collapsed. */
  lemma PipelineIsFixed(
    cfg: PassConfig, input: set<Key>, chosen: set<Key>, output: set<Key>, chosen2: set<Key>, output2: set<Key>)
    requires PipelineStep(cfg, input, chosen, output) && PipelineStep(cfg, output, chosen2, output2)
    requires NoClash(GenKeys(CanonKeys(input))) || !DirGeneralizable(cfg, PROC)
    ensures output2 == output
  {
    hide CanonKey, GenKey, Untouched, SubsumedIn, DirGeneralizable;
    CanonKeysCanonical(input);
    if NoClash(GenKeys(CanonKeys(input))) {
      NoClashSubset(GenKeys(chosen), GenKeys(CanonKeys(input)));
    }
    SettledIsFixed(cfg, chosen, output);
    UntouchedIsFixed(cfg, output);
    SelectionOfNoClash(output, chosen2);
    SelectionOfNoClash(output, output2);
  }
}
