/** What the pipeline guarantees about rule sets: verdict separation, exact subsumption, coverage
    with bounded widening, confluence, and the fixed point. */
module Optimizer {
  import opened Strings
  import opened PathPatterns
  import opened Ir
  import opened PatternRelation
  import opened Generalize
  import opened PrefixGeneralize
  import opened RuleSets

  // ---- where the entries of a collapsed set come from ----

  /** `k` survived the collapse of `ks` untouched. */
  predicate Survives(cfg: PassConfig, ks: set<Key>, k: Key) { k in ks && !Collapses(cfg, ks, k) }

  /** `k` is the prefix some firing group of `ks` collapsed into; `from` is one of its members. */
  predicate CollapsedFrom(cfg: PassConfig, ks: set<Key>, k: Key, from: Key) {
    from in ks && Collapses(cfg, ks, from) && k == PrefixKey(GroupOf(from).value)
  }

  lemma OriginOf(cfg: PassConfig, ks: set<Key>, k: Key) returns (from: Key)
    requires k in PrefixGenKeys(cfg, ks)
    ensures from in ks && (Survives(cfg, ks, k) || CollapsedFrom(cfg, ks, k, from))
  {
    hide Fires, GroupOf;
    if Survives(cfg, ks, k) {
      from := k;
    } else {
      from :| from in ks && Collapses(cfg, ks, from) && k == PrefixKey(GroupOf(from).value);
    }
  }

  lemma MemberFacts(k: Key, g: Group)
    requires GroupOf(k) == Some(g)
    ensures IsExact(k) && !k.obj.file.isSensitive && ParentDir(k.obj.file.pattern.path) == Some(g.dir)
    ensures g.subject == k.subject && g.action == k.action && g.verdict == k.verdict
  {
  }

  lemma GroupDirIsPrefix(k: Key, g: Group)
    requires GroupOf(k) == Some(g)
    ensures g.dir <= k.obj.file.pattern.path
  {
  }

  // ---- verdict separation ----

  /** Two entries of one subject with different verdicts that provably never meet. */
  predicate Separated(a: Key, b: Key) {
    a.subject == b.subject && a.verdict != b.verdict && a.obj.File? && b.obj.File? ==>
      RelationTo(a.obj.file.pattern, b.obj.file.pattern) == Disjoint
  }

  /** A group that fires is blocked by no entry of another verdict. */
  lemma FiringGroupSeparated(cfg: PassConfig, ks: set<Key>, from: Key, b: Key)
    requires from in ks && Collapses(cfg, ks, from) && b in ks
    ensures Separated(PrefixKey(GroupOf(from).value), b)
  {
    var g := GroupOf(from).value;
    assert !Opposes(b, g.subject, g.verdict, g.dir);
  }

  /** Prefixes of two firing groups of different verdicts cannot nest: each would hold the other's members. */
  lemma FiringGroupsSeparated(cfg: PassConfig, ks: set<Key>, a: Key, b: Key)
    requires a in ks && Collapses(cfg, ks, a) && b in ks && Collapses(cfg, ks, b)
    ensures Separated(PrefixKey(GroupOf(a).value), PrefixKey(GroupOf(b).value))
  {
    hide Fires;
    FiringGroupSeparated(cfg, ks, a, b);
    FiringGroupSeparated(cfg, ks, b, a);
    GroupDirIsPrefix(a, GroupOf(a).value);
    GroupDirIsPrefix(b, GroupOf(b).value);
  }

  /** Every prefix the collapse invents is disjoint from every output entry of another verdict. */
  lemma SynthesizedSeparated(cfg: PassConfig, ks: set<Key>, k: Key, from: Key, other: Key)
    requires CollapsedFrom(cfg, ks, k, from) && other in PrefixGenKeys(cfg, ks)
    ensures Separated(k, other) && Separated(other, k)
  {
    hide Fires, GroupOf;
    var origin := OriginOf(cfg, ks, other);
    if Survives(cfg, ks, other) {
      FiringGroupSeparated(cfg, ks, from, other);
    } else {
      FiringGroupsSeparated(cfg, ks, from, origin);
    }
    if k.obj.File? && other.obj.File? {
      RelationSymmetric(k.obj.file.pattern, other.obj.file.pattern);
    }
  }

  predicate AllSeparated(ks: set<Key>) { forall a, b :: a in ks && b in ks ==> Separated(a, b) }

  /** A set without opposing overlaps is collapsed into one without opposing overlaps. */
  lemma CollapseKeepsSeparation(cfg: PassConfig, ks: set<Key>)
    requires AllSeparated(ks)
    ensures AllSeparated(PrefixGenKeys(cfg, ks))
  {
    hide Collapses, Separated;
    forall a, b | a in PrefixGenKeys(cfg, ks) && b in PrefixGenKeys(cfg, ks) ensures Separated(a, b) {
      var fa := OriginOf(cfg, ks, a);
      var fb := OriginOf(cfg, ks, b);
      if CollapsedFrom(cfg, ks, a, fa) {
        SynthesizedSeparated(cfg, ks, a, fa, b);
      } else if CollapsedFrom(cfg, ks, b, fb) {
        SynthesizedSeparated(cfg, ks, b, fb, a);
      }
    }
  }

  // ---- subsumption ----

  function PrefixLength(k: Key): nat {
    if k.obj.File? && k.obj.file.pattern.Prefix? then |k.obj.file.pattern.prefix| else 0
  }

  lemma SubsumesFacts(b: Key, k: Key)
    requires Subsumes(b, k)
    ensures b.obj.File? && k.obj.File? && b.obj.file.pattern.Prefix?
    ensures k.obj.file.pattern.Prefix? ==> PrefixLength(b) < PrefixLength(k)
    ensures k.obj.file.pattern.ExactPath? ==> b.obj.file.pattern.prefix <= k.obj.file.pattern.path
  {
    SupersetIsPrefix(b.obj.file.pattern, k.obj.file.pattern);
  }

  lemma SubsumesTransitive(a: Key, b: Key, c: Key)
    requires Subsumes(a, b) && Subsumes(b, c)
    ensures Subsumes(a, c)
  {
    hide RelationTo;
    SupersetTransitive(a.obj.file.pattern, b.obj.file.pattern, c.obj.file.pattern);
  }

  /** Each dropped entry has a strict superset that is kept, although candidates are dropped too. */
  lemma {:induction false} SurvivingSubsumer(ks: set<Key>, k: Key, b: Key) returns (s: Key)
    requires b in ks && Subsumes(b, k)
    ensures s in SubsumeKeys(ks) && Subsumes(s, k)
    decreases PrefixLength(b)
  {
    hide Subsumes;
    if SubsumedIn(ks, b) {
      var c :| c in ks && Subsumes(c, b);
      SubsumesFacts(b, k);
      SubsumesFacts(c, b);
      SubsumesTransitive(c, b, k);
      s := SurvivingSubsumer(ks, k, c);
    } else {
      s := b;
    }
  }

  predicate SameScope(a: Key, b: Key) {
    a.subject == b.subject && a.action == b.action && a.verdict == b.verdict && a.obj.File? && b.obj.File?
  }

  /** Some entry of `ks` in the scope of `k` matches `path`. */
  ghost predicate Grants(m: Meaning, ks: set<Key>, k: Key, path: string) {
    exists b :: b in ks && SameScope(b, k) && Matches(m, b.obj.file.pattern, path)
  }

  /** Dropping subsumed entries leaves each (subject, action, verdict) match-set exactly as it was. */
  lemma SubsumptionExact(m: Meaning, ks: set<Key>, scope: Key, path: string)
    requires Rooted(m)
    ensures Grants(m, ks, scope, path) <==> Grants(m, SubsumeKeys(ks), scope, path)
  {
    hide RelationTo;
    if Grants(m, ks, scope, path) {
      var b :| b in ks && SameScope(b, scope) && Matches(m, b.obj.file.pattern, path);
      if SubsumedIn(ks, b) {
        var c :| c in ks && Subsumes(c, b);
        var s := SurvivingSubsumer(ks, b, c);
        RelationSound(m, s.obj.file.pattern, b.obj.file.pattern);
        assert Covers(m, s.obj.file.pattern, b.obj.file.pattern);
      }
    }
  }

  // ---- coverage with bounded widening ----

  /** Everything an input entry matched is still matched by some output entry of its scope. */
  lemma ClassifyCovers(m: Meaning, ks: set<Key>, scope: Key, path: string)
    requires Classifies(m) && Grants(m, ks, scope, path)
    ensures Grants(m, GenKeys(ks), scope, path)
  {
    var b :| b in ks && SameScope(b, scope) && Matches(m, b.obj.file.pattern, path);
    GenCovers(m, b.obj.file.pattern);
    assert GenKey(b) in GenKeys(ks);
  }

  lemma CollapseCovers(m: Meaning, cfg: PassConfig, ks: set<Key>, scope: Key, path: string)
    requires Grants(m, ks, scope, path)
    ensures Grants(m, PrefixGenKeys(cfg, ks), scope, path)
  {
    hide Fires;
    var b :| b in ks && SameScope(b, scope) && Matches(m, b.obj.file.pattern, path);
    if Collapses(cfg, ks, b) {
      var g := GroupOf(b).value;
      GroupDirIsPrefix(b, g);
      assert PrefixKey(g) in PrefixGenKeys(cfg, ks) && SameScope(PrefixKey(g), scope);
      assert Matches(m, PrefixKey(g).obj.file.pattern, path);
    } else {
      assert b in PrefixGenKeys(cfg, ks);
    }
  }

  /** Why an output entry may match a path no canonicalized input entry of its scope matched. */
  ghost predicate WidenedByClass(ks: set<Key>, k: Key) {
    && k.obj.File? && k.obj.file.pattern.Classified?
    && exists q :: q in ks && SameScope(q, k) && IsExact(q)
         && TryClassify(q.obj.file.pattern.path) == Some(k.obj.file.pattern.class_)
  }

  /** `sibs` are the non-sensitive exact entries of `ks` that justify the prefix `k`, guards 1-4 and 6. */
  ghost predicate JustifiedBy(cfg: PassConfig, ks: set<Key>, k: Key, sibs: set<Key>) {
    && k.obj.File? && k.obj.file.pattern.Prefix?
    && sibs <= ks && |sibs| >= cfg.minCluster
    && (forall s :: s in sibs ==> GroupOf(s) == Some(Group(k.subject, k.action, k.verdict, k.obj.file.pattern.prefix)))
    && DirGeneralizable(cfg, k.obj.file.pattern.prefix)
    && |Utf8(k.obj.file.pattern.prefix)| <= PREFIX_MAX_LEN
    && LooksGenerated(set s | s in sibs :: Leaf(s, k.obj.file.pattern.prefix), |sibs|, cfg.minAffix)
  }

  ghost predicate WidenedByPrefix(cfg: PassConfig, ks: set<Key>, k: Key) {
    exists sibs :: JustifiedBy(cfg, ks, k, sibs)
  }

  lemma UngeneralizedOrigin(ks: set<Key>, k: Key)
    requires k in GenKeys(ks) && k.obj.File?
    ensures k in ks || WidenedByClass(ks, k)
    ensures IsExact(k) ==> k in ks
  {
    var o :| o in ks && GenKey(o) == k;
    if o != k {
      assert SameScope(o, k) && IsExact(o);
    }
  }

  lemma CollapsedIsJustified(cfg: PassConfig, ks: set<Key>, k: Key, from: Key)
    requires CollapsedFrom(cfg, GenKeys(ks), k, from)
    ensures WidenedByPrefix(cfg, ks, k)
  {
    var g := GroupOf(from).value;
    var sibs := Siblings(GenKeys(ks), g);
    forall s | s in sibs ensures s in ks {
      MemberFacts(s, g);
      UngeneralizedOrigin(ks, s);
    }
    assert (set s | s in sibs :: Leaf(s, g.dir)) == Leaves(GenKeys(ks), g);
    assert JustifiedBy(cfg, ks, k, sibs);
  }

  /** Every file entry the passes produce from `ks` is one of `ks`, or a class some exact input path
      was given, or a prefix over enough guarded siblings. */
  lemma WideningBounded(cfg: PassConfig, ks: set<Key>, k: Key)
    requires k in PrefixGenKeys(cfg, GenKeys(ks)) && k.obj.File?
    ensures k in ks || WidenedByClass(ks, k) || WidenedByPrefix(cfg, ks, k)
  {
    hide Collapses, GenKey;
    var from := OriginOf(cfg, GenKeys(ks), k);
    if Survives(cfg, GenKeys(ks), k) {
      UngeneralizedOrigin(ks, k);
    } else {
      CollapsedIsJustified(cfg, ks, k, from);
    }
  }
}
