/** How one file pattern's match-set relates to another's, and the proof that every answer other
    than `Overlap` is true of the match-sets themselves. */
module PatternRelation {
  import opened PathPatterns
  import opened Ir

  datatype Relation = Equal | Superset | Subset | Overlap | Disjoint {
    function Swap(): Relation {
      match this
      case Superset => Subset
      case Subset => Superset
      case other => other
    }
  }

  function PrefixVsGlob(pre: string, glob: string): Relation {
    var root := GlobRoot(glob);
    if pre <= root then Superset
    else if root <= pre then Overlap
    else Disjoint
  }

  function ExactVsGlob(path: string, glob: string): Relation {
    if GlobRoot(glob) <= path then Overlap else Disjoint
  }

  function ClassifiedVsClassified(a: PathPattern, b: PathPattern): Relation {
    var ra, rb := GlobRoot(a.AsStr()), GlobRoot(b.AsStr());
    if rb <= ra || ra <= rb then Overlap else Disjoint
  }

  /** Relation of `a`'s match-set to `b`'s; the three reversed cases delegate and swap. */
  function RelationTo(a: FilePattern, b: FilePattern): Relation
    decreases if (a.ExactPath? && b.Prefix?) || (a.Classified? && !b.Classified?) then 1 else 0
  {
    match (a, b)
    case (ExactPath(p), ExactPath(q)) => if p == q then Equal else Disjoint
    case (Prefix(p), Prefix(q)) =>
      if p == q then Equal else if p <= q then Superset else if q <= p then Subset else Disjoint
    case (Prefix(pre), ExactPath(p)) => if pre <= p then Superset else Disjoint
    case (Classified(c), Classified(d)) => if c == d then Equal else ClassifiedVsClassified(c, d)
    case (Prefix(pre), Classified(c)) => PrefixVsGlob(pre, c.AsStr())
    case (ExactPath(p), Classified(c)) => ExactVsGlob(p, c.AsStr())
    case _ => RelationTo(b, a).Swap()
  }

  // ---- meaning ----

  /** Which paths each class matches. The compiler never evaluates this; it is a parameter. */
  type Meaning = (PathPattern, string) -> bool

  /** The one thing the compiler assumes of a class: every match begins with its literal root. */
  ghost predicate Rooted(m: Meaning) {
    forall c: PathPattern, p: string :: m(c, p) ==> GlobRoot(c.AsStr()) <= p
  }

  predicate Matches(m: Meaning, pat: FilePattern, path: string) {
    match pat
    case ExactPath(p) => path == p
    case Prefix(d) => d <= path
    case Classified(c) => m(c, path)
  }

  ghost predicate Covers(m: Meaning, broad: FilePattern, narrow: FilePattern) {
    forall path: string :: Matches(m, narrow, path) ==> Matches(m, broad, path)
  }

  ghost predicate NeverBoth(m: Meaning, a: FilePattern, b: FilePattern) {
    forall path: string :: !(Matches(m, a, path) && Matches(m, b, path))
  }

  /** The soundness contract of the relation. */
  ghost predicate Sound(m: Meaning, a: FilePattern, b: FilePattern, rel: Relation) {
    match rel
    case Equal => Covers(m, a, b) && Covers(m, b, a)
    case Superset => Covers(m, a, b)
    case Subset => Covers(m, b, a)
    case Disjoint => NeverBoth(m, a, b)
    case Overlap => true
  }

  lemma RelationSymmetric(a: FilePattern, b: FilePattern)
    ensures RelationTo(a, b) == RelationTo(b, a).Swap()
  {
    hide PathPattern.AsStr, GlobRoot;
    if a.Prefix? && b.Prefix? {
      assert a.prefix <= b.prefix <= a.prefix ==> a.prefix == b.prefix;
    }
  }

  /** Two strings that start the same path are comparable. */
  lemma PrefixesOfOnePath(a: string, b: string, path: string)
    requires a <= path && b <= path
    ensures a <= b || b <= a
  {
  }

  lemma DisjointSound(m: Meaning, a: FilePattern, b: FilePattern, path: string)
    requires Rooted(m) && Matches(m, a, path) && Matches(m, b, path)
    ensures RelationTo(a, b) != Disjoint
  {
    hide PathPattern.AsStr;
    var ra := if a.Classified? then GlobRoot(a.class_.AsStr()) else if a.Prefix? then a.prefix else a.path;
    var rb := if b.Classified? then GlobRoot(b.class_.AsStr()) else if b.Prefix? then b.prefix else b.path;
    PrefixesOfOnePath(ra, rb, path);
  }

  lemma SupersetSound(m: Meaning, a: FilePattern, b: FilePattern)
    requires Rooted(m) && RelationTo(a, b) in {Equal, Superset}
    ensures Covers(m, a, b)
  {
    hide Rooted, RelationTo;
    forall path | Matches(m, b, path) ensures Matches(m, a, path) {
      SupersetMatches(m, a, b, path);
    }
  }

  lemma SupersetMatches(m: Meaning, a: FilePattern, b: FilePattern, path: string)
    requires Rooted(m) && RelationTo(a, b) in {Equal, Superset} && Matches(m, b, path)
    ensures Matches(m, a, path)
  {
    hide PathPattern.AsStr, GlobRoot;
    if b.Classified? {
      assert GlobRoot(b.class_.AsStr()) <= path;
    }
  }

  /** Every answer the relation gives is true of the match-sets, whatever the classes mean. */
  lemma RelationSound(m: Meaning, a: FilePattern, b: FilePattern)
    requires Rooted(m)
    ensures Sound(m, a, b, RelationTo(a, b))
  {
    hide PathPattern.AsStr;
    RelationSymmetric(a, b);
    match RelationTo(a, b)
    case Equal => SupersetSound(m, a, b); SupersetSound(m, b, a);
    case Superset => SupersetSound(m, a, b);
    case Subset => SupersetSound(m, b, a);
    case Overlap =>
    case Disjoint =>
      forall path | Matches(m, a, path) ensures !Matches(m, b, path) {
        if Matches(m, b, path) { DisjointSound(m, a, b, path); }
      }
  }

  /** The relation is exact away from classes: on exact paths and prefixes it is never vague. */
  lemma RelationExactOnPlainPatterns(m: Meaning, a: FilePattern, b: FilePattern)
    requires !a.Classified? && !b.Classified? && Rooted(m)
    ensures RelationTo(a, b) != Overlap
    ensures RelationTo(a, b) == Disjoint <==> NeverBoth(m, a, b)
    ensures RelationTo(a, b) in {Equal, Superset} <==> Covers(m, a, b)
  {
    hide PathPattern.AsStr;
    RelationSound(m, a, b);
    var sa := if a.Prefix? then a.prefix else a.path;
    var sb := if b.Prefix? then b.prefix else b.path;
    assert Matches(m, a, sa) && Matches(m, b, sb);
    assert Matches(m, a, sa + "x") <==> a.Prefix?;
    assert Matches(m, b, sb + "x") <==> b.Prefix?;
  }

  /** The text every match of the pattern begins with. */
  function Stem(p: FilePattern): string {
    match p case ExactPath(path) => path case Prefix(d) => d case Classified(c) => GlobRoot(c.AsStr())
  }

  /** Every class means all that begins with its root. */
  ghost function Largest(): Meaning { (c: PathPattern, p: string) => GlobRoot(c.AsStr()) <= p }

  /** One class alone means anything. */
  ghost function Only(d: PathPattern): Meaning { (c: PathPattern, p: string) => c == d && GlobRoot(c.AsStr()) <= p }

  lemma StemMatches(p: FilePattern, path: string)
    ensures Rooted(Largest()) && Matches(Largest(), p, Stem(p))
    ensures !p.ExactPath? ==> (Matches(Largest(), p, path) <==> Stem(p) <= path)
  {
    hide PathPattern.AsStr, GlobRoot;
  }

  lemma NotDisjoint(a: FilePattern, b: FilePattern)
    requires RelationTo(a, b) != Disjoint
    ensures !NeverBoth(Largest(), a, b)
  {
    hide PathPattern.AsStr, GlobRoot;
    var path := if |Stem(a)| >= |Stem(b)| then Stem(a) else Stem(b);
    StemMatches(a, path);
    StemMatches(b, path);
    assert Matches(Largest(), a, path) && Matches(Largest(), b, path);
  }

  lemma OnlyMeans(d: PathPattern, p: FilePattern, path: string)
    ensures Rooted(Only(d))
    ensures p.Classified? ==> (Matches(Only(d), p, path) <==> p.class_ == d && Stem(p) <= path)
  {
    hide PathPattern.AsStr, GlobRoot;
  }

  lemma Uncovered(m: Meaning, a: FilePattern, b: FilePattern, path: string)
    requires Rooted(m) && Matches(m, b, path) && !Matches(m, a, path)
    ensures exists n: Meaning :: Rooted(n) && !Covers(n, a, b)
  {
    hide Rooted, Matches;
    assert !Covers(m, a, b);
  }

  lemma ClassUncovered(a: FilePattern, b: FilePattern)
    requires b.Classified? && RelationTo(a, b) != Equal && RelationTo(a, b) != Superset
    ensures exists m: Meaning :: Rooted(m) && !Covers(m, a, b)
  {
    hide PathPattern.AsStr, GlobRoot, Only, Rooted, Covers;
    var m, path := Only(b.class_), Stem(b);
    OnlyMeans(b.class_, b, path);
    OnlyMeans(b.class_, b, path + "x");
    OnlyMeans(b.class_, a, path);
    if a == ExactPath(path) {
      assert !Matches(m, a, path + "x");
      Uncovered(m, a, b, path + "x");
    } else {
      assert !Matches(m, a, path);
      Uncovered(m, a, b, path);
    }
  }

  lemma PlainUncovered(a: FilePattern, b: FilePattern)
    requires !b.Classified? && RelationTo(a, b) != Equal && RelationTo(a, b) != Superset
    ensures exists m: Meaning :: Rooted(m) && !Covers(m, a, b)
  {
    hide PathPattern.AsStr, GlobRoot, Only, Rooted, Covers;
    var d := if a == Classified(Regular) then ProcGlobal else Regular;
    var m, path := Only(d), Stem(b);
    OnlyMeans(d, a, path);
    if a == ExactPath(path) {
      assert b.Prefix? && !Matches(m, a, path + "x");
      Uncovered(m, a, b, path + "x");
    } else {
      assert Matches(m, b, path) && !Matches(m, a, path);
      Uncovered(m, a, b, path);
    }
  }

  lemma NotCovering(a: FilePattern, b: FilePattern)
    requires RelationTo(a, b) != Equal && RelationTo(a, b) != Superset
    ensures exists m: Meaning :: Rooted(m) && !Covers(m, a, b)
  {
    hide *;
    if b.Classified? { ClassUncovered(a, b); } else { PlainUncovered(a, b); }
  }

  /** The relation is exact on all patterns, as far as roots tell: it says disjoint exactly when no admissible
      meaning of the classes gives a common match, and equal or superset exactly when every one covers. */
  lemma RelationExact(a: FilePattern, b: FilePattern)
    ensures RelationTo(a, b) == Disjoint <==> forall m: Meaning :: Rooted(m) ==> NeverBoth(m, a, b)
    ensures RelationTo(a, b) == Equal || RelationTo(a, b) == Superset <==> forall m: Meaning :: Rooted(m) ==> Covers(m, a, b)
    ensures RelationTo(a, b) == Equal || RelationTo(a, b) == Subset <==> forall m: Meaning :: Rooted(m) ==> Covers(m, b, a)
  {
    hide PathPattern.AsStr, GlobRoot, RelationTo, Rooted, NeverBoth, Covers;
    forall m: Meaning | Rooted(m) ensures Sound(m, a, b, RelationTo(a, b)) && Sound(m, b, a, RelationTo(b, a)) {
      RelationSound(m, a, b);
      RelationSound(m, b, a);
    }
    RelationSymmetric(a, b);
    if RelationTo(a, b) != Disjoint {
      NotDisjoint(a, b);
      StemMatches(a, "");
    }
    if RelationTo(a, b) != Equal && RelationTo(a, b) != Superset {
      NotCovering(a, b);
    }
    if RelationTo(a, b) != Equal && RelationTo(a, b) != Subset {
      NotCovering(b, a);
    }
  }

  /** The wildcard texts read as AARE globs are one admissible meaning. */
  lemma AareMeaningIsRooted(m: Meaning)
    requires forall c: PathPattern, p: string :: m(c, p) == AareMatch(c.AsStr(), p)
    ensures Rooted(m)
  {
    forall c: PathPattern, p: string | m(c, p) ensures GlobRoot(c.AsStr()) <= p {
      AareMatchesAreRooted(c.AsStr(), p);
    }
  }

  // ---- the order facts subsumption and the guards rely on ----

  lemma SupersetIsPrefix(broad: FilePattern, narrow: FilePattern)
    ensures RelationTo(broad, narrow) == Superset <==> broad.Prefix? && match narrow
              case ExactPath(p) => broad.prefix <= p
              case Prefix(q) => broad.prefix <= q && broad.prefix != q
              case Classified(c) => broad.prefix <= GlobRoot(c.AsStr())
  {
    hide PathPattern.AsStr;
  }

  lemma SupersetTransitive(a: FilePattern, b: FilePattern, c: FilePattern)
    requires RelationTo(a, b) == Superset && RelationTo(b, c) == Superset
    ensures RelationTo(a, c) == Superset
  {
    hide PathPattern.AsStr, RelationTo, GlobRoot;
    SupersetIsPrefix(a, b);
    SupersetIsPrefix(b, c);
    SupersetIsPrefix(a, c);
  }

  /** Whatever touches a pattern touches every pattern that strictly covers it. */
  lemma DisjointInherited(dir: string, broad: FilePattern, narrow: FilePattern)
    requires RelationTo(broad, narrow) == Superset
    requires RelationTo(Prefix(dir), broad) == Disjoint
    ensures RelationTo(Prefix(dir), narrow) == Disjoint
  {
    hide PathPattern.AsStr;
  }
}
