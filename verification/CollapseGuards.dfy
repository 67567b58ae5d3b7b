/** When a group of sibling paths collapses into its directory, said of the paths themselves. */
module CollapseGuards {
  import opened Strings
  import opened PathPatterns
  import opened Ir
  import opened PatternRelation
  import opened PrefixGeneralize

  // ---- directories ----

  predicate Names(cs: seq<string>) { forall i :: 0 <= i < |cs| ==> cs[i] != "" && '/' !in cs[i] }

  /** The directory "/a/b/" of the names a, b. */
  function DirOf(dirs: seq<string>): string { "/" + Join(dirs, '/') + "/" }

  /** The path is an entry of the directory, with or without a slash behind its name. */
  predicate InDir(path: string, dir: string) {
    && dir <= path
    && var rest := path[|dir|..];
       (rest != "" && '/' !in rest) || (rest != "" && rest[|rest| - 1] == '/' && '/' !in rest[..|rest| - 1])
  }

  predicate IsDir(dir: string) { |dir| > 1 && dir[|dir| - 1] == '/' }

  function Trimmed(path: string): string {
    if path != "" && path[|path| - 1] == '/' then path[..|path| - 1] else path
  }

  lemma LastSlash(dir: string, name: string)
    requires dir != "" && dir[|dir| - 1] == '/' && '/' !in name
    ensures LastIndexOf(dir + name, '/') == |dir| - 1 && (dir + name)[..|dir|] == dir
  {
    assert forall j :: |dir| <= j < |dir + name| ==> (dir + name)[j] == name[j - |dir|];
    LastIndexOfUnique(dir + name, '/', |dir| - 1);
  }

  lemma TrimmedEntry(path: string, dir: string) returns (name: string)
    requires IsDir(dir) && InDir(path, dir)
    ensures '/' !in name && Trimmed(path) == dir + name
  {
    var rest := path[|dir|..];
    assert path == dir + rest && path[|path| - 1] == rest[|rest| - 1];
    if rest[|rest| - 1] == '/' {
      name := rest[..|rest| - 1];
      assert path[..|path| - 1] == dir + name;
    } else {
      name := rest;
    }
  }

  lemma EntryTrimmed(path: string, dir: string)
    requires IsDir(dir) && InDir(path, dir)
    ensures ParentDir(path) == Some(dir)
  {
    hide InDir, LastIndexOf;
    var name := TrimmedEntry(path, dir);
    LastSlash(dir, name);
  }

  lemma ParentHasEntry(path: string, dir: string)
    requires ParentDir(path) == Some(dir)
    ensures IsDir(dir) && InDir(path, dir)
  {
    hide LastIndexOf;
    var t := Trimmed(path);
    var name := t[|dir|..];
    assert t == dir + name && '/' !in name;
    if t == path {
      assert path[|path| - 1] != '/' && path[|dir|..] == name;
    } else {
      assert path == t + "/" && path[|dir|..] == name + "/";
      assert (name + "/")[..|name|] == name;
    }
  }

  /** The parent directory is the one the path is an entry of. */
  lemma ParentIs(path: string, dir: string)
    ensures ParentDir(path) == Some(dir) <==> IsDir(dir) && InDir(path, dir)
  {
    hide ParentDir, InDir;
    if IsDir(dir) && InDir(path, dir) { EntryTrimmed(path, dir); }
    if ParentDir(path) == Some(dir) { ParentHasEntry(path, dir); }
  }

  lemma {:induction false} NamesCounted(cs: seq<string>)
    requires Names(cs)
    ensures CountNonEmpty(cs) == |cs|
  {
    if cs != [] {
      NamesCounted(cs[1..]);
    }
  }

  lemma {:induction false} CountAppend(a: seq<string>, b: seq<string>)
    ensures CountNonEmpty(a + b) == CountNonEmpty(a) + CountNonEmpty(b)
  {
    if a == [] {
      assert a + b == b;
    } else {
      assert (a + b)[1..] == a[1..] + b;
      CountAppend(a[1..], b);
    }
  }

  /** The depth of a directory is the number of its names. */
  lemma DepthIs(dirs: seq<string>)
    requires Names(dirs) && dirs != []
    ensures CountNonEmpty(Split(DirOf(dirs), '/')) == |dirs|
  {
    hide CountNonEmpty, Split;
    SplitJoin(dirs, '/');
    var middle := Join(dirs, '/');
    assert DirOf(dirs) == "" + ['/'] + (middle + ['/'] + "");
    SplitAppend("", middle + ['/'] + "", '/');
    SplitAppend(middle, "", '/');
    SplitOne("", '/');
    CountAppend([""], dirs + [""]);
    CountAppend(dirs, [""]);
    NamesCounted(dirs);
    assert CountNonEmpty([""]) == 0 by { NoName(); }
  }

  lemma NoName()
    ensures CountNonEmpty([""]) == 0
  {
  }

  // ---- names that look generated ----

  /** All begin with the same `n` bytes. */
  ghost predicate OneStart(names: set<Bytes>, n: nat) { exists p: Bytes :: |p| == n && forall x :: x in names ==> p <= x }

  predicate EndsIn(x: Bytes, p: Bytes) { |p| <= |x| && x[|x| - |p|..] == p }

  /** All end with the same `n` bytes. */
  ghost predicate OneEnd(names: set<Bytes>, n: nat) { exists p: Bytes :: |p| == n && forall x :: x in names ==> EndsIn(x, p) }

  /** Hexadecimal digits of either case, one of them decimal. */
  predicate HexName(x: Bytes) {
    && x != []
    && (forall i :: 0 <= i < |x| ==> 48 <= x[i] <= 57 || 65 <= x[i] <= 70 || 97 <= x[i] <= 102)
    && exists i :: 0 <= i < |x| && 48 <= x[i] <= 57
  }

  lemma HexNameIs(x: Bytes)
    ensures HexToken(x) <==> HexName(x)
  {
    if HexToken(x) {
      assert forall i :: 0 <= i < |x| ==> x[i] in x;
      var b :| b in x && IsDigit(b);
      var i :| 0 <= i < |x| && x[i] == b;
    }
    if HexName(x) {
      var i :| 0 <= i < |x| && 48 <= x[i] <= 57;
      assert x[i] in x;
    }
  }

  lemma StartIs(names: set<Bytes>, n: nat)
    requires names != {}
    ensures SharePrefix(names, n) <==> OneStart(names, n)
  {
    var some :| some in names;
    if SharePrefix(names, n) {
      assert forall x :: x in names ==> x[..n] == some[..n];
      assert |some[..n]| == n && forall x :: x in names ==> some[..n] <= x;
    }
  }

  lemma SharedEnd(names: set<Bytes>, n: nat, x: Bytes, y: Bytes)
    requires ShareSuffix(names, n) && x in names && y in names
    ensures n <= |y| && EndsIn(x, y[|y| - n..])
  {
  }

  lemma EndShared(names: set<Bytes>, n: nat, p: Bytes)
    requires |p| == n && forall x :: x in names ==> EndsIn(x, p)
    ensures ShareSuffix(names, n)
  {
    assert forall x :: x in names ==> n <= |x| && x[|x| - n..] == p;
  }

  lemma EndIs(names: set<Bytes>, n: nat)
    requires names != {}
    ensures ShareSuffix(names, n) <==> OneEnd(names, n)
  {
    hide ShareSuffix, EndsIn;
    var some :| some in names;
    if ShareSuffix(names, n) {
      SharedEnd(names, n, some, some);
      var p := some[|some| - n..];
      forall x | x in names ensures EndsIn(x, p) { SharedEnd(names, n, x, some); }
      assert |p| == n;
    }
    if OneEnd(names, n) {
      var p: Bytes :| |p| == n && forall x :: x in names ==> EndsIn(x, p);
      EndShared(names, n, p);
    }
  }

  // ---- the collapse ----

  /** A file could be under the directory and under the pattern. */
  predicate Touches(dir: string, p: FilePattern) {
    match p
    case ExactPath(q) => dir <= q
    case Prefix(q) => dir <= q || q <= dir
    case Classified(c) => dir <= Root(c) || Root(c) <= dir
  }

  lemma TouchesIs(dir: string, p: FilePattern)
    ensures RelationTo(Prefix(dir), p) != Disjoint <==> Touches(dir, p)
  {
    hide PathPattern.AsStr, Root, GlobRoot;
    if p.Classified? { RootIsGlobRoot(p.class_); }
  }

  /** An entry of the directory with the same subject, action and verdict, not sensitive. */
  predicate Sibling(k: Key, l: Key, dir: string) {
    && l.subject == k.subject && l.action == k.action && l.verdict == k.verdict
    && l.obj.File? && !l.obj.file.isSensitive && l.obj.file.pattern.ExactPath? && InDir(l.obj.file.pattern.path, dir)
  }

  lemma SiblingIs(k: Key, l: Key, dir: string)
    requires IsDir(dir)
    ensures GroupOf(l) == Some(Group(k.subject, k.action, k.verdict, dir)) <==> Sibling(k, l, dir)
    ensures Sibling(k, l, dir) ==> Leaf(l, dir) == Utf8(l.obj.file.pattern.path[|dir|..])
  {
    hide ParentDir, Utf8;
    if l.obj.File? && l.obj.file.pattern.ExactPath? {
      ParentIs(l.obj.file.pattern.path, dir);
    }
  }

  function SiblingsOf(ks: set<Key>, k: Key, dir: string): set<Key> { set l | l in ks && Sibling(k, l, dir) }

  /** Their names in the directory. */
  function NamesOf(ks: set<Key>, k: Key, dir: string): set<Bytes> {
    set l | l in ks && Sibling(k, l, dir) :: Utf8(l.obj.file.pattern.path[|dir|..])
  }

  lemma GroupIs(ks: set<Key>, k: Key, dir: string)
    requires IsDir(dir)
    ensures var g := Group(k.subject, k.action, k.verdict, dir);
      Siblings(ks, g) == SiblingsOf(ks, k, dir) && Leaves(ks, g) == NamesOf(ks, k, dir)
  {
    hide GroupOf, Leaf, Utf8;
    var g := Group(k.subject, k.action, k.verdict, dir);
    forall l ensures GroupOf(l) == Some(g) <==> Sibling(k, l, dir) { SiblingIs(k, l, dir); }
    forall x | x in Leaves(ks, g) ensures x in NamesOf(ks, k, dir) {
      var l :| l in ks && GroupOf(l) == Some(g) && x == Leaf(l, dir);
      SiblingIs(k, l, dir);
    }
    forall x | x in NamesOf(ks, k, dir) ensures x in Leaves(ks, g) {
      var l :| l in ks && Sibling(k, l, dir) && x == Utf8(l.obj.file.pattern.path[|dir|..]);
      SiblingIs(k, l, dir);
    }
  }

  /** An exact path in a directory "/a/b/" collapses into it exactly when it is not sensitive; it and its
      siblings are at least two and at least as many as configured; the directory is not listed as
      sensitive, has at least the configured number of names, and fits 128 bytes; the siblings' names share
      a start or an end of the configured length or are all hexadecimal with a decimal digit; and no entry
      of the same subject with another verdict could touch a file of the directory. */
  lemma CollapsesExactlyWhen(cfg: PassConfig, ks: set<Key>, k: Key, dirs: seq<string>)
    requires Names(dirs) && dirs != []
    requires k in ks && k.obj.File? && k.obj.file.pattern.ExactPath? && InDir(k.obj.file.pattern.path, "/" + Join(dirs, '/') + "/")
    ensures var dir := "/" + Join(dirs, '/') + "/"; var siblings, names := SiblingsOf(ks, k, dir), NamesOf(ks, k, dir);
      Collapses(cfg, ks, k) <==>
      && !k.obj.file.isSensitive
      && |siblings| >= cfg.minCluster && |siblings| >= 2
      && dir !in cfg.sensitiveRoots && |dirs| >= cfg.minDepth && |Utf8(dir)| <= 128
      && (OneStart(names, cfg.minAffix) || OneEnd(names, cfg.minAffix) || forall x :: x in names ==> HexName(x))
      && forall l :: l in ks && l.subject == k.subject && l.verdict != k.verdict && l.obj.File? ==>
           !Touches(dir, l.obj.file.pattern)
  {
    hide ParentDir, Utf8, SharePrefix, ShareSuffix, HexToken, HexName, RelationTo, Touches, Split, CountNonEmpty, InDir,
      OneStart, OneEnd, Leaf, Join;
    var dir := DirOf(dirs);
    assert IsDir(dir);
    ParentIs(k.obj.file.pattern.path, dir);
    var g := Group(k.subject, k.action, k.verdict, dir);
    if !k.obj.file.isSensitive {
      assert GroupOf(k) == Some(g);
      GroupIs(ks, k, dir);
      var names := NamesOf(ks, k, dir);
      assert Sibling(k, k, dir) && Utf8(k.obj.file.pattern.path[|dir|..]) in names by {
        SiblingIs(k, k, dir);
        InDirStarts(k.obj.file.pattern.path, dir);
      }
      StartIs(names, cfg.minAffix);
      EndIs(names, cfg.minAffix);
      forall x ensures HexToken(x) <==> HexName(x) { HexNameIs(x); }
      DepthIs(dirs);
      forall p ensures RelationTo(Prefix(dir), p) != Disjoint <==> Touches(dir, p) { TouchesIs(dir, p); }
    }
  }

  lemma InDirStarts(path: string, dir: string)
    requires InDir(path, dir)
    ensures dir <= path
  {
  }

  /** A path directly under the root has no directory to collapse into. */
  lemma RootEntriesStay(cfg: PassConfig, ks: set<Key>, k: Key)
    requires k.obj.File? && k.obj.file.pattern.ExactPath? && InDir(k.obj.file.pattern.path, "/")
    ensures !Collapses(cfg, ks, k)
  {
    hide Fires, LastIndexOf, InDir;
    var path := k.obj.file.pattern.path;
    var name := RootEntry(path);
    LastSlash("/", name);
  }

  lemma RootEntry(path: string) returns (name: string)
    requires InDir(path, "/")
    ensures '/' !in name && Trimmed(path) == "/" + name
  {
    var rest := path[1..];
    assert path == "/" + rest && path[|path| - 1] == rest[|rest| - 1];
    if rest[|rest| - 1] == '/' {
      name := rest[..|rest| - 1];
      assert path[..|path| - 1] == "/" + name;
    } else {
      name := rest;
    }
  }
}
