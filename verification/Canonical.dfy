/** Lexical path canonicalization: a component stack, its normal form, and what it preserves. */
module Canonical {
  import opened Strings
  import opened Ir

  // ---- specification ----

  function IsAbsolute(path: string): bool { "/" <= path }

  /** One component against the stack of components kept so far. */
  function Step(abs: bool, out: seq<string>, comp: string): seq<string> {
    if comp == "" || comp == "." then out
    else if comp == ".." then
      if out != [] && out[|out| - 1] != ".." then out[..|out| - 1]
      else if !abs then out + [".."]
      else out
    else out + [comp]
  }

  function Fold(abs: bool, out: seq<string>, comps: seq<string>): seq<string>
    decreases |comps|
  {
    if comps == [] then out else Fold(abs, Step(abs, out, comps[0]), comps[1..])
  }

  function Components(path: string): seq<string> { Fold(IsAbsolute(path), [], Split(path, '/')) }

  function Render(abs: bool, out: seq<string>): string {
    if abs then "/" + Join(out, '/') else if Join(out, '/') == "" then "." else Join(out, '/')
  }

  function CanonicalPath(path: string): string {
    if path == "" then path else Render(IsAbsolute(path), Components(path))
  }

  function CanonicalPrefix(prefix: string): string {
    var c := CanonicalPath(prefix);
    if c != "" && c[|c| - 1] == '/' then c else c + "/"
  }

  function CanonPattern(p: FilePattern): FilePattern {
    match p
    case ExactPath(path) => ExactPath(CanonicalPath(path))
    case Prefix(d) => Prefix(CanonicalPrefix(d))
    case Classified(c) => p
  }

  function CanonObject(o: Object): Object {
    if o.File? then File(o.file.(pattern := CanonPattern(o.file.pattern))) else o
  }

  function CanonRule(r: Rule): Rule { r.(obj := CanonObject(r.obj)) }

  function CanonKey(k: Key): Key { k.(obj := CanonObject(k.obj)) }

  /** The canonicalization pass. */
  function CanonRules(rules: seq<Rule>): (out: seq<Rule>)
    ensures |out| == |rules|
  {
    seq(|rules|, i requires 0 <= i < |rules| => CanonRule(rules[i]))
  }

  // ---- the program ----

  method CanonicalizePath(path: string) returns (r: string)
    ensures r == CanonicalPath(path)
  {
    if path == "" {
      return path;
    }
    var absolute := "/" <= path;
    var comps := Split(path, '/');
    var out: seq<string> := [];
    var i := 0;
    while i < |comps|
      invariant 0 <= i <= |comps|
      invariant Fold(absolute, out, comps[i..]) == Components(path)
    {
      var comp := comps[i];
      assert comps[i..][1..] == comps[i + 1..];
      if comp == "" || comp == "." {
      } else if comp == ".." {
        if out != [] && out[|out| - 1] != ".." {
          out := out[..|out| - 1];
        } else if !absolute {
          out := out + [".."];
        }
      } else {
        out := out + [comp];
      }
      i := i + 1;
    }
    var joined := Join(out, '/');
    if absolute {
      r := "/" + joined;
    } else if joined == "" {
      r := ".";
    } else {
      r := joined;
    }
  }

  // ---- normal form ----

  predicate IsName(c: string) { c != "" && c != "." && '/' !in c }

  /** A stack in normal form: names only, ".." at most as a leading run of a relative path. */
  predicate Normal(abs: bool, out: seq<string>) {
    && (forall i :: 0 <= i < |out| ==> IsName(out[i]))
    && (abs ==> ".." !in out)
    && (forall i :: 0 < i < |out| && out[i] == ".." ==> out[i - 1] == "..")
  }

  predicate SlashFree(comps: seq<string>) { forall c :: c in comps ==> '/' !in c }

  lemma {:induction false} FoldNormal(abs: bool, out: seq<string>, comps: seq<string>)
    requires Normal(abs, out) && SlashFree(comps)
    ensures Normal(abs, Fold(abs, out, comps))
    decreases |comps|
  {
    if comps != [] {
      assert comps[0] in comps;
      var next := Step(abs, out, comps[0]);
      assert forall c :: c in next ==> c in out || c == comps[0];
      FoldNormal(abs, next, comps[1..]);
    }
  }

  lemma ComponentsNormal(path: string)
    ensures Normal(IsAbsolute(path), Components(path))
  {
    FoldNormal(IsAbsolute(path), [], Split(path, '/'));
  }

  lemma {:induction false} FoldAppend(abs: bool, out: seq<string>, a: seq<string>, b: seq<string>)
    ensures Fold(abs, out, a + b) == Fold(abs, Fold(abs, out, a), b)
    decreases |a|
  {
    if a == [] {
      assert a + b == b;
    } else {
      assert (a + b)[1..] == a[1..] + b;
      FoldAppend(abs, Step(abs, out, a[0]), a[1..], b);
    }
  }

  /** A normal stack is its own fold. */
  lemma {:induction false} FoldOnNormal(abs: bool, out: seq<string>, rest: seq<string>)
    requires Normal(abs, out + rest)
    ensures Fold(abs, out, rest) == out + rest
    decreases |rest|
  {
    if rest != [] {
      var all := out + rest;
      var c := rest[0];
      assert all[|out|] == c && c in all;
      assert |out| > 0 ==> all[|out| - 1] == out[|out| - 1];
      assert Step(abs, out, c) == out + [c];
      assert out + [c] + rest[1..] == all;
      FoldOnNormal(abs, out + [c], rest[1..]);
    } else {
      assert out + rest == out;
    }
  }

  lemma JoinNames(out: seq<string>)
    requires forall i :: 0 <= i < |out| ==> IsName(out[i])
    ensures out == [] <==> Join(out, '/') == ""
    ensures out != [] ==> Join(out, '/')[0] != '/'
    ensures out != [] ==> var j := Join(out, '/'); j[|j| - 1] != '/'
  {
    if |out| > 1 { JoinNames(out[1..]); }
  }

  /** Reading a rendered normal stack gives the stack back. */
  lemma ComponentsOfRender(abs: bool, out: seq<string>)
    requires Normal(abs, out)
    ensures var p := Render(abs, out); p != "" && IsAbsolute(p) == abs && Components(p) == out
  {
    hide Split, Fold, Join;
    var p := Render(abs, out);
    JoinNames(out);
    assert forall c :: c in out ==> '/' !in c;
    assert [] + out == out;
    FoldOnNormal(abs, [], out);
    SplitOne("", '/');
    NamelessParts(abs, []);
    if abs {
      var j := Join(out, '/');
      assert p == "" + ['/'] + j;
      SplitAppend("", j, '/');
      if out == [] {
        assert [""] + [""] == Split(p, '/');
        FoldAppend(true, [], [""], [""]);
      } else {
        SplitJoin(out, '/');
        FoldAppend(true, [], [""], out);
      }
    } else if out == [] {
      SplitOne(".", '/');
      assert p == "." && p[0] == '.';
    } else {
      SplitJoin(out, '/');
    }
  }

  /** Empty parts and "." leave the stack alone. */
  lemma NamelessParts(abs: bool, out: seq<string>)
    ensures Fold(abs, out, []) == out && Fold(abs, out, [""]) == out && Fold(abs, out, ["."]) == out
  {
  }

  // ---- what canonicalization promises ----

  lemma CanonicalIdempotent(path: string)
    ensures CanonicalPath(CanonicalPath(path)) == CanonicalPath(path)
  {
    if path != "" {
      ComponentsNormal(path);
      ComponentsOfRender(IsAbsolute(path), Components(path));
    }
  }

  lemma CanonicalPathEnding(path: string)
    ensures var c := CanonicalPath(path); c != "" && c[|c| - 1] == '/' ==> c == "/"
  {
    ComponentsNormal(path);
    JoinNames(Components(path));
  }

  lemma CanonicalPrefixEnding(prefix: string)
    ensures var c := CanonicalPrefix(prefix); c != "" && c[|c| - 1] == '/'
  {
  }

  /** A trailing separator never changes the components. */
  lemma ComponentsTrailingSlash(p: string)
    requires p != ""
    ensures Components(p + "/") == Components(p) && IsAbsolute(p + "/") == IsAbsolute(p)
  {
    assert p + "/" == p + ['/'] + "";
    SplitAppend(p, "", '/');
    assert Split("", '/') == [""];
    FoldAppend(IsAbsolute(p), [], Split(p, '/'), [""]);
  }

  lemma CanonicalPrefixIdempotent(prefix: string)
    ensures CanonicalPrefix(CanonicalPrefix(prefix)) == CanonicalPrefix(prefix)
  {
    hide Components, Render;
    var c := CanonicalPath(prefix);
    CanonicalIdempotent(prefix);
    CanonicalPathEnding(prefix);
    RootIsCanonical();
    if c != "" && c[|c| - 1] != '/' {
      ComponentsTrailingSlash(c);
      assert CanonicalPath(c + "/") == CanonicalPath(c);
    } else {
      assert CanonicalPrefix(prefix) == "/";
    }
  }

  lemma RootIsCanonical()
    ensures CanonicalPath("/") == "/"
  {
    hide Components;
    EmptyJoin();
    ComponentsOfRender(true, []);
    assert Render(true, []) == "/";
  }

  lemma EmptyJoin()
    ensures Join([], '/') == ""
  {
  }

  lemma CanonKeyIdempotent(k: Key)
    ensures CanonKey(CanonKey(k)) == CanonKey(k)
  {
    if k.obj.File? {
      match k.obj.file.pattern
      case ExactPath(p) => CanonicalIdempotent(p);
      case Prefix(d) => CanonicalPrefixIdempotent(d);
      case Classified(_) =>
    }
  }

  /** Canonicalizing the left part first changes nothing. */
  lemma CanonicalConcat(a: string, b: string)
    ensures CanonicalPath(a + "/" + b) == CanonicalPath(CanonicalPath(a) + "/" + b)
  {
    if a != "" {
      var abs, out := IsAbsolute(a), Components(a);
      var c := CanonicalPath(a);
      ComponentsNormal(a);
      ComponentsOfRender(abs, out);
      assert a + "/" + b == a + ['/'] + b && c + "/" + b == c + ['/'] + b;
      SplitAppend(a, b, '/');
      SplitAppend(c, b, '/');
      FoldAppend(abs, [], Split(a, '/'), Split(b, '/'));
      FoldAppend(abs, [], Split(c, '/'), Split(b, '/'));
    }
  }

  // ---- canonicalization against directory walks ----

  /** Walking components from a directory `pos` (outermost name first); ".." at the root stays there. */
  function Walk(pos: seq<string>, comps: seq<string>): seq<string>
    decreases |comps|
  {
    if comps == [] then pos else Walk(Move(pos, comps[0]), comps[1..])
  }

  function Move(pos: seq<string>, c: string): seq<string> {
    if c == "" || c == "." then pos
    else if c == ".." then (if pos == [] then [] else pos[..|pos| - 1])
    else pos + [c]
  }

  /** Where a path leads from working directory `cwd`. */
  function Resolve(cwd: seq<string>, path: string): seq<string> {
    Walk(if IsAbsolute(path) then [] else cwd, Split(path, '/'))
  }

  lemma {:induction false} WalkAppend(pos: seq<string>, a: seq<string>, b: seq<string>)
    ensures Walk(pos, a + b) == Walk(Walk(pos, a), b)
    decreases |a|
  {
    if a == [] {
      assert a + b == b;
    } else {
      assert (a + b)[1..] == a[1..] + b;
      WalkAppend(Move(pos, a[0]), a[1..], b);
    }
  }

  /** One stack step has the effect of one walk step. */
  lemma StepWalk(abs: bool, cwd: seq<string>, out: seq<string>, c: string)
    requires Normal(abs, out) && (abs ==> cwd == [])
    ensures Walk(cwd, Step(abs, out, c)) == Walk(Walk(cwd, out), [c])
  {
    if out != [] {
      var init, last := out[..|out| - 1], out[|out| - 1];
      assert out == init + [last];
      WalkAppend(cwd, init, [last]);
    }
    WalkAppend(cwd, out, [c]);
  }

  lemma {:induction false} FoldWalk(abs: bool, cwd: seq<string>, out: seq<string>, comps: seq<string>)
    requires Normal(abs, out) && SlashFree(comps) && (abs ==> cwd == [])
    ensures Walk(cwd, Fold(abs, out, comps)) == Walk(Walk(cwd, out), comps)
    decreases |comps|
  {
    if comps != [] {
      var next := Step(abs, out, comps[0]);
      assert Fold(abs, out, [comps[0]]) == next;
      FoldNormal(abs, out, [comps[0]]);
      StepWalk(abs, cwd, out, comps[0]);
      FoldWalk(abs, cwd, next, comps[1..]);
      WalkAppend(Walk(cwd, out), [comps[0]], comps[1..]);
      assert [comps[0]] + comps[1..] == comps;
    }
  }

  /** The canonical path leads where the original leads, from every working directory. */
  lemma CanonicalResolves(cwd: seq<string>, path: string)
    ensures Resolve(cwd, CanonicalPath(path)) == Resolve(cwd, path)
  {
    if path != "" {
      var abs, out := IsAbsolute(path), Components(path);
      var p := CanonicalPath(path);
      ComponentsNormal(path);
      ComponentsOfRender(abs, out);
      var from := if abs then [] else cwd;
      FoldWalk(abs, from, [], Split(path, '/'));
      FoldWalk(abs, from, [], Split(p, '/'));
    }
  }

  /** Walking a normal relative stack: climb its leading run of "..", then descend its names. */
  function Ups(out: seq<string>): nat {
    if out != [] && out[0] == ".." then 1 + Ups(out[1..]) else 0
  }

  lemma {:induction false} WalkNames(pos: seq<string>, out: seq<string>)
    requires Normal(true, out)
    ensures Walk(pos, out) == pos + out
    decreases |out|
  {
    if out != [] {
      assert out[0] in out;
      assert pos + out == (pos + [out[0]]) + out[1..];
      WalkNames(pos + [out[0]], out[1..]);
    } else {
      assert pos + out == pos;
    }
  }

  lemma {:induction false} WalkNormal(pos: seq<string>, out: seq<string>)
    requires Normal(false, out) && Ups(out) <= |pos|
    ensures Ups(out) <= |out|
    ensures forall i :: 0 <= i < Ups(out) ==> out[i] == ".."
    ensures Normal(true, out[Ups(out)..])
    ensures Walk(pos, out) == pos[..|pos| - Ups(out)] + out[Ups(out)..]
    decreases |out|
  {
    if out != [] && out[0] == ".." {
      var rest := out[1..];
      assert forall i :: 0 <= i < |rest| ==> rest[i] == out[i + 1];
      assert Normal(false, rest);
      WalkNormal(pos[..|pos| - 1], rest);
      assert out[Ups(out)..] == rest[Ups(rest)..];
      assert Walk(pos, out) == Walk(pos[..|pos| - 1], rest);
      assert pos[..|pos| - 1][..|pos| - 1 - Ups(rest)] == pos[..|pos| - Ups(out)];
    } else {
      NoUps(out);
      WalkNames(pos, out);
      assert out[0..] == out && pos[..|pos|] == pos;
    }
  }

  lemma {:induction false} NoUps(out: seq<string>)
    requires Normal(false, out) && (out != [] ==> out[0] != "..")
    ensures Normal(true, out)
  {
    var i := 0;
    while i < |out|
      invariant 0 <= i <= |out|
      invariant ".." !in out[..i]
    {
      assert i > 0 ==> out[i - 1] in out[..i];
      assert out[..i + 1] == out[..i] + [out[i]];
      i := i + 1;
    }
    assert out[..|out|] == out;
  }

  /** Probing with a directory of '/'-named levels, which no component can be named after. */
  function Marked(n: nat): (cwd: seq<string>)
    ensures |cwd| == n && forall i :: 0 <= i < n ==> cwd[i] == "/"
  {
    if n == 0 then [] else ["/"] + Marked(n - 1)
  }

  lemma {:induction false} MarkedSplit(m: nat, n: nat, a: seq<string>, b: seq<string>)
    requires Marked(m) + a == Marked(n) + b
    requires "/" !in a && "/" !in b
    ensures m == n && a == b
  {
    hide Marked;
    MarkedHead(m, a);
    MarkedHead(n, b);
    if m > 0 && n > 0 {
      MarkedSplit(m - 1, n - 1, a, b);
    }
  }

  lemma MarkedHead(n: nat, a: seq<string>)
    ensures n == 0 ==> Marked(n) + a == a
    ensures n > 0 ==> Marked(n) + a != [] && (Marked(n) + a)[0] == "/" && (Marked(n) + a)[1..] == Marked(n - 1) + a
  {
    if n > 0 {
      assert Marked(n)[1..] == Marked(n - 1);
    }
  }

  lemma NormalAvoidsMark(out: seq<string>)
    requires Normal(true, out)
    ensures "/" !in out
  {
    assert '/' in "/";
  }

  /** Normal stacks that lead to the same place from every directory are the same stack. */
  lemma NormalIsUnique(a: seq<string>, b: seq<string>)
    requires Normal(false, a) && Normal(false, b)
    requires forall cwd: seq<string> :: Walk(cwd, a) == Walk(cwd, b)
    ensures a == b
  {
    hide Walk, Normal, Marked, Ups;
    UpsBound(a);
    UpsBound(b);
    var n := Ups(a) + Ups(b);
    var ta, tb := a[Ups(a)..], b[Ups(b)..];
    WalkNormal(Marked(n), a);
    WalkNormal(Marked(n), b);
    assert Marked(n)[..n - Ups(a)] == Marked(Ups(b)) && Marked(n)[..n - Ups(b)] == Marked(Ups(a));
    assert Walk(Marked(n), a) == Walk(Marked(n), b);
    NormalAvoidsMark(ta);
    NormalAvoidsMark(tb);
    MarkedSplit(Ups(b), Ups(a), ta, tb);
    assert a == a[..Ups(a)] + ta && b == b[..Ups(b)] + tb;
    assert a[..Ups(a)] == b[..Ups(b)];
  }

  lemma UpsBound(out: seq<string>)
    ensures Ups(out) <= |out|
  {
  }

  /** Canonicalization decides lexical equivalence: two nonempty paths get the same canonical text
      exactly when both are absolute or both relative and they lead to the same place from everywhere. */
  lemma CanonicalDecidesEquivalence(p: string, q: string)
    requires p != "" && q != ""
    ensures CanonicalPath(p) == CanonicalPath(q) <==>
            IsAbsolute(p) == IsAbsolute(q) && forall cwd: seq<string> :: Resolve(cwd, p) == Resolve(cwd, q)
  {
    ComponentsNormal(p);
    ComponentsNormal(q);
    ComponentsOfRender(IsAbsolute(p), Components(p));
    ComponentsOfRender(IsAbsolute(q), Components(q));
    if CanonicalPath(p) == CanonicalPath(q) {
      forall cwd: seq<string> ensures Resolve(cwd, p) == Resolve(cwd, q) {
        CanonicalResolves(cwd, p);
        CanonicalResolves(cwd, q);
      }
    }
    if IsAbsolute(p) == IsAbsolute(q) && forall cwd: seq<string> :: Resolve(cwd, p) == Resolve(cwd, q) {
      var abs := IsAbsolute(p);
      forall cwd: seq<string> | abs ==> cwd == []
        ensures Walk(cwd, Components(p)) == Walk(cwd, Components(q))
      {
        FoldWalk(abs, cwd, [], Split(p, '/'));
        FoldWalk(abs, cwd, [], Split(q, '/'));
        assert Resolve(cwd, p) == Resolve(cwd, q);
      }
      if abs {
        WalkNames([], Components(p));
        WalkNames([], Components(q));
        assert [] + Components(p) == Components(p) && [] + Components(q) == Components(q);
        assert Walk([], Components(p)) == Walk([], Components(q));
      } else {
        NormalIsUnique(Components(p), Components(q));
      }
    }
  }

  // ---- directory-scoped prefixes ----

  lemma {:induction false} JoinPrefix(d: seq<string>, out: seq<string>)
    requires forall i :: 0 <= i < |out| ==> IsName(out[i])
    requires forall i :: 0 <= i < |d| ==> IsName(d[i])
    requires d != []
    ensures Join(d, '/') + "/" <= Join(out, '/') <==> |d| < |out| && d <= out
  {
    if |d| < |out| && d <= out {
      assert out == d + out[|d|..];
      JoinAppend(d, out[|d|..], '/');
    }
    var j, w := Join(d, '/') + "/", Join(out, '/');
    if j <= w {
      var rest := w[|j|..];
      assert w == Join(d, '/') + ['/'] + rest;
      SplitAppend(Join(d, '/'), rest, '/');
      assert forall p :: p in d ==> '/' !in p;
      assert forall p :: p in out ==> '/' !in p;
      SplitJoin(d, '/');
      assert out != [];
      SplitJoin(out, '/');
      assert out == d + Split(rest, '/');
    }
  }

  /** A canonical prefix matches a canonical absolute path exactly when the directory's components
      are a proper prefix of the path's: "/app" never reaches "/application". */
  lemma PrefixIsDirectoryScoped(dir: string, path: string)
    requires IsAbsolute(dir) && IsAbsolute(path) && CanonicalPath(path) == path && path != "/"
    ensures CanonicalPrefix(dir) <= path <==>
            |Components(dir)| < |Components(path)| && Components(dir) <= Components(path)
  {
    hide Components, Join;
    var d, out := Components(dir), Components(path);
    ComponentsNormal(dir);
    ComponentsNormal(path);
    JoinNames(d);
    JoinNames(out);
    assert path == "/" + Join(out, '/');
    if d != [] {
      assert CanonicalPrefix(dir) == "/" + (Join(d, '/') + "/");
      SameHeadPrefix('/', Join(d, '/') + "/", Join(out, '/'));
      JoinPrefix(d, out);
    } else {
      assert CanonicalPrefix(dir) == "/" by { EmptyJoin(); }
    }
  }

  lemma SameHeadPrefix(c: char, a: string, b: string)
    ensures [c] + a <= [c] + b <==> a <= b
  {
    assert ([c] + a)[1..] == a && ([c] + b)[1..] == b;
  }
}
