/** Which of the paths the compiler puts into a class the class's printed text still matches. */
module ClassMatching {
  import opened Strings
  import opened PathPatterns
  import opened Generalize
  import opened ClassifierAgreement

  predicate Literal(lit: string) { forall i :: 0 <= i < |lit| ==> lit[i] != '*' && lit[i] != '?' }

  lemma {:induction false} MatchLiteral(lit: string, glob: string, path: string)
    requires Literal(lit)
    ensures AareMatch(lit + glob, path) <==> lit <= path && AareMatch(glob, path[|lit|..])
    decreases |lit|
  {
    if lit == "" {
      assert lit + glob == glob && path[0..] == path;
    } else {
      assert (lit + glob)[1..] == lit[1..] + glob && (lit + glob)[0] == lit[0];
      if path != "" && path[0] == lit[0] {
        MatchLiteral(lit[1..], glob, path[1..]);
        assert lit <= path <==> lit[1..] <= path[1..];
        if lit <= path {
          assert path[1..][|lit| - 1..] == path[|lit|..];
        }
      }
    }
  }

  /** A `*` up to the next slash takes exactly one component. */
  lemma {:induction false} MatchComponent(comp: string, glob: string, rest: string)
    requires '/' !in comp
    ensures AareMatch("*/" + glob, comp + "/" + rest) <==> AareMatch(glob, rest)
    decreases |comp|
  {
    var g, path := "*/" + glob, comp + "/" + rest;
    assert g[0] == '*' && g[1] == '/' && g[1..] == "/" + glob && g[1..][1..] == glob;
    assert AareMatch(g, path) <==> AareMatch(g[1..], path) || (path != "" && path[0] != '/' && AareMatch(g, path[1..]));
    assert AareMatch(g[1..], path) <==> path[0] == '/' && AareMatch(glob, path[1..]);
    if comp == "" {
      assert path[0] == '/' && path[1..] == rest;
    } else {
      assert path[0] == comp[0] != '/' && path[1..] == comp[1..] + "/" + rest;
      MatchComponent(comp[1..], glob, rest);
    }
  }

  /** A closing `*` takes what has no slash. */
  lemma {:induction false} MatchLastStar(rest: string)
    ensures AareMatch("*", rest) <==> '/' !in rest
    decreases |rest|
  {
    assert "*"[1..] == "";
    if rest != "" {
      assert rest == [rest[0]] + rest[1..];
      MatchLastStar(rest[1..]);
    }
  }

  // ---- the texts ----

  /** The text of a process class after its component wildcard. */
  function TailGlob(c: PathPattern): string {
    if OpenEnded(c) then TailText(c) + "*" else if c == ProcPidOther then "<other>" else TailText(c)
  }

  lemma TextOfC(c: PathPattern)
    requires c.ProcPidCmdline? || c.ProcPidComm? || c.ProcPidCwd? || c.ProcPidCgroup?
    ensures c.AsStr() == PROC + ("*/" + TailGlob(c))
  {
  }

  lemma TextOfEM(c: PathPattern)
    requires c.ProcPidEnviron? || c.ProcPidExe? || c.ProcPidMaps? || c.ProcPidMem?
    ensures c.AsStr() == PROC + ("*/" + TailGlob(c))
  {
  }

  lemma TextOfMR(c: PathPattern)
    requires c.ProcPidMountinfo? || c.ProcPidMounts? || c.ProcPidRoot?
    ensures c.AsStr() == PROC + ("*/" + TailGlob(c))
  {
  }

  lemma TextOfSOther(c: PathPattern)
    requires c.ProcPidStat? || c.ProcPidStatus? || c.ProcPidOther?
    ensures c.AsStr() == PROC + ("*/" + TailGlob(c))
  {
  }

  lemma TextOfOpen(c: PathPattern)
    requires OpenEnded(c)
    ensures c.AsStr() == PROC + ("*/" + TailGlob(c))
  {
  }

  lemma TextOfClass(c: PathPattern)
    requires UnderPid(c)
    ensures c.AsStr() == PROC + ("*/" + TailGlob(c))
  {
    hide PathPattern.AsStr, TailGlob;
    if c.ProcPidCmdline? || c.ProcPidComm? || c.ProcPidCwd? || c.ProcPidCgroup? {
      TextOfC(c);
    } else if c.ProcPidEnviron? || c.ProcPidExe? || c.ProcPidMaps? || c.ProcPidMem? {
      TextOfEM(c);
    } else if c.ProcPidMountinfo? || c.ProcPidMounts? || c.ProcPidRoot? {
      TextOfMR(c);
    } else if c.ProcPidStat? || c.ProcPidStatus? || c.ProcPidOther? {
      TextOfSOther(c);
    } else {
      TextOfOpen(c);
    }
  }

  lemma TextsAreLiteral(c: PathPattern)
    ensures Literal(TailText(c)) && Literal("<other>") && Literal(PROC)
  {
  }

  /** What the tail glob matches, tail in hand. */
  lemma MatchTail(c: PathPattern, tail: string)
    requires UnderPid(c)
    ensures AareMatch(TailGlob(c), tail) <==>
            if OpenEnded(c) then TailText(c) <= tail && '/' !in tail[|TailText(c)|..]
            else tail == if c == ProcPidOther then "<other>" else TailText(c)
  {
    hide TailText, AareMatch, Literal;
    TextsAreLiteral(c);
    if OpenEnded(c) {
      MatchLiteral(TailText(c), "*", tail);
      if TailText(c) <= tail { MatchLastStar(tail[|TailText(c)|..]); }
    } else {
      MatchWhole(TailGlob(c), tail);
    }
  }

  lemma MatchWhole(lit: string, path: string)
    requires Literal(lit)
    ensures AareMatch(lit, path) <==> path == lit
  {
    assert lit + "" == lit;
    MatchLiteral(lit, "", path);
    if lit <= path {
      assert AareMatch("", path[|lit|..]) <==> path[|lit|..] == "";
      assert path == lit + path[|lit|..];
    }
  }

  /** A single file's class leaves its tail no choice. */
  lemma TailOfClass(tail: string)
    ensures var c := ClassOfTail(tail); UnderPid(c) && (!OpenEnded(c) && c != ProcPidOther ==> tail == TailText(c))
  {
    hide ClassOfTail, TailText;
    TailClass(tail);
    TailOfFirstHalf(tail);
    TailOfM(tail);
    TailOfRS(tail);
  }

  /** The printed text of the class a path is put into matches the path exactly when the class is a single
      file's, or the tail goes one level below the class's directory, or spells the placeholder out. */
  lemma OwnTextMatchesExactlyWhen(path: string)
    requires TryClassify(path).Some?
    ensures var c, tail := TryClassify(path).value, Tail(path);
      AareMatch(c.AsStr(), path) <==>
      if OpenEnded(c) then TailText(c) <= tail && '/' !in tail[|TailText(c)|..]
      else c != ProcPidOther || tail == "<other>"
  {
    hide Utf8, ClassOfTail, TailText, AareMatch, PathPattern.AsStr, Literal, TailGlob;
    var c, comp, tail := TryClassify(path).value, Component(path), Tail(path);
    PathSplits(path);
    TailOfClass(tail);
    TextOfClass(c);
    TextsAreLiteral(c);
    MatchLiteral(PROC, "*/" + TailGlob(c), path);
    MatchComponent(comp, TailGlob(c), tail);
    MatchTail(c, tail);
  }

  // ---- which paths the compiler puts into each class ----

  /** The path is "/proc/", one component, a slash and `tail`. */
  predicate Splits(path: string, comp: string, tail: string) { '/' !in comp && path == "/proc/" + comp + "/" + tail }

  lemma SplitsOnce(path: string, comp: string, tail: string)
    requires Splits(path, comp, tail)
    ensures TryClassify(path) == Some(ClassOfTail(tail))
  {
    hide ClassOfTail;
    var rest := comp + "/" + tail;
    assert path == PROC + rest && path[6..] == rest;
    assert rest[..|comp|] == comp && rest[|comp|] == '/' && rest[|comp| + 1..] == tail;
    IndexOfUnique(rest, '/', |comp|);
  }

  /** The class's text is the tail's under the component wildcard; or, for a directory of the process, the
      wildcard of the directory the tail goes into. */
  ghost predicate SpelledBy(c: PathPattern, tail: string) {
    || c.AsStr() == "/proc/*/" + tail
    || exists dir, rest :: tail == dir + "/" + rest && c.AsStr() == "/proc/*/" + dir + "/*"
  }

  lemma SameTail(c: PathPattern, tail: string)
    requires UnderPid(c)
    ensures c.AsStr() == "/proc/*/" + tail <==> tail == TailGlob(c)
  {
    hide PathPattern.AsStr, TailGlob;
    TextOfClass(c);
    assert c.AsStr()[8..] == TailGlob(c);
    assert ("/proc/*/" + tail)[8..] == tail;
    assert PROC + ("*/" + tail) == "/proc/*/" + tail;
  }

  lemma OpenIsSpelled(c: PathPattern, tail: string)
    requires OpenEnded(c)
    ensures SpelledBy(c, tail) <==> TailText(c) <= tail
  {
    hide PathPattern.AsStr, TailGlob;
    var text := TailText(c);
    DirOfOpen(c);
    var dir := text[..|text| - 1];
    assert text == dir + "/";
    assert TailGlob(c) == text + "*" by { OpenGlob(c); }
    if text <= tail {
      var rest := tail[|text|..];
      assert tail == dir + "/" + rest && TailGlob(c) == dir + "/*";
      SameTail(c, dir + "/*");
      assert "/proc/*/" + (dir + "/*") == "/proc/*/" + dir + "/*";
    }
    SameTail(c, tail);
    forall d, rest | tail == d + "/" + rest && c.AsStr() == "/proc/*/" + d + "/*" ensures text <= tail {
      SameTail(c, d + "/*");
      assert "/proc/*/" + (d + "/*") == "/proc/*/" + d + "/*";
      assert (d + "/*")[..|d| + 1] == d + "/" && (text + "*")[..|text|] == text;
    }
  }

  lemma DirOfOpen(c: PathPattern)
    requires OpenEnded(c)
    ensures var text := TailText(c); text != "" && text[|text| - 1] == '/' && '/' !in text[..|text| - 1]
  {
  }

  lemma OpenGlob(c: PathPattern)
    requires OpenEnded(c)
    ensures TailGlob(c) == TailText(c) + "*"
  {
    hide TailText;
  }

  predicate Single(c: PathPattern) { UnderPid(c) && !OpenEnded(c) && c != ProcPidOther }

  lemma SingleTexts(c: PathPattern)
    requires Single(c)
    ensures '/' !in TailText(c) && TailGlob(c) == TailText(c) && '*' !in TailGlob(c)
  {
  }

  /** The single file's class with a text of this length and initial. */
  function SingleOf(len: nat, initial: char): PathPattern {
    match (len, initial)
    case (3, 'c') => ProcPidCwd case (3, 'e') => ProcPidExe case (3, 'm') => ProcPidMem
    case (4, 'c') => ProcPidComm case (4, 'm') => ProcPidMaps case (4, 'r') => ProcPidRoot case (4, 's') => ProcPidStat
    case (6, 'c') => ProcPidCgroup case (6, 'm') => ProcPidMounts case (6, 's') => ProcPidStatus
    case (7, 'c') => ProcPidCmdline case (7, 'e') => ProcPidEnviron
    case _ => ProcPidMountinfo
  }

  lemma SingleTextsApart(c: PathPattern)
    requires Single(c)
    ensures TailText(c) != "" && SingleOf(|TailText(c)|, TailText(c)[0]) == c
  {
  }

  lemma SlashInDir(c: PathPattern, tail: string)
    requires OpenEnded(c) && TailText(c) <= tail
    ensures '/' in tail
  {
    DirOfOpen(c);
    assert tail[|TailText(c)| - 1] == '/';
  }

  /** What no test finds is no single file of the process. */
  lemma OtherIsNoFile(c: PathPattern, tail: string)
    requires Single(c) && ClassOfTail(tail) == ProcPidOther
    ensures tail != TailText(c)
  {
  }

  lemma SinglesFound(c: PathPattern, tail: string)
    requires Single(c)
    ensures ClassOfTail(tail) == c <==> tail == TailText(c)
  {
    hide ClassOfTail, TailText, TailGlob;
    var d := ClassOfTail(tail);
    TailStartsWithText(tail);
    TailOfClass(tail);
    if tail == TailText(c) {
      if d == ProcPidOther {
        OtherIsNoFile(c, tail);
      } else if OpenEnded(d) {
        SlashInDir(d, tail);
        SingleTexts(c);
      } else {
        SingleTextsApart(c);
        SingleTextsApart(d);
      }
    }
  }

  /** What no test finds goes into no directory of the process. */
  lemma OtherGoesNowhere(c: PathPattern, tail: string)
    requires OpenEnded(c) && ClassOfTail(tail) == ProcPidOther
    ensures !(TailText(c) <= tail)
  {
  }

  lemma OpenTextsApart(c: PathPattern, d: PathPattern, tail: string)
    requires OpenEnded(c) && OpenEnded(d) && TailText(c) <= tail && TailText(d) <= tail
    ensures c == d
  {
    assert tail[0] == TailText(c)[0] == TailText(d)[0] && tail[1] == TailText(c)[1] == TailText(d)[1];
  }

  lemma OpenFound(c: PathPattern, tail: string)
    requires OpenEnded(c)
    ensures ClassOfTail(tail) == c <==> TailText(c) <= tail
  {
    hide ClassOfTail, TailText, TailGlob;
    var d := ClassOfTail(tail);
    TailStartsWithText(tail);
    TailOfClass(tail);
    if TailText(c) <= tail {
      SlashInDir(c, tail);
      if d == ProcPidOther {
        OtherGoesNowhere(c, tail);
      } else if OpenEnded(d) {
        OpenTextsApart(c, d, tail);
      } else {
        SingleTexts(d);
      }
    }
  }

  lemma NoDirText(c: PathPattern, dir: string)
    requires Single(c)
    ensures c.AsStr() != "/proc/*/" + dir + "/*"
  {
    hide PathPattern.AsStr, TailText, TailGlob;
    assert "/proc/*/" + (dir + "/*") == "/proc/*/" + dir + "/*";
    assert (dir + "/*")[|dir| + 1] == '*';
    SingleTexts(c);
    SameTail(c, dir + "/*");
  }

  lemma SingleIsSpelled(c: PathPattern, tail: string)
    requires Single(c)
    ensures SpelledBy(c, tail) <==> tail == TailText(c)
  {
    hide PathPattern.AsStr, TailText, TailGlob;
    SameTail(c, tail);
    SingleTexts(c);
    forall d ensures c.AsStr() != "/proc/*/" + d + "/*" {
      NoDirText(c, d);
    }
  }

  lemma OthersUnspelled(c: PathPattern, tail: string)
    requires !UnderPid(c)
    ensures !SpelledBy(c, tail)
  {
    NoComponentStar(c);
    forall rest ensures c.AsStr() != "/proc/*/" + rest {
      assert ("/proc/*/" + rest)[6] == '*' && ("/proc/*/" + rest)[5] == '/' && ("/proc/*/" + rest)[1] == 'p';
    }
    forall d ensures c.AsStr() != "/proc/*/" + d + "/*" {
      assert "/proc/*/" + d + "/*" == "/proc/*/" + (d + "/*");
    }
  }

  lemma NoComponentStar(c: PathPattern)
    requires !UnderPid(c)
    ensures var t := c.AsStr(); |t| >= 7 ==> t[6] != '*' || t[5] != '/' || t[1] != 'p'
  {
  }

  /** A path is put into a named process class exactly when the class's text spells it. */
  lemma ClassTaken(path: string, comp: string, tail: string, c: PathPattern)
    requires Splits(path, comp, tail) && c != ProcPidOther
    ensures TryClassify(path) == Some(c) <==> SpelledBy(c, tail)
  {
    hide PathPattern.AsStr, TailGlob, ClassOfTail, TailText, SpelledBy;
    SplitsOnce(path, comp, tail);
    TailClass(tail);
    if OpenEnded(c) {
      OpenIsSpelled(c, tail);
      OpenFound(c, tail);
    } else if UnderPid(c) {
      SingleIsSpelled(c, tail);
      SinglesFound(c, tail);
    } else {
      OthersUnspelled(c, tail);
    }
  }

  /** The compiler classifies exactly the paths that go below a component of /proc: the class is the one
      whose text spells the path, and the catch-all one when there is none. */
  lemma ClassifiedExactly(path: string)
    ensures TryClassify(path).Some? <==> exists comp, tail :: Splits(path, comp, tail)
    ensures forall comp, tail :: Splits(path, comp, tail) ==>
      && (forall c :: c != ProcPidOther ==> (TryClassify(path) == Some(c) <==> SpelledBy(c, tail)))
      && (TryClassify(path) == Some(ProcPidOther) <==> forall c :: c != ProcPidOther ==> !SpelledBy(c, tail))
  {
    hide PathPattern.AsStr, SpelledBy, TryClassify, ClassOfTail;
    if TryClassify(path).Some? {
      PathSplits(path);
      assert Splits(path, Component(path), Tail(path)) by { PathIsSplit(path); }
    }
    forall comp, tail | Splits(path, comp, tail)
      ensures TryClassify(path).Some?
      ensures forall c :: c != ProcPidOther ==> (TryClassify(path) == Some(c) <==> SpelledBy(c, tail))
    {
      SplitsOnce(path, comp, tail);
      forall c | c != ProcPidOther ensures TryClassify(path) == Some(c) <==> SpelledBy(c, tail) {
        ClassTaken(path, comp, tail, c);
      }
    }
  }

  lemma PathIsSplit(path: string)
    requires TryClassify(path).Some?
    ensures Splits(path, Component(path), Tail(path))
  {
    hide TryClassify;
    PathSplits(path);
    assert path == path[..|PROC|] + path[|PROC|..];
    assert "/proc/" + (Component(path) + "/" + Tail(path)) == "/proc/" + Component(path) + "/" + Tail(path);
  }
}
