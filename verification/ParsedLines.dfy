/** What the parser makes of hand-written lines: every permission token in both orders, and the words a
    rule may start with. */
module ParsedLines {
  import opened Strings
  import opened Text
  import opened PathPatterns
  import opened Ir
  import opened AppArmorPrinter
  import opened AppArmorParser
  import opened RoundTrip

  // ---- the lines ----

  /** Access letters and execution transitions. */
  predicate PermToken(t: string) { t != "" && forall i :: 0 <= i < |t| ==> t[i] in "rwalkmxipcuPCU" }

  /** A word before a rule that the rule does not keep. */
  predicate Qualifier(q: string) { q == "owner" || q == "audit" || ("priority=" <= q && !HasWs(q)) }

  predicate Qualifiers(qs: seq<string>) { forall i :: 0 <= i < |qs| ==> Qualifier(qs[i]) }

  function Spoken(qs: seq<string>): string { if qs == [] then "" else qs[0] + " " + Spoken(qs[1..]) }

  predicate VerdictWord(w: string) { w == "" || w == "deny " || w == "allow " }

  /** A file rule: the path and then the permissions, or the other way round. */
  function RuleBody(path: string, t: string, permsFirst: bool): string {
    if permsFirst then t + " " + path else QuoteIfNeeded(path) + " " + t
  }

  /** The path comes through: put first it is quoted when it has white space, and put last it is cut at
      trailing commas and white space. */
  predicate Spellable(path: string, permsFirst: bool) {
    "/" <= path && if permsFirst then path[|path| - 1] != ',' && !IsWs(path[|path| - 1]) else HasWs(path) ==> '"' !in path
  }

  function LineText(before: seq<string>, word: string, after: seq<string>, body: string): string {
    "  " + (Spoken(before) + (word + (Spoken(after) + body))) + ","
  }

  // ---- words that start no other rule ----

  /** A text that starts with a permission token and a space starts with no word that has another letter. */
  lemma TokenApart(t: string, rest: string, lit: string, k: nat)
    requires PermToken(t) && k < |lit| && lit[k] !in "rwalkmxipcuPCU" && ' ' !in lit[..k + 1]
    ensures !(lit <= t + " " + rest)
  {
    var s := t + " " + rest;
    if k < |t| {
      assert s[k] == t[k];
    } else {
      assert s[|t|] == ' ';
      assert lit[|t|] == lit[..k + 1][|t|];
    }
  }

  /** None of the words the parser looks for at the start of a line or a rule. */
  predicate StartsPlain(s: string) {
    && !("#" <= s) && !("profile" <= s) && !("abi " <= s) && !("include" <= s) && !("@" <= s) && !("{" <= s) && !("}" <= s)
    && !("deny " <= s) && !("allow " <= s) && StartsBare(s)
  }

  predicate StartsBare(s: string) {
    !("owner " <= s) && !("audit " <= s) && !("priority=" <= s) && !("network" <= s)
  }

  predicate Letter(c: char) { c in "rwalkmxipcuPCU" }

  lemma LettersOf(c: char)
    ensures Letter(c) ==>
      || c == 'r' || c == 'w' || c == 'a' || c == 'l' || c == 'k' || c == 'm' || c == 'x'
      || c == 'i' || c == 'p' || c == 'c' || c == 'u' || c == 'P' || c == 'C' || c == 'U'
  {
  }

  lemma TokenStartsNoPreamble(t: string, rest: string)
    requires PermToken(t)
    ensures var s := t + " " + rest; !("profile" <= s) && !("abi " <= s) && !("include" <= s)
  {
    hide PermToken;
    LettersOf('o');
    LettersOf('b');
    LettersOf('n');
    TokenApart(t, rest, "profile", 2);
    TokenApart(t, rest, "abi ", 1);
    TokenApart(t, rest, "include", 1);
  }

  lemma TokenStartsNoMark(t: string, rest: string)
    requires PermToken(t)
    ensures var s := t + " " + rest; !("#" <= s) && !("@" <= s) && !("{" <= s) && !("}" <= s)
  {
    assert (t + " " + rest)[0] == t[0];
    LettersOf(t[0]);
  }

  lemma TokenStartsNoVerdict(t: string, rest: string)
    requires PermToken(t)
    ensures var s := t + " " + rest; !("deny " <= s) && !("allow " <= s) && !("network" <= s)
  {
    hide PermToken;
    LettersOf('d');
    LettersOf('o');
    LettersOf('n');
    TokenApart(t, rest, "deny ", 0);
    TokenApart(t, rest, "allow ", 3);
    TokenApart(t, rest, "network", 0);
  }

  lemma TokenStartsNoQualifier(t: string, rest: string)
    requires PermToken(t)
    ensures var s := t + " " + rest; !("owner " <= s) && !("audit " <= s) && !("priority=" <= s)
  {
    hide PermToken;
    LettersOf('o');
    LettersOf('d');
    TokenApart(t, rest, "owner ", 0);
    TokenApart(t, rest, "audit ", 2);
    TokenApart(t, rest, "priority=", 3);
  }

  lemma TokenStartsPlain(t: string, rest: string)
    requires PermToken(t)
    ensures StartsPlain(t + " " + rest)
  {
    hide PermToken;
    TokenStartsNoPreamble(t, rest);
    TokenStartsNoMark(t, rest);
    TokenStartsNoVerdict(t, rest);
    TokenStartsNoQualifier(t, rest);
  }

  lemma PathStartsPlain(s: string)
    requires s != "" && (s[0] == '/' || s[0] == '"')
    ensures StartsPlain(s)
  {
  }

  /** The text of a rule as the parser can find it in a line: nothing to trim, no comma at its end. */
  predicate Whole(b: string) { Solid(b) && b[|b| - 1] != ',' && StartsPlain(b) }

  lemma TokenIsSolid(t: string)
    requires PermToken(t)
    ensures t != "" && !HasWs(t) && forall i :: 0 <= i < |t| ==> !IsWs(t[i]) && t[i] != ',' && t[i] != '"' && t[i] != '/'
  {
    hide IsWs;
    forall i | 0 <= i < |t| ensures !IsWs(t[i]) && t[i] != ',' && t[i] != '"' && t[i] != '/' {
      LettersOf(t[i]);
      LetterIsPlain(t[i]);
    }
  }

  lemma LetterIsPlain(c: char)
    requires 'C' <= c <= 'x'
    ensures !IsWs(c) && c != ',' && c != '"' && c != '/'
  {
  }

  lemma PathFirstIsWhole(path: string, t: string)
    requires PermToken(t) && Spellable(path, false)
    ensures Whole(RuleBody(path, t, false))
  {
    hide PermToken, StartsPlain, HasWs;
    TokenIsSolid(t);
    var b := RuleBody(path, t, false);
    var q := QuoteIfNeeded(path);
    assert q != "" && (q[0] == '/' || q[0] == '"');
    assert b == q + " " + t && b[0] == q[0] && b[|b| - 1] == t[|t| - 1];
    PathStartsPlain(b);
  }

  lemma PermsFirstIsWhole(path: string, t: string)
    requires PermToken(t) && Spellable(path, true)
    ensures Whole(RuleBody(path, t, true))
  {
    hide PermToken, StartsPlain, HasWs;
    TokenIsSolid(t);
    TokenStartsPlain(t, path);
    var b := RuleBody(path, t, true);
    assert b[0] == t[0] && b[|b| - 1] == path[|path| - 1];
  }

  lemma BodyIsWhole(path: string, t: string, permsFirst: bool)
    requires PermToken(t) && Spellable(path, permsFirst)
    ensures Whole(RuleBody(path, t, permsFirst))
  {
    hide *;
    if permsFirst { PermsFirstIsWhole(path, t); } else { PathFirstIsWhole(path, t); }
  }

  // ---- qualifiers ----

  lemma QualifierShape(q: string, rest: string)
    requires Qualifier(q)
    ensures var s := q + " " + rest;
      && q != "" && !HasWs(q) && !IsWs(s[0])
      && (q == "owner" ==> "owner " <= s && s[6..] == rest)
      && (q == "audit" ==> !("owner " <= s) && "audit " <= s && s[6..] == rest)
      && (q != "owner" && q != "audit" ==>
            !("owner " <= s) && !("audit " <= s) && "priority=" <= s && FirstWs(s) == |q| && s[|q| + 1..] == rest)
  {
    var s := q + " " + rest;
    assert s[|q|] == ' ' && s[|q| + 1..] == rest;
    assert forall i :: 0 <= i < |q| ==> s[i] == q[i];
    if q == "owner" || q == "audit" {
      assert s[0] == 'o' || (s[0] == 'a' && s[1] == 'u');
    } else {
      assert s[0] == 'p';
    }
  }

  /** Qualifiers, in any number and order, are skipped. */
  lemma {:induction false} QualifiersAreStripped(qs: seq<string>, rest: string)
    requires Qualifiers(qs) && rest != "" && !IsWs(rest[0]) && StartsBare(rest)
    ensures Stripped(Spoken(qs) + rest) == rest
    decreases |qs|
  {
    hide Qualifier, HasWs, FirstWs, IsWs;
    if qs == [] {
      assert "" + rest == rest;
    } else {
      var more := Spoken(qs[1..]) + rest;
      var s := qs[0] + " " + more;
      assert Spoken(qs) + rest == s;
      QualifierShape(qs[0], more);
      QualifiersAreStripped(qs[1..], rest);
      assert TrimStart(s) == s;
    }
  }

  /** A line that starts with a qualifier is no preamble and shows no verdict. */
  lemma QualifierStartsRule(q: string, rest: string)
    requires Qualifier(q)
    ensures var s := q + " " + rest;
      && !("#" <= s) && !("profile" <= s) && !("abi " <= s) && !("include" <= s) && !("@" <= s) && !("{" <= s)
      && !("}" <= s) && !("deny " <= s) && !("allow " <= s)
  {
    var s := q + " " + rest;
    assert forall i :: 0 <= i < |q| ==> s[i] == q[i];
    if q == "owner" {
      assert s[0] == 'o';
    } else if q == "audit" {
      assert s[0] == 'a' && s[1] == 'u';
    } else {
      assert s[0] == 'p' && s[1] == 'r' && s[2] == 'i';
    }
  }

  predicate NoPreamble(s: string) {
    !("#" <= s) && !("profile" <= s) && !("abi " <= s) && !("include" <= s) && !("@" <= s) && !("{" <= s) && !("}" <= s)
  }

  lemma WordStartsRule(word: string, rest: string)
    requires word == "deny " || word == "allow "
    ensures NoPreamble(word + rest) && StartsBare(word + rest)
    ensures "deny " <= word + rest <==> word == "deny "
    ensures "allow " <= word + rest <==> word == "allow "
    ensures (word + rest)[|word|..] == rest && !IsWs((word + rest)[0])
  {
    var s := word + rest;
    assert s[0] == word[0] && s[1] == word[1];
  }

  /** What the line's text is cut into. */
  lemma RuleOfLine(x: string)
    requires Solid(x) && x[|x| - 1] != ',' && NoPreamble(x)
    ensures LineItems("  " + x + ",") == RuleItems(SplitVerdict(x).0, Stripped(SplitVerdict(x).1))
  {
    hide RuleItems, SplitVerdict, Stripped, TrimEndOf, Trim;
    assert "  " + x + "," == "  " + (x + ",");
    assert (x + ",")[|x|] == ',' && !IsWs(',');
    assert Solid(x + ",");
    TrimIndented(x + ",");
    NotSkippedLine(x);
    TrimEndCommaOnce(x);
    TrimSolid(x);
  }

  lemma NotSkippedLine(x: string)
    requires x != "" && NoPreamble(x)
    ensures !IsSkipped(x + ",")
  {
    var l := x + ",";
    assert l[0] == x[0] && l[|l| - 1] == ',';
    CommaKeepsStart(x, "profile");
    CommaKeepsStart(x, "abi ");
    CommaKeepsStart(x, "include");
  }

  lemma CommaKeepsStart(x: string, lit: string)
    requires ',' !in lit
    ensures lit <= x + "," <==> lit <= x
  {
    if |lit| == |x| + 1 {
      assert lit[|x|] in lit && (x + ",")[|x|] == ',';
    }
  }

  function VerdictOf(word: string): Verdict { if word == "deny " then Deny else Allow }

  lemma QualifierIsSolid(q: string, rest: string)
    requires Qualifier(q) && rest != "" && !IsWs(rest[|rest| - 1])
    ensures var s := q + " " + rest; Solid(s) && s[|s| - 1] == rest[|rest| - 1]
  {
    hide Qualifier, IsWs, HasWs, FirstWs;
    QualifierShape(q, rest);
  }

  lemma SpokenIsSolid(qs: seq<string>, b: string)
    requires Qualifiers(qs) && Solid(b)
    ensures var s := Spoken(qs) + b; Solid(s) && s[|s| - 1] == b[|b| - 1]
    ensures qs != [] ==> exists rest :: Spoken(qs) + b == qs[0] + " " + rest
  {
    hide Qualifier, IsWs;
    if qs == [] {
      assert Spoken(qs) + b == b;
    } else {
      var more := Spoken(qs[1..]);
      var rest := more + b;
      assert Spoken(qs) + b == qs[0] + " " + rest;
      assert rest[|rest| - 1] == b[|b| - 1];
      QualifierIsSolid(qs[0], rest);
    }
  }

  /** Nothing but the verdict word is looked for at the start of the line. */
  predicate Opens(s: string) { Solid(s) && s[|s| - 1] != ',' && NoPreamble(s) && !("deny " <= s) && !("allow " <= s) }

  lemma WholeOpens(b: string)
    requires Whole(b)
    ensures Opens(b) && b != "" && !IsWs(b[0]) && StartsBare(b)
  {
    hide IsWs;
  }

  lemma QualifierOpens(q: string, rest: string)
    requires Qualifier(q) && Solid(q + " " + rest) && (q + " " + rest)[|q + " " + rest| - 1] != ','
    ensures Opens(q + " " + rest)
  {
    hide IsWs, Qualifier;
    QualifierStartsRule(q, rest);
  }

  lemma RestOpens(after: seq<string>, b: string)
    requires Qualifiers(after) && Whole(b)
    ensures Opens(Spoken(after) + b) && Stripped(Spoken(after) + b) == b
  {
    hide Qualifier, IsWs, Opens, Whole, StartsBare, Stripped;
    WholeOpens(b);
    QualifiersAreStripped(after, b);
    if after == [] {
      assert "" + b == b;
    } else {
      assert Solid(b) && b[|b| - 1] != ',' by { OpensIsSolid(b); }
      SpokenIsSolid(after, b);
      var rest :| Spoken(after) + b == after[0] + " " + rest;
      QualifierOpens(after[0], rest);
    }
  }

  lemma OpensIsSolid(s: string)
    requires Opens(s)
    ensures Solid(s) && s[|s| - 1] != ',' && NoPreamble(s) && SplitVerdict(s) == (Allow, s)
  {
    hide IsWs;
  }

  /** The verdict word in front of a rule is taken off. */
  lemma WordOpens(word: string, r: string)
    requires word == "deny " || word == "allow "
    requires Opens(r)
    ensures Solid(word + r) && (word + r)[|word + r| - 1] != ',' && NoPreamble(word + r) && StartsBare(word + r)
    ensures SplitVerdict(word + r) == (VerdictOf(word), r) && !IsWs((word + r)[0])
  {
    hide IsWs, NoPreamble, StartsBare;
    WordStartsRule(word, r);
    TrimSolid(r);
    assert (word + r)[|word + r| - 1] == r[|r| - 1];
  }

  lemma WordOrNone(word: string, r: string)
    requires VerdictWord(word) && Opens(r)
    ensures var w := word + r;
      Solid(w) && w[|w| - 1] != ',' && NoPreamble(w) && SplitVerdict(w) == (VerdictOf(word), r)
  {
    hide Opens, SplitVerdict, NoPreamble, StartsBare, IsWs;
    if word == "" {
      assert word + r == r;
      OpensIsSolid(r);
    } else {
      WordOpens(word, r);
    }
  }

  lemma LineTextIs(before: seq<string>, word: string, after: seq<string>, b: string)
    ensures LineText(before, word, after, b) == "  " + (Spoken(before) + (word + (Spoken(after) + b))) + ","
    ensures LineText([], word, after, b) == "  " + (word + (Spoken(after) + b)) + ","
  {
    assert Spoken([]) + (word + (Spoken(after) + b)) == word + (Spoken(after) + b);
  }

  /** With the verdict word first, or none, the rule is read as written. */
  lemma VerdictFirst(word: string, after: seq<string>, b: string)
    requires VerdictWord(word) && Qualifiers(after) && Whole(b)
    ensures LineItems(LineText([], word, after, b)) == RuleItems(VerdictOf(word), b)
  {
    hide *;
    var r := Spoken(after) + b;
    RestOpens(after, b);
    WordOrNone(word, r);
    LineTextIs([], word, after, b);
    RuleOfLine(word + r);
  }

  /** What is left after the qualifiers that come first. */
  lemma LeftAfter(before: seq<string>, word: string, after: seq<string>, b: string)
    requires VerdictWord(word) && Qualifiers(before) && Qualifiers(after) && Whole(b)
    ensures var w := word + (Spoken(after) + b);
      Solid(w) && w[|w| - 1] != ',' && Stripped(Spoken(before) + w) == if word == "" then b else w
  {
    hide Stripped, Qualifier, Whole, Opens, SplitVerdict, NoPreamble, StartsBare, IsWs;
    var r := Spoken(after) + b;
    RestOpens(after, b);
    OpensIsSolid(r);
    var w := word + r;
    if word == "" {
      assert w == r;
      QualifiersJoin(before, after, b);
      WholeOpens(b);
      QualifiersAreStripped(before + after, b);
    } else {
      WordOpens(word, r);
      QualifiersAreStripped(before, w);
    }
  }

  lemma QualifiersOpen(before: seq<string>, w: string)
    requires before != [] && Qualifiers(before) && Solid(w) && w[|w| - 1] != ','
    ensures Opens(Spoken(before) + w)
  {
    hide Qualifier, Opens, IsWs;
    SpokenIsSolid(before, w);
    var rest :| Spoken(before) + w == before[0] + " " + rest;
    QualifierOpens(before[0], rest);
  }

  /** With a qualifier first the verdict word is not seen: it stays in front of the rule, which allows. */
  lemma QualifierFirst(before: seq<string>, word: string, after: seq<string>, b: string)
    requires before != [] && VerdictWord(word) && Qualifiers(before) && Qualifiers(after) && Whole(b)
    ensures LineItems(LineText(before, word, after, b)) ==
            RuleItems(Allow, if word == "" then b else word + (Spoken(after) + b))
  {
    hide *;
    var w := word + (Spoken(after) + b);
    LeftAfter(before, word, after, b);
    QualifiersOpen(before, w);
    OpensIsSolid(Spoken(before) + w);
    LineTextIs(before, word, after, b);
    RuleOfLine(Spoken(before) + w);
  }

  lemma {:induction false} QualifiersJoin(a: seq<string>, b: seq<string>, rest: string)
    ensures Spoken(a + b) + rest == Spoken(a) + (Spoken(b) + rest)
    decreases |a|
  {
    if a == [] {
      assert a + b == b && "" + (Spoken(b) + rest) == Spoken(b) + rest;
    } else {
      assert (a + b)[1..] == a[1..] + b;
      QualifiersJoin(a[1..], b, rest);
      var head, more := a[0] + " ", Spoken(b) + rest;
      assert Spoken(a + b) + rest == head + (Spoken(a[1..] + b) + rest);
      assert Spoken(a) + more == head + (Spoken(a[1..]) + more);
    }
  }

  // ---- permissions ----

  lemma TokenIsPerm(t: string)
    ensures PermToken(t) <==> IsPermToken(t)
  {
  }

  lemma PermsFirstSplits(path: string, t: string)
    requires PermToken(t) && Spellable(path, true)
    ensures SplitPathPerms(t + " " + path) == PathPerms.PathPerms(path, t)
  {
    hide PermToken, IsPermToken, IsWs, FirstWs, LastWs, Trim;
    var b := t + " " + path;
    TokenIsSolid(t);
    TokenIsPerm(t);
    assert b[0] == t[0] && IsWs(b[|t|]) by { SpaceIsWs(); }
    assert forall i :: 0 <= i < |t| ==> b[i] == t[i];
    assert FirstWs(b) == |t|;
    assert b[..|t|] == t && b[|t| + 1..] == path;
    assert Solid(path) by { SlashIsNoWs(); }
    TrimSolid(path);
  }

  lemma SpaceIsWs()
    ensures IsWs(' ')
  {
  }

  lemma SlashIsNoWs()
    ensures !IsWs('/')
  {
  }

  /** The first word of a rule is a permission token. */
  predicate LeadsWithToken(b: string) { IsPermToken(b[..FirstWs(b)]) }

  lemma TokenIsLast(head: string, t: string)
    requires PermToken(t)
    ensures var b := head + " " + t; LastWs(b) == |head| && b[..|head|] == head && b[|head| + 1..] == t && b[|head|] == ' '
  {
    hide PermToken, IsWs, LastWs;
    var b := head + " " + t;
    TokenIsSolid(t);
    SpaceIsWs();
    assert b[|head|] == ' ';
    assert forall i :: |head| < i < |b| ==> b[i] == t[i - |head| - 1];
    assert LastWs(b) == |head| by { LastWsUnique(b, |head|); }
  }

  lemma LastWsUnique(s: string, n: nat)
    requires n < |s| && IsWs(s[n]) && forall i :: n < i < |s| ==> !IsWs(s[i])
    ensures LastWs(s) == n
  {
    hide IsWs;
    var l := LastWs(s);
  }

  lemma TrailingTokenSplits(head: string, t: string)
    requires PermToken(t) && Solid(head) && head[0] != '"' && !LeadsWithToken(head + " " + t)
    ensures SplitPathPerms(head + " " + t) == PathPerms.PathPerms(head, t)
  {
    hide PermToken, IsPermToken, IsWs, FirstWs, LastWs, Trim;
    TokenIsLast(head, t);
    TokenIsPerm(t);
    TokenIsSolid(t);
    assert (head + " " + t)[0] == head[0];
    assert |EncodeChar(' ')| == 1;
    TrimSolid(head);
    TrimSolid(t);
  }

  lemma UnquotedPathSplits(path: string, t: string)
    requires PermToken(t) && "/" <= path && !HasWs(path)
    ensures SplitPathPerms(path + " " + t) == PathPerms.PathPerms(path, t)
  {
    hide PermToken, IsWs, FirstWs, IsPermToken, SplitPathPerms;
    var b := path + " " + t;
    assert b[0] == '/' && path[0] == '/';
    SlashIsNoWs();
    assert !IsPermToken(b[..FirstWs(b)]) by {
      assert b[..FirstWs(b)] == "" || b[..FirstWs(b)][0] == '/';
      SlashIsNoToken(b[..FirstWs(b)]);
    }
    TrailingTokenSplits(path, t);
  }

  lemma SlashIsNoToken(s: string)
    requires s == "" || s[0] == '/'
    ensures !IsPermToken(s)
  {
    LettersOf('/');
  }

  lemma QuotedPathSplits(path: string, t: string)
    requires PermToken(t) && '"' !in path
    ensures SplitPathPerms("\"" + path + "\"" + " " + t) == PathPerms.PathPerms(path, t)
  {
    hide PermToken, IsPermToken, IsWs, FirstWs, LastWs, Trim;
    var b := "\"" + path + "\"" + " " + t;
    var rest := b[1..];
    assert rest == path + "\"" + " " + t;
    assert rest[..|path|] == path && rest[|path|] == '"';
    IndexOfUnique(rest, '"', |path|);
    assert rest[|path| + 1..] == " " + t;
    TokenIsSolid(t);
    TrimIndented(t);
  }

  lemma BodySplits(path: string, t: string, permsFirst: bool)
    requires PermToken(t) && Spellable(path, permsFirst)
    ensures forall v :: RuleItems(v, RuleBody(path, t, permsFirst)) == Some(FileItems(v, path, t))
  {
    hide PermToken, SplitPathPerms, FileItems, NetworkOf, IsWs;
    BodyIsWhole(path, t, permsFirst);
    if permsFirst {
      PermsFirstSplits(path, t);
    } else if HasWs(path) {
      QuotedPathSplits(path, t);
    } else {
      UnquotedPathSplits(path, t);
    }
  }

  /** The rules a token asks for, each once and nothing else: reading for an `r`, writing for a `w` or an
      `a`, and execution for an `x`. */
  ghost predicate AsksFor(items: Option<seq<Item>>, v: Verdict, path: string, t: string) {
    && items.Some?
    && (forall i, j :: 0 <= i < j < |items.value| ==> items.value[i] != items.value[j])
    && (forall item :: item in items.value <==>
          || ('r' in t && item == Item(File(FileObject(GlobToPattern(path), false)), FileRead, v))
          || (('w' in t || 'a' in t) && item == Item(File(FileObject(GlobToPattern(path), false)), FileWrite, v))
          || ('x' in t && item == Item(Process(ProcessObject(BinaryPath(path))), ProcExec, v)))
  }

  lemma TokenAsks(v: Verdict, path: string, t: string)
    ensures AsksFor(Some(FileItems(v, path, t)), v, path, t)
  {
    hide GlobToPattern;
  }

  /** Every permission token on every absolute path, in both orders, with the verdict word first or missing
      and any qualifiers besides: the line says what the token asks for, with the verdict of its word. */
  lemma PermissionsRead(before: seq<string>, word: string, after: seq<string>, path: string, t: string, permsFirst: bool)
    requires Qualifiers(before) && VerdictWord(word) && Qualifiers(after)
    requires PermToken(t) && Spellable(path, permsFirst)
    requires before == [] || word == ""
    ensures var line := "  " + (Spoken(before) + (word + (Spoken(after) + RuleBody(path, t, permsFirst)))) + ",";
      AsksFor(LineItems(line), if word == "deny " then Deny else Allow, path, t)
  {
    hide PermToken, Spellable, AsksFor, LineItems, RuleItems, Qualifiers, Whole, RuleBody;
    var b := RuleBody(path, t, permsFirst);
    BodyIsWhole(path, t, permsFirst);
    BodySplits(path, t, permsFirst);
    if before == [] {
      VerdictFirst(word, after, b);
    } else {
      QualifierFirst(before, word, after, b);
    }
    TokenAsks(VerdictOf(word), path, t);
  }

  // ---- a qualifier before the verdict word ----

  lemma WordedSplits(word: string, path: string, t: string)
    requires word == "deny " || word == "allow "
    requires PermToken(t) && "/" <= path && !HasWs(path)
    ensures forall v :: RuleItems(v, word + (path + " " + t)) == Some(FileItems(v, word + path, t))
  {
    hide PermToken, IsWs, FirstWs, SplitPathPerms, FileItems, NetworkOf;
    var b := word + (path + " " + t);
    assert b == (word + path) + " " + t;
    FirstWordIsVerdict(word, b, path + " " + t);
    WordedIsSolid(word, path);
    TrailingTokenSplits(word + path, t);
    WordStartsRule(word, path + " " + t);
  }

  lemma WordedIsSolid(word: string, path: string)
    requires word == "deny " || word == "allow "
    requires "/" <= path && !HasWs(path)
    ensures Solid(word + path)
  {
    assert (word + path)[|word + path| - 1] == path[|path| - 1];
  }

  lemma FirstWordIsVerdict(word: string, b: string, rest: string)
    requires (word == "deny " || word == "allow ") && b == word + rest
    ensures !LeadsWithToken(b)
  {
    hide IsWs, FirstWs, IsPermToken;
    SpaceIsWs();
    VerdictLetters();
    var n := |word| - 1;
    assert b[n] == ' ' && forall i :: 0 <= i < n ==> b[i] == word[i];
    FirstWsUnique(b, n);
    assert b[..n] == word[..n];
    VerdictIsNoToken();
  }

  lemma FirstWsUnique(s: string, n: nat)
    requires n < |s| && IsWs(s[n]) && forall i :: 0 <= i < n ==> !IsWs(s[i])
    ensures FirstWs(s) == n
  {
    hide IsWs;
    var l := FirstWs(s);
  }

  lemma VerdictIsNoToken()
    ensures !IsPermToken("deny "[..4]) && !IsPermToken("allow "[..5])
  {
    LettersOf('d');
    LettersOf('o');
    assert "deny "[..4][0] == 'd' && "allow "[..5][3] == 'o';
  }

  lemma VerdictLetters()
    ensures forall i :: 0 <= i < 4 ==> !IsWs("deny "[i])
    ensures forall i :: 0 <= i < 5 ==> !IsWs("allow "[i])
  {
  }

  /** The text a pattern is about. */
  function TextOf(p: FilePattern): string {
    match p case ExactPath(path) => path case Prefix(d) => d case Classified(c) => c.AsStr()
  }

  lemma SlashKept(glob: string)
    requires "/" <= glob && FirstWithText(KNOWN_PATTERNS, glob) == None
    ensures "/" <= TextOf(GlobToPattern(glob))
  {
    hide PathPattern.AsStr, FirstWithText;
    assert glob[0] == '/';
    if EndsWith(glob, "**") || EndsWith(glob, "/*") {
      var d := glob[..|glob| - 2];
      assert d == "" || d[0] == '/';
      assert "/" <= EnsureTrailingSlash(d);
    }
  }

  lemma OtherStartKept(glob: string)
    requires |glob| > 2 && glob[0] != '/' && FirstWithText(KNOWN_PATTERNS, glob) == None
    ensures !GlobToPattern(glob).Classified? && !("/" <= TextOf(GlobToPattern(glob)))
  {
    hide PathPattern.AsStr, FirstWithText;
    if EndsWith(glob, "**") || EndsWith(glob, "/*") {
      var d := glob[..|glob| - 2];
      assert d[0] == glob[0];
      assert EnsureTrailingSlash(d)[0] == d[0];
    }
  }

  /** A glob that does not start with a slash is taken for another pattern than one that does. */
  lemma StartsTellApart(worded: string, path: string)
    requires |worded| > 2 && worded[0] != '/' && "/" <= path
    ensures GlobToPattern(worded) != GlobToPattern(path)
  {
    hide PathPattern.AsStr, FirstWithText, EndsWith, EnsureTrailingSlash, TextOf;
    NoClassStarts(worded);
    OtherStartKept(worded);
    if FirstWithText(KNOWN_PATTERNS, path) == None {
      SlashKept(path);
    }
  }

  lemma NoClassStarts(glob: string)
    requires glob != "" && glob[0] != '/'
    ensures FirstWithText(KNOWN_PATTERNS, glob) == None
  {
    hide PathPattern.AsStr, FirstWithText, Printable;
    FirstWithTextIs(KNOWN_PATTERNS, glob);
    var f := FirstWithText(KNOWN_PATTERNS, glob);
    if f.Some? {
      KnownAreNoPlaceholders(f.value);
      ClassTextIsPrintable(f.value);
      PrintableStarts(f.value.AsStr());
    }
  }

  lemma PrintableStarts(p: string)
    requires Printable(p)
    ensures p != "" && p[0] == '/'
  {
  }

  /** With a qualifier before it, the verdict word is read as the start of the path, and the line allows. */
  lemma QualifierHidesVerdict(before: seq<string>, word: string, path: string, t: string)
    requires Qualifiers(before) && before != [] && (word == "deny " || word == "allow ")
    requires PermToken(t) && "/" <= path && !HasWs(path)
    ensures AsksFor(LineItems("  " + (Spoken(before) + (word + (path + " " + t))) + ","), Allow, word + path, t)
  {
    hide PermToken, Qualifiers, LineItems, RuleItems, AsksFor, Whole, HasWs;
    var b := RuleBody(path, t, false);
    assert b == path + " " + t;
    BodyIsWhole(path, t, false);
    assert Qualifiers([]) by { NoQualifiers(); }
    QualifierFirst(before, word, [], b);
    assert Spoken([]) + b == b;
    WordedSplits(word, path, t);
    TokenAsks(Allow, word + path, t);
  }

  lemma NoQualifiers()
    ensures Qualifiers([])
  {
  }

  /** The same rules cannot be asked for by a path with a verdict word stuck to it. */
  lemma WordedAsksElse(items: Option<seq<Item>>, word: string, path: string, t: string)
    requires word == "deny " || word == "allow "
    requires "/" <= path && ('r' in t || 'w' in t || 'a' in t || 'x' in t)
    requires AsksFor(items, Allow, word + path, t)
    ensures !AsksFor(items, VerdictOf(word), path, t)
  {
    hide GlobToPattern;
    StartsTellApart(word + path, path);
    if 'x' in t {
      var item := Item(Process(ProcessObject(BinaryPath(word + path))), ProcExec, Allow);
      assert (word + path)[0] != path[0];
      assert item in items.value;
    } else {
      var action := if 'r' in t then FileRead else FileWrite;
      var item := Item(File(FileObject(GlobToPattern(word + path), false)), action, Allow);
      assert item in items.value;
    }
  }

  lemma UnquotedBody(path: string, t: string)
    requires !HasWs(path)
    ensures Spoken([]) + RuleBody(path, t, false) == path + " " + t
  {
    hide HasWs;
  }

  /** An unquoted file rule that asks for something is read as written exactly when no qualifier stands
      before its verdict word. In the order AppArmor documents, `audit deny`, the denial is lost: the line
      allows the path that starts with "deny ". */
  lemma VerdictReadExactlyWhen(before: seq<string>, word: string, path: string, t: string)
    requires Qualifiers(before) && VerdictWord(word)
    requires PermToken(t) && "/" <= path && !HasWs(path) && ('r' in t || 'w' in t || 'a' in t || 'x' in t)
    ensures var items := LineItems("  " + (Spoken(before) + (word + (path + " " + t))) + ",");
      AsksFor(items, if word == "deny " then Deny else Allow, path, t) <==> before == [] || word == ""
  {
    hide PermToken, Qualifiers, LineItems, AsksFor, HasWs, RuleBody, Spoken;
    if before == [] || word == "" {
      NoQualifiers();
      PermissionsRead(before, word, [], path, t, false);
      assert Spoken([]) + RuleBody(path, t, false) == path + " " + t by { UnquotedBody(path, t); }
    } else {
      QualifierHidesVerdict(before, word, path, t);
      WordedAsksElse(LineItems("  " + (Spoken(before) + (word + (path + " " + t))) + ","), word, path, t);
    }
  }

  // ---- directory wildcards ----

  lemma Endings(d: string)
    ensures EndsWith(d + "**", "**") && (d + "**")[..|d|] == d
    ensures EndsWith(d + "/*", "/*") && !EndsWith(d + "/*", "**") && (d + "/*")[..|d|] == d
  {
    assert (d + "**")[|d|..] == "**" && (d + "/*")[|d|..] == "/*";
    assert "/*"[0] != "**"[0];
  }

  /** A wildcard for everything below a directory, and one for its entries, both become the directory's
      prefix, with the slash it needs. */
  lemma WildcardIsPrefix(d: string)
    ensures !IsClassText(d + "**") ==>
              GlobToPattern(d + "**") == Prefix(if d != "" && d[|d| - 1] == '/' then d else d + "/")
    ensures !IsClassText(d + "/*") && (d == "" || d[|d| - 1] != '/') ==> GlobToPattern(d + "/*") == Prefix(d + "/")
  {
    hide IsClassText, IsTextOf, PathPattern.AsStr, EndsWith, FirstWithText;
    Endings(d);
    ExactGlob(d + "**");
    ExactGlob(d + "/*");
  }

  // ---- quoted paths ----

  /** After a quoted path the permissions are not checked: whatever stands there is searched for letters. */
  lemma QuotedIsNeverChecked(path: string, rest: string)
    requires '"' !in path && Solid(rest) && rest[|rest| - 1] != ','
    ensures AsksFor(LineItems("  " + ("\"" + path + "\"" + " " + rest) + ","), Allow, path, rest)
  {
    hide LineItems, RuleItems, AsksFor, FileItems, Whole, IsWs, SplitPathPerms;
    var b := "\"" + path + "\"" + " " + rest;
    QuotedRest(path, rest);
    assert b[0] == '"' && b[|b| - 1] == rest[|rest| - 1];
    assert Whole(b) by { QuotedIsWhole(b); }
    NoQualifiers();
    VerdictFirst("", [], b);
    LineTextIs([], "", [], b);
    assert Spoken([]) + b == b && "" + b == b;
    assert RuleItems(Allow, b) == Some(FileItems(Allow, path, rest)) by { QuotedItems(b, path, rest); }
    TokenAsks(Allow, path, rest);
  }

  lemma QuotedItems(b: string, path: string, rest: string)
    requires b != "" && b[0] == '"' && SplitPathPerms(b) == PathPerms.PathPerms(path, rest)
    ensures RuleItems(Allow, b) == Some(FileItems(Allow, path, rest))
  {
    hide SplitPathPerms, FileItems, NetworkOf;
    assert "network"[0] == 'n';
  }

  lemma QuotedIsWhole(b: string)
    requires b != "" && b[0] == '"' && !IsWs(b[|b| - 1]) && b[|b| - 1] != ','
    ensures Whole(b)
  {
    hide StartsPlain;
    PathStartsPlain(b);
  }

  lemma QuotedRest(path: string, rest: string)
    requires '"' !in path && Solid(rest)
    ensures SplitPathPerms("\"" + path + "\"" + " " + rest) == PathPerms.PathPerms(path, rest)
  {
    hide IsPermToken, IsWs, FirstWs, LastWs, Trim;
    var b := "\"" + path + "\"" + " " + rest;
    var tail := b[1..];
    assert tail == path + "\"" + " " + rest;
    assert tail[..|path|] == path && tail[|path|] == '"';
    IndexOfUnique(tail, '"', |path|);
    assert tail[|path| + 1..] == " " + rest;
    TrimIndented(rest);
  }

  // ---- unquoted rules that are no file rules ----

  /** The rule ends in a permission token behind white space and something before it. */
  predicate TrailingPerms(rule: string) { exists i :: 0 <= i < |rule| && TrailsAt(rule, i) }

  predicate TrailsAt(rule: string, i: int)
    requires 0 <= i < |rule|
  {
    && IsWs(rule[i]) && (forall j :: i < j < |rule| ==> !IsWs(rule[j]))
    && Trim(rule[..i]) != "" && PermToken(Trim(rule[i + 1..]))
  }

  /** An unquoted rule is passed over exactly when neither permissions lead it, a path following, nor
      permissions end it, unless the parser crashes on it. */
  lemma PassedOverExactlyWhen(rule: string)
    requires !("\"" <= rule)
    ensures SplitPathPerms(rule) == Skip <==> !LeadingPerms(rule) && !WideGap(rule) && !TrailingPerms(rule)
  {
    hide Trim, IsPermToken, PermToken, IsWs;
    WideGapIsCrash(rule);
    var first, last := FirstWs(rule), LastWs(rule);
    if first < |rule| && IsPermToken(rule[..first]) && "/" <= Trim(rule[first + 1..]) {
      assert LeadsAt(rule, first);
    }
    if LeadingPerms(rule) {
      var i :| 0 <= i < |rule| && LeadsAt(rule, i);
      assert i == first;
    }
    if last >= 0 {
      TokenIsPerm(Trim(rule[last + 1..]));
      AsciiIsOneByte(rule[last]);
      if TrailsAt(rule, last) { assert TrailingPerms(rule); }
    }
    if TrailingPerms(rule) {
      var i :| 0 <= i < |rule| && TrailsAt(rule, i);
      assert i == last;
    }
    if WideGap(rule) {
      var i :| 0 <= i < |rule| && WideGapAt(rule, i);
      assert i == last;
    }
    if last >= 0 && rule[last] as int >= 0x80 {
      assert WideGapAt(rule, last);
    }
  }

  lemma AsciiIsOneByte(c: char)
    ensures |EncodeChar(c)| > 1 <==> c as int >= 0x80
  {
  }

  // ---- lines that say nothing ----

  /** Comments, preamble, and braces say nothing, whatever follows on the line. */
  lemma PreambleSkipped(raw: string)
    requires var line := Trim(raw);
      || line == "" || "#" <= line || "profile" <= line || "abi " <= line || "include" <= line || "@" <= line
      || line == "{" || line == "}" || (line != "" && line[|line| - 1] == '{')
    ensures LineItems(raw) == Some([])
  {
    hide Trim;
    var line := Trim(raw);
    if line != "" && line[|line| - 1] == '{' {
      assert line[|line| - 1..] == "{";
    }
  }

  /** A commented-out rule, or one behind an `@`, says nothing; without the mark it would. */
  lemma OnlyTheMarkSilences(path: string, t: string)
    requires PermToken(t) && "/" <= path && !HasWs(path)
    ensures LineItems("  #" + (path + " " + t) + ",") == Some([]) && LineItems("  @" + (path + " " + t) + ",") == Some([])
    ensures AsksFor(LineItems("  " + (path + " " + t) + ","), Allow, path, t)
  {
    hide PermToken, AsksFor, LineItems, HasWs, Qualifiers;
    var body := path + " " + t;
    Marked("#", body);
    Marked("@", body);
    assert "  " + "#" == "  #" && "  " + "@" == "  @";
    NoQualifiers();
    PermissionsRead([], "", [], path, t, false);
    UnquotedBody(path, t);
    assert Spoken([]) + ("" + body) == body;
  }

  lemma Marked(mark: string, body: string)
    requires mark == "#" || mark == "@"
    ensures LineItems("  " + mark + body + ",") == Some([])
  {
    hide LineItems, Trim, IsWs;
    var line := mark + body + ",";
    assert line[0] == mark[0] && line[|line| - 1] == ',';
    assert Solid(line) by { MarksAreSolid(); }
    assert "  " + mark + body + "," == "  " + line;
    TrimIndented(line);
    PreambleSkipped("  " + line);
  }

  lemma MarksAreSolid()
    ensures !IsWs('#') && !IsWs('@') && !IsWs(',')
  {
  }

  // ---- line ends ----

  /** Each line followed by a carriage return and a newline. */
  function ReturnedLines(lines: seq<string>): string {
    if lines == [] then "" else lines[0] + "\r\n" + ReturnedLines(lines[1..])
  }

  lemma ReturnedHead(l: string, rest: string)
    requires IsLine(l)
    ensures Lines(l + "\r\n" + rest) == [l] + Lines(rest)
  {
    var text := l + "\r\n" + rest;
    assert text[..|l| + 1] == l + "\r" && text[|l| + 1] == '\n' && text[|l| + 2..] == rest;
    IndexOfUnique(text, '\n', |l| + 1);
    assert (l + "\r")[..|l|] == l && StripCr(l + "\r") == l;
  }

  lemma {:induction false} ReturnedLinesAre(lines: seq<string>)
    requires forall i :: 0 <= i < |lines| ==> IsLine(lines[i])
    ensures Lines(ReturnedLines(lines)) == lines
  {
    hide IsLine;
    if lines != [] {
      hide Lines;
      ReturnedHead(lines[0], ReturnedLines(lines[1..]));
      ReturnedLinesAre(lines[1..]);
    }
  }

  /** A profile with carriage returns before its newlines reads like one without. */
  lemma ReturnsAreIgnored(lines: seq<string>)
    requires forall i :: 0 <= i < |lines| ==> IsLine(lines[i])
    ensures Lines(ReturnedLines(lines)) == Lines(Unlines(lines)) == lines
  {
    hide IsLine, Lines;
    LinesOfUnlines(lines);
    ReturnedLinesAre(lines);
  }

  /** What counts as white space: the 25 characters of Unicode's White_Space property. */
  const WHITE_SPACE: set<int> := {
    0x9, 0xA, 0xB, 0xC, 0xD, 0x20, 0x85, 0xA0, 0x1680, 0x2000, 0x2001, 0x2002, 0x2003, 0x2004, 0x2005, 0x2006, 0x2007,
    0x2008, 0x2009, 0x200A, 0x2028, 0x2029, 0x202F, 0x205F, 0x3000}

  lemma WhiteSpaceIs(c: char)
    ensures IsWs(c) <==> c as int in WHITE_SPACE
  {
  }

  // ---- from items to rules ----

  /** The rules of a profile are numbered from 1 in line order, and are about every subject; they count no
      observation, and their source is the kind of what they are about. */
  lemma ParsedRuleIs(items: seq<Item>, i: nat)
    requires i < |items|
    ensures |Numbered(items)| == |items|
    ensures Numbered(items)[i] == Rule(
              (i + 1) % 0x1_0000_0000_0000_0000, Subject(None, None, None), items[i].obj, items[i].action, items[i].verdict,
              Metadata(match items[i].obj case File(_) => Fs case Network(_) => Net case Process(_) => Proc, 0, 0, 0))
  {
    hide Numbered;
    NumberedIndex(items, i);
  }
}
