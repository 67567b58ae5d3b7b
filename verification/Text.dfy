/** The text operations the AppArmor printer and parser are written with. */
module Text {
  import opened Strings

  /** Unicode White_Space. */
  predicate IsWs(c: char) {
    var x := c as int;
    || 0x9 <= x <= 0xD || x == 0x20 || x == 0x85 || x == 0xA0 || x == 0x1680
    || 0x2000 <= x <= 0x200A || x == 0x2028 || x == 0x2029 || x == 0x202F || x == 0x205F || x == 0x3000
  }

  predicate HasWs(s: string) { exists i :: 0 <= i < |s| && IsWs(s[i]) }

  // ---- trimming ----

  function TrimStart(s: string): string {
    if s != "" && IsWs(s[0]) then TrimStart(s[1..]) else s
  }

  function TrimEnd(s: string): string {
    if s != "" && IsWs(s[|s| - 1]) then TrimEnd(s[..|s| - 1]) else s
  }

  function Trim(s: string): string { TrimEnd(TrimStart(s)) }

  /** Drop trailing characters of `set_`. */
  function TrimEndOf(s: string, set_: string): string {
    if s != "" && s[|s| - 1] in set_ then TrimEndOf(s[..|s| - 1], set_) else s
  }

  /** No whitespace at either end. */
  predicate Solid(s: string) { s != "" && !IsWs(s[0]) && !IsWs(s[|s| - 1]) }

  lemma TrimSolid(s: string)
    requires Solid(s)
    ensures TrimStart(s) == s && TrimEnd(s) == s && Trim(s) == s
  {
  }

  lemma TrimIndented(s: string)
    requires Solid(s)
    ensures Trim(" " + s) == s && Trim("  " + s) == s
  {
    TrimSolid(s);
    assert (" " + s)[1..] == s && ("  " + s)[1..] == " " + s;
    assert TrimStart(" " + s) == s && TrimStart("  " + s) == s;
  }

  // ---- lines ----

  function StripCr(s: string): string { if s != "" && s[|s| - 1] == '\r' then s[..|s| - 1] else s }

  /** Line by line, without terminators; a last line without one counts, an empty tail does not. */
  function Lines(text: string): seq<string>
    decreases |text|
  {
    if text == "" then []
    else
      var i := IndexOf(text, '\n');
      if i == |text| then [text] else [StripCr(text[..i])] + Lines(text[i + 1..])
  }

  /** Each line followed by a newline. */
  function Unlines(lines: seq<string>): string {
    if lines == [] then "" else lines[0] + "\n" + Unlines(lines[1..])
  }

  predicate IsLine(s: string) { '\n' !in s && (s == "" || s[|s| - 1] != '\r') }

  lemma {:induction false} LinesOfUnlines(lines: seq<string>)
    requires forall i :: 0 <= i < |lines| ==> IsLine(lines[i])
    ensures Lines(Unlines(lines)) == lines
  {
    if lines != [] {
      var l, rest := lines[0], Unlines(lines[1..]);
      var text := l + "\n" + rest;
      assert text[..|l|] == l && text[|l| + 1..] == rest;
      IndexOfUnique(text, '\n', |l|);
      LinesOfUnlines(lines[1..]);
    }
  }

  lemma {:induction false} UnlinesAppend(a: seq<string>, b: seq<string>)
    ensures Unlines(a + b) == Unlines(a) + Unlines(b)
  {
    if a == [] {
      assert a + b == b;
    } else {
      assert (a + b)[1..] == a[1..] + b;
      UnlinesAppend(a[1..], b);
    }
  }

  // ---- whitespace-separated words ----

  /** Position of the first whitespace, or |s|. */
  function FirstWs(s: string): (i: nat)
    ensures i <= |s|
    ensures forall k :: 0 <= k < i ==> !IsWs(s[k])
    ensures i < |s| ==> IsWs(s[i])
  {
    if s == "" || IsWs(s[0]) then 0 else 1 + FirstWs(s[1..])
  }

  /** Position of the last whitespace, or -1. */
  function LastWs(s: string): (i: int)
    ensures -1 <= i < |s|
    ensures forall k :: i < k < |s| ==> !IsWs(s[k])
    ensures i >= 0 ==> IsWs(s[i])
  {
    if s == "" then -1 else if IsWs(s[|s| - 1]) then |s| - 1 else LastWs(s[..|s| - 1])
  }

  function Words(s: string): seq<string>
    decreases |s|
  {
    if s == "" then []
    else if IsWs(s[0]) then Words(s[1..])
    else
      var i := FirstWs(s);
      [s[..i]] + Words(s[i..])
  }

  lemma WordsOfWord(w: string)
    requires w != "" && !HasWs(w)
    ensures Words(w) == [w]
  {
    assert FirstWs(w) == |w|;
    assert w[..|w|] == w && w[|w|..] == "";
  }

  lemma WordsCons(w: string, rest: string)
    requires w != "" && !HasWs(w)
    ensures Words(w + " " + rest) == [w] + Words(rest)
  {
    var s := w + " " + rest;
    assert forall k :: 0 <= k < |w| ==> s[k] == w[k];
    assert IsWs(s[|w|]);
    assert FirstWs(s) == |w|;
    assert s[..|w|] == w && s[|w|..] == " " + rest;
    WordsSkip(rest);
  }

  lemma WordsSkip(rest: string)
    ensures Words(" " + rest) == Words(rest)
  {
    assert (" " + rest)[1..] == rest;
  }

  // ---- substring search ----

  /** Position of the first occurrence of `pat` in `s`, or -1. */
  function Find(s: string, pat: string): (i: int)
    ensures i == -1 || (0 <= i <= |s| && pat <= s[i..])
  {
    if pat <= s then 0
    else if s == "" then -1
    else
      var i := Find(s[1..], pat);
      if i == -1 then -1 else assert s[i + 1..] == s[1..][i..]; i + 1
  }

  /** Nothing before the occurrence found is one; nothing at all when none is found. */
  lemma {:induction false} FindIsFirst(s: string, pat: string, j: nat)
    requires j <= |s| && pat <= s[j..]
    ensures 0 <= Find(s, pat) <= j
  {
    if j == 0 {
      assert s[0..] == s;
    } else if !(pat <= s) {
      assert s[1..][j - 1..] == s[j..];
      FindIsFirst(s[1..], pat, j - 1);
    }
  }

  /** `pat` is found right after a head that never uses its first character. */
  lemma {:induction false} FindAfter(head: string, pat: string, tail: string)
    requires pat != "" && pat[0] !in head
    ensures Find(head + pat + tail, pat) == |head|
  {
    var s := head + pat + tail;
    if head == "" {
      assert s == pat + tail;
    } else {
      assert s[0] == head[0];
      assert s[1..] == head[1..] + pat + tail;
      FindAfter(head[1..], pat, tail);
    }
  }

  lemma {:induction false} FindNowhere(s: string, pat: string)
    requires pat != "" && pat[0] !in s
    ensures Find(s, pat) == -1
  {
    if s != "" { FindNowhere(s[1..], pat); }
  }

  // ---- decimal numbers ----

  predicate IsDigitChar(c: char) { '0' <= c <= '9' }

  predicate AllDigits(s: string) { forall i :: 0 <= i < |s| ==> IsDigitChar(s[i]) }

  function DigitChar(d: int): (c: char)
    requires 0 <= d < 10
    ensures IsDigitChar(c) && c as int - '0' as int == d
  {
    ('0' as int + d) as char
  }

  /** Decimal rendering without leading zeros. */
  function Dec(n: nat): (s: string)
    ensures s != "" && AllDigits(s)
  {
    if n < 10 then [DigitChar(n)] else Dec(n / 10) + [DigitChar(n % 10)]
  }

  function Value(s: string): nat
    requires AllDigits(s)
  {
    if s == "" then 0 else 10 * Value(s[..|s| - 1]) + (s[|s| - 1] as int - '0' as int)
  }

  /** Parse an unsigned integer of at most `max`: an optional '+', then decimal digits only. */
  function ParseUInt(s: string, max: nat): Option<nat> {
    var digits := if "+" <= s then s[1..] else s;
    if digits != "" && AllDigits(digits) && Value(digits) <= max then Some(Value(digits)) else None
  }

  lemma {:induction false} ValueOfDec(n: nat)
    ensures Value(Dec(n)) == n
  {
    if n >= 10 {
      ValueOfDec(n / 10);
      assert Dec(n)[..|Dec(n)| - 1] == Dec(n / 10);
    }
  }

  lemma ParseOfDec(n: nat, max: nat)
    requires n <= max
    ensures ParseUInt(Dec(n), max) == Some(n)
  {
    ValueOfDec(n);
    assert IsDigitChar(Dec(n)[0]);
  }
}
