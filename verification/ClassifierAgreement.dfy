/** When the kernel's classifier and the policy compiler's put a /proc path into the same class. */
module ClassifierAgreement {
  import opened Strings
  import opened PathPatterns
  import opened KernelPath
  import opened Generalize
  import opened Classifier

  predicate IsAscii(s: string) { forall i :: 0 <= i < |s| ==> s[i] as int < 0x80 }

  lemma Utf8Head(s: string)
    requires s != ""
    ensures Utf8(s) != [] && (Utf8(s)[0] < 0x80 <==> s[0] as int < 0x80)
    ensures s[0] as int < 0x80 ==> Utf8(s)[0] == s[0] as int && Utf8(s)[1..] == Utf8(s[1..])
  {
  }

  /** ASCII text is a prefix of a string exactly when its bytes are a prefix of the string's bytes. */
  lemma {:induction false} AsciiPrefix(s: string, lit: string)
    requires IsAscii(lit)
    ensures Begins(Utf8(s), lit) <==> lit <= s
    ensures lit <= s ==> Utf8(s)[|lit|..] == Utf8(s[|lit|..])
    decreases |lit|
  {
    hide EncodeChar, Utf8;
    if lit != "" && s != "" {
      Utf8Head(s);
      if Utf8(s)[0] == lit[0] as int {
        AsciiPrefix(s[1..], lit[1..]);
        BeginsTail(Utf8(s), lit);
        assert lit <= s <==> lit[1..] <= s[1..];
        if lit <= s {
          assert Utf8(s)[|lit|..] == Utf8(s[1..])[|lit| - 1..];
          assert s[1..][|lit| - 1..] == s[|lit|..];
        }
      }
    } else if lit != "" {
      assert Utf8("") == [] by { EmptyUtf8(); }
    } else {
      assert s[0..] == s;
    }
  }

  lemma EmptyUtf8()
    ensures Utf8("") == []
  {
  }

  lemma BeginsTail(s: seq<u8>, lit: string)
    requires lit != "" && s != [] && s[0] == lit[0] as int
    ensures Begins(s, lit) <==> Begins(s[1..], lit[1..])
  {
    if Begins(s[1..], lit[1..]) {
      forall i | 0 <= i < |lit| ensures s[i] == lit[i] as int {
        if i > 0 {
          assert s[1..][i - 1] == lit[1..][i - 1] as int;
        }
      }
    }
  }

  /** Bytes all below 0x80 are the characters themselves. */
  lemma {:induction false} AsciiBytes(s: string)
    requires forall i :: 0 <= i < |Utf8(s)| ==> Utf8(s)[i] < 0x80
    ensures |Utf8(s)| == |s| && forall i :: 0 <= i < |s| ==> s[i] as int == Utf8(s)[i]
    decreases |s|
  {
    hide EncodeChar, Utf8;
    EmptyUtf8();
    if s != "" {
      Utf8Head(s);
      assert forall i :: 0 <= i < |Utf8(s)| - 1 ==> Utf8(s)[1..][i] == Utf8(s)[i + 1];
      AsciiBytes(s[1..]);
      forall i | 0 <= i < |s| ensures s[i] as int == Utf8(s)[i] {
        if i > 0 {
          assert s[1..][i - 1] == s[i] && Utf8(s)[1..][i - 1] == Utf8(s)[i];
        }
      }
    }
  }

  lemma AsciiText(s: string)
    requires IsAscii(s)
    ensures |Utf8(s)| == |s| && forall i :: 0 <= i < |s| ==> Utf8(s)[i] == s[i] as int
  {
    hide Utf8, EncodeChar;
    AsciiPrefix(s, s);
    EmptyUtf8();
    assert s[|s|..] == "";
  }

  lemma EncodeAvoidsSlash(c: char)
    requires c != '/'
    ensures SLASH !in EncodeChar(c)
  {
  }

  lemma {:induction false} Utf8AvoidsSlash(s: string)
    requires '/' !in s
    ensures SLASH !in Utf8(s)
    decreases |s|
  {
    hide EncodeChar;
    if s != "" {
      EncodeAvoidsSlash(s[0]);
      Utf8AvoidsSlash(s[1..]);
    }
  }

  lemma {:induction false} Utf8Append(a: string, b: string)
    ensures Utf8(a + b) == Utf8(a) + Utf8(b)
    decreases |a|
  {
    hide EncodeChar;
    if a == "" {
      assert a + b == b;
    } else {
      assert (a + b)[1..] == a[1..] + b;
      Utf8Append(a[1..], b);
    }
  }

  // ---- the suffix ----

  /** What a tail of the class starts with. */
  function TailText(c: PathPattern): string {
    match c
    case ProcPidCmdline => "cmdline"
    case ProcPidComm => "comm"
    case ProcPidCwd => "cwd"
    case ProcPidEnviron => "environ"
    case ProcPidExe => "exe"
    case ProcPidMaps => "maps"
    case ProcPidMem => "mem"
    case ProcPidMountinfo => "mountinfo"
    case ProcPidMounts => "mounts"
    case ProcPidRoot => "root"
    case ProcPidStat => "stat"
    case ProcPidStatus => "status"
    case ProcPidCgroup => "cgroup"
    case ProcPidFd => "fd/"
    case ProcPidNet => "net/"
    case ProcPidNs => "ns/"
    case ProcPidTask => "task/"
    case _ => ""
  }

  /** The classes of what lies under a process directory. */
  predicate UnderPid(c: PathPattern) {
    || c.ProcPidCmdline? || c.ProcPidComm? || c.ProcPidCwd? || c.ProcPidEnviron? || c.ProcPidExe? || c.ProcPidMaps?
    || c.ProcPidMem? || c.ProcPidMountinfo? || c.ProcPidMounts? || c.ProcPidRoot? || c.ProcPidStat?
    || c.ProcPidStatus? || c.ProcPidCgroup? || c.ProcPidFd? || c.ProcPidNet? || c.ProcPidNs? || c.ProcPidTask?
    || c.ProcPidOther?
  }

  lemma TailClass(tail: string)
    ensures UnderPid(ClassOfTail(tail))
  {
  }

  predicate FirstHalf(c: PathPattern) {
    c.ProcPidCmdline? || c.ProcPidComm? || c.ProcPidCwd? || c.ProcPidEnviron? || c.ProcPidExe? || c.ProcPidCgroup?
  }

  predicate OpenEnded(c: PathPattern) { c.ProcPidFd? || c.ProcPidNet? || c.ProcPidNs? || c.ProcPidTask? }

  lemma TailOfFirstHalf(tail: string)
    ensures FirstHalf(ClassOfTail(tail)) ==> tail == TailText(ClassOfTail(tail))
  {
  }

  lemma TailOfM(tail: string)
    ensures var c := ClassOfTail(tail);
      c.ProcPidMaps? || c.ProcPidMem? || c.ProcPidMountinfo? || c.ProcPidMounts? ==> tail == TailText(c)
  {
  }

  lemma TailOfRS(tail: string)
    ensures var c := ClassOfTail(tail); c.ProcPidRoot? || c.ProcPidStat? || c.ProcPidStatus? ==> tail == TailText(c)
  {
  }

  lemma TailOfOpen(tail: string)
    ensures OpenEnded(ClassOfTail(tail)) ==> TailText(ClassOfTail(tail)) <= tail
  {
  }

  lemma TailTexts()
    ensures TailText(ProcPidStat) == "stat" && TailText(ProcPidOther) == ""
  {
  }

  lemma TailStartsWithText(tail: string)
    ensures TailText(ClassOfTail(tail)) <= tail
    ensures ClassOfTail(tail) == ProcPidStat ==> tail == "stat"
  {
    hide ClassOfTail, TailText;
    TailClass(tail);
    TailOfFirstHalf(tail);
    TailOfM(tail);
    TailOfRS(tail);
    TailOfOpen(tail);
    TailTexts();
  }

  lemma TailTextIsAscii(c: PathPattern)
    ensures IsAscii(TailText(c))
  {
  }

  lemma SuffixFindsCE(s: seq<u8>, c: PathPattern)
    requires FirstHalf(c) && Begins(s, TailText(c))
    ensures ProcSuffix(s) == c
  {
    assert s[0] == TailText(c)[0] as int && s[1] == TailText(c)[1] as int;
  }

  lemma SuffixFindsM(s: seq<u8>, c: PathPattern)
    requires c.ProcPidMaps? || c.ProcPidMem? || c.ProcPidMountinfo? || c.ProcPidMounts?
    requires Begins(s, TailText(c))
    ensures ProcSuffix(s) == c
  {
    assert s[0] == TailText(c)[0] as int && s[1] == TailText(c)[1] as int && s[2] == TailText(c)[2] as int;
    assert c.ProcPidMounts? ==> s[5] == 's' as int && "mountinfo"[5] == 'i';
  }

  lemma SuffixFindsRest(s: seq<u8>, c: PathPattern)
    requires c.ProcPidRoot? || c.ProcPidStatus? || c.ProcPidFd? || c.ProcPidNet? || c.ProcPidNs? || c.ProcPidTask?
    requires Begins(s, TailText(c))
    ensures ProcSuffix(s) == c
  {
    assert s[0] == TailText(c)[0] as int && s[1] == TailText(c)[1] as int;
  }

  lemma SuffixFindsStat(s: seq<u8>)
    requires Begins(s, "stat")
    ensures ProcSuffix(s) == ProcPidStat <==> EndsAt(s, 4)
  {
    assert s[0] == 's' as int;
  }

  lemma SuffixFinds(s: seq<u8>, c: PathPattern)
    requires Root(c) == "/proc/" && TailText(c) != "" && Begins(s, TailText(c))
    ensures ProcSuffix(s) == c <==> (c == ProcPidStat ==> EndsAt(s, 4))
  {
    hide Begins, ProcSuffix;
    if FirstHalf(c) {
      SuffixFindsCE(s, c);
    } else if c == ProcPidStat {
      SuffixFindsStat(s);
    } else if c.ProcPidMaps? || c.ProcPidMem? || c.ProcPidMountinfo? || c.ProcPidMounts? {
      SuffixFindsM(s, c);
    } else {
      SuffixFindsRest(s, c);
    }
  }

  // ---- the component after /proc/ ----

  /** `self` or one to seven digits: what the kernel takes for a process directory. */
  predicate PidLike(comp: string) {
    comp == "self" || (1 <= |comp| <= MAX_PID_DIGITS && forall i :: 0 <= i < |comp| ==> '0' <= comp[i] <= '9')
  }

  const READ_AFTER_PROC := COPIED - 6

  /** `s` starts with `comp`, a '/', and the bytes of `rest`, as far as a short path is copied. */
  predicate Reads(s: seq<u8>, comp: string, rest: string) {
    var text := Utf8(comp) + [SLASH] + Utf8(rest);
    |s| >= READ_AFTER_PROC && forall i :: 0 <= i < READ_AFTER_PROC && i < |text| ==> s[i] == text[i]
  }

  lemma PidLikeIsAscii(comp: string)
    requires PidLike(comp)
    ensures IsAscii(comp) && |comp| <= MAX_PID_DIGITS
    ensures |Utf8(comp)| == |comp| && forall i :: 0 <= i < |comp| ==> Utf8(comp)[i] == comp[i] as int
  {
    hide Utf8;
    AsciiText(comp);
  }

  /** After a process directory the kernel classifies the suffix. */
  lemma PidLikeReachesSuffix(s: seq<u8>, comp: string, rest: string)
    requires PidLike(comp) && Reads(s, comp, rest)
    ensures ProcClass(s) == ProcSuffix(s[|comp| + 1..])
  {
    hide ProcSuffix, Utf8;
    PidLikeIsAscii(comp);
    assert s[|comp|] == SLASH;
    assert forall i :: 0 <= i < |comp| ==> s[i] == comp[i] as int;
    if comp == "self" {
      assert s[0] == 's' as int && s[1] == 'e' as int && s[2] == 'l' as int && s[3] == 'f' as int;
      assert Begins(s, "self/");
    } else {
      assert s[0] != 's' as int && "self/"[0] == 's';
      DigitRunUnique(s, MAX_PID_DIGITS, |comp|);
    }
  }

  /** The first '/' of `s` tells where the component ends. */
  lemma SlashEndsComponent(s: seq<u8>, comp: string, rest: string, n: nat)
    requires '/' !in comp && Reads(s, comp, rest)
    requires n < READ_AFTER_PROC && s[n] == SLASH && forall i :: 0 <= i < n ==> s[i] != SLASH
    ensures |Utf8(comp)| == n && forall i :: 0 <= i < n ==> Utf8(comp)[i] == s[i]
  {
    hide Utf8;
    Utf8AvoidsSlash(comp);
    var p := |Utf8(comp)|;
    var text := Utf8(comp) + [SLASH] + Utf8(rest);
    assert text[p] == SLASH && forall i :: 0 <= i < p ==> text[i] == Utf8(comp)[i] != SLASH;
  }

  predicate TakesSuffix(s: seq<u8>) {
    Begins(s, "self/") || (DigitRun(s, MAX_PID_DIGITS) > 0 && DigitRun(s, MAX_PID_DIGITS) < |s| &&
                           s[DigitRun(s, MAX_PID_DIGITS)] == SLASH)
  }

  /** Only a process directory leads the kernel to the suffix. */
  lemma SuffixMeansPidLike(s: seq<u8>, comp: string, rest: string)
    requires '/' !in comp && Reads(s, comp, rest) && TakesSuffix(s)
    ensures PidLike(comp)
  {
    hide Utf8, Reads;
    if Begins(s, "self/") {
      assert s[0] == 's' as int && s[1] == 'e' as int && s[2] == 'l' as int && s[3] == 'f' as int && s[4] == SLASH;
      SlashEndsComponent(s, comp, rest, 4);
      AsciiBytes(comp);
      assert comp == "self";
    } else {
      var n := DigitRun(s, MAX_PID_DIGITS);
      SlashEndsComponent(s, comp, rest, n);
      AsciiBytes(comp);
      assert forall i :: 0 <= i < |comp| ==> IsDigit(Utf8(comp)[i]) && comp[i] as int == Utf8(comp)[i];
      assert forall i :: 0 <= i < |comp| ==> '0' <= comp[i] <= '9';
    }
  }

  // ---- the whole path ----

  function Remainder(path: string): string
    requires PROC <= path
  {
    path[6..]
  }

  /** The component after "/proc/" of a path the compiler classifies. */
  function Component(path: string): (comp: string)
    requires TryClassify(path).Some?
    ensures '/' !in comp
  {
    Remainder(path)[..IndexOf(Remainder(path), '/')]
  }

  function Tail(path: string): string
    requires TryClassify(path).Some?
  {
    Remainder(path)[IndexOf(Remainder(path), '/') + 1..]
  }

  lemma PathSplits(path: string)
    requires TryClassify(path).Some?
    ensures PROC <= path && path[|PROC|..] == Component(path) + "/" + Tail(path)
  {
    hide ClassOfTail;
    assert Remainder(path) == Component(path) + "/" + Tail(path);
  }

  lemma PathParts(path: string)
    requires TryClassify(path).Some?
    ensures path == PROC + Component(path) + "/" + Tail(path)
    ensures Utf8(path) == Utf8(PROC) + (Utf8(Component(path)) + [SLASH] + Utf8(Tail(path)))
    ensures Begins(Utf8(path), PROC) && |Utf8(PROC)| == 6
    ensures Utf8(path)[6..] == Utf8(Component(path)) + [SLASH] + Utf8(Tail(path))
  {
    hide Utf8, EncodeChar, ClassOfTail;
    var comp, tail := Component(path), Tail(path);
    var remainder := Remainder(path);
    assert remainder == comp + "/" + tail;
    assert path == PROC + remainder;
    Utf8OfJoin(comp, tail);
    ProcBytes();
    Utf8Append(PROC, remainder);
    AsciiPrefix(path, PROC);
  }

  lemma SlashBytes()
    ensures Utf8("/") == [SLASH]
  {
    Utf8Head("/");
    EmptyUtf8();
    assert "/"[1..] == "" && Utf8("/") == [SLASH] + Utf8("");
  }

  lemma Utf8OfJoin(a: string, b: string)
    ensures Utf8(a + "/" + b) == Utf8(a) + [SLASH] + Utf8(b)
  {
    hide Utf8;
    SlashBytes();
    Utf8Append(a + "/", b);
    Utf8Append(a, "/");
  }

  lemma ProcBytes()
    ensures |Utf8(PROC)| == 6
  {
    hide Utf8;
    AsciiPrefix(PROC, PROC);
    EmptyUtf8();
    assert PROC[6..] == "";
  }

  lemma KernelReadsProc(buf: seq<u8>, path: string)
    requires TryClassify(path).Some? && Holds(buf, Utf8(path))
    ensures KernelClass(buf) == ProcClass(buf[6..])
    ensures Reads(buf[6..], Component(path), Tail(path))
  {
    hide Utf8, ProcClass, TryClassify;
    PathParts(path);
    var text := Utf8(path);
    assert forall i :: 0 <= i < 6 ==> buf[i] == text[i];
    assert Begins(buf, PROC);
    var s := buf[6..];
    forall i | 0 <= i < READ_AFTER_PROC && i < |text[6..]| ensures s[i] == text[6..][i] {
      assert s[i] == buf[i + 6] == text[i + 6];
    }
  }

  lemma SuffixOrNothing(s: seq<u8>)
    ensures !TakesSuffix(s) ==> TailText(ProcClass(s)) == ""
  {
    hide ProcSuffix;
  }

  lemma ClassHasText(path: string)
    requires TryClassify(path).Some? && TryClassify(path).value != ProcPidOther
    ensures var c := TryClassify(path).value;
      c == ClassOfTail(Tail(path)) && Root(c) == "/proc/" && TailText(c) != ""
  {
    hide ClassOfTail, TailText, Root;
    TailClass(Tail(path));
    PidClassHasText(ClassOfTail(Tail(path)));
  }

  lemma PidClassHasText(c: PathPattern)
    requires UnderPid(c)
    ensures Root(c) == "/proc/" && (c != ProcPidOther ==> TailText(c) != "")
  {
    assert c != ProcPidOther ==> |TailText(c)| > 0;
  }

  /** Following "/proc/<pid>/" the bytes of the tail. */
  lemma SuffixReadsTail(s: seq<u8>, comp: string, tail: string, lit: string)
    requires PidLike(comp) && Reads(s, comp, tail) && lit <= tail && IsAscii(lit)
    requires |lit| <= 9
    ensures Begins(s[|comp| + 1..], lit)
    ensures |Utf8(tail)| >= |lit|
  {
    hide Utf8;
    PidLikeIsAscii(comp);
    AsciiPrefix(tail, lit);
    var text := Utf8(comp) + [SLASH] + Utf8(tail);
    forall i | 0 <= i < |lit| ensures s[|comp| + 1..][i] == lit[i] as int {
      assert s[|comp| + 1 + i] == text[|comp| + 1 + i] == Utf8(tail)[i];
    }
  }

  lemma TextLengths(c: PathPattern)
    ensures |TailText(c)| <= 9
  {
  }

  /** For a path the compiler files under a class other than the catch-all one, the kernel, given the
      path followed by anything, agrees exactly when the component after /proc/ is `self` or one to
      seven digits and, for the `stat` class, the path is followed by a NUL or a '/'. */
  lemma AgreesExactlyWhen(buf: seq<u8>, path: string)
    requires Holds(buf, Utf8(path))
    requires TryClassify(path).Some? && TryClassify(path).value != ProcPidOther
    ensures KernelClass(buf) == TryClassify(path).value <==>
            && PidLike(Component(path))
            && (TryClassify(path).value == ProcPidStat ==> EndsAt(buf, |Utf8(path)|))
  {
    hide Utf8, KernelClass, ProcClass, ProcSuffix, TryClassify, Reads, TakesSuffix, PidLike;
    var c, comp, tail := TryClassify(path).value, Component(path), Tail(path);
    KernelReadsProc(buf, path);
    ClassHasText(path);
    var s := buf[6..];
    if PidLike(comp) {
      PidLikeIsAscii(comp);
      PidLikeReachesSuffix(s, comp, tail);
      TailStartsWithText(tail);
      TailTextIsAscii(c);
      TextLengths(c);
      SuffixReadsTail(s, comp, tail, TailText(c));
      SuffixFinds(s[|comp| + 1..], c);
      if c == ProcPidStat {
        StatEnds(buf, path);
      }
    } else {
      if TakesSuffix(s) {
        SuffixMeansPidLike(s, comp, tail);
      } else {
        SuffixOrNothing(s);
      }
    }
  }

  lemma StatEnds(buf: seq<u8>, path: string)
    requires |buf| == MAX_PATH_DEPTH && TryClassify(path).Some? && PidLike(Component(path)) && Tail(path) == "stat"
    ensures EndsAt(buf, |Utf8(path)|) <==> EndsAt(buf[6..][|Component(path)| + 1..], 4)
    ensures |Utf8(path)| <= 18
  {
    hide Utf8, TryClassify;
    PathParts(path);
    PidLikeIsAscii(Component(path));
    AsciiPrefix("stat", "stat");
    EmptyUtf8();
    assert "stat"[4..] == "";
    assert |Utf8("stat")| == 4;
  }

  // ---- the two ways a path reaches the classifier ----

  /** On a zero-padded path the two classifiers agree exactly on process directories. */
  lemma AgreesOnPadded(path: string)
    requires TryClassify(path).Some? && TryClassify(path).value != ProcPidOther
    ensures KernelClass(Padded(Utf8(path))) == TryClassify(path).value <==> PidLike(Component(path))
  {
    hide Utf8, KernelClass, TryClassify, PidLike;
    var text := Utf8(path);
    var buf := Padded(text);
    assert forall i :: 0 <= i < |buf| ==> buf[i] == (text + Zeros(MAX_PATH_DEPTH))[i];
    assert EndsAt(buf, |text|);
    AgreesExactlyWhen(buf, path);
  }

  lemma ResolvedHolds(buf: seq<u8>, text: seq<u8>)
    requires text != []
    requires buf == if |text| < MAX_PATH_DEPTH then ShortBytes(text) else text[..MAX_PATH_DEPTH]
    ensures Holds(buf, text)
    ensures |text| < COPIED ==> buf[|text|] == text[|text| - 1]
  {
  }

  lemma StatEndsInT(path: string)
    requires TryClassify(path).Some? && Tail(path) == "stat"
    ensures Utf8(path) != [] && Utf8(path)[|Utf8(path)| - 1] == 't' as int
  {
    hide Utf8, TryClassify;
    PathParts(path);
    AsciiPrefix("stat", "stat");
    EmptyUtf8();
    assert "stat"[4..] == "";
    assert Utf8("stat")[3] == 't' as int;
  }

  /** On a path resolved by the hooks the `stat` class is never recognised: the copy of a short path
      repeats its last byte where the classifier looks for an end. */
  lemma AgreesOnResolved(buffer: seq<u8>, path: string)
    requires RightAligned(buffer, Utf8(path))
    requires TryClassify(path).Some? && TryClassify(path).value != ProcPidOther
    ensures KernelClass(ClassifyBytes(buffer, Prepend, |Utf8(path)|)) == TryClassify(path).value <==>
            PidLike(Component(path)) && TryClassify(path).value != ProcPidStat
  {
    hide Utf8, KernelClass, TryClassify, PidLike, ClassifyBytes;
    var text := Utf8(path);
    PathParts(path);
    ClassifyBytesOfResolved(buffer, text);
    var buf := ClassifyBytes(buffer, Prepend, |text|);
    ResolvedHolds(buf, text);
    AgreesExactlyWhen(buf, path);
    if PidLike(Component(path)) && TryClassify(path).value == ProcPidStat {
      ClassHasText(path);
      TailStartsWithText(Tail(path));
      StatEnds(buf, path);
      StatEndsInT(path);
    }
  }
}
