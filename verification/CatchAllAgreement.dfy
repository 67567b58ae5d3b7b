/** When the kernel's classifier agrees with the policy compiler's on what the compiler files under the
    catch-all class of the process directories. */
module CatchAllAgreement {
  import opened Strings
  import opened PathPatterns
  import opened KernelPath
  import opened Generalize
  import opened Classifier
  import opened ClassifierAgreement

  /** Names the kernel takes for a class as soon as a tail starts with them. */
  const OPEN_NAMES: seq<string> :=
    ["cmdline", "cgroup", "comm", "cwd", "environ", "exe", "fd", "mountinfo", "mounts", "maps", "mem", "root", "status"]

  /** Names it takes for a class only when a NUL or a '/' follows. */
  const CLOSED_NAMES: seq<string> := ["ns", "net", "stat", "task"]

  predicate StartsOpen(s: seq<u8>) { exists i :: 0 <= i < |OPEN_NAMES| && Begins(s, OPEN_NAMES[i]) }

  predicate StartsClosed(s: seq<u8>) {
    exists i :: 0 <= i < |CLOSED_NAMES| && Begins(s, CLOSED_NAMES[i]) && EndsAt(s, |CLOSED_NAMES[i]|)
  }

  lemma OpenNames(s: seq<u8>)
    ensures StartsOpen(s) <==>
            || Begins(s, "cmdline") || Begins(s, "cgroup") || Begins(s, "comm") || Begins(s, "cwd")
            || Begins(s, "environ") || Begins(s, "exe") || Begins(s, "fd") || Begins(s, "mountinfo")
            || Begins(s, "mounts") || Begins(s, "maps") || Begins(s, "mem") || Begins(s, "root") || Begins(s, "status")
  {
    hide Begins;
    var n := OPEN_NAMES;
    assert n[0] == "cmdline" && n[1] == "cgroup" && n[2] == "comm" && n[3] == "cwd" && n[4] == "environ";
    assert n[5] == "exe" && n[6] == "fd" && n[7] == "mountinfo" && n[8] == "mounts" && n[9] == "maps";
    assert n[10] == "mem" && n[11] == "root" && n[12] == "status";
  }

  lemma ClosedNames(s: seq<u8>)
    ensures StartsClosed(s) <==>
            || (Begins(s, "ns") && EndsAt(s, 2)) || (Begins(s, "net") && EndsAt(s, 3))
            || (Begins(s, "stat") && EndsAt(s, 4)) || (Begins(s, "task") && EndsAt(s, 4))
  {
    hide Begins, EndsAt;
    var n := CLOSED_NAMES;
    assert n[0] == "ns" && n[1] == "net" && n[2] == "stat" && n[3] == "task";
  }

  lemma SlashCloses(s: seq<u8>)
    requires |s| > 4
    ensures Begins(s, "ns/") ==> Begins(s, "ns") && EndsAt(s, 2)
    ensures Begins(s, "net/") ==> Begins(s, "net") && EndsAt(s, 3)
    ensures Begins(s, "task/") || (Begins(s, "task") && s[4] == 0) <==> Begins(s, "task") && EndsAt(s, 4)
  {
    assert "ns/"[2] == '/' && "net/"[3] == '/' && "task/"[4] == '/';
    assert "ns/"[..2] == "ns" && "net/"[..3] == "net" && "task/"[..4] == "task";
  }

  lemma Initials(s: seq<u8>)
    requires s != []
    ensures Begins(s, "cmdline") || Begins(s, "cgroup") || Begins(s, "comm") || Begins(s, "cwd") ==> s[0] == 'c' as int
    ensures Begins(s, "environ") || Begins(s, "exe") ==> s[0] == 'e' as int
    ensures Begins(s, "fd") ==> s[0] == 'f' as int
    ensures Begins(s, "mountinfo") || Begins(s, "mounts") || Begins(s, "maps") || Begins(s, "mem") ==> s[0] == 'm' as int
  {
  }

  lemma MoreInitials(s: seq<u8>)
    requires s != []
    ensures Begins(s, "ns") || Begins(s, "net") || Begins(s, "ns/") || Begins(s, "net/") ==> s[0] == 'n' as int
    ensures Begins(s, "root") ==> s[0] == 'r' as int
    ensures Begins(s, "stat") || Begins(s, "status") ==> s[0] == 's' as int
    ensures Begins(s, "task") || Begins(s, "task/") ==> s[0] == 't' as int
  {
  }

  /** What the kernel's suffix search leaves over. */
  lemma LeftOver(s: seq<u8>)
    requires |s| > 4
    ensures ProcSuffix(s) == ProcPidOther <==> !StartsOpen(s) && !StartsClosed(s)
  {
    hide Begins, StartsOpen, StartsClosed, EndsAt;
    OpenNames(s);
    ClosedNames(s);
    Initials(s);
    MoreInitials(s);
    SlashCloses(s);
  }

  // ---- said of the tail ----

  /** The tail followed by `fill` starts with the name. */
  predicate Completes(tail: string, name: string, fill: u8) {
    name <= tail || (tail <= name && forall i :: |tail| <= i < |name| ==> name[i] as int == fill)
  }

  predicate Closes(tail: string, n: nat, fill: u8) {
    if n < |tail| then tail[n] == '/' || tail[n] == '\0' else fill == 0 || fill == SLASH
  }

  /** The bytes of the tail, then `fill`, as far as a short path is copied. */
  predicate Filled(s: seq<u8>, tail: string, fill: u8) {
    && |s| >= READ_OF_TAIL
    && forall i :: 0 <= i < READ_OF_TAIL ==> s[i] == (if i < |Utf8(tail)| then Utf8(tail)[i] else fill)
  }

  const READ_OF_TAIL := 18

  lemma AsciiStart(tail: string, name: string)
    requires IsAscii(name) && |Utf8(tail)| < |name|
    requires forall i :: 0 <= i < |Utf8(tail)| ==> Utf8(tail)[i] == name[i] as int
    ensures tail <= name && |Utf8(tail)| == |tail|
  {
    hide Utf8;
    AsciiBytes(tail);
    assert forall i :: 0 <= i < |tail| ==> tail[i] == name[i];
  }

  lemma PrefixIsAscii(s: string, name: string)
    requires IsAscii(name) && s <= name
    ensures IsAscii(s)
  {
  }

  /** Whether the bytes start with an ASCII name is told from the tail and what follows it. */
  lemma BeginsFilled(s: seq<u8>, tail: string, fill: u8, name: string)
    requires Filled(s, tail, fill) && IsAscii(name) && |name| <= READ_OF_TAIL
    ensures Begins(s, name) <==> Completes(tail, name, fill)
  {
    hide Utf8, IsAscii;
    var u := Utf8(tail);
    AsciiPrefix(tail, name);
    if |u| >= |name| {
      assert Begins(s, name) <==> Begins(u, name);
      if tail <= name { ShorterAscii(tail, name); }
    } else {
      assert !(name <= tail);
      if Begins(s, name) {
        assert forall i :: 0 <= i < |u| ==> u[i] == s[i] == name[i] as int;
        AsciiStart(tail, name);
        assert forall i :: |tail| <= i < |name| ==> s[i] == fill;
      }
      if Completes(tail, name, fill) {
        PrefixIsAscii(tail, name);
        AsciiText(tail);
      }
    }
  }

  lemma ShorterAscii(tail: string, name: string)
    requires IsAscii(name) && tail <= name && |Utf8(tail)| >= |name|
    ensures tail == name
  {
    hide Utf8;
    PrefixIsAscii(tail, name);
    AsciiText(tail);
  }

  lemma FirstByteOf(c: char, rest: string)
    ensures Utf8([c] + rest) != []
    ensures Utf8([c] + rest)[0] == 0 <==> c == '\0'
    ensures Utf8([c] + rest)[0] == SLASH <==> c == '/'
  {
    hide Utf8;
    Utf8Head([c] + rest);
  }

  lemma ByteAfter(tail: string, n: nat)
    requires n < |tail| && IsAscii(tail[..n])
    ensures n < |Utf8(tail)|
    ensures Utf8(tail)[n] == 0 || Utf8(tail)[n] == SLASH <==> tail[n] == '/' || tail[n] == '\0'
  {
    hide Utf8;
    Utf8Append(tail[..n], tail[n..]);
    assert tail[..n] + tail[n..] == tail;
    AsciiText(tail[..n]);
    assert [tail[n]] + tail[n + 1..] == tail[n..];
    FirstByteOf(tail[n], tail[n + 1..]);
  }

  lemma ClosesFilled(s: seq<u8>, tail: string, fill: u8, name: string)
    requires Filled(s, tail, fill) && IsAscii(name) && |name| < READ_OF_TAIL && Completes(tail, name, fill)
    ensures EndsAt(s, |name|) <==> Closes(tail, |name|, fill)
  {
    hide Utf8, IsAscii;
    var n := |name|;
    if n < |tail| {
      assert tail[..n] == name;
      ByteAfter(tail, n);
    } else {
      assert tail <= name;
      PrefixIsAscii(tail, name);
      AsciiText(tail);
    }
  }

  lemma NameShapes()
    ensures forall i :: 0 <= i < |OPEN_NAMES| ==> IsAscii(OPEN_NAMES[i]) && 2 <= |OPEN_NAMES[i]| <= 9
    ensures forall i :: 0 <= i < |CLOSED_NAMES| ==> IsAscii(CLOSED_NAMES[i]) && 2 <= |CLOSED_NAMES[i]| <= 4
  {
  }

  /** The kernel finds a class of its own for the tail, given what follows it. */
  predicate Taken(tail: string, fill: u8) {
    || (exists i :: 0 <= i < |OPEN_NAMES| && Completes(tail, OPEN_NAMES[i], fill))
    || (exists i :: 0 <= i < |CLOSED_NAMES| && Completes(tail, CLOSED_NAMES[i], fill)
                    && Closes(tail, |CLOSED_NAMES[i]|, fill))
  }

  lemma TailLeftOver(s: seq<u8>, tail: string, fill: u8)
    requires Filled(s, tail, fill)
    ensures ProcSuffix(s) == ProcPidOther <==> !Taken(tail, fill)
  {
    hide ProcSuffix, Begins, Filled, IsAscii, Completes, Closes, EndsAt;
    assert |s| >= READ_OF_TAIL by { FilledLength(s, tail, fill); }
    LeftOver(s);
    NameShapes();
    forall i | 0 <= i < |OPEN_NAMES| ensures Begins(s, OPEN_NAMES[i]) <==> Completes(tail, OPEN_NAMES[i], fill) {
      BeginsFilled(s, tail, fill, OPEN_NAMES[i]);
    }
    forall i | 0 <= i < |CLOSED_NAMES|
      ensures Begins(s, CLOSED_NAMES[i]) && EndsAt(s, |CLOSED_NAMES[i]|) <==>
              Completes(tail, CLOSED_NAMES[i], fill) && Closes(tail, |CLOSED_NAMES[i]|, fill)
    {
      BeginsFilled(s, tail, fill, CLOSED_NAMES[i]);
      if Completes(tail, CLOSED_NAMES[i], fill) { ClosesFilled(s, tail, fill, CLOSED_NAMES[i]); }
    }
  }

  lemma FilledLength(s: seq<u8>, tail: string, fill: u8)
    requires Filled(s, tail, fill)
    ensures |s| >= READ_OF_TAIL
  {
  }

  // ---- the whole path ----

  /** The path's bytes, then `fill`, as far as a short path is copied. */
  predicate HoldsFilled(buf: seq<u8>, text: seq<u8>, fill: u8) {
    && |buf| == MAX_PATH_DEPTH
    && forall i :: 0 <= i < COPIED ==> buf[i] == (if i < |text| then text[i] else fill)
  }

  lemma SuffixFilled(buf: seq<u8>, path: string, fill: u8)
    requires TryClassify(path).Some? && PidLike(Component(path)) && HoldsFilled(buf, Utf8(path), fill)
    ensures |Component(path)| <= MAX_PID_DIGITS
    ensures Filled(buf[6..][|Component(path)| + 1..], Tail(path), fill)
  {
    hide Utf8, TryClassify, PidLike;
    PathParts(path);
    var comp, tail, text := Component(path), Tail(path), Utf8(path);
    PidLikeIsAscii(comp);
    var s := buf[6..][|comp| + 1..];
    forall i | 0 <= i < READ_OF_TAIL ensures s[i] == if i < |Utf8(tail)| then Utf8(tail)[i] else fill {
      assert s[i] == buf[i + 7 + |comp|];
      if i < |Utf8(tail)| {
        assert text[6..][i + 1 + |comp|] == Utf8(tail)[i];
      }
    }
  }

  lemma OnlySuffixesAreOther(s: seq<u8>)
    requires !TakesSuffix(s)
    ensures ProcClass(s) != ProcPidOther
  {
    hide ProcSuffix;
  }

  /** Exactly which /proc paths the kernel puts into the catch-all class, whatever single byte follows. */
  lemma KernelCatchAll(buf: seq<u8>, path: string, fill: u8)
    requires TryClassify(path).Some? && HoldsFilled(buf, Utf8(path), fill)
    ensures KernelClass(buf) == ProcPidOther <==> PidLike(Component(path)) && !Taken(Tail(path), fill)
  {
    hide Utf8, KernelClass, ProcClass, ProcSuffix, TryClassify, PidLike, Taken, TakesSuffix, Reads;
    KernelReadsProc(buf, path);
    var s, comp, tail := buf[6..], Component(path), Tail(path);
    if PidLike(comp) {
      PidLikeReachesSuffix(s, comp, tail);
      SuffixFilled(buf, path, fill);
      TailLeftOver(s[|comp| + 1..], tail, fill);
    } else if TakesSuffix(s) {
      SuffixMeansPidLike(s, comp, tail);
    } else {
      OnlySuffixesAreOther(s);
    }
  }

  // ---- the two ways a path reaches the classifier ----

  predicate HasSeparated(tail: string, name: string) {
    name <= tail && |name| < |tail| && (tail[|name|] == '/' || tail[|name|] == '\0')
  }

  /** A tail that starts with an open name, or with a closed name and a '/' or NUL after it. */
  predicate KernelNames(tail: string) {
    || (exists i :: 0 <= i < |OPEN_NAMES| && OPEN_NAMES[i] <= tail)
    || (exists i :: 0 <= i < |CLOSED_NAMES| && HasSeparated(tail, CLOSED_NAMES[i]))
  }

  lemma LettersAreNoFill(i: nat, j: nat)
    ensures i < |OPEN_NAMES| && j < |OPEN_NAMES[i]| ==> OPEN_NAMES[i][j] as int != 0 && OPEN_NAMES[i][j] != '/'
    ensures i < |CLOSED_NAMES| && j < |CLOSED_NAMES[i]| ==> CLOSED_NAMES[i][j] as int != 0 && CLOSED_NAMES[i][j] != '/'
  {
  }

  lemma CompletesWithNul(tail: string, name: string)
    requires forall j :: 0 <= j < |name| ==> name[j] as int != 0
    ensures Completes(tail, name, 0) <==> name <= tail
  {
    assert |tail| < |name| ==> name[|tail|] as int != 0;
  }

  lemma TakenBeforeNul(tail: string)
    ensures Taken(tail, 0) <==> KernelNames(tail) || tail in CLOSED_NAMES
  {
    hide Completes;
    forall i | 0 <= i < |OPEN_NAMES| ensures Completes(tail, OPEN_NAMES[i], 0) <==> OPEN_NAMES[i] <= tail {
      forall j | 0 <= j < |OPEN_NAMES[i]| ensures OPEN_NAMES[i][j] as int != 0 { LettersAreNoFill(i, j); }
      CompletesWithNul(tail, OPEN_NAMES[i]);
    }
    forall i | 0 <= i < |CLOSED_NAMES|
      ensures Completes(tail, CLOSED_NAMES[i], 0) && Closes(tail, |CLOSED_NAMES[i]|, 0) <==>
              HasSeparated(tail, CLOSED_NAMES[i]) || CLOSED_NAMES[i] == tail
    {
      forall j | 0 <= j < |CLOSED_NAMES[i]| ensures CLOSED_NAMES[i][j] as int != 0 { LettersAreNoFill(i, j); }
      CompletesWithNul(tail, CLOSED_NAMES[i]);
    }
  }

  lemma DoubleLetters(i: nat, j: nat)
    ensures i < |OPEN_NAMES| && 0 < j < |OPEN_NAMES[i]| && OPEN_NAMES[i][j - 1] == OPEN_NAMES[i][j] ==>
              (i == 2 && j == 3) || (i == 11 && j == 2 && OPEN_NAMES[i][3] != OPEN_NAMES[i][2])
    ensures i < |CLOSED_NAMES| && 0 < j < |CLOSED_NAMES[i]| ==> CLOSED_NAMES[i][j - 1] != CLOSED_NAMES[i][j]
  {
  }

  /** The byte a short resolved path is padded with: its last one. */
  predicate IsLastByte(tail: string, fill: u8) {
    var u := Utf8(tail);
    if u == [] then fill == SLASH else fill == u[|u| - 1]
  }

  /** A name is completed by the last byte of a shorter tail only where it repeats a letter. */
  lemma CompletedByRepeating(tail: string, name: string, fill: u8)
    requires IsAscii(name) && IsLastByte(tail, fill) && Completes(tail, name, fill) && !(name <= tail)
    ensures |tail| < |name| && tail <= name
    ensures tail == "" ==> name[0] == '/'
    ensures tail != "" ==> forall i :: |tail| <= i < |name| ==> name[i] == name[|tail| - 1]
  {
    hide Utf8;
    PrefixIsAscii(tail, name);
    AsciiText(tail);
  }

  lemma OpenCompleted(tail: string, i: nat, fill: u8)
    requires i < |OPEN_NAMES| && IsLastByte(tail, fill) && Completes(tail, OPEN_NAMES[i], fill)
    ensures OPEN_NAMES[i] <= tail || tail == "com"
  {
    hide Completes, IsLastByte, IsAscii;
    NameShapes();
    var name := OPEN_NAMES[i];
    if !(name <= tail) {
      CompletedByRepeating(tail, name, fill);
      LettersAreNoFill(i, 0);
      DoubleLetters(i, |tail|);
      assert i == 2 ==> name == "comm" && "comm"[..3] == "com";
    }
  }

  lemma ClosedCompleted(tail: string, i: nat, fill: u8)
    requires i < |CLOSED_NAMES| && IsLastByte(tail, fill) && Completes(tail, CLOSED_NAMES[i], fill)
    requires Closes(tail, |CLOSED_NAMES[i]|, fill)
    ensures HasSeparated(tail, CLOSED_NAMES[i])
  {
    hide Completes, IsLastByte, IsAscii;
    NameShapes();
    var name := CLOSED_NAMES[i];
    if !(name <= tail) {
      CompletedByRepeating(tail, name, fill);
      LettersAreNoFill(i, 0);
      DoubleLetters(i, |tail|);
    } else if |tail| == |name| {
      assert tail == name;
      LastOfName(name, fill);
      LettersAreNoFill(i, |name| - 1);
    }
  }

  lemma LastOfName(name: string, fill: u8)
    requires IsAscii(name) && name != "" && IsLastByte(name, fill)
    ensures fill == name[|name| - 1] as int
  {
    hide Utf8;
    AsciiText(name);
  }

  lemma ComIsCompleted(fill: u8)
    requires IsLastByte("com", fill)
    ensures Completes("com", OPEN_NAMES[2], fill)
  {
    LastOfName("com", fill);
    assert "comm"[..3] == "com" && "comm"[3] == 'm' && "com"[2] == 'm';
  }

  lemma TakenBeforeItself(tail: string, fill: u8)
    requires IsLastByte(tail, fill)
    ensures Taken(tail, fill) <==> KernelNames(tail) || tail == "com"
  {
    hide IsLastByte;
    forall i | 0 <= i < |OPEN_NAMES| && Completes(tail, OPEN_NAMES[i], fill) ensures OPEN_NAMES[i] <= tail || tail == "com" {
      OpenCompleted(tail, i, fill);
    }
    forall i | 0 <= i < |CLOSED_NAMES| && Completes(tail, CLOSED_NAMES[i], fill) && Closes(tail, |CLOSED_NAMES[i]|, fill)
      ensures HasSeparated(tail, CLOSED_NAMES[i])
    {
      ClosedCompleted(tail, i, fill);
    }
    if tail == "com" {
      ComIsCompleted(fill);
    }
  }

  /** On a zero-padded path: what the compiler puts into the catch-all class the kernel puts there too
      exactly when the component is a process directory and the tail takes none of the kernel's names,
      which it compares by their first letters. */
  lemma CatchAllOnPadded(path: string)
    requires TryClassify(path) == Some(ProcPidOther)
    ensures KernelClass(Padded(Utf8(path))) == ProcPidOther <==>
            PidLike(Component(path)) && !KernelNames(Tail(path)) && Tail(path) !in CLOSED_NAMES
  {
    hide Utf8, KernelClass, TryClassify, PidLike, Taken, KernelNames;
    var text := Utf8(path);
    var buf := Padded(text);
    assert forall i :: 0 <= i < |buf| ==> buf[i] == (text + Zeros(MAX_PATH_DEPTH))[i];
    KernelCatchAll(buf, path, 0);
    TakenBeforeNul(Tail(path));
  }

  /** On a path the hooks resolved, padded with its own last byte: a closed name at the very end is not
      recognised, but "com" is taken for "comm". */
  lemma CatchAllOnResolved(buffer: seq<u8>, path: string)
    requires RightAligned(buffer, Utf8(path)) && TryClassify(path) == Some(ProcPidOther)
    ensures KernelClass(ClassifyBytes(buffer, Prepend, |Utf8(path)|)) == ProcPidOther <==>
            PidLike(Component(path)) && !KernelNames(Tail(path)) && Tail(path) != "com"
  {
    hide Utf8, KernelClass, TryClassify, PidLike, Taken, KernelNames, ClassifyBytes;
    hide HoldsFilled, IsLastByte;
    var text := Utf8(path);
    LastByteOfPath(path);
    ClassifyBytesOfResolved(buffer, text);
    var buf := ClassifyBytes(buffer, Prepend, |text|);
    var fill := text[|text| - 1];
    ResolvedFilled(buf, text);
    KernelCatchAll(buf, path, fill);
    TakenBeforeItself(Tail(path), fill);
  }

  lemma LastByteOfPath(path: string)
    requires TryClassify(path).Some?
    ensures Utf8(path) != [] && IsLastByte(Tail(path), Utf8(path)[|Utf8(path)| - 1])
  {
    hide Utf8, TryClassify;
    PathParts(path);
    assert Utf8(path) == (Utf8(PROC) + Utf8(Component(path)) + [SLASH]) + Utf8(Tail(path));
  }

  lemma ResolvedFilled(buf: seq<u8>, text: seq<u8>)
    requires text != []
    requires buf == if |text| < MAX_PATH_DEPTH then ShortBytes(text) else text[..MAX_PATH_DEPTH]
    ensures HoldsFilled(buf, text, text[|text| - 1])
  {
  }
}
