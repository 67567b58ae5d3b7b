/** The lines of a profile section are in the order of their UTF-8 bytes. */
module ByteOrder {
  import opened Strings
  import opened AppArmorPrinter

  /** Where the texts first differ, the first has ended or has the smaller byte. */
  ghost predicate ByteLess(x: seq<u8>, y: seq<u8>) { exists i :: LessAt(x, y, i) }

  predicate LessAt(x: seq<u8>, y: seq<u8>, i: int) {
    0 <= i <= |x| && i < |y| && x[..i] == y[..i] && (i == |x| || x[i] < y[i])
  }

  lemma SameBytesBelow(x: seq<u8>, y: seq<u8>, i: int, k: int)
    requires LessAt(x, y, i) && 0 <= k < i
    ensures k < |x| && k < |y| && x[k] == y[k]
  {
    assert x[..i][k] == y[..i][k];
  }

  lemma NeverBothLess(x: seq<u8>, y: seq<u8>, i: int, j: int)
    requires LessAt(x, y, i)
    ensures !LessAt(y, x, j)
  {
    if LessAt(y, x, j) {
      if i < j {
        SameBytesBelow(y, x, j, i);
      } else if j < i {
        SameBytesBelow(x, y, i, j);
      }
    }
  }

  // ---- single characters ----

  /** Position of the first byte that tells two characters apart. */
  predicate SmallerAt(c: char, d: char, j: int) {
    var x, y := EncodeChar(c), EncodeChar(d);
    0 <= j < |x| && j < |y| && x[..j] == y[..j] && x[j] < y[j]
  }

  lemma TwoBytes(c: char, d: char)
    requires c < d && 0x80 <= c as int && (d as int) < 0x800
    ensures SmallerAt(c, d, 0) || SmallerAt(c, d, 1)
  {
    var x, y := c as int, d as int;
    assert x / 0x40 <= y / 0x40;
    if x / 0x40 == y / 0x40 {
      assert EncodeChar(c)[..1] == EncodeChar(d)[..1];
    }
  }

  lemma ThreeBytes(c: char, d: char)
    requires c < d && 0x800 <= c as int && (d as int) < 0x1_0000
    ensures SmallerAt(c, d, 0) || SmallerAt(c, d, 1) || SmallerAt(c, d, 2)
  {
    var x, y := c as int, d as int;
    var e, f := EncodeChar(c), EncodeChar(d);
    assert x / 0x1000 <= y / 0x1000 && x / 0x40 <= y / 0x40;
    assert x / 0x40 == x / 0x1000 * 0x40 + x / 0x40 % 0x40 && y / 0x40 == y / 0x1000 * 0x40 + y / 0x40 % 0x40 by {
      Nested(x);
      Nested(y);
    }
    if x / 0x1000 == y / 0x1000 {
      assert e[..1] == f[..1];
      if x / 0x40 % 0x40 == y / 0x40 % 0x40 {
        assert e[..2] == f[..2];
      }
    }
  }

  lemma Nested(x: nat)
    ensures x / 0x40 / 0x40 == x / 0x1000
  {
  }

  lemma FourBytes(c: char, d: char)
    requires c < d && 0x1_0000 <= c as int
    ensures SmallerAt(c, d, 0) || SmallerAt(c, d, 1) || SmallerAt(c, d, 2) || SmallerAt(c, d, 3)
  {
    var x, y := c as int, d as int;
    var e, f := EncodeChar(c), EncodeChar(d);
    Nested(x);
    Nested(y);
    Nested(x / 0x40);
    Nested(y / 0x40);
    assert x / 0x40 / 0x1000 == x / 0x4_0000 && y / 0x40 / 0x1000 == y / 0x4_0000;
    assert x / 0x4_0000 <= y / 0x4_0000 && x / 0x1000 <= y / 0x1000 && x / 0x40 <= y / 0x40;
    if x / 0x4_0000 == y / 0x4_0000 {
      assert e[..1] == f[..1];
      if x / 0x1000 % 0x40 == y / 0x1000 % 0x40 {
        assert e[..2] == f[..2];
        if x / 0x40 % 0x40 == y / 0x40 % 0x40 {
          assert e[..3] == f[..3];
        }
      }
    }
  }

  lemma MoreBytes(c: char, d: char)
    requires c < d && |EncodeChar(c)| != |EncodeChar(d)|
    ensures SmallerAt(c, d, 0)
  {
  }

  lemma CharOrder(c: char, d: char) returns (j: int)
    requires c < d
    ensures SmallerAt(c, d, j)
  {
    hide SmallerAt;
    if |EncodeChar(c)| != |EncodeChar(d)| {
      MoreBytes(c, d);
      j := 0;
    } else if (d as int) < 0x80 {
      assert SmallerAt(c, d, 0) by { OneByte(c, d); }
      j := 0;
    } else {
      if (d as int) < 0x800 { TwoBytes(c, d); } else if (d as int) < 0x1_0000 { ThreeBytes(c, d); } else { FourBytes(c, d); }
      j := if SmallerAt(c, d, 0) then 0 else if SmallerAt(c, d, 1) then 1 else if SmallerAt(c, d, 2) then 2 else 3;
    }
  }

  lemma OneByte(c: char, d: char)
    requires c < d && (d as int) < 0x80
    ensures SmallerAt(c, d, 0)
  {
  }

  // ---- texts ----

  lemma {:induction false} LessInBytes(a: string, b: string) returns (i: int)
    requires Less(a, b)
    ensures LessAt(Utf8(a), Utf8(b), i)
    decreases |a|
  {
    hide EncodeChar, LessAt;
    if a == "" {
      i := 0;
      assert LessAt(Utf8(a), Utf8(b), 0) by { EmptyFirst(b); }
    } else if a[0] < b[0] {
      i := CharOrder(a[0], b[0]);
      FirstCharTells(a, b, i);
    } else {
      var k := LessInBytes(a[1..], b[1..]);
      i := |EncodeChar(a[0])| + k;
      SameHead(EncodeChar(a[0]), Utf8(a[1..]), Utf8(b[1..]), k);
    }
  }

  lemma EmptyFirst(b: string)
    requires b != ""
    ensures LessAt(Utf8(""), Utf8(b), 0)
  {
    hide EncodeChar;
  }

  lemma FirstCharTells(a: string, b: string, i: int)
    requires a != "" && b != "" && SmallerAt(a[0], b[0], i)
    ensures LessAt(Utf8(a), Utf8(b), i)
  {
    hide EncodeChar;
    var x, y := EncodeChar(a[0]), EncodeChar(b[0]);
    assert Utf8(a)[..i] == x[..i] && Utf8(b)[..i] == y[..i];
  }

  lemma SameHead(head: seq<u8>, x: seq<u8>, y: seq<u8>, k: int)
    requires LessAt(x, y, k)
    ensures LessAt(head + x, head + y, |head| + k)
  {
    assert (head + x)[..|head| + k] == head + x[..k] && (head + y)[..|head| + k] == head + y[..k];
  }

  /** Comparing texts character by character is comparing their UTF-8 bytes. */
  lemma LessIsByteOrder(a: string, b: string)
    ensures Less(a, b) <==> ByteLess(Utf8(a), Utf8(b))
  {
    hide Utf8, LessAt, Less;
    LessTotal(a, b);
    if Less(a, b) {
      var i := LessInBytes(a, b);
    } else if a == b {
      forall i ensures !LessAt(Utf8(a), Utf8(a), i) {
        if LessAt(Utf8(a), Utf8(a), i) {
          NeverBothLess(Utf8(a), Utf8(a), i, i);
        }
      }
    } else {
      var i := LessInBytes(b, a);
      forall j ensures !LessAt(Utf8(a), Utf8(b), j) { NeverBothLess(Utf8(b), Utf8(a), i, j); }
    }
  }

  /** A sorted list of lines is strictly increasing in the bytes of its lines. */
  lemma SortedByBytes(v: seq<string>)
    ensures StrictlySorted(v) <==> forall i, j :: 0 <= i < j < |v| ==> ByteLess(Utf8(v[i]), Utf8(v[j]))
  {
    hide Less, ByteLess, Utf8;
    forall i, j | 0 <= i < j < |v| ensures Less(v[i], v[j]) <==> ByteLess(Utf8(v[i]), Utf8(v[j])) {
      LessIsByteOrder(v[i], v[j]);
    }
  }

  // ---- the encoding itself ----

  /** All bytes but the first are between 0x80 and 0xBF. */
  predicate Trails(b: seq<u8>) { forall i :: 0 < i < |b| ==> 0x80 <= b[i] <= 0xBF }

  /** The bits of a byte from its marker on. */
  function Bits(b: u8, marker: int): int { b as int - marker }

  /** The bytes encode the number as section 3 of RFC 3629 lays out its bits. */
  predicate Encodes(b: seq<u8>, x: int) {
    match |b|
    case 1 => x < 0x80 && b[0] == x
    case 2 => 0x80 <= x < 0x800 && 0xC2 <= b[0] <= 0xDF && x == Bits(b[0], 0xC0) * 64 + Bits(b[1], 0x80)
    case 3 =>
      && 0x800 <= x < 0x1_0000 && 0xE0 <= b[0] <= 0xEF
      && x == Bits(b[0], 0xE0) * 4096 + Bits(b[1], 0x80) * 64 + Bits(b[2], 0x80)
    case 4 =>
      && 0x1_0000 <= x && 0xF0 <= b[0] <= 0xF4
      && x == Bits(b[0], 0xF0) * 262144 + Bits(b[1], 0x80) * 4096 + Bits(b[2], 0x80) * 64 + Bits(b[3], 0x80)
    case _ => false
  }

  lemma Digits(x: nat)
    ensures x == x / 0x40 * 0x40 + x % 0x40
    ensures x / 0x40 / 0x40 == x / 0x1000
    ensures x / 0x1000 / 0x40 == x / 0x4_0000
  {
  }

  lemma ShortEncoding(c: char)
    requires (c as int) < 0x800
    ensures Encodes(EncodeChar(c), c as int) && Trails(EncodeChar(c))
  {
    Digits(c as int);
  }

  lemma ThreeByteEncoding(c: char)
    requires 0x800 <= c as int < 0x1_0000
    ensures Encodes(EncodeChar(c), c as int) && Trails(EncodeChar(c))
  {
    var x := c as int;
    Digits(x);
    Digits(x / 0x40);
    var b := EncodeChar(c);
    assert b[0] == 0xE0 + x / 0x1000 && b[1] == 0x80 + x / 0x40 % 0x40 && b[2] == 0x80 + x % 0x40;
  }

  lemma FourByteEncoding(c: char)
    requires 0x1_0000 <= c as int
    ensures Encodes(EncodeChar(c), c as int) && Trails(EncodeChar(c))
  {
    var x := c as int;
    Digits(x);
    Digits(x / 0x40);
    Digits(x / 0x1000);
    var b := EncodeChar(c);
    assert b[0] == 0xF0 + x / 0x4_0000 && b[1] == 0x80 + x / 0x1000 % 0x40;
    assert b[2] == 0x80 + x / 0x40 % 0x40 && b[3] == 0x80 + x % 0x40;
  }

  /** Each character is encoded in UTF-8. */
  lemma EncodingIsUtf8(c: char)
    ensures Encodes(EncodeChar(c), c as int) && Trails(EncodeChar(c))
  {
    hide Encodes, Trails, EncodeChar;
    if (c as int) < 0x800 { ShortEncoding(c); } else if (c as int) < 0x1_0000 { ThreeByteEncoding(c); } else { FourByteEncoding(c); }
  }

  /** Different texts have different bytes, so a rule is about a path exactly when their bytes agree. */
  lemma SameBytesSameText(a: string, b: string)
    ensures Utf8(a) == Utf8(b) <==> a == b
  {
    hide Utf8, Less, ByteLess;
    LessTotal(a, b);
    LessIsByteOrder(a, b);
    LessIsByteOrder(b, a);
    LessIsByteOrder(a, a);
    LessTotal(a, a);
  }
}
