/** The 64-bit FNV-1a hash shared by the loader and the kernel programs. It stops at a NUL byte. */
module Fnv {
  import opened Strings

  const OFFSET_BASIS: u64 := 0xcbf2_9ce4_8422_2325
  const PRIME: int := 0x100_0000_01b3

  function Bound(width: nat): nat { if width == 0 then 1 else 2 * Bound(width - 1) }

  /** Exclusive or of the low `width` bits. */
  function Xor(a: nat, b: nat, width: nat): (r: nat)
    ensures r < Bound(width)
  {
    if width == 0 then 0 else (if a % 2 == b % 2 then 0 else 1) + 2 * Xor(a / 2, b / 2, width - 1)
  }

  /** `h ^ b` on 64 bits: only the low byte of `h` takes part. */
  function XorLow(h: u64, b: u8): u64 { assert Bound(8) == 0x100; h / 0x100 * 0x100 + Xor(h % 0x100, b, 8) }

  function Step(h: u64, b: u8): u64 { XorLow(h, b) * PRIME % TWO_TO_THE_64 }

  /** Hash of `data` up to its first NUL, continuing from state `h`. */
  function HashFrom(h: u64, data: seq<u8>): u64
    decreases |data|
  {
    if data == [] || data[0] == 0 then h else HashFrom(Step(h, data[0]), data[1..])
  }

  function Hash(data: seq<u8>): u64 { HashFrom(OFFSET_BASIS, data) }

  method HashBytes(data: seq<u8>) returns (hash: u64)
    ensures hash == Hash(data)
  {
    hide Step;
    hash := OFFSET_BASIS;
    var i := 0;
    while i < |data|
      invariant 0 <= i <= |data|
      invariant HashFrom(hash, data[i..]) == Hash(data)
    {
      if data[i] == 0 {
        break;
      }
      assert data[i..][1..] == data[i + 1..];
      hash := Step(hash, data[i]);
      i := i + 1;
    }
  }

  predicate NulFree(data: seq<u8>) { forall i :: 0 <= i < |data| ==> data[i] != 0 }

  /** Hashing a NUL-free prefix first and carrying on from its state is hashing the whole. */
  lemma {:induction false} HashAppend(h: u64, a: seq<u8>, b: seq<u8>)
    requires NulFree(a)
    ensures HashFrom(h, a + b) == HashFrom(HashFrom(h, a), b)
    decreases |a|
  {
    hide Step;
    if a == [] {
      assert a + b == b;
    } else {
      assert (a + b)[1..] == a[1..] + b;
      HashAppend(Step(h, a[0]), a[1..], b);
    }
  }

  /** Nothing after the first NUL reaches the hash. */
  lemma HashStopsAtNul(a: seq<u8>, b: seq<u8>)
    requires NulFree(a) && (b == [] || b[0] == 0)
    ensures Hash(a + b) == Hash(a)
  {
    HashAppend(OFFSET_BASIS, a, b);
  }

  // ---- what cannot collide ----

  /** Inverse of PRIME modulo 2^64. */
  const PRIME_INVERSE: int := 0xce96_5057_aff6_957b

  /** PRIME * PRIME_INVERSE is 1 and this many times 2^64. */
  const INVERSE_QUOTIENT: int := 0xce9650590f

  lemma {:induction false} UndoMultiply(x: u64)
    ensures x * PRIME % TWO_TO_THE_64 * PRIME_INVERSE % TWO_TO_THE_64 == x
  {
    var k := x * PRIME / TWO_TO_THE_64;
    var y := x * PRIME % TWO_TO_THE_64;
    assert y == x * PRIME - k * TWO_TO_THE_64;
    var t := x * INVERSE_QUOTIENT - k * PRIME_INVERSE;
    assert y * PRIME_INVERSE == x + t * TWO_TO_THE_64;
    MultiplesVanish(x, t);
  }

  lemma MultiplesVanish(x: u64, t: int)
    ensures (x + t * TWO_TO_THE_64) % TWO_TO_THE_64 == x
  {
  }

  /** Equal results from equal left operands come from equal right operands, and conversely. */
  lemma {:induction false} XorCancels(a: nat, b: nat, c: nat, d: nat, width: nat)
    requires Xor(a, b, width) == Xor(c, d, width)
    requires a < Bound(width) && b < Bound(width) && c < Bound(width) && d < Bound(width)
    ensures a == c <==> b == d
  {
    if width > 0 {
      var x, y := Xor(a / 2, b / 2, width - 1), Xor(c / 2, d / 2, width - 1);
      assert x == y && (a % 2 == b % 2 <==> c % 2 == d % 2);
      XorCancels(a / 2, b / 2, c / 2, d / 2, width - 1);
    }
  }

  lemma StepDeterminesXor(g: u64, a: u8, h: u64, b: u8)
    requires Step(g, a) == Step(h, b)
    ensures XorLow(g, a) == XorLow(h, b)
  {
    hide XorLow;
    UndoMultiply(XorLow(g, a));
    UndoMultiply(XorLow(h, b));
  }

  lemma XorLowParts(h: u64, b: u8)
    ensures Bound(8) == 0x100
    ensures XorLow(h, b) / 0x100 == h / 0x100
    ensures XorLow(h, b) % 0x100 == Xor(h % 0x100, b, 8)
  {
    hide Xor;
    assert Bound(8) == 0x100;
  }

  /** One step loses nothing: from equal results, equal states mean equal bytes and conversely. */
  lemma StepCancels(g: u64, a: u8, h: u64, b: u8)
    requires Step(g, a) == Step(h, b)
    ensures g == h <==> a == b
  {
    hide Step, XorLow, Xor, Bound;
    StepDeterminesXor(g, a, h, b);
    XorLowParts(g, a);
    XorLowParts(h, b);
    XorCancels(g % 0x100, a, h % 0x100, b, 8);
  }

  /** A common tail neither creates nor removes a collision. */
  lemma {:induction false} HashFromInjective(g: u64, h: u64, data: seq<u8>)
    ensures HashFrom(g, data) == HashFrom(h, data) <==> g == h
    decreases |data|
  {
    hide Step;
    if data != [] && data[0] != 0 {
      HashFromInjective(Step(g, data[0]), Step(h, data[0]), data[1..]);
      if Step(g, data[0]) == Step(h, data[0]) {
        StepCancels(g, data[0], h, data[0]);
      }
    }
  }

  /** Two NUL-free paths of one length that differ in a single byte never collide. */
  lemma OneByteNeverCollides(data: seq<u8>, i: nat, b: u8)
    requires NulFree(data) && i < |data| && b != 0 && b != data[i]
    ensures Hash(data[i := b]) != Hash(data)
  {
    hide Step, HashFrom;
    var head, tail := data[..i], data[i + 1..];
    var h := HashFrom(OFFSET_BASIS, head);
    HashOneMore(h, data[i], tail);
    HashOneMore(h, b, tail);
    assert data == head + ([data[i]] + tail);
    assert data[i := b] == head + ([b] + tail);
    HashAppend(OFFSET_BASIS, head, [data[i]] + tail);
    HashAppend(OFFSET_BASIS, head, [b] + tail);
    HashFromInjective(Step(h, data[i]), Step(h, b), tail);
    if Step(h, data[i]) == Step(h, b) {
      StepCancels(h, data[i], h, b);
    }
  }

  lemma HashOneMore(h: u64, b: u8, tail: seq<u8>)
    requires b != 0
    ensures HashFrom(h, [b] + tail) == HashFrom(Step(h, b), tail)
  {
    assert ([b] + tail)[1..] == tail;
  }

  lemma XorExample()
    ensures Xor(0x25, 0x61, 8) == 0x44
  {
    assert Xor(0, 0, 1) == 0;
    assert Xor(0, 1, 2) == 1;
    assert Xor(1, 3, 3) == 2;
    assert Xor(2, 6, 4) == 4;
    assert Xor(4, 12, 5) == 8;
    assert Xor(9, 24, 6) == 17;
    assert Xor(18, 48, 7) == 34;
  }

  /** The published 64-bit FNV-1a values of the empty string and of "a". */
  lemma PublishedValues()
    ensures Hash([]) == 0xcbf2_9ce4_8422_2325
    ensures Hash([0x61]) == 0xaf63_dc4c_8601_ec8c
  {
    hide Xor, Bound;
    XorExample();
    assert XorLow(OFFSET_BASIS, 0x61) == 0xcbf2_9ce4_8422_2344 by {
      XorLowParts(OFFSET_BASIS, 0x61);
    }
    assert Step(OFFSET_BASIS, 0x61) == 0xaf63_dc4c_8601_ec8c;
    HashOneMore(OFFSET_BASIS, 0x61, []);
    assert [0x61] + [] == [0x61];
  }
}
