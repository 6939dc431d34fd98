/**
 Words as the levels of their bits, lowest bit first, with the bit operators
 of the source.  A byte of the USB bus is the levels of its eight pins.
 */
module Bits {

  type Bits = seq<bool>

  type Byte = b: Bits | |b| == 8 witness [false, false, false, false, false, false, false, false]

  const ZERO: Byte := [false, false, false, false, false, false, false, false]

  const ONES: Byte := [true, true, true, true, true, true, true, true]

  // 1 << p
  function One(p: nat): Byte {
    seq(8, i => i == p)
  }

  function And(a: Byte, b: Byte): Byte {
    seq(8, i requires 0 <= i < 8 => a[i] && b[i])
  }

  function Or(a: Byte, b: Byte): Byte {
    seq(8, i requires 0 <= i < 8 => a[i] || b[i])
  }

  function Not(a: Byte): Byte {
    seq(8, i requires 0 <= i < 8 => !a[i])
  }

  // a << k and a >> k, in a word of the length of a; k may exceed it.
  function Shl(a: Bits, k: nat): (r: Bits)
    ensures |r| == |a|
  {
    seq(|a|, i requires 0 <= i < |a| => k <= i && a[i - k])
  }

  function Shr(a: Bits, k: nat): (r: Bits)
    ensures |r| == |a|
  {
    seq(|a|, i requires 0 <= i < |a| => i + k < |a| && a[i + k])
  }

  /** The byte whose pins are those of b in opposite order. */
  function Reverse(b: Byte): Byte {
    seq(8, i requires 0 <= i < 8 => b[7 - i])
  }

  // A byte as the lowest bits of a longer word.
  function Extend(b: Byte, width: nat): (r: Bits)
    requires width >= 8
    ensures |r| == width
  {
    seq(width, i requires 0 <= i < width => i < 8 && b[i])
  }

  /** Comparing two bytes under a mask compares them on the pins of the mask. */
  lemma EqualUnderMask(m: Byte, a: Byte, b: Byte)
    ensures And(a, m) == And(b, m) <==> forall p :: 0 <= p < 8 && m[p] ==> a[p] == b[p]
  {
    if And(a, m) == And(b, m) {
      forall p | 0 <= p < 8 && m[p] ensures a[p] == b[p] {
        assert And(a, m)[p] == And(b, m)[p];
      }
    }
  }

  // -------------------------------------------------- bytes as table indices

  function Value(b: Bits): nat {
    if b == [] then 0 else (if b[0] then 1 else 0) + 2 * Value(b[1..])
  }

  function OfValue(n: nat, width: nat): (b: Bits)
    ensures |b| == width
  {
    if width == 0 then [] else [n % 2 == 1] + OfValue(n / 2, width - 1)
  }

  lemma {:induction false} OfValueOfValue(b: Bits)
    ensures OfValue(Value(b), |b|) == b
  {
    if b == [] {
    } else {
      OfValueOfValue(b[1..]);
      assert Value(b) / 2 == Value(b[1..]) && Value(b) % 2 == (if b[0] then 1 else 0);
    }
  }

  lemma {:induction false} ValueBelow(b: Bits, n: nat)
    requires |b| <= 1 ==> n >= 2
    requires |b| >= 1 ==> n % 2 == 0
    requires |b| >= 2 ==> Value(b[1..]) < n / 2
    ensures Value(b) < n
  {
    if |b| == 1 { assert b[1..] == []; }
  }

  /** A byte indexes a table of 256 entries, and the index gives the byte back. */
  lemma ByteIndex(b: Byte)
    ensures Value(b) < 256
    ensures OfValue(Value(b), 8) == b
  {
    OfValueOfValue(b);
    var s := k requires 0 <= k <= 8 => b[k..];
    ValueBelow(s(7), 2);
    assert s(6)[1..] == s(7) && s(5)[1..] == s(6) && s(4)[1..] == s(5) && s(3)[1..] == s(4);
    assert s(2)[1..] == s(3) && s(1)[1..] == s(2) && s(0)[1..] == s(1) && s(0) == b;
    ValueBelow(s(6), 4); ValueBelow(s(5), 8); ValueBelow(s(4), 16); ValueBelow(s(3), 32);
    ValueBelow(s(2), 64); ValueBelow(s(1), 128); ValueBelow(s(0), 256);
  }

  // ------------------------------------------------------------ memory bits

  // Bit k of memory read as one little-endian number.
  predicate MemBit(m: seq<Byte>, k: nat)
    requires k < 8 * |m|
  {
    m[k / 8][k % 8]
  }

  // Bit q of memory read from its highest bit down.
  predicate StreamBit(m: seq<Byte>, q: nat)
    requires q < 8 * |m|
  {
    MemBit(m, 8 * |m| - 1 - q)
  }

  // Memory as the list of its bits from the highest down.
  function StreamOf(m: seq<Byte>): (bits: Bits)
    ensures |bits| == 8 * |m|
  {
    seq(8 * |m|, q requires 0 <= q < 8 * |m| => StreamBit(m, q))
  }
}
