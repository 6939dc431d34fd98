/**
 The reassembly buffer: or'ing table entries into it appends groups to the
 stream of bits that the buffer is, read from its top down.
 */
module AdcMemory {
  import opened Bits
  import opened AdcSpec
  import opened AdcTable

  lemma OrZero(b: Byte)
    ensures Or(ZERO, b) == b
  {}

  // The group of b joins the stream at position `start`; nothing else changes.
  ghost predicate GroupAdded(init: AdcInit, m: seq<Byte>, m': seq<Byte>, start: int, b: Byte)
    requires init.Fits()
  {
    && |m'| == |m|
    && forall q :: 0 <= q < 8 * |m| ==>
         StreamBit(m', q) == (StreamBit(m, q) || init.GroupBit(b, q - start))
  }

  // The block from `start` holds the group of b and is clear behind it.
  ghost predicate BlockStarted(init: AdcInit, m: seq<Byte>, m': seq<Byte>, start: int, b: Byte)
    requires init.Fits()
  {
    && |m'| == |m|
    && forall q :: 0 <= q < 8 * |m| ==>
         StreamBit(m', q) == if start <= q < start + 8 * init.NBytes() then init.GroupBit(b, q - start)
                             else StreamBit(m, q)
  }

  ghost predicate BlockCleared(init: AdcInit, m: seq<Byte>, m': seq<Byte>, start: int) {
    && |m'| == |m|
    && forall q :: 0 <= q < 8 * |m| ==>
         StreamBit(m', q) == (StreamBit(m, q) && !(start <= q < start + 8 * init.NBytes()))
  }

  lemma BlockClear(init: AdcInit, m: seq<Byte>, m': seq<Byte>, offset: nat, start: int)
    requires init.Fits() && |m'| == |m| == init.BuffSize() && offset + init.NBytes() <= |m|
    requires forall i :: 0 <= i < |m| ==> m'[i] == if offset <= i < offset + init.NBytes() then ZERO else m[i]
    requires start == 8 * (|m| - init.NBytes() - offset)
    ensures BlockCleared(init, m, m', start)
  {}

  lemma FirstGroup(init: AdcInit, m: seq<Byte>, cleared: seq<Byte>, m': seq<Byte>, start: int, b: Byte)
    requires init.Fits() && BlockCleared(init, m, cleared, start) && GroupAdded(init, cleared, m', start, b)
    ensures BlockStarted(init, m, m', start, b)
  {
    Shape(init);
    forall q | 0 <= q < 8 * |m|
      ensures StreamBit(m', q) == if start <= q < start + 8 * init.NBytes() then init.GroupBit(b, q - start)
                                  else StreamBit(m, q)
    {
      assert StreamBit(m', q) == (StreamBit(cleared, q) || init.GroupBit(b, q - start));
    }
  }

  // Two bytes of memory or'ed with a 16-bit word.
  ghost function OrWindow(m: seq<Byte>, at: nat, e: Bits): seq<Byte>
    requires at + 2 <= |m| && |e| == 16
  {
    m[at := Or(m[at], e[..8])][at + 1 := Or(m[at + 1], e[8..])]
  }

  lemma WindowBit(m: seq<Byte>, at: nat, e: Bits, k: nat)
    requires at + 2 <= |m| && |e| == 16 && k < 8 * |m|
    ensures MemBit(OrWindow(m, at, e), k) == (MemBit(m, k) || (8 * at <= k < 8 * at + 16 && e[k - 8 * at]))
  {}

  lemma GroupBitInMemory(init: AdcInit, m: seq<Byte>, offset: nat, j: nat, b: Byte, e: Bits, start: int, q: nat)
    requires init.Fits() && j < init.NGroups() && EntryOk(init, j, b, e)
    requires |m| == init.BuffSize() && offset + init.NBytes() <= |m| && q < 8 * |m|
    requires 0 <= GroupOffset(init, j) && offset + GroupOffset(init, j) + 2 <= |m|
    requires start == 8 * (|m| - init.NBytes() - offset) + j * init.W()
    ensures StreamBit(OrWindow(m, offset + GroupOffset(init, j), e), q)
           == (StreamBit(m, q) || init.GroupBit(b, q - start))
  {
    var at := offset + GroupOffset(init, j);
    var k := 8 * |m| - 1 - q;
    WindowBit(m, at, e, k);
    if 0 <= q - start < init.W() { GroupWindow(init, j, q - start); }
    if 8 * at <= k < 8 * at + 16 {
      assert e[k - 8 * at] == init.GroupBit(b, q - start);
    }
  }

  // Or'ing the entry of group j into its window adds its bits to the stream,
  // in their place behind the groups before it, and touches nothing else.
  lemma GroupInMemory(init: AdcInit, m: seq<Byte>, offset: nat, j: nat, b: Byte, e: Bits, start: int)
    requires init.Fits() && j < init.NGroups() && EntryOk(init, j, b, e)
    requires |m| == init.BuffSize() && offset + init.NBytes() <= |m|
    requires start == 8 * (|m| - init.NBytes() - offset) + j * init.W()
    ensures 0 <= GroupOffset(init, j) && offset + GroupOffset(init, j) + 2 <= |m|
    ensures GroupAdded(init, m, OrWindow(m, offset + GroupOffset(init, j), e), start, b)
  {
    GroupWindow(init, j, 0);
    var m' := OrWindow(m, offset + GroupOffset(init, j), e);
    forall q | 0 <= q < 8 * |m|
      ensures StreamBit(m', q) == (StreamBit(m, q) || init.GroupBit(b, q - start))
    {
      GroupBitInMemory(init, m, offset, j, b, e, start, q);
    }
  }

  // *(unsigned short*)(m + at) |= e
  method OrShort(m: array<Byte>, at: nat, e: Bits)
    requires at + 2 <= m.Length && |e| == 16
    modifies m
    ensures m[..] == OrWindow(old(m[..]), at, e)
  {
    m[at] := Or(m[at], e[..8]);
    m[at + 1] := Or(m[at + 1], e[8..]);
  }

  // *(unsigned short*)(m + at) = e, where memory is clear
  method StoreShort(m: array<Byte>, at: nat, e: Bits)
    requires at + 2 <= m.Length && |e| == 16 && m[at] == m[at + 1] == ZERO
    modifies m
    ensures m[..] == OrWindow(old(m[..]), at, e)
  {
    OrZero(e[..8]);
    OrZero(e[8..]);
    m[at] := e[..8];
    m[at + 1] := e[8..];
  }

  // memset(m + from, 0, count)
  method Clear(m: array<Byte>, from: nat, count: nat)
    requires from + count <= m.Length
    modifies m
    ensures forall i :: 0 <= i < m.Length ==> m[i] == if from <= i < from + count then ZERO else old(m[i])
  {
    var k := 0;
    while k < count
      invariant 0 <= k <= count
      invariant forall i :: 0 <= i < m.Length ==> m[i] == if from <= i < from + k then ZERO else old(m[i])
    {
      m[from + k] := ZERO;
      k := k + 1;
    }
  }

  // The 16-bit window of group j of the block at `offset` is or'ed with its
  // entry, which adds the group to the stream at position `start`.
  method OrEntry(init: AdcInit, m: array<Byte>, offset: nat, at: int, j: nat, e: Bits, ghost b: Byte, ghost start: int)
    requires init.Fits() && m.Length == init.BuffSize() && j < init.NGroups() && EntryOk(init, j, b, e)
    requires offset + init.NBytes() <= m.Length && at == GroupOffset(init, j)
    requires start == 8 * (m.Length - init.NBytes() - offset) + j * init.W()
    modifies m
    ensures GroupAdded(init, old(m[..]), m[..], start, b)
  {
    GroupInMemory(init, m[..], offset, j, b, e, start);
    OrShort(m, offset + at, e);
  }

  // The block is cleared and its first window or'ed with the entry of group 0.
  lemma StartsBlock(init: AdcInit, m: seq<Byte>, cleared: seq<Byte>, offset: nat, b: Byte, e: Bits, start: int)
    requires init.Fits() && EntryOk(init, 0, b, e)
    requires |cleared| == |m| == init.BuffSize() && offset + init.NBytes() <= |m|
    requires forall i :: 0 <= i < |m| ==> cleared[i] == if offset <= i < offset + init.NBytes() then ZERO else m[i]
    requires start == 8 * (|m| - init.NBytes() - offset)
    ensures 0 <= GroupOffset(init, 0) && offset + GroupOffset(init, 0) + 2 <= offset + init.NBytes()
    ensures BlockStarted(init, m, OrWindow(cleared, offset + GroupOffset(init, 0), e), start, b)
  {
    Shape(init);
    BlockClear(init, m, cleared, offset, start);
    GroupWindow(init, 0, 0);
    GroupInMemory(init, cleared, offset, 0, b, e, start);
    FirstGroup(init, m, cleared, OrWindow(cleared, offset + GroupOffset(init, 0), e), start, b);
  }

  // A new cycle: its block, at position `start` of the stream, is cleared and receives group 0.
  method StoreFirst(init: AdcInit, m: array<Byte>, offset: nat, at: int, e: Bits, ghost b: Byte, ghost start: int)
    requires init.Fits() && m.Length == init.BuffSize() && EntryOk(init, 0, b, e)
    requires offset + init.NBytes() <= m.Length && at == GroupOffset(init, 0)
    requires start == 8 * (m.Length - init.NBytes() - offset)
    modifies m
    ensures BlockStarted(init, old(m[..]), m[..], start, b)
  {
    Clear(m, offset, init.NBytes());
    StartsBlock(init, old(m[..]), m[..], offset, b, e, start);
    StoreShort(m, offset + at, e);
  }
}
