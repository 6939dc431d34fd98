/**
 The lookup table of the ADC peripheral: for every group of a cycle and every
 byte, the 16-bit window that places the group in its block.
 */
module AdcTable {
  import opened Bits
  import opened AdcSpec
  import opened AdcDecoder
  import opened Products

  // Byte offset within a block of the 16-bit window that receives group j.
  function GroupOffset(init: AdcInit, j: nat): (g: int)
    requires init.Fits()
  {
    if j * init.W() / 8 > init.NBytes() - 2 then 0 else init.NBytes() - 2 - j * init.W() / 8
  }

  /** The window of a group holds the whole group and lies inside the block. */
  lemma GroupWindow(init: AdcInit, j: nat, t: nat)
    requires init.Fits() && j < init.NGroups() && t < init.W()
    ensures 0 <= GroupOffset(init, j) <= init.NBytes() - 2
    ensures 8 * GroupOffset(init, j) <= 8 * init.NBytes() - 1 - j * init.W() - t < 8 * GroupOffset(init, j) + 16
  {
    Shape(init);
    var w, n := init.W(), init.NBytes();
    assert (j + 1) * w == j * w + w;
    MulMonotone(j + 1, init.NGroups(), w);
  }

  // Data pins l .. l + w - 1, reversed over the byte and shifted back in place.
  function BackInPlace(d: Byte, shift: int): Byte {
    if shift >= 0 then Shl(Reverse(d), shift) else Shr(Reverse(d), -shift)
  }

  lemma ReversedPins(d: Byte, l: nat, w: nat, shift: int, p: nat)
    requires l + w <= 8 && p < 8 && shift == 2 * l + w - 8
    requires forall q :: 0 <= q < 8 && d[q] ==> l <= q < l + w
    ensures BackInPlace(d, shift)[p] == (l <= p < l + w && d[2 * l + w - 1 - p])
  {
    if 0 <= p - shift < 8 {
      assert Reverse(d)[p - shift] == d[7 - (p - shift)];
      assert BackInPlace(d, shift)[p] == Reverse(d)[p - shift];
    } else {
      assert !BackInPlace(d, shift)[p];
    }
  }

  // The data pins of b alone.
  function DataOf(init: AdcInit, b: Byte): Byte
    requires init.Fits()
  {
    And(b, Not(Or(init.Mask(), One(init.clk))))
  }

  lemma DataPins(init: AdcInit, b: Byte, q: nat)
    requires init.Fits() && q < 8
    ensures DataOf(init, b)[q] == (b[q] && init.lowestDataBit <= q < init.lowestDataBit + init.W())
  {
    MaskPins(init, q);
  }

  lemma AllDataPins(init: AdcInit, b: Byte)
    requires init.Fits()
    ensures forall q :: 0 <= q < 8 ==>
      DataOf(init, b)[q] == (b[q] && init.lowestDataBit <= q < init.lowestDataBit + init.W())
  {
    forall q | 0 <= q < 8
      ensures DataOf(init, b)[q] == (b[q] && init.lowestDataBit <= q < init.lowestDataBit + init.W())
    {
      DataPins(init, b, q);
    }
  }

  // How far the pins move when the byte is reversed and put back.
  function Offset(init: AdcInit): int {
    init.lowestDataBit - (8 - (init.lowestDataBit + init.W()))
  }

  // The data pins of b, in the order that puts the first bit highest.
  function Ordered(init: AdcInit, b: Byte): Byte
    requires init.Fits()
  {
    if init.reverseBytes then BackInPlace(DataOf(init, b), Offset(init)) else DataOf(init, b)
  }

  lemma OrderedPins(init: AdcInit, b: Byte, p: nat)
    requires init.Fits() && p < 8
    ensures Ordered(init, b)[p] == init.GroupBit(b, init.lowestDataBit + init.W() - 1 - p)
  {
    if init.reverseBytes { BackwardPins(init, b, p); } else { ForwardPins(init, b, p); }
  }

  lemma ForwardPins(init: AdcInit, b: Byte, p: nat)
    requires init.Fits() && !init.reverseBytes && p < 8
    ensures DataOf(init, b)[p] == init.GroupBit(b, init.lowestDataBit + init.W() - 1 - p)
  {
    DataPins(init, b, p);
    var t := init.lowestDataBit + init.W() - 1 - p;
    if 0 <= t < init.W() { assert init.PinOf(t) == p; }
  }

  lemma BackwardPins(init: AdcInit, b: Byte, p: nat)
    requires init.Fits() && init.reverseBytes && p < 8
    ensures BackInPlace(DataOf(init, b), Offset(init))[p]
         == init.GroupBit(b, init.lowestDataBit + init.W() - 1 - p)
  {
    AllDataPins(init, b);
    ReversedData(init, b, DataOf(init, b), p);
  }

  lemma ReversedData(init: AdcInit, b: Byte, data: Byte, p: nat)
    requires init.Fits() && init.reverseBytes && p < 8
    requires forall q :: 0 <= q < 8 ==>
      data[q] == (b[q] && init.lowestDataBit <= q < init.lowestDataBit + init.W())
    ensures BackInPlace(data, Offset(init))[p] == init.GroupBit(b, init.lowestDataBit + init.W() - 1 - p)
  {
    ReversedPins(data, init.lowestDataBit, init.W(), Offset(init), p);
    MirroredBit(init, b, data, p, init.lowestDataBit, init.W());
  }

  lemma MirroredBit(init: AdcInit, b: Byte, data: Byte, p: nat, l: nat, w: nat)
    requires init.Fits() && init.reverseBytes && p < 8
    requires l == init.lowestDataBit && w == init.W() && l + w <= 8
    requires forall q :: 0 <= q < 8 ==> data[q] == (b[q] && l <= q < l + w)
    ensures (l <= p < l + w && data[2 * l + w - 1 - p]) == init.GroupBit(b, l + w - 1 - p)
  {
    var t := l + w - 1 - p;
    assert 0 <= t < w <==> l <= p < l + w;
    if l <= p < l + w { assert init.PinOf(t) == l + t && data[l + t] == b[l + t]; }
  }

  // The data pins of b moved to the top of a byte, first bit highest.
  function Align(init: AdcInit, b: Byte): Byte
    requires init.Fits()
  {
    Shl(Ordered(init, b), 8 - (init.lowestDataBit + init.W()))
  }

  lemma AlignPins(init: AdcInit, b: Byte, p: nat)
    requires init.Fits() && p < 8
    ensures Align(init, b)[p] == init.GroupBit(b, 7 - p)
  {
    var q := p - (8 - (init.lowestDataBit + init.W()));
    assert Align(init, b)[p] == (q >= 0 && Ordered(init, b)[q]);
    if q >= 0 { OrderedPins(init, b, q); }
  }

  /** What the table promises: entry e of group j, or'ed into the window of
      the group, sets the bits of the group where the block wants them. */
  ghost predicate EntryOk(init: AdcInit, j: nat, b: Byte, e: Bits)
    requires init.Fits()
  {
    && |e| == 16
    && forall r :: 0 <= r < 16 ==>
         e[r] == init.GroupBit(b, 8 * init.NBytes() - 1 - (8 * GroupOffset(init, j) + r) - j * init.W())
  }

  // The shifting word of the table loop when group j is due.
  ghost predicate WordOk(init: AdcInit, j: nat, b: Byte, word: Bits)
    requires init.Fits()
  {
    && |word| == 64
    && forall k :: 0 <= k < 64 ==> word[k] == init.GroupBit(b, 8 * init.NBytes() - 1 - k - j * init.W())
  }

  // A byte moved up in a word.
  lemma MovedUp(a: Byte, n: nat, k: nat)
    requires n < 7 && k < 64
    ensures Shl(Extend(a, 64), 8 * n)[k] == (8 * n <= k < 8 * n + 8 && a[k - 8 * n])
  {}

  lemma FirstWordBit(init: AdcInit, b: Byte, a: Byte, n: nat, k: nat)
    requires init.Fits() && n < 7 && k < 64 && init.W() <= 8
    requires forall p :: 0 <= p < 8 ==> a[p] == init.GroupBit(b, 7 - p)
    ensures Shl(Extend(a, 64), 8 * n)[k] == init.GroupBit(b, 8 * n + 7 - k)
  {
    MovedUp(a, n, k);
    if 8 * n <= k < 8 * n + 8 { assert a[k - 8 * n] == init.GroupBit(b, 7 - (k - 8 * n)); }
  }

  lemma FirstWord(init: AdcInit, b: Byte)
    requires init.Fits()
    ensures WordOk(init, 0, b, Shl(Extend(Align(init, b), 64), 8 * (init.NBytes() - 1)))
  {
    Shape(init);
    var a, n := Align(init, b), init.NBytes() - 1;
    forall p | 0 <= p < 8 ensures a[p] == init.GroupBit(b, 7 - p) { AlignPins(init, b, p); }
    AlignedWordOk(init, b, a, n);
  }

  lemma AlignedWordOk(init: AdcInit, b: Byte, a: Byte, n: nat)
    requires init.Fits() && n < 7 && init.W() <= 8 && init.NBytes() == n + 1
    requires forall p :: 0 <= p < 8 ==> a[p] == init.GroupBit(b, 7 - p)
    ensures WordOk(init, 0, b, Shl(Extend(a, 64), 8 * n))
  {
    var word := Shl(Extend(a, 64), 8 * n);
    forall k | 0 <= k < 64 ensures word[k] == init.GroupBit(b, 8 * init.NBytes() - 1 - k - 0 * init.W()) {
      FirstWordBit(init, b, a, n, k);
      assert 8 * init.NBytes() - 1 - k - 0 * init.W() == 8 * n + 7 - k;
    }
  }

  lemma NextWord(init: AdcInit, j: nat, b: Byte, word: Bits)
    requires init.Fits() && WordOk(init, j, b, word)
    ensures WordOk(init, j + 1, b, Shr(word, init.W()))
  {
    Shape(init);
    assert (j + 1) * init.W() == j * init.W() + init.W();
  }

  lemma WindowOfWord(init: AdcInit, j: nat, b: Byte, word: Bits)
    requires init.Fits() && j < init.NGroups() && WordOk(init, j, b, word)
    ensures 0 <= GroupOffset(init, j)
    ensures EntryOk(init, j, b, Shr(word, 8 * GroupOffset(init, j))[..16])
  {
    Shape(init);
    GroupWindow(init, j, 0);
  }

  method BuildOffsets(init: AdcInit) returns (offsets: array<int>)
    requires init.Fits()
    ensures fresh(offsets) && offsets.Length == 16
    ensures forall j :: 0 <= j < init.NGroups() <= 16 ==> offsets[j] == GroupOffset(init, j)
  {
    Shape(init);
    offsets := new int[16];
    var i := 0;
    while i < init.NGroups()
      invariant 0 <= i <= init.NGroups()
      invariant forall j :: 0 <= j < i ==> offsets[j] == GroupOffset(init, j)
    {
      if i * init.W() / 8 > init.NBytes() - 2 {
        offsets[i] := 0;
      } else {
        offsets[i] := init.NBytes() - 2 - i * init.W() / 8;
      }
      i := i + 1;
    }
  }

  // The data bits of b at the top of a block.
  method AlignedWord(init: AdcInit, b: Byte) returns (word: Bits)
    requires init.Fits()
    ensures WordOk(init, 0, b, word)
  {
    FirstWord(init, b);
    word := Shl(Extend(Align(init, b), 64), 8 * (init.NBytes() - 1));
  }

  // The entry of group j, and the word shifted down to the next group.
  method TakeWindow(init: AdcInit, offset: int, j: nat, b: Byte, word: Bits) returns (e: Bits, next: Bits)
    requires init.Fits() && j < init.NGroups() && WordOk(init, j, b, word) && offset == GroupOffset(init, j)
    ensures EntryOk(init, j, b, e) && WordOk(init, j + 1, b, next)
  {
    WindowOfWord(init, j, b, word);
    NextWord(init, j, b, word);
    e := Shr(word, 8 * offset)[..16];
    next := Shr(word, init.W());
  }

  // The entries of byte i, all groups.
  method BuildColumn(init: AdcInit, offsets: array<int>, table: array2<Bits>, i: nat)
    requires init.Fits() && offsets.Length == 16 && init.NGroups() <= 16
    requires forall j :: 0 <= j < init.NGroups() ==> offsets[j] == GroupOffset(init, j)
    requires table.Length0 == init.NGroups() && table.Length1 == 256 && i < 256
    modifies table
    ensures forall j :: 0 <= j < init.NGroups() ==> EntryOk(init, j, OfValue(i, 8), table[j, i])
    ensures forall j, k :: 0 <= j < init.NGroups() && 0 <= k < 256 && k != i ==> table[j, k] == old(table[j, k])
  {
    var b := OfValue(i, 8);
    var word := AlignedWord(init, b);
    var j := 0;
    while j < init.NGroups()
      invariant 0 <= j <= init.NGroups()
      invariant WordOk(init, j, b, word)
      invariant forall k :: 0 <= k < j ==> EntryOk(init, k, b, table[k, i])
      invariant forall j', k :: 0 <= j' < init.NGroups() && 0 <= k < 256 && k != i ==> table[j', k] == old(table[j', k])
    {
      table[j, i], word := TakeWindow(init, offsets[j], j, b, word);
      j := j + 1;
    }
  }

  method BuildTable(init: AdcInit, offsets: array<int>) returns (table: array2<Bits>)
    requires init.Fits() && offsets.Length == 16 && init.NGroups() <= 16
    requires forall j :: 0 <= j < init.NGroups() ==> offsets[j] == GroupOffset(init, j)
    ensures fresh(table) && table.Length0 == init.NGroups() && table.Length1 == 256
    ensures forall j, i :: 0 <= j < init.NGroups() && 0 <= i < 256 ==> EntryOk(init, j, OfValue(i, 8), table[j, i])
  {
    table := new Bits[init.NGroups(), 256];
    var i := 0;
    while i < 256
      invariant 0 <= i <= 256
      invariant forall j, k :: 0 <= j < init.NGroups() && 0 <= k < i ==> EntryOk(init, j, OfValue(k, 8), table[j, k])
    {
      BuildColumn(init, offsets, table, i);
      i := i + 1;
    }
  }

  /** m_aucGroups and m_aucDecoded. */
  class LookupTable {
    const init: AdcInit
    const groups: array<int>
    const decoded: array2<Bits>

    ghost predicate Valid()
      reads groups, decoded
    {
      && init.Fits()
      && groups.Length == 16 && decoded.Length0 == init.NGroups() <= 16 && decoded.Length1 == 256
      && (forall j :: 0 <= j < init.NGroups() ==> groups[j] == GroupOffset(init, j))
      && (forall j, i :: 0 <= j < init.NGroups() && 0 <= i < 256 ==>
            EntryOk(init, j, OfValue(i, 8), decoded[j, i]))
    }

    constructor (init: AdcInit)
      requires init.Fits()
      ensures Valid() && this.init == init && fresh(groups) && fresh(decoded)
    {
      Shape(init);
      var offsets := BuildOffsets(init);
      var table := BuildTable(init, offsets);
      this.init := init;
      groups := offsets;
      decoded := table;
    }

    // The window of group j and its entry for byte b.
    method Lookup(j: nat, b: Byte) returns (at: int, e: Bits)
      requires Valid() && j < init.NGroups()
      ensures at == GroupOffset(init, j) && EntryOk(init, j, b, e)
    {
      ByteIndex(b);
      at, e := groups[j], decoded[j, Value(b)];
    }
  }
}
