/**
 The ADC configuration, and what the decoder makes of two successive bytes.
 */
module AdcSpec {
  import opened Bits

  /** The fields of the ADC's init struct that the decoder uses. */
  datatype AdcInit = AdcInit(
    dataPerTrans: nat,
    clk: nat,
    lowestDataBit: nat,
    dataBits: nat,
    chan1: bool,
    chan2: bool,
    bitsPerData: nat,
    reverseBytes: bool)
  {
    // Data pins in use: the bits moved by one transfer.
    function W(): nat { dataBits + 2 }

    // Bytes of one sample: the data bytes and the status byte.
    function SampleBytes(): nat { bitsPerData / 8 + 1 }

    // Widths that divide a sample evenly; for the others samples straddle cycles.
    predicate Even() { dataBits == 0 || dataBits == 2 || dataBits == 6 }

    function NGroups(): nat { if Even() then SampleBytes() * 8 / W() else 8 }

    function NBytes(): nat { if Even() then SampleBytes() else dataBits + 2 }

    // Cycles whose blocks together hold a whole number of samples.
    function Cycles(): nat { if Even() then 1 else SampleBytes() }

    function BuffSize(): nat { if Even() then NBytes() else NBytes() * SampleBytes() }

    // Data points a packet has room for.
    function PacketPoints(): nat { if chan1 && chan2 then 2 * dataPerTrans else dataPerTrans }

    // What the decoder demands of its user: the data pins fit in the byte, the
    // clock is another pin, packets are not empty.
    predicate Fits() {
      && dataBits <= 6
      && lowestDataBit + W() <= 8
      && clk < 8 && !(lowestDataBit <= clk < lowestDataBit + W())
      && dataPerTrans > 0
      && (bitsPerData == 16 || bitsPerData == 24)
      && (chan1 || chan2)
    }

    // The pins of others are set in the mask.
    function Mask(): Byte
      requires Fits()
    {
      Not(Or(One(clk), And(Shl(ONES, lowestDataBit), Shr(ONES, 6 - lowestDataBit - dataBits))))
    }

    function ConfigWriteBit(): Byte
      requires Fits()
    {
      One(if reverseBytes then lowestDataBit else lowestDataBit + 1 + dataBits)
    }

    // The pin that carries bit t of a group, bit 0 being sent first.
    function PinOf(t: int): int {
      if reverseBytes then lowestDataBit + t else lowestDataBit + W() - 1 - t
    }

    // Bit t of the group on the pins of b; false for a t outside the group.
    predicate GroupBit(b: Byte, t: int)
      requires Fits()
    {
      0 <= t < W() && b[PinOf(t)]
    }

    function GroupBits(b: Byte): (bits: Bits)
      requires Fits()
      ensures |bits| == W()
    {
      seq(W(), t requires 0 <= t < W() => GroupBit(b, t))
    }
  }

  /** A whole number of groups makes a block, of blocks the buffer, and of
      samples the buffer. */
  lemma Shape(init: AdcInit)
    requires init.Fits()
    ensures init.NGroups() * init.W() == 8 * init.NBytes()
    ensures 3 <= init.NBytes() <= 7 && 3 <= init.NGroups() <= 16
    ensures init.BuffSize() == init.Cycles() * init.NBytes()
    ensures init.BuffSize() == init.SampleBytes() * (if init.Even() then 1 else init.W())
    ensures init.BuffSize() / init.NBytes() == init.Cycles()
    ensures init.BuffSize() / init.SampleBytes() == (if init.Even() then 1 else init.W())
    ensures 3 <= init.SampleBytes() <= 4 && init.NBytes() <= init.BuffSize() <= 28
  {
    var d := init.dataBits;
    if d == 0 {} else if d == 1 {} else if d == 2 {} else if d == 3 {}
    else if d == 4 {} else if d == 5 {} else {}
  }

  lemma MaskPins(init: AdcInit, p: int)
    requires init.Fits() && 0 <= p < 8
    ensures init.Mask()[p]
       == !(p == init.clk || init.lowestDataBit <= p < init.lowestDataBit + init.W())
    ensures init.ConfigWriteBit()[p] == (p == init.PinOf(0))
  {
    var l, r := Shl(ONES, init.lowestDataBit), Shr(ONES, 6 - init.lowestDataBit - init.dataBits);
    assert l[p] == (init.lowestDataBit <= p);
    assert r[p] == (p < init.lowestDataBit + init.W());
    assert init.Mask()[p] == !(One(init.clk)[p] || And(l, r)[p]);
  }

  // ------------------------------------------------------- adjacent bytes

  /** What two successive bytes of a read buffer say. */
  datatype Event = Start | Idle | Complement | Corrupt

  function Classify(init: AdcInit, a: Byte, b: Byte): Event
    requires init.Fits()
  {
    var clk, mask, cfg := One(init.clk), init.Mask(), init.ConfigWriteBit();
    var watched := Not(Or(mask, cfg));
    var a1, b1 := And(a, Not(mask)), And(b, Not(mask));
    if And(a, clk) == ZERO && And(a, watched) == And(Not(b), watched) && And(a, cfg) == And(b, cfg) then Start
    else if And(a1, Not(clk)) == And(b1, Not(clk)) || And(a1, clk) != ZERO then Idle
    else if a1 == And(Not(b1), Not(mask)) then Complement
    else Corrupt
  }

  // The second byte follows with the clock raised, and carries on the data
  // pins the opposite of the first byte, except that the first `same` pins
  // carry the same.
  predicate Opposed(init: AdcInit, a: Byte, b: Byte, same: nat)
    requires init.Fits()
  {
    && !a[init.clk] && b[init.clk]
    && forall t :: 0 <= t < init.W() ==> (init.GroupBit(a, t) == init.GroupBit(b, t) <==> t < same)
  }

  predicate SameData(init: AdcInit, a: Byte, b: Byte)
    requires init.Fits()
  {
    forall t :: 0 <= t < init.W() ==> init.GroupBit(a, t) == init.GroupBit(b, t)
  }

  lemma ClockTest(init: AdcInit, a: Byte)
    requires init.Fits()
    ensures And(a, One(init.clk)) == ZERO <==> !a[init.clk]
    ensures And(And(a, Not(init.Mask())), One(init.clk)) != ZERO <==> a[init.clk]
  {
    var clk, mask := One(init.clk), init.Mask();
    MaskPins(init, init.clk);
    assert And(a, clk)[init.clk] == a[init.clk];
    assert And(And(a, Not(mask)), clk)[init.clk] == a[init.clk];
  }

  // A mask that leaves the data pins, or all of them but the first, and perhaps the clock.
  lemma MaskTest(init: AdcInit, m: Byte, clock: bool, from: nat, a: Byte, b: Byte)
    requires init.Fits() && from <= 1
    requires forall p :: 0 <= p < 8 ==>
      m[p] == ((clock && p == init.clk)
               || (init.lowestDataBit <= p < init.lowestDataBit + init.W() && (from == 1 ==> p != init.PinOf(0))))
    ensures And(a, m) == And(b, m)
       <==> (clock ==> a[init.clk] == b[init.clk])
            && forall t :: from <= t < init.W() ==> init.GroupBit(a, t) == init.GroupBit(b, t)
  {
    EqualUnderMask(m, a, b);
    if And(a, m) == And(b, m) {
      forall t | from <= t < init.W() ensures init.GroupBit(a, t) == init.GroupBit(b, t) {
        assert m[init.PinOf(t)];
      }
    } else {
      var p :| 0 <= p < 8 && m[p] && a[p] != b[p];
      if p != init.clk {
        var t := if init.reverseBytes then p - init.lowestDataBit else init.lowestDataBit + init.W() - 1 - p;
        assert init.PinOf(t) == p && from <= t < init.W();
        assert init.GroupBit(a, t) != init.GroupBit(b, t);
      }
    }
  }

  lemma WatchedTest(init: AdcInit, a: Byte, b: Byte)
    requires init.Fits()
    ensures var watched := Not(Or(init.Mask(), init.ConfigWriteBit()));
      And(a, watched) == And(Not(b), watched)
      <==> a[init.clk] != b[init.clk]
           && forall t :: 1 <= t < init.W() ==> init.GroupBit(a, t) != init.GroupBit(b, t)
  {
    var watched := Not(Or(init.Mask(), init.ConfigWriteBit()));
    forall p | 0 <= p < 8
      ensures watched[p] == (p == init.clk
        || (init.lowestDataBit <= p < init.lowestDataBit + init.W() && p != init.PinOf(0)))
    { MaskPins(init, p); }
    MaskTest(init, watched, true, 1, a, Not(b));
    assert forall t :: 0 <= t < init.W() ==> init.GroupBit(Not(b), t) == !init.GroupBit(b, t);
  }

  lemma ConfigTest(init: AdcInit, a: Byte, b: Byte)
    requires init.Fits()
    ensures And(a, init.ConfigWriteBit()) == And(b, init.ConfigWriteBit())
       <==> init.GroupBit(a, 0) == init.GroupBit(b, 0)
  {
    EqualUnderMask(init.ConfigWriteBit(), a, b);
    assert init.ConfigWriteBit()[init.PinOf(0)];
  }

  lemma StartTest(init: AdcInit, a: Byte, b: Byte)
    requires init.Fits()
    ensures Classify(init, a, b) == Start <==> Opposed(init, a, b, 1)
  {
    ClockTest(init, a);
    WatchedTest(init, a, b);
    ConfigTest(init, a, b);
  }

  lemma IdleTest(init: AdcInit, a: Byte, b: Byte)
    requires init.Fits()
    ensures And(And(a, Not(init.Mask())), Not(One(init.clk))) == And(And(b, Not(init.Mask())), Not(One(init.clk)))
       <==> SameData(init, a, b)
  {
    var mask, clk := init.Mask(), One(init.clk);
    var m := And(Not(mask), Not(clk));
    forall p | 0 <= p < 8
      ensures mask[p] == !(p == init.clk || init.lowestDataBit <= p < init.lowestDataBit + init.W())
    { MaskPins(init, p); }
    MaskTest(init, m, false, 0, a, b);
    assert And(And(a, Not(mask)), Not(clk)) == And(a, m);
    assert And(And(b, Not(mask)), Not(clk)) == And(b, m);
  }

  lemma ComplementTest(init: AdcInit, a: Byte, b: Byte)
    requires init.Fits() && !a[init.clk]
    ensures And(a, Not(init.Mask())) == And(Not(And(b, Not(init.Mask()))), Not(init.Mask()))
       <==> Opposed(init, a, b, 0)
  {
    var m := Not(init.Mask());
    forall p | 0 <= p < 8
      ensures m[p] == (p == init.clk || init.lowestDataBit <= p < init.lowestDataBit + init.W())
    { MaskPins(init, p); }
    MaskTest(init, m, true, 0, a, Not(b));
    assert And(Not(And(b, m)), m) == And(Not(b), m);
    assert forall t :: 0 <= t < init.W() ==> init.GroupBit(Not(b), t) == !init.GroupBit(b, t);
  }

  /** The masked comparisons of the source, read pin by pin: a start pair, a
      complemented pair and an idle pair are exactly what their names say. */
  lemma ClassifyMeaning(init: AdcInit, a: Byte, b: Byte)
    requires init.Fits()
    ensures Classify(init, a, b) == Start <==> Opposed(init, a, b, 1)
    ensures Classify(init, a, b) == Complement <==> Opposed(init, a, b, 0)
    ensures Classify(init, a, b) == Idle <==> a[init.clk] || SameData(init, a, b)
  {
    StartTest(init, a, b);
    IdleTest(init, a, b);
    ClockTest(init, a);
    if !a[init.clk] { ComplementTest(init, a, b); }
    assert init.GroupBit(a, 1) == init.GroupBit(b, 1) || !SameData(init, a, b);
    assert init.GroupBit(a, 0) == init.GroupBit(b, 0) || init.GroupBit(a, 0) != init.GroupBit(b, 0);
  }
}
