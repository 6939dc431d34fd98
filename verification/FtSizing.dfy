/**
 How the channel sizes its transmit buffer: a first pass over the devices finds
 the largest buffer, a second one gives every device its own size.
 */
module FtSizing {
  import opened Options
  import opened Products
  import AdcConfig
  import MultiRead
  import MultiWrite
  import ShiftRegisters
  import AdcSpec

  /** The speed of the bus, and how the machine rounds the exact result of an
      operation on single precision numbers to one of them. */
  datatype Bus = Bus(hiSpeed: bool, fl: real -> real)

  predicate Ordered(fl: real -> real, x: real, y: real) { x <= y ==> fl(x) <= fl(y) }

  predicate Whole(fl: real -> real, k: nat) { fl(k as real) == k as real }

  predicate Stays(fl: real -> real, x: real) { fl(fl(x)) == fl(x) }

  // Rounding keeps the order, whole numbers of up to 24 bits, and what is rounded.
  ghost predicate Rounds(fl: real -> real) {
    && (forall x, y :: Ordered(fl, x, y))
    && (forall k :: 0 <= k <= 0x100_0000 ==> Whole(fl, k))
    && (forall x :: Stays(fl, x))
  }

  type Usb = b: Bus | Rounds(b.fl) witness Bus(false, (x: real) => x)

  // The bytes of payload of a USB packet, and the most that is written at once.
  function Packet(usb: Usb): nat { if usb.hiSpeed then 510 else 62 }

  function MaxPacket(usb: Usb): nat { if usb.hiSpeed then 510 * 128 else 62 * 1024 }

  datatype DeviceInit =
    | MultiWrite(boards: nat, clkPerData: nat)
    | MultiRead(boards: nat, clkPerData: nat)
    | PinWrite(bytesUsed: nat)
    | PinRead(bytesUsed: nat)
    | Adc(usbBuffToUse: real)

  function Ceil(x: real): int { -((-x).Floor) }

  // packet * ceil(n / packet)
  function Round(n: nat, packet: nat): nat
    requires packet > 0
  {
    (n + packet - 1) / packet * packet
  }

  function Max(a: nat, b: nat): nat { if a >= b then a else b }

  // A percentage of the largest buffer, in whole packets, but three at least.
  function AdcSize(percent: real, usb: Usb): int {
    var packet, largest := Packet(usb), MaxPacket(usb);
    var share := usb.fl(percent / 100.0);
    if percent >= 100.0 then largest
    else if share <= usb.fl((3 * packet) as real / largest as real) then Max(90, 3 * packet)
    else
      var n := Ceil(usb.fl(share * largest as real));
      n - n % packet
  }

  // What a device needs to be written at once.
  function Need(d: DeviceInit, usb: Usb): int {
    match d
    case MultiWrite(boards, clk) => (boards * 8 * 2 + 2) * clk
    case MultiRead(boards, clk) => (boards * 8 * 2 + 2 + 4) * clk
    case PinWrite(bytes) => bytes
    case PinRead(bytes) => bytes
    case Adc(percent) => AdcSize(percent, usb)
  }

  // Whole packets, rounded down.
  lemma RoundedDown(n: nat, packet: nat)
    requires packet > 0 && n >= 3 * packet
    ensures 3 * packet <= n - n % packet <= n && (n - n % packet) % packet == 0
  {
    var q := n / packet;
    assert n == q * packet + n % packet;
    if q < 3 { MulMonotone(q + 1, 3, packet); OneMore(q, packet); }
    MulMonotone(3, q, packet);
    Multiple(q, packet);
  }

  lemma CeilBetween(x: real, low: nat, high: nat)
    requires low as real <= x <= high as real
    ensures low <= Ceil(x) <= high
  {}

  /** An ADC gets a whole number of packets, three at least, and no more than the
      largest buffer, however the machine rounds. */
  lemma AdcSizeFits(percent: real, usb: Usb)
    ensures 3 * Packet(usb) <= AdcSize(percent, usb) <= MaxPacket(usb)
    ensures AdcSize(percent, usb) % Packet(usb) == 0
  {
    var packet, largest := Packet(usb), MaxPacket(usb);
    var share := usb.fl(percent / 100.0);
    if percent < 100.0 && share > usb.fl((3 * packet) as real / largest as real) {
      ShareFits(percent, usb, share);
      CeilBetween(usb.fl(share * largest as real), 3 * packet, largest);
      RoundedDown(Ceil(usb.fl(share * largest as real)), packet);
    }
  }

  /** And it gets as much of it as its percentage: all of it from a hundred percent on,
      three packets if its share is no more, and else the most whole packets that are
      not above its share, rounded up to a byte. */
  lemma AdcSizeIsShare(percent: real, usb: Usb)
    ensures percent >= 100.0 ==> AdcSize(percent, usb) == MaxPacket(usb)
    ensures var share := usb.fl(percent / 100.0);
      percent < 100.0 && share > usb.fl((3 * Packet(usb)) as real / MaxPacket(usb) as real) ==>
        var bytes := Ceil(usb.fl(share * MaxPacket(usb) as real));
        && 0 <= bytes && AdcSize(percent, usb) <= bytes < AdcSize(percent, usb) + Packet(usb)
    ensures percent < 100.0 && usb.fl(percent / 100.0) <= usb.fl((3 * Packet(usb)) as real / MaxPacket(usb) as real)
      ==> AdcSize(percent, usb) == 3 * Packet(usb)
  {
    var share := usb.fl(percent / 100.0);
    if percent < 100.0 && share > usb.fl((3 * Packet(usb)) as real / MaxPacket(usb) as real) {
      ShareFits(percent, usb, share);
      CeilBetween(usb.fl(share * MaxPacket(usb) as real), 3 * Packet(usb), MaxPacket(usb));
    }
  }

  // A share that was rounded and is above a rounded bound is not below the bound.
  lemma ShareFits(percent: real, usb: Usb, share: real)
    requires percent < 100.0 && share == usb.fl(percent / 100.0)
    requires share > usb.fl((3 * Packet(usb)) as real / MaxPacket(usb) as real)
    ensures (3 * Packet(usb)) as real <= usb.fl(share * MaxPacket(usb) as real) <= MaxPacket(usb) as real
  {
    var fl, low, high := usb.fl, 3 * Packet(usb), MaxPacket(usb);
    assert Ordered(fl, percent / 100.0, 1 as real) && Whole(fl, 1);
    assert Ordered(fl, share, low as real / high as real) && Stays(fl, percent / 100.0);
    Scale(share, low as real, high as real);
    assert Ordered(fl, low as real, share * high as real) && Whole(fl, low);
    assert Ordered(fl, share * high as real, high as real) && Whole(fl, high);
  }

  lemma Scale(share: real, low: real, high: real)
    requires high > 0.0 && low / high <= share <= 1.0
    ensures low <= share * high <= high
  {
    assert low / high * high == low;
    assert share * high == low / high * high + (share - low / high) * high && (share - low / high) * high >= 0.0;
    assert high == share * high + (1.0 - share) * high && (1.0 - share) * high >= 0.0;
  }

  lemma NeedIsSize(d: DeviceInit, usb: Usb)
    ensures Need(d, usb) >= 0
  {
    match d
    case MultiWrite(boards, clk) => assert Need(d, usb) == (boards * 8 * 2 + 2) * clk;
    case MultiRead(boards, clk) => assert Need(d, usb) == (boards * 8 * 2 + 2 + 4) * clk;
    case Adc(percent) => AdcSizeFits(percent, usb);
    case _ =>
  }

  // Too large for a device that is not an ADC.
  predicate TooLarge(d: DeviceInit, usb: Usb) {
    !d.Adc? && Need(d, usb) > MaxPacket(usb)
  }

  // The largest need.
  function Largest(devs: seq<DeviceInit>, usb: Usb): nat {
    if devs == [] then 0
    else
      var d := devs[|devs| - 1];
      NeedIsSize(d, usb);
      Max(Largest(devs[..|devs| - 1], usb), Need(d, usb))
  }

  // The size of the buffer that every device is told.
  function Buffer(devs: seq<DeviceInit>, usb: Usb): nat {
    Round(Largest(devs, usb), Packet(usb))
  }

  // The size that the second pass gives a device.
  function MinSize(d: DeviceInit, usb: Usb, buffer: nat): nat {
    NeedIsSize(d, usb);
    if d.Adc? then buffer else Round(Need(d, usb), Packet(usb))
  }

  function LargestMinSize(devs: seq<DeviceInit>, usb: Usb, buffer: nat): nat {
    if devs == [] then 0
    else Max(LargestMinSize(devs[..|devs| - 1], usb, buffer), MinSize(devs[|devs| - 1], usb, buffer))
  }

  // ------------------------------------------------------------------ rounding

  /** Rounding up to packets: the least number of whole packets that is enough. */
  lemma RoundIsLeast(n: nat, packet: nat)
    requires packet > 0
    ensures n <= Round(n, packet) < n + packet && Round(n, packet) % packet == 0
    ensures forall m: nat :: m % packet == 0 && n <= m ==> Round(n, packet) <= m
  {
    var q := (n + packet - 1) / packet;
    assert n + packet - 1 == q * packet + (n + packet - 1) % packet;
    Multiple(q, packet);
    forall m: nat | m % packet == 0 && n <= m ensures Round(n, packet) <= m {
      if m < q * packet {
        LessByOne(m / packet, q, packet);
      }
    }
  }

  lemma Multiple(q: nat, packet: nat)
    requires packet > 0
    ensures q * packet % packet == 0
  {
    if q == 0 {
    } else {
      Multiple(q - 1, packet);
      OneMore(q - 1, packet);
      assert q * packet == (q - 1) * packet + packet;
      AddPacket((q - 1) * packet, packet);
    }
  }

  lemma AddPacket(a: nat, packet: nat)
    requires packet > 0 && a % packet == 0
    ensures (a + packet) % packet == 0
  {
    var q := a / packet;
    assert a + packet == (q + 1) * packet + 0;
    var r := (a + packet) % packet;
    var q' := (a + packet) / packet;
    assert a + packet == q' * packet + r;
    if q' < q + 1 { LessByOne(q', q + 1, packet); }
    if q' > q + 1 { LessByOne(q + 1, q', packet); }
  }

  lemma LessByOne(a: nat, b: nat, packet: nat)
    requires packet > 0
    ensures a < b ==> a * packet + packet <= b * packet
    ensures a * packet < b * packet ==> a < b
  {
    if a < b { MulMonotone(a + 1, b, packet); OneMore(a, packet); } else { MulMonotone(b, a, packet); }
  }

  lemma RoundMonotone(a: nat, b: nat, packet: nat)
    requires packet > 0 && a <= b
    ensures Round(a, packet) <= Round(b, packet)
  {
    RoundIsLeast(a, packet);
    RoundIsLeast(b, packet);
  }

  /** The maximum of the rounded sizes is the rounded maximum. */
  lemma RoundMax(a: nat, b: nat, packet: nat)
    requires packet > 0
    ensures Round(Max(a, b), packet) == Max(Round(a, packet), Round(b, packet))
  {
    if a >= b { RoundMonotone(b, a, packet); } else { RoundMonotone(a, b, packet); }
  }

  // ------------------------------------------------------------- both passes

  lemma {:induction false} LargestFits(devs: seq<DeviceInit>, usb: Usb)
    requires forall k :: 0 <= k < |devs| ==> !TooLarge(devs[k], usb)
    ensures Largest(devs, usb) <= MaxPacket(usb)
    decreases |devs|
  {
    if devs == [] {
    } else {
      var n := |devs| - 1;
      assert !TooLarge(devs[n], usb);
      LargestFits(devs[..n], usb);
      if devs[n].Adc? { AdcSizeFits(devs[n].usbBuffToUse, usb); }
    }
  }

  // No device needs more than the buffer; if there is an ADC it gets all of it.
  lemma {:induction false} MinSizesAgree(devs: seq<DeviceInit>, usb: Usb, buffer: nat)
    requires Buffer(devs, usb) <= buffer
    ensures LargestMinSize(devs, usb, buffer)
         == if exists k :: 0 <= k < |devs| && devs[k].Adc? then buffer else Buffer(devs, usb)
    decreases |devs|
  {
    var packet := Packet(usb);
    if devs == [] {
      RoundIsLeast(0, packet);
    } else {
      var n := |devs| - 1;
      NeedIsSize(devs[n], usb);
      RoundMax(Largest(devs[..n], usb), Need(devs[n], usb), packet);
      MinSizesAgree(devs[..n], usb, buffer);
      if k :| 0 <= k < |devs| && devs[k].Adc? {
        if k < n { assert devs[..n][k].Adc?; }
      }
      if k :| 0 <= k < n && devs[..n][k].Adc? { assert devs[k].Adc?; }
    }
  }

  lemma {:induction false} EachMinSize(devs: seq<DeviceInit>, usb: Usb, buffer: nat, k: nat)
    requires k < |devs|
    ensures MinSize(devs[k], usb, buffer) <= LargestMinSize(devs, usb, buffer)
    decreases |devs|
  {
    if k == |devs| - 1 {
    } else {
      EachMinSize(devs[..|devs| - 1], usb, buffer, k);
    }
  }

  /** The two passes agree: the buffer that is allocated, the largest size of
      the second pass, is the size that every device was told; it is a whole
      number of packets, is not more than can be written, has room for every
      device, and is not empty if any device needs something. */
  lemma PassesAgree(devs: seq<DeviceInit>, usb: Usb)
    requires forall k :: 0 <= k < |devs| ==> !TooLarge(devs[k], usb)
    ensures var buffer := Buffer(devs, usb);
      && LargestMinSize(devs, usb, buffer) == buffer <= MaxPacket(usb)
      && buffer % Packet(usb) == 0
      && (forall k :: 0 <= k < |devs| ==>
            Need(devs[k], usb) <= MinSize(devs[k], usb, buffer) <= buffer
            && MinSize(devs[k], usb, buffer) % Packet(usb) == 0)
  {
    var buffer := Buffer(devs, usb);
    MinSizesAgree(devs, usb, buffer);
    BufferFits(devs, usb);
    forall k | 0 <= k < |devs|
      ensures Need(devs[k], usb) <= MinSize(devs[k], usb, buffer) <= buffer
      ensures MinSize(devs[k], usb, buffer) % Packet(usb) == 0
    {
      EachMinSize(devs, usb, buffer, k);
      MinSizeFits(devs, usb, k);
    }
  }

  lemma BufferFits(devs: seq<DeviceInit>, usb: Usb)
    requires forall k :: 0 <= k < |devs| ==> !TooLarge(devs[k], usb)
    ensures Largest(devs, usb) <= Buffer(devs, usb) <= MaxPacket(usb)
    ensures Buffer(devs, usb) % Packet(usb) == 0
  {
    LargestFits(devs, usb);
    RoundIsLeast(Largest(devs, usb), Packet(usb));
    assert MaxPacket(usb) % Packet(usb) == 0;
  }

  lemma MinSizeFits(devs: seq<DeviceInit>, usb: Usb, k: nat)
    requires (forall j :: 0 <= j < |devs| ==> !TooLarge(devs[j], usb)) && k < |devs|
    ensures var size := MinSize(devs[k], usb, Buffer(devs, usb));
      Need(devs[k], usb) <= size && size % Packet(usb) == 0
  {
    EachNeed(devs, usb, k);
    BufferFits(devs, usb);
    NeedIsSize(devs[k], usb);
    RoundIsLeast(Need(devs[k], usb), Packet(usb));
  }

  lemma {:induction false} EachNeed(devs: seq<DeviceInit>, usb: Usb, k: nat)
    requires k < |devs|
    ensures Need(devs[k], usb) <= Largest(devs, usb)
    decreases |devs|
  {
    if k == |devs| - 1 {
    } else {
      EachNeed(devs[..|devs| - 1], usb, k);
    }
  }

  lemma {:induction false} LargestIsANeed(devs: seq<DeviceInit>, usb: Usb) returns (k: nat)
    requires devs != []
    ensures k < |devs| && Largest(devs, usb) == Need(devs[k], usb)
    decreases |devs|
  {
    var n := |devs| - 1;
    NeedIsSize(devs[n], usb);
    if n == 0 {
      k := 0;
    } else {
      k := LargestIsANeed(devs[..n], usb);
      if Need(devs[n], usb) > Need(devs[k], usb) { k := n; }
    }
  }

  predicate JustEnough(d: DeviceInit, usb: Usb, size: nat) { Need(d, usb) <= size < Need(d, usb) + Packet(usb) }

  /** And the buffer is no larger than some device needs it: it is the least whole
      number of packets for that. */
  lemma BufferIsNeeded(devs: seq<DeviceInit>, usb: Usb)
    requires devs != []
    ensures exists k :: 0 <= k < |devs| && JustEnough(devs[k], usb, Buffer(devs, usb))
  {
    var k := LargestIsANeed(devs, usb);
    RoundIsLeast(Largest(devs, usb), Packet(usb));
    assert JustEnough(devs[k], usb, Buffer(devs, usb));
  }

  /** Every device gets the bytes that its class demands of its part of the buffer, in
      the least whole number of packets: a whole wave of a shift register writer or
      reader, the bytes of a pin device. */
  lemma DevicesFit(devs: seq<DeviceInit>, usb: Usb, k: nat, init: ShiftRegisters.ValveInit)
    requires (forall j :: 0 <= j < |devs| ==> !TooLarge(devs[j], usb)) && k < |devs|
    ensures var buffer := Buffer(devs, usb);
      var size := MinSize(devs[k], usb, buffer);
      size <= buffer && match devs[k]
        case MultiWrite(boards, clk) =>
          init.boards == boards && init.clkPerData == clk ==>
            MultiWrite.WaveSize(init) <= size < MultiWrite.WaveSize(init) + Packet(usb)
        case MultiRead(boards, clk) =>
          init.boards == boards && init.clkPerData == clk ==>
            MultiRead.ReadSize(init) <= size < MultiRead.ReadSize(init) + Packet(usb)
        case PinWrite(bytes) => bytes <= size < bytes + Packet(usb)
        case PinRead(bytes) => bytes <= size < bytes + Packet(usb)
        case Adc(_) => size == buffer
  {
    PassesAgree(devs, usb);
    NeedIsSize(devs[k], usb);
    RoundIsLeast(Need(devs[k], usb), Packet(usb));
  }

  /** What an ADC writes stays inside the buffer that it is told: the reset, its
      configuration, which is shorter than the buffer, and the clock, which is
      written in pairs of bytes. */
  lemma AdcSequencesFit(devs: seq<DeviceInit>, usb: Usb, k: nat, init: AdcSpec.AdcInit, word: seq<bool>)
    requires (forall j :: 0 <= j < |devs| ==> !TooLarge(devs[j], usb)) && k < |devs| && devs[k].Adc?
    requires init.Fits() && |word| == AdcConfig.WORD_BITS
    ensures 2 * AdcConfig.RESET_PAIRS < |AdcConfig.ConfigWave(init, word)| < Buffer(devs, usb)
    ensures Buffer(devs, usb) % 2 == 0
  {
    PassesAgree(devs, usb);
    AdcSizeFits(devs[k].usbBuffToUse, usb);
    EachNeed(devs, usb, k);
    RoundIsLeast(Largest(devs, usb), Packet(usb));
    EvenPackets(Buffer(devs, usb), usb);
    AdcConfig.ConfigLength(init, word);
  }

  lemma EvenPackets(n: nat, usb: Usb)
    requires n % Packet(usb) == 0
    ensures n % 2 == 0
  {
    var packet := Packet(usb);
    EvenProduct(n, n / packet, if usb.hiSpeed then 255 else 31);
  }

  lemma EvenProduct(n: nat, q: nat, half: nat)
    requires n == q * (2 * half)
    ensures n % 2 == 0
  {
    var m := q * half;
    assert n == 2 * m;
  }

  // -------------------------------------------------------------- constructor

  datatype Sizes = Sizes(buffer: nat, minSizes: seq<nat>, tx: nat)

  // A thread can wait on so many events; three are the channel's own.
  const MAXIMUM_WAIT_OBJECTS: nat := 64

  datatype SizeError = BuffTooSmall | NoChan | NoSysResource | BadInputParams

  datatype SizeResult = Sized(sizes: Sizes) | Refused(error: SizeError)

  // The first pass.
  method LargestWrite(devs: seq<DeviceInit>, usb: Usb) returns (largest: Option<nat>)
    ensures largest == if exists k :: 0 <= k < |devs| && !devs[k].Adc? && Need(devs[k], usb) > MaxPacket(usb) then None
                       else Some(Largest(devs, usb))
  {
    var dwMaxWrite := 0;
    var i := 0;
    assert devs[..0] == [];
    while i < |devs|
      invariant 0 <= i <= |devs|
      invariant dwMaxWrite == Largest(devs[..i], usb)
      invariant forall k :: 0 <= k < i ==> !TooLarge(devs[k], usb)
    {
      assert devs[..i + 1][..i] == devs[..i];
      NeedIsSize(devs[i], usb);
      dwMaxWrite := Max(Need(devs[i], usb), dwMaxWrite);
      if TooLarge(devs[i], usb) {
        return None;
      }
      i := i + 1;
    }
    assert devs[..i] == devs;
    largest := Some(dwMaxWrite);
  }

  // The second pass, and the size of the buffer.
  method SecondPass(devs: seq<DeviceInit>, usb: Usb, buffer: nat) returns (minSizes: seq<nat>, dwWrite: nat)
    ensures |minSizes| == |devs|
    ensures forall k :: 0 <= k < |devs| ==> minSizes[k] == MinSize(devs[k], usb, buffer)
    ensures dwWrite == LargestMinSize(devs, usb, buffer)
  {
    minSizes, dwWrite := [], 0;
    var i := 0;
    assert devs[..0] == [];
    while i < |devs|
      invariant 0 <= i <= |devs| && |minSizes| == i
      invariant forall k :: 0 <= k < i ==> minSizes[k] == MinSize(devs[k], usb, buffer)
      invariant dwWrite == LargestMinSize(devs[..i], usb, buffer)
    {
      assert devs[..i + 1][..i] == devs[..i];
      minSizes := minSizes + [MinSize(devs[i], usb, buffer)];
      dwWrite := Max(minSizes[i], dwWrite);
      i := i + 1;
    }
    assert devs[..i] == devs;
  }

  /** The constructor of the channel, as far as sizes go: what it refuses, and
      that it allocates what it told the devices. */
  method SizeChannel(devs: seq<DeviceInit>, usb: Usb) returns (r: SizeResult)
    ensures (exists k :: 0 <= k < |devs| && !devs[k].Adc? && Need(devs[k], usb) > MaxPacket(usb)) ==>
      r == Refused(BuffTooSmall)
    ensures devs == [] ==> r == Refused(NoChan)
    ensures devs != [] && (forall k :: 0 <= k < |devs| ==> devs[k].Adc? || Need(devs[k], usb) <= MaxPacket(usb)) ==>
      if 3 + |devs| > MAXIMUM_WAIT_OBJECTS then r == Refused(NoSysResource)
      else if Buffer(devs, usb) == 0 then r == Refused(BadInputParams)
      else r.Sized? && |r.sizes.minSizes| == |devs|
           && r.sizes.buffer == r.sizes.tx == Buffer(devs, usb)
           && forall k :: 0 <= k < |devs| ==>
                r.sizes.minSizes[k] == MinSize(devs[k], usb, Buffer(devs, usb))
  {
    var largest := LargestWrite(devs, usb);
    if largest == None {
      return Refused(BuffTooSmall);
    }
    var packet := Packet(usb);
    var buffer := (largest.value + packet - 1) / packet * packet;
    if |devs| == 0 {
      return Refused(NoChan);
    }
    if 3 + |devs| > MAXIMUM_WAIT_OBJECTS {
      return Refused(NoSysResource);
    }
    var minSizes, dwWrite := SecondPass(devs, usb, buffer);
    PassesAgree(devs, usb);
    if dwWrite > MaxPacket(usb) || dwWrite == 0 {
      return Refused(BadInputParams);
    }
    r := Sized(Sizes(buffer, minSizes, dwWrite));
  }
}
