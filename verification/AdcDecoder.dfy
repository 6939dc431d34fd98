/**
 What the ADC's sample extraction computes, on lists: `Decode` collects the
 bits of the groups it sees and cuts every full set of them into samples,
 `Accept` distributes samples over channels and packets.
 */
module AdcDecoder {
  import opened Bits
  import opened AdcSpec
  import opened Products

  // --------------------------------------------------------------- samples

  // The bytes of a data point, lowest first.
  datatype Point = Point(bytes: seq<Byte>)

  datatype Sample = Sample(status: Byte, data: Point)

  // Byte k of a list of bits sent highest bit first.
  function StreamByte(bits: Bits, k: nat): Byte
    requires 8 * k + 8 <= |bits|
  {
    seq(8, p requires 0 <= p < 8 => bits[8 * k + 7 - p])
  }

  // The first sample: the status byte is sent first, then the data from its
  // highest byte down.
  function SampleOf(size: nat, bits: Bits): Sample
    requires 0 < size && 8 * size <= |bits|
  {
    Sample(StreamByte(bits, 0),
           Point(seq(size - 1, m requires 0 <= m < size - 1 => StreamByte(bits, size - 1 - m))))
  }

  // The samples of a list of bits, cut from its front.
  function SamplesOf(size: nat, bits: Bits): seq<Sample>
    requires size > 0
    decreases |bits|
  {
    if |bits| < 8 * size then [] else [SampleOf(size, bits)] + SamplesOf(size, bits[8 * size..])
  }

  /** The sample at the top of memory: the status byte above the data bytes.
      What lies below it is the rest of the stream. */
  lemma SampleInMemory(m: seq<Byte>, size: nat, low: nat)
    requires 0 < size && low + size <= |m|
    ensures SampleOf(size, StreamOf(m[..low + size])) == Sample(m[low + size - 1], Point(m[low..low + size - 1]))
    ensures StreamOf(m[..low + size])[8 * size..] == StreamOf(m[..low])
  {
    var top := m[..low + size];
    var bits := StreamOf(top);
    forall i | 0 <= i < size ensures StreamByte(bits, i) == top[|top| - 1 - i] {
      ByteInMemory(top, i);
    }
    assert SampleOf(size, bits).data.bytes == m[low..low + size - 1];
    forall q | 0 <= q < 8 * low ensures bits[8 * size + q] == StreamOf(m[..low])[q] {}
  }

  lemma ByteInMemory(m: seq<Byte>, i: nat)
    requires i < |m|
    ensures StreamByte(StreamOf(m), i) == m[|m| - 1 - i]
  {
    forall p | 0 <= p < 8 ensures StreamByte(StreamOf(m), i)[p] == m[|m| - 1 - i][p] {
      assert StreamOf(m)[8 * i + 7 - p] == StreamBit(m, 8 * i + 7 - p);
    }
  }

  // --------------------------------------------------------------- packets

  datatype Packet = Packet(pos: nat, chan1: seq<Point>, chan2: seq<Point>,
                           badRead: nat, overflow: nat, error: Byte)

  // The packet being filled, and the packets sent before it.
  datatype Output = Output(pos: nat, chan1: seq<Point>, chan2: seq<Point>,
                           badRead: nat, overflow: nat, error: Byte, sent: seq<Packet>)

  const EMPTY: Output := Output(0, [], [], 0, 0, ZERO, [])

  // Status bits 0 and 2 report an error of the sample's channel.
  const CHANNEL_ERRORS: Byte := [true, false, true, false, false, false, false, false]

  // The error counters are 16 bits wide and the packet number 32.
  function Inc16(n: nat): nat { (n + 1) % 0x1_0000 }

  function Inc32(n: nat): nat { (n + 1) % 0x1_0000_0000 }

  function Bad(o: Output): Output {
    o.(badRead := Inc16(o.badRead))
  }

  predicate Full(init: AdcInit, o: Output) {
    |o.chan1| == init.dataPerTrans || |o.chan2| == init.dataPerTrans
  }

  function Flush(o: Output): Output {
    Output(Inc32(o.pos), [], [], 0, 0, ZERO,
           o.sent + [Packet(o.pos, o.chan1, o.chan2, o.badRead, o.overflow, o.error)])
  }

  // Status bits: 7 overflow, 6 second channel, 5 and 3 fixed at 0 and 1.
  predicate StatusOk(s: Sample) { !s.status[5] && s.status[3] }

  predicate Second(s: Sample) { s.status[6] }

  function ErrorBits(s: Sample): Byte {
    Shl(And(s.status, CHANNEL_ERRORS), if Second(s) then 4 else 0)
  }

  predicate Wanted(init: AdcInit, s: Sample) {
    StatusOk(s) && if Second(s) then init.chan2 else init.chan1
  }

  function MarkOverflow(o: Output, overflow: bool): Output {
    if overflow then o.(overflow := Inc16(o.overflow)) else o
  }

  function AddErrors(o: Output, flags: Byte): Output {
    o.(error := Or(o.error, flags))
  }

  function AddPoint(o: Output, second: bool, point: Point): Output {
    if second then o.(chan2 := o.chan2 + [point]) else o.(chan1 := o.chan1 + [point])
  }

  function Store(init: AdcInit, o: Output, s: Sample): Output {
    var o1 := MarkOverflow(o, s.status[7]);
    if !StatusOk(s) then Bad(o1)
    else if Wanted(init, s) then AddPoint(AddErrors(o1, ErrorBits(s)), Second(s), s.data)
    else Bad(AddErrors(o1, ErrorBits(s)))
  }

  function Accept(init: AdcInit, o: Output, s: Sample): Output {
    Store(init, if Full(init, o) then Flush(o) else o, s)
  }

  function AcceptAll(init: AdcInit, o: Output, samples: seq<Sample>): Output
    decreases |samples|
  {
    if samples == [] then o else AcceptAll(init, Accept(init, o, samples[0]), samples[1..])
  }

  lemma {:induction false} AcceptAllAppend(init: AdcInit, o: Output, s: seq<Sample>, t: seq<Sample>)
    ensures AcceptAll(init, o, s + t) == AcceptAll(init, AcceptAll(init, o, s), t)
    decreases |s|
  {
    if s == [] {
      assert s + t == t;
    } else {
      assert (s + t)[0] == s[0] && (s + t)[1..] == s[1..] + t;
      AcceptAllAppend(init, Accept(init, o, s[0]), s[1..], t);
    }
  }

  // --------------------------------------------------------------- decoding

  // `done`: the bits of the complete cycles of the current set; `part`: those of
  // the groups of the cycle now being received.
  datatype Decoder = Decoder(done: Bits, cycles: nat, part: Bits, groups: nat, out: Output)

  predicate Valid(init: AdcInit, s: Decoder)
    requires init.Fits()
  {
    && s.cycles < init.Cycles() && |s.done| == s.cycles * (8 * init.NBytes())
    && s.groups < init.NGroups() && |s.part| == s.groups * init.W()
  }

  function DropCycle(s: Decoder): Decoder {
    s.(part := [], groups := 0, out := Bad(s.out))
  }

  function AddGroup(init: AdcInit, s: Decoder, group: Bits): Decoder
    requires init.Fits()
  {
    var part := s.part + group;
    if s.groups + 1 < init.NGroups() then s.(part := part, groups := s.groups + 1)
    else if s.cycles + 1 < init.Cycles() then Decoder(s.done + part, s.cycles + 1, [], 0, s.out)
    else Decoder([], 0, [], 0, AcceptAll(init, s.out, SamplesOf(init.SampleBytes(), s.done + part)))
  }

  function Step(init: AdcInit, s: Decoder, a: Byte, b: Byte): (r: Decoder)
    requires init.Fits() && Valid(init, s)
    ensures Valid(init, r)
  {
    Shape(init);
    AddGroupValid(init, s, init.GroupBits(a));
    match Classify(init, a, b)
    case Start => if s.groups > 0 then DropCycle(s) else AddGroup(init, s, init.GroupBits(a))
    case Idle => s
    case Complement => if s.groups > 0 then AddGroup(init, s, init.GroupBits(a)) else DropCycle(s)
    case Corrupt => DropCycle(s)
  }

  lemma GroupLengths(init: AdcInit, s: Decoder)
    requires init.Fits() && Valid(init, s)
    ensures |s.part| + init.W() == (s.groups + 1) * init.W() <= 8 * init.NBytes()
    ensures s.groups + 1 == init.NGroups() ==> |s.part| + init.W() == 8 * init.NBytes()
  {
    Shape(init);
    MulMonotone(s.groups + 1, init.NGroups(), init.W());
  }

  lemma CycleLengths(init: AdcInit, s: Decoder)
    requires init.Fits() && Valid(init, s)
    ensures |s.done| + 8 * init.NBytes() == (s.cycles + 1) * (8 * init.NBytes()) <= 8 * init.BuffSize()
    ensures s.cycles + 1 == init.Cycles() ==> |s.done| + 8 * init.NBytes() == 8 * init.BuffSize()
  {
    Shape(init);
    var n := init.NBytes();
    MulMonotone(s.cycles + 1, init.Cycles(), 8 * n);
    assert init.Cycles() * (8 * n) == 8 * (init.Cycles() * n);
  }

  lemma AddGroupValid(init: AdcInit, s: Decoder, group: Bits)
    requires init.Fits() && Valid(init, s) && |group| == init.W()
    ensures Valid(init, AddGroup(init, s, group))
  {
    Shape(init);
    GroupLengths(init, s);
    CycleLengths(init, s);
  }

  // Every byte but the last is decoded together with its successor.
  function Decode(init: AdcInit, s: Decoder, rx: seq<Byte>): (r: Decoder)
    requires init.Fits() && Valid(init, s)
    ensures Valid(init, r)
    decreases |rx|
  {
    if |rx| <= 1 then s else Decode(init, Step(init, s, rx[0], rx[1]), rx[1..])
  }
}
