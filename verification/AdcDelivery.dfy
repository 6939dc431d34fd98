/**
 What leaves the ADC in packets: no data point is lost, repeated or moved to
 the other channel, and the packets are full and numbered in order.
 */
module AdcDelivery {
  import opened Bits
  import opened AdcSpec
  import opened AdcDecoder
  import opened AdcWire
  import opened AdcRoundTrip
  import opened Sequences

  function PacketPointsOf(p: Packet, second: bool): seq<Point> {
    if second then p.chan2 else p.chan1
  }

  function SentPoints(sent: seq<Packet>, second: bool): seq<Point> {
    if sent == [] then []
    else SentPoints(sent[..|sent| - 1], second) + PacketPointsOf(sent[|sent| - 1], second)
  }

  // All points of a channel, in the packets sent and in the one being filled.
  function Delivered(o: Output, second: bool): seq<Point> {
    SentPoints(o.sent, second) + (if second then o.chan2 else o.chan1)
  }

  // Is this a sample of the first or second channel, and is that channel in use?
  // Status bits 3 and 5 are fixed, bit 6 names the channel.
  predicate BelongsTo(init: AdcInit, s: Sample, second: bool) {
    s.status[3] && !s.status[5] && s.status[6] == second && if second then init.chan2 else init.chan1
  }

  // The data of the samples that belong to a channel in use.
  function ChannelData(init: AdcInit, samples: seq<Sample>, second: bool): seq<Point> {
    if samples == [] then []
    else (if BelongsTo(init, samples[0], second) then [samples[0].data] else [])
         + ChannelData(init, samples[1..], second)
  }

  lemma FlushDelivers(o: Output, second: bool)
    ensures Delivered(Flush(o), second) == Delivered(o, second)
  {
    var f := Flush(o);
    assert f.sent[..|f.sent| - 1] == o.sent;
    assert Delivered(f, second) == SentPoints(f.sent, second) + [];
  }

  lemma AddPointDelivers(o: Output, to: bool, point: Point, second: bool)
    ensures Delivered(AddPoint(o, to, point), second)
         == Delivered(o, second) + (if to == second then [point] else [])
  {
    var current := if second then o.chan2 else o.chan1;
    assert SentPoints(o.sent, second) + (current + [point]) == Delivered(o, second) + [point];
    assert Delivered(o, second) + [] == Delivered(o, second);
  }

  lemma StoreDelivers(init: AdcInit, o: Output, s: Sample, second: bool)
    ensures Delivered(Store(init, o, s), second)
         == Delivered(o, second) + (if BelongsTo(init, s, second) then [s.data] else [])
  {
    var o1 := MarkOverflow(o, s.status[7]);
    if Wanted(init, s) {
      AddPointDelivers(AddErrors(o1, ErrorBits(s)), Second(s), s.data, second);
    } else {
      assert Delivered(o, second) + [] == Delivered(o, second);
    }
  }

  lemma AcceptDelivers(init: AdcInit, o: Output, s: Sample, second: bool)
    ensures Delivered(Accept(init, o, s), second)
         == Delivered(o, second) + ChannelData(init, [s], second)
  {
    FlushDelivers(o, second);
    StoreDelivers(init, if Full(init, o) then Flush(o) else o, s, second);
    assert [s][1..] == [] && ChannelData(init, [], second) == [];
  }

  lemma FirstData(init: AdcInit, samples: seq<Sample>, second: bool)
    requires samples != []
    ensures ChannelData(init, samples, second)
         == ChannelData(init, [samples[0]], second) + ChannelData(init, samples[1..], second)
  {
    assert [samples[0]][1..] == [] && ChannelData(init, [], second) == [];
  }

  /** Conservation: of every channel, the points in the packets sent and in the
      packet being filled are the data of the samples accepted, in order. */
  lemma {:induction false} AcceptAllDelivers(init: AdcInit, o: Output, samples: seq<Sample>, second: bool)
    ensures Delivered(AcceptAll(init, o, samples), second)
         == Delivered(o, second) + ChannelData(init, samples, second)
    decreases |samples|
  {
    if samples == [] {
    } else {
      AcceptDelivers(init, o, samples[0], second);
      AcceptAllDelivers(init, Accept(init, o, samples[0]), samples[1..], second);
      FirstData(init, samples, second);
      Regrouped(Delivered(o, second), ChannelData(init, [samples[0]], second), ChannelData(init, samples[1..], second));
    }
  }

  // Neither channel is overfull, and a channel not in use has no points.
  predicate WellFilled(init: AdcInit, points1: nat, points2: nat) {
    && points1 <= init.dataPerTrans && points2 <= init.dataPerTrans
    && (!init.chan1 ==> points1 == 0) && (!init.chan2 ==> points2 == 0)
  }

  // Packet k is numbered so, has a full channel and none that is overfull.
  predicate PacketOk(init: AdcInit, p: Packet, k: nat) {
    && p.pos == k % 0x1_0000_0000
    && WellFilled(init, |p.chan1|, |p.chan2|)
    && (|p.chan1| == init.dataPerTrans || |p.chan2| == init.dataPerTrans)
  }

  ghost predicate WellSent(init: AdcInit, o: Output) {
    && WellFilled(init, |o.chan1|, |o.chan2|)
    && o.pos == |o.sent| % 0x1_0000_0000
    && forall k :: 0 <= k < |o.sent| ==> PacketOk(init, o.sent[k], k)
  }

  lemma FlushWellSent(init: AdcInit, o: Output)
    requires init.dataPerTrans > 0 && WellSent(init, o) && Full(init, o)
    ensures WellSent(init, Flush(o)) && !Full(init, Flush(o))
  {
    var n, sent := |o.sent|, Flush(o).sent;
    NextNumber(n);
    forall k | 0 <= k <= n ensures PacketOk(init, sent[k], k) {
      if k < n { assert sent[k] == o.sent[k] && PacketOk(init, o.sent[k], k); }
    }
  }

  lemma NextNumber(n: nat)
    ensures Inc32(n % 0x1_0000_0000) == (n + 1) % 0x1_0000_0000
  {
    var m := 0x1_0000_0000;
    var q, r := n / m, n % m;
    if r + 1 == m { assert n + 1 == (q + 1) * m; } else { assert n + 1 == q * m + (r + 1); }
  }

  lemma StoreWellSent(init: AdcInit, o: Output, s: Sample)
    requires WellSent(init, o) && !Full(init, o)
    ensures WellSent(init, Store(init, o, s))
  {
    assert Store(init, o, s).sent == o.sent && Store(init, o, s).pos == o.pos;
  }

  lemma AcceptWellSent(init: AdcInit, o: Output, s: Sample)
    requires init.dataPerTrans > 0 && WellSent(init, o)
    ensures WellSent(init, Accept(init, o, s))
  {
    if Full(init, o) { FlushWellSent(init, o); }
    StoreWellSent(init, if Full(init, o) then Flush(o) else o, s);
  }

  /** Every packet sent has a full channel and room for neither channel is
      exceeded; packets are numbered consecutively, modulo the width of the number. */
  lemma {:induction false} AcceptAllWellSent(init: AdcInit, o: Output, samples: seq<Sample>)
    requires init.dataPerTrans > 0 && WellSent(init, o)
    ensures WellSent(init, AcceptAll(init, o, samples))
    decreases |samples|
  {
    if samples == [] {
    } else {
      AcceptWellSent(init, o, samples[0]);
      AcceptAllWellSent(init, Accept(init, o, samples[0]), samples[1..]);
    }
  }

  /** Nothing that is decoded, whole cycles or garbage, breaks the packets. */
  lemma {:induction false} DecodeWellSent(init: AdcInit, s: Decoder, rx: seq<Byte>)
    requires init.Fits() && Valid(init, s) && WellSent(init, s.out)
    ensures WellSent(init, Decode(init, s, rx).out)
    decreases |rx|
  {
    if |rx| <= 1 {
    } else {
      var r := Step(init, s, rx[0], rx[1]);
      var part := s.done + (s.part + init.GroupBits(rx[0]));
      AcceptAllWellSent(init, s.out, SamplesOf(init.SampleBytes(), part));
      assert WellSent(init, Bad(s.out));
      DecodeWellSent(init, r, rx[1..]);
    }
  }

  /** End to end: of the samples sent, the complete sets that have arrived are
      delivered on the channel that their status names, in order. */
  lemma EndToEnd(init: AdcInit, samples: seq<Sample>, wires: seq<seq<Slot>>, cycles: seq<seq<Bits>>,
                 tail: seq<Slot>, part: seq<Bits>, x: Byte, n: nat, second: bool)
    requires init.Fits() && Sized(init, samples) && Arrives(init, wires, cycles, tail, part)
    requires AllBits(cycles) <= Encode(samples) && n == |cycles| / init.Cycles() * SetSize(init)
    ensures Valid(init, INITIAL) && n <= |samples|
    ensures Delivered(Decode(init, INITIAL, BytesOf(Join(wires) + tail) + [x]).out, second)
         == ChannelData(init, samples[..n], second)
  {
    RoundTrip(init, samples, wires, cycles, tail, part, x, n);
    AcceptAllDelivers(init, EMPTY, samples[..n], second);
    assert Delivered(EMPTY, second) == [];
  }

  // ------------------------------------------------------------- the device

  // A byte with the data pins, the clock and the other pins as given.
  function PinsFor(init: AdcInit, group: Bits, clock: bool, others: Byte): Byte
    requires init.Fits() && |group| == init.W()
  {
    seq(8, p requires 0 <= p < 8 =>
      if p == init.clk then clock
      else if init.lowestDataBit <= p < init.lowestDataBit + init.W() then
        group[if init.reverseBytes then p - init.lowestDataBit else init.lowestDataBit + init.W() - 1 - p]
      else others[p])
  }

  lemma PinsForGroup(init: AdcInit, group: Bits, clock: bool, others: Byte)
    requires init.Fits() && |group| == init.W()
    ensures init.GroupBits(PinsFor(init, group, clock, others)) == group
    ensures PinsFor(init, group, clock, others)[init.clk] == clock
  {
    var b := PinsFor(init, group, clock, others);
    forall t | 0 <= t < init.W() ensures init.GroupBits(b)[t] == group[t] {
      assert init.GroupBits(b)[t] == b[init.PinOf(t)];
    }
  }

  // The opposite of a group, but for its first bit if that starts a cycle.
  function Counterpart(group: Bits, first: bool): Bits {
    seq(|group|, t requires 0 <= t < |group| => if first && t == 0 then group[t] else !group[t])
  }

  // How the device sends a list of groups.
  function Transmit(init: AdcInit, groups: seq<Bits>, first: bool, others: Byte): seq<Slot>
    requires init.Fits() && forall k :: 0 <= k < |groups| ==> |groups[k]| == init.W()
    decreases |groups|
  {
    if groups == [] then []
    else [Pair(PinsFor(init, groups[0], false, others), PinsFor(init, Counterpart(groups[0], first), true, others))]
         + Transmit(init, groups[1..], false, others)
  }

  /** Any groups can be sent, whatever the other pins of the bus do. */
  lemma {:induction false} TransmitSends(init: AdcInit, groups: seq<Bits>, first: bool, others: Byte)
    requires init.Fits() && forall k :: 0 <= k < |groups| ==> |groups[k]| == init.W()
    ensures Sends(init, Transmit(init, groups, first, others), groups, first)
    decreases |groups|
  {
    if groups == [] {
    } else {
      var group, slots := groups[0], Transmit(init, groups, first, others);
      GroupSends(init, group, first, others);
      TransmitSends(init, groups[1..], false, others);
      assert slots[1..] == Transmit(init, groups[1..], false, others);
    }
  }

  lemma GroupSends(init: AdcInit, group: Bits, first: bool, others: Byte)
    requires init.Fits() && |group| == init.W()
    ensures GroupSlot(init, Pair(PinsFor(init, group, false, others),
                                 PinsFor(init, Counterpart(group, first), true, others)), group, first)
  {
    var lo, hi := PinsFor(init, group, false, others), PinsFor(init, Counterpart(group, first), true, others);
    PinsForGroup(init, group, false, others);
    PinsForGroup(init, Counterpart(group, first), true, others);
    forall t | 0 <= t < init.W()
      ensures init.GroupBit(lo, t) == init.GroupBit(hi, t) <==> t < if first then 1 else 0
    {
      assert init.GroupBits(lo)[t] == group[t] && init.GroupBits(hi)[t] == Counterpart(group, first)[t];
    }
  }
}
