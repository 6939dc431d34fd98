/**
 From the device to the packets, over all threads: what the ADC's thread
 extracts from the ring of buffers is the stream that the device sent.
 */
module AdcStream {
  import opened Bits
  import opened AdcClock
  import opened AdcSpec
  import opened AdcDecoder
  import opened AdcDelivery
  import opened AdcRoundTrip
  import opened AdcWire
  import opened Options

  import ReadBuffers

  /** However the threads interleave, and whatever the other devices of the channel
      do to their pins: if the ADC was active when the buffers were handed round that
      were read while its clock ran, and the device sent these samples in them, then
      once it has caught up its packets hold, channel by channel and in order, the
      samples of the complete sets that have arrived. The last buffer may end inside
      a cycle. */
  lemma DeviceToPackets(init: AdcInit, p: ReadBuffers.Protocol, steps: seq<ReadBuffers.Label>,
                        p': ReadBuffers.Protocol, c: nat, t: Session, samples: seq<Sample>,
                        wires: seq<seq<Slot>>, cycles: seq<seq<Bits>>, tail: seq<Slot>, part: seq<Bits>,
                        spares: seq<Byte>, n: nat, second: bool)
    requires ReadBuffers.Initial(p) && ReadBuffers.Run(p, steps, p') && c < |p'.consumers|
    requires ReadBuffers.Held(p'.consumers[c]) == [] && |spares| == |p'.consumers[c].extracted|
    requires init.Fits() && SessionOk(init, t) && ReadsOf(init, t, ReadBuffers.HandedTo(steps, c, None, 0))
    requires Sized(init, samples) && Arrives(init, wires, cycles, tail, part)
    requires AllBits(cycles) <= Encode(samples) && n == |cycles| / init.Cycles() * SetSize(init)
    requires Concat(ReadBuffers.HandedTo(steps, c, None, 0)) == BytesOf(Join(wires) + tail)
    ensures Valid(init, INITIAL) && n <= |samples|
    ensures Delivered(DecodeReads(init, INITIAL, p'.consumers[c].extracted, spares).out, second)
         == ChannelData(init, samples[..n], second)
  {
    var consumer := p'.consumers[c];
    ReadBuffers.ClaimsAreSafe(p, steps, p');
    ReadBuffers.DeliveredWasRead(p, steps, p', c);
    assert consumer.extracted + [] == consumer.extracted;
    assert consumer.extracted == consumer.delivered;
    ReadsEndHigh(init, t, consumer.delivered);
    EndToEnd(init, samples, wires, cycles, tail, part, ZERO, n, second);
    ReadsAsOne(init, INITIAL, consumer.extracted, spares, ZERO);
  }
}
