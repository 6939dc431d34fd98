/**
 The main results about the ADC: what the device sends is what comes out in
 the packets, sample by sample and channel by channel.
 */
module AdcRoundTrip {
  import opened Bits
  import opened AdcSpec
  import opened AdcDecoder
  import opened AdcWire
  import opened Products
  import opened Sequences

  const INITIAL: Decoder := Decoder([], 0, [], 0, EMPTY)

  // ---------------------------------------------------------- runs of cycles

  // The slots of one cycle after another.
  predicate SendsCycles(init: AdcInit, wires: seq<seq<Slot>>, cycles: seq<seq<Bits>>)
    requires init.Fits()
  {
    |wires| == |cycles| && forall k :: 0 <= k < |wires| ==> SendsCycle(init, wires[k], cycles[k])
  }

  function Join(wires: seq<seq<Slot>>): seq<Slot> {
    if wires == [] then [] else wires[0] + Join(wires[1..])
  }

  function StoreCycles(init: AdcInit, s: Decoder, cycles: seq<seq<Bits>>): Decoder
    requires init.Fits()
    decreases |cycles|
  {
    if cycles == [] then s else StoreCycles(init, StoreCycle(init, s, Flat(cycles[0])), cycles[1..])
  }

  lemma {:induction false} SendsGroups(init: AdcInit, slots: seq<Slot>, groups: seq<Bits>, first: bool)
    requires init.Fits() && Sends(init, slots, groups, first)
    ensures |Flat(groups)| == |groups| * init.W()
    decreases |slots|
  {
    if slots == [] {
    } else {
      if IdleSlot(init, slots[0]) && Sends(init, slots[1..], groups, first) {
        SendsGroups(init, slots[1..], groups, first);
      } else {
        SendsGroups(init, slots[1..], groups[1..], false);
        assert |groups| * init.W() == (|groups| - 1) * init.W() + init.W();
      }
    }
  }

  lemma {:induction false} CyclesStored(init: AdcInit, s: Decoder, wires: seq<seq<Slot>>, cycles: seq<seq<Bits>>)
    requires init.Fits() && Valid(init, s) && s.groups == 0 && SendsCycles(init, wires, cycles)
    ensures DecodeSlots(init, s, Join(wires)) == StoreCycles(init, s, cycles)
    decreases |wires|
  {
    if wires == [] {
    } else {
      var s1 := StoreCycle(init, s, Flat(cycles[0]));
      CycleStored(init, s, wires[0], cycles[0]);
      DecodeSlotsAppend(init, s, wires[0], Join(wires[1..]));
      CyclesStored(init, s1, wires[1..], cycles[1..]);
    }
  }

  lemma {:induction false} CyclesClocked(init: AdcInit, wires: seq<seq<Slot>>, cycles: seq<seq<Bits>>)
    requires init.Fits() && SendsCycles(init, wires, cycles)
    ensures Clocked(init, Join(wires))
    decreases |wires|
  {
    if wires == [] {
    } else {
      SendsClocked(init, wires[0], cycles[0], true);
      CyclesClocked(init, wires[1..], cycles[1..]);
      ClockedAppend(init, wires[0], Join(wires[1..]));
    }
  }

  // Between cycles it stays between cycles.
  lemma {:induction false} StoreCyclesGroups(init: AdcInit, s: Decoder, cycles: seq<seq<Bits>>)
    requires init.Fits() && s.groups == 0
    ensures StoreCycles(init, s, cycles).groups == 0
    decreases |cycles|
  {
    if cycles == [] {
    } else {
      StoreCyclesGroups(init, StoreCycle(init, s, Flat(cycles[0])), cycles[1..]);
    }
  }

  // The decoder has met a whole cycle while another was under way.
  function LoseCycle(init: AdcInit, s: Decoder): Decoder
    requires init.Fits()
  {
    s.(part := [], groups := 0, out := BadReads(s.out, init.NGroups()))
  }

  lemma CyclesFromAnywhere(init: AdcInit, t: Decoder, wires: seq<seq<Slot>>, cycles: seq<seq<Bits>>)
    requires init.Fits() && Valid(init, t) && SendsCycles(init, wires, cycles) && wires != []
    ensures DecodeSlots(init, t, Join(wires))
         == if t.groups == 0 then StoreCycles(init, t, cycles) else StoreCycles(init, LoseCycle(init, t), cycles[1..])
  {
    Shape(init);
    if t.groups == 0 {
      CyclesStored(init, t, wires, cycles);
    } else {
      CycleLost(init, t, wires[0], cycles[0]);
      DecodeSlotsAppend(init, t, wires[0], Join(wires[1..]));
      CyclesStored(init, LoseCycle(init, t), wires[1..], cycles[1..]);
    }
  }

  /** Whatever state the decoder is in, and whatever bytes came before, of a
      run of whole cycles at most the first is lost: it is, exactly when the
      bytes before it left a cycle under way, and all the others are stored. */
  lemma Resynchronises(init: AdcInit, s: Decoder, garbage: seq<Byte>,
                       wires: seq<seq<Slot>>, cycles: seq<seq<Bits>>, x: Byte)
    requires init.Fits() && Valid(init, s) && SendsCycles(init, wires, cycles) && wires != []
    ensures var wire := BytesOf(Join(wires)) + [x];
      var t := Decode(init, s, garbage + [wire[0]]);
      Decode(init, s, garbage + wire)
      == if t.groups == 0 then StoreCycles(init, t, cycles) else StoreCycles(init, LoseCycle(init, t), cycles[1..])
  {
    var wire := BytesOf(Join(wires)) + [x];
    var t := Decode(init, s, garbage + [wire[0]]);
    DecodeJoin(init, s, garbage, wire);
    CyclesClocked(init, wires, cycles);
    DecodeBySlot(init, t, Join(wires), x);
    CyclesFromAnywhere(init, t, wires, cycles);
  }

  // ----------------------------------------------------- cycles and samples

  // The bits of all the cycles, in order.
  function AllBits(cycles: seq<seq<Bits>>): Bits {
    if cycles == [] then [] else Flat(cycles[0]) + AllBits(cycles[1..])
  }

  lemma {:induction false} SamplesAppend(size: nat, a: Bits, b: Bits, k: nat)
    requires size > 0 && |a| == k * (8 * size)
    ensures SamplesOf(size, a + b) == SamplesOf(size, a) + SamplesOf(size, b)
    decreases k
  {
    if k == 0 {
      assert a + b == b && SamplesOf(size, a) == [];
    } else {
      assert k * (8 * size) == (k - 1) * (8 * size) + 8 * size;
      var n := 8 * size;
      assert |a| >= n;
      assert (a + b)[n..] == a[n..] + b;
      SamplesAppend(size, a[n..], b, k - 1);
      SampleOfPrefix(size, a, b);
    }
  }

  lemma SampleOfPrefix(size: nat, a: Bits, b: Bits)
    requires 0 < size && 8 * size <= |a|
    ensures SampleOf(size, a + b) == SampleOf(size, a)
  {
    forall i | 0 <= i < size ensures StreamByte(a + b, i) == StreamByte(a, i) {
      forall p | 0 <= p < 8 ensures StreamByte(a + b, i)[p] == StreamByte(a, i)[p] {}
    }
  }

  // `before`, n whole sets of cycles, has been accepted; the rest is in the buffer.
  ghost predicate Accepted(init: AdcInit, o: Output, before: Bits, n: nat, r: Decoder)
    requires init.Fits()
  {
    && r.groups == 0 && Valid(init, r)
    && |before| == n * (8 * init.BuffSize())
    && r.out == AcceptAll(init, o, SamplesOf(init.SampleBytes(), before))
  }

  lemma SetAccepted(init: AdcInit, o: Output, before: Bits, n: nat, full: Bits, size: nat, k: nat)
    requires size > 0 && |before| == n * (8 * (size * k))
    ensures AcceptAll(init, AcceptAll(init, o, SamplesOf(size, before)), SamplesOf(size, full))
         == AcceptAll(init, o, SamplesOf(size, before + full))
  {
    assert n * (8 * (size * k)) == (n * k) * (8 * size);
    SamplesAppend(size, before, full, n * k);
    AcceptAllAppend(init, o, SamplesOf(size, before), SamplesOf(size, full));
  }

  // Samples of a full buffer.
  function SetSize(init: AdcInit): nat { if init.Even() then 1 else init.W() }

  lemma CycleAccepted(init: AdcInit, o: Output, before: Bits, n: nat, s: Decoder, cycle: Bits)
      returns (before': Bits, n': nat)
    requires init.Fits() && Accepted(init, o, before, n, s) && |cycle| == 8 * init.NBytes()
    ensures var r := StoreCycle(init, s, cycle);
      Accepted(init, o, before', n', r) && before' + r.done == before + s.done + cycle
      && (if s.cycles + 1 < init.Cycles() then n' == n && r.cycles == s.cycles + 1
          else n' == n + 1 && r.cycles == 0 && s.cycles + 1 == init.Cycles())
  {
    Shape(init);
    CycleLengths(init, s);
    if s.cycles + 1 < init.Cycles() {
      before', n' := before, n;
      assert before + (s.done + cycle) == before + s.done + cycle;
    } else {
      var full := s.done + cycle;
      before', n' := before + full, n + 1;
      WholeSetAccepted(init, o, before, n, full);
      assert before + full + [] == before + s.done + cycle;
    }
  }

  lemma WholeSetAccepted(init: AdcInit, o: Output, before: Bits, n: nat, full: Bits)
    requires init.Fits() && |before| == n * (8 * init.BuffSize()) && |full| == 8 * init.BuffSize()
    ensures |before + full| == (n + 1) * (8 * init.BuffSize())
    ensures var size := init.SampleBytes();
      AcceptAll(init, AcceptAll(init, o, SamplesOf(size, before)), SamplesOf(size, full))
      == AcceptAll(init, o, SamplesOf(size, before + full))
  {
    Shape(init);
    OneMore(n, 8 * init.BuffSize());
    SetAccepted(init, o, before, n, full, init.SampleBytes(), SetSize(init));
  }

  lemma {:induction false} CyclesAccepted(init: AdcInit, o: Output, before: Bits, n: nat, s: Decoder,
                                          wires: seq<seq<Slot>>, cycles: seq<seq<Bits>>, m: nat)
      returns (before': Bits, n': nat)
    requires init.Fits() && Accepted(init, o, before, n, s) && SendsCycles(init, wires, cycles) && m == init.Cycles()
    ensures var r := StoreCycles(init, s, cycles);
      Accepted(init, o, before', n', r) && before' + r.done == before + s.done + AllBits(cycles)
      && n' * m + r.cycles == n * m + s.cycles + |cycles|
    decreases |cycles|
  {
    if cycles == [] {
      before', n' := before, n;
    } else {
      var cycle := Flat(cycles[0]);
      CycleBits(init, wires[0], cycles[0]);
      var before1, n1 := CycleAccepted(init, o, before, n, s, cycle);
      OneMore(n, m);
      var s1 := StoreCycle(init, s, cycle);
      before', n' := CyclesAccepted(init, o, before1, n1, s1, wires[1..], cycles[1..], m);
      Regrouped(before + s.done, cycle, AllBits(cycles[1..]));
    }
  }

  lemma CycleBits(init: AdcInit, slots: seq<Slot>, cycle: seq<Bits>)
    requires init.Fits() && SendsCycle(init, slots, cycle)
    ensures |Flat(cycle)| == 8 * init.NBytes()
  {
    Shape(init);
    SendsGroups(init, slots, cycle, true);
  }

  lemma DivMod(c: nat, n: nat, q: nat, r: nat)
    requires c == q * n + r && r < n
    ensures c / n == q
  {
    assert c == c / n * n + c % n;
    if q < c / n { assert c / n * n == q * n + (c / n - q) * n; MulMonotone(1, c / n - q, n); }
    if c / n < q { assert q * n == c / n * n + (q - c / n) * n; MulMonotone(1, q - c / n, n); }
  }

  // --------------------------------------------------------- what is sent

  // The device sends the status byte, then the data bytes from the highest down,
  // every byte from its highest bit down.
  function EncodeSample(s: Sample): Bits {
    StreamOf(s.data.bytes + [s.status])
  }

  function Encode(samples: seq<Sample>): Bits {
    if samples == [] then [] else EncodeSample(samples[0]) + Encode(samples[1..])
  }

  // Samples whose data has the configured size.
  predicate Sized(init: AdcInit, samples: seq<Sample>) {
    forall k :: 0 <= k < |samples| ==> |samples[k].data.bytes| + 1 == init.SampleBytes()
  }

  lemma SampleRoundTrip(size: nat, s: Sample)
    requires |s.data.bytes| + 1 == size
    ensures SampleOf(size, EncodeSample(s)) == s
  {
    var m := s.data.bytes + [s.status];
    SampleInMemory(m, size, 0);
    assert m[..0 + size] == m && m[0..0 + size - 1] == s.data.bytes;
  }

  /** Cutting the bits of a list of samples gives the samples back. */
  lemma {:induction false} EncodeRoundTrip(init: AdcInit, samples: seq<Sample>)
    requires Sized(init, samples)
    ensures |Encode(samples)| == |samples| * (8 * init.SampleBytes())
    ensures SamplesOf(init.SampleBytes(), Encode(samples)) == samples
    decreases |samples|
  {
    var size := init.SampleBytes();
    if samples == [] {
    } else {
      var first, rest := EncodeSample(samples[0]), samples[1..];
      EncodeRoundTrip(init, rest);
      assert |samples| * (8 * size) == (|samples| - 1) * (8 * size) + 8 * size;
      assert |first| == 8 * size;
      SampleRoundTrip(size, samples[0]);
      SampleOfPrefix(size, first, Encode(rest));
      assert (first + Encode(rest))[8 * size..] == Encode(rest);
      assert [samples[0]] + rest == samples;
    }
  }

  lemma {:induction false} EncodeAppend(a: seq<Sample>, b: seq<Sample>)
    ensures Encode(a + b) == Encode(a) + Encode(b)
    decreases |a|
  {
    if a == [] {
      assert a + b == b;
    } else {
      assert (a + b)[0] == a[0] && (a + b)[1..] == a[1..] + b;
      EncodeAppend(a[1..], b);
      assert EncodeSample(a[0]) + (Encode(a[1..]) + Encode(b)) == Encode(a) + Encode(b);
    }
  }

  lemma PrefixSamples(init: AdcInit, samples: seq<Sample>, n: nat, bits: nat)
    requires Sized(init, samples) && n <= |samples| && bits == n * (8 * init.SampleBytes())
    ensures bits <= |Encode(samples)|
    ensures SamplesOf(init.SampleBytes(), Encode(samples)[..bits]) == samples[..n]
  {
    EncodeRoundTrip(init, samples[..n]);
    EncodeAppend(samples[..n], samples[n..]);
    assert samples[..n] + samples[n..] == samples;
    assert Encode(samples)[..bits] == Encode(samples[..n]);
  }

  lemma Regroup(n: nat, k: nat, size: nat)
    ensures n * (8 * (size * k)) == (n * k) * (8 * size)
  {}

  lemma CountBound(a: nat, b: nat, c: nat)
    requires b * c <= a * c && c > 0
    ensures b <= a
  {
    if a < b {
      MulMonotone(a + 1, b, c);
      OneMore(a, c);
    }
  }

  // A stretch of Encode(samples) as long as m samples is the first m of them.
  lemma WholeSamples(init: AdcInit, samples: seq<Sample>, before: Bits, m: nat, size: nat)
    requires Sized(init, samples) && 0 < size == init.SampleBytes() && |before| == m * (8 * size)
    requires before <= Encode(samples)
    ensures m <= |samples| && SamplesOf(size, before) == samples[..m]
  {
    EncodeRoundTrip(init, samples);
    CountBound(|samples|, m, 8 * size);
    PrefixSamples(init, samples, m, |before|);
    assert before == Encode(samples)[..|before|];
  }

  lemma WholeCycles(init: AdcInit, samples: seq<Sample>, wires: seq<seq<Slot>>, cycles: seq<seq<Bits>>, n: nat)
    requires init.Fits() && Sized(init, samples) && SendsCycles(init, wires, cycles)
    requires AllBits(cycles) <= Encode(samples) && n == |cycles| / init.Cycles() * SetSize(init)
    ensures n <= |samples|
    ensures StoreCycles(init, INITIAL, cycles).out == AcceptAll(init, EMPTY, samples[..n])
  {
    Shape(init);
    var m, size, k := init.Cycles(), init.SampleBytes(), SetSize(init);
    var before, sets := CyclesAccepted(init, EMPTY, [], 0, INITIAL, wires, cycles, m);
    var r := StoreCycles(init, INITIAL, cycles);
    DivMod(|cycles|, m, sets, r.cycles);
    assert [] + [] + AllBits(cycles) == AllBits(cycles) && before <= AllBits(cycles);
    Regroup(sets, k, size);
    WholeSamples(init, samples, before, n, size);
  }

  // Whole cycles, and the part of the next one that has arrived.
  ghost predicate Arrives(init: AdcInit, wires: seq<seq<Slot>>, cycles: seq<seq<Bits>>,
                          tail: seq<Slot>, part: seq<Bits>)
    requires init.Fits()
  {
    SendsCycles(init, wires, cycles) && Sends(init, tail, part, true) && |part| < init.NGroups()
  }

  /** The round trip: the device sends these samples, and any number of cycles of
      them have arrived, the last perhaps only in part, with idle bytes anywhere
      in between and the rest of the bus doing what it likes; then exactly the
      samples of the complete sets have been accepted, in order. */
  lemma RoundTrip(init: AdcInit, samples: seq<Sample>, wires: seq<seq<Slot>>, cycles: seq<seq<Bits>>,
                  tail: seq<Slot>, part: seq<Bits>, x: Byte, n: nat)
    requires init.Fits() && Sized(init, samples) && Arrives(init, wires, cycles, tail, part)
    requires AllBits(cycles) <= Encode(samples) && n == |cycles| / init.Cycles() * SetSize(init)
    ensures Valid(init, INITIAL) && n <= |samples|
    ensures Decode(init, INITIAL, BytesOf(Join(wires) + tail) + [x]).out == AcceptAll(init, EMPTY, samples[..n])
  {
    Shape(init);
    CyclesClocked(init, wires, cycles);
    SendsClocked(init, tail, part, true);
    ClockedAppend(init, Join(wires), tail);
    DecodeBySlot(init, INITIAL, Join(wires) + tail, x);
    DecodeSlotsAppend(init, INITIAL, Join(wires), tail);
    CyclesStored(init, INITIAL, wires, cycles);
    StoreCyclesGroups(init, INITIAL, cycles);
    PartKept(init, StoreCycles(init, INITIAL, cycles), tail, part, true);
    WholeCycles(init, samples, wires, cycles, n);
  }
}
