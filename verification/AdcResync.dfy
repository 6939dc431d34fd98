/**
 What a lost cycle does to the samples behind it: nothing in the decoder moves the
 place where the next cycle is stored, so samples that straddle cycles may be cut
 at the wrong bits from then on.
 */
module AdcResync {
  import opened Bits
  import opened AdcSpec
  import opened AdcDecoder
  import opened AdcWire
  import opened AdcRoundTrip
  import opened AdcDelivery
  import opened Products

  // Where cycle p of the stream begins.
  function FirstBit(init: AdcInit, p: nat): nat { p * (8 * init.NBytes()) }

  // The device sends these cycles, from cycle p of the samples on.
  ghost predicate SentFrom(init: AdcInit, samples: seq<Sample>, wires: seq<seq<Slot>>, cycles: seq<seq<Bits>>, p: nat)
    requires init.Fits()
  {
    && Sized(init, samples) && SendsCycles(init, wires, cycles)
    && FirstBit(init, p) <= |Encode(samples)| && AllBits(cycles) <= Encode(samples)[FirstBit(init, p)..]
  }

  function Clip(bits: Bits, n: nat): Bits { if n <= |bits| then bits[..n] else bits }

  // The bits of all complete sets of so many cycles.
  function SetLength(init: AdcInit, cycles: nat): nat {
    var sets: nat := cycles / init.Cycles();
    sets * (8 * init.BuffSize())
  }

  // The bits in the sets that are complete once these cycles are stored; there
  // are always so many.
  function SetBits(init: AdcInit, t: Decoder, cycles: seq<seq<Bits>>): Bits {
    Clip(t.done + AllBits(cycles), SetLength(init, t.cycles + |cycles|))
  }

  // The samples that are accepted when these cycles are stored.
  function Taken(init: AdcInit, t: Decoder, cycles: seq<seq<Bits>>): seq<Sample> {
    SamplesOf(init.SampleBytes(), SetBits(init, t, cycles))
  }

  lemma {:induction false} SamplesCount(size: nat, bits: Bits, k: nat)
    requires size > 0 && |bits| == k * (8 * size)
    ensures |SamplesOf(size, bits)| == k
    decreases k
  {
    if k == 0 {
    } else {
      OneMore(k - 1, 8 * size);
      SamplesCount(size, bits[8 * size..], k - 1);
    }
  }

  lemma {:induction false} SamplesCut(size: nat, bits: Bits, k: nat, j: nat)
    requires size > 0 && |bits| == k * (8 * size) && j < k
    ensures j * (8 * size) + 8 * size <= |bits| && |SamplesOf(size, bits)| == k
    ensures SamplesOf(size, bits)[j] == SampleOf(size, bits[j * (8 * size)..])
    decreases k
  {
    var n := 8 * size;
    OneMore(k - 1, n);
    SamplesCount(size, bits, k);
    if j == 0 {
      assert bits[0..] == bits;
    } else {
      SamplesCut(size, bits[n..], k - 1, j - 1);
      OneMore(j - 1, n);
      CutTwice(bits, n, (j - 1) * n);
    }
  }

  lemma CutTwice(bits: Bits, n: nat, a: nat)
    requires n + a <= |bits|
    ensures bits[n..][a..] == bits[a + n..]
  {}

  lemma ClipPrefix(before: Bits, rest: Bits, all: Bits)
    requires before + rest == all
    ensures Clip(all, |before|) == before
  {}

  // The bits of the sets that have been accepted.
  lemma SetsAccepted(init: AdcInit, t: Decoder, wires: seq<seq<Slot>>, cycles: seq<seq<Bits>>) returns (sets: nat)
    requires init.Fits() && Valid(init, t) && t.groups == 0 && SendsCycles(init, wires, cycles)
    ensures sets == (t.cycles + |cycles|) / init.Cycles()
    ensures |SetBits(init, t, cycles)| == sets * (8 * init.BuffSize())
    ensures SetBits(init, t, cycles) <= t.done + AllBits(cycles)
    ensures StoreCycles(init, t, cycles).out == AcceptAll(init, t.out, Taken(init, t, cycles))
  {
    var m, r := init.Cycles(), StoreCycles(init, t, cycles);
    assert SamplesOf(init.SampleBytes(), []) == [];
    var before;
    before, sets := CyclesAccepted(init, t.out, [], 0, t, wires, cycles, m);
    CountSoFar(t.cycles + |cycles|, m, sets, r.cycles);
    assert [] + t.done == t.done;
    assert |before| == SetLength(init, t.cycles + |cycles|);
    ClipPrefix(before, r.done, t.done + AllBits(cycles));
  }

  lemma CountSoFar(c: nat, m: nat, sets: nat, r: nat)
    requires sets * m + r == 0 * m + c && r < m
    ensures sets == c / m
  {
    DivMod(c, m, sets, r);
  }

  /** The samples accepted are those of the bits that were in the buffer and of the
      cycles stored behind them, as far as they fill whole sets. */
  lemma StoredAreTaken(init: AdcInit, t: Decoder, wires: seq<seq<Slot>>, cycles: seq<seq<Bits>>)
    requires init.Fits() && Valid(init, t) && t.groups == 0 && SendsCycles(init, wires, cycles)
    ensures StoreCycles(init, t, cycles).out == AcceptAll(init, t.out, Taken(init, t, cycles))
    ensures SetBits(init, t, cycles) <= t.done + AllBits(cycles)
    ensures |Taken(init, t, cycles)| == (t.cycles + |cycles|) / init.Cycles() * SetSize(init)
    ensures |SetBits(init, t, cycles)| == |Taken(init, t, cycles)| * (8 * init.SampleBytes())
  {
    var sets := SetsAccepted(init, t, wires, cycles);
    SetsOfSamples(init, sets, SetBits(init, t, cycles));
  }

  lemma SetsOfSamples(init: AdcInit, sets: nat, bits: Bits)
    requires init.Fits() && |bits| == sets * (8 * init.BuffSize())
    ensures var n := |SamplesOf(init.SampleBytes(), bits)|;
      n == sets * SetSize(init) && |bits| == n * (8 * init.SampleBytes())
  {
    Shape(init);
    CountSets(sets, SetSize(init), init.SampleBytes(), bits);
  }

  lemma CountSets(sets: nat, k: nat, size: nat, bits: Bits)
    requires size > 0 && |bits| == sets * (8 * (size * k))
    ensures var n := |SamplesOf(size, bits)|; n == sets * k && |bits| == n * (8 * size)
  {
    Regroup(sets, k, size);
    MulMonotone(0, sets, k);
    SamplesCount(size, bits, sets * k);
  }

  // -------------------------------------------------------- samples behind it

  // Sample j of the buffer has no bits of its first q cycles.
  predicate Behind(init: AdcInit, q: nat, j: nat) { q * init.NBytes() <= j * init.SampleBytes() }

  /** What is accepted, from the first sample on that has no bits of the old cycles
      in the buffer, is a stretch of what was sent. */
  predicate Continues(init: AdcInit, q: nat, samples: seq<Sample>, taken: seq<Sample>, shift: int) {
    forall j :: 0 <= j < |taken| && Behind(init, q, j) ==>
      0 <= j + shift < |samples| && taken[j] == samples[j + shift]
  }

  ghost predicate LateRight(init: AdcInit, t: Decoder, samples: seq<Sample>, cycles: seq<seq<Bits>>) {
    exists shift :: Continues(init, t.cycles, samples, Taken(init, t, cycles), shift)
  }

  /** Cycle p of the samples is stored as cycle q of a set: that moves the stream by
      a whole number of samples. */
  predicate Realigns(init: AdcInit, q: nat, p: nat) {
    (p - q) * init.NBytes() % init.SampleBytes() == 0
  }

  // The samples that the stream is moved by.
  function Shift(init: AdcInit, q: nat, p: nat): int { (p - q) * init.NBytes() / init.SampleBytes() }

  lemma SameSample(size: nat, x: Bits, a: nat, e: Bits, b: nat)
    requires size > 0 && a + 8 * size <= |x| && b + 8 * size <= |e|
    requires x[a..a + 8 * size] == e[b..b + 8 * size]
    ensures SampleOf(size, x[a..]) == SampleOf(size, e[b..])
  {
    var n := 8 * size;
    assert x[a..] == x[a..a + n] + x[a + n..] && e[b..] == e[b..b + n] + e[b + n..];
    SampleOfPrefix(size, x[a..a + n], x[a + n..]);
    SampleOfPrefix(size, e[b..b + n], e[b + n..]);
  }

  // Bits behind those of the old cycles are bits that were sent.
  lemma LateBits(done: Bits, all: Bits, e: Bits, start: nat, x: Bits, a: nat, n: nat)
    requires x <= done + all && start <= |e| && all <= e[start..] && |done| <= a && a + n <= |x|
    ensures start + a - |done| + n <= |e|
    ensures x[a..a + n] == e[start + a - |done|..start + a - |done| + n]
  {
    assert x[a..a + n] == (done + all)[a..a + n] == all[a - |done|..a - |done| + n];
    assert all[a - |done|..a - |done| + n] == e[start..][a - |done|..a - |done| + n];
  }

  lemma CutBits(size: nat, x: Bits, k: nat, j: nat, done: Bits, all: Bits, e: Bits, start: nat, b: int)
    requires size > 0 && |x| == k * (8 * size) && j < k
    requires x <= done + all && start <= |e| && all <= e[start..] && |done| <= j * (8 * size)
    requires b == start + j * (8 * size) - |done|
    ensures 0 <= b <= |e| - 8 * size && |SamplesOf(size, x)| == k && SamplesOf(size, x)[j] == SampleOf(size, e[b..])
  {
    var a := j * (8 * size);
    SamplesCut(size, x, k, j);
    LateBits(done, all, e, start, x, a, 8 * size);
    SameSample(size, x, a, e, b);
  }

  // Bit of the stream at which sample j behind the old cycles is cut.
  function Place(init: AdcInit, q: nat, p: nat, j: nat): int {
    8 * ((p - q) * init.NBytes() + j * init.SampleBytes())
  }

  lemma Distances(p: nat, q: nat, j: nat, n: nat, size: nat)
    ensures 8 * ((p - q) * n + j * size) == p * (8 * n) + j * (8 * size) - q * (8 * n)
    ensures q * n <= j * size ==> q * (8 * n) <= j * (8 * size)
  {
    assert (p - q) * n == p * n - q * n;
    assert j * (8 * size) == 8 * (j * size) && q * (8 * n) == 8 * (q * n) && p * (8 * n) == 8 * (p * n);
  }

  lemma PlaceIs(init: AdcInit, t: Decoder, p: nat, j: nat)
    requires init.Fits() && Valid(init, t)
    ensures Place(init, t.cycles, p, j) == FirstBit(init, p) + j * (8 * init.SampleBytes()) - |t.done|
    ensures Behind(init, t.cycles, j) ==> |t.done| <= j * (8 * init.SampleBytes())
  {
    Distances(p, t.cycles, j, init.NBytes(), init.SampleBytes());
  }

  lemma LateSample(init: AdcInit, t: Decoder, samples: seq<Sample>, wires: seq<seq<Slot>>, cycles: seq<seq<Bits>>,
                   p: nat, j: nat)
    requires init.Fits() && Valid(init, t) && t.groups == 0 && SentFrom(init, samples, wires, cycles, p)
    requires j < |Taken(init, t, cycles)| && Behind(init, t.cycles, j)
    ensures 0 <= Place(init, t.cycles, p, j) <= |Encode(samples)| - 8 * init.SampleBytes()
    ensures Taken(init, t, cycles)[j] == SampleOf(init.SampleBytes(), Encode(samples)[Place(init, t.cycles, p, j)..])
  {
    StoredAreTaken(init, t, wires, cycles);
    PlaceIs(init, t, p, j);
    CutBits(init.SampleBytes(), SetBits(init, t, cycles), |Taken(init, t, cycles)|, j, t.done, AllBits(cycles),
            Encode(samples), FirstBit(init, p), Place(init, t.cycles, p, j));
  }

  /** If the stream is moved by whole samples, all samples behind the old cycles are
      right. */
  lemma LateSamples(init: AdcInit, t: Decoder, samples: seq<Sample>, wires: seq<seq<Slot>>, cycles: seq<seq<Bits>>,
                    p: nat)
    requires init.Fits() && Valid(init, t) && t.groups == 0 && SentFrom(init, samples, wires, cycles, p)
    requires Realigns(init, t.cycles, p)
    ensures Continues(init, t.cycles, samples, Taken(init, t, cycles), Shift(init, t.cycles, p))
  {
    forall j | 0 <= j < |Taken(init, t, cycles)| && Behind(init, t.cycles, j)
      ensures 0 <= j + Shift(init, t.cycles, p) < |samples|
      ensures Taken(init, t, cycles)[j] == samples[j + Shift(init, t.cycles, p)]
    {
      LateSample(init, t, samples, wires, cycles, p, j);
      SampleAt(init, samples, t.cycles, p, j);
    }
  }

  lemma SampleAt(init: AdcInit, samples: seq<Sample>, q: nat, p: nat, j: nat)
    requires init.Fits() && Sized(init, samples) && Realigns(init, q, p)
    requires 0 <= Place(init, q, p, j) <= |Encode(samples)| - 8 * init.SampleBytes()
    ensures 0 <= j + Shift(init, q, p) < |samples|
    ensures SampleOf(init.SampleBytes(), Encode(samples)[Place(init, q, p, j)..]) == samples[j + Shift(init, q, p)]
  {
    SampleMoved(init, samples, (p - q) * init.NBytes(), j);
  }

  lemma SampleMoved(init: AdcInit, samples: seq<Sample>, d: int, j: nat)
    requires init.Fits() && Sized(init, samples) && d % init.SampleBytes() == 0
    requires 0 <= 8 * (d + j * init.SampleBytes()) <= |Encode(samples)| - 8 * init.SampleBytes()
    ensures 0 <= j + d / init.SampleBytes() < |samples|
    ensures SampleOf(init.SampleBytes(), Encode(samples)[8 * (d + j * init.SampleBytes())..])
         == samples[j + d / init.SampleBytes()]
  {
    EncodeRoundTrip(init, samples);
    StreamSample(Encode(samples), |samples|, init.SampleBytes(), d, j);
  }

  lemma StreamSample(e: Bits, n: nat, size: nat, d: int, j: nat)
    requires 3 <= size <= 4 && d % size == 0 && |e| == n * (8 * size)
    requires 0 <= 8 * (d + j * size) <= |e| - 8 * size
    ensures 0 <= j + d / size < n == |SamplesOf(size, e)|
    ensures SampleOf(size, e[8 * (d + j * size)..]) == SamplesOf(size, e)[j + d / size]
  {
    WholeShift(d, j, n, size);
    SamplesCut(size, e, n, j + d / size);
  }

  lemma WholeShift(d: int, j: nat, n: nat, size: nat)
    requires 3 <= size <= 4 && d % size == 0
    requires 0 <= 8 * (d + j * size) <= n * (8 * size) - 8 * size
    ensures 0 <= j + d / size < n && (j + d / size) * (8 * size) == 8 * (d + j * size)
  {
    if size == 3 {} else {}
  }

  // ------------------------------------------------------------ the converse

  // A sample whose first bit alone is set.
  function Marked(init: AdcInit): (s: Sample) {
    Sample(One(7), Point(seq(init.SampleBytes() - 1, _ => ZERO)))
  }

  function Copies(s: Sample, n: nat): (r: seq<Sample>)
    ensures |r| == n
  {
    seq(n, _ => s)
  }

  lemma MarkedBits(init: AdcInit, i: nat)
    requires i < |EncodeSample(Marked(init))|
    ensures |EncodeSample(Marked(init))| == 8 * init.SampleBytes()
    ensures EncodeSample(Marked(init))[i] <==> i == 0
  {
    var s := Marked(init);
    var m := s.data.bytes + [s.status];
    var k := 8 * |m| - 1 - i;
    assert EncodeSample(s)[i] == StreamBit(m, i) == m[k / 8][k % 8];
    if k / 8 < |m| - 1 { assert m[k / 8] == ZERO; } else { assert m[k / 8] == One(7); }
  }

  // The first bit of every n is set.
  ghost predicate Periodic(bits: Bits, n: nat)
    requires n > 0
  {
    forall i :: 0 <= i < |bits| ==> (bits[i] <==> i % n == 0)
  }

  lemma PeriodMore(first: Bits, rest: Bits, n: nat)
    requires |first| == n > 0 && (forall i :: 0 <= i < n ==> (first[i] <==> i == 0)) && Periodic(rest, n)
    ensures Periodic(first + rest, n)
  {
    forall i | 0 <= i < |first + rest| ensures (first + rest)[i] <==> i % n == 0 {
      if i < n {
        Remainder(i, n, 0, i);
      } else {
        assert (first + rest)[i] == rest[i - n];
        OneLess(i, n);
      }
    }
  }

  lemma {:induction false} MarkedStream(init: AdcInit, n: nat)
    ensures Periodic(Encode(Copies(Marked(init), n)), 8 * init.SampleBytes())
    decreases n
  {
    var s := Marked(init);
    if n == 0 {
    } else {
      assert Copies(s, n)[1..] == Copies(s, n - 1);
      forall i | 0 <= i < |EncodeSample(s)| ensures EncodeSample(s)[i] <==> i == 0 { MarkedBits(init, i); }
      MarkedStream(init, n - 1);
      PeriodMore(EncodeSample(s), Encode(Copies(s, n - 1)), 8 * init.SampleBytes());
    }
  }

  lemma OneLess(i: nat, n: nat)
    requires 0 < n <= i
    ensures (i - n) % n == i % n
  {
    var q, r := (i - n) / n, (i - n) % n;
    OneMore(q, n);
    Remainder(i, n, q + 1, r);
  }

  lemma Remainder(i: nat, n: nat, q: nat, r: nat)
    requires i == q * n + r && r < n
    ensures i % n == r
  {
    DivMod(i, n, q, r);
  }

  // Bits cut into k groups.
  function GroupsOf(bits: Bits, w: nat, k: nat): (groups: seq<Bits>)
    requires |bits| == k * w
    ensures |groups| == k && forall i :: 0 <= i < k ==> |groups[i]| == w
    decreases k
  {
    if k == 0 then []
    else
      OneMore(k - 1, w);
      [bits[..w]] + GroupsOf(bits[w..], w, k - 1)
  }

  lemma {:induction false} GroupsFlat(bits: Bits, w: nat, k: nat)
    requires |bits| == k * w
    ensures Flat(GroupsOf(bits, w, k)) == bits
    decreases k
  {
    if k == 0 {
    } else {
      OneMore(k - 1, w);
      GroupsFlat(bits[w..], w, k - 1);
      assert GroupsOf(bits, w, k)[1..] == GroupsOf(bits[w..], w, k - 1);
    }
  }

  // Any bits that fill a cycle can be sent,
  lemma CycleCanBeSent(init: AdcInit, bits: Bits) returns (slots: seq<Slot>, groups: seq<Bits>)
    requires init.Fits() && |bits| == 8 * init.NBytes()
    ensures SendsCycle(init, slots, groups) && Flat(groups) == bits
  {
    Shape(init);
    groups := GroupsOf(bits, init.W(), init.NGroups());
    GroupsFlat(bits, init.W(), init.NGroups());
    slots := Transmit(init, groups, true, ZERO);
    TransmitSends(init, groups, true, ZERO);
  }

  lemma OneMoreCycle(init: AdcInit, slots: seq<Slot>, groups: seq<Bits>, ws: seq<seq<Slot>>, cs: seq<seq<Bits>>)
    requires init.Fits() && SendsCycle(init, slots, groups) && SendsCycles(init, ws, cs)
    ensures SendsCycles(init, [slots] + ws, [groups] + cs) && AllBits([groups] + cs) == Flat(groups) + AllBits(cs)
  {
    assert ([groups] + cs)[1..] == cs;
    forall k | 0 <= k < |ws| + 1 ensures SendsCycle(init, ([slots] + ws)[k], ([groups] + cs)[k]) {
      if k > 0 { assert SendsCycle(init, ws[k - 1], cs[k - 1]); }
    }
  }

  // and so can any that fill c of them.
  lemma {:induction false} CanBeSent(init: AdcInit, bits: Bits, c: nat, n: nat)
      returns (wires: seq<seq<Slot>>, cycles: seq<seq<Bits>>)
    requires init.Fits() && n == 8 * init.NBytes() && |bits| == c * n
    ensures SendsCycles(init, wires, cycles) && |cycles| == c && AllBits(cycles) == bits
    decreases c
  {
    if c == 0 {
      wires, cycles := [], [];
    } else {
      OneMore(c - 1, n);
      assert bits == bits[..n] + bits[n..];
      var slots, groups := CycleCanBeSent(init, bits[..n]);
      var ws, cs := CanBeSent(init, bits[n..], c - 1, n);
      OneMoreCycle(init, slots, groups, ws, cs);
      wires, cycles := [slots] + ws, [groups] + cs;
    }
  }

  lemma LongEnough(init: AdcInit, count: nat)
    ensures |Encode(Copies(Marked(init), count))| >= count
  {
    var samples := Copies(Marked(init), count);
    EncodeRoundTrip(init, samples);
    assert |Encode(samples)| == count * (8 * init.SampleBytes());
    MulMonotone(1, 8 * init.SampleBytes(), count);
  }

  // Two sets' worth of cycles of such samples.
  lemma MarkedCycles(init: AdcInit, p: nat)
      returns (samples: seq<Sample>, wires: seq<seq<Slot>>, cycles: seq<seq<Bits>>)
    requires init.Fits()
    ensures SentFrom(init, samples, wires, cycles, p) && |cycles| == 2 * init.Cycles()
    ensures samples == Copies(Marked(init), |samples|)
  {
    var n, c := 8 * init.NBytes(), 2 * init.Cycles();
    var start := FirstBit(init, p);
    MulMonotone(0, c, n);
    var length: nat := c * n;
    samples := Copies(Marked(init), start + length);
    LongEnough(init, start + length);
    var e := Encode(samples);
    var bits := e[start..start + length];
    assert bits <= e[start..];
    wires, cycles := CanBeSent(init, bits, c, n);
  }

  /** If it is not, there are samples of which every one behind the old cycles comes
      out wrong. */
  lemma LateSamplesWrong(init: AdcInit, t: Decoder, p: nat)
      returns (samples: seq<Sample>, wires: seq<seq<Slot>>, cycles: seq<seq<Bits>>)
    requires init.Fits() && Valid(init, t) && t.groups == 0 && !Realigns(init, t.cycles, p)
    ensures SentFrom(init, samples, wires, cycles, p)
    ensures Behind(init, t.cycles, SetSize(init)) && SetSize(init) < |Taken(init, t, cycles)|
    ensures forall j :: 0 <= j < |Taken(init, t, cycles)| && Behind(init, t.cycles, j) ==>
      Taken(init, t, cycles)[j] !in samples
  {
    samples, wires, cycles := MarkedCycles(init, p);
    EnoughTaken(init, t, wires, cycles);
    AllLateWrong(init, t, samples, wires, cycles, p);
  }

  lemma EnoughTaken(init: AdcInit, t: Decoder, wires: seq<seq<Slot>>, cycles: seq<seq<Bits>>)
    requires init.Fits() && Valid(init, t) && t.groups == 0 && SendsCycles(init, wires, cycles)
    requires |cycles| == 2 * init.Cycles()
    ensures Behind(init, t.cycles, SetSize(init)) && SetSize(init) < |Taken(init, t, cycles)|
  {
    StoredAreTaken(init, t, wires, cycles);
    SecondSet(init, t.cycles, |cycles|);
  }

  lemma AllLateWrong(init: AdcInit, t: Decoder, samples: seq<Sample>, wires: seq<seq<Slot>>, cycles: seq<seq<Bits>>,
                     p: nat)
    requires init.Fits() && Valid(init, t) && t.groups == 0 && SentFrom(init, samples, wires, cycles, p)
    requires samples == Copies(Marked(init), |samples|) && !Realigns(init, t.cycles, p)
    ensures forall j :: 0 <= j < |Taken(init, t, cycles)| && Behind(init, t.cycles, j) ==>
      Taken(init, t, cycles)[j] !in samples
  {
    forall j | 0 <= j < |Taken(init, t, cycles)| && Behind(init, t.cycles, j)
      ensures Taken(init, t, cycles)[j] !in samples
    {
      LateWrong(init, t, samples, wires, cycles, p, j);
    }
  }

  lemma LateWrong(init: AdcInit, t: Decoder, samples: seq<Sample>, wires: seq<seq<Slot>>, cycles: seq<seq<Bits>>,
                  p: nat, j: nat)
    requires init.Fits() && Valid(init, t) && t.groups == 0 && SentFrom(init, samples, wires, cycles, p)
    requires samples == Copies(Marked(init), |samples|) && !Realigns(init, t.cycles, p)
    requires j < |Taken(init, t, cycles)| && Behind(init, t.cycles, j)
    ensures Taken(init, t, cycles)[j] !in samples
  {
    LateSample(init, t, samples, wires, cycles, p, j);
    CutWrong(init, samples, t.cycles, p, j);
  }

  lemma CutWrong(init: AdcInit, samples: seq<Sample>, q: nat, p: nat, j: nat)
    requires init.Fits() && samples == Copies(Marked(init), |samples|) && !Realigns(init, q, p)
    requires 0 <= Place(init, q, p, j) <= |Encode(samples)| - 8 * init.SampleBytes()
    ensures SampleOf(init.SampleBytes(), Encode(samples)[Place(init, q, p, j)..]) !in samples
  {
    var size, b := init.SampleBytes(), Place(init, q, p, j);
    BrokenShift((p - q) * init.NBytes(), j, size);
    MarkedStream(init, |samples|);
    assert !Encode(samples)[b] && !SampleOf(size, Encode(samples)[b..]).status[7] && Marked(init).status[7];
  }

  lemma BrokenShift(d: int, j: nat, size: nat)
    requires 3 <= size <= 4 && d % size != 0
    ensures 8 * (d + j * size) % (8 * size) != 0
  {
    if size == 3 {} else {}
  }

  lemma SecondSet(init: AdcInit, q: nat, c: nat)
    requires init.Fits() && q < init.Cycles() && c == 2 * init.Cycles()
    ensures Behind(init, q, SetSize(init))
    ensures SetSize(init) < (q + c) / init.Cycles() * SetSize(init)
  {
    Shape(init);
    MulMonotone(q, init.Cycles(), init.NBytes());
    DivMod(q + c, init.Cycles(), 2, q);
  }

  /** Exactly when the stream is moved by a whole number of samples, whatever is
      sent, all samples behind the old cycles are right. */
  lemma RealignsExactly(init: AdcInit, t: Decoder, p: nat)
    requires init.Fits() && Valid(init, t) && t.groups == 0
    ensures Realigns(init, t.cycles, p)
       <==> forall samples, wires, cycles ::
              SentFrom(init, samples, wires, cycles, p) ==> LateRight(init, t, samples, cycles)
  {
    if Realigns(init, t.cycles, p) {
      forall samples, wires, cycles | SentFrom(init, samples, wires, cycles, p)
        ensures LateRight(init, t, samples, cycles)
      {
        LateSamples(init, t, samples, wires, cycles, p);
      }
    } else {
      var samples, wires, cycles := LateSamplesWrong(init, t, p);
      var taken, j := Taken(init, t, cycles), SetSize(init);
      forall shift ensures !Continues(init, t.cycles, samples, taken, shift) {
        assert taken[j] !in samples;
      }
    }
  }

  /** That is so for every loss if a cycle holds whole samples, as it does at the
      even widths. If not, the cycle has to continue the set where it stopped; at
      width 6, where two cycles hold three samples, it may be off by two. */
  lemma WhenRealigned(init: AdcInit, q: nat, p: nat)
    requires init.Fits()
    ensures Realigns(init, q, p)
       <==> init.NBytes() % init.SampleBytes() == 0
            || if init.W() == 6 then (p - q) % 2 == 0 else (p - q) % init.Cycles() == 0
    ensures init.Even() ==> init.NBytes() % init.SampleBytes() == 0
  {
    Moved(p - q, init.NBytes(), init.SampleBytes());
  }

  lemma Moved(d: int, n: nat, size: nat)
    requires 3 <= size <= 4 && 3 <= n <= 7 && (n == 4 ==> size == 4)
    ensures d * n % size == 0 <==> n % size == 0 || if n == 6 then d % 2 == 0 else d % size == 0
  {
    OnlyRemainder(d, n, size);
    Remainders(d % size, n, size);
    if size == 4 { HalfOfFour(d); }
  }

  // A small table.
  lemma Remainders(r: nat, n: nat, size: nat)
    requires 3 <= size <= 4 && 3 <= n <= 7 && (n == 4 ==> size == 4) && r < size
    ensures r * n % size == 0 <==> n % size == 0 || if n == 6 && size == 4 then r % 2 == 0 else r == 0
  {
    if r == 0 {} else if r == 1 {} else if r == 2 {} else {}
  }

  lemma HalfOfFour(d: int)
    ensures d % 2 == d % 4 % 2
  {}

  lemma OnlyRemainder(d: int, n: nat, size: nat)
    requires 3 <= size <= 4
    ensures d * n % size == d % size * n % size
  {
    var a, r := d / size, d % size;
    var b := r * n / size;
    Spread(a, r, n, size);
    if size == 3 { ThreesAndRest(d * n, a * n + b, r * n % 3); } else { FoursAndRest(d * n, a * n + b, r * n % 4); }
  }

  lemma Spread(a: int, r: int, n: int, size: int)
    ensures (a * size + r) * n == a * n * size + r * n
  {}

  lemma ThreesAndRest(x: int, k: int, r: nat)
    requires x == 3 * k + r && r < 3
    ensures x % 3 == r
  {}

  lemma FoursAndRest(x: int, k: int, r: nat)
    requires x == 4 * k + r && r < 4
    ensures x % 4 == r
  {}

  /** Put together: from whatever state and whatever bytes came before, once the
      device sends these cycles, just the samples of the cycles stored are accepted;
      and if the first of these realigns the stream, all behind the cycles that were
      in the buffer are right. */
  lemma SamplesAfterGarbage(init: AdcInit, s: Decoder, garbage: seq<Byte>, samples: seq<Sample>,
                            wires: seq<seq<Slot>>, cycles: seq<seq<Bits>>, p: nat, x: Byte)
    requires init.Fits() && Valid(init, s) && SentFrom(init, samples, wires, cycles, p) && wires != []
    ensures var wire := BytesOf(Join(wires)) + [x];
      var t := Decode(init, s, garbage + [wire[0]]);
      var lost := if t.groups == 0 then 0 else 1;
      var t' := if lost == 0 then t else LoseCycle(init, t);
      Decode(init, s, garbage + wire).out == AcceptAll(init, t'.out, Taken(init, t', cycles[lost..]))
      && (Realigns(init, t.cycles, p + lost) ==> LateRight(init, t', samples, cycles[lost..]))
  {
    var wire := BytesOf(Join(wires)) + [x];
    var t := Decode(init, s, garbage + [wire[0]]);
    Resynchronises(init, s, garbage, wires, cycles, x);
    var lost := if t.groups == 0 then 0 else 1;
    var t' := if lost == 0 then t else LoseCycle(init, t);
    SentLater(init, samples, wires, cycles, p, lost);
    StoredAreTaken(init, t', wires[lost..], cycles[lost..]);
    if Realigns(init, t.cycles, p + lost) {
      LateSamples(init, t', samples, wires[lost..], cycles[lost..], p + lost);
    }
  }

  // Without its first cycle, or with it.
  lemma SentLater(init: AdcInit, samples: seq<Sample>, wires: seq<seq<Slot>>, cycles: seq<seq<Bits>>, p: nat, k: nat)
    requires init.Fits() && SentFrom(init, samples, wires, cycles, p) && wires != [] && k <= 1
    ensures SentFrom(init, samples, wires[k..], cycles[k..], p + k)
  {
    if k == 0 {
      assert wires[0..] == wires && cycles[0..] == cycles;
    } else {
      OneMore(p, 8 * init.NBytes());
      CycleBits(init, wires[0], cycles[0]);
      SkipBits(Encode(samples), FirstBit(init, p), Flat(cycles[0]), AllBits(cycles[1..]));
    }
  }

  lemma SkipBits(e: Bits, start: nat, first: Bits, rest: Bits)
    requires start <= |e| && first + rest <= e[start..]
    ensures start + |first| <= |e| && rest <= e[start + |first|..]
  {
    assert e[start + |first|..] == e[start..][|first|..];
    assert rest == (first + rest)[|first|..];
  }
}
