/**
 The device's side of the wire, and what the decoder makes of it: every cycle
 that arrives whole is stored, whatever idle bytes lie between its groups and
 whatever the other pins of the bus do.
 */
module AdcWire {
  import opened Bits
  import opened AdcSpec
  import opened AdcDecoder
  import opened Sequences

  // The bus while the ADC is read: the clock is high, or low for one byte and
  // then high again.
  datatype Slot = High(b: Byte) | Pair(lo: Byte, hi: Byte)

  function BytesOf(slots: seq<Slot>): seq<Byte> {
    if slots == [] then []
    else SlotBytes(slots[0]) + BytesOf(slots[1..])
  }

  function SlotBytes(slot: Slot): seq<Byte> {
    match slot case High(b) => [b] case Pair(lo, hi) => [lo, hi]
  }

  // Nothing is sent: the data pins do not change while the clock is low.
  predicate IdleSlot(init: AdcInit, s: Slot)
    requires init.Fits()
  {
    match s
    case High(b) => b[init.clk]
    case Pair(lo, hi) => !lo[init.clk] && hi[init.clk] && SameData(init, lo, hi)
  }

  // A group is sent, and then its complement; the first group of a cycle is
  // marked by a first bit that is not complemented.
  predicate GroupSlot(init: AdcInit, s: Slot, group: Bits, first: bool)
    requires init.Fits()
  {
    s.Pair? && init.GroupBits(s.lo) == group && Opposed(init, s.lo, s.hi, if first then 1 else 0)
  }

  // The slots send these groups, in order, with idle slots anywhere around them.
  predicate Sends(init: AdcInit, slots: seq<Slot>, groups: seq<Bits>, first: bool)
    requires init.Fits()
    decreases |slots|
  {
    if slots == [] then groups == []
    else (IdleSlot(init, slots[0]) && Sends(init, slots[1..], groups, first))
         || (groups != [] && GroupSlot(init, slots[0], groups[0], first) && Sends(init, slots[1..], groups[1..], false))
  }

  // A whole cycle.
  predicate SendsCycle(init: AdcInit, slots: seq<Slot>, groups: seq<Bits>)
    requires init.Fits()
  {
    |groups| == init.NGroups() && Sends(init, slots, groups, true)
  }

  // --------------------------------------------------------------- decoding

  predicate Clocked(init: AdcInit, slots: seq<Slot>)
    requires init.Fits()
  {
    forall k :: 0 <= k < |slots| ==>
      match slots[k] case High(b) => b[init.clk] case Pair(lo, hi) => hi[init.clk]
  }

  lemma {:induction false} SendsClocked(init: AdcInit, slots: seq<Slot>, groups: seq<Bits>, first: bool)
    requires init.Fits() && Sends(init, slots, groups, first)
    ensures Clocked(init, slots)
    decreases |slots|
  {
    if slots == [] {
    } else {
      if IdleSlot(init, slots[0]) && Sends(init, slots[1..], groups, first) {
        SendsClocked(init, slots[1..], groups, first);
      } else {
        SendsClocked(init, slots[1..], groups[1..], false);
      }
      assert forall k :: 1 <= k < |slots| ==> slots[k] == slots[1..][k - 1];
    }
  }

  function DecodeSlot(init: AdcInit, s: Decoder, slot: Slot): (r: Decoder)
    requires init.Fits() && Valid(init, s)
    ensures Valid(init, r)
  {
    match slot
    case High(_) => s
    case Pair(lo, hi) => Step(init, s, lo, hi)
  }

  function DecodeSlots(init: AdcInit, s: Decoder, slots: seq<Slot>): (r: Decoder)
    requires init.Fits() && Valid(init, s)
    ensures Valid(init, r)
    decreases |slots|
  {
    if slots == [] then s else DecodeSlots(init, DecodeSlot(init, s, slots[0]), slots[1..])
  }

  // A byte with the clock high changes nothing, whatever follows it.
  lemma HighIsIdle(init: AdcInit, s: Decoder, a: Byte, b: Byte)
    requires init.Fits() && Valid(init, s) && a[init.clk]
    ensures Step(init, s, a, b) == s
  {
    ClassifyMeaning(init, a, b);
  }

  // Bytes up to one with the clock high are decoded on their own.
  lemma {:induction false} DecodeAppend(init: AdcInit, s: Decoder, rx: seq<Byte>, more: seq<Byte>)
    requires init.Fits() && Valid(init, s) && rx != [] && rx[|rx| - 1][init.clk]
    ensures Decode(init, s, rx + more) == Decode(init, Decode(init, s, rx), more)
    decreases |rx|
  {
    var all := rx + more;
    if |rx| == 1 {
      if more == [] {
        assert all == rx;
      } else {
        assert all[0] == rx[0] && all[1] == more[0] && all[1..] == more;
        HighIsIdle(init, s, all[0], all[1]);
      }
    } else {
      assert all[0] == rx[0] && all[1] == rx[1] && all[1..] == rx[1..] + more;
      DecodeAppend(init, Step(init, s, rx[0], rx[1]), rx[1..], more);
    }
  }

  /** Any bytes at all are decoded up to the byte that follows them, and what
      follows from there. */
  lemma {:induction false} DecodeJoin(init: AdcInit, s: Decoder, rx: seq<Byte>, more: seq<Byte>)
    requires init.Fits() && Valid(init, s) && more != []
    ensures Decode(init, s, rx + more) == Decode(init, Decode(init, s, rx + [more[0]]), more)
    decreases |rx|
  {
    if rx == [] {
      assert rx + more == more && rx + [more[0]] == [more[0]];
    } else {
      var all, head := rx + more, rx + [more[0]];
      assert all[0] == rx[0] == head[0] && all[1] == head[1];
      assert all[1..] == rx[1..] + more && head[1..] == rx[1..] + [more[0]];
      DecodeJoin(init, Step(init, s, all[0], all[1]), rx[1..], more);
    }
  }

  /** Buffers that end with the clock high may be decoded one by one: the
      result is that of their concatenation, and the spare byte after each of
      them plays no part. */
  lemma SplitInvariance(init: AdcInit, s: Decoder, rx: seq<Byte>, ry: seq<Byte>, x: Byte, y: Byte)
    requires init.Fits() && Valid(init, s) && rx != [] && rx[|rx| - 1][init.clk]
    ensures Decode(init, Decode(init, s, rx + [x]), ry + [y]) == Decode(init, s, rx + ry + [y])
  {
    DecodeAppend(init, s, rx, [x]);
    DecodeAppend(init, s, rx, ry + [y]);
    assert rx + (ry + [y]) == rx + ry + [y];
  }

  function Concat(buffers: seq<seq<Byte>>): seq<Byte> {
    if buffers == [] then [] else buffers[0] + Concat(buffers[1..])
  }

  // One buffer after the other, each with the spare byte that happens to follow it.
  function DecodeReads(init: AdcInit, s: Decoder, buffers: seq<seq<Byte>>, spares: seq<Byte>): (r: Decoder)
    requires init.Fits() && Valid(init, s) && |spares| == |buffers|
    ensures Valid(init, r)
    decreases |buffers|
  {
    if buffers == [] then s
    else DecodeReads(init, Decode(init, s, buffers[0] + [spares[0]]), buffers[1..], spares[1..])
  }

  // Every buffer ends with the clock high.
  ghost predicate EndHigh(init: AdcInit, buffers: seq<seq<Byte>>)
    requires init.Fits()
  {
    forall k :: 0 <= k < |buffers| ==> buffers[k] != [] && buffers[k][|buffers[k]| - 1][init.clk]
  }

  /** So any number of buffers are decoded as if they were one, whatever the
      spare byte of each. */
  lemma {:induction false} ReadsAsOne(init: AdcInit, s: Decoder, buffers: seq<seq<Byte>>, spares: seq<Byte>, x: Byte)
    requires init.Fits() && Valid(init, s) && |spares| == |buffers| && EndHigh(init, buffers)
    ensures DecodeReads(init, s, buffers, spares) == Decode(init, s, Concat(buffers) + [x])
    decreases |buffers|
  {
    if buffers == [] {
      assert Concat(buffers) + [x] == [x];
    } else {
      SplitInvariance(init, s, buffers[0], Concat(buffers[1..]), spares[0], x);
      assert buffers[0] + Concat(buffers[1..]) + [x] == Concat(buffers) + [x];
      assert forall k :: 0 <= k < |buffers| - 1 ==> buffers[1..][k] == buffers[k + 1];
      ReadsAsOne(init, Decode(init, s, buffers[0] + [spares[0]]), buffers[1..], spares[1..], x);
    }
  }

  lemma DecodeOneSlot(init: AdcInit, s: Decoder, slot: Slot, more: seq<Byte>)
    requires init.Fits() && Valid(init, s) && Clocked(init, [slot])
    ensures Decode(init, s, SlotBytes(slot) + more) == Decode(init, DecodeSlot(init, s, slot), more)
  {
    var bytes := SlotBytes(slot);
    assert Clocked(init, [slot]) ==> bytes[|bytes| - 1][init.clk] by { assert [slot][0] == slot; }
    DecodeAppend(init, s, bytes, more);
    if slot.Pair? { assert bytes[1..] == [slot.hi]; }
  }

  /** Decoding the bytes of clocked slots decodes slot by slot; the byte after
      the last one plays no part. */
  lemma {:induction false} DecodeBySlot(init: AdcInit, s: Decoder, slots: seq<Slot>, x: Byte)
    requires init.Fits() && Valid(init, s) && Clocked(init, slots)
    ensures Decode(init, s, BytesOf(slots) + [x]) == DecodeSlots(init, s, slots)
    decreases |slots|
  {
    if slots == [] {
    } else {
      var rest := BytesOf(slots[1..]) + [x];
      assert BytesOf(slots) + [x] == SlotBytes(slots[0]) + rest;
      ClockedTail(init, slots);
      DecodeOneSlot(init, s, slots[0], rest);
      DecodeBySlot(init, DecodeSlot(init, s, slots[0]), slots[1..], x);
    }
  }

  lemma ClockedTail(init: AdcInit, slots: seq<Slot>)
    requires init.Fits() && slots != [] && Clocked(init, slots)
    ensures Clocked(init, [slots[0]]) && Clocked(init, slots[1..])
  {
    forall k | 0 <= k < |slots| - 1 ensures slots[1..][k] == slots[k + 1] {}
  }

  lemma {:induction false} DecodeSlotsAppend(init: AdcInit, s: Decoder, a: seq<Slot>, b: seq<Slot>)
    requires init.Fits() && Valid(init, s)
    ensures DecodeSlots(init, s, a + b) == DecodeSlots(init, DecodeSlots(init, s, a), b)
    decreases |a|
  {
    if a == [] {
      assert a + b == b;
    } else {
      assert (a + b)[0] == a[0] && (a + b)[1..] == a[1..] + b;
      DecodeSlotsAppend(init, DecodeSlot(init, s, a[0]), a[1..], b);
    }
  }

  lemma ClockedAppend(init: AdcInit, a: seq<Slot>, b: seq<Slot>)
    requires init.Fits() && Clocked(init, a) && Clocked(init, b)
    ensures Clocked(init, a + b)
  {
    forall k | 0 <= k < |a + b|
      ensures match (a + b)[k] case High(x) => x[init.clk] case Pair(lo, hi) => hi[init.clk]
    {
      if k < |a| { assert (a + b)[k] == a[k]; } else { assert (a + b)[k] == b[k - |a|]; }
    }
  }

  // ----------------------------------------------------------------- cycles

  function Flat(groups: seq<Bits>): Bits {
    if groups == [] then [] else groups[0] + Flat(groups[1..])
  }

  // A whole cycle is stored behind the cycles before it.
  function StoreCycle(init: AdcInit, s: Decoder, cycle: Bits): Decoder
    requires init.Fits()
  {
    if s.cycles + 1 < init.Cycles() then Decoder(s.done + cycle, s.cycles + 1, [], 0, s.out)
    else Decoder([], 0, [], 0, AcceptAll(init, s.out, SamplesOf(init.SampleBytes(), s.done + cycle)))
  }

  lemma SlotMeaning(init: AdcInit, s: Decoder, slot: Slot, group: Bits, first: bool)
    requires init.Fits() && Valid(init, s)
    ensures IdleSlot(init, slot) ==> DecodeSlot(init, s, slot) == s
    ensures GroupSlot(init, slot, group, first) && first == (s.groups == 0) ==>
              DecodeSlot(init, s, slot) == AddGroup(init, s, group)
    ensures GroupSlot(init, slot, group, first) && first != (s.groups == 0) ==>
              DecodeSlot(init, s, slot) == DropCycle(s)
  {
    if slot.Pair? { ClassifyMeaning(init, slot.lo, slot.hi); }
  }

  lemma GroupThenRest(init: AdcInit, s: Decoder, group: Bits, rest: Bits)
    requires init.Fits() && s.groups < init.NGroups()
    ensures s.groups + 1 < init.NGroups() ==>
      StoreCycle(init, AddGroup(init, s, group), AddGroup(init, s, group).part + rest)
      == StoreCycle(init, s, s.part + (group + rest))
    ensures s.groups + 1 == init.NGroups() ==> AddGroup(init, s, group) == StoreCycle(init, s, s.part + (group + []))
  {
    assert s.part + group + rest == s.part + (group + rest);
    assert group + [] == group;
  }

  // The groups that are still to come complete the cycle.
  lemma {:induction false} RestOfCycle(init: AdcInit, s: Decoder, slots: seq<Slot>, groups: seq<Bits>, first: bool)
    requires init.Fits() && Valid(init, s) && Sends(init, slots, groups, first) && first == (s.groups == 0)
    requires groups != [] && s.groups + |groups| == init.NGroups()
    ensures DecodeSlots(init, s, slots) == StoreCycle(init, s, s.part + Flat(groups))
    decreases |slots|, 0
  {
    if IdleSlot(init, slots[0]) && Sends(init, slots[1..], groups, first) {
      SlotMeaning(init, s, slots[0], [], first);
      RestOfCycle(init, s, slots[1..], groups, first);
    } else {
      SlotMeaning(init, s, slots[0], groups[0], first);
      AfterOneGroup(init, s, slots[1..], groups);
    }
  }

  lemma {:induction false} AfterOneGroup(init: AdcInit, s: Decoder, slots: seq<Slot>, groups: seq<Bits>)
    requires init.Fits() && Valid(init, s) && groups != [] && s.groups + |groups| == init.NGroups()
    requires Sends(init, slots, groups[1..], false) && |groups[0]| == init.W()
    ensures Valid(init, AddGroup(init, s, groups[0]))
    ensures DecodeSlots(init, AddGroup(init, s, groups[0]), slots) == StoreCycle(init, s, s.part + Flat(groups))
    decreases |slots|, 1
  {
    var s1 := AddGroup(init, s, groups[0]);
    AddGroupValid(init, s, groups[0]);
    GroupThenRest(init, s, groups[0], Flat(groups[1..]));
    if |groups| > 1 {
      RestOfCycle(init, s1, slots, groups[1..], false);
    } else {
      IdleTail(init, s1, slots);
    }
  }

  lemma {:induction false} IdleTail(init: AdcInit, s: Decoder, slots: seq<Slot>)
    requires init.Fits() && Valid(init, s) && Sends(init, slots, [], false)
    ensures DecodeSlots(init, s, slots) == s
    decreases |slots|
  {
    if slots == [] {
    } else {
      SlotMeaning(init, s, slots[0], [], false);
      IdleTail(init, s, slots[1..]);
    }
  }

  /** A whole cycle that arrives while none is under way is stored. */
  lemma CycleStored(init: AdcInit, s: Decoder, slots: seq<Slot>, groups: seq<Bits>)
    requires init.Fits() && Valid(init, s) && s.groups == 0 && SendsCycle(init, slots, groups)
    ensures DecodeSlots(init, s, slots) == StoreCycle(init, s, Flat(groups))
  {
    Shape(init);
    RestOfCycle(init, s, slots, groups, true);
    assert s.part == [] && [] + Flat(groups) == Flat(groups);
  }

  /** The part of a cycle that has arrived so far is kept, and completes nothing. */
  lemma {:induction false} PartKept(init: AdcInit, s: Decoder, slots: seq<Slot>, groups: seq<Bits>, first: bool)
    requires init.Fits() && Valid(init, s) && Sends(init, slots, groups, first) && first == (s.groups == 0)
    requires s.groups + |groups| < init.NGroups()
    ensures DecodeSlots(init, s, slots) == s.(part := s.part + Flat(groups), groups := s.groups + |groups|)
    decreases |slots|
  {
    if slots == [] {
      assert s.part + [] == s.part;
    } else if IdleSlot(init, slots[0]) && Sends(init, slots[1..], groups, first) {
      SlotMeaning(init, s, slots[0], [], first);
      PartKept(init, s, slots[1..], groups, first);
    } else {
      SlotMeaning(init, s, slots[0], groups[0], first);
      PartKept(init, AddGroup(init, s, groups[0]), slots[1..], groups[1..], false);
      Regrouped(s.part, groups[0], Flat(groups[1..]));
    }
  }

  // n bad reads.
  function BadReads(o: Output, n: nat): Output
    decreases n
  {
    if n == 0 then o else BadReads(Bad(o), n - 1)
  }

  /** They are counted, modulo the width of the counter, and nothing else changes. */
  lemma {:induction false} BadReadsCount(o: Output, n: nat)
    requires n > 0
    ensures BadReads(o, n) == o.(badRead := (o.badRead + n) % 0x1_0000)
    decreases n
  {
    if n == 1 {
    } else {
      BadReadsCount(Bad(o), n - 1);
      BadInTurn(o.badRead, n - 1, 0x1_0000);
    }
  }

  lemma BadInTurn(a: nat, n: nat, m: nat)
    requires m == 0x1_0000
    ensures ((a + 1) % m + n) % m == (a + 1 + n) % m
  {}

  // With no cycle under way, groups that do not start one are bad reads.
  lemma {:induction false} GroupsWithoutStart(init: AdcInit, s: Decoder, slots: seq<Slot>, groups: seq<Bits>)
    requires init.Fits() && Valid(init, s) && s.groups == 0 && Sends(init, slots, groups, false)
    ensures DecodeSlots(init, s, slots) == s.(out := BadReads(s.out, |groups|))
    decreases |slots|
  {
    if slots == [] {
    } else {
      if IdleSlot(init, slots[0]) && Sends(init, slots[1..], groups, false) {
        SlotMeaning(init, s, slots[0], [], false);
        GroupsWithoutStart(init, s, slots[1..], groups);
      } else {
        SlotMeaning(init, s, slots[0], groups[0], false);
        assert DropCycle(s) == s.(out := Bad(s.out));
        GroupsWithoutStart(init, DropCycle(s), slots[1..], groups[1..]);
      }
    }
  }

  /** A whole cycle that arrives while another is under way is lost with it:
      one bad read for each of its groups, and nothing else changes. */
  lemma {:induction false} CycleLost(init: AdcInit, s: Decoder, slots: seq<Slot>, groups: seq<Bits>)
    requires init.Fits() && Valid(init, s) && s.groups > 0 && Sends(init, slots, groups, true) && groups != []
    ensures DecodeSlots(init, s, slots) == s.(part := [], groups := 0, out := BadReads(s.out, |groups|))
    decreases |slots|
  {
    if IdleSlot(init, slots[0]) && Sends(init, slots[1..], groups, true) {
      SlotMeaning(init, s, slots[0], [], true);
      CycleLost(init, s, slots[1..], groups);
    } else {
      SlotMeaning(init, s, slots[0], groups[0], true);
      GroupsWithoutStart(init, DropCycle(s), slots[1..], groups[1..]);
    }
  }

  // ------------------------------------------------------------ corrupt pairs

  // The data pins change while the clock is low, but not to a complement, with
  // or without the mark of a first group.
  predicate CorruptPair(init: AdcInit, a: Byte, b: Byte)
    requires init.Fits()
  {
    !a[init.clk] && !SameData(init, a, b) && !Opposed(init, a, b, 0) && !Opposed(init, a, b, 1)
  }

  /** Such a pair ends the cycle under way, if any, and is a bad read; nothing else
      changes. */
  lemma CorruptDrops(init: AdcInit, s: Decoder, a: Byte, b: Byte)
    requires init.Fits() && Valid(init, s) && CorruptPair(init, a, b)
    ensures Decode(init, s, [a, b])
         == Decoder(s.done, s.cycles, [], 0, s.out.(badRead := (s.out.badRead + 1) % 0x1_0000))
  {
    ClassifyMeaning(init, a, b);
    assert [a, b][1..] == [b];
  }

  // Slots before and behind a corrupt pair.
  function Spoiled(before: seq<Slot>, lo: Byte, hi: Byte, after: seq<Slot>): seq<Slot> {
    before + [Pair(lo, hi)] + after
  }

  /** A cycle with a corrupt pair in it delivers nothing: the groups before the pair
      are dropped, and the pair and every group behind it is a bad read. */
  lemma CycleSpoiled(init: AdcInit, s: Decoder, before: seq<Slot>, groups: seq<Bits>, lo: Byte, hi: Byte,
                     after: seq<Slot>, rest: seq<Bits>, x: Byte)
    requires init.Fits() && Valid(init, s) && s.groups == 0
    requires Sends(init, before, groups, true) && |groups| < init.NGroups()
    requires CorruptPair(init, lo, hi) && hi[init.clk] && Sends(init, after, rest, false)
    ensures Decode(init, s, BytesOf(Spoiled(before, lo, hi, after)) + [x])
         == s.(part := [], out := BadReads(s.out, 1 + |rest|))
  {
    PartThenPair(init, s, before, groups, lo, hi);
    BehindPair(init, s, before, lo, hi, after, rest);
    SpoiledClocked(init, before, groups, lo, hi, after, rest);
    DecodeBySlot(init, s, Spoiled(before, lo, hi, after), x);
  }

  lemma PairDrops(init: AdcInit, t: Decoder, lo: Byte, hi: Byte)
    requires init.Fits() && Valid(init, t) && CorruptPair(init, lo, hi)
    ensures DecodeSlot(init, t, Pair(lo, hi)) == Decoder(t.done, t.cycles, [], 0, Bad(t.out))
  {
    CorruptDrops(init, t, lo, hi);
    assert [lo, hi][1..] == [hi];
  }

  lemma BehindPair(init: AdcInit, s: Decoder, before: seq<Slot>, lo: Byte, hi: Byte, after: seq<Slot>,
                   rest: seq<Bits>)
    requires init.Fits() && Valid(init, s) && s.groups == 0 && Sends(init, after, rest, false)
    requires DecodeSlot(init, DecodeSlots(init, s, before), Pair(lo, hi)) == s.(part := [], out := Bad(s.out))
    ensures DecodeSlots(init, s, Spoiled(before, lo, hi, after)) == s.(part := [], out := BadReads(s.out, 1 + |rest|))
  {
    var u := s.(part := [], out := Bad(s.out));
    SpoiledSlots(init, s, before, lo, hi, after);
    NothingUnderWay(init, s);
    GroupsWithoutStart(init, u, after, rest);
  }

  lemma NothingUnderWay(init: AdcInit, s: Decoder)
    requires init.Fits() && Valid(init, s) && s.groups == 0
    ensures s.part == [] && forall o :: Valid(init, s.(part := [], out := o))
  {
    assert 0 * init.W() == 0;
  }

  lemma PartThenPair(init: AdcInit, s: Decoder, before: seq<Slot>, groups: seq<Bits>, lo: Byte, hi: Byte)
    requires init.Fits() && Valid(init, s) && s.groups == 0 && CorruptPair(init, lo, hi)
    requires Sends(init, before, groups, true) && |groups| < init.NGroups()
    ensures DecodeSlot(init, DecodeSlots(init, s, before), Pair(lo, hi)) == s.(part := [], out := Bad(s.out))
  {
    PartKept(init, s, before, groups, true);
    PairDrops(init, DecodeSlots(init, s, before), lo, hi);
  }

  lemma SpoiledSlots(init: AdcInit, s: Decoder, before: seq<Slot>, lo: Byte, hi: Byte, after: seq<Slot>)
    requires init.Fits() && Valid(init, s)
    ensures DecodeSlots(init, s, Spoiled(before, lo, hi, after))
         == DecodeSlots(init, DecodeSlot(init, DecodeSlots(init, s, before), Pair(lo, hi)), after)
  {
    DecodeSlotsAppend(init, s, before, [Pair(lo, hi)] + after);
    Regrouped(before, [Pair(lo, hi)], after);
    assert ([Pair(lo, hi)] + after)[1..] == after;
  }

  lemma SpoiledClocked(init: AdcInit, before: seq<Slot>, groups: seq<Bits>, lo: Byte, hi: Byte,
                       after: seq<Slot>, rest: seq<Bits>)
    requires init.Fits() && Sends(init, before, groups, true) && Sends(init, after, rest, false) && hi[init.clk]
    ensures Clocked(init, Spoiled(before, lo, hi, after))
  {
    SendsClocked(init, before, groups, true);
    SendsClocked(init, after, rest, false);
    ClockedAppend(init, before, [Pair(lo, hi)]);
    ClockedAppend(init, before + [Pair(lo, hi)], after);
  }
}
