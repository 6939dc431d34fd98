/**
 The ADC peripheral: what its constructor builds and its sample extraction,
 proved against `AdcDecoder`.
 */
module AdcPeripheral {
  import opened Bits
  import opened AdcSpec
  import opened AdcDecoder
  import opened AdcTable
  import opened AdcMemory
  import opened AdcPackets
  import opened Products

  // Memory, read from its highest bit down, starts with the decoded bits; up to
  // `clearTo` it is clear behind them.
  ghost predicate BufferOk(m: seq<Byte>, bits: Bits, clearTo: int) {
    && |bits| <= 8 * |m|
    && (forall q :: 0 <= q < |bits| ==> StreamBit(m, q) == bits[q])
    && (forall q :: |bits| <= q < clearTo && q < 8 * |m| ==> !StreamBit(m, q))
  }

  lemma AfterStart(init: AdcInit, m: seq<Byte>, m': seq<Byte>, bits: Bits, b: Byte)
    requires init.Fits() && BlockStarted(init, m, m', |bits|, b) && BufferOk(m, bits, 0)
    requires |bits| + 8 * init.NBytes() <= 8 * |m|
    ensures BufferOk(m', bits + init.GroupBits(b), |bits| + 8 * init.NBytes())
  {
    Shape(init);
    var bits' := bits + init.GroupBits(b);
    forall q | 0 <= q < |bits'| ensures StreamBit(m', q) == bits'[q] {
      if q >= |bits| { assert bits'[q] == init.GroupBits(b)[q - |bits|]; }
    }
  }

  lemma AfterGroup(init: AdcInit, m: seq<Byte>, m': seq<Byte>, bits: Bits, b: Byte, clearTo: int)
    requires init.Fits() && GroupAdded(init, m, m', |bits|, b) && BufferOk(m, bits, clearTo)
    requires |bits| + init.W() <= clearTo <= 8 * |m|
    ensures BufferOk(m', bits + init.GroupBits(b), clearTo)
  {
    var bits' := bits + init.GroupBits(b);
    forall q | 0 <= q < |bits'| ensures StreamBit(m', q) == bits'[q] {
      if q >= |bits| { assert bits'[q] == init.GroupBits(b)[q - |bits|]; }
    }
  }

  lemma WholeBuffer(m: seq<Byte>, bits: Bits, clearTo: int)
    requires BufferOk(m, bits, clearTo) && |bits| == 8 * |m|
    ensures StreamOf(m) == bits
  {}

  // Offset of the block that a set fills first, the highest.
  function TopBlock(init: AdcInit): int
    requires init.Fits()
  {
    Shape(init);
    init.NBytes() * (init.BuffSize() / init.NBytes() - 1) as int
  }

  // The block of the current cycle starts where the complete cycles end.
  lemma BlockStart(init: AdcInit, s: Decoder, offset: int)
    requires init.Fits() && AdcDecoder.Valid(init, s)
    requires offset == init.BuffSize() - init.NBytes() - s.cycles * init.NBytes()
    ensures 0 <= offset && offset + init.NBytes() <= init.BuffSize()
    ensures 8 * (init.BuffSize() - init.NBytes() - offset) == |s.done|
    ensures s.cycles + 1 == init.Cycles() <==> offset == 0
    ensures offset - init.NBytes() == init.BuffSize() - init.NBytes() - (s.cycles + 1) * init.NBytes()
    ensures TopBlock(init) == init.BuffSize() - init.NBytes()
  {
    Shape(init);
    BlocksBelow(init.Cycles(), init.NBytes(), s.cycles, offset);
  }

  lemma BlocksBelow(c: nat, n: nat, k: nat, offset: int)
    requires k < c && n > 0 && offset == c * n - n - k * n
    ensures 0 <= offset <= c * n - n && (k + 1 == c <==> offset == 0)
    ensures 8 * (c * n - n - offset) == k * (8 * n)
    ensures offset - n == c * n - n - (k + 1) * n && n * (c - 1) == c * n - n
  {
    assert c * n == (c - 1 - k) * n + (k + 1) * n;
    assert (k + 1) * n == k * n + n;
    if k + 1 < c { MulMonotone(1, c - 1 - k, n); }
    assert k * (8 * n) == 8 * (k * n);
    assert n * (c - 1) == c * n - n;
  }

  lemma FirstGroupValid(init: AdcInit, s: Decoder, b: Byte)
    requires init.Fits() && AdcDecoder.Valid(init, s) && s.groups == 0
    ensures AdcDecoder.Valid(init, AddGroup(init, s, init.GroupBits(b)))
    ensures AddGroup(init, s, init.GroupBits(b)) == s.(part := init.GroupBits(b), groups := 1)
    ensures s.done + s.part == s.done
  {
    Shape(init);
    AddGroupValid(init, s, init.GroupBits(b));
    assert s.part == [] && [] + init.GroupBits(b) == init.GroupBits(b);
  }

  method BeginCycle(init: AdcInit, m: array<Byte>, offset: int, at: int, e: Bits, ghost b: Byte, ghost s: Decoder)
    requires init.Fits() && AdcDecoder.Valid(init, s) && EntryOk(init, 0, b, e) && at == GroupOffset(init, 0)
    requires m.Length == init.BuffSize() && offset == init.BuffSize() - init.NBytes() - s.cycles * init.NBytes()
    requires BufferOk(m[..], s.done, 0)
    modifies m
    ensures BufferOk(m[..], s.done + init.GroupBits(b), |s.done| + 8 * init.NBytes())
  {
    BlockStart(init, s, offset);
    StoreFirst(init, m, offset, at, e, b, |s.done|);
    AfterStart(init, old(m[..]), m[..], s.done, b);
  }

  method ExtendCycle(init: AdcInit, m: array<Byte>, offset: int, at: int, e: Bits, ghost b: Byte,
                       ghost s: Decoder, j: nat)
    requires init.Fits() && AdcDecoder.Valid(init, s) && s.groups == j > 0
    requires EntryOk(init, j, b, e) && at == GroupOffset(init, j)
    requires m.Length == init.BuffSize() && offset == init.BuffSize() - init.NBytes() - s.cycles * init.NBytes()
    requires BufferOk(m[..], s.done + s.part, |s.done| + 8 * init.NBytes())
    modifies m
    ensures BufferOk(m[..], s.done + (s.part + init.GroupBits(b)), |s.done| + 8 * init.NBytes())
  {
    BlockStart(init, s, offset);
    GroupLengths(init, s);
    CycleLengths(init, s);
    OrEntry(init, m, offset, at, j, e, b, |s.done + s.part|);
    AfterGroup(init, old(m[..]), m[..], s.done + s.part, b, |s.done| + 8 * init.NBytes());
    assert s.done + (s.part + init.GroupBits(b)) == s.done + s.part + init.GroupBits(b);
  }

  // What the buffer must hold in state s.
  ghost predicate Holds(init: AdcInit, s: Decoder, m: seq<Byte>, count: nat, offset: int)
    requires init.Fits()
  {
    && AdcDecoder.Valid(init, s)
    && |m| == init.BuffSize()
    && count == s.groups
    && offset == init.BuffSize() - init.NBytes() - s.cycles * init.NBytes()
    && BufferOk(m, s.done + s.part, if s.groups > 0 then |s.done| + 8 * init.NBytes() else 0)
  }

  lemma InitiallyHolds(init: AdcInit, m: seq<Byte>)
    requires init.Fits() && |m| == init.BuffSize()
    ensures Holds(init, Decoder([], 0, [], 0, EMPTY), m, 0, TopBlock(init))
  {
    Shape(init);
    BlockStart(init, Decoder([], 0, [], 0, EMPTY), TopBlock(init));
  }

  // A group has been stored behind those of s.
  ghost predicate Stored(init: AdcInit, s: Decoder, b: Byte, m: seq<Byte>, offset: int)
    requires init.Fits()
  {
    && AdcDecoder.Valid(init, s) && |m| == init.BuffSize()
    && offset == init.BuffSize() - init.NBytes() - s.cycles * init.NBytes()
    && BufferOk(m, s.done + (s.part + init.GroupBits(b)), |s.done| + 8 * init.NBytes())
  }

  // It leaves the cycle open,
  lemma CycleOpen(init: AdcInit, s: Decoder, b: Byte, m: seq<Byte>, offset: int)
    requires init.Fits() && Stored(init, s, b, m, offset) && s.groups + 1 < init.NGroups()
    ensures Holds(init, AddGroup(init, s, init.GroupBits(b)), m, s.groups + 1, offset)
    ensures AddGroup(init, s, init.GroupBits(b)).out == s.out
  {
    AddGroupValid(init, s, init.GroupBits(b));
  }

  // or completes it,
  lemma CycleDone(init: AdcInit, s: Decoder, b: Byte, m: seq<Byte>, offset: int)
    requires init.Fits() && Stored(init, s, b, m, offset) && s.groups + 1 == init.NGroups() && offset != 0
    ensures offset >= init.NBytes() > 0
    ensures Holds(init, AddGroup(init, s, init.GroupBits(b)), m, 0, offset - init.NBytes())
    ensures AddGroup(init, s, init.GroupBits(b)).out == s.out
  {
    Shape(init);
    BlockStart(init, s, offset);
    var bits := s.done + (s.part + init.GroupBits(b));
    var s' := AddGroup(init, s, init.GroupBits(b));
    AddGroupValid(init, s, init.GroupBits(b));
    assert s' == Decoder(bits, s.cycles + 1, [], 0, s.out);
    assert s'.done + s'.part == bits;
    BlockStart(init, s', offset - init.NBytes());
  }

  // or the set.
  lemma SetDone(init: AdcInit, s: Decoder, b: Byte, m: seq<Byte>, offset: int)
    requires init.Fits() && Stored(init, s, b, m, offset) && s.groups + 1 == init.NGroups() && offset == 0
    ensures Holds(init, AddGroup(init, s, init.GroupBits(b)), m, 0, TopBlock(init))
    ensures AddGroup(init, s, init.GroupBits(b)).out == Drain(init, s.out, m, |m|)
  {
    Shape(init);
    BlockStart(init, s, offset);
    GroupLengths(init, s);
    CycleLengths(init, s);
    var bits := s.done + (s.part + init.GroupBits(b));
    WholeBuffer(m, bits, |s.done| + 8 * init.NBytes());
    DrainAcceptsAll(init, s.out, m, |m|);
    assert m[..|m|] == m;
    AddGroupValid(init, s, init.GroupBits(b));
    assert s.done + (s.part + init.GroupBits(b)) == bits;
  }

  class AdcPeripheral {
    const init: AdcInit
    const table: LookupTable
    const buff: array<Byte>
    var dataCount: nat
    var dataOffset: int
    const out: Packetiser
    // What has been decoded so far.
    ghost var state: Decoder

    ghost predicate Valid()
      reads this, table, table.groups, table.decoded, buff, out, out.data
    {
      && init.Fits() && table.Valid() && table.init == init
      && Holds(init, state, buff[..], dataCount, dataOffset)
      && out.Valid() && out.init == init && out.state == state.out
    }

    constructor (init: AdcInit)
      requires init.Fits()
      ensures Valid() && fresh(table) && fresh(table.groups) && fresh(table.decoded)
      ensures fresh(buff) && fresh(out) && fresh(out.data)
      ensures this.init == init && state == Decoder([], 0, [], 0, EMPTY)
    {
      Shape(init);
      this.init := init;
      var lookup := new LookupTable(init);
      var packets := new Packetiser(init);
      table := lookup;
      out := packets;
      var memory := new Byte[init.BuffSize()];
      InitiallyHolds(init, memory[..]);
      buff := memory;
      dataCount := 0;
      dataOffset := TopBlock(init);
      state := Decoder([], 0, [], 0, EMPTY);
    }

    // A start pair begins a cycle, unless one is still under way: that one is lost.
    method StartPair(b: Byte)
      requires Valid()
      modifies this`dataCount, this`state, buff, out
      ensures Valid() && out.data == old(out.data)
      ensures state == if old(state).groups > 0 then DropCycle(old(state))
                       else AddGroup(init, old(state), init.GroupBits(b))
    {
      if dataCount > 0 {
        DropPart();
      } else {
        var at, e := table.Lookup(0, b);
        BeginCycle(init, buff, dataOffset, at, e, b, state);
        dataCount := 1;
        FirstGroupValid(init, state, b);
        state := AddGroup(init, state, init.GroupBits(b));
      }
    }

    // A bad read ends the cycle.
    method DropPart()
      requires Valid()
      modifies this`dataCount, this`state, out
      ensures Valid() && out.data == old(out.data)
      ensures state == DropCycle(old(state))
    {
      out.CountBad();
      dataCount := 0;
      assert state.done + [] == state.done;
      state := DropCycle(state);
    }

    // A complemented pair inside a cycle: the group joins it.
    method JoinGroup(b: Byte)
      requires Valid() && dataCount > 0
      modifies this`dataCount, this`dataOffset, this`state, buff, out, out.data
      ensures Valid() && (out.data == old(out.data) || fresh(out.data))
      ensures state == AddGroup(init, old(state), init.GroupBits(b))
    {
      var at, e := table.Lookup(dataCount, b);
      ExtendCycle(init, buff, dataOffset, at, e, b, state, dataCount);
      dataCount := dataCount + 1;
      if dataCount == init.NGroups() {
        CompleteCycle(b);
      } else {
        CycleOpen(init, state, b, buff[..], dataOffset);
        state := AddGroup(init, state, init.GroupBits(b));
      }
    }

    // The last group of a cycle has been stored; a full buffer is emptied into packets.
    method CompleteCycle(ghost b: Byte)
      requires init.Fits() && table.Valid() && table.init == init
      requires out.Valid() && out.init == init && out.state == state.out
      requires Stored(init, state, b, buff[..], dataOffset) && state.groups + 1 == init.NGroups()
      modifies this`dataCount, this`dataOffset, this`state, out, out.data
      ensures Valid() && (out.data == old(out.data) || fresh(out.data))
      ensures state == AddGroup(init, old(state), init.GroupBits(b))
    {
      NextBlock(b);
      state := AddGroup(init, state, init.GroupBits(b));
    }

    method NextBlock(ghost b: Byte)
      requires init.Fits() && out.Valid() && out.init == init && out.state == state.out
      requires Stored(init, state, b, buff[..], dataOffset) && state.groups + 1 == init.NGroups()
      modifies this`dataCount, this`dataOffset, out, out.data
      ensures out.Valid() && (out.data == old(out.data) || fresh(out.data))
      ensures var s := AddGroup(init, state, init.GroupBits(b));
        Holds(init, s, buff[..], dataCount, dataOffset) && out.state == s.out
    {
      dataCount := 0;
      if dataOffset == 0 {
        SetDone(init, state, b, buff[..], dataOffset);
      } else {
        CycleDone(init, state, b, buff[..], dataOffset);
      }
      dataOffset := dataOffset - init.NBytes();
      if dataOffset + init.NBytes() == 0 {
        dataOffset := TopBlock(init);
        EmitSamples(buff[..]);
      }
    }

    /** Two successive bytes of the read buffer. */
    method StepByte(a: Byte, b: Byte)
      requires Valid()
      modifies this`dataCount, this`dataOffset, this`state, buff, out, out.data
      ensures Valid() && (out.data == old(out.data) || fresh(out.data))
      ensures state == Step(init, old(state), a, b)
    {
      match Classify(init, a, b)
      case Start => StartPair(a);
      case Idle =>
      case Complement => if dataCount > 0 { JoinGroup(a); } else { DropPart(); }
      case Corrupt => DropPart();
    }

    /** The bytes rx[0 .. count], each with its successor: rx holds one byte more. */
    method ExtractData(rx: array<Byte>, count: nat)
      requires Valid() && count < rx.Length && rx != buff
      modifies this`dataCount, this`dataOffset, this`state, buff, out, out.data
      ensures Valid() && (out.data == old(out.data) || fresh(out.data))
      ensures state == Decode(init, old(state), rx[..count + 1])
    {
      var i := 0;
      while i < count
        invariant 0 <= i <= count
        invariant Valid() && (out.data == old(out.data) || fresh(out.data))
        invariant rx[..] == old(rx[..])
        invariant Decode(init, old(state), rx[..count + 1]) == Decode(init, state, rx[i..count + 1])
      {
        ghost var rest := rx[i..count + 1];
        assert rest[0] == rx[i] && rest[1] == rx[i + 1] && rest[1..] == rx[i + 1..count + 1];
        StepByte(rx[i], rx[i + 1]);
        i := i + 1;
      }
    }

    // The samples of the full buffer m, from its top down.
    method EmitSamples(m: seq<Byte>)
      requires init.Fits() && out.Valid() && out.init == init && |m| == init.BuffSize()
      modifies out, out.data
      ensures out.Valid() && (out.data == old(out.data) || fresh(out.data))
      ensures out.state == Drain(init, old(out.state), m, |m|)
    {
      var top := |m|;
      while top >= init.SampleBytes()
        invariant 0 <= top <= |m|
        invariant out.Valid() && (out.data == old(out.data) || fresh(out.data))
        invariant Drain(init, old(out.state), m, |m|) == Drain(init, out.state, m, top)
      {
        out.AcceptSample(m[top - 1], Point(m[top - init.SampleBytes()..top - 1]));
        top := top - init.SampleBytes();
      }
    }
  }

  // The output once the samples of the lowest `top` bytes of memory are accepted.
  ghost function Drain(init: AdcInit, o: Output, m: seq<Byte>, top: nat): Output
    requires top <= |m|
    decreases top
  {
    if top < init.SampleBytes() then o
    else
      var low := top - init.SampleBytes();
      Drain(init, Accept(init, o, Sample(m[top - 1], Point(m[low..top - 1]))), m, low)
  }

  /** Walking the buffer down accepts the samples of the stream in order. */
  lemma {:induction false} DrainAcceptsAll(init: AdcInit, o: Output, m: seq<Byte>, top: nat)
    requires top <= |m|
    ensures Drain(init, o, m, top) == AcceptAll(init, o, SamplesOf(init.SampleBytes(), StreamOf(m[..top])))
    decreases top
  {
    var size := init.SampleBytes();
    if top < size {
    } else {
      var low := top - size;
      SampleInMemory(m, size, low);
      var rest := SamplesOf(size, StreamOf(m[..low]));
      var first := Sample(m[top - 1], Point(m[low..top - 1]));
      assert SamplesOf(size, StreamOf(m[..top])) == [first] + rest;
      assert ([first] + rest)[1..] == rest;
      DrainAcceptsAll(init, Accept(init, o, first), m, low);
    }
  }
}
