/**
 The shift register writer: it keeps the levels of all outputs, and puts them on
 its pins of the transmit buffer when they were changed.
 */
module MultiWrite {
  import opened Bits
  import opened FtPins
  import opened FtState
  import opened Options
  import opened Products
  import opened ShiftRegisters
  import opened WriteRequests

  // One output to be set.
  datatype ValveData = ValveData(index: nat, value: bool)

  // Entries with an index out of range are skipped.
  function SetOutputs(data: seq<bool>, entries: seq<ValveData>): (r: seq<bool>)
    ensures |r| == |data|
    decreases |entries|
  {
    if entries == [] then data
    else
      var n := |entries| - 1;
      var before := SetOutputs(data, entries[..n]);
      if entries[n].index < |data| then before[entries[n].index := entries[n].value] else before
  }

  predicate InRange(n: nat, entries: seq<ValveData>) {
    forall k :: 0 <= k < |entries| ==> entries[k].index < n
  }

  /** An output has the level of the last entry for it, or keeps its own. */
  lemma {:induction false} LastEntryCounts(data: seq<bool>, entries: seq<ValveData>, i: nat)
    requires i < |data|
    ensures (forall k :: 0 <= k < |entries| ==> entries[k].index != i) ==> SetOutputs(data, entries)[i] == data[i]
    ensures forall k :: 0 <= k < |entries| && entries[k].index == i
                        && (forall l :: k < l < |entries| ==> entries[l].index != i) ==>
              SetOutputs(data, entries)[i] == entries[k].value
    decreases |entries|
  {
    if entries == [] {
    } else {
      LastEntryCounts(data, entries[..|entries| - 1], i);
    }
  }

  /** A request with a bad index is refused, but what it says about outputs that
      exist is kept all the same: nothing is, for all data, exactly when it names
      no output that exists. */
  lemma RefusedRequestsAreKept(n: nat, entries: seq<ValveData>)
    ensures (forall data: seq<bool> :: |data| == n ==> SetOutputs(data, entries) == data)
       <==> forall k :: 0 <= k < |entries| ==> entries[k].index >= n
  {
    if forall k :: 0 <= k < |entries| ==> entries[k].index >= n {
      forall data: seq<bool> | |data| == n ensures SetOutputs(data, entries) == data { NothingNamed(data, entries); }
    } else {
      var data := SomethingNamed(n, entries);
      assert SetOutputs(data, entries) != data;
    }
  }

  lemma NothingNamed(data: seq<bool>, entries: seq<ValveData>)
    requires forall k :: 0 <= k < |entries| ==> entries[k].index >= |data|
    ensures SetOutputs(data, entries) == data
  {
    forall i | 0 <= i < |data| ensures SetOutputs(data, entries)[i] == data[i] { LastEntryCounts(data, entries, i); }
  }

  lemma SomethingNamed(n: nat, entries: seq<ValveData>) returns (data: seq<bool>)
    requires exists j :: 0 <= j < |entries| && entries[j].index < n
    ensures |data| == n && SetOutputs(data, entries) != data
  {
    var k := LastInRange(n, entries);
    data := seq(n, _ => !entries[k].value);
    LastEntryCounts(data, entries, entries[k].index);
  }

  lemma {:induction false} LastInRange(n: nat, entries: seq<ValveData>) returns (k: nat)
    requires exists j :: 0 <= j < |entries| && entries[j].index < n
    ensures k < |entries| && entries[k].index < n
    ensures forall l :: k < l < |entries| ==> entries[l].index != entries[k].index
    decreases |entries|
  {
    k := |entries| - 1;
    if entries[k].index < n {
    } else {
      k := LastInRange(n, entries[..k]);
    }
  }

  // ---------------------------------------------------------------- the wave

  function WaveSize(init: ValveInit): nat { (init.boards * 8 * 2 + 2) * init.clkPerData }

  lemma {:induction false} UnitCount(init: ValveInit, bits: seq<bool>)
    ensures |BitUnits(init, bits)| == 2 * |bits|
    decreases |bits|
  {
    if bits == [] {
    } else {
      UnitCount(init, bits[..|bits| - 1]);
    }
  }

  lemma WaveLength(init: ValveInit, data: seq<bool>)
    requires |data| == init.Outputs()
    ensures |WriteWave(init, data)| == WaveSize(init)
  {
    UnitCount(init, InOrder(init.boards, data));
    StretchLength(WriteUnits(init, data), init.clkPerData);
  }

  // One more bit of the wave.
  lemma NextBit(init: ValveInit, bits: seq<bool>, k: nat, c: nat)
    requires k < |bits|
    ensures Stretch(BitUnits(init, bits[..k + 1]), c)
         == Stretch(BitUnits(init, bits[..k]), c) + Repeat(DataByte(init, bits[k], true), c)
            + Repeat(DataByte(init, bits[k], false), c)
  {
    var units := BitUnits(init, bits[..k]);
    var high, low := DataByte(init, bits[k], true), DataByte(init, bits[k], false);
    assert bits[..k + 1][..k] == bits[..k];
    assert units + [high, low] == (units + [high]) + [low];
    StretchNext(units, high, c);
    StretchNext(units + [high], low, c);
  }

  lemma LastUnits(init: ValveInit, data: seq<bool>, c: nat)
    requires |data| == init.Outputs() && c == init.clkPerData
    ensures WriteWave(init, data)
         == Stretch(BitUnits(init, InOrder(init.boards, data)), c) + Repeat(ZERO, c) + Repeat(One(init.latch), c)
  {
    var units := BitUnits(init, InOrder(init.boards, data));
    assert units + [ZERO, One(init.latch)] == (units + [ZERO]) + [One(init.latch)];
    StretchNext(units, ZERO, c);
    StretchNext(units + [ZERO], One(init.latch), c);
  }

  method WriteBit(init: ValveInit, buff: array<Byte>, i: nat, c: nat, bit: bool,
                  ghost before: seq<Byte>, ghost wave: seq<Byte>)
    requires init.Fits() && i + 2 * c <= buff.Length && |wave| == i && Masked(before, buff[..], init.Mask(), wave)
    modifies buff
    ensures Masked(before, buff[..], init.Mask(),
                   wave + Repeat(DataByte(init, bit, true), c) + Repeat(DataByte(init, bit, false), c))
  {
    WriteUnit(buff, i, c, init.Mask(), DataByte(init, bit, true), before, wave);
    WriteUnit(buff, i + c, c, init.Mask(), DataByte(init, bit, false), before,
              wave + Repeat(DataByte(init, bit, true), c));
  }

  // Bytes written first go to the furthest board.
  method NextToSend(init: ValveInit, data: seq<bool>, k: nat) returns (bit: bool)
    requires |data| == init.Outputs() && k < |data|
    ensures bit == InOrder(init.boards, data)[k]
  {
    bit := data[(init.boards - 1 - k / 8) * 8 + k % 8];
  }

  // The bits, each for a high and a low clock.
  method WriteBits(init: ValveInit, buff: array<Byte>, data: seq<bool>, ghost before: seq<Byte>, size: nat, m: nat)
      returns (i: nat)
    requires init.Fits() && |data| == init.Outputs() && before == buff[..]
    requires m == 2 * init.clkPerData && size == |data| * m <= buff.Length
    modifies buff
    ensures var wave := Stretch(BitUnits(init, InOrder(init.boards, data)), init.clkPerData);
      i == |wave| == size && Masked(before, buff[..], init.Mask(), wave)
  {
    i := 0;
    var k := 0;
    ghost var bits := InOrder(init.boards, data);
    ghost var wave := [];
    NothingWritten(buff[..], init.Mask());
    assert bits[..0] == [];
    Position(i, k, |bits|, m);
    while i < size
      invariant 0 <= k <= |bits| && i == k * m == |wave|
      invariant wave == Stretch(BitUnits(init, bits[..k]), init.clkPerData)
      invariant Masked(before, buff[..], init.Mask(), wave)
      decreases |bits| - k
    {
      Position(i, k, |bits|, m);
      var bit := NextToSend(init, data, k);
      NextBit(init, bits, k, init.clkPerData);
      WriteBit(init, buff, i, init.clkPerData, bit, before, wave);
      wave := wave + Repeat(DataByte(init, bit, true), init.clkPerData)
                   + Repeat(DataByte(init, bit, false), init.clkPerData);
      i := i + m;
      k := k + 1;
    }
    Position(i, k, |bits|, m);
    assert bits[..|bits|] == bits;
  }

  class CMultiWPeriph {
    const init: ValveInit
    const dwBuff: nat
    const requests: WriteQueue
    var abData: seq<bool>

    ghost predicate Valid()
      reads this
    {
      init.Fits() && |abData| == init.Outputs() && WaveSize(init) <= dwBuff
    }

    constructor (init: ValveInit, dwBuff: nat)
      requires init.Fits() && WaveSize(init) <= dwBuff
      ensures Valid() && fresh(requests) && requests.View() == INITIAL
      ensures this.init == init && this.dwBuff == dwBuff && abData == seq(init.Outputs(), _ => false)
    {
      this.init, this.dwBuff := init, dwBuff;
      abData := seq(init.Outputs(), _ => false);
      requests := new WriteQueue();
    }

    // Makes the wave.
    method MakeWave(buff: array<Byte>)
      requires Valid() && dwBuff <= buff.Length
      modifies buff
      ensures Masked(old(buff[..]), buff[..], init.Mask(), WriteWave(init, abData))
    {
      ghost var before := buff[..];
      var c := init.clkPerData;
      assert init.boards * 8 * 2 * c == init.Outputs() * (2 * c);
      assert WaveSize(init) == init.boards * 8 * 2 * c + 2 * c;
      ghost var wave := Stretch(BitUnits(init, InOrder(init.boards, abData)), c);
      var i := WriteBits(init, buff, abData, before, init.boards * 8 * 2 * c, 2 * c);
      WriteUnit(buff, i, c, init.Mask(), ZERO, before, wave);
      WriteUnit(buff, i + c, c, init.Mask(), One(init.latch), before, wave + Repeat(ZERO, c));
      LastUnits(init, abData, c);
    }

    /** DoWork before a write: the levels of rest over the whole buffer if it is to be
        inactive, a wave of the current data if one is due, and else nothing. */
    method BeforeWrite(buff: array<Byte>)
      requires Valid() && dwBuff <= buff.Length
      modifies requests, buff
      ensures Valid() && abData == old(abData)
      ensures requests.View() == PreWrite(old(requests.View()))
      ensures Masked(old(buff[..]), buff[..], init.Mask(),
                     if old(requests.eState) == Inactivating then Repeat(One(init.latch), dwBuff)
                     else if old(requests.eState == Active && requests.bUpdated) then WriteWave(init, abData)
                     else [])
    {
      if requests.eState == Inactivating {
        requests.Shutdown();
        WriteAll(buff, dwBuff, init.Mask(), One(init.latch));
      } else if requests.eState == Active && requests.bUpdated {
        MakeWave(buff);
        requests.BeginWave();
      }
    }

    /** DoWork after a write: whoever asked is told, the pins go back to rest. */
    method AfterWrite(buff: array<Byte>, error: int)
      requires Valid() && dwBuff <= buff.Length && requests.nProcessed <= |requests.allIds|
      modifies requests, buff
      ensures Valid() && abData == old(abData)
      ensures requests.View() == Answered(old(requests.View()), error)
      ensures Masked(old(buff[..]), buff[..], init.Mask(),
                     if old(requests.eState == Active && requests.bChanged) then Repeat(One(init.latch), WaveSize(init))
                     else [])
    {
      if requests.eState == Active && requests.bChanged {
        requests.Respond(error);
        WriteAll(buff, WaveSize(init), init.Mask(), One(init.latch));
      }
    }

    /** ProcessData: the outputs are set one by one; the request is accepted if
        all of them exist. */
    method ProcessData(entries: seq<ValveData>, id: int) returns (ok: bool)
      requires Valid()
      modifies this, requests
      ensures Valid()
      ensures ok <==>
        old(requests.eState) == Active && forall k :: 0 <= k < |entries| ==> entries[k].index < init.boards * 8
      ensures abData == if old(requests.eState) == Active then SetOutputs(old(abData), entries) else old(abData)
      ensures requests.View() == if ok then Request(old(requests.View()), id) else old(requests.View())
    {
      ok := false;
      if requests.eState == Active {
        ok := true;
        var i := 0;
        assert entries[..0] == [];
        while i < |entries|
          invariant 0 <= i <= |entries| && Valid()
          invariant abData == SetOutputs(old(abData), entries[..i])
          invariant ok <==> InRange(init.Outputs(), entries[..i])
          invariant requests.View() == old(requests.View())
        {
          assert entries[..i + 1][..i] == entries[..i];
          if entries[i].index < |abData| {
            abData := abData[entries[i].index := entries[i].value];
          } else {
            ok := false;
          }
          i := i + 1;
        }
        assert entries[..i] == entries;
        if ok { var _ := requests.Ask(id); }
      }
    }
  }

  // -------------------------------------------------- buffers of one peripheral

  // All bytes of the buffer are at rest on the pins of the peripheral.
  ghost predicate AtRest(init: ValveInit, buff: seq<Byte>)
    requires init.Fits()
  {
    forall i :: 0 <= i < |buff| ==> OnPins(init, buff[i], One(init.latch))
  }

  lemma WrittenOnPins(init: ValveInit, before: Byte, value: Byte)
    requires init.Fits()
    ensures OnPins(init, MaskWrite(before, init.Mask(), value), value)
  {
    var m := init.Mask();
    assert !m[init.clk] && !m[init.data] && !m[init.latch];
  }

  /** What DoWork leaves in the buffer before a write is a wave for the current
      levels if one is due, */
  lemma BufferCarries(init: ValveInit, before: seq<Byte>, after: seq<Byte>, data: seq<bool>, due: bool)
    requires init.Fits() && AtRest(init, before) && |data| == init.Outputs()
    requires Masked(before, after, init.Mask(), if due then WriteWave(init, data) else [])
    ensures Carries(init, after, if due then Some(data) else None)
  {
    forall i | 0 <= i < |after|
      ensures OnPins(init, after[i],
                     if due && i < |WriteWave(init, data)| then WriteWave(init, data)[i] else One(init.latch))
    {
      assert OnPins(init, before[i], One(init.latch));
      if due && i < |WriteWave(init, data)| { WrittenOnPins(init, before[i], WriteWave(init, data)[i]); }
    }
  }

  /** and what it leaves after the write is at rest. */
  lemma BufferRests(init: ValveInit, before: seq<Byte>, after: seq<Byte>, update: Option<seq<bool>>)
    requires init.Fits() && Carries(init, before, update)
    requires Masked(before, after, init.Mask(), if update.Some? then Repeat(One(init.latch), WaveSize(init)) else [])
    ensures AtRest(init, after)
  {
    if update.Some? { WaveLength(init, update.value); }
    forall i | 0 <= i < |after| ensures OnPins(init, after[i], One(init.latch)) {
      if update.Some? && i < WaveSize(init) { WrittenOnPins(init, before[i], One(init.latch)); }
      else { assert OnPins(init, before[i], One(init.latch)); }
    }
  }

  lemma {:induction false} UnitsWithin(init: ValveInit, bits: seq<bool>, k: nat)
    requires init.Fits() && k < |BitUnits(init, bits)|
    ensures Within(init.Mask(), BitUnits(init, bits)[k])
    decreases |bits|
  {
    UnitCount(init, bits);
    var n := |bits| - 1;
    UnitCount(init, bits[..n]);
    if k >= 2 * n {
    } else {
      UnitsWithin(init, bits[..n], k);
    }
  }

  /** The wave stays off the pins of other devices. */
  lemma WaveIsOwn(init: ValveInit, data: seq<bool>, k: nat)
    requires init.Fits() && |data| == init.Outputs() && k < |WriteWave(init, data)|
    ensures Within(init.Mask(), WriteWave(init, data)[k])
  {
    var units := WriteUnits(init, data);
    forall u | 0 <= u < |units| ensures Within(init.Mask(), units[u]) {
      var bits := InOrder(init.boards, data);
      if u < |BitUnits(init, bits)| { UnitsWithin(init, bits, u); }
    }
    StretchWithin(init.Mask(), units, init.clkPerData, k);
  }
}
