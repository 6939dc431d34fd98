/**
 The reading peripherals: the shift register reader, which clocks its chain on
 the bus and picks the levels of its data pin out of what was read, and the pin
 reader, which needs no wave.
 */
module MultiRead {
  import opened Bits
  import opened FtPins
  import opened FtState
  import opened Products
  import opened ReadRequests
  import opened ShiftRegisters

  // All requests of the round that are left, one after the other.
  function ReportRest(r: Readers): Readers
    decreases r.processed - Done(r)
  {
    if r.task.Reporting? && r.task.j < r.processed && r.task.j < |r.ids| then ReportRest(Apply(r, ReportNext)) else r
  }

  // The same when data is sent; `ok` says which clients could be reached.
  function ShareRest(r: Readers, ok: seq<bool>): Readers
    decreases r.processed - Done(r)
  {
    if r.task.Sharing? && r.task.j < r.processed && r.task.j < |r.ids| && r.task.j < |ok|
    then ShareRest(Apply(r, ShareNext(ok[r.task.j])), ok) else r
  }

  predicate IsShare(s: Step, ok: seq<bool>, i: nat) {
    i < |ok| && s == ShareNext(ok[i])
  }

  // These steps send to the requests from j on.
  predicate AreShares(steps: seq<Step>, ok: seq<bool>, j: nat) {
    forall k :: 0 <= k < |steps| ==> IsShare(steps[k], ok, j + k)
  }

  /** A round of the thread is the run of its single steps, one for each request
      that was counted. */
  lemma {:induction false} ReportRestRuns(r: Readers) returns (steps: seq<Step>)
    ensures Run(r, steps, ReportRest(r))
    ensures forall k :: 0 <= k < |steps| ==> steps[k] == ReportNext
    ensures r.task.Reporting? && r.task.j <= r.processed <= |r.ids| ==> |steps| == r.processed - r.task.j
    decreases r.processed - Done(r)
  {
    if !(r.task.Reporting? && r.task.j < r.processed && r.task.j < |r.ids|) {
      steps := [];
    } else {
      var rest := ReportRestRuns(Apply(r, ReportNext));
      steps := [ReportNext] + rest;
      assert steps[1..] == rest;
    }
  }

  lemma {:induction false} ShareRestRuns(r: Readers, ok: seq<bool>) returns (steps: seq<Step>)
    ensures Run(r, steps, ShareRest(r, ok))
    ensures r.task.Sharing? ==> AreShares(steps, ok, r.task.j)
    ensures r.task.Sharing? && r.task.j <= r.processed <= |r.ids| && r.processed <= |ok| ==>
      |steps| == r.processed - r.task.j
    decreases r.processed - Done(r)
  {
    if !(r.task.Sharing? && r.task.j < r.processed && r.task.j < |r.ids| && r.task.j < |ok|) {
      steps := [];
    } else {
      var next := ShareNext(ok[r.task.j]);
      var rest := ShareRestRuns(Apply(r, next), ok);
      steps := [next] + rest;
      assert steps[1..] == rest;
      assert Apply(r, next).task == Sharing(r.task.j + 1);
      forall k | 0 <= k < |steps| ensures IsShare(steps[k], ok, r.task.j + k) {
        if k > 0 { assert IsShare(rest[k - 1], ok, r.task.j + 1 + (k - 1)); }
      }
    }
  }

  class ReadQueue {
    const bContinuous: bool
    var eState: State
    var allIds: seq<int>
    var nProcessed: nat
    var bRead: bool
    var hNext: bool
    var sent: seq<Reply>
    ghost var asked: seq<int>
    ghost var task: Task

    ghost function View(): Readers
      reads this
    {
      Readers(bContinuous, eState, allIds, nProcessed, bRead, hNext, task, asked, sent)
    }

    constructor (continuous: bool)
      ensures View() == Initial(continuous)
    {
      bContinuous := continuous;
      eState, allIds, nProcessed, bRead, hNext, sent := Inactivating, [], 0, false, false, [];
      asked, task := [], Nothing;
    }

    method ChangeState(active: bool)
      modifies this
      ensures View() == ReadRequests.SetState(old(View()), active)
    {
      eState := if active then Active else Inactivating;
    }

    method Shutdown()
      requires eState == Inactivating
      modifies this
      ensures View() == BeforeWrite(old(View()))
    {
      eState := Inactive;
      var i := 0;
      ghost var before := sent;
      while i < |allIds|
        invariant 0 <= i <= |allIds|
        invariant sent == before + ClosingAll(allIds)[..i]
        invariant View() == old(View()).(state := Inactive, sent := sent)
      {
        sent := sent + [Closing(allIds[i])];
        i := i + 1;
      }
      allIds := [];
      hNext := false;
      nProcessed := 0;
      bRead := false;
    }

    // The requests that the next read is for.
    method BeginRead()
      requires eState == Active
      modifies this
      ensures View() == BeforeWrite(old(View()))
      ensures nProcessed == |allIds|
    {
      nProcessed := |allIds|;
      if nProcessed > 0 {
        bRead := true;
      }
    }

    method EndRound(share: bool)
      requires nProcessed <= |allIds|
      modifies this
      ensures View() == if share then Shared(old(View())) else Reported(old(View()))
    {
      bRead := false;
      if !bContinuous {
        allIds := allIds[nProcessed..];
      }
      if share {
        EraseNobody();
      }
      if |allIds| == 0 {
        hNext := false;
      }
      nProcessed := 0;
      task := Nothing;
    }

    method EraseNobody()
      modifies this`allIds
      ensures allIds == Live(old(allIds))
    {
      var k := 0;
      assert allIds[..0] == [] && [] + Live(allIds) == Live(allIds) && allIds[0..] == allIds;
      while k < |allIds|
        invariant 0 <= k <= |allIds|
        invariant allIds[..k] + Live(allIds[k..]) == Live(old(allIds))
        decreases |allIds| - k
      {
        LiveNext(allIds, k);
        if allIds[k] == NOBODY {
          allIds := allIds[..k] + allIds[k + 1..];
        } else {
          k := k + 1;
        }
      }
      assert allIds[..k] == allIds && allIds[k..] == [] && allIds + [] == allIds;
    }

    // The write failed: those who wait for the read are told.
    method FailAll(error: int)
      requires eState == Active && bRead && error != 0 && nProcessed <= |allIds| && task == Nothing
      modifies this
      ensures View() == Reported(ReportRest(Apply(old(View()), StartReport(error))))
    {
      task := Reporting(0, error);
      ghost var start := View();
      var i := 0;
      while i < nProcessed
        invariant 0 <= i <= nProcessed <= |allIds| && task == Reporting(i, error)
        invariant ReportRest(start) == ReportRest(View())
      {
        sent := sent + [Failed(allIds[i], error)];
        i := i + 1;
        task := Reporting(i, error);
      }
      EndRound(false);
    }

    // What was read is sent; clients that cannot be reached are struck out.
    method ShareAll(ok: seq<bool>)
      requires eState == Active && bRead && nProcessed <= |allIds| && task == Nothing && |ok| >= nProcessed
      modifies this
      ensures View() == Shared(ShareRest(Apply(old(View()), StartShare), ok))
    {
      task := Sharing(0);
      ghost var start := View();
      var j := 0;
      while j < nProcessed
        invariant 0 <= j <= nProcessed <= |allIds| && task == Sharing(j) && nProcessed <= |ok|
        invariant ShareRest(start, ok) == ShareRest(View(), ok)
      {
        sent := sent + [Data(allIds[j])];
        if !ok[j] {
          allIds := allIds[j := NOBODY];
        }
        j := j + 1;
        task := Sharing(j);
      }
      EndRound(true);
    }

    // A trigger; a continuous reader takes a client only once.
    method Trigger(id: int) returns (ok: bool)
      modifies this
      ensures ok <==> old(eState == Active && (!bContinuous || id !in allIds))
      ensures View() == Ask(old(View()), id)
    {
      ok := false;
      if eState == Active {
        var k := 0;
        while k < |allIds| && allIds[k] != id
          invariant 0 <= k <= |allIds|
          invariant forall i :: 0 <= i < k ==> allIds[i] != id
        {
          k := k + 1;
        }
        if !bContinuous || k == |allIds| {
          allIds := allIds + [id];
          hNext := true;
          asked := asked + [id];
          ok := true;
        }
      }
    }

    method Cancel(id: int)
      modifies this
      ensures View() == Withdraw(old(View()), id)
    {
      var k := 0;
      while k < |allIds| && allIds[k] != id
        invariant 0 <= k <= |allIds| && View() == old(View())
        invariant forall i :: 0 <= i < k ==> allIds[i] != id
      {
        k := k + 1;
      }
      StrikeFirst(allIds, id, k);
      if k < |allIds| {
        allIds := allIds[k := NOBODY];
      }
      sent := sent + [Cancelled(id)];
    }
  }

  // ------------------------------------------------------- the wave of a read

  // Room for a read: more than its wave.
  function ReadSize(init: ValveInit): nat { (init.boards * 8 * 2 + 2 + 4) * init.clkPerData }

  function RestLevels(init: ValveInit): Byte {
    Or(One(init.latch), One(init.clk))
  }

  /** At rest, after a wave, the chain neither loads nor shifts. */
  lemma {:induction false} RestIsStill(init: ValveInit, inputs: seq<bool>, c: Loader, n: nat)
    requires init.Fits() && c.clk
    ensures ShiftAll(init, inputs, c, Repeat(RestLevels(init), n)) == c
    decreases n
  {
    if n == 0 {
    } else {
      assert Repeat(RestLevels(init), n)[1..] == Repeat(RestLevels(init), n - 1);
      RestIsStill(init, inputs, c, n - 1);
    }
  }

  lemma NextPair(init: ValveInit, head: seq<Byte>, n: nat, c: nat)
    ensures Stretch(head + ReadPairs(init, n + 1), c)
         == Stretch(head + ReadPairs(init, n), c) + Repeat(One(init.latch), c) + Repeat(RestLevels(init), c)
  {
    var units := head + ReadPairs(init, n);
    assert head + ReadPairs(init, n + 1) == (units + [One(init.latch)]) + [RestLevels(init)];
    StretchNext(units, One(init.latch), c);
    StretchNext(units + [One(init.latch)], RestLevels(init), c);
  }

  lemma FirstUnits(init: ValveInit, c: nat)
    ensures Stretch([One(init.clk), RestLevels(init)] + ReadPairs(init, 0), c)
         == [] + Repeat(One(init.clk), c) + Repeat(RestLevels(init), c)
  {
    var a, b := One(init.clk), RestLevels(init);
    assert [a, b] + ReadPairs(init, 0) == ([] + [a]) + [b];
    StretchNext([], a, c);
    StretchNext([] + [a], b, c);
  }

  // Two units, one after the other.
  method WriteTwo(init: ValveInit, buff: array<Byte>, i: nat, c: nat, a: Byte, b: Byte,
                  ghost before: seq<Byte>, ghost wave: seq<Byte>)
    requires init.Fits() && i + 2 * c <= buff.Length && |wave| == i && Masked(before, buff[..], init.Mask(), wave)
    modifies buff
    ensures Masked(before, buff[..], init.Mask(), wave + Repeat(a, c) + Repeat(b, c))
  {
    WriteUnit(buff, i, c, init.Mask(), a, before, wave);
    WriteUnit(buff, i + c, c, init.Mask(), b, before, wave + Repeat(a, c));
  }

  /** The wave of a read: n pairs of m bytes behind the load pulse. */
  method WriteReadWave(init: ValveInit, buff: array<Byte>, n: nat, m: nat, size: nat)
    requires init.Fits() && n == init.Outputs() + 1 && m == 2 * init.clkPerData && size == (n + 1) * m <= buff.Length
    modifies buff
    ensures Masked(old(buff[..]), buff[..], init.Mask(), ReadWave(init))
  {
    var c := init.clkPerData;
    ghost var before, head := buff[..], [One(init.clk), RestLevels(init)];
    NothingWritten(before, init.Mask());
    OneMore(0, m);
    MulMonotone(1, n + 1, m);
    WriteTwo(init, buff, 0, c, One(init.clk), RestLevels(init), before, []);
    FirstUnits(init, c);
    var i, k := m, 0;
    ghost var wave := Stretch(head + ReadPairs(init, 0), c);
    while i < size
      invariant 0 <= k <= n && i == (k + 1) * m == |wave|
      invariant wave == Stretch(head + ReadPairs(init, k), c)
      invariant Masked(before, buff[..], init.Mask(), wave)
      decreases n - k
    {
      Position(i, k + 1, n + 1, m);
      NextPair(init, head, k, c);
      WriteTwo(init, buff, i, c, One(init.latch), RestLevels(init), before, wave);
      wave := wave + Repeat(One(init.latch), c) + Repeat(RestLevels(init), c);
      i := i + m;
      k := k + 1;
    }
    Position(i, k + 1, n + 1, m);
  }

  lemma {:induction false} PairsWithin(init: ValveInit, n: nat, k: nat)
    requires init.Fits() && k < |ReadPairs(init, n)|
    ensures Within(init.Mask(), ReadPairs(init, n)[k])
    decreases n
  {
    if k >= |ReadPairs(init, n - 1)| {
    } else {
      PairsWithin(init, n - 1, k);
    }
  }

  /** The wave stays off the pins of other devices. */
  lemma ReadWaveIsOwn(init: ValveInit, k: nat)
    requires init.Fits() && k < |ReadWave(init)|
    ensures Within(init.Mask(), ReadWave(init)[k])
  {
    var units := ReadUnits(init);
    forall u | 0 <= u < |units| ensures Within(init.Mask(), units[u]) {
      if u >= 2 {
        assert units[u] == ReadPairs(init, init.Outputs() + 1)[u - 2];
        PairsWithin(init, init.Outputs() + 1, u - 2);
      }
    }
    StretchWithin(init.Mask(), units, init.clkPerData, k);
  }

  // Where output i is read.
  function ReadPosition(init: ValveInit, i: nat): nat { (3 + i * 2) * init.clkPerData }

  lemma ReadFits(init: ValveInit, i: nat)
    requires i < init.Outputs() && init.clkPerData > 0
    ensures ReadPosition(init, i) < ReadSize(init)
  {
    var c := init.clkPerData;
    assert (3 + i * 2) + 1 <= init.boards * 8 * 2 + 2 + 4;
    OneMore(3 + i * 2, c);
    MulMonotone((3 + i * 2) + 1, init.boards * 8 * 2 + 2 + 4, c);
  }

  /** The levels of the data pin at the positions of the outputs. */
  method ExtractLevels(init: ValveInit, rx: array<Byte>) returns (vals: seq<bool>)
    requires init.Fits() && ReadSize(init) <= rx.Length
    ensures |vals| == init.Outputs()
    ensures forall i :: 0 <= i < init.Outputs() ==>
      ReadPosition(init, i) < rx.Length && vals[i] == rx[ReadPosition(init, i)][init.data]
  {
    vals := [];
    var i := 0;
    while i < init.Outputs()
      invariant 0 <= i <= init.Outputs() && |vals| == i
      invariant forall k :: 0 <= k < i ==>
        ReadPosition(init, k) < rx.Length && vals[k] == rx[ReadPosition(init, k)][init.data]
    {
      ReadFits(init, i);
      vals := vals + [rx[ReadPosition(init, i)][init.data]];
      i := i + 1;
    }
  }

  /** If the chain drives the data pin while its wave is written, what is
      extracted are its inputs, in shift order. */
  lemma ExtractsInputs(init: ValveInit, inputs: seq<bool>, c: Loader, tx: seq<Byte>, rx: seq<Byte>, vals: seq<bool>)
    requires init.Fits() && |inputs| == init.Outputs() == |vals| && |rx| == |tx|
    requires |tx| >= |ReadWave(init)| && forall k :: 0 <= k < |ReadWave(init)| ==>
      tx[k][init.clk] == ReadWave(init)[k][init.clk] && tx[k][init.latch] == ReadWave(init)[k][init.latch]
    requires forall k :: 0 <= k < |rx| ==> rx[k][init.data] == ReadAt(init, inputs, c, tx, k)
    requires forall i :: 0 <= i < |vals| ==>
      ReadPosition(init, i) < |rx| && vals[i] == rx[ReadPosition(init, i)][init.data]
    ensures vals == inputs
  {
    forall i | 0 <= i < |vals| ensures vals[i] == inputs[i] {
      InputsAreRead(init, inputs, c, tx, i, ReadPosition(init, i));
    }
  }

  class CMultiRPeriph {
    const init: ValveInit
    const dwBuff: nat
    const requests: ReadQueue

    ghost predicate Valid()
    {
      init.Fits() && ReadSize(init) <= dwBuff
    }

    constructor (init: ValveInit, dwBuff: nat, continuous: bool)
      requires init.Fits() && ReadSize(init) <= dwBuff
      ensures Valid() && this.init == init && this.dwBuff == dwBuff
      ensures fresh(requests) && requests.View() == Initial(continuous)
    {
      this.init, this.dwBuff := init, dwBuff;
      requests := new ReadQueue(continuous);
    }

    /** DoWork before a write: the wave of a read, if anybody waits for one. */
    method BeforeWrite(buff: array<Byte>)
      requires Valid() && dwBuff <= buff.Length
      modifies requests, buff
      ensures requests.View() == ReadRequests.BeforeWrite(old(requests.View()))
      ensures Masked(old(buff[..]), buff[..], init.Mask(),
                     if old(requests.eState) == Inactivating then Repeat(RestLevels(init), dwBuff)
                     else if old(requests.eState == Active && requests.allIds != []) then ReadWave(init)
                     else [])
    {
      if requests.eState == Inactivating {
        requests.Shutdown();
        WriteAll(buff, dwBuff, init.Mask(), RestLevels(init));
      } else if requests.eState == Active {
        requests.BeginRead();
        if requests.nProcessed > 0 {
          WaveFits(init);
          WriteReadWave(init, buff, init.boards * 8 + 1, 2 * init.clkPerData,
                        (4 + init.boards * 8 * 2) * init.clkPerData);
        }
      }
    }

    /** DoWork after a write: on an error those who wait are told; the pins go
        back to rest. */
    method AfterWrite(buff: array<Byte>, error: int)
      requires Valid() && dwBuff <= buff.Length
      requires requests.nProcessed <= |requests.allIds| && requests.task == Nothing
      modifies requests, buff
      ensures var r := old(requests.View());
        requests.View() == if r.state == Active && r.read && error != 0
          then Reported(ReportRest(Apply(r, StartReport(error)))) else r
      ensures Masked(old(buff[..]), buff[..], init.Mask(),
                     if old(requests.eState == Active && requests.bRead) then Repeat(RestLevels(init), ReadSize(init))
                     else [])
    {
      if requests.eState == Active && requests.bRead {
        if error != 0 {
          requests.FailAll(error);
        }
        WriteAll(buff, ReadSize(init), init.Mask(), RestLevels(init));
      }
    }

    /** DoWork after a read: the levels go to everybody who waits; `ok` says who
        can be reached. */
    method AfterRead(rx: array<Byte>, ok: seq<bool>) returns (vals: seq<bool>)
      requires Valid() && ReadSize(init) <= rx.Length && |ok| >= requests.nProcessed
      requires requests.nProcessed <= |requests.allIds| && requests.task == Nothing
      modifies requests
      ensures var r := old(requests.View());
        if r.state == Active && r.read then
          && requests.View() == Shared(ShareRest(Apply(r, StartShare), ok))
          && |vals| == init.Outputs() && forall i :: 0 <= i < |vals| ==>
               ReadPosition(init, i) < rx.Length && vals[i] == rx[ReadPosition(init, i)][init.data]
        else requests.View() == r && vals == []
    {
      vals := [];
      if requests.eState == Active && requests.bRead {
        vals := ExtractLevels(init, rx);
        requests.ShareAll(ok);
      }
    }
  }

  lemma WaveFits(init: ValveInit)
    ensures (4 + init.boards * 8 * 2) * init.clkPerData == (init.boards * 8 + 1 + 1) * (2 * init.clkPerData)
    ensures (4 + init.boards * 8 * 2) * init.clkPerData <= ReadSize(init)
  {
    MulMonotone(4 + init.boards * 8 * 2, init.boards * 8 * 2 + 2 + 4, init.clkPerData);
    assert (4 + init.boards * 8 * 2) == 2 * (init.boards * 8 + 1 + 1);
  }

  // ------------------------------------------------------------ the pin reader

  class CPinRPeriph {
    const bytesUsed: nat
    const activePins: Byte
    const requests: ReadQueue

    constructor (bytesUsed: nat, activePins: Byte, continuous: bool)
      ensures this.bytesUsed == bytesUsed && this.activePins == activePins
      ensures fresh(requests) && requests.View() == Initial(continuous)
    {
      this.bytesUsed, this.activePins := bytesUsed, activePins;
      requests := new ReadQueue(continuous);
    }

    // The active pins of every byte used; the others read as low.
    method ExtractBytes(rx: array<Byte>) returns (vals: seq<Byte>)
      requires bytesUsed <= rx.Length
      ensures |vals| == bytesUsed
      ensures forall i :: 0 <= i < bytesUsed ==> vals[i] == And(rx[i], activePins)
    {
      vals := [];
      var i := 0;
      while i < bytesUsed
        invariant 0 <= i <= bytesUsed && |vals| == i
        invariant forall k :: 0 <= k < i ==> vals[k] == And(rx[k], activePins)
      {
        vals := vals + [And(rx[i], activePins)];
        i := i + 1;
      }
    }

    /** DoWork after a read. */
    method AfterRead(rx: array<Byte>, ok: seq<bool>) returns (vals: seq<Byte>)
      requires bytesUsed <= rx.Length && |ok| >= requests.nProcessed
      requires requests.nProcessed <= |requests.allIds| && requests.task == Nothing
      modifies requests
      ensures var r := old(requests.View());
        if r.state == Active && r.read then
          && requests.View() == Shared(ShareRest(Apply(r, StartShare), ok))
          && |vals| == bytesUsed
          && forall i :: 0 <= i < bytesUsed ==> vals[i] == And(rx[i], activePins)
        else requests.View() == r && vals == []
    {
      vals := [];
      if requests.eState == Active && requests.bRead {
        vals := ExtractBytes(rx);
        requests.ShareAll(ok);
      }
    }
  }
}
