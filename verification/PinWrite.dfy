/**
 The pin writer: it keeps a waveform for its pins, changed by updates that
 select bytes and pins of it, and puts it into the transmit buffer.
 */
module PinWrite {
  import opened Bits
  import opened FtPins
  import opened FtState
  import opened WriteRequests

  // One value for a run of bytes, on the pins selected.
  datatype PinWData = PinWData(repeat: nat, value: Byte, select: Byte)

  // An update: runs, or a byte for every position, all on the same pins.
  datatype Update = Runs(items: seq<PinWData>) | Raw(select: Byte, bytes: seq<Byte>)

  function Sum(items: seq<PinWData>): nat {
    if items == [] then 0 else items[0].repeat + Sum(items[1..])
  }

  // Updates have to say something, and not more than there is room for.
  predicate WellFormed(u: Update) {
    match u case Runs(items) => items != [] case Raw(_, bytes) => bytes != []
  }

  function Length(u: Update): nat {
    match u case Runs(items) => Sum(items) case Raw(_, bytes) => |bytes|
  }

  /** The run that position k belongs to; behind all runs, the last one. */
  function ItemAt(items: seq<PinWData>, k: nat): PinWData
    requires items != []
  {
    if k < items[0].repeat || |items| == 1 then items[0] else ItemAt(items[1..], k - items[0].repeat)
  }

  // The pins an update selects at position k, and the levels it gives them.
  function SelectAt(u: Update, k: nat): Byte
    requires WellFormed(u)
  {
    match u case Runs(items) => ItemAt(items, k).select case Raw(select, _) => select
  }

  function ValueAt(u: Update, k: nat): Byte
    requires WellFormed(u)
  {
    match u
    case Runs(items) => ItemAt(items, k).value
    case Raw(_, bytes) => if k < |bytes| then bytes[k] else bytes[|bytes| - 1]
  }

  // (b & ~select) | (value & select)
  function Put(b: Byte, select: Byte, value: Byte): Byte {
    Or(And(b, Not(select)), And(value, select))
  }

  function Updated(data: seq<Byte>, u: Update, active: Byte): (r: seq<Byte>)
    requires WellFormed(u)
    ensures |r| == |data|
  {
    seq(|data|, k requires 0 <= k < |data| => Put(data[k], And(SelectAt(u, k), active), ValueAt(u, k)))
  }

  function UpdatedAll(data: seq<Byte>, us: seq<Update>, active: Byte): (r: seq<Byte>)
    requires forall i :: 0 <= i < |us| ==> WellFormed(us[i])
    ensures |r| == |data|
    decreases |us|
  {
    if us == [] then data
    else Updated(UpdatedAll(data, us[..|us| - 1], active), us[|us| - 1], active)
  }

  // ------------------------------------------------------------- what it means

  // Does update i say anything about pin p of byte k?
  predicate Says(u: Update, active: Byte, k: nat, p: nat)
    requires WellFormed(u) && p < 8
  {
    active[p] && SelectAt(u, k)[p]
  }

  // The level given by the last update that says something about the pin, or else
  // the level it had.
  function LevelAfter(level: bool, us: seq<Update>, active: Byte, k: nat, p: nat): bool
    requires p < 8 && forall i :: 0 <= i < |us| ==> WellFormed(us[i])
    decreases |us|
  {
    if us == [] then level
    else
      var n := |us| - 1;
      if Says(us[n], active, k, p) then ValueAt(us[n], k)[p] else LevelAfter(level, us[..n], active, k, p)
  }

  /** Pin p of byte k has the level of the last update that covers the byte and
      selects the pin; if there is none it keeps its own. */
  lemma {:induction false} LastUpdateCounts(data: seq<Byte>, us: seq<Update>, active: Byte, k: nat, p: nat)
    requires k < |data| && p < 8 && forall i :: 0 <= i < |us| ==> WellFormed(us[i])
    ensures UpdatedAll(data, us, active)[k][p] == LevelAfter(data[k][p], us, active, k, p)
    decreases |us|
  {
    if us == [] {
    } else {
      var n := |us| - 1;
      LastUpdateCounts(data, us[..n], active, k, p);
      OneUpdate(UpdatedAll(data, us[..n], active), us[n], active, k, p);
    }
  }

  lemma OneUpdate(data: seq<Byte>, u: Update, active: Byte, k: nat, p: nat)
    requires k < |data| && p < 8 && WellFormed(u)
    ensures Updated(data, u, active)[k][p] == if Says(u, active, k, p) then ValueAt(u, k)[p] else data[k][p]
  {}

  // Only active pins are ever high.
  ghost predicate InActive(data: seq<Byte>, active: Byte) {
    forall k, p :: 0 <= k < |data| && 0 <= p < 8 && data[k][p] ==> active[p]
  }

  /** Stored bytes stay within the active pins. */
  lemma StaysInActive(data: seq<Byte>, u: Update, active: Byte)
    requires WellFormed(u) && InActive(data, active)
    ensures InActive(Updated(data, u, active), active)
  {
    forall k, p | 0 <= k < |data| && 0 <= p < 8 && Updated(data, u, active)[k][p] ensures active[p] {
      OneUpdate(data, u, active, k, p);
    }
  }

  /** Position k belongs to run i: the runs before it end at or before k, and it does
      not, or it is the last one. */
  predicate InRun(items: seq<PinWData>, k: nat, i: int) {
    0 <= i < |items| && Sum(items[..i]) <= k && (k < Sum(items[..i + 1]) || i == |items| - 1)
  }

  lemma {:induction false} RunOf(items: seq<PinWData>, k: nat) returns (i: nat)
    requires items != []
    ensures InRun(items, k, i) && ItemAt(items, k) == items[i]
    decreases |items|
  {
    var first := items[..1];
    assert first[0] == items[0] && first[1..] == [];
    if k < items[0].repeat || |items| == 1 {
      i := 0;
    } else {
      var j := RunOf(items[1..], k - items[0].repeat);
      i := j + 1;
      assert items[..i][0] == items[0] && items[..i][1..] == items[1..][..j];
      assert items[..i + 1][0] == items[0] && items[..i + 1][1..] == items[1..][..j + 1];
    }
  }

  // There is only one.
  lemma {:induction false} OneRun(items: seq<PinWData>, k: nat, i: nat)
    requires InRun(items, k, i)
    ensures ItemAt(items, k) == items[i]
    decreases i
  {
    if i == 0 {
      assert items[..1][0] == items[0] && items[..1][1..] == [];
    } else {
      assert items[..i][0] == items[0] && items[..i][1..] == items[1..][..i - 1];
      assert items[..i + 1][0] == items[0] && items[..i + 1][1..] == items[1..][..i];
      OneRun(items[1..], k - items[0].repeat, i - 1);
    }
  }

  /** An update in runs: every position belongs to just one run, and gets its value on
      the active pins that this run selects; other pins keep their levels. */
  lemma RunsMean(data: seq<Byte>, items: seq<PinWData>, active: Byte, k: nat, p: nat)
    requires items != [] && k < |data| && p < 8
    ensures exists i :: InRun(items, k, i)
    ensures forall i :: InRun(items, k, i) ==>
      Updated(data, Runs(items), active)[k][p]
      == if active[p] && items[i].select[p] then items[i].value[p] else data[k][p]
  {
    var j := RunOf(items, k);
    forall i | InRun(items, k, i)
      ensures Updated(data, Runs(items), active)[k][p]
           == if active[p] && items[i].select[p] then items[i].value[p] else data[k][p]
    {
      OneRun(items, k, i);
      OneUpdate(data, Runs(items), active, k, p);
    }
  }

  /** And one with a byte for every position: positions without one get the last. */
  lemma BytesMean(data: seq<Byte>, select: Byte, bytes: seq<Byte>, active: Byte, k: nat, p: nat)
    requires bytes != [] && k < |data| && p < 8
    ensures Updated(data, Raw(select, bytes), active)[k][p]
         == if active[p] && select[p] then bytes[if k < |bytes| then k else |bytes| - 1][p] else data[k][p]
  {
    OneUpdate(data, Raw(select, bytes), active, k, p);
  }

  // ----------------------------------------------------- run-length and raw form

  function Expand(items: seq<PinWData>): (bytes: seq<Byte>)
    ensures |bytes| == Sum(items)
  {
    if items == [] then [] else Repeat(items[0].value, items[0].repeat) + Expand(items[1..])
  }

  predicate SameSelect(items: seq<PinWData>, select: Byte) {
    forall i :: 0 <= i < |items| ==> items[i].select == select
  }

  lemma {:induction false} ItemInside(items: seq<PinWData>, k: nat)
    requires items != [] && k < Sum(items)
    ensures Expand(items)[k] == ItemAt(items, k).value
    decreases |items|
  {
    if k < items[0].repeat {
    } else {
      assert items[1..] != [];
      ItemInside(items[1..], k - items[0].repeat);
    }
  }

  lemma {:induction false} ItemBehind(items: seq<PinWData>, k: nat)
    requires items != [] && k >= Sum(items)
    ensures ItemAt(items, k) == items[|items| - 1]
    decreases |items|
  {
    if |items| <= 1 {
    } else {
      ItemBehind(items[1..], k - items[0].repeat);
    }
  }

  lemma {:induction false} ItemIsOne(items: seq<PinWData>, k: nat)
    requires items != []
    ensures ItemAt(items, k) in items
    decreases |items|
  {
    if k < items[0].repeat || |items| == 1 {
    } else {
      ItemIsOne(items[1..], k - items[0].repeat);
    }
  }

  // Padding agrees: there is none, or the last run and the last byte of the
  // expansion agree on the pins.
  predicate PaddingAgrees(n: nat, items: seq<PinWData>, select: Byte)
    requires Expand(items) != []
  {
    Sum(items) >= n
    || And(items[|items| - 1].value, select) == And(Expand(items)[Sum(items) - 1], select)
  }

  lemma FormsAgreeAt(data: seq<Byte>, items: seq<PinWData>, select: Byte, active: Byte, k: nat)
    requires SameSelect(items, select) && Expand(items) != [] && k < |data|
    ensures k < Sum(items) || PaddingAgrees(|data|, items, And(select, active)) ==>
      Updated(data, Runs(items), active)[k] == Updated(data, Raw(select, Expand(items)), active)[k]
  {
    ItemIsOne(items, k);
    if k < Sum(items) { ItemInside(items, k); } else { ItemBehind(items, k); }
  }

  /** The two forms of an update whose runs all select the same pins do the same
      to all data exactly when their padding agrees, */
  lemma FormsAgree(n: nat, items: seq<PinWData>, select: Byte, active: Byte)
    requires SameSelect(items, select) && Expand(items) != [] && Sum(items) <= n
    ensures (forall data: seq<Byte> :: |data| == n ==>
               Updated(data, Runs(items), active) == Updated(data, Raw(select, Expand(items)), active))
       <==> PaddingAgrees(n, items, And(select, active))
  {
    if PaddingAgrees(n, items, And(select, active)) {
      forall data: seq<Byte> | |data| == n
        ensures Updated(data, Runs(items), active) == Updated(data, Raw(select, Expand(items)), active)
      {
        forall k | 0 <= k < n
          ensures Updated(data, Runs(items), active)[k] == Updated(data, Raw(select, Expand(items)), active)[k]
        { FormsAgreeAt(data, items, select, active, k); }
      }
    } else {
      var data := Repeat(ZERO, n);
      FormsDiffer(data, items, select, active);
    }
  }

  lemma PutOnZero(select: Byte, value: Byte)
    ensures Put(ZERO, select, value) == And(value, select)
  {}

  lemma FormsDiffer(data: seq<Byte>, items: seq<PinWData>, select: Byte, active: Byte)
    requires SameSelect(items, select) && Expand(items) != [] && Sum(items) < |data|
    requires data == Repeat(ZERO, |data|) && !PaddingAgrees(|data|, items, And(select, active))
    ensures Updated(data, Runs(items), active) != Updated(data, Raw(select, Expand(items)), active)
  {
    var k, s := Sum(items), And(select, active);
    ItemBehind(items, k);
    ItemIsOne(items, k);
    var a, b := items[|items| - 1].value, Expand(items)[k - 1];
    PutOnZero(s, a);
    PutOnZero(s, b);
    assert Updated(data, Runs(items), active)[k] == Put(data[k], s, a);
    assert Updated(data, Raw(select, Expand(items)), active)[k] == Put(data[k], s, b);
  }

  /** which is so whenever the last run is not empty. */
  lemma LastRunNotEmpty(n: nat, items: seq<PinWData>, select: Byte)
    requires items != [] && items[|items| - 1].repeat > 0
    ensures Expand(items) != [] && PaddingAgrees(n, items, select)
  {
    LastByte(items);
  }

  lemma {:induction false} LastByte(items: seq<PinWData>)
    requires items != [] && items[|items| - 1].repeat > 0
    ensures Sum(items) > 0 && Expand(items)[Sum(items) - 1] == items[|items| - 1].value
    decreases |items|
  {
    if |items| <= 1 {
    } else {
      LastByte(items[1..]);
    }
  }

  // ------------------------------------------------------------------ class

  // Position k lies in run i, which starts at k0.
  lemma {:induction false} ItemOfRun(items: seq<PinWData>, i: nat, k: nat)
    requires i < |items| && Sum(items[..i]) <= k < Sum(items[..i]) + items[i].repeat
    ensures ItemAt(items, k) == items[i]
    decreases i
  {
    if i == 0 {
      assert items[..0] == [];
    } else {
      assert items[..i][0] == items[0] && items[..i][1..] == items[1..][..i - 1];
      ItemOfRun(items[1..], i - 1, k - items[0].repeat);
    }
  }

  lemma {:induction false} SumNext(items: seq<PinWData>, i: nat)
    requires i < |items|
    ensures Sum(items[..i + 1]) == Sum(items[..i]) + items[i].repeat <= Sum(items)
  {
    assert items[..i + 1][0] == items[0] && items[..i + 1][1..] == items[1..][..i];
    if i > 0 {
      assert items[..i][0] == items[0] && items[..i][1..] == items[1..][..i - 1];
      SumNext(items[1..], i - 1);
    } else {
      assert items[1..][..0] == [] && items[..0] == [];
    }
  }

  // The first n bytes have been updated, the others not yet.
  ghost predicate UpdatedTo(now: seq<Byte>, before: seq<Byte>, u: Update, active: Byte, n: nat)
    requires WellFormed(u)
  {
    && |now| == |before|
    && forall k :: 0 <= k < |now| ==>
         now[k] == if k < n then Put(before[k], And(SelectAt(u, k), active), ValueAt(u, k)) else before[k]
  }

  // Bytes from .. to get this value.
  method PutRange(data: array<Byte>, from: nat, to: nat, select: Byte, value: Byte,
                  ghost before: seq<Byte>, ghost u: Update, active: Byte)
    requires WellFormed(u) && from <= to <= data.Length
    requires forall k :: from <= k < to ==> And(SelectAt(u, k), active) == select && ValueAt(u, k) == value
    requires UpdatedTo(data[..], before, u, active, from)
    modifies data
    ensures UpdatedTo(data[..], before, u, active, to)
  {
    var k := from;
    while k < to
      invariant from <= k <= to && UpdatedTo(data[..], before, u, active, k)
    {
      data[k] := Put(data[k], select, value);
      k := k + 1;
    }
  }

  method PutRuns(data: array<Byte>, items: seq<PinWData>, active: Byte)
    requires items != [] && Sum(items) <= data.Length
    modifies data
    ensures data[..] == Updated(old(data[..]), Runs(items), active)
  {
    var i, k := 0, 0;
    ghost var before, u := data[..], Runs(items);
    assert items[..0] == [];
    while i < |items|
      invariant 0 <= i <= |items| && k == Sum(items[..i]) <= Sum(items)
      invariant UpdatedTo(data[..], before, u, active, k)
    {
      SumNext(items, i);
      forall q | k <= q < k + items[i].repeat ensures ItemAt(items, q) == items[i] { ItemOfRun(items, i, q); }
      PutRange(data, k, k + items[i].repeat, And(items[i].select, active), items[i].value, before, u, active);
      k := k + items[i].repeat;
      i := i + 1;
    }
    assert items[..i] == items;
    var last := items[|items| - 1];
    forall q | k <= q < data.Length ensures ItemAt(items, q) == last { ItemBehind(items, q); }
    PutRange(data, k, data.Length, And(last.select, active), last.value, before, u, active);
  }

  method PutRaw(data: array<Byte>, select: Byte, bytes: seq<Byte>, active: Byte)
    requires bytes != [] && |bytes| <= data.Length
    modifies data
    ensures data[..] == Updated(old(data[..]), Raw(select, bytes), active)
  {
    var i := 0;
    ghost var before, u := data[..], Raw(select, bytes);
    while i < |bytes|
      invariant 0 <= i <= |bytes| && UpdatedTo(data[..], before, u, active, i)
    {
      PutRange(data, i, i + 1, And(select, active), bytes[i], before, u, active);
      i := i + 1;
    }
    PutRange(data, i, data.Length, And(select, active), bytes[i - 1], before, u, active);
  }

  // What a write sends: the waveform, and its last byte until the end.
  function SentWave(data: seq<Byte>, size: nat): (r: seq<Byte>)
    requires 0 < |data| <= size
    ensures |r| == size
  {
    data + Repeat(data[|data| - 1], size - |data|)
  }

  /** The wave stays off the pins of other devices. */
  lemma SentWaveIsOwn(data: seq<Byte>, active: Byte, size: nat, k: nat)
    requires 0 < |data| <= size && InActive(data, active) && k < size
    ensures Within(Not(active), SentWave(data, size)[k])
  {
    var i := if k < |data| then k else |data| - 1;
    assert SentWave(data, size)[k] == data[i];
  }

  class CPinWPeriph {
    const activePins: Byte
    const dwBuff: nat
    const aucData: array<Byte>
    const requests: WriteQueue
    var ucLast: Byte

    ghost predicate Valid()
      reads this, aucData
    {
      && 0 < aucData.Length <= dwBuff
      && InActive(aucData[..], activePins) && InActive([ucLast], activePins)
    }

    // The pins of others.
    function Mask(): Byte { Not(activePins) }

    constructor (bytesUsed: nat, activePins: Byte, initial: Byte, dwBuff: nat)
      requires 0 < bytesUsed <= dwBuff
      ensures Valid() && fresh(aucData) && fresh(requests) && requests.View() == INITIAL
      ensures aucData[..] == Repeat(And(initial, activePins), bytesUsed) && ucLast == And(initial, activePins)
      ensures this.activePins == activePins && this.dwBuff == dwBuff
    {
      this.activePins, this.dwBuff, ucLast := activePins, dwBuff, And(initial, activePins);
      aucData := new Byte[bytesUsed](_ => And(initial, activePins));
      requests := new WriteQueue();
    }

    method MakeWave(buff: array<Byte>)
      requires Valid() && dwBuff <= buff.Length && buff != aucData
      modifies this`ucLast, aucData, buff
      ensures Valid() && ucLast == old(aucData[aucData.Length - 1])
      ensures Masked(old(buff[..]), buff[..], Mask(), SentWave(old(aucData[..]), dwBuff))
      ensures aucData[..] == Repeat(ucLast, aucData.Length)
    {
      LastInActive(aucData[..], activePins);
      ghost var before, data := buff[..], aucData[..];
      ucLast := aucData[aucData.Length - 1];
      MoveOut(buff, aucData, Mask(), ucLast);
      WriteUnit(buff, aucData.Length, dwBuff - aucData.Length, Mask(), ucLast, before, data);
    }

    /** DoWork before a write: the last levels over the whole buffer if it is to be
        inactive, the waveform if one is due, and else nothing. */
    method BeforeWrite(buff: array<Byte>)
      requires Valid() && dwBuff <= buff.Length && buff != aucData
      modifies this`ucLast, aucData, requests, buff
      ensures Valid()
      ensures requests.View() == PreWrite(old(requests.View()))
      ensures Masked(old(buff[..]), buff[..], Mask(),
                     if old(requests.eState) == Inactivating then Repeat(old(ucLast), dwBuff)
                     else if old(requests.eState == Active && requests.bUpdated) then SentWave(old(aucData[..]), dwBuff)
                     else [])
      ensures if old(requests.eState == Active && requests.bUpdated) then
          ucLast == old(aucData[aucData.Length - 1]) && aucData[..] == Repeat(ucLast, aucData.Length)
        else ucLast == old(ucLast) && aucData[..] == old(aucData[..])
    {
      if requests.eState == Inactivating {
        requests.Shutdown();
        WriteAll(buff, dwBuff, Mask(), ucLast);
      } else if requests.eState == Active && requests.bUpdated {
        MakeWave(buff);
        requests.BeginWave();
      }
    }

    /** DoWork after a write: the pins stay where the waveform left them. */
    method AfterWrite(buff: array<Byte>)
      requires Valid() && dwBuff <= buff.Length && buff != aucData
      modifies buff
      ensures Valid()
      ensures Masked(old(buff[..]), buff[..], Mask(),
                     if requests.eState == Active && requests.bChanged then Repeat(ucLast, aucData.Length) else [])
    {
      if requests.eState == Active && requests.bChanged {
        WriteAll(buff, aucData.Length, Mask(), ucLast);
      }
    }

    /** DoWork after a read: only now are those who asked told. */
    method AfterRead(error: int)
      requires Valid() && requests.nProcessed <= |requests.allIds|
      modifies requests
      ensures Valid() && requests.View() == Answered(old(requests.View()), error)
    {
      if requests.eState == Active && requests.bChanged {
        requests.Respond(error);
      }
    }

    /** ProcessData: an update that is well formed and not too long, while the
        peripheral is active, changes the waveform; any other changes nothing. */
    method ProcessData(u: Update, id: int) returns (ok: bool)
      requires Valid()
      modifies aucData, requests
      ensures Valid()
      ensures ok <==> WellFormed(u) && Length(u) <= aucData.Length && old(requests.eState) == Active
      ensures aucData[..] == if ok then Updated(old(aucData[..]), u, activePins) else old(aucData[..])
      ensures requests.View() == if ok then Request(old(requests.View()), id) else old(requests.View())
    {
      ok := WellFormed(u) && Length(u) <= aucData.Length && requests.eState == Active;
      if ok {
        StaysInActive(aucData[..], u, activePins);
        match u {
          case Runs(items) => PutRuns(aucData, items, activePins);
          case Raw(select, bytes) => PutRaw(aucData, select, bytes, activePins);
        }
        var _ := requests.Ask(id);
      }
    }
  }

  // The waveform goes out, and becomes its last byte everywhere.
  method MoveOut(buff: array<Byte>, data: array<Byte>, mask: Byte, last: Byte)
    requires data.Length <= buff.Length && buff != data
    modifies buff, data
    ensures Masked(old(buff[..]), buff[..], mask, old(data[..]))
    ensures data[..] == Repeat(last, data.Length)
  {
    ghost var before, wave := buff[..], data[..];
    NothingWritten(before, mask);
    assert wave[..0] == [];
    var i := 0;
    while i < data.Length
      invariant 0 <= i <= data.Length
      invariant Masked(before, buff[..], mask, wave[..i])
      invariant forall k :: 0 <= k < data.Length ==> data[k] == if k < i then last else wave[k]
    {
      NextByte(before, buff[..], mask, wave, i);
      ghost var now := buff[..];
      buff[i] := MaskWrite(buff[i], mask, data[i]);
      assert buff[..] == now[i := MaskWrite(now[i], mask, wave[i])];
      data[i] := last;
      i := i + 1;
    }
    assert wave[..i] == wave;
  }

  lemma LastInActive(data: seq<Byte>, active: Byte)
    requires InActive(data, active) && data != []
    ensures InActive([data[|data| - 1]], active)
    ensures InActive(Repeat(data[|data| - 1], |data|), active)
  {}

  /** Between two writes: pin p of byte k of the wave that is sent has the level
      that the last update gave it, of those since the last write that cover byte
      k and select the pin, or else the level at the end of the previous wave.
      Bytes behind the waveform repeat its last byte. */
  lemma WaveLevels(last: Byte, n: nat, us: seq<Update>, active: Byte, size: nat, k: nat, p: nat)
    requires 0 < n <= size && k < size && p < 8 && forall i :: 0 <= i < |us| ==> WellFormed(us[i])
    ensures SentWave(UpdatedAll(Repeat(last, n), us, active), size)[k][p]
         == LevelAfter(last[p], us, active, if k < n then k else n - 1, p)
  {
    LastUpdateCounts(Repeat(last, n), us, active, if k < n then k else n - 1, p);
  }

  lemma NextByte(before: seq<Byte>, now: seq<Byte>, mask: Byte, data: seq<Byte>, i: nat)
    requires i < |data| && i < |now| && Masked(before, now, mask, data[..i])
    ensures Masked(before, now[i := MaskWrite(now[i], mask, data[i])], mask, data[..i + 1])
  {}
}
