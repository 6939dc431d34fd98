/**
 The ADC's side of the transmit buffer: its clock, and why what is read back
 while the clock runs has the form that the decoder relies on.
 */
module AdcClock {
  import opened Bits
  import opened AdcSpec
  import opened AdcWire
  import opened FtPins

  import AdcConfig

  // The clock goes high and low; the last byte of the buffer is high again.
  function ClockByte(init: AdcInit, i: nat, n: nat): Byte {
    if i % 2 == 0 || i == n - 1 then One(init.clk) else ZERO
  }

  function ClockWave(init: AdcInit, n: nat): (r: seq<Byte>)
    ensures |r| == n
  {
    seq(n, i requires 0 <= i < n => ClockByte(init, i, n))
  }

  lemma MaskTwice(b: Byte, mask: Byte, v: Byte, w: Byte)
    requires Within(mask, v)
    ensures MaskWrite(MaskWrite(b, mask, v), mask, w) == MaskWrite(b, mask, w)
  {
    assert forall p :: 0 <= p < 8 ==> MaskWrite(MaskWrite(b, mask, v), mask, w)[p] == MaskWrite(b, mask, w)[p];
  }

  // The first i bytes are written, high and low in turn.
  ghost predicate Toggled(init: AdcInit, before: seq<Byte>, now: seq<Byte>, i: nat)
    requires init.Fits()
  {
    && |now| == |before|
    && forall k :: 0 <= k < |now| ==>
         now[k] == if k < i then MaskWrite(before[k], init.Mask(), if k % 2 == 0 then One(init.clk) else ZERO)
                   else before[k]
  }

  method Toggle(init: AdcInit, buff: array<Byte>, i: nat, ghost before: seq<Byte>)
    requires init.Fits() && i % 2 == 0 && i + 2 <= buff.Length && Toggled(init, before, buff[..], i)
    modifies buff
    ensures Toggled(init, before, buff[..], i + 2)
  {
    buff[i] := MaskWrite(buff[i], init.Mask(), One(init.clk));
    buff[i + 1] := MaskWrite(buff[i + 1], init.Mask(), ZERO);
  }

  /** The clock over the whole buffer, two bytes at a time. */
  method WriteClock(init: AdcInit, buff: array<Byte>, dwBuff: nat)
    requires init.Fits() && 0 < dwBuff <= buff.Length && dwBuff % 2 == 0
    modifies buff
    ensures Masked(old(buff[..]), buff[..], init.Mask(), ClockWave(init, dwBuff))
  {
    ghost var before := buff[..];
    var i := 0;
    while i < dwBuff
      invariant 0 <= i <= dwBuff && i % 2 == 0 && Toggled(init, before, buff[..], i)
    {
      Toggle(init, buff, i, before);
      i := i + 2;
    }
    MaskTwice(before[dwBuff - 1], init.Mask(), ZERO, One(init.clk));
    buff[dwBuff - 1] := MaskWrite(buff[dwBuff - 1], init.Mask(), One(init.clk));
  }

  /** The clock stays off the pins of others. */
  lemma ClockIsOwn(init: AdcInit, n: nat, i: nat)
    requires init.Fits() && i < n
    ensures Within(init.Mask(), ClockWave(init, n)[i])
  {
    MaskPins(init, init.clk);
  }

  // ------------------------------------------------------------ reading back

  // Every byte is read before it is written: the clock pin shows what was written
  // one byte earlier, and at first what was written last before.
  ghost predicate ReadBack(init: AdcInit, tx: seq<Byte>, rx: seq<Byte>, before: bool)
    requires init.Fits()
  {
    && |rx| == |tx|
    && forall i :: 0 <= i < |rx| ==> rx[i][init.clk] == if i == 0 then before else tx[i - 1][init.clk]
  }

  // The transmitted buffer carries the clock.
  ghost predicate Clocks(init: AdcInit, tx: seq<Byte>)
    requires init.Fits()
  {
    forall i :: 0 <= i < |tx| ==> tx[i][init.clk] == (i % 2 == 0 || i == |tx| - 1)
  }

  function Pairs(b: seq<Byte>): seq<Slot> {
    if |b| < 2 then [] else [Pair(b[0], b[1])] + Pairs(b[2..])
  }

  function SlotsOf(rx: seq<Byte>): seq<Slot> {
    if |rx| < 2 then [] else [High(rx[0])] + ([High(rx[1])] + Pairs(rx[2..]))
  }

  lemma {:induction false} PairsClocked(init: AdcInit, b: seq<Byte>)
    requires init.Fits() && |b| % 2 == 0 && forall i :: 0 <= i < |b| && i % 2 == 1 ==> b[i][init.clk]
    ensures BytesOf(Pairs(b)) == b && Clocked(init, Pairs(b))
    decreases |b|
  {
    if |b| < 2 {
    } else {
      assert forall i :: 0 <= i < |b| - 2 ==> b[2..][i] == b[i + 2];
      PairsClocked(init, b[2..]);
      assert b[1][init.clk];
      assert b == [b[0], b[1]] + b[2..];
      ClockedFirst(init, Pair(b[0], b[1]), Pairs(b[2..]));
    }
  }

  lemma ClockedFirst(init: AdcInit, s: Slot, rest: seq<Slot>)
    requires init.Fits() && Clocked(init, [s]) && Clocked(init, rest)
    ensures Clocked(init, [s] + rest)
    ensures BytesOf([s] + rest) == SlotBytes(s) + BytesOf(rest)
  {
    assert [s][0] == s;
    var all := [s] + rest;
    assert all[1..] == rest;
    forall k | 0 <= k < |all|
      ensures match all[k] case High(b) => b[init.clk] case Pair(lo, hi) => hi[init.clk]
    {
      if k > 0 { assert all[k] == rest[k - 1]; }
    }
  }

  lemma SplitTwo(rx: seq<Byte>)
    requires |rx| >= 2
    ensures [rx[0]] + ([rx[1]] + rx[2..]) == rx
  {}

  lemma SlotsClocked(init: AdcInit, rx: seq<Byte>)
    requires init.Fits() && |rx| >= 2 && |rx| % 2 == 0 && rx[0][init.clk]
    requires forall i :: 0 <= i < |rx| && i % 2 == 1 ==> rx[i][init.clk]
    ensures rx == BytesOf(SlotsOf(rx)) && Clocked(init, SlotsOf(rx))
  {
    var b := rx[2..];
    forall i | 0 <= i < |b| && i % 2 == 1 ensures b[i][init.clk] { assert b[i] == rx[i + 2]; }
    PairsClocked(init, b);
    assert [High(rx[1])][0] == High(rx[1]) && [High(rx[0])][0] == High(rx[0]);
    ClockedFirst(init, High(rx[1]), Pairs(b));
    ClockedFirst(init, High(rx[0]), [High(rx[1])] + Pairs(b));
    SplitTwo(rx);
  }

  /** What is read back while the clock runs is a list of clocked slots, the last
      byte has the clock high, and so has the last byte written: the next buffer
      begins with the clock high too. */
  lemma ReadBackIsClocked(init: AdcInit, tx: seq<Byte>, rx: seq<Byte>)
    requires init.Fits() && Clocks(init, tx) && ReadBack(init, tx, rx, true) && |tx| >= 2 && |tx| % 2 == 0
    ensures rx == BytesOf(SlotsOf(rx)) && Clocked(init, SlotsOf(rx))
    ensures rx[|rx| - 1][init.clk] && tx[|tx| - 1][init.clk]
  {
    forall i | 0 <= i < |rx| && i % 2 == 1 ensures rx[i][init.clk] { assert tx[i - 1][init.clk]; }
    SlotsClocked(init, rx);
  }

  // ----------------------------------------------- from the loops to the reads

  // Devices that leave the ADC's clock alone.
  ghost predicate Spares(init: AdcInit, ws: seq<Writer>, n: nat)
    requires init.Fits()
  {
    forall j :: 0 <= j < |ws| ==> WriterOk(ws[j], n) && !Owns(ws[j], init.clk)
  }

  ghost predicate AllSpare(init: AdcInit, turns: seq<seq<Writer>>, n: nat)
    requires init.Fits()
  {
    forall j :: 0 <= j < |turns| ==> Spares(init, turns[j], n)
  }

  // Devices that leave it alone at the end of the buffer.
  ghost predicate KeepEnd(init: AdcInit, ws: seq<Writer>, n: nat)
    requires init.Fits()
  {
    forall j :: 0 <= j < |ws| ==> WriterOk(ws[j], n) && (Owns(ws[j], init.clk) ==> |ws[j].wave| < n)
  }

  // The shared buffer after so many turns of all devices.
  function Evolve(buff: seq<Byte>, turns: seq<seq<Writer>>): (r: seq<Byte>)
    ensures |r| == |buff|
    decreases |turns|
  {
    if turns == [] then buff else Passes(Evolve(buff, turns[..|turns| - 1]), turns[|turns| - 1])
  }

  lemma {:induction false} EvolvedLevel(init: AdcInit, buff: seq<Byte>, turns: seq<seq<Writer>>, i: nat)
    requires init.Fits() && AllSpare(init, turns, |buff|) && i < |buff|
    ensures Evolve(buff, turns)[i][init.clk] == buff[i][init.clk]
    decreases |turns|
  {
    if turns == [] {
    } else {
      var n := |turns| - 1;
      EvolvedLevel(init, buff, turns[..n], i);
      assert Spares(init, turns[n], |buff|);
      PassesElsewhere(Evolve(buff, turns[..n]), turns[n], i, init.clk);
    }
  }

  lemma {:induction false} PassesKeepEnd(init: AdcInit, buff: seq<Byte>, ws: seq<Writer>)
    requires init.Fits() && KeepEnd(init, ws, |buff|) && buff != []
    ensures Passes(buff, ws)[|buff| - 1][init.clk] == buff[|buff| - 1][init.clk]
    decreases |ws|
  {
    if ws == [] {
    } else {
      if !Owns(ws[0], init.clk) { PassElsewhere(buff, ws[0], |buff| - 1, init.clk); }
      assert forall j :: 0 <= j < |ws| - 1 ==> ws[1..][j] == ws[j + 1];
      PassesKeepEnd(init, Pass(buff, ws[0]), ws[1..]);
    }
  }

  lemma {:induction false} EvolvedEnd(init: AdcInit, buff: seq<Byte>, turns: seq<seq<Writer>>)
    requires init.Fits() && buff != [] && forall j :: 0 <= j < |turns| ==> KeepEnd(init, turns[j], |buff|)
    ensures Evolve(buff, turns)[|buff| - 1][init.clk] == buff[|buff| - 1][init.clk]
    decreases |turns|
  {
    if turns == [] {
    } else {
      var n := |turns| - 1;
      EvolvedEnd(init, buff, turns[..n]);
      PassesKeepEnd(init, Evolve(buff, turns[..n]), turns[n]);
    }
  }

  /** How an ADC gets to run: its reset is written to some buffer; there are turns
      of all devices, its own configuration among them; its clock is written,
      again to any buffer; and then every transfer has two turns of the others. */
  datatype Session = Session(blank: seq<Byte>, reset: seq<Byte>, dialogue: seq<seq<Writer>>,
                             before: seq<Byte>, start: seq<Byte>, turns: seq<seq<Writer>>)
  {
    // The size of the transfers.
    function Size(): nat { |blank| }

    // The last buffer sent before the clock.
    function Prior(): seq<Byte> { Evolve(reset, dialogue) }

    // Buffer k sent with the clock: the devices have had their turn before it.
    function Sent(k: nat): seq<Byte>
      requires 2 * k + 1 <= |turns|
    {
      Evolve(start, turns[..2 * k + 1])
    }
  }

  ghost predicate SessionOk(init: AdcInit, t: Session)
    requires init.Fits()
  {
    && |t.before| == t.Size() > 2 * AdcConfig.RESET_PAIRS && t.Size() % 2 == 0
    && Masked(t.blank, t.reset, init.Mask(), AdcConfig.ResetWave(init, t.Size()))
    && (forall j :: 0 <= j < |t.dialogue| ==> KeepEnd(init, t.dialogue[j], t.Size()))
    && Masked(t.before, t.start, init.Mask(), ClockWave(init, t.Size()))
    && AllSpare(init, t.turns, t.Size())
  }

  // What is read while these buffers are sent.
  ghost predicate ReadsOf(init: AdcInit, t: Session, buffers: seq<seq<Byte>>)
    requires init.Fits() && t.Size() > 0
  {
    && 2 * |buffers| <= |t.turns| && |t.reset| == t.Size() == |t.start|
    && forall k :: 0 <= k < |buffers| ==>
         ReadBack(init, t.Sent(k), buffers[k],
                  if k == 0 then t.Prior()[t.Size() - 1][init.clk] else t.Sent(k - 1)[t.Size() - 1][init.clk])
  }

  /** The configuration and what follows the reset are shorter than the buffer, so
      they are such turns. */
  lemma DialogueKeepsEnd(init: AdcInit, n: nat, word: seq<bool>)
    requires init.Fits() && |word| == AdcConfig.WORD_BITS && n > 162
    ensures KeepEnd(init, [Writer(init.Mask(), AdcConfig.ConfigWave(init, word)),
                           Writer(init.Mask(), AdcConfig.ResetDone(init))], n)
  {
    AdcConfig.SequencesAreOwn(init, n, word);
    AdcConfig.ConfigLength(init, word);
  }

  /** Before the clock runs it is high at the end of the buffer. */
  lemma PriorEndsHigh(init: AdcInit, t: Session)
    requires init.Fits() && SessionOk(init, t)
    ensures |t.reset| == t.Size() && t.Prior()[t.Size() - 1][init.clk]
  {
    MaskPins(init, init.clk);
    EvolvedEnd(init, t.reset, t.dialogue);
  }

  lemma WrittenClocks(init: AdcInit, before: seq<Byte>, after: seq<Byte>, n: nat)
    requires init.Fits() && |before| == n && Masked(before, after, init.Mask(), ClockWave(init, n))
    ensures Clocks(init, after)
  {
    MaskPins(init, init.clk);
  }

  /** Every buffer sent carries the clock. */
  lemma SentClocks(init: AdcInit, t: Session, k: nat)
    requires init.Fits() && SessionOk(init, t) && 2 * k + 1 <= |t.turns|
    ensures |t.Sent(k)| == t.Size() && Clocks(init, t.Sent(k))
  {
    WrittenClocks(init, t.before, t.start, t.Size());
    assert AllSpare(init, t.turns[..2 * k + 1], t.Size());
    forall i | 0 <= i < t.Size() ensures t.Sent(k)[i][init.clk] == (i % 2 == 0 || i == t.Size() - 1) {
      EvolvedLevel(init, t.start, t.turns[..2 * k + 1], i);
    }
  }

  /** So everything that is read is clocked, and every buffer ends with the clock high. */
  lemma ReadsEndHigh(init: AdcInit, t: Session, buffers: seq<seq<Byte>>)
    requires init.Fits() && SessionOk(init, t) && ReadsOf(init, t, buffers)
    ensures EndHigh(init, buffers)
    ensures forall k :: 0 <= k < |buffers| ==>
      buffers[k] == BytesOf(SlotsOf(buffers[k])) && Clocked(init, SlotsOf(buffers[k]))
  {
    PriorEndsHigh(init, t);
    forall k | 0 <= k < |buffers|
      ensures buffers[k] != [] && buffers[k][|buffers[k]| - 1][init.clk]
      ensures buffers[k] == BytesOf(SlotsOf(buffers[k])) && Clocked(init, SlotsOf(buffers[k]))
    {
      SentClocks(init, t, k);
      if k > 0 {
        SentClocks(init, t, k - 1);
        assert t.Sent(k - 1)[t.Size() - 1][init.clk];
      }
      var before := if k == 0 then t.Prior()[t.Size() - 1][init.clk] else t.Sent(k - 1)[t.Size() - 1][init.clk];
      assert before && ReadBack(init, t.Sent(k), buffers[k], before);
      ReadBackIsClocked(init, t.Sent(k), buffers[k]);
    }
  }
}
