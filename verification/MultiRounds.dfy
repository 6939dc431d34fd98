/**
 A shift register writer among the other devices of its channel: whatever they
 do to their own pins, the outputs of its chain are those of its last wave.
 */
module MultiRounds {
  import opened Bits
  import opened FtPins
  import opened MultiWrite
  import opened ShiftRegisters

  // What the writer does in its turn before a write.
  datatype Act = Nothing | Update(data: seq<bool>) | Shutdown

  /** One write of the channel: the devices that have their turn before and after
      the writer, before the write and after it, and how much of the buffer is
      sent. */
  datatype Round = Round(before: seq<Writer>, act: Act, after: seq<Writer>,
                         beforeRest: seq<Writer>, afterRest: seq<Writer>, size: nat)

  // The shared buffer and the chain.
  datatype Bus = Bus(buff: seq<Byte>, chain: Chain)

  // What the writer writes before a write, and after it.
  function WriteOf(init: ValveInit, act: Act, n: nat): Writer
    requires init.Fits() && (act.Update? ==> |act.data| == init.Outputs())
  {
    match act
    case Nothing => Writer(init.Mask(), [])
    case Update(data) => Writer(init.Mask(), WriteWave(init, data))
    case Shutdown => Writer(init.Mask(), Repeat(One(init.latch), n))
  }

  function RestOf(init: ValveInit, act: Act): Writer
    requires init.Fits()
  {
    Writer(init.Mask(), if act.Update? then Repeat(One(init.latch), WaveSize(init)) else [])
  }

  // Devices that own none of the writer's pins.
  ghost predicate Others(init: ValveInit, ws: seq<Writer>, n: nat)
    requires init.Fits()
  {
    forall k :: 0 <= k < |ws| ==>
      WriterOk(ws[k], n) && !Owns(ws[k], init.clk) && !Owns(ws[k], init.data) && !Owns(ws[k], init.latch)
  }

  ghost predicate RoundOk(init: ValveInit, r: Round, n: nat)
    requires init.Fits()
  {
    && 0 < r.size <= n && (r.act.Update? ==> |r.act.data| == init.Outputs() && WaveSize(init) <= r.size)
    && Others(init, r.before, n) && Others(init, r.after, n)
    && Others(init, r.beforeRest, n) && Others(init, r.afterRest, n)
  }

  // The buffer as it is sent, and as it is left.
  function SentBy(init: ValveInit, buff: seq<Byte>, r: Round): (s: seq<Byte>)
    requires init.Fits() && (r.act.Update? ==> |r.act.data| == init.Outputs())
    ensures |s| == |buff|
  {
    Passes(Pass(Passes(buff, r.before), WriteOf(init, r.act, |buff|)), r.after)
  }

  function LeftBy(init: ValveInit, sent: seq<Byte>, r: Round): (s: seq<Byte>)
    requires init.Fits()
    ensures |s| == |sent|
  {
    Passes(Pass(Passes(sent, r.beforeRest), RestOf(init, r.act)), r.afterRest)
  }

  // The first bytes of the buffer are sent.
  function AfterRound(init: ValveInit, falling: bool, b: Bus, r: Round): Bus
    requires init.Fits() && (r.act.Update? ==> |r.act.data| == init.Outputs()) && r.size <= |b.buff|
  {
    var sent := SentBy(init, b.buff, r);
    Bus(LeftBy(init, sent, r), Drive(init, falling, b.chain, sent[..r.size]))
  }

  ghost predicate RoundsOk(init: ValveInit, rounds: seq<Round>, n: nat)
    requires init.Fits()
  {
    forall k :: 0 <= k < |rounds| ==> RoundOk(init, rounds[k], n)
  }

  ghost function AfterRounds(init: ValveInit, falling: bool, b: Bus, rounds: seq<Round>): (r: Bus)
    requires init.Fits() && RoundsOk(init, rounds, |b.buff|)
    ensures |r.buff| == |b.buff|
    decreases |rounds|
  {
    if rounds == [] then b
    else
      var k := |rounds| - 1;
      assert RoundOk(init, rounds[k], |b.buff|);
      AfterRound(init, falling, AfterRounds(init, falling, b, rounds[..k]), rounds[k])
  }

  // ------------------------------------------------------ pins of the writer

  // Others have written to the buffer, but not to the pins of the writer.
  ghost predicate OthersWrote(init: ValveInit, before: seq<Byte>, after: seq<Byte>)
    requires init.Fits()
  {
    AllOnPins(init, after, before)
  }

  /** The pass of a device that does not own the pins of the writer is such a
      write of others, */
  lemma PassIsOther(init: ValveInit, buff: seq<Byte>, w: Writer)
    requires init.Fits() && WriterOk(w, |buff|)
    requires !Owns(w, init.clk) && !Owns(w, init.data) && !Owns(w, init.latch)
    ensures OthersWrote(init, buff, Pass(buff, w))
  {
    forall i | 0 <= i < |buff| ensures OnPins(init, Pass(buff, w)[i], buff[i]) {
      PassElsewhere(buff, w, i, init.clk);
      PassElsewhere(buff, w, i, init.data);
      PassElsewhere(buff, w, i, init.latch);
    }
  }

  /** and so are the passes of all of them. */
  lemma {:induction false} PassesAreOther(init: ValveInit, buff: seq<Byte>, ws: seq<Writer>)
    requires init.Fits() && Others(init, ws, |buff|)
    ensures OthersWrote(init, buff, Passes(buff, ws))
    decreases |ws|
  {
    if ws == [] {
    } else {
      PassIsOther(init, buff, ws[0]);
      assert forall k :: 0 <= k < |ws| - 1 ==> ws[1..][k] == ws[k + 1];
      PassesAreOther(init, Pass(buff, ws[0]), ws[1..]);
    }
  }

  // The levels on the writer's pins of byte i of the buffer that is sent.
  function LevelsSent(init: ValveInit, buff: seq<Byte>, act: Act, i: nat): Byte
    requires init.Fits() && i < |buff| && (act.Update? ==> |act.data| == init.Outputs())
  {
    var wave := WriteOf(init, act, |buff|).wave;
    if i < |wave| then wave[i] else buff[i]
  }

  lemma SentLevels(init: ValveInit, buff: seq<Byte>, r: Round, i: nat)
    requires init.Fits() && RoundOk(init, r, |buff|) && i < |buff|
    ensures OnPins(init, SentBy(init, buff, r)[i], LevelsSent(init, buff, r.act, i))
  {
    var w := WriteOf(init, r.act, |buff|);
    var turn := Passes(buff, r.before);
    PassesAreOther(init, buff, r.before);
    PassesAreOther(init, Pass(turn, w), r.after);
    assert OnPins(init, turn[i], buff[i]);
    assert OnPins(init, SentBy(init, buff, r)[i], Pass(turn, w)[i]);
    if i < |w.wave| { WrittenOnPins(init, turn[i], w.wave[i]); }
  }

  lemma LeftLevels(init: ValveInit, sent: seq<Byte>, r: Round, i: nat)
    requires init.Fits() && RoundOk(init, r, |sent|) && i < |sent|
    ensures OnPins(init, LeftBy(init, sent, r)[i],
                   if r.act.Update? && i < WaveSize(init) then One(init.latch) else sent[i])
  {
    var w := RestOf(init, r.act);
    var turn := Passes(sent, r.beforeRest);
    PassesAreOther(init, sent, r.beforeRest);
    PassesAreOther(init, Pass(turn, w), r.afterRest);
    assert OnPins(init, turn[i], sent[i]);
    assert OnPins(init, LeftBy(init, sent, r)[i], Pass(turn, w)[i]);
    if i < |w.wave| { WrittenOnPins(init, turn[i], w.wave[i]); }
  }

  // --------------------------------------------------------- quiet buffers

  ghost predicate LowClock(init: ValveInit, buff: seq<Byte>)
    requires init.Fits()
  {
    forall i :: 0 <= i < |buff| ==> !buff[i][init.clk]
  }

  ghost predicate AllLatch(init: ValveInit, buff: seq<Byte>, level: bool)
    requires init.Fits()
  {
    forall i :: 0 <= i < |buff| ==> buff[i][init.latch] == level
  }

  /** Without clock edges the register stays; the outputs stay too if they show it
      already, or if the latch does not rise. */
  lemma {:induction false} QuietDrive(init: ValveInit, falling: bool, c: Chain, bytes: seq<Byte>)
    requires init.Fits() && !c.clk && LowClock(init, bytes)
    ensures var r := Drive(init, falling, c, bytes);
      && !r.clk && r.reg == c.reg && (r.out == c.out || r.out == c.reg)
      && r.latch == (if bytes == [] then c.latch else bytes[|bytes| - 1][init.latch])
      && (AllLatch(init, bytes, false) || (c.latch && AllLatch(init, bytes, true)) ==> r.out == c.out)
      && (!c.latch && bytes != [] && AllLatch(init, bytes, true) ==> r.out == c.reg)
    decreases |bytes|
  {
    if bytes == [] {
    } else {
      assert !bytes[0][init.clk];
      assert forall i :: 0 <= i < |bytes| - 1 ==> bytes[1..][i] == bytes[i + 1];
      QuietDrive(init, falling, Tick(init, falling, c, bytes[0]), bytes[1..]);
    }
  }

  // The outputs show the register, or the levels are those of rest.
  ghost predicate Fixed(init: ValveInit, b: Bus)
    requires init.Fits()
  {
    b.chain.reg == b.chain.out || (b.chain.latch && AllLatch(init, b.buff, true))
  }

  /** Between two writes: the clock is low everywhere; and unless the bus is fixed,
      the latch is low everywhere, as in a buffer that was never written to. */
  ghost predicate Settled(init: ValveInit, b: Bus)
    requires init.Fits()
  {
    Ready(init, b.chain) && LowClock(init, b.buff) && (Fixed(init, b) || AllLatch(init, b.buff, false))
  }

  lemma NothingRound(init: ValveInit, falling: bool, b: Bus, r: Round)
    requires init.Fits() && RoundOk(init, r, |b.buff|) && Settled(init, b) && r.act == Nothing
    ensures var b' := AfterRound(init, falling, b, r);
      Settled(init, b') && b'.chain.out == b.chain.out && b'.chain.reg == b.chain.reg
      && (Fixed(init, b) ==> Fixed(init, b'))
      && (AllLatch(init, b.buff, false) ==> AllLatch(init, b'.buff, false) && (!b.chain.latch ==> !b'.chain.latch))
  {
    var sent := SentBy(init, b.buff, r);
    forall i | 0 <= i < |sent| ensures OnPins(init, sent[i], b.buff[i]) { SentLevels(init, b.buff, r, i); }
    forall i | 0 <= i < |sent| ensures OnPins(init, LeftBy(init, sent, r)[i], b.buff[i]) {
      LeftLevels(init, sent, r, i);
    }
    QuietDrive(init, falling, b.chain, sent[..r.size]);
  }

  lemma ShutdownRound(init: ValveInit, falling: bool, b: Bus, r: Round)
    requires init.Fits() && RoundOk(init, r, |b.buff|) && Settled(init, b) && r.act == Shutdown
    ensures var b' := AfterRound(init, falling, b, r);
      Settled(init, b') && Fixed(init, b') && b'.chain.reg == b.chain.reg
      && (Fixed(init, b) ==> b'.chain.out == b.chain.out)
      && (!b.chain.latch ==> b'.chain.out == b.chain.reg)
  {
    var sent := SentBy(init, b.buff, r);
    forall i | 0 <= i < |sent| ensures OnPins(init, sent[i], One(init.latch)) { SentLevels(init, b.buff, r, i); }
    forall i | 0 <= i < |sent| ensures OnPins(init, LeftBy(init, sent, r)[i], sent[i]) { LeftLevels(init, sent, r, i); }
    QuietDrive(init, falling, b.chain, sent[..r.size]);
  }

  lemma UpdateRound(init: ValveInit, falling: bool, b: Bus, r: Round)
    requires init.Fits() && RoundOk(init, r, |b.buff|) && Settled(init, b) && r.act.Update?
    ensures var b' := AfterRound(init, falling, b, r);
      Settled(init, b') && b'.chain.reg == b'.chain.out == Shown(init.boards, r.act.data)
  {
    var sent, wave := SentBy(init, b.buff, r), WriteWave(init, r.act.data);
    var n := |wave|;
    WaveLength(init, r.act.data);
    forall i | 0 <= i < |sent| ensures OnPins(init, sent[i], if i < n then wave[i] else b.buff[i]) {
      SentLevels(init, b.buff, r, i);
    }
    UpdateShown(init, falling, b.chain, sent[..r.size], r.act.data);
    forall i | 0 <= i < |sent| ensures !LeftBy(init, sent, r)[i][init.clk] {
      LeftLevels(init, sent, r, i);
      if i >= n { assert OnPins(init, sent[i], b.buff[i]); }
    }
  }

  lemma UpdateShown(init: ValveInit, falling: bool, c: Chain, sent: seq<Byte>, data: seq<bool>)
    requires init.Fits() && Ready(init, c) && |data| == init.Outputs() && |WriteWave(init, data)| <= |sent|
    requires forall i :: 0 <= i < |WriteWave(init, data)| ==> OnPins(init, sent[i], WriteWave(init, data)[i])
    requires forall i :: |WriteWave(init, data)| <= i < |sent| ==> !sent[i][init.clk]
    ensures var r := Drive(init, falling, c, sent);
      Ready(init, r) && r.reg == r.out == Shown(init.boards, data)
  {
    var n := |WriteWave(init, data)|;
    assert sent == sent[..n] + sent[n..];
    DriveAppend(init, falling, c, sent[..n], sent[n..]);
    WaveIsShown(init, falling, c, data, sent[..n]);
    QuietDrive(init, falling, Drive(init, falling, c, sent[..n]), sent[n..]);
  }

  // ------------------------------------------------------------ all rounds

  predicate Has(rounds: seq<Round>, shutdown: bool) {
    exists k :: 0 <= k < |rounds| && if shutdown then rounds[k].act.Shutdown? else rounds[k].act.Update?
  }

  // What the last update shows.
  ghost function LastShown(init: ValveInit, out: seq<bool>, rounds: seq<Round>, n: nat): seq<bool>
    requires init.Fits() && RoundsOk(init, rounds, n)
    decreases |rounds|
  {
    if rounds == [] then out
    else
      var k := |rounds| - 1;
      assert RoundOk(init, rounds[k], n);
      if rounds[k].act.Update? then Shown(init.boards, rounds[k].act.data) else LastShown(init, out, rounds[..k], n)
  }

  lemma HasLast(rounds: seq<Round>, shutdown: bool)
    requires rounds != []
    ensures var act := rounds[|rounds| - 1].act;
      Has(rounds, shutdown)
      <==> Has(rounds[..|rounds| - 1], shutdown) || if shutdown then act.Shutdown? else act.Update?
  {
    var before := rounds[..|rounds| - 1];
    if Has(before, shutdown) {
      var k :| 0 <= k < |before| && if shutdown then before[k].act.Shutdown? else before[k].act.Update?;
      assert rounds[k] == before[k];
    }
    if Has(rounds, shutdown) {
      var k :| 0 <= k < |rounds| && if shutdown then rounds[k].act.Shutdown? else rounds[k].act.Update?;
      if k < |before| { assert before[k] == rounds[k]; }
    }
  }

  /** Over any writes of the channel: the chain shows the data of the last wave of
      its writer, or what it showed at first. Only a shutdown before the first
      wave may change the outputs, of a chain that was not fixed to begin with. */
  lemma {:induction false} RoundsShowLast(init: ValveInit, falling: bool, b: Bus, rounds: seq<Round>)
    requires init.Fits() && RoundsOk(init, rounds, |b.buff|) && Settled(init, b)
    ensures var b' := AfterRounds(init, falling, b, rounds);
      && Settled(init, b')
      && (Fixed(init, b) || Has(rounds, false) || !Has(rounds, true) ==>
            b'.chain.out == LastShown(init, b.chain.out, rounds, |b.buff|))
      && (Fixed(init, b) || Has(rounds, false) || Has(rounds, true) ==> Fixed(init, b'))
    decreases |rounds|
  {
    if rounds == [] {
    } else {
      var k := |rounds| - 1;
      var r, b1 := rounds[k], AfterRounds(init, falling, b, rounds[..k]);
      assert RoundOk(init, r, |b.buff|);
      RoundsShowLast(init, falling, b, rounds[..k]);
      HasLast(rounds, false);
      HasLast(rounds, true);
      match r.act
      case Nothing => NothingRound(init, falling, b1, r);
      case Update(_) => UpdateRound(init, falling, b1, r);
      case Shutdown => ShutdownRound(init, falling, b1, r);
    }
  }

  /** That change happens: if the buffer was never written to, a shutdown before
      any wave shows whatever the registers hold. */
  lemma {:induction false} EarlyShutdown(init: ValveInit, falling: bool, b: Bus, rounds: seq<Round>)
    requires init.Fits() && RoundsOk(init, rounds, |b.buff|) && Settled(init, b)
    requires AllLatch(init, b.buff, false) && !b.chain.latch && !Has(rounds, false)
    ensures var b' := AfterRounds(init, falling, b, rounds);
      && Settled(init, b') && b'.chain.reg == b.chain.reg
      && (if Has(rounds, true) then Fixed(init, b') && b'.chain.out == b.chain.reg
          else AllLatch(init, b'.buff, false) && !b'.chain.latch && b'.chain.out == b.chain.out)
    decreases |rounds|
  {
    if rounds == [] {
    } else {
      var k := |rounds| - 1;
      var r, b1 := rounds[k], AfterRounds(init, falling, b, rounds[..k]);
      assert RoundOk(init, r, |b.buff|);
      HasLast(rounds, false);
      HasLast(rounds, true);
      EarlyShutdown(init, falling, b, rounds[..k]);
      if r.act == Nothing { NothingRound(init, falling, b1, r); } else { ShutdownRound(init, falling, b1, r); }
    }
  }

  /** The buffer that the channel allocates is a start of such rounds, and so is
      one at rest. */
  lemma Starts(init: ValveInit, c: Chain, n: nat, buff: seq<Byte>)
    requires init.Fits() && Ready(init, c)
    ensures Settled(init, Bus(Repeat(ZERO, n), c)) && AllLatch(init, Repeat(ZERO, n), false)
    ensures AtRest(init, buff) && c.latch ==> Settled(init, Bus(buff, c)) && Fixed(init, Bus(buff, c))
  {
    if AtRest(init, buff) {
      forall i | 0 <= i < |buff| ensures !buff[i][init.clk] && buff[i][init.latch] {
        assert OnPins(init, buff[i], One(init.latch));
      }
    }
  }
}
