/**
 Chains of shift registers on three pins of the bus: what the waveforms of the
 source do to simulated 74HC595 and 74HC165 chains.
 */
module ShiftRegisters {
  import opened Bits
  import opened FtPins
  import opened Options
  import opened Sequences

  datatype ValveInit = ValveInit(boards: nat, clkPerData: nat, clk: nat, data: nat, latch: nat)
  {
    predicate Fits() {
      && boards > 0 && clkPerData > 0 && clk < 8 && data < 8 && latch < 8
      && clk != data && clk != latch && data != latch
    }

    function Outputs(): nat { boards * 8 }

    // The pins of others.
    function Mask(): Byte
      requires Fits()
    {
      Not(Or(Or(One(latch), One(clk)), One(data)))
    }
  }

  // ------------------------------------------------------------ 74HC595 chain

  // Stage 0 is the one next to the computer; out is what the latches show; and
  // how often they have been loaded.
  datatype Chain = Chain(reg: seq<bool>, out: seq<bool>, loads: nat, clk: bool, latch: bool)

  // One byte on the bus: the data line enters the chain at the clock edge, the
  // falling or the rising one; the latches are loaded when the latch line rises.
  function Tick(init: ValveInit, falling: bool, c: Chain, b: Byte): Chain
    requires init.Fits()
  {
    var edge := if falling then c.clk && !b[init.clk] else !c.clk && b[init.clk];
    var reg := if edge && c.reg != [] then [b[init.data]] + c.reg[..|c.reg| - 1] else c.reg;
    if !c.latch && b[init.latch] then Chain(reg, reg, c.loads + 1, b[init.clk], b[init.latch])
    else Chain(reg, c.out, c.loads, b[init.clk], b[init.latch])
  }

  function Drive(init: ValveInit, falling: bool, c: Chain, bytes: seq<Byte>): Chain
    requires init.Fits()
    decreases |bytes|
  {
    if bytes == [] then c else Drive(init, falling, Tick(init, falling, c, bytes[0]), bytes[1..])
  }

  // The byte carries, on the pins of the device, the levels of b.
  predicate OnPins(init: ValveInit, a: Byte, b: Byte)
    requires init.Fits()
  {
    a[init.clk] == b[init.clk] && a[init.data] == b[init.data] && a[init.latch] == b[init.latch]
  }

  predicate AllOnPins(init: ValveInit, a: seq<Byte>, b: seq<Byte>)
    requires init.Fits()
  {
    |a| == |b| && forall i :: 0 <= i < |a| ==> OnPins(init, a[i], b[i])
  }

  // Only the device's own pins matter.
  lemma {:induction false} DriveOnPins(init: ValveInit, falling: bool, c: Chain, a: seq<Byte>, b: seq<Byte>)
    requires init.Fits() && AllOnPins(init, a, b)
    ensures Drive(init, falling, c, a) == Drive(init, falling, c, b)
    decreases |a|
  {
    if a == [] {
    } else {
      assert OnPins(init, a[0], b[0]);
      assert forall i :: 0 <= i < |a| - 1 ==> a[1..][i] == a[i + 1] && b[1..][i] == b[i + 1];
      DriveOnPins(init, falling, Tick(init, falling, c, a[0]), a[1..], b[1..]);
    }
  }

  lemma {:induction false} DriveAppend(init: ValveInit, falling: bool, c: Chain, a: seq<Byte>, b: seq<Byte>)
    requires init.Fits()
    ensures Drive(init, falling, c, a + b) == Drive(init, falling, Drive(init, falling, c, a), b)
    decreases |a|
  {
    if a == [] {
      assert a + b == b;
    } else {
      assert (a + b)[0] == a[0] && (a + b)[1..] == a[1..] + b;
      DriveAppend(init, falling, Tick(init, falling, c, a[0]), a[1..], b);
    }
  }

  // Holding the levels changes nothing.
  lemma {:induction false} DriveRepeat(init: ValveInit, falling: bool, c: Chain, b: Byte, n: nat)
    requires init.Fits() && n > 0
    ensures Drive(init, falling, c, Repeat(b, n)) == Tick(init, falling, c, b)
    decreases n
  {
    var c1 := Tick(init, falling, c, b);
    assert Repeat(b, n)[1..] == Repeat(b, n - 1);
    if n <= 1 {
    } else {
      DriveRepeat(init, falling, c1, b, n - 1);
      assert Tick(init, falling, c1, b) == c1;
    }
  }

  /** Stretching every tick of the clock makes no difference to a chain. */
  lemma {:induction false} DriveStretch(init: ValveInit, falling: bool, c: Chain, units: seq<Byte>)
    requires init.Fits()
    ensures Drive(init, falling, c, Stretch(units, init.clkPerData)) == Drive(init, falling, c, units)
    decreases |units|
  {
    if units == [] {
    } else {
      var first := Repeat(units[0], init.clkPerData);
      DriveRepeat(init, falling, c, units[0], init.clkPerData);
      DriveAppend(init, falling, c, first, Stretch(units[1..], init.clkPerData));
      DriveStretch(init, falling, Tick(init, falling, c, units[0]), units[1..]);
    }
  }

  // ---------------------------------------------------------- writing a chain

  // The output that is sent k-th: the board that comes last in the data is sent first.
  function Sent(boards: nat, k: nat): (i: nat)
    requires k < boards * 8
    ensures i < boards * 8
  {
    (boards - 1 - k / 8) * 8 + k % 8
  }

  // A bit on the data line, with the clock as given.
  function DataByte(init: ValveInit, bit: bool, clock: bool): Byte {
    Or(if bit then One(init.data) else ZERO, if clock then One(init.clk) else ZERO)
  }

  // The data in the order in which it is sent.
  function InOrder(boards: nat, data: seq<bool>): (bits: seq<bool>)
    requires |data| == boards * 8
    ensures |bits| == |data|
  {
    seq(boards * 8, k requires 0 <= k < boards * 8 => data[Sent(boards, k)])
  }

  // Every bit is on the data line while the clock is high and then low.
  function BitUnits(init: ValveInit, bits: seq<bool>): seq<Byte> {
    if bits == [] then []
    else
      var n := |bits| - 1;
      BitUnits(init, bits[..n]) + [DataByte(init, bits[n], true), DataByte(init, bits[n], false)]
  }

  function WriteUnits(init: ValveInit, data: seq<bool>): seq<Byte>
    requires |data| == init.Outputs()
  {
    BitUnits(init, InOrder(init.boards, data)) + [ZERO, One(init.latch)]
  }

  function WriteWave(init: ValveInit, data: seq<bool>): seq<Byte>
    requires |data| == init.Outputs()
  {
    Stretch(WriteUnits(init, data), init.clkPerData)
  }

  function Reversed(bits: seq<bool>): (r: seq<bool>)
    ensures |r| == |bits|
  {
    seq(|bits|, j requires 0 <= j < |bits| => bits[|bits| - 1 - j])
  }

  // The chain between two waves: the clock is low,
  predicate Ready(init: ValveInit, c: Chain) {
    !c.clk && |c.reg| == init.Outputs()
  }

  // and if nothing else has been written the latch is high.
  predicate Resting(init: ValveInit, c: Chain) {
    Ready(init, c) && c.latch
  }

  lemma DriveTwo(init: ValveInit, falling: bool, c: Chain, a: Byte, b: Byte)
    requires init.Fits()
    ensures Drive(init, falling, c, [a, b]) == Tick(init, falling, Tick(init, falling, c, a), b)
  {
    var c1 := Tick(init, falling, c, a);
    assert [a, b][1..] == [b] && [b][1..] == [];
    assert Drive(init, falling, c, [a, b]) == Drive(init, falling, c1, [b]);
    assert Drive(init, falling, c1, [b]) == Drive(init, falling, Tick(init, falling, c1, b), []);
  }

  lemma TwoTicks(init: ValveInit, falling: bool, c: Chain, bit: bool)
    requires init.Fits() && !c.clk && c.reg != []
    ensures Drive(init, falling, c, [DataByte(init, bit, true), DataByte(init, bit, false)])
         == Chain([bit] + c.reg[..|c.reg| - 1], c.out, c.loads, false, false)
  {
    var a, b := DataByte(init, bit, true), DataByte(init, bit, false);
    assert a[init.clk] && !b[init.clk] && a[init.data] == b[init.data] == bit && !a[init.latch] && !b[init.latch];
    DriveTwo(init, falling, c, a, b);
  }

  // The chain once these bits have entered it.
  function Entered(c: Chain, bits: seq<bool>): Chain
    requires |bits| <= |c.reg|
  {
    Chain(Reversed(bits) + c.reg[..|c.reg| - |bits|], c.out, c.loads, false, c.latch && bits == [])
  }

  lemma EntersOne(init: ValveInit, falling: bool, c: Chain, bits: seq<bool>, bit: bool)
    requires init.Fits() && |bits| < |c.reg|
    ensures Drive(init, falling, Entered(c, bits), [DataByte(init, bit, true), DataByte(init, bit, false)])
         == Entered(c, bits + [bit])
  {
    var before := Entered(c, bits);
    TwoTicks(init, falling, before, bit);
    EnteredReg(c.reg, bits, bit);
  }

  lemma EnteredReg(reg: seq<bool>, bits: seq<bool>, bit: bool)
    requires |bits| < |reg|
    ensures var before := Reversed(bits) + reg[..|reg| - |bits|];
      [bit] + before[..|before| - 1] == Reversed(bits + [bit]) + reg[..|reg| - |bits + [bit]|]
  {
    var before := Reversed(bits) + reg[..|reg| - |bits|];
    ReversedSnoc(bits, bit);
    assert before[..|before| - 1] == Reversed(bits) + reg[..|reg| - |bits + [bit]|];
  }

  lemma ReversedSnoc(bits: seq<bool>, bit: bool)
    ensures Reversed(bits + [bit]) == [bit] + Reversed(bits)
  {}

  lemma SplitLast<T>(s: seq<T>)
    requires s != []
    ensures s[..|s| - 1] + [s[|s| - 1]] == s
  {}

  lemma {:induction false} ShiftedIn(init: ValveInit, falling: bool, c: Chain, bits: seq<bool>)
    requires init.Fits() && |bits| <= |c.reg| && !c.clk
    ensures Drive(init, falling, c, BitUnits(init, bits)) == Entered(c, bits)
  {
    if bits == [] {
      assert Reversed([]) + c.reg[..|c.reg|] == c.reg;
    } else {
      var n := |bits| - 1;
      var last := [DataByte(init, bits[n], true), DataByte(init, bits[n], false)];
      SplitLast(bits);
      ShiftedIn(init, falling, c, bits[..n]);
      DriveAppend(init, falling, c, BitUnits(init, bits[..n]), last);
      EntersOne(init, falling, c, bits[..n], bits[n]);
    }
  }

  /** What the chain shows after a wave: stage q of board b, counted from the
      computer, is data[8 b + 7 - q]. */
  function Shown(boards: nat, data: seq<bool>): (r: seq<bool>)
    requires |data| == boards * 8
    ensures |r| == boards * 8
  {
    seq(boards * 8, s requires 0 <= s < boards * 8 => data[s / 8 * 8 + 7 - s % 8])
  }

  /** Output q of board b, counted from the computer, is at stage 7 - q of its
      board's eight. */
  lemma ShownAt(boards: nat, data: seq<bool>, b: nat, q: nat)
    requires |data| == boards * 8 && b < boards && q < 8
    ensures b * 8 + 7 - q < boards * 8 && Shown(boards, data)[b * 8 + 7 - q] == data[b * 8 + q]
  {}

  lemma SentIsShown(boards: nat, data: seq<bool>)
    requires |data| == boards * 8
    ensures Reversed(InOrder(boards, data)) == Shown(boards, data)
  {
    forall s | 0 <= s < boards * 8
      ensures Reversed(InOrder(boards, data))[s] == Shown(boards, data)[s]
    {
      SentAt(boards, s, s / 8, s % 8);
    }
  }

  lemma SentAt(boards: nat, s: nat, b: nat, q: nat)
    requires s < boards * 8 && s == b * 8 + q && q < 8
    ensures Sent(boards, boards * 8 - 1 - s) == b * 8 + 7 - q
  {
    assert boards * 8 - 1 - s == (boards - 1 - b) * 8 + (7 - q);
  }

  lemma LatchTicks(init: ValveInit, falling: bool, c: Chain)
    requires init.Fits() && !c.clk && !c.latch
    ensures Drive(init, falling, c, [ZERO, One(init.latch)]) == Chain(c.reg, c.reg, c.loads + 1, false, true)
  {
    DriveTwo(init, falling, c, ZERO, One(init.latch));
  }

  /** A wave loads the latches once, with the data, whatever the chain held,
      for any number of boards, any stretch of the clock and either clock edge. */
  lemma WaveIsShown(init: ValveInit, falling: bool, c: Chain, data: seq<bool>, bytes: seq<Byte>)
    requires init.Fits() && |data| == init.Outputs() && Ready(init, c)
    requires AllOnPins(init, bytes, WriteWave(init, data))
    ensures Drive(init, falling, c, bytes)
         == Chain(Shown(init.boards, data), Shown(init.boards, data), c.loads + 1, false, true)
  {
    var bits := InOrder(init.boards, data);
    var units := BitUnits(init, bits);
    DriveOnPins(init, falling, c, bytes, WriteWave(init, data));
    DriveStretch(init, falling, c, WriteUnits(init, data));
    DriveAppend(init, falling, c, units, [ZERO, One(init.latch)]);
    ShiftedIn(init, falling, c, bits);
    SentIsShown(init.boards, data);
    assert Reversed(bits) + c.reg[..0] == Shown(init.boards, data);
    assert bits != [];
    LatchTicks(init, falling, Entered(c, bits));
  }

  lemma {:induction false} RestIsQuiet(init: ValveInit, falling: bool, c: Chain, bytes: seq<Byte>)
    requires init.Fits() && Resting(init, c)
    requires forall i :: 0 <= i < |bytes| ==> OnPins(init, bytes[i], One(init.latch))
    ensures Drive(init, falling, c, bytes) == c
    decreases |bytes|
  {
    if bytes == [] {
    } else {
      assert OnPins(init, bytes[0], One(init.latch));
      assert forall i :: 0 <= i < |bytes| - 1 ==> bytes[1..][i] == bytes[i + 1];
      RestIsQuiet(init, falling, c, bytes[1..]);
    }
  }

  // A transmitted buffer: a wave at its front if there is something to write,
  // and the resting levels in the rest of it.
  ghost predicate Carries(init: ValveInit, bytes: seq<Byte>, update: Option<seq<bool>>)
    requires init.Fits()
  {
    match update
    case None => forall i :: 0 <= i < |bytes| ==> OnPins(init, bytes[i], One(init.latch))
    case Some(data) =>
      && |data| == init.Outputs() && |WriteWave(init, data)| <= |bytes|
      && AllOnPins(init, bytes[..|WriteWave(init, data)|], WriteWave(init, data))
      && forall i :: |WriteWave(init, data)| <= i < |bytes| ==> OnPins(init, bytes[i], One(init.latch))
  }

  ghost predicate AllCarry(init: ValveInit, buffers: seq<seq<Byte>>, updates: seq<Option<seq<bool>>>)
    requires init.Fits()
  {
    && |buffers| == |updates| && Sized(init, updates)
    && forall k :: 0 <= k < |buffers| ==> Carries(init, buffers[k], updates[k])
  }

  predicate Sized(init: ValveInit, updates: seq<Option<seq<bool>>>) {
    forall k :: 0 <= k < |updates| && updates[k].Some? ==> |updates[k].value| == init.Outputs()
  }

  // What the last update shows.
  function LastShown(init: ValveInit, out: seq<bool>, updates: seq<Option<seq<bool>>>): seq<bool>
    requires Sized(init, updates)
    decreases |updates|
  {
    if updates == [] then out
    else
      var last := updates[|updates| - 1];
      if last.Some? then Shown(init.boards, last.value) else LastShown(init, out, updates[..|updates| - 1])
  }

  function DriveAll(init: ValveInit, falling: bool, c: Chain, buffers: seq<seq<Byte>>): Chain
    requires init.Fits()
    decreases |buffers|
  {
    if buffers == [] then c
    else
      var n := |buffers| - 1;
      Drive(init, falling, DriveAll(init, falling, c, buffers[..n]), buffers[n])
  }

  lemma OneBuffer(init: ValveInit, falling: bool, c: Chain, bytes: seq<Byte>, update: Option<seq<bool>>)
    requires init.Fits() && Resting(init, c) && Carries(init, bytes, update)
    ensures var r := Drive(init, falling, c, bytes);
      Resting(init, r)
      && r.out == (if update.Some? then Shown(init.boards, update.value) else c.out)
      && r.loads == c.loads + (if update.Some? then 1 else 0)
  {
    match update
    case None => RestIsQuiet(init, falling, c, bytes);
    case Some(data) =>
      var n := |WriteWave(init, data)|;
      assert bytes == bytes[..n] + bytes[n..];
      DriveAppend(init, falling, c, bytes[..n], bytes[n..]);
      WaveIsShown(init, falling, c, data, bytes[..n]);
      RestIsQuiet(init, falling, Drive(init, falling, c, bytes[..n]), bytes[n..]);
  }

  /** Over any number of transmitted buffers, the outputs are always those of the
      last one that carried an update. */
  lemma {:induction false} LastUpdateIsShown(init: ValveInit, falling: bool, c: Chain,
                                             buffers: seq<seq<Byte>>, updates: seq<Option<seq<bool>>>)
    requires init.Fits() && Resting(init, c) && AllCarry(init, buffers, updates)
    ensures Resting(init, DriveAll(init, falling, c, buffers))
    ensures DriveAll(init, falling, c, buffers).out == LastShown(init, c.out, updates)
    decreases |buffers|
  {
    if buffers == [] {
    } else {
      var n := |buffers| - 1;
      LastUpdateIsShown(init, falling, c, buffers[..n], updates[..n]);
      OneBuffer(init, falling, DriveAll(init, falling, c, buffers[..n]), buffers[n], updates[n]);
    }
  }

  // Pin q of board b, from the left, is a stage of the chain.
  function StageOf(b: int, q: int): int { b * 8 + 7 - q }

  // The documentation numbers the outputs from the board furthest from the computer.
  ghost predicate AsDocumented(boards: nat, data: seq<bool>)
    requires |data| == boards * 8
  {
    forall b, q :: 0 <= b < boards && 0 <= q < 8 ==>
      Shown(boards, data)[StageOf(b, q)] == data[(boards - 1 - b) * 8 + q]
  }

  /** The code numbers them from the nearest: all data comes out as documented
      exactly when there is one board. */
  lemma DocumentedOrder(boards: nat)
    requires boards > 0
    ensures (forall data: seq<bool> :: |data| == boards * 8 ==> AsDocumented(boards, data)) <==> boards == 1
  {
    if boards == 1 {
      forall data: seq<bool> | |data| == boards * 8 ensures AsDocumented(boards, data) {}
    } else {
      var data := seq(boards * 8, i => i == 0);
      assert Shown(boards, data)[StageOf(0, 0)] == data[0] != data[(boards - 1 - 0) * 8 + 0];
      assert !AsDocumented(boards, data);
    }
  }

  // ------------------------------------------------------------ 74HC165 chain

  // reg[0] is at the data pin of the computer.
  datatype Loader = Loader(reg: seq<bool>, clk: bool)

  // While the latch is low the inputs are loaded; else a rising clock shifts.
  function Shift(init: ValveInit, inputs: seq<bool>, c: Loader, b: Byte): Loader
    requires init.Fits()
  {
    if !b[init.latch] then Loader(inputs, b[init.clk])
    else if !c.clk && b[init.clk] && c.reg != [] then Loader(c.reg[1..] + [false], b[init.clk])
    else Loader(c.reg, b[init.clk])
  }

  function ShiftAll(init: ValveInit, inputs: seq<bool>, c: Loader, bytes: seq<Byte>): Loader
    requires init.Fits()
    decreases |bytes|
  {
    if bytes == [] then c else ShiftAll(init, inputs, Shift(init, inputs, c, bytes[0]), bytes[1..])
  }

  // The levels of the data pin: byte i is read before it is written.
  function ReadAt(init: ValveInit, inputs: seq<bool>, c: Loader, bytes: seq<Byte>, i: nat): bool
    requires init.Fits() && i <= |bytes|
  {
    var r := ShiftAll(init, inputs, c, bytes[..i]).reg;
    r != [] && r[0]
  }

  function ReadPairs(init: ValveInit, n: nat): seq<Byte> {
    if n == 0 then [] else ReadPairs(init, n - 1) + [One(init.latch), Or(One(init.latch), One(init.clk))]
  }

  // Load, release, then a low and a high clock for every output and one more.
  function ReadUnits(init: ValveInit): seq<Byte> {
    [One(init.clk), Or(One(init.latch), One(init.clk))] + ReadPairs(init, init.Outputs() + 1)
  }

  function ReadWave(init: ValveInit): seq<Byte> {
    Stretch(ReadUnits(init), init.clkPerData)
  }

  lemma {:induction false} ShiftAppend(init: ValveInit, inputs: seq<bool>, c: Loader, a: seq<Byte>, b: seq<Byte>)
    requires init.Fits()
    ensures ShiftAll(init, inputs, c, a + b) == ShiftAll(init, inputs, ShiftAll(init, inputs, c, a), b)
    decreases |a|
  {
    if a == [] {
      assert a + b == b;
    } else {
      assert (a + b)[0] == a[0] && (a + b)[1..] == a[1..] + b;
      ShiftAppend(init, inputs, Shift(init, inputs, c, a[0]), a[1..], b);
    }
  }

  lemma {:induction false} ShiftRepeat(init: ValveInit, inputs: seq<bool>, c: Loader, b: Byte, n: nat)
    requires init.Fits() && n > 0
    ensures ShiftAll(init, inputs, c, Repeat(b, n)) == Shift(init, inputs, c, b)
    decreases n
  {
    assert Repeat(b, n)[1..] == Repeat(b, n - 1);
    if n <= 1 {
    } else {
      ShiftRepeat(init, inputs, Shift(init, inputs, c, b), b, n - 1);
    }
  }

  lemma {:induction false} ShiftStretch(init: ValveInit, inputs: seq<bool>, c: Loader, units: seq<Byte>)
    requires init.Fits()
    ensures ShiftAll(init, inputs, c, Stretch(units, init.clkPerData)) == ShiftAll(init, inputs, c, units)
    decreases |units|
  {
    if units == [] {
    } else {
      ShiftRepeat(init, inputs, c, units[0], init.clkPerData);
      ShiftAppend(init, inputs, c, Repeat(units[0], init.clkPerData), Stretch(units[1..], init.clkPerData));
      ShiftStretch(init, inputs, Shift(init, inputs, c, units[0]), units[1..]);
    }
  }

  lemma {:induction false} ShiftOnPins(init: ValveInit, inputs: seq<bool>, c: Loader, a: seq<Byte>, b: seq<Byte>)
    requires init.Fits() && |a| == |b|
    requires forall i :: 0 <= i < |a| ==> a[i][init.clk] == b[i][init.clk] && a[i][init.latch] == b[i][init.latch]
    ensures ShiftAll(init, inputs, c, a) == ShiftAll(init, inputs, c, b)
    decreases |a|
  {
    if a == [] {
    } else {
      assert forall i :: 0 <= i < |a| - 1 ==> a[1..][i] == a[i + 1] && b[1..][i] == b[i + 1];
      ShiftOnPins(init, inputs, Shift(init, inputs, c, a[0]), a[1..], b[1..]);
    }
  }

  // After i pairs and one more low clock, i inputs are gone.
  lemma {:induction false} ShiftedOut(init: ValveInit, inputs: seq<bool>, c: Loader, i: nat)
    requires init.Fits() && i <= |inputs| && c == Loader(inputs, true)
    ensures ShiftAll(init, inputs, c, ReadPairs(init, i)) == Loader(inputs[i..] + seq(i, _ => false), true)
  {
    if i == 0 {
      assert inputs[0..] + seq(0, _ => false) == inputs;
    } else {
      var before := ShiftAll(init, inputs, c, ReadPairs(init, i - 1));
      ShiftedOut(init, inputs, c, i - 1);
      PairShifts(init, inputs, before);
      ShiftAppend(init, inputs, c, ReadPairs(init, i - 1), [One(init.latch), Or(One(init.latch), One(init.clk))]);
      assert before.reg[1..] + [false] == inputs[i..] + seq(i, _ => false);
    }
  }

  lemma ShiftTwo(init: ValveInit, inputs: seq<bool>, c: Loader, a: Byte, b: Byte)
    requires init.Fits()
    ensures ShiftAll(init, inputs, c, [a]) == Shift(init, inputs, c, a)
    ensures ShiftAll(init, inputs, c, [a, b]) == Shift(init, inputs, Shift(init, inputs, c, a), b)
  {
    var c1 := Shift(init, inputs, c, a);
    assert [a, b][1..] == [b] && [b][1..] == [] && [a][1..] == [];
    assert ShiftAll(init, inputs, c, [a]) == ShiftAll(init, inputs, c1, []);
    assert ShiftAll(init, inputs, c, [a, b]) == ShiftAll(init, inputs, c1, [b]);
    assert ShiftAll(init, inputs, c1, [b]) == ShiftAll(init, inputs, Shift(init, inputs, c1, b), []);
  }

  lemma PairShifts(init: ValveInit, inputs: seq<bool>, c: Loader)
    requires init.Fits() && c.reg != [] && c.clk
    ensures ShiftAll(init, inputs, c, [One(init.latch), Or(One(init.latch), One(init.clk))])
         == Loader(c.reg[1..] + [false], true)
    ensures ShiftAll(init, inputs, c, [One(init.latch)]) == Loader(c.reg, false)
  {
    var low, high := One(init.latch), Or(One(init.latch), One(init.clk));
    assert low[init.latch] && !low[init.clk] && high[init.latch] && high[init.clk];
    ShiftTwo(init, inputs, c, low, high);
  }

  lemma Loaded(init: ValveInit, inputs: seq<bool>, c: Loader)
    requires init.Fits()
    ensures ShiftAll(init, inputs, c, [One(init.clk), Or(One(init.latch), One(init.clk))]) == Loader(inputs, true)
  {
    var load, high := One(init.clk), Or(One(init.latch), One(init.clk));
    assert !load[init.latch] && load[init.clk] && high[init.latch] && high[init.clk];
    ShiftTwo(init, inputs, c, load, high);
  }

  lemma {:induction false} PairsPrefix(init: ValveInit, i: nat, n: nat)
    requires i < n
    ensures |ReadPairs(init, i)| == 2 * i && |ReadPairs(init, n)| == 2 * n
    ensures ReadPairs(init, n)[..2 * i + 1] == ReadPairs(init, i) + [One(init.latch)]
    decreases n
  {
    PairsLength(init, n - 1);
    if i == n - 1 {
    } else {
      PairsPrefix(init, i, n - 1);
    }
  }

  lemma {:induction false} PairsLength(init: ValveInit, n: nat)
    ensures |ReadPairs(init, n)| == 2 * n
  {
    if n == 0 {
    } else {
      PairsLength(init, n - 1);
    }
  }

  // The first u units of a stretched wave.
  lemma StretchPrefix(units: seq<Byte>, u: nat, c: nat)
    requires u <= |units|
    ensures u * c <= |Stretch(units, c)| && Stretch(units, c)[..u * c] == Stretch(units[..u], c)
  {
    assert units[..u] + units[u..] == units;
    StretchAppend(units[..u], units[u..], c);
    StretchLength(units[..u], c);
  }

  // The units up to the low clock of pair i.
  lemma UnitsPrefix(init: ValveInit, i: nat)
    requires i < init.Outputs()
    ensures |ReadUnits(init)| == 2 + 2 * (init.Outputs() + 1)
    ensures ReadUnits(init)[..3 + i * 2]
         == [One(init.clk), Or(One(init.latch), One(init.clk))] + ReadPairs(init, i) + [One(init.latch)]
  {
    var head, n := [One(init.clk), Or(One(init.latch), One(init.clk))], init.Outputs() + 1;
    PairsPrefix(init, i, n);
    HeadPrefix(head, ReadPairs(init, n), 2 * i + 1);
    Regrouped(head, ReadPairs(init, i), [One(init.latch)]);
  }

  lemma HeadPrefix<T>(head: seq<T>, rest: seq<T>, n: nat)
    requires n <= |rest|
    ensures (head + rest)[..|head| + n] == head + rest[..n]
  {}

  /** Reading returns the inputs: the data pin at byte (3 + 2 i) * clkPerData of
      the wave is input i in shift order, whatever the chain held before. */
  lemma InputsAreRead(init: ValveInit, inputs: seq<bool>, c: Loader, bytes: seq<Byte>, i: nat, at: nat)
    requires init.Fits() && |inputs| == init.Outputs() && i < |inputs| && at == (3 + i * 2) * init.clkPerData
    requires |bytes| >= |ReadWave(init)| && forall k :: 0 <= k < |ReadWave(init)| ==>
      bytes[k][init.clk] == ReadWave(init)[k][init.clk] && bytes[k][init.latch] == ReadWave(init)[k][init.latch]
    ensures at < |ReadWave(init)|
    ensures ReadAt(init, inputs, c, bytes, at) == inputs[i]
  {
    var units, u := ReadUnits(init), 3 + i * 2;
    var head := [One(init.clk), Or(One(init.latch), One(init.clk))];
    UnitsPrefix(init, i);
    StretchPrefix(units, u, init.clkPerData);
    StretchPrefix(units, u + 1, init.clkPerData);
    assert (u + 1) * init.clkPerData == u * init.clkPerData + init.clkPerData;
    ShiftOnPins(init, inputs, c, bytes[..at], ReadWave(init)[..at]);
    ShiftStretch(init, inputs, c, units[..u]);
    Loaded(init, inputs, c);
    ShiftAppend(init, inputs, c, head, ReadPairs(init, i));
    ShiftAppend(init, inputs, c, head + ReadPairs(init, i), [One(init.latch)]);
    ShiftedOut(init, inputs, Loader(inputs, true), i);
    PairShifts(init, inputs, Loader(inputs[i..] + seq(i, _ => false), true));
  }
}
