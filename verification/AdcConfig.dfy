/**
 What the ADC writes to its pins before and after it runs: the sequence that
 resets it, its configuration word, and the levels it is left at.
 */
module AdcConfig {
  import opened Bits
  import opened AdcSpec
  import opened FtPins
  import opened Sequences

  // Bytes of the sequence that resets the device: 45 pairs.
  const RESET_PAIRS: nat := 45

  // Pairs between the reset sequence and the configuration word.
  const SYNC_PAIRS: nat := 10

  // Bits of the configuration word.
  const WORD_BITS: nat := 16

  // The clock is high when nothing is sent.
  function Idle(init: AdcInit): Byte { One(init.clk) }

  // The configuration bit, with the clock low and high.
  function Low(init: AdcInit, bit: bool): Byte
    requires init.Fits()
  {
    if bit then init.ConfigWriteBit() else ZERO
  }

  function High(init: AdcInit, bit: bool): Byte
    requires init.Fits()
  {
    Or(Idle(init), Low(init, bit))
  }

  // k pairs of bytes.
  function Alternate(a: Byte, b: Byte, k: nat): (r: seq<Byte>)
    ensures |r| == 2 * k
  {
    if k == 0 then [] else Alternate(a, b, k - 1) + [a, b]
  }

  // The first k bits of the word, from its highest: each for three bytes, with
  // the clock low in the middle one.
  function WordWave(init: AdcInit, word: seq<bool>, k: nat): (r: seq<Byte>)
    requires init.Fits() && |word| == WORD_BITS && k <= WORD_BITS
    ensures |r| == 3 * k
  {
    if k == 0 then []
    else
      var bit := word[WORD_BITS - k];
      WordWave(init, word, k - 1) + [High(init, bit), Low(init, bit), High(init, bit)]
  }

  function ResetPart(init: AdcInit): seq<Byte>
    requires init.Fits()
  {
    Alternate(High(init, true), Low(init, true), RESET_PAIRS)
  }

  // The whole buffer while the device is reset.
  function ResetWave(init: AdcInit, n: nat): (r: seq<Byte>)
    requires init.Fits() && 2 * RESET_PAIRS <= n
    ensures |r| == n
  {
    ResetPart(init) + Repeat(High(init, true), n - 2 * RESET_PAIRS)
  }

  // After it, the reset sequence is taken back.
  function ResetDone(init: AdcInit): seq<Byte>
    requires init.Fits()
  {
    Repeat(High(init, true), 2 * RESET_PAIRS)
  }

  // A reset, two idle bytes, the synchronisation, two idle bytes, the word.
  function Preamble(init: AdcInit): seq<Byte>
    requires init.Fits()
  {
    ResetPart(init) + Repeat(High(init, true), 2) + Alternate(High(init, true), Idle(init), SYNC_PAIRS)
    + Repeat(High(init, true), 2)
  }

  function ConfigWave(init: AdcInit, word: seq<bool>): seq<Byte>
    requires init.Fits() && |word| == WORD_BITS
  {
    Preamble(init) + WordWave(init, word, WORD_BITS)
  }

  // When it is shut down.
  function IdleWave(init: AdcInit, n: nat): seq<Byte> { Repeat(Idle(init), n) }

  /** The configuration takes 162 bytes. */
  lemma ConfigLength(init: AdcInit, word: seq<bool>)
    requires init.Fits() && |word| == WORD_BITS
    ensures |Preamble(init)| == 114 && |ConfigWave(init, word)| == 162
  {}

  // --------------------------------------------------- what the device makes of it

  // The levels of the configuration pin at the rising edges of the clock; `clk` is
  // the level of the clock before.
  function Rises(init: AdcInit, clk: bool, bytes: seq<Byte>): seq<bool>
    requires init.Fits()
    decreases |bytes|
  {
    if bytes == [] then []
    else
      (if !clk && bytes[0][init.clk] then [bytes[0][init.PinOf(0)]] else [])
      + Rises(init, bytes[0][init.clk], bytes[1..])
  }

  function LastClock(init: AdcInit, clk: bool, bytes: seq<Byte>): bool
    requires init.Fits()
  {
    if bytes == [] then clk else bytes[|bytes| - 1][init.clk]
  }

  function Ones(n: nat): (r: seq<bool>)
    ensures |r| == n
  {
    seq(n, _ => true)
  }

  lemma {:induction false} RisesAppend(init: AdcInit, clk: bool, a: seq<Byte>, b: seq<Byte>)
    requires init.Fits()
    ensures Rises(init, clk, a + b) == Rises(init, clk, a) + Rises(init, LastClock(init, clk, a), b)
    ensures LastClock(init, clk, a + b) == LastClock(init, LastClock(init, clk, a), b)
    decreases |a|
  {
    if a == [] {
      assert a + b == b;
    } else {
      assert (a + b)[0] == a[0] && (a + b)[1..] == a[1..] + b;
      RisesAppend(init, a[0][init.clk], a[1..], b);
      Regrouped(if !clk && a[0][init.clk] then [a[0][init.PinOf(0)]] else [], Rises(init, a[0][init.clk], a[1..]),
                Rises(init, LastClock(init, clk, a), b));
    }
  }

  // Only these two pins matter.
  lemma {:induction false} RisesOnPins(init: AdcInit, clk: bool, a: seq<Byte>, b: seq<Byte>)
    requires init.Fits() && |a| == |b|
    requires forall k :: 0 <= k < |a| ==> a[k][init.clk] == b[k][init.clk] && a[k][init.PinOf(0)] == b[k][init.PinOf(0)]
    ensures Rises(init, clk, a) == Rises(init, clk, b)
    decreases |a|
  {
    if a == [] {
    } else {
      assert forall k :: 0 <= k < |a| - 1 ==> a[1..][k] == a[k + 1] && b[1..][k] == b[k + 1];
      RisesOnPins(init, a[0][init.clk], a[1..], b[1..]);
    }
  }

  lemma Levels(init: AdcInit, bit: bool)
    requires init.Fits()
    ensures High(init, bit)[init.clk] && High(init, bit)[init.PinOf(0)] == bit
    ensures !Low(init, bit)[init.clk] && Low(init, bit)[init.PinOf(0)] == bit
    ensures Idle(init)[init.clk]
  {
    MaskPins(init, init.PinOf(0));
    MaskPins(init, init.clk);
    assert init.PinOf(0) != init.clk;
  }

  lemma RisesOfTwo(init: AdcInit, clk: bool, a: Byte, b: Byte)
    requires init.Fits()
    ensures Rises(init, clk, [a, b])
         == (if !clk && a[init.clk] then [a[init.PinOf(0)]] else [])
            + (if !a[init.clk] && b[init.clk] then [b[init.PinOf(0)]] else [])
  {
    var second := if !a[init.clk] && b[init.clk] then [b[init.PinOf(0)]] else [];
    assert [a, b][1..] == [b] && [b][1..] == [] && Rises(init, b[init.clk], []) == [];
    assert Rises(init, a[init.clk], [b]) == second + [] == second;
  }

  // Nothing is clocked in while the clock stays high.
  lemma {:induction false} NoRises(init: AdcInit, a: Byte, b: Byte, k: nat)
    requires init.Fits() && a[init.clk] && b[init.clk]
    ensures Rises(init, true, Alternate(a, b, k)) == [] && LastClock(init, true, Alternate(a, b, k))
  {
    if k == 0 {
    } else {
      NoRises(init, a, b, k - 1);
      RisesAppend(init, true, Alternate(a, b, k - 1), [a, b]);
      RisesOfTwo(init, true, a, b);
    }
  }

  // The reset sequence clocks ones in.
  lemma {:induction false} RisesOfReset(init: AdcInit, clk: bool, k: nat)
    requires init.Fits() && k > 0
    ensures var wave := Alternate(High(init, true), Low(init, true), k);
      Rises(init, clk, wave) == Ones(if clk then k - 1 else k) && !LastClock(init, clk, wave)
  {
    var a, b := High(init, true), Low(init, true);
    Levels(init, true);
    if k == 1 {
      assert Alternate(a, b, 0) == [] && Alternate(a, b, 1) == [a, b];
      RisesOfTwo(init, clk, a, b);
      assert Ones(0) == [] && Ones(1) == [true];
    } else {
      RisesOfReset(init, clk, k - 1);
      RisesAppend(init, clk, Alternate(a, b, k - 1), [a, b]);
      RisesOfTwo(init, false, a, b);
      var n := if clk then k - 2 else k - 1;
      assert Ones(n) + [true] == Ones(n + 1);
    }
  }

  lemma {:induction false} RisesOfWord(init: AdcInit, word: seq<bool>, k: nat)
    requires init.Fits() && |word| == WORD_BITS && k <= WORD_BITS
    ensures LastClock(init, true, WordWave(init, word, k))
    ensures var bits := Rises(init, true, WordWave(init, word, k));
      |bits| == k && forall i :: 0 <= i < k ==> bits[i] == word[WORD_BITS - 1 - i]
  {
    if k == 0 {
    } else {
      var bit := word[WORD_BITS - k];
      var high, low := High(init, bit), Low(init, bit);
      RisesOfWord(init, word, k - 1);
      Levels(init, bit);
      RisesAppend(init, true, WordWave(init, word, k - 1), [high, low, high]);
      assert [high, low, high][1..] == [low, high];
      RisesOfTwo(init, true, low, high);
    }
  }

  // The level of the clock is high at the end, and ones have been clocked in.
  lemma RisesOfPreamble(init: AdcInit, clk: bool)
    requires init.Fits()
    ensures Rises(init, clk, Preamble(init)) == Ones(if clk then RESET_PAIRS else RESET_PAIRS + 1)
    ensures LastClock(init, clk, Preamble(init))
  {
    var h := High(init, true);
    var reset, two, sync := ResetPart(init), Repeat(h, 2), Alternate(h, Idle(init), SYNC_PAIRS);
    Levels(init, true);
    assert two == [h, h];
    RisesOfReset(init, clk, RESET_PAIRS);
    RisesOfTwo(init, false, h, h);
    RisesAppend(init, clk, reset, two);
    NoRises(init, h, Idle(init), SYNC_PAIRS);
    RisesAppend(init, clk, reset + two, sync);
    RisesOfTwo(init, true, h, h);
    RisesAppend(init, clk, reset + two + sync, two);
  }

  /** The device reads its configuration off the rising edges of the clock: after the
      ones of the reset come the sixteen bits of the word, the highest first; other
      pins of the bus do not matter. */
  lemma ConfigArrives(init: AdcInit, word: seq<bool>, bytes: seq<Byte>, clk: bool)
    requires init.Fits() && |word| == WORD_BITS && |bytes| == |ConfigWave(init, word)|
    requires forall k :: 0 <= k < |bytes| ==>
      bytes[k][init.clk] == ConfigWave(init, word)[k][init.clk]
      && bytes[k][init.PinOf(0)] == ConfigWave(init, word)[k][init.PinOf(0)]
    ensures var bits, ones := Rises(init, clk, bytes), if clk then 45 else 46;
      && |bits| == ones + 16 && (forall i :: 0 <= i < ones ==> bits[i])
      && forall i :: 0 <= i < 16 ==> bits[ones..][i] == word[15 - i]
  {
    RisesOnPins(init, clk, bytes, ConfigWave(init, word));
    RisesOfPreamble(init, clk);
    RisesOfWord(init, word, WORD_BITS);
    RisesAppend(init, clk, Preamble(init), WordWave(init, word, WORD_BITS));
  }

  // How often the configuration pin falls while the clock stays high.
  function Falls(init: AdcInit, last: Byte, bytes: seq<Byte>): nat
    requires init.Fits()
    decreases |bytes|
  {
    if bytes == [] then 0
    else
      (if last[init.clk] && bytes[0][init.clk] && last[init.PinOf(0)] && !bytes[0][init.PinOf(0)] then 1 else 0)
      + Falls(init, bytes[0], bytes[1..])
  }

  function LastByte(last: Byte, bytes: seq<Byte>): Byte { if bytes == [] then last else bytes[|bytes| - 1] }

  lemma {:induction false} FallsAppend(init: AdcInit, last: Byte, a: seq<Byte>, b: seq<Byte>)
    requires init.Fits()
    ensures Falls(init, last, a + b) == Falls(init, last, a) + Falls(init, LastByte(last, a), b)
    ensures LastByte(last, a + b) == LastByte(LastByte(last, a), b)
    decreases |a|
  {
    if a == [] {
      assert a + b == b;
    } else {
      assert (a + b)[0] == a[0] && (a + b)[1..] == a[1..] + b;
      FallsAppend(init, a[0], a[1..], b);
    }
  }

  lemma FallsOfTwo(init: AdcInit, last: Byte, a: Byte, b: Byte)
    requires init.Fits()
    ensures Falls(init, last, [a, b])
         == (if last[init.clk] && a[init.clk] && last[init.PinOf(0)] && !a[init.PinOf(0)] then 1 else 0)
            + (if a[init.clk] && b[init.clk] && a[init.PinOf(0)] && !b[init.PinOf(0)] then 1 else 0)
  {
    assert [a, b][1..] == [b] && [b][1..] == [] && Falls(init, b, []) == 0;
  }

  lemma {:induction false} FallsOfReset(init: AdcInit, last: Byte, k: nat)
    requires init.Fits()
    ensures Falls(init, last, Alternate(High(init, true), Low(init, true), k)) == 0
    ensures k > 0 ==> LastByte(last, Alternate(High(init, true), Low(init, true), k)) == Low(init, true)
  {
    if k == 0 {
    } else {
      var a, b := High(init, true), Low(init, true);
      Levels(init, true);
      FallsOfReset(init, last, k - 1);
      FallsAppend(init, last, Alternate(a, b, k - 1), [a, b]);
      FallsOfTwo(init, LastByte(last, Alternate(a, b, k - 1)), a, b);
    }
  }

  lemma {:induction false} FallsOfSync(init: AdcInit, k: nat)
    requires init.Fits()
    ensures Falls(init, High(init, true), Alternate(High(init, true), Idle(init), k)) == k
    ensures LastByte(High(init, true), Alternate(High(init, true), Idle(init), k))
         == if k == 0 then High(init, true) else Idle(init)
  {
    if k == 0 {
    } else {
      var a, b := High(init, true), Idle(init);
      Levels(init, true);
      IdleIsLow(init);
      FallsOfSync(init, k - 1);
      FallsAppend(init, a, Alternate(a, b, k - 1), [a, b]);
      FallsOfTwo(init, LastByte(a, Alternate(a, b, k - 1)), a, b);
    }
  }

  lemma IdleIsLow(init: AdcInit)
    requires init.Fits()
    ensures Idle(init)[init.clk] && !Idle(init)[init.PinOf(0)]
  {
    MaskPins(init, init.PinOf(0));
    assert init.PinOf(0) != init.clk;
  }

  /** Between the reset and the word the configuration pin falls ten times under a high
      clock, and never else before the word. */
  lemma SyncArrives(init: AdcInit, last: Byte)
    requires init.Fits()
    ensures Falls(init, last, Preamble(init)) == 10
  {
    var h := High(init, true);
    var reset, two, sync := ResetPart(init), Repeat(h, 2), Alternate(h, Idle(init), SYNC_PAIRS);
    Levels(init, true);
    IdleIsLow(init);
    assert two == [h, h];
    FallsOfReset(init, last, RESET_PAIRS);
    FallsAppend(init, last, reset, two);
    FallsOfTwo(init, Low(init, true), h, h);
    FallsOfSync(init, SYNC_PAIRS);
    FallsAppend(init, last, reset + two, sync);
    FallsAppend(init, last, reset + two + sync, two);
    FallsOfTwo(init, Idle(init), h, h);
  }

  /** A reset clocks ones in, and then clock and configuration pin stay high; what takes
      its place afterwards has both high, and a device that is shut down is left with
      the clock high and the pin low. */
  lemma ResetArrives(init: AdcInit, n: nat, clk: bool)
    requires init.Fits() && 2 * RESET_PAIRS <= n
    ensures Rises(init, clk, ResetWave(init, n)[..90]) == Ones(if clk then 44 else 45)
    ensures forall k :: 90 <= k < n ==> ResetWave(init, n)[k][init.clk] && ResetWave(init, n)[k][init.PinOf(0)]
    ensures |ResetDone(init)| == 90
    ensures forall k :: 0 <= k < 90 ==> ResetDone(init)[k][init.clk] && ResetDone(init)[k][init.PinOf(0)]
    ensures forall k :: 0 <= k < n ==> IdleWave(init, n)[k][init.clk] && !IdleWave(init, n)[k][init.PinOf(0)]
  {
    Levels(init, true);
    IdleIsLow(init);
    RisesOfReset(init, clk, RESET_PAIRS);
    assert ResetWave(init, n)[..90] == ResetPart(init);
  }

  // ------------------------------------------------------------ only own pins

  ghost predicate AllWithin(mask: Byte, wave: seq<Byte>) {
    forall k :: 0 <= k < |wave| ==> Within(mask, wave[k])
  }

  lemma LevelsWithin(init: AdcInit, bit: bool)
    requires init.Fits()
    ensures Within(init.Mask(), Idle(init)) && Within(init.Mask(), ZERO)
    ensures Within(init.Mask(), Low(init, bit)) && Within(init.Mask(), High(init, bit))
  {
    forall p | 0 <= p < 8 && init.Mask()[p]
      ensures !Idle(init)[p] && !Low(init, bit)[p] && !High(init, bit)[p]
    {
      MaskPins(init, p);
    }
  }

  lemma {:induction false} AlternateWithin(mask: Byte, a: Byte, b: Byte, k: nat)
    requires Within(mask, a) && Within(mask, b)
    ensures AllWithin(mask, Alternate(a, b, k))
  {
    if k == 0 {
    } else {
      AlternateWithin(mask, a, b, k - 1);
    }
  }

  lemma {:induction false} WordWithin(init: AdcInit, word: seq<bool>, k: nat)
    requires init.Fits() && |word| == WORD_BITS && k <= WORD_BITS
    ensures AllWithin(init.Mask(), WordWave(init, word, k))
  {
    if k == 0 {
    } else {
      WordWithin(init, word, k - 1);
      LevelsWithin(init, word[WORD_BITS - k]);
    }
  }

  lemma AppendWithin(mask: Byte, a: seq<Byte>, b: seq<Byte>)
    requires AllWithin(mask, a) && AllWithin(mask, b)
    ensures AllWithin(mask, a + b)
  {
    forall k | 0 <= k < |a + b| ensures Within(mask, (a + b)[k]) {
      if k < |a| { assert Within(mask, a[k]); } else { assert Within(mask, b[k - |a|]); }
    }
  }

  /** The sequences stay off the pins of others. */
  lemma SequencesAreOwn(init: AdcInit, n: nat, word: seq<bool>)
    requires init.Fits() && |word| == WORD_BITS
    ensures AllWithin(init.Mask(), ConfigWave(init, word)) && AllWithin(init.Mask(), IdleWave(init, n))
    ensures AllWithin(init.Mask(), ResetDone(init))
    ensures 2 * RESET_PAIRS <= n ==> AllWithin(init.Mask(), ResetWave(init, n))
  {
    var mask, idle := init.Mask(), Repeat(High(init, true), 2);
    LevelsWithin(init, true);
    AlternateWithin(mask, High(init, true), Low(init, true), RESET_PAIRS);
    AlternateWithin(mask, High(init, true), Idle(init), SYNC_PAIRS);
    var sync := Alternate(High(init, true), Idle(init), SYNC_PAIRS);
    AppendWithin(mask, ResetPart(init), idle);
    AppendWithin(mask, ResetPart(init) + idle, sync);
    AppendWithin(mask, ResetPart(init) + idle + sync, idle);
    WordWithin(init, word, WORD_BITS);
    AppendWithin(mask, Preamble(init), WordWave(init, word, WORD_BITS));
    if 2 * RESET_PAIRS <= n {
      AppendWithin(mask, ResetPart(init), Repeat(High(init, true), n - 2 * RESET_PAIRS));
    }
  }

  // ------------------------------------------------------------- the loops

  // One more byte of a wave.
  method WriteNext(buff: array<Byte>, i: nat, mask: Byte, b: Byte, ghost before: seq<Byte>, ghost wave: seq<Byte>)
    requires i < buff.Length && |wave| == i && Masked(before, buff[..], mask, wave)
    modifies buff
    ensures Masked(before, buff[..], mask, wave + [b])
  {
    buff[i] := MaskWrite(buff[i], mask, b);
  }

  lemma AppendTwo(wave: seq<Byte>, more: seq<Byte>, a: Byte, b: Byte)
    ensures wave + more + [a] + [b] == wave + (more + [a, b])
  {}

  lemma AppendThree(wave: seq<Byte>, a: Byte, b: Byte, c: Byte)
    ensures wave + [a] + [b] + [c] == wave + [a, b, c]
  {}

  method WritePairs(buff: array<Byte>, i: nat, k: nat, mask: Byte, a: Byte, b: Byte,
                    ghost before: seq<Byte>, ghost wave: seq<Byte>)
    requires i + 2 * k <= buff.Length && |wave| == i && Masked(before, buff[..], mask, wave)
    modifies buff
    ensures Masked(before, buff[..], mask, wave + Alternate(a, b, k))
  {
    var j := 0;
    assert wave + Alternate(a, b, 0) == wave;
    while j < k
      invariant 0 <= j <= k && Masked(before, buff[..], mask, wave + Alternate(a, b, j))
    {
      ghost var now := wave + Alternate(a, b, j);
      WriteNext(buff, i + 2 * j, mask, a, before, now);
      WriteNext(buff, i + 2 * j + 1, mask, b, before, now + [a]);
      AppendTwo(wave, Alternate(a, b, j), a, b);
      j := j + 1;
    }
  }

  /** Before the first write: the device is reset. */
  method WriteReset(init: AdcInit, buff: array<Byte>, dwBuff: nat)
    requires init.Fits() && 2 * RESET_PAIRS <= dwBuff <= buff.Length
    modifies buff
    ensures Masked(old(buff[..]), buff[..], init.Mask(), ResetWave(init, dwBuff))
  {
    ghost var before := buff[..];
    NothingWritten(before, init.Mask());
    WritePairs(buff, 0, RESET_PAIRS, init.Mask(), High(init, true), Low(init, true), before, []);
    assert [] + ResetPart(init) == ResetPart(init);
    WriteUnit(buff, 2 * RESET_PAIRS, dwBuff - 2 * RESET_PAIRS, init.Mask(), High(init, true), before, ResetPart(init));
  }

  /** After it. */
  method WriteResetDone(init: AdcInit, buff: array<Byte>)
    requires init.Fits() && 2 * RESET_PAIRS <= buff.Length
    modifies buff
    ensures Masked(old(buff[..]), buff[..], init.Mask(), ResetDone(init))
  {
    WriteAll(buff, 2 * RESET_PAIRS, init.Mask(), High(init, true));
  }

  method WriteBit(init: AdcInit, buff: array<Byte>, i: nat, bit: bool, ghost before: seq<Byte>, ghost wave: seq<Byte>)
    requires init.Fits() && i + 3 <= buff.Length && |wave| == i && Masked(before, buff[..], init.Mask(), wave)
    modifies buff
    ensures Masked(before, buff[..], init.Mask(), wave + [High(init, bit), Low(init, bit), High(init, bit)])
  {
    var mask, high, low := init.Mask(), High(init, bit), Low(init, bit);
    WriteNext(buff, i, mask, high, before, wave);
    WriteNext(buff, i + 1, mask, low, before, wave + [high]);
    WriteNext(buff, i + 2, mask, high, before, wave + [high] + [low]);
    AppendThree(wave, high, low, high);
  }

  method WritePreamble(init: AdcInit, buff: array<Byte>)
    requires init.Fits() && 114 <= buff.Length
    modifies buff
    ensures Masked(old(buff[..]), buff[..], init.Mask(), Preamble(init))
  {
    var mask, high := init.Mask(), High(init, true);
    ghost var before, reset := buff[..], ResetPart(init);
    NothingWritten(before, mask);
    WritePairs(buff, 0, RESET_PAIRS, mask, high, Low(init, true), before, []);
    assert [] + reset == reset;
    WriteUnit(buff, 90, 2, mask, high, before, reset);
    WritePairs(buff, 92, SYNC_PAIRS, mask, high, Idle(init), before, reset + Repeat(high, 2));
    WriteUnit(buff, 112, 2, mask, high, before, reset + Repeat(high, 2) + Alternate(high, Idle(init), SYNC_PAIRS));
  }

  /** The configuration word is sent, from its highest bit. */
  method WriteConfig(init: AdcInit, buff: array<Byte>, word: seq<bool>)
    requires init.Fits() && |word| == WORD_BITS && |ConfigWave(init, word)| <= buff.Length
    modifies buff
    ensures Masked(old(buff[..]), buff[..], init.Mask(), ConfigWave(init, word))
  {
    ConfigLength(init, word);
    ghost var before := buff[..];
    WritePreamble(init, buff);
    WriteWord(init, buff, word, before, Preamble(init));
  }

  lemma WordNext(init: AdcInit, word: seq<bool>, k: nat, wave: seq<Byte>, bit: bool)
    requires init.Fits() && |word| == WORD_BITS && k < WORD_BITS && bit == word[WORD_BITS - 1 - k]
    ensures wave + WordWave(init, word, k) + [High(init, bit), Low(init, bit), High(init, bit)]
         == wave + WordWave(init, word, k + 1)
  {
    Regrouped(wave, WordWave(init, word, k), [High(init, bit), Low(init, bit), High(init, bit)]);
  }

  method WriteWord(init: AdcInit, buff: array<Byte>, word: seq<bool>, ghost before: seq<Byte>, ghost wave: seq<Byte>)
    requires init.Fits() && |word| == WORD_BITS && |wave| == 114 && 162 <= buff.Length
    requires Masked(before, buff[..], init.Mask(), wave)
    modifies buff
    ensures Masked(before, buff[..], init.Mask(), wave + WordWave(init, word, WORD_BITS))
  {
    var i := 0;
    ghost var now := wave;
    assert wave + WordWave(init, word, 0) == wave;
    while i < WORD_BITS
      invariant 0 <= i <= WORD_BITS && now == wave + WordWave(init, word, i)
      invariant Masked(before, buff[..], init.Mask(), now)
    {
      var bit := word[WORD_BITS - 1 - i];
      WordNext(init, word, i, wave, bit);
      WriteBit(init, buff, 3 * i + 114, bit, before, now);
      now := now + [High(init, bit), Low(init, bit), High(init, bit)];
      i := i + 1;
    }
  }

  /** When it is shut down the whole buffer is idle. */
  method WriteIdle(init: AdcInit, buff: array<Byte>, dwBuff: nat)
    requires init.Fits() && dwBuff <= buff.Length
    modifies buff
    ensures Masked(old(buff[..]), buff[..], init.Mask(), IdleWave(init, dwBuff))
  {
    WriteAll(buff, dwBuff, init.Mask(), Idle(init));
  }
}
