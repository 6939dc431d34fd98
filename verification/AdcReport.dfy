/**
 What each packet says: the points, the counts of bad reads and overflows and the
 error bits of the samples that came while it was being filled.
 */
module AdcReport {
  import opened Bits
  import opened AdcSpec
  import opened AdcDecoder
  import opened AdcDelivery
  import opened AdcRoundTrip
  import opened AdcWire
  import opened Sequences

  // ------------------------------------------------------- what samples say

  function Overflows(samples: seq<Sample>): nat {
    if samples == [] then 0
    else Overflows(samples[..|samples| - 1]) + if samples[|samples| - 1].status[7] then 1 else 0
  }

  // Samples whose status is not that of a sample, or whose channel is not in use.
  function Unusable(init: AdcInit, samples: seq<Sample>): nat {
    if samples == [] then 0
    else
      var s := samples[|samples| - 1];
      Unusable(init, samples[..|samples| - 1])
      + if BelongsTo(init, s, false) || BelongsTo(init, s, true) then 0 else 1
  }

  /** Error bits 0 and 2 are those of the first channel, 4 and 6 those of the
      second: bits 0 and 2 of the status of one of its samples. */
  predicate Reports(s: Sample, p: nat) {
    p < 8 && p % 2 == 0 && s.status[3] && !s.status[5] && s.status[6] == (p >= 4) && s.status[p % 4]
  }

  predicate ErrorSeen(samples: seq<Sample>, p: nat) {
    exists k :: 0 <= k < |samples| && Reports(samples[k], p)
  }

  // A packet says this of its samples.
  ghost predicate Says(init: AdcInit, p: Packet, samples: seq<Sample>) {
    && p.chan1 == ChannelData(init, samples, false) && p.chan2 == ChannelData(init, samples, true)
    && p.overflow == Overflows(samples) % 0x1_0000 && p.badRead == Unusable(init, samples) % 0x1_0000
    && forall k :: 0 <= k < 8 ==> (p.error[k] <==> ErrorSeen(samples, k))
  }

  predicate Fills(init: AdcInit, samples: seq<Sample>) {
    || |ChannelData(init, samples, false)| == init.dataPerTrans
    || |ChannelData(init, samples, true)| == init.dataPerTrans
  }

  // The last sample, and none before it, makes a packet full.
  ghost predicate JustFills(init: AdcInit, samples: seq<Sample>) {
    Fills(init, samples) && forall k :: 0 <= k < |samples| ==> !Fills(init, samples[..k])
  }

  function Current(o: Output): Packet { Packet(o.pos, o.chan1, o.chan2, o.badRead, o.overflow, o.error) }

  function Join(parts: seq<seq<Sample>>): seq<Sample> {
    if parts == [] then [] else Join(parts[..|parts| - 1]) + parts[|parts| - 1]
  }

  // The samples are cut into the parts that fill a packet each, and the rest.
  ghost predicate Tells(init: AdcInit, o: Output, samples: seq<Sample>, parts: seq<seq<Sample>>, rest: seq<Sample>) {
    && Join(parts) + rest == samples && |o.sent| == |parts|
    && (forall k :: 0 <= k < |parts| ==> JustFills(init, parts[k]) && Says(init, o.sent[k], parts[k]))
    && Says(init, Current(o), rest) && forall k :: 0 <= k < |rest| ==> !Fills(init, rest[..k])
  }

  // ------------------------------------------------------------- one sample

  lemma {:induction false} LastData(init: AdcInit, samples: seq<Sample>, s: Sample, second: bool)
    ensures ChannelData(init, samples + [s], second)
         == ChannelData(init, samples, second) + if BelongsTo(init, s, second) then [s.data] else []
    decreases |samples|
  {
    if samples == [] {
      assert [] + [s] == [s] && [s][1..] == [] && ChannelData(init, [], second) == [];
    } else {
      assert (samples + [s])[0] == samples[0] && (samples + [s])[1..] == samples[1..] + [s];
      LastData(init, samples[1..], s, second);
      Regrouped(if BelongsTo(init, samples[0], second) then [samples[0].data] else [],
                ChannelData(init, samples[1..], second), if BelongsTo(init, s, second) then [s.data] else []);
    }
  }

  lemma LastCounts(init: AdcInit, samples: seq<Sample>, s: Sample)
    ensures Overflows(samples + [s]) == Overflows(samples) + if s.status[7] then 1 else 0
    ensures Unusable(init, samples + [s])
         == Unusable(init, samples) + if BelongsTo(init, s, false) || BelongsTo(init, s, true) then 0 else 1
  {
    assert (samples + [s])[..|samples|] == samples;
  }

  lemma LastErrors(samples: seq<Sample>, s: Sample, p: nat)
    ensures ErrorSeen(samples + [s], p) <==> ErrorSeen(samples, p) || Reports(s, p)
  {
    var all := samples + [s];
    if ErrorSeen(samples, p) {
      var k :| 0 <= k < |samples| && Reports(samples[k], p);
      assert Reports(all[k], p);
    }
    if Reports(s, p) { assert Reports(all[|samples|], p); }
    if ErrorSeen(all, p) {
      var k :| 0 <= k < |all| && Reports(all[k], p);
      if k < |samples| { assert Reports(samples[k], p); }
    }
  }

  lemma CountNext(n: nat, more: bool)
    ensures (if more then Inc16(n % 0x1_0000) else n % 0x1_0000) == (n + if more then 1 else 0) % 0x1_0000
  {
    var m := 0x1_0000;
    var q, r := n / m, n % m;
    if r + 1 == m { assert n + 1 == (q + 1) * m; } else { assert n + 1 == q * m + (r + 1); }
  }

  lemma ErrorBitsOf(s: Sample, k: nat)
    requires k < 8 && StatusOk(s)
    ensures ErrorBits(s)[k] <==> Reports(s, k)
  {
    var b := And(s.status, CHANNEL_ERRORS);
    assert b[0] == s.status[0] && b[2] == s.status[2] && !b[1] && !b[3] && !b[4] && !b[5] && !b[6] && !b[7];
    if Second(s) { assert ErrorBits(s)[k] == (4 <= k && b[k - 4]); } else { assert ErrorBits(s)[k] == b[k]; }
  }

  lemma StoreErrors(init: AdcInit, o: Output, samples: seq<Sample>, s: Sample, k: nat)
    requires k < 8 && (o.error[k] <==> ErrorSeen(samples, k))
    ensures Store(init, o, s).error[k] <==> ErrorSeen(samples + [s], k)
  {
    StoreFields(init, o, s);
    LastErrors(samples, s, k);
    if StatusOk(s) { ErrorBitsOf(s, k); }
  }

  lemma StoreCounts(init: AdcInit, o: Output, samples: seq<Sample>, s: Sample)
    requires o.overflow == Overflows(samples) % 0x1_0000 && o.badRead == Unusable(init, samples) % 0x1_0000
    ensures var r := Store(init, o, s);
      && r.overflow == Overflows(samples + [s]) % 0x1_0000 && r.badRead == Unusable(init, samples + [s]) % 0x1_0000
  {
    StoreFields(init, o, s);
    LastCounts(init, samples, s);
    CountNext(Overflows(samples), s.status[7]);
    CountNext(Unusable(init, samples), !(BelongsTo(init, s, false) || BelongsTo(init, s, true)));
  }

  // Storing a sample in a packet that is not full.
  lemma StoreSays(init: AdcInit, o: Output, samples: seq<Sample>, s: Sample)
    requires Says(init, Current(o), samples)
    ensures Says(init, Current(Store(init, o, s)), samples + [s])
  {
    LastData(init, samples, s, false);
    LastData(init, samples, s, true);
    StoreFields(init, o, s);
    StoreCounts(init, o, samples, s);
    forall k | 0 <= k < 8 ensures Store(init, o, s).error[k] <==> ErrorSeen(samples + [s], k) {
      StoreErrors(init, o, samples, s, k);
    }
  }

  lemma StoreFields(init: AdcInit, o: Output, s: Sample)
    ensures var r := Store(init, o, s);
      && r.sent == o.sent && r.pos == o.pos
      && r.chan1 == (if BelongsTo(init, s, false) then o.chan1 + [s.data] else o.chan1)
      && r.chan2 == (if BelongsTo(init, s, true) then o.chan2 + [s.data] else o.chan2)
      && r.overflow == (if s.status[7] then Inc16(o.overflow) else o.overflow)
      && r.badRead == (if BelongsTo(init, s, false) || BelongsTo(init, s, true) then o.badRead else Inc16(o.badRead))
      && forall k :: 0 <= k < 8 ==> r.error[k] == (o.error[k] || (StatusOk(s) && ErrorBits(s)[k]))
  {}

  // --------------------------------------------------------------- all of them

  lemma EmptySays(init: AdcInit, p: Packet)
    requires p.chan1 == [] && p.chan2 == [] && p.badRead == 0 && p.overflow == 0 && p.error == ZERO
    ensures Says(init, p, [])
  {}

  // The packet is full: the next sample starts a new one,
  lemma StartsPacket(init: AdcInit, o: Output, samples: seq<Sample>, parts: seq<seq<Sample>>, rest: seq<Sample>,
                     s: Sample)
    requires init.dataPerTrans > 0 && Tells(init, o, samples, parts, rest) && Full(init, o)
    ensures Tells(init, Accept(init, o, s), samples + [s], parts + [rest], [s])
  {
    var f, parts' := Flush(o), parts + [rest];
    assert Fills(init, rest) && parts'[..|parts|] == parts;
    EmptySays(init, Current(f));
    StoreSays(init, f, [], s);
    StoreFields(init, f, s);
    assert [] + [s] == [s] && [s][..0] == [] && !Fills(init, []);
  }

  lemma StillNotFull(init: AdcInit, rest: seq<Sample>, s: Sample)
    requires !Fills(init, rest) && forall k :: 0 <= k < |rest| ==> !Fills(init, rest[..k])
    ensures forall k :: 0 <= k < |rest + [s]| ==> !Fills(init, (rest + [s])[..k])
  {
    forall k | 0 <= k < |rest + [s]| ensures !Fills(init, (rest + [s])[..k]) {
      if k < |rest| { assert (rest + [s])[..k] == rest[..k]; } else { assert (rest + [s])[..k] == rest; }
    }
  }

  // or it is not.
  lemma JoinsPacket(init: AdcInit, o: Output, samples: seq<Sample>, parts: seq<seq<Sample>>, rest: seq<Sample>,
                    s: Sample)
    requires Tells(init, o, samples, parts, rest) && !Full(init, o)
    ensures Tells(init, Accept(init, o, s), samples + [s], parts, rest + [s])
  {
    StoreFields(init, o, s);
    StoreSays(init, o, rest, s);
    Regrouped(Join(parts), rest, [s]);
    StillNotFull(init, rest, s);
  }

  /** The samples accepted are cut into parts, each ending with the sample that makes
      a packet full, and a rest; the packets sent say what the parts say, in order,
      and the packet being filled what the rest says. */
  lemma {:induction false} PacketsTell(init: AdcInit, samples: seq<Sample>)
      returns (parts: seq<seq<Sample>>, rest: seq<Sample>)
    requires init.dataPerTrans > 0
    ensures Tells(init, AcceptAll(init, EMPTY, samples), samples, parts, rest)
    decreases |samples|
  {
    if samples == [] {
      parts, rest := [], [];
      EmptySays(init, Current(EMPTY));
    } else {
      var n := |samples| - 1;
      var before, s := samples[..n], samples[n];
      parts, rest := PacketsTell(init, before);
      var o := AcceptAll(init, EMPTY, before);
      assert samples == before + [s];
      if Full(init, o) {
        StartsPacket(init, o, before, parts, rest, s);
        parts, rest := parts + [rest], [s];
      } else {
        JoinsPacket(init, o, before, parts, rest, s);
        rest := rest + [s];
      }
      AcceptAllAppend(init, EMPTY, before, [s]);
      assert [s][1..] == [];
    }
  }

  // ------------------------------------------------------------- the device

  // What the device reports with a data point.
  datatype Reading = Reading(second: bool, overflow: bool, error0: bool, error2: bool, data: Point)

  function Report(r: Reading): Sample {
    Sample([r.error0, false, r.error2, true, false, false, r.second, r.overflow], r.data)
  }

  /** Its status names the channel, the overflow and the errors of that channel. */
  lemma ReportMeaning(init: AdcInit, r: Reading, second: bool, p: nat)
    ensures BelongsTo(init, Report(r), second) <==> r.second == second && if second then init.chan2 else init.chan1
    ensures Report(r).status[7] == r.overflow
    ensures Reports(Report(r), p) <==>
      (p == (if r.second then 4 else 0) && r.error0) || (p == (if r.second then 6 else 2) && r.error2)
  {}

  /** And all of it arrives: the packets that the stream of the device ends up in
      say what its samples say. */
  lemma PacketsArrive(init: AdcInit, samples: seq<Sample>, wires: seq<seq<Slot>>, cycles: seq<seq<Bits>>,
                      tail: seq<Slot>, part: seq<Bits>, x: Byte, n: nat)
      returns (parts: seq<seq<Sample>>, rest: seq<Sample>)
    requires init.Fits() && Sized(init, samples) && Arrives(init, wires, cycles, tail, part)
    requires AllBits(cycles) <= Encode(samples) && n == |cycles| / init.Cycles() * SetSize(init)
    ensures Valid(init, INITIAL) && n <= |samples|
    ensures Tells(init, Decode(init, INITIAL, BytesOf(AdcRoundTrip.Join(wires) + tail) + [x]).out, samples[..n],
                  parts, rest)
  {
    RoundTrip(init, samples, wires, cycles, tail, part, x, n);
    parts, rest := PacketsTell(init, samples[..n]);
  }
}
