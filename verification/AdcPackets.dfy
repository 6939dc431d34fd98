/**
 The packet memory of the ADC peripheral: two channel regions with their
 counts, the error counters, and the packets already sent.
 */
module AdcPackets {
  import opened Bits
  import opened AdcSpec
  import opened AdcDecoder

  // A packet as sent: both channel regions with their counts.
  datatype SentPacket = SentPacket(pos: nat, count1: nat, chan2Start: nat, count2: nat, data: seq<Point>,
                                   badRead: nat, overflow: nat, error: Byte)

  ghost predicate Describes(p: SentPacket, q: Packet) {
    && p.count1 <= |p.data| && p.chan2Start + p.count2 <= |p.data|
    && q == Packet(p.pos, p.data[..p.count1], p.data[p.chan2Start..p.chan2Start + p.count2],
                   p.badRead, p.overflow, p.error)
  }

  ghost predicate AllDescribed(ps: seq<SentPacket>, qs: seq<Packet>) {
    |ps| == |qs| && forall k :: 0 <= k < |ps| ==> Describes(ps[k], qs[k])
  }

  // A channel's region of the packet memory starts with these points.
  ghost predicate Region(data: array<Point>, start: nat, count: nat, points: seq<Point>)
    reads data
  {
    start + count <= data.Length && data[start..start + count] == points
  }

  method AppendPoint(data: array<Point>, start: nat, count: nat, point: Point,
                     ghost points: seq<Point>, ghost start': nat, ghost count': nat, ghost points': seq<Point>)
    requires Region(data, start, count, points) && start + count < data.Length
    requires Region(data, start', count', points') && (start + count < start' || start' + count' <= start)
    modifies data
    ensures Region(data, start, count + 1, points + [point])
    ensures Region(data, start', count', points')
  {
    data[start + count] := point;
  }

  class Packetiser {
    const init: AdcInit
    var data: array<Point>
    var chan2Start: nat
    var count1: nat
    var count2: nat
    var badRead: nat
    var overflow: nat
    var error: Byte
    var pos: nat
    var sent: seq<SentPacket>
    // The packet being filled and the packets before it.
    ghost var state: Output

    ghost predicate PointsOk(points1: seq<Point>, points2: seq<Point>)
      reads this, data
    {
      && data.Length == init.PacketPoints()
      && chan2Start == (if init.chan1 then init.dataPerTrans else 0)
      && count1 == |points1| <= init.dataPerTrans && count2 == |points2| <= init.dataPerTrans
      && (!init.chan1 ==> count1 == 0) && (!init.chan2 ==> count2 == 0)
      && Region(data, 0, count1, points1) && Region(data, chan2Start, count2, points2)
    }

    ghost predicate HeaderOk(o: Output)
      reads this
    {
      && pos == o.pos && badRead == o.badRead && overflow == o.overflow && error == o.error
      && AllDescribed(sent, o.sent)
    }

    ghost predicate Valid()
      reads this, data
    {
      init.Fits() && PointsOk(state.chan1, state.chan2) && HeaderOk(state)
    }

    constructor (init: AdcInit)
      requires init.Fits()
      ensures Valid() && fresh(data)
      ensures this.init == init && state == EMPTY
    {
      this.init := init;
      data := new Point[init.PacketPoints()](_ => Point([]));
      chan2Start := if init.chan1 then init.dataPerTrans else 0;
      count1, count2, badRead, overflow, error, pos, sent := 0, 0, 0, 0, ZERO, 0, [];
      state := EMPTY;
    }

    method CountBad()
      requires Valid()
      modifies this`badRead, this`state
      ensures Valid() && state == Bad(old(state))
    {
      badRead := Inc16(badRead);
      state := Bad(state);
    }

    method Snapshot() returns (packet: SentPacket)
      requires Valid()
      ensures Describes(packet, Packet(state.pos, state.chan1, state.chan2, state.badRead, state.overflow, state.error))
    {
      packet := SentPacket(pos, count1, chan2Start, count2, data[..], badRead, overflow, error);
      assert data[..][..count1] == data[0..count1];
      assert data[..][chan2Start..chan2Start + count2] == data[chan2Start..chan2Start + count2];
    }

    method FreshPoints()
      requires init.Fits()
      modifies this`data, this`chan2Start, this`count1, this`count2
      ensures fresh(data) && PointsOk([], [])
    {
      data := new Point[init.PacketPoints()](_ => Point([]));
      chan2Start := if init.chan1 then init.dataPerTrans else 0;
      count1, count2 := 0, 0;
    }

    // Sends the packet and starts an empty one in fresh memory.
    method SendPacket()
      requires Valid()
      modifies this
      ensures Valid() && fresh(data) && state == Flush(old(state))
    {
      var packet := Snapshot();
      sent := sent + [packet];
      pos, badRead, overflow, error := Inc32(pos), 0, 0, ZERO;
      FreshPoints();
      state := Flush(state);
    }

    method CountOverflow(flag: bool)
      requires Valid()
      modifies this`overflow, this`state
      ensures Valid() && state == MarkOverflow(old(state), flag)
    {
      if flag { overflow := Inc16(overflow); }
      state := MarkOverflow(state, flag);
    }

    method FlagErrors(flags: Byte)
      requires Valid()
      modifies this`error, this`state
      ensures Valid() && state == AddErrors(old(state), flags)
    {
      error := Or(error, flags);
      state := AddErrors(state, flags);
    }

    // The point goes to the end of its channel's region.
    method StorePoint(second: bool, point: Point)
      requires Valid() && !Full(init, state) && (if second then init.chan2 else init.chan1)
      modifies this`count1, this`count2, this`state, data
      ensures Valid() && state == AddPoint(old(state), second, point)
    {
      if second {
        AppendPoint(data, chan2Start, count2, point, state.chan2, 0, count1, state.chan1);
        count2 := count2 + 1;
      } else {
        AppendPoint(data, 0, count1, point, state.chan1, chan2Start, count2, state.chan2);
        count1 := count1 + 1;
      }
      state := AddPoint(state, second, point);
    }

    // The status decides the channel, and whether the sample only counts as a bad read.
    method StoreSample(status: Byte, point: Point)
      requires Valid() && !Full(init, state)
      modifies this`badRead, this`overflow, this`error, this`count1, this`count2, this`state, data
      ensures Valid() && state == Store(init, old(state), Sample(status, point))
    {
      var second := status[6];
      CountOverflow(status[7]);
      if status[5] || !status[3] {
        CountBad();
      } else {
        FlagErrors(Shl(And(status, CHANNEL_ERRORS), if second then 4 else 0));
        if second {
          if init.chan2 { StorePoint(second, point); } else { CountBad(); }
        } else {
          if init.chan1 { StorePoint(second, point); } else { CountBad(); }
        }
      }
    }

    // One sample of the buffer; a full packet is sent first.
    method AcceptSample(status: Byte, point: Point)
      requires Valid()
      modifies this, data
      ensures Valid() && (data == old(data) || fresh(data))
      ensures state == Accept(init, old(state), Sample(status, point))
    {
      if count1 == init.dataPerTrans || count2 == init.dataPerTrans {
        SendPacket();
      }
      StoreSample(status, point);
    }
  }
}
