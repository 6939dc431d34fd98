/**
 What the regions of the pipe server report and do: which messages are handed to
 WriteFile, which are completed and with what outcome, and which sessions end.
 */
module PipeOutcomes {
  import opened Options
  import opened PipeModel
  import opened PipeRuns

  // ------------------------------------------------------------------ writes

  // What is written and completed in a region, besides which it accepts nothing.
  ghost predicate Logs(s: Server, r: Server, written: seq<Write>, done: seq<Completion>) {
    && r.log.written == s.log.written + written && r.log.completed == s.log.completed + done
    && r.log.accepted == s.log.accepted
  }

  // Only the writes of instance i have changed.
  ghost predicate SameSession(s: Server, r: Server, i: nat) {
    && |r.pipes| == |s.pipes| && i < |s.pipes|
    && (forall k :: 0 <= k < |s.pipes| && k != i ==> r.pipes[k] == s.pipes[k])
    && r.pipes[i].id == s.pipes[i].id && r.pipes[i].status == s.pipes[i].status
    && r.pipes[i].pending == s.pipes[i].pending && r.pipes[i].event == s.pipes[i].event
    && r.log.announced == s.log.announced && r.nextId == s.nextId && r.nConnected == s.nConnected
    && r.pc == Opening
  }

  /** A write was under way when the write event of instance i woke the worker: just
      its message, the head of the queue, is completed, and well if and only if the
      write has finished with all its bytes. */
  lemma PendingWriteOutcome(s: Server, i: nat, os: Os)
    requires i < |s.pipes| && s.pipes[i].writePending && s.pipes[i].queue != []
    ensures var r, queue := OnWait(s, 2 * i + 2, os).server, s.pipes[i].queue;
      && Logs(s, r, [], [Completion(queue[0], os.finished && os.transferred == queue[0].size)])
      && SameSession(s, r, i) && r.pipes[i].queue == queue[1..] && !r.pipes[i].writePending
      && r.pipes[i].inFlight == None && r.pipes[i].writeEvent == (queue[1..] != [])
  {
    assert (2 * i + 2 - 1) / 2 == i && (2 * i + 2 - 1) % 2 == 1;
  }

  // The head of the queue goes to WriteFile, which leaves it pending,
  lemma LeftPending(s: Server, i: nat, os: Os)
    requires i < |s.pipes| && !s.pipes[i].writePending && s.pipes[i].queue != [] && os.write == Pending
    ensures var r, p := OnWrite(s, i, os).server, s.pipes[i];
      && Logs(s, r, [Write(p.id, p.queue[0])], []) && SameSession(s, r, i)
      && r.pipes[i].queue == p.queue && r.pipes[i].writePending && !r.pipes[i].writeEvent
      && r.pipes[i].inFlight == Some(p.queue[0])
  {
    assert s.log.completed + [] == s.log.completed;
  }

  // or not.
  lemma DealtWith(s: Server, i: nat, os: Os)
    requires i < |s.pipes| && !s.pipes[i].writePending && s.pipes[i].queue != [] && os.write != Pending
    ensures var r, p := OnWrite(s, i, os).server, s.pipes[i];
      && Logs(s, r, [Write(p.id, p.queue[0])], [Completion(p.queue[0], os.write == Done)]) && SameSession(s, r, i)
      && r.pipes[i].queue == p.queue[1..] && !r.pipes[i].writePending
      && r.pipes[i].inFlight == None && r.pipes[i].writeEvent == (p.queue[1..] != [])
  {}

  /** None was: the head of the queue is handed to WriteFile, once; it is completed if
      that did not leave it pending, and well if and only if that succeeded. */
  lemma NextWriteOutcome(s: Server, i: nat, os: Os)
    requires i < |s.pipes| && !s.pipes[i].writePending && s.pipes[i].queue != []
    ensures var r, p := OnWait(s, 2 * i + 2, os).server, s.pipes[i];
      && Logs(s, r, [Write(p.id, p.queue[0])],
              match os.write
              case Done => [Completion(p.queue[0], true)]
              case Failed => [Completion(p.queue[0], false)]
              case Pending => [])
      && SameSession(s, r, i)
      && r.pipes[i].queue == (if os.write == Pending then p.queue else p.queue[1..])
      && r.pipes[i].writePending == (os.write == Pending)
      && r.pipes[i].inFlight == (if os.write == Pending then Some(p.queue[0]) else None)
      && r.pipes[i].writeEvent == (os.write != Pending && p.queue[1..] != [])
  {
    assert (2 * i + 2 - 1) / 2 == i && (2 * i + 2 - 1) % 2 == 1;
    if os.write == Pending { LeftPending(s, i, os); } else { DealtWith(s, i, os); }
  }

  lemma NoWriteOutcome(s: Server, i: nat, os: Os)
    requires i < |s.pipes| && s.pipes[i].queue == []
    ensures var r := OnWait(s, 2 * i + 2, os).server;
      Logs(s, r, [], []) && SameSession(s, r, i) && r.pipes[i].queue == [] && !r.pipes[i].writePending
  {
    assert (2 * i + 2 - 1) / 2 == i && (2 * i + 2 - 1) % 2 == 1;
  }

  // ---------------------------------------------------------------- sessions

  // The event of instance i is signalled because its call has failed.
  predicate CallFailed(p: Pipe, os: Os) {
    match p.status
    case Created => os.connect == Failed
    case Connecting => p.pending && !os.finished
    case Reading => if p.pending then !os.finished else os.read == Failed
  }

  function Failures(queue: seq<Msg>): (r: seq<Completion>)
    ensures |r| == |queue|
  {
    seq(|queue|, k requires 0 <= k < |queue| => Completion(queue[k], false))
  }

  /** The session of instance i is over: all that was queued for it fails, in order,
      and the instance is gone; or, being the only one, it waits for a new client
      under a new id. */
  ghost predicate Ends(s: Server, r: Server, i: nat)
    requires i < |s.pipes|
  {
    && r.log.accepted == s.log.accepted && r.log.written == s.log.written && r.log.announced == s.log.announced
    && (if s.maxPipes == 1 then
          && |r.pipes| == |s.pipes| && r.nextId == s.nextId + 1
          && (forall k :: 0 <= k < |s.pipes| && k != i ==> r.pipes[k] == s.pipes[k])
          && var p := r.pipes[i];
            IsNew(p.(queue := []), s.nextId)
        else r.nextId == s.nextId && r.pipes == s.pipes[..i] + s.pipes[i + 1..])
  }

  // Its session is over, and what was queued for it has failed.
  ghost predicate GivenUp(s: Server, r: Server, i: nat)
    requires i < |s.pipes|
  {
    && Ends(s, r, i) && r.log.completed == s.log.completed + Failures(s.pipes[i].queue) && r.pc == Opening
    && (s.maxPipes == 1 ==> r.pipes[i].queue == [])
  }

  // It goes on; if something was read, with ProcessData.
  ghost predicate GoesOn(s: Server, r: Server, i: nat, os: Os, got: bool)
    requires i < |s.pipes|
  {
    var p, q := s.pipes[i], if i < |r.pipes| then r.pipes[i] else s.pipes[i];
    && Logs(s, r, [], []) && r.nextId == s.nextId && r.pipes == s.pipes[i := q]
    && q.id == p.id && q.queue == p.queue && q.writePending == p.writePending
    && q.writeEvent == p.writeEvent && q.inFlight == p.inFlight
    && q.status == (if p.status == Created then Connecting else Reading)
    && q.pending == (match p.status
                     case Created => os.connect == Pending
                     case Connecting => false
                     case Reading => p.pending || os.read == Pending)
    && q.event == (match p.status case Created => os.connect == Done case Connecting => true case Reading => false)
    && r.log.announced == s.log.announced + (if got then {p.id} else {})
    && r.pc == (if !got then Opening else if p.pending then InRead(i) else InNextRead(i))
  }

  lemma DiscardGivesUp(s: Server, i: nat, reading: bool)
    requires i < |s.pipes| && s.pc == Opening && (reading || s.pipes[i].queue == [])
    ensures GivenUp(s, Discard(s, i, reading).server, i)
  {
    assert Failures(s.pipes[i].queue) == FailAll(s.pipes[i].queue);
    assert s.log.completed + [] == s.log.completed;
  }

  // The region has reset the event of the instance.
  function Woken(s: Server, i: nat): Server
    requires i < |s.pipes|
  {
    SetPipe(s, i, s.pipes[i].(event := false)).(pc := Opening)
  }

  lemma WokenGivesUp(s: Server, i: nat, r: Server)
    requires i < |s.pipes| && GivenUp(Woken(s, i), r, i)
    ensures GivenUp(s, r, i)
  {
    var ps := s.pipes[i := s.pipes[i].(event := false)];
    assert ps[..i] == s.pipes[..i] && ps[i + 1..] == s.pipes[i + 1..];
  }

  lemma CreatedOutcome(s: Server, i: nat, os: Os)
    requires i < |s.pipes| && s.pipes[i].status == Created && s.pipes[i].queue == []
    ensures var r := OnPipe(s, i, os).server;
      if os.connect == Failed then GivenUp(s, r, i) else GoesOn(s, r, i, os, false)
  {
    if os.connect == Failed {
      DiscardGivesUp(Woken(s, i), i, false);
      WokenGivesUp(s, i, OnPipe(s, i, os).server);
    }
  }

  lemma ConnectingOutcome(s: Server, i: nat, os: Os)
    requires i < |s.pipes| && s.pipes[i].status == Connecting && s.pipes[i].queue == []
    ensures var r := OnPipe(s, i, os).server;
      if s.pipes[i].pending && !os.finished then GivenUp(s, r, i) else GoesOn(s, r, i, os, false)
  {
    if s.pipes[i].pending && !os.finished {
      DiscardGivesUp(Woken(s, i), i, false);
      WokenGivesUp(s, i, OnPipe(s, i, os).server);
    } else {
      Connected(s, i, os);
    }
  }

  lemma Connected(s: Server, i: nat, os: Os)
    requires i < |s.pipes| && s.pipes[i].status == Connecting && (s.pipes[i].pending ==> os.finished)
    ensures var r := OnPipe(s, i, os).server;
      GoesOn(s, r, i, os, false) && r.nConnected == s.nConnected + 1
  {}

  lemma ReadingOutcome(s: Server, i: nat, os: Os)
    requires i < |s.pipes| && s.pipes[i].status == Reading
    ensures var r, p := OnPipe(s, i, os).server, s.pipes[i];
      if CallFailed(p, os) then GivenUp(s, r, i) else GoesOn(s, r, i, os, p.pending || os.read == Done)
  {
    if CallFailed(s.pipes[i], os) { ReadFailed(s, i, os); } else { ReadOn(s, i, os); }
  }

  lemma ReadFailed(s: Server, i: nat, os: Os)
    requires i < |s.pipes| && s.pipes[i].status == Reading && CallFailed(s.pipes[i], os)
    ensures GivenUp(s, OnPipe(s, i, os).server, i)
  {
    DiscardGivesUp(Woken(s, i), i, true);
    assert OnPipe(s, i, os) == Discard(Woken(s, i), i, true);
    WokenGivesUp(s, i, OnPipe(s, i, os).server);
  }

  lemma ReadOn(s: Server, i: nat, os: Os)
    requires i < |s.pipes| && s.pipes[i].status == Reading && !CallFailed(s.pipes[i], os)
    ensures GoesOn(s, OnPipe(s, i, os).server, i, os, s.pipes[i].pending || os.read == Done)
  {
    if s.pipes[i].pending { HasRead(s, i, os); }
    else if os.read == Done { HasReadAtOnce(s, i, os); }
    else { ReadIsPending(s, i, os); }
  }

  lemma HasRead(s: Server, i: nat, os: Os)
    requires i < |s.pipes| && s.pipes[i].status == Reading && s.pipes[i].pending && os.finished
    ensures GoesOn(s, OnPipe(s, i, os).server, i, os, true)
  {
    assert OnPipe(s, i, os).server == Announce(Woken(s, i), i).(pc := InRead(i));
  }

  lemma HasReadAtOnce(s: Server, i: nat, os: Os)
    requires i < |s.pipes| && s.pipes[i].status == Reading && !s.pipes[i].pending && os.read == Done
    ensures GoesOn(s, OnPipe(s, i, os).server, i, os, true)
  {
    assert OnPipe(s, i, os).server == Announce(Woken(s, i), i).(pc := InNextRead(i));
  }

  lemma ReadIsPending(s: Server, i: nat, os: Os)
    requires i < |s.pipes| && s.pipes[i].status == Reading && !s.pipes[i].pending && os.read == Pending
    ensures GoesOn(s, OnPipe(s, i, os).server, i, os, false)
  {
    assert OnPipe(s, i, os).server.pipes == s.pipes[i := s.pipes[i].(event := false, pending := true)];
  }

  /** An instance is given up exactly when a call for it has failed. Otherwise its
      session goes on: from created to connecting, from connecting to reading, and if
      something was read, to ProcessData. */
  lemma SessionOutcome(s: Server, i: nat, os: Os)
    requires i < |s.pipes| && (s.pipes[i].status != Reading ==> s.pipes[i].queue == [])
    ensures var r, p := OnWait(s, 2 * i + 1, os).server, s.pipes[i];
      if CallFailed(p, os) then GivenUp(s, r, i)
      else GoesOn(s, r, i, os, p.status == Reading && (p.pending || os.read == Done))
  {
    assert (2 * i + 1 - 1) / 2 == i && (2 * i + 1 - 1) % 2 == 0;
    match s.pipes[i].status
    case Created => CreatedOutcome(s, i, os);
    case Connecting => ConnectingOutcome(s, i, os);
    case Reading => ReadingOutcome(s, i, os);
  }

  /** After ProcessData the next read is issued, if none completed at once; only if
      that fails the session ends. */
  lemma NextReadOutcome(s: Server, i: nat, os: Os)
    requires i < |s.pipes|
    ensures var r, p := AfterRead(s, i, os).server, s.pipes[i];
      if os.read == Failed then GivenUp(s, r, i)
      else
        && Logs(s, r, [], []) && r.pipes == s.pipes[i := p.(pending := os.read == Pending)] && r.nextId == s.nextId
        && r.pc == (if os.read == Done then InNextRead(i) else Opening)
        && r.log.announced == s.log.announced + (if os.read == Done then {p.id} else {})
    ensures var r := AfterNextRead(s, i).server;
      Logs(s, r, [], []) && r.pipes == s.pipes[i := s.pipes[i].(event := true)] && r.pc == Opening
  {
    if os.read == Failed {
      var p := s.pipes[i].(pending := false);
      var s1 := SetPipe(s, i, p).(pc := Opening);
      DiscardGivesUp(s1, i, true);
      assert s1.pipes[..i] == s.pipes[..i] && s1.pipes[i + 1..] == s.pipes[i + 1..];
    }
  }

  // An instance that waits for its first call.
  predicate IsNew(p: Pipe, id: int) {
    && p.id == id && p.status == Created && p.event && p.queue == []
    && !p.pending && !p.writeEvent && !p.writePending && p.inFlight == None
  }

  /** Before the wait another instance is added, under a new id, exactly when all are
      connected, there may be more and none has failed to be created so far. */
  lemma OpenOutcome(s: Server, os: Os)
    ensures var r, another := Open(s, os).server, s.nConnected == |s.pipes| && |s.pipes| < s.maxPipes && !s.error;
      && r.log == s.log && r.nConnected == s.nConnected && r.maxPipes == s.maxPipes && r.pc == Waiting
      && r.error == (s.error || (another && !os.created))
      && (if another && os.created then
            && |r.pipes| == |s.pipes| + 1 && r.pipes[..|s.pipes|] == s.pipes
            && IsNew(r.pipes[|s.pipes|], s.nextId) && r.nextId == s.nextId + 1
          else r.pipes == s.pipes && r.nextId == s.nextId)
  {}

  /** A server that starts has one instance, which is connecting or, if that failed at
      once, waits for its first call under the next id. */
  lemma StartOutcome(s: Server, nPipes: nat, os: Os)
    ensures var r := Init(s, nPipes, os);
      && |r.pipes| == 1 && r.log == s.log && r.nConnected == 0 && r.working && !r.done && !r.error && r.pc == Opening
      && r.maxPipes == (if nPipes <= 31 then nPipes else 31)
      && var p := r.pipes[0];
        if os.connect == Failed then IsNew(p, s.nextId + 1) && r.nextId == s.nextId + 2
        else
          && r.nextId == s.nextId + 1 && p.id == s.nextId && p.status == Connecting && p.queue == []
          && p.pending == (os.connect == Pending) && p.event == (os.connect == Done)
          && !p.writeEvent && !p.writePending && p.inFlight == None
  {}

  // The failures of all that is queued, instance by instance.
  function AllFailures(pipes: seq<Pipe>): seq<Completion> {
    if pipes == [] then [] else Failures(pipes[0].queue) + AllFailures(pipes[1..])
  }

  lemma {:induction false} AllFailuresAre(pipes: seq<Pipe>)
    ensures FailPipes(pipes) == AllFailures(pipes)
    decreases |pipes|
  {
    if pipes == [] {
    } else {
      AllFailuresAre(pipes[1..]);
      assert FailAll(pipes[0].queue) == Failures(pipes[0].queue);
    }
  }

  /** Closing turns senders away and wakes the worker, which ends on that; an entry of
      the wait list that is no more is passed over; and when the worker has ended,
      everything queued fails, instance by instance and in order. */
  lemma CloseOutcome(s: Server, e: nat, os: Os)
    ensures BeginClose(s) == s.(working := false, done := true)
    ensures OnWait(s, 0, os).server == s.(pc := Finished)
    ensures e > 2 * |s.pipes| ==> OnWait(s, e, os).server == s.(pc := Opening)
    ensures var r := EndClose(s).server;
      && r.pipes == [] && r.pc == Stopped && r.nextId == s.nextId
      && Logs(s, r, [], AllFailures(s.pipes)) && r.log.announced == s.log.announced
  {
    AllFailuresAre(s.pipes);
  }

  // ------------------------------------------------------------- all regions

  // The write event of an instance.
  predicate WriteEntry(s: Server, l: Label) {
    l.Wake? && 0 < l.w <= 2 * |s.pipes| && l.w % 2 == 0
  }

  ghost predicate AllFail(s: Server, r: Server) {
    && s.log.completed <= r.log.completed && r.log.written == s.log.written
    && forall k :: |s.log.completed| <= k < |r.log.completed| ==> !r.log.completed[k].ok
  }

  lemma {:induction false} CloseFails(pipes: seq<Pipe>)
    ensures forall k :: 0 <= k < |FailPipes(pipes)| ==> !FailPipes(pipes)[k].ok
    decreases |pipes|
  {
    if pipes == [] {
    } else {
      CloseFails(pipes[1..]);
    }
  }

  lemma DiscardFails(s: Server, i: nat, reading: bool)
    requires i < |s.pipes|
    ensures AllFail(s, Discard(s, i, reading).server)
  {}

  lemma ReadNextFails(s: Server, i: nat, os: Os)
    requires i < |s.pipes|
    ensures AllFail(s, ReadNext(s, i, os).server)
  {
    DiscardFails(s, i, true);
  }

  lemma OnPipeFails(s: Server, i: nat, os: Os)
    requires i < |s.pipes|
    ensures AllFail(s, OnPipe(s, i, os).server)
  {
    var s1 := Woken(s, i);
    match s.pipes[i].status
    case Created => DiscardFails(s1, i, false);
    case Connecting => DiscardFails(s1, i, false);
    case Reading => DiscardFails(s1, i, true); ReadNextFails(s1, i, os);
  }

  lemma AfterReadFails(s: Server, i: nat, os: Os)
    requires i < |s.pipes|
    ensures AllFail(s, AfterRead(s, i, os).server)
  {
    ReadNextFails(SetPipe(s, i, s.pipes[i].(pending := false)).(pc := Opening), i, os);
  }

  lemma CallsFail(s: Server, msg: Msg, room: bool, nPipes: nat, os: Os)
    ensures AllFail(s, Send(s, msg, room)) && AllFail(s, Init(s, nPipes, os)) && AllFail(s, BeginClose(s))
    ensures AllFail(s, Open(s, os).server)
  {}

  lemma EndFails(s: Server)
    ensures AllFail(s, EndClose(s).server)
  {
    CloseFails(s.pipes);
  }

  lemma WakeFails(s: Server, e: nat, os: Os)
    requires !(0 < e <= 2 * |s.pipes| && e % 2 == 0)
    ensures AllFail(s, OnWait(s, e, os).server)
  {
    if 0 < e <= 2 * |s.pipes| { OnPipeFails(s, (e - 1) / 2, os); }
  }

  lemma RegionFails(s: Server, l: Label, room: bool)
    requires CanStep(s, l) && !WriteEntry(s, l)
    ensures AllFail(s, Region(s, l, room).server)
  {
    match l
    case Wake(_, e, os) => WakeFails(s, e, os);
    case ReadDone(_, os) => AfterReadFails(s, s.pc.i, os);
    case SendOne(_, msg) => CallsFail(s, msg, room, 0, Os(false, Done, false, 0, Done, Done));
    case Start(_, nPipes, os) => CallsFail(s, Msg(0, 0, 0), room, nPipes, os);
    case OpenOne(_, os) => CallsFail(s, Msg(0, 0, 0), room, 0, os);
    case Closed(_) => EndFails(s);
    case _ =>
  }

  /** In any step of any run: a message is reported to have been sent if and only if
      its write event woke the worker, it is the head of its queue, and either its
      write was under way and has finished with all its bytes, or it was handed to
      WriteFile just now and that succeeded. All else that is completed, when a
      session ends or the server closes, has failed; and nothing else is written. */
  lemma TrueOutcomes(w: World, l: Label)
    requires Enabled(w, l)
    ensures var s, r := w.servers[l.k], Apply(w, l).servers[l.k];
      if !WriteEntry(s, l) then AllFail(s, r)
      else
        var p := s.pipes[(l.w - 1) / 2];
        var sent := if p.writePending then l.os.finished && p.queue != [] && l.os.transferred == p.queue[0].size
                    else l.os.write == Done;
        && Logs(s, r, if p.queue != [] && !p.writePending then [Write(p.id, p.queue[0])] else [],
                if p.queue == [] || (!p.writePending && l.os.write == Pending) then []
                else [Completion(p.queue[0], sent)])
  {
    var s := w.servers[l.k];
    if !WriteEntry(s, l) {
      RegionFails(s, l, l.SendOne? && Room(w, l.msg.size));
    } else {
      var i := (l.w - 1) / 2;
      assert l.w == 2 * i + 2;
      if s.pipes[i].queue == [] { NoWriteOutcome(s, i, l.os); }
      else if s.pipes[i].writePending { PendingWriteOutcome(s, i, l.os); }
      else { NextWriteOutcome(s, i, l.os); }
    }
  }
}
