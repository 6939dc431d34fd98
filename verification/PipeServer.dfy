/**
 The named pipe server: its instances, their events and the table the worker
 waits on.  Each region of the worker is a method; what the operating system
 answers in it is a parameter, what is called on devices goes into the log.
 */
module PipeServer {
  import opened CplQueue
  import opened Options
  import opened PipeModel

  /** The bytes queued in all servers, and their limit; a negative one is none. */
  class Quota {
    const limit: int
    var bytes: int

    constructor (limit: int)
      ensures this.limit == limit && bytes == 0
    {
      this.limit := limit;
      bytes := 0;
    }

    ghost predicate Room(size: nat)
      reads this
    {
      limit < 0 || bytes + size <= limit
    }

    // What is counted once `size` bytes are let go.
    ghost function Less(size: nat): int
      reads this
    {
      if limit < 0 then bytes else bytes - size
    }

    method Increase(size: nat) returns (ok: bool)
      modifies this
      ensures ok == old(Room(size))
      ensures bytes == if ok && limit >= 0 then old(bytes) + size else old(bytes)
    {
      ok := false;
      if limit < 0 {
        return true;
      }
      if bytes + size <= limit {
        bytes := bytes + size;
        ok := true;
      }
    }

    method Decrease(size: nat)
      modifies this
      ensures bytes == old(Less(size))
    {
      if limit < 0 {
        return;
      }
      bytes := bytes - size;
    }
  }

  /** One instance of the pipe. */
  class PipeResource {
    const hEvent: Event
    const hWriteEvent: Event
    const writeQueue: CQueue<Msg>
    var fPending: bool
    var eStatus: Status
    var fWritePending: bool
    var llId: int
    // What the pending write was given.
    ghost var inFlight: Option<Msg>

    ghost predicate Valid() {
      writeQueue.hEvent == hWriteEvent && hEvent != hWriteEvent
    }

    ghost predicate In(repr: set<object>) {
      this in repr && hEvent in repr && hWriteEvent in repr && writeQueue in repr
    }

    // No object belongs to both instances.
    ghost predicate Apart(p: PipeResource) {
      && this != p && writeQueue != p.writeQueue && hEvent != p.hEvent && hWriteEvent != p.hWriteEvent
      && hEvent != p.hWriteEvent && hWriteEvent != p.hEvent
    }

    ghost function View(): Pipe
      reads this, hEvent, hWriteEvent, writeQueue
    {
      Pipe(llId, eStatus, fPending, hEvent.signaled, hWriteEvent.signaled, fWritePending, inFlight, writeQueue.items)
    }

    constructor (hEvent: Event, hWriteEvent: Event, llId: int)
      requires hEvent != hWriteEvent
      ensures Valid() && this.hEvent == hEvent && this.hWriteEvent == hWriteEvent && fresh(writeQueue)
      ensures View() == NewPipe(llId).(event := hEvent.signaled, writeEvent := hWriteEvent.signaled)
    {
      this.hEvent, this.hWriteEvent, this.llId := hEvent, hWriteEvent, llId;
      writeQueue := new CQueue<Msg>(hWriteEvent);
      fPending, fWritePending, eStatus, inFlight := false, false, Created, None;
    }

    // Fails everything queued; the sizes add up to count.
    method ClearQueue() returns (count: nat, done: seq<Completion>)
      requires Valid()
      modifies writeQueue
      ensures count == Total(old(writeQueue.items)) && done == FailAll(old(writeQueue.items))
      ensures View() == old(View()).(queue := [])
    {
      count, done := 0, [];
      ghost var queue := writeQueue.items;
      while |writeQueue.items| > 0
        invariant |done| <= |queue| && writeQueue.items == queue[|done|..]
        invariant done == FailAll(queue)[..|done|]
        invariant count + Total(writeQueue.items) == Total(queue)
        decreases |writeQueue.items|
      {
        var item := writeQueue.Front(true);
        count := count + item.value.size;
        done := done + [Completion(item.value, false)];
      }
    }

    method ResetResource()
      requires Valid()
      modifies this`fPending, this`fWritePending, this`eStatus, this`inFlight, hEvent, hWriteEvent
      ensures View() == Reset(old(View()))
    {
      hEvent.Set();
      hWriteEvent.Reset();
      fWritePending, fPending, eStatus, inFlight := false, false, Created, None;
    }

    // ConnectNamedPipe; it failed if the instance is not to be kept.
    method StartConnect(connect: Io) returns (keep: bool)
      requires Valid()
      modifies this`fPending, this`eStatus, hEvent
      ensures keep == (connect != Failed)
      ensures View() == if keep then Connect(old(View()), connect) else old(View()).(pending := true)
    {
      fPending := true;
      keep := true;
      match connect
      case Done =>
        hEvent.Set();
        fPending := false;
        eStatus := Connecting;
      case Pending =>
        eStatus := Connecting;
      case Failed =>
        keep := false;
    }

    // The instance is reset under a new id; if it was reading, its queue is failed.
    method Recycle(id: int, reading: bool) returns (count: nat, done: seq<Completion>)
      requires Valid()
      modifies this, hEvent, hWriteEvent, writeQueue
      ensures View() == Reset(old(View()).(id := id, queue := if reading then [] else old(View().queue)))
      ensures count == (if reading then Total(old(View().queue)) else 0)
      ensures done == (if reading then FailAll(old(View().queue)) else [])
    {
      llId := id;
      count, done := 0, [];
      if reading {
        count, done := ClearQueue();
      }
      ResetResource();
    }

    // The client is there: the next thing to do is to read.
    method StartReading()
      requires Valid()
      modifies this`fPending, this`eStatus, hEvent
      ensures View() == old(View()).(pending := false, status := Reading, event := true)
    {
      fPending := false;
      eStatus := Reading;
      hEvent.Set();
    }

    method SetPending(pending: bool)
      modifies this`fPending
      ensures View() == old(View()).(pending := pending)
    {
      fPending := pending;
    }

    method MarkEvent(write: bool, signaled: bool)
      requires Valid()
      modifies hEvent, hWriteEvent
      ensures View() == if write then old(View()).(writeEvent := signaled) else old(View()).(event := signaled)
    {
      if write { hWriteEvent.signaled := signaled; } else { hEvent.signaled := signaled; }
    }

    method SetWritePending(pending: bool, ghost head: Option<Msg>)
      modifies this`fWritePending, this`inFlight
      ensures View() == old(View()).(writePending := pending, inFlight := head)
    {
      fWritePending, inFlight := pending, head;
    }

    method Enqueue(msg: Msg)
      requires Valid()
      modifies writeQueue, hWriteEvent
      ensures View() == Push(old(View()), msg)
    {
      writeQueue.Push(msg);
    }

    // The head of the queue is done with.
    method PopHead()
      requires Valid() && writeQueue.items != []
      modifies this`fWritePending, this`inFlight, writeQueue, hWriteEvent
      ensures View() == Pop(old(View()))
    {
      fWritePending, inFlight := false, None;
      var head := writeQueue.Front(true);
      if |writeQueue.items| > 0 {
        hWriteEvent.Set();
      }
    }
  }

  class CPipeServer {
    const quota: Quota
    var hDone: Event
    var nMaxPipes: nat
    var pipes: seq<PipeResource>
    // What the worker waits on.
    var events: seq<Event>
    var nConnected: int
    var llNextId: nat
    var bError: bool
    var bWorking: bool
    // Is there a worker?
    var hThread: bool
    // The calls made on devices, and the writes issued.
    ghost var log: Log
    // The server as a value.
    ghost var state: Server
    ghost var Repr: set<object>

    constructor (quota: Quota)
      ensures Idle() && fresh(Repr) && fresh(hDone) && this.quota == quota
      ensures state == Server(1, [], 0, 0, false, false, false, Stopped, Log([], [], {}, []))
    {
      this.quota := quota;
      hDone := new Event(false);
      nMaxPipes, pipes, events, nConnected, llNextId, bError, bWorking, hThread := 1, [], [], 0, 0, false, false, false;
      log := Log([], [], {}, []);
      state := Server(1, [], 0, 0, false, false, false, Stopped, Log([], [], {}, []));
      Repr := {};
    }

    /** The wait list: the done event, then both events of every instance. */
    ghost predicate EventsOk()
      reads this`pipes, this`events, this`hDone
    {
      && |events| == 1 + 2 * |pipes| && events[0] == hDone
      && forall i :: 0 <= i < |pipes| ==>
           events[1 + 2 * i] == pipes[i].hEvent && events[2 + 2 * i] == pipes[i].hWriteEvent
    }

    ghost predicate Separate()
      reads this`pipes, this`Repr
    {
      && this !in Repr && quota !in Repr
      && (forall i :: 0 <= i < |pipes| ==> pipes[i].Valid() && pipes[i].In(Repr))
      && forall i, j :: 0 <= i < |pipes| && 0 <= j < |pipes| && i != j ==> pipes[i].Apart(pipes[j])
    }

    // The instances as values.
    ghost predicate PipesShown(ps: seq<Pipe>)
      reads this`pipes, this`Repr, Repr
    {
      Separate() && |ps| == |pipes| && forall i :: 0 <= i < |pipes| ==> ps[i] == pipes[i].View()
    }

    ghost predicate FieldsShown(s: Server)
      reads this`nMaxPipes, this`nConnected, this`llNextId, this`bError, this`bWorking, this`hThread, this`log
      reads this`hDone, hDone
    {
      && s.maxPipes == nMaxPipes && s.nConnected == nConnected && s.nextId == llNextId
      && s.error == bError && s.working == bWorking && s.done == hDone.signaled
      && (s.pc != Stopped) == hThread && s.log == log
    }

    // While there is a worker.
    ghost predicate Valid()
      reads this, Repr, hDone
    {
      hDone !in Repr && hThread && EventsOk() && FieldsShown(state) && PipesShown(state.pipes)
    }

    // While there is none.
    ghost predicate Idle()
      reads this, Repr, hDone
    {
      hDone !in Repr && !hThread && !bWorking && pipes == [] && FieldsShown(state) && PipesShown(state.pipes)
    }

    // The state and the quota after a region.
    ghost predicate Now(r: Effect, less: int)
      reads this`state, quota
    {
      state == r.server && quota.bytes == less
    }

    /** The index arithmetic of the worker picks the instance, and which of its
        two events, that the entry of the wait list belongs to. */
    lemma EventOf(w: nat)
      requires EventsOk() && 0 < w < |events|
      ensures (w - 1) / 2 < |pipes|
      ensures events[w] == if (w - 1) % 2 == 0 then pipes[(w - 1) / 2].hEvent else pipes[(w - 1) / 2].hWriteEvent
    {
      var i := (w - 1) / 2;
      assert w == 1 + 2 * i || w == 2 + 2 * i;
    }

    method RecyclePipe(i: nat, reading: bool) returns (count: nat)
      requires Valid() && i < |pipes|
      modifies this`log, pipes[i], pipes[i].hEvent, pipes[i].hWriteEvent, pipes[i].writeQueue
      ensures count == (if reading then Total(state.pipes[i].queue) else 0)
      ensures log == if reading then AllFailed(old(log), state.pipes[i].queue) else old(log)
      ensures PipesShown(state.pipes[i := Reset(state.pipes[i].(id := llNextId,
                                                               queue := if reading then [] else state.pipes[i].queue))])
      ensures hDone.signaled == old(hDone.signaled)
    {
      var done;
      count, done := pipes[i].Recycle(llNextId, reading);
      if reading { log := log.(completed := log.completed + done); }
    }

    // Result has been called for everything in the queue.
    ghost function AllFailed(log: Log, queue: seq<Msg>): Log {
      log.(completed := log.completed + FailAll(queue))
    }

    // The ghost state catches up.
    ghost method Show(s: Server)
      requires hDone !in Repr && hThread && EventsOk() && FieldsShown(s) && PipesShown(s.pipes)
      modifies this`state
      ensures Valid() && state == s
    {
      state := s;
    }

    method ResetPipe(i: nat, reading: bool) returns (count: nat)
      requires Valid() && i < |pipes| && nMaxPipes == 1 && state.pc == Opening
      modifies this, Repr
      ensures Valid() && Repr == old(Repr)
      ensures Effect(state, count) == Discard(old(state), i, reading)
    {
      ghost var r := Discard(state, i, reading);
      count := RecyclePipe(i, reading);
      assert PipesShown(r.server.pipes);
      llNextId := llNextId + 1;
      assert FieldsShown(r.server);
      Show(r.server);
    }

    // Result is called for everything queued at instance i.
    method EmptyPipe(i: nat, ghost ps: seq<Pipe>) returns (count: nat)
      requires PipesShown(ps) && i < |pipes|
      modifies this`log, pipes[i].writeQueue
      ensures count == Total(ps[i].queue)
      ensures log == AllFailed(old(log), ps[i].queue)
      ensures PipesShown(ps[i := ps[i].(queue := [])])
    {
      var done;
      count, done := pipes[i].ClearQueue();
      log := log.(completed := log.completed + done);
    }

    // The instance leaves the list, and its events the wait list.
    method ErasePipe(i: nat, ghost ps: seq<Pipe>)
      requires EventsOk() && PipesShown(ps) && i < |pipes|
      modifies this`pipes, this`events
      ensures EventsOk() && PipesShown(ps[..i] + ps[i + 1..])
    {
      pipes := pipes[..i] + pipes[i + 1..];
      events := events[..2 * i + 1] + events[2 * i + 3..];
    }

    method DeletePipe(i: nat, reading: bool) returns (count: nat)
      requires Valid() && i < |pipes| && nMaxPipes != 1 && state.pc == Opening
      modifies this, Repr
      ensures Valid() && Repr == old(Repr)
      ensures Effect(state, count) == Discard(old(state), i, reading)
    {
      ghost var r := Discard(state, i, reading);
      ghost var ps := state.pipes[i := state.pipes[i].(queue := [])];
      count := EmptyPipe(i, state.pipes);
      assert ps[..i] + ps[i + 1..] == r.server.pipes;
      ErasePipe(i, ps);
      if reading {
        nConnected := nConnected - 1;
      }
      Show(r.server);
    }

    // An instance failed.
    method DiscardPipe(i: nat, reading: bool)
      requires Valid() && i < |pipes| && state.pc == Opening
      modifies this, quota, Repr
      ensures Valid() && Repr == old(Repr)
      ensures Now(Discard(old(state), i, reading), old(quota.Less(Discard(state, i, reading).released)))
    {
      var count;
      if nMaxPipes == 1 {
        count := ResetPipe(i, reading);
      } else {
        count := DeletePipe(i, reading);
      }
      quota.Decrease(count);
    }

    // ---------------------------------------------------- steps on an instance

    // The worker is awake for instance i, and resets the event that woke it.
    method Awake(i: nat, write: bool)
      requires Valid() && i < |pipes|
      modifies this`state, Repr
      ensures Valid() && pipes == old(pipes)
      ensures var p := old(state).pipes[i];
        state == SetPipe(old(state), i, if write then p.(writeEvent := false) else p.(event := false)).(pc := Opening)
    {
      ghost var p := state.pipes[i];
      ghost var p' := if write then p.(writeEvent := false) else p.(event := false);
      pipes[i].MarkEvent(write, false);
      assert PipesShown(state.pipes[i := p']);
      Show(SetPipe(state, i, p').(pc := Opening));
    }

    method ConnectPipe(i: nat, connect: Io) returns (keep: bool)
      requires Valid() && i < |pipes|
      modifies this`state, Repr
      ensures Valid() && pipes == old(pipes) && keep == (connect != Failed)
      ensures var p := old(state).pipes[i];
        state == SetPipe(old(state), i, if keep then Connect(p, connect) else p.(pending := true))
    {
      ghost var p := state.pipes[i];
      ghost var p' := if connect != Failed then Connect(p, connect) else p.(pending := true);
      keep := pipes[i].StartConnect(connect);
      assert PipesShown(state.pipes[i := p']);
      Show(SetPipe(state, i, p'));
    }

    method ReadPipe(i: nat)
      requires Valid() && i < |pipes|
      modifies this`state, this`nConnected, Repr
      ensures Valid() && pipes == old(pipes)
      ensures state == SetPipe(old(state), i, old(state).pipes[i].(pending := false, status := Reading, event := true))
                       .(nConnected := old(state).nConnected + 1)
    {
      ghost var p := state.pipes[i].(pending := false, status := Reading, event := true);
      pipes[i].StartReading();
      assert PipesShown(state.pipes[i := p]);
      nConnected := nConnected + 1;
      Show(SetPipe(state, i, p).(nConnected := nConnected));
    }

    method PendPipe(i: nat, pending: bool)
      requires Valid() && i < |pipes|
      modifies this`state, Repr
      ensures Valid() && pipes == old(pipes)
      ensures state == SetPipe(old(state), i, old(state).pipes[i].(pending := pending)).(pc := Opening)
    {
      ghost var p := state.pipes[i].(pending := pending);
      pipes[i].SetPending(pending);
      assert PipesShown(state.pipes[i := p]);
      Show(SetPipe(state, i, p).(pc := Opening));
    }

    // ProcessData is called, outside the lock.
    method CallProcessData(i: nat, ghost pc: Pc)
      requires Valid() && i < |pipes| && pc != Stopped
      modifies this`state, this`log
      ensures Valid()
      ensures state == Announce(old(state), i).(pc := pc)
    {
      log := log.(announced := log.announced + {pipes[i].llId});
      Show(Announce(state, i).(pc := pc));
    }

    method CreatedEvent(i: nat, os: Os)
      requires Valid() && i < |pipes| && state.pc == Opening
      modifies this, quota, Repr
      ensures Valid() && Repr == old(Repr)
      ensures Now(OnCreated(old(state), i, os), old(quota.Less(OnCreated(state, i, os).released)))
    {
      ghost var s := state;
      var keep := ConnectPipe(i, os.connect);
      if !keep {
        SameDiscard(s, i, true);
        DiscardPipe(i, false);
      }
    }

    method ConnectingEvent(i: nat, os: Os)
      requires Valid() && i < |pipes| && state.pc == Opening
      modifies this, quota, Repr
      ensures Valid() && Repr == old(Repr)
      ensures Now(OnConnecting(old(state), i, os), old(quota.Less(OnConnecting(state, i, os).released)))
    {
      if pipes[i].fPending && !os.finished {
        DiscardPipe(i, false);
      } else {
        ReadPipe(i);
      }
    }

    method NextRead(i: nat, os: Os)
      requires Valid() && i < |pipes| && state.pc == Opening
      modifies this, quota, Repr
      ensures Valid() && Repr == old(Repr)
      ensures Now(ReadNext(old(state), i, os), old(quota.Less(ReadNext(state, i, os).released)))
    {
      match os.read
      case Done => CallProcessData(i, InNextRead(i));
      case Pending => PendPipe(i, true);
      case Failed => DiscardPipe(i, true);
    }

    method ReadingEvent(i: nat, os: Os)
      requires Valid() && i < |pipes| && state.pc == Opening
      modifies this, quota, Repr
      ensures Valid() && Repr == old(Repr)
      ensures Now(OnReading(old(state), i, os), old(quota.Less(OnReading(state, i, os).released)))
    {
      if pipes[i].fPending {
        if !os.finished {
          DiscardPipe(i, true);
        } else {
          CallProcessData(i, InRead(i));
        }
      } else {
        NextRead(i, os);
      }
    }

    method PipeEvent(i: nat, os: Os)
      requires Valid() && i < |pipes|
      modifies this, quota, Repr
      ensures Valid() && Repr == old(Repr)
      ensures Now(OnPipe(old(state), i, os), old(quota.Less(OnPipe(state, i, os).released)))
    {
      var status := pipes[i].eStatus;
      Awake(i, false);
      match status
      case Created => CreatedEvent(i, os);
      case Connecting => ConnectingEvent(i, os);
      case Reading => ReadingEvent(i, os);
    }

    // Result is called for the head of the queue, which leaves it.
    method DropHead(i: nat, ok: bool) returns (size: nat)
      requires Valid() && i < |pipes| && state.pipes[i].queue != []
      modifies this`state, this`log, Repr
      ensures Valid() && pipes == old(pipes)
      ensures Effect(state, size) == Finish(old(state), i, ok)
    {
      ghost var p := state.pipes[i];
      var head := pipes[i].writeQueue.items[0];
      log := log.(completed := log.completed + [Completion(head, ok)]);
      size := head.size;
      pipes[i].PopHead();
      assert PipesShown(state.pipes[i := Pop(p)]);
      Show(Finish(state, i, ok).server);
    }

    method FinishHead(i: nat, ok: bool)
      requires Valid() && i < |pipes| && state.pipes[i].queue != []
      modifies this`state, this`log, quota, Repr
      ensures Valid() && pipes == old(pipes)
      ensures Now(Finish(old(state), i, ok), old(quota.Less(Finish(state, i, ok).released)))
    {
      var size := DropHead(i, ok);
      quota.Decrease(size);
    }

    // WriteFile is called for the head of the queue, and does not complete.
    method PendWrite(i: nat, pending: bool, ghost head: Option<Msg>)
      requires Valid() && i < |pipes|
      modifies this`state, Repr
      ensures Valid() && pipes == old(pipes)
      ensures state == SetPipe(old(state), i, old(state).pipes[i].(writePending := pending, inFlight := head))
    {
      ghost var p := state.pipes[i].(writePending := pending, inFlight := head);
      pipes[i].SetWritePending(pending, head);
      assert PipesShown(state.pipes[i := p]);
      Show(SetPipe(state, i, p));
    }

    method WriteHead(i: nat, os: Os)
      requires Valid() && i < |pipes| && state.pipes[i].queue != []
      modifies this`state, this`log, quota, Repr
      ensures Valid() && pipes == old(pipes)
      ensures Now(StartWrite(old(state), i, os), old(quota.Less(StartWrite(state, i, os).released)))
    {
      var head := pipes[i].writeQueue.items[0];
      log := log.(written := log.written + [Write(pipes[i].llId, head)]);
      Show(LogWrite(state, Write(pipes[i].llId, head)));
      match os.write
      case Done => FinishHead(i, true);
      case Pending => PendWrite(i, true, Some(head));
      case Failed => FinishHead(i, false);
    }

    method ServeWrites(i: nat, os: Os)
      requires Valid() && i < |pipes|
      modifies this`state, this`log, quota, Repr
      ensures Valid() && Repr == old(Repr)
      ensures Now(ServeQueue(old(state), i, os), old(quota.Less(ServeQueue(state, i, os).released)))
    {
      if |pipes[i].writeQueue.items| == 0 {
        PendWrite(i, false, state.pipes[i].inFlight);
      } else if pipes[i].fWritePending {
        FinishHead(i, os.finished && os.transferred == pipes[i].writeQueue.items[0].size);
      } else {
        WriteHead(i, os);
      }
    }

    method WriteEvent(i: nat, os: Os)
      requires Valid() && i < |pipes|
      modifies this`state, this`log, quota, Repr
      ensures Valid() && Repr == old(Repr)
      ensures Now(OnWrite(old(state), i, os), old(quota.Less(OnWrite(state, i, os).released)))
    {
      Awake(i, true);
      ServeWrites(i, os);
    }

    // ------------------------------------------------------------- the worker

    /** The region after the wait; w is the entry of the wait list it returned. */
    method WaitReturned(w: nat, os: Os)
      requires Valid() && state.pc == Waiting
      modifies this, quota, Repr
      ensures Valid() && Repr == old(Repr)
      ensures Now(OnWait(old(state), w, os), old(quota.Less(OnWait(state, w, os).released)))
    {
      if w == 0 {
        Show(state.(pc := Finished));
      } else if w > |events| - 1 {
        Show(state.(pc := Opening));
      } else {
        var i := (w - 1) / 2;
        EventOf(w);
        if (w - 1) % 2 == 0 {
          PipeEvent(i, os);
        } else {
          WriteEvent(i, os);
        }
      }
    }

    /** The region after ProcessData for a read that was pending. */
    method ReadReturned(i: nat, os: Os)
      requires Valid() && state.pc == InRead(i) && i < |pipes|
      modifies this, quota, Repr
      ensures Valid() && Repr == old(Repr)
      ensures Now(AfterRead(old(state), i, os), old(quota.Less(AfterRead(state, i, os).released)))
    {
      PendPipe(i, false);
      NextRead(i, os);
    }

    /** The region after ProcessData for a read that completed at once. */
    method NextReadReturned(i: nat)
      requires Valid() && state.pc == InNextRead(i) && i < |pipes|
      modifies this`state, Repr
      ensures Valid() && state == AfterNextRead(old(state), i).server
    {
      ghost var p := state.pipes[i].(event := true);
      pipes[i].MarkEvent(false, true);
      assert PipesShown(state.pipes[i := p]);
      Show(SetPipe(state, i, p).(pc := Opening));
    }

    // An instance joins the list, and its events the wait list.
    method AddPipe(p: PipeResource, ghost repr: set<object>, ghost ps: seq<Pipe>)
      requires EventsOk() && PipesShown(ps) && p.Valid() && p.In(repr)
      requires repr !! Repr && this !in repr && quota !in repr
      modifies this`pipes, this`events, this`Repr
      ensures EventsOk() && PipesShown(ps + [p.View()]) && Repr == old(Repr) + repr
    {
      pipes := pipes + [p];
      events := events + [p.hEvent, p.hWriteEvent];
      Repr := Repr + repr;
    }

    static method NewInstance(id: int) returns (p: PipeResource, ghost repr: set<object>)
      ensures fresh(repr) && p.In(repr) && p.Valid() && p.View() == NewPipe(id)
    {
      var hWriteEvent := new Event(false);
      var hEvent := new Event(true);
      p := new PipeResource(hEvent, hWriteEvent, id);
      repr := {p, p.hEvent, p.hWriteEvent, p.writeQueue};
    }

    method AddInstance()
      requires Valid()
      modifies this
      ensures Valid() && fresh(Repr - old(Repr))
      ensures state == old(state).(pipes := old(state).pipes + [NewPipe(old(state).nextId)],
                                   nextId := old(state).nextId + 1)
    {
      var p, repr := NewInstance(llNextId);
      AddPipe(p, repr, state.pipes);
      llNextId := llNextId + 1;
      ghost var s := state.(pipes := state.pipes + [NewPipe(state.nextId)], nextId := state.nextId + 1);
      assert FieldsShown(s);
      Show(s);
    }

    /** The region before the wait: if all instances are connected, another one. */
    method OpenAnother(os: Os)
      requires Valid() && state.pc == Opening
      modifies this
      ensures Valid() && fresh(Repr - old(Repr))
      ensures state == Open(old(state), os).server
    {
      if nConnected == |pipes| && |pipes| < nMaxPipes && !bError {
        if !os.created {
          bError := true;
          Show(state.(error := true));
        } else {
          AddInstance();
        }
      }
      Show(state.(pc := Waiting));
    }

    // ------------------------------------------------------- calls from outside

    // The instance with this id.
    method FindPipe(id: int) returns (i: nat)
      requires PipesShown(state.pipes)
      ensures i == Find(state.pipes, id)
    {
      i := 0;
      while i < |pipes| && pipes[i].llId != id
        invariant i <= |pipes|
        invariant forall k :: 0 <= k < i ==> state.pipes[k].id != id
      {
        i := i + 1;
      }
      assert i < |pipes| ==> state.pipes[i].id == id;
    }

    method EnqueueAt(i: nat, msg: Msg)
      requires Valid() && i < |pipes|
      modifies this`state, this`log, Repr
      ensures Valid()
      ensures state == SetPipe(old(state), i, Push(old(state).pipes[i], msg))
                       .(log := old(state).log.(accepted := old(state).log.accepted + [msg]))
    {
      ghost var p := Push(state.pipes[i], msg);
      pipes[i].Enqueue(msg);
      assert PipesShown(state.pipes[i := p]);
      log := log.(accepted := log.accepted + [msg]);
      Show(SetPipe(state, i, p).(log := log));
    }

    /** SendData: the message joins the queue of the instance with its id, if
        there is one and the quota has room. */
    method SendData(msg: Msg) returns (failed: bool)
      requires if hThread then Valid() else Idle()
      modifies this`state, this`log, quota, Repr
      ensures if hThread then Valid() else Idle()
      ensures state == Send(old(state), msg, old(quota.Room(msg.size)))
      ensures failed <==> state == old(state)
      ensures quota.bytes == if failed || quota.limit < 0 then old(quota.bytes) else old(quota.bytes) + msg.size
    {
      if msg.size == 0 || !bWorking {
        return true;
      }
      failed := true;
      var i := FindPipe(msg.to);
      if i < |pipes| {
        var ok := quota.Increase(msg.size);
        if ok {
          EnqueueAt(i, msg);
          failed := false;
        }
      }
    }

    // The first instance, already waiting for its client.
    method FirstInstance(connect: Io) returns (p: PipeResource, ghost repr: set<object>)
      modifies this`llNextId
      ensures fresh(repr) && p.In(repr) && p.Valid()
      ensures llNextId == old(llNextId) + (if connect == Failed then 2 else 1)
      ensures p.View() == FirstPipe(old(llNextId), connect)
    {
      p, repr := NewInstance(llNextId);
      p.MarkEvent(false, false);
      llNextId := llNextId + 1;
      var keep := p.StartConnect(connect);
      if !keep {
        p.llId := llNextId;
        llNextId := llNextId + 1;
        p.ResetResource();
      }
    }

    /** Init: nothing happens unless the server is idle and some instance is allowed. */
    method Init(nPipes: int, os: Os) returns (ok: bool)
      requires if hThread then Valid() else Idle()
      modifies this
      ensures ok <==> !old(hThread) && nPipes >= 1
      ensures !ok ==> state == old(state) && if hThread then Valid() else Idle()
      ensures ok ==> Valid() && fresh(Repr) && fresh(hDone) && state == PipeModel.Init(old(state), nPipes, os)
    {
      if hThread || nPipes < 1 || bWorking {
        return false;
      }
      ok := true;
      Launch(nPipes, os);
    }

    method Launch(nPipes: nat, os: Os)
      requires Idle()
      modifies this
      ensures Valid() && fresh(Repr) && fresh(hDone) && state == PipeModel.Init(old(state), nPipes, os)
    {
      ghost var s := PipeModel.Init(state, nPipes, os);
      var done := new Event(false);
      var p, repr := FirstInstance(os.connect);
      assert s.pipes == [p.View()];
      SetAll(p, repr, done, nPipes, s);
      Show(s);
    }

    method SetAll(p: PipeResource, ghost repr: set<object>, done: Event, nPipes: nat, ghost s: Server)
      requires p.Valid() && p.In(repr) && this !in repr && quota !in repr && done !in repr && !done.signaled
      requires s == Server(if nPipes > MAX_INSTANCES then MAX_INSTANCES else nPipes,
                           [p.View()], 0, llNextId, false, true, false, Opening, log)
      modifies this`pipes, this`events, this`hDone, this`Repr
      modifies this`nMaxPipes, this`nConnected, this`bError, this`bWorking, this`hThread
      ensures EventsOk() && PipesShown(s.pipes) && FieldsShown(s) && hDone == done && Repr == repr && hThread
    {
      SetLists(p, repr, done);
      SetFields(nPipes, s);
    }

    // The lists of a server with one instance.
    method SetLists(p: PipeResource, ghost repr: set<object>, done: Event)
      requires p.Valid() && p.In(repr) && this !in repr && quota !in repr
      modifies this`pipes, this`events, this`hDone, this`Repr
      ensures EventsOk() && PipesShown([p.View()]) && hDone == done && Repr == repr
    {
      hDone := done;
      pipes := [p];
      events := [done, p.hEvent, p.hWriteEvent];
      Repr := repr;
    }

    // The other fields of a server that has just been started.
    method SetFields(nPipes: nat, ghost s: Server)
      requires !hDone.signaled
      requires s == Server(if nPipes > MAX_INSTANCES then MAX_INSTANCES else nPipes,
                           s.pipes, 0, llNextId, false, true, false, Opening, log)
      modifies this`nMaxPipes, this`nConnected, this`bError, this`bWorking, this`hThread
      ensures FieldsShown(s) && hThread
    {
      nMaxPipes := if nPipes > MAX_INSTANCES then MAX_INSTANCES else nPipes;
      nConnected, bError, bWorking, hThread := 0, false, true, true;
    }

    /** Close, up to the wait for the worker. */
    method StartClose()
      requires if hThread then Valid() else Idle()
      modifies this`bWorking, this`state, hDone
      ensures if hThread then Valid() else Idle()
      ensures state == BeginClose(old(state))
    {
      bWorking := false;
      hDone.Set();
      state := BeginClose(state);
    }

    // Everything still queued fails.
    method EmptyAll()
      requires Valid()
      modifies this`log, quota, Repr
      ensures PipesShown(Emptied(state.pipes))
      ensures log == old(log).(completed := old(log).completed + FailPipes(state.pipes))
      ensures quota.bytes == old(quota.Less(Queued(state.pipes)))
    {
      var k := 0;
      ghost var ps := state.pipes;
      ghost var qs := ps;
      assert ps[0..] == ps;
      while k < |pipes|
        invariant k <= |pipes| && PipesShown(qs)
        invariant |qs| == |ps| && forall j :: 0 <= j < |ps| ==> qs[j] == if j < k then ps[j].(queue := []) else ps[j]
        invariant log.completed + FailPipes(ps[k..]) == old(log).completed + FailPipes(ps)
        invariant log == old(log).(completed := log.completed)
        invariant quota.Less(Queued(ps[k..])) == old(quota.Less(Queued(ps)))
      {
        EmptyNext(k, ps, qs);
        qs := qs[k := qs[k].(queue := [])];
        k := k + 1;
      }
      assert qs == Emptied(ps);
    }

    ghost function Emptied(ps: seq<Pipe>): seq<Pipe> {
      seq(|ps|, j requires 0 <= j < |ps| => ps[j].(queue := []))
    }

    method EmptyNext(k: nat, ghost ps: seq<Pipe>, ghost qs: seq<Pipe>)
      requires PipesShown(qs) && k < |pipes| == |ps| && qs[k] == ps[k]
      modifies this`log, quota, Repr
      ensures PipesShown(qs[k := qs[k].(queue := [])])
      ensures log == old(log).(completed := log.completed)
      ensures log.completed + FailPipes(ps[k + 1..]) == old(log).completed + FailPipes(ps[k..])
      ensures quota.Less(Queued(ps[k + 1..])) == old(quota.Less(Queued(ps[k..])))
    {
      var count := EmptyPipe(k, qs);
      quota.Decrease(count);
      assert ps[k..][1..] == ps[k + 1..];
      ghost var done := FailAll(ps[k].queue);
      assert old(log).completed + done + FailPipes(ps[k + 1..]) == old(log).completed + (done + FailPipes(ps[k + 1..]));
    }

    /** Close, once the worker has ended. */
    method FinishClose()
      requires Valid() && state.pc == Finished && !bWorking
      modifies this, quota, Repr
      ensures Idle()
      ensures Now(EndClose(old(state)), old(quota.Less(EndClose(state).released)))
    {
      ghost var r := EndClose(state);
      EmptyAll();
      DropThread();
      state := r.server;
    }

    // No worker and no instance any more.
    method DropThread()
      requires hDone !in Repr && !bWorking && Separate()
      modifies this`pipes, this`hThread
      ensures !hThread && pipes == [] && PipesShown([])
    {
      pipes := [];
      hThread := false;
    }
  }

  // A failed connection leaves its mark on the instance, but the instance goes.
  lemma SameDiscard(s: Server, i: nat, pending: bool)
    requires i < |s.pipes|
    ensures Discard(SetPipe(s, i, s.pipes[i].(pending := pending)), i, false) == Discard(s, i, false)
  {
    var p := s.pipes[i].(pending := pending);
    var ps := s.pipes[i := p];
    if s.maxPipes == 1 {
      var p' := Reset(p.(id := s.nextId, queue := p.queue));
      assert p' == Reset(s.pipes[i].(id := s.nextId, queue := p.queue));
      assert ps[i := p'] == s.pipes[i := p'];
    } else {
      assert ps[..i] + ps[i + 1..] == s.pipes[..i] + s.pipes[i + 1..];
    }
  }
}
