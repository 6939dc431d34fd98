/**
 Runs of all the pipe servers of the process: any interleaving of their
 workers, of senders, of the system signalling events, of closing and
 starting again, with any answers of the system.
 */
module PipeRuns {
  import opened Options
  import opened PipeModel
  import opened PipeInvariant
  import opened PipeSteps

  // The servers share one limit on queued bytes; none if it is negative.
  datatype World = World(limit: int, bytes: int, servers: seq<Server>)

  datatype Label =
    | Start(k: nat, nPipes: nat, os: Os)
    | OpenOne(k: nat, os: Os)
    | Wake(k: nat, w: nat, os: Os)
    | ReadDone(k: nat, os: Os)
    | NextReadDone(k: nat)
    | Signal(k: nat, i: nat, write: bool)
    | SendOne(k: nat, msg: Msg)
    | Closing(k: nat)
    | Closed(k: nat)

  const FRESH: Server := Server(1, [], 0, 0, false, false, false, Stopped, Log([], [], {}, []))

  predicate Initial(w: World) {
    w.bytes == 0 && forall k :: 0 <= k < |w.servers| ==> w.servers[k] == FRESH
  }

  // Is the event behind entry e of the wait list signalled?
  predicate Signalled(s: Server, e: nat) {
    if e == 0 then s.done
    else e <= 2 * |s.pipes| ==>
      if (e - 1) % 2 == 0 then s.pipes[(e - 1) / 2].event else s.pipes[(e - 1) / 2].writeEvent
  }

  /** When server s can take a step.  Senders use ids that ProcessData gave
      them, or -1; the worker has ended before Close empties the pipes. */
  predicate CanStep(s: Server, l: Label) {
    match l
    case Start(_, nPipes, _) => s.pc == Stopped && nPipes >= 1
    case OpenOne(_, _) => s.pc == Opening
    case Wake(_, e, _) => s.pc == Waiting && Signalled(s, e)
    case ReadDone(_, _) => s.pc.InRead? && s.pc.i < |s.pipes|
    case NextReadDone(_) => s.pc.InNextRead? && s.pc.i < |s.pipes|
    case Signal(_, i, _) => i < |s.pipes|
    case SendOne(_, msg) => msg.to in s.log.announced || msg.to == -1
    case Closing(_) => true
    case Closed(_) => s.pc == Finished
  }

  predicate Enabled(w: World, l: Label) {
    l.k < |w.servers| && CanStep(w.servers[l.k], l)
  }

  // IncreaseQueue: is there room?
  predicate Room(w: World, size: nat) {
    w.limit < 0 || w.bytes + size <= w.limit
  }

  function SignalPipe(s: Server, i: nat, write: bool): Server
    requires i < |s.pipes|
  {
    SetPipe(s, i, if write then s.pipes[i].(writeEvent := true) else s.pipes[i].(event := true))
  }

  // The region of a step, run by server s.
  function Region(s: Server, l: Label, room: bool): Effect
    requires CanStep(s, l)
  {
    match l
    case Start(_, nPipes, os) => Effect(Init(s, nPipes, os), 0)
    case OpenOne(_, os) => Open(s, os)
    case Wake(_, e, os) => OnWait(s, e, os)
    case ReadDone(_, os) => AfterRead(s, s.pc.i, os)
    case NextReadDone(_) => AfterNextRead(s, s.pc.i)
    case Signal(_, i, write) => Effect(SignalPipe(s, i, write), 0)
    case SendOne(_, msg) => Effect(Send(s, msg, room), 0)
    case Closing(_) => Effect(BeginClose(s), 0)
    case Closed(_) => EndClose(s)
  }

  // IncreaseQueue has counted the message if it was accepted.
  function Taken(s: Server, l: Label, room: bool): nat {
    if l.SendOne? && Send(s, l.msg, room) != s then l.msg.size else 0
  }

  function Apply(w: World, l: Label): World
    requires Enabled(w, l)
  {
    var s := w.servers[l.k];
    var room := l.SendOne? && Room(w, l.msg.size);
    var r := Region(s, l, room);
    World(w.limit, if w.limit < 0 then w.bytes else w.bytes - r.released + Taken(s, l, room),
          w.servers[l.k := r.server])
  }

  // These steps, one after the other, lead from w to w'.
  predicate Run(w: World, steps: seq<Label>, w': World)
    decreases |steps|
  {
    if steps == [] then w == w' else Enabled(w, steps[0]) && Run(Apply(w, steps[0]), steps[1..], w')
  }

  // -------------------------------------------------------------- invariant

  // Done is only signalled by Close, and the worker only ends on it.
  ghost predicate ModeOk(s: Server) {
    (s.done ==> !s.working) && (s.pc == Finished ==> s.done)
  }

  function AllQueued(servers: seq<Server>): nat {
    if servers == [] then 0 else Queued(servers[0].pipes) + AllQueued(servers[1..])
  }

  ghost predicate QuotaOk(w: World) {
    if w.limit < 0 then w.bytes == 0 else w.bytes == AllQueued(w.servers) <= w.limit
  }

  ghost predicate WorldOk(w: World) {
    && (forall k :: 0 <= k < |w.servers| ==> ServerOk(w.servers[k]) && ModeOk(w.servers[k]))
    && QuotaOk(w)
  }

  lemma {:induction false} AllQueuedUpdate(servers: seq<Server>, k: nat, s: Server)
    requires k < |servers|
    ensures AllQueued(servers[k := s]) == AllQueued(servers) - Queued(servers[k].pipes) + Queued(s.pipes)
    decreases |servers|
  {
    if k == 0 {
      assert servers[0 := s][1..] == servers[1..];
    } else {
      assert servers[k := s][1..] == servers[1..][k - 1 := s];
      AllQueuedUpdate(servers[1..], k - 1, s);
    }
  }

  lemma StartStep(s: Server, nPipes: nat, os: Os)
    requires ServerOk(s) && s.pc == Stopped && nPipes >= 1
    ensures ServerOk(Init(s, nPipes, os)) && Queued(Init(s, nPipes, os).pipes) == 0
  {
    var r := Init(s, nPipes, os);
    assert [] + r.pipes == r.pipes && r.pipes[1..] == [];
    AppendBalanced([], s.log, r.pipes[0]);
    assert CountReading(r.pipes) == CountReading([]) && Queued(r.pipes) == Total(r.pipes[0].queue) + Queued([]);
  }

  lemma QueueOfCons(pipes: seq<Pipe>, id: int)
    requires pipes != [] && Distinct(pipes)
    ensures Distinct(pipes[1..])
    ensures QueueOf(pipes, id) == (if id == pipes[0].id then pipes[0].queue else []) + QueueOf(pipes[1..], id)
  {
    var rest := pipes[1..];
    assert forall i :: 0 <= i < |rest| ==> rest[i] == pipes[i + 1];
    if id == pipes[0].id {
      NoQueue(rest, id);
      assert pipes[0].queue + [] == pipes[0].queue;
    }
  }

  lemma {:induction false} ResultsOfFailPipes(pipes: seq<Pipe>, id: int)
    requires Distinct(pipes) && forall i :: 0 <= i < |pipes| ==> Addressed(pipes[i].queue, pipes[i].id)
    ensures Results(id, FailPipes(pipes)) == QueueOf(pipes, id)
    decreases |pipes|
  {
    if pipes == [] {
    } else {
      var first, rest := pipes[0], pipes[1..];
      assert forall i :: 0 <= i < |rest| ==> rest[i] == pipes[i + 1];
      ResultsAppend(id, FailAll(first.queue), FailPipes(rest));
      ResultsOfFailAll(id, first.queue, first.id);
      QueueOfCons(pipes, id);
      ResultsOfFailPipes(rest, id);
    }
  }

  lemma ClosedStep(s: Server)
    requires ServerOk(s) && ModeOk(s) && s.pc == Finished
    ensures ServerOk(EndClose(s).server)
    ensures Pays(s, EndClose(s))
  {
    var r := EndClose(s).server;
    assert forall i :: 0 <= i < |s.pipes| ==> PipeOk(s.pipes[i], s.nextId, s.log.announced, i == -1 || Served(s.pc, i));
    forall id ensures Results(id, r.log.completed) + QueueOf(r.pipes, id) == To(id, r.log.accepted) {
      ResultsAppend(id, s.log.completed, FailPipes(s.pipes));
      ResultsOfFailPipes(s.pipes, id);
      assert Results(id, r.log.completed) + [] == Results(id, r.log.completed);
    }
  }

  lemma SignalStep(s: Server, i: nat, write: bool)
    requires ServerOk(s) && i < |s.pipes|
    ensures ServerOk(SignalPipe(s, i, write)) && Queued(SignalPipe(s, i, write).pipes) == Queued(s.pipes)
  {
    var p := SignalPipe(s, i, write).pipes[i];
    QuietBalanced(s.pipes, s.log, i, p);
    SamePays(s, i, p);
    CountUpdate(s.pipes, i, p);
  }

  lemma WorkerStep(s: Server, l: Label)
    requires ServerOk(s) && CanStep(s, l)
    requires l.OpenOne? || l.Wake? || l.ReadDone? || l.NextReadDone?
    ensures var r := Region(s, l, false);
      ServerOk(r.server) && Pays(s, r)
  {
    match l
    case OpenOne(_, os) => OpenStep(s, os); OpenCounts(s, os); OpenPays(s, os);
    case Wake(_, e, os) => OnWaitStep(s, e, os); OnWaitCounts(s, e, os); OnWaitPays(s, e, os);
    case ReadDone(_, os) => AfterReadStep(s, s.pc.i, os); AfterReadCounts(s, s.pc.i, os); AfterReadPays(s, s.pc.i, os);
    case NextReadDone(_) =>
      AfterNextReadStep(s, s.pc.i);
      SetCounts(s, s.pc.i, s.pipes[s.pc.i].(event := true), Opening);
      SamePays(s, s.pc.i, s.pipes[s.pc.i].(event := true));
  }

  // The worker goes on.
  predicate GoesOn(s: Server, r: Server) {
    r.done == s.done && r.working == s.working && r.pc != Finished && r.pc != Stopped
  }

  lemma DiscardGoesOn(s: Server, i: nat, reading: bool)
    requires i < |s.pipes| && s.pc == Opening
    ensures GoesOn(s, Discard(s, i, reading).server)
  {}

  lemma ReadNextGoesOn(s: Server, i: nat, os: Os)
    requires i < |s.pipes| && s.pc == Opening
    ensures GoesOn(s, ReadNext(s, i, os).server)
  {
    DiscardGoesOn(s, i, true);
  }

  lemma OnCreatedGoesOn(s: Server, i: nat, os: Os)
    requires i < |s.pipes| && s.pc == Opening
    ensures GoesOn(s, OnCreated(s, i, os).server)
    ensures GoesOn(s, OnConnecting(s, i, os).server)
  {
    DiscardGoesOn(s, i, false);
  }

  lemma OnReadingGoesOn(s: Server, i: nat, os: Os)
    requires i < |s.pipes| && s.pc == Opening
    ensures GoesOn(s, OnReading(s, i, os).server)
  {
    ReadNextGoesOn(s, i, os);
    DiscardGoesOn(s, i, true);
  }

  lemma OnPipeGoesOn(s: Server, i: nat, os: Os)
    requires i < |s.pipes|
    ensures GoesOn(s, OnPipe(s, i, os).server)
  {
    var s1 := SetPipe(s, i, s.pipes[i].(event := false)).(pc := Opening);
    OnCreatedGoesOn(s1, i, os);
    OnReadingGoesOn(s1, i, os);
  }

  lemma OnWriteGoesOn(s: Server, i: nat, os: Os)
    requires i < |s.pipes|
    ensures GoesOn(s, OnWrite(s, i, os).server)
  {}

  lemma OnWaitMode(s: Server, e: nat, os: Os)
    requires ModeOk(s) && (e == 0 ==> s.done)
    ensures ModeOk(OnWait(s, e, os).server)
  {
    if 0 < e <= 2 * |s.pipes| {
      if (e - 1) % 2 == 0 { OnPipeGoesOn(s, (e - 1) / 2, os); } else { OnWriteGoesOn(s, (e - 1) / 2, os); }
    }
  }

  lemma AfterReadMode(s: Server, i: nat, os: Os)
    requires i < |s.pipes| && ModeOk(s)
    ensures ModeOk(AfterRead(s, i, os).server)
  {
    ReadNextGoesOn(SetPipe(s, i, s.pipes[i].(pending := false)).(pc := Opening), i, os);
  }

  lemma CallMode(s: Server, msg: Msg, room: bool, nPipes: nat, os: Os)
    requires ModeOk(s)
    ensures ModeOk(Send(s, msg, room)) && ModeOk(Init(s, nPipes, os)) && ModeOk(BeginClose(s))
    ensures s.pc == Opening ==> ModeOk(Open(s, os).server)
    ensures s.pc == Finished ==> ModeOk(EndClose(s).server)
  {}

  // A region moves the worker, and only Close and Init say that it should end.
  lemma RegionMode(s: Server, l: Label, room: bool)
    requires CanStep(s, l) && ModeOk(s)
    ensures ModeOk(Region(s, l, room).server)
  {
    match l
    case Start(_, nPipes, os) => CallMode(s, Msg(0, 0, 0), room, nPipes, os);
    case OpenOne(_, os) => CallMode(s, Msg(0, 0, 0), room, 0, os);
    case Wake(_, e, os) => OnWaitMode(s, e, os);
    case ReadDone(_, os) => AfterReadMode(s, s.pc.i, os);
    case SendOne(_, msg) => CallMode(s, msg, room, 0, Os(false, Done, false, 0, Done, Done));
    case _ =>
  }

  lemma SendOneStep(s: Server, msg: Msg, room: bool)
    requires ServerOk(s) && (msg.to in s.log.announced || msg.to == -1)
    ensures var r := Send(s, msg, room);
      ServerOk(r) && Queued(r.pipes) == Queued(s.pipes) + if r == s then 0 else msg.size
  {
    SendStep(s, msg, room);
    SendCounts(s, msg, room);
    SendPays(s, msg, room);
  }

  // The region of any step keeps the server's invariant, and the quota is exact.
  lemma RegionStep(s: Server, l: Label, room: bool)
    requires ServerOk(s) && ModeOk(s) && CanStep(s, l)
    ensures var r := Region(s, l, room);
      ServerOk(r.server) && Queued(r.server.pipes) + r.released == Queued(s.pipes) + Taken(s, l, room)
  {
    match l
    case Start(_, nPipes, os) => StartStep(s, nPipes, os);
    case Signal(_, i, write) => SignalStep(s, i, write);
    case SendOne(_, msg) => SendOneStep(s, msg, room);
    case Closing(_) =>
    case Closed(_) => ClosedStep(s);
    case _ => WorkerStep(s, l);
  }

  lemma StepKeeps(w: World, l: Label)
    requires WorldOk(w) && Enabled(w, l)
    ensures WorldOk(Apply(w, l))
  {
    var s := w.servers[l.k];
    var room := l.SendOne? && Room(w, l.msg.size);
    var r := Region(s, l, room);
    RegionStep(s, l, room);
    RegionMode(s, l, room);
    AllQueuedUpdate(w.servers, l.k, r.server);
  }

  lemma {:induction false} RunKeeps(w: World, steps: seq<Label>, w': World)
    requires WorldOk(w) && Run(w, steps, w')
    ensures WorldOk(w') && w'.limit == w.limit && |w'.servers| == |w.servers|
    decreases |steps|
  {
    if steps == [] {
    } else {
      StepKeeps(w, steps[0]);
      RunKeeps(Apply(w, steps[0]), steps[1..], w');
    }
  }

  lemma {:induction false} InitialOk(w: World)
    requires Initial(w)
    ensures AllQueued(w.servers) == 0
    ensures forall k :: 0 <= k < |w.servers| ==> ServerOk(w.servers[k]) && ModeOk(w.servers[k])
    decreases |w.servers|
  {
    if w.servers == [] {
    } else {
      assert forall k :: 1 <= k < |w.servers| ==> w.servers[k] == w.servers[1..][k - 1];
      InitialOk(w.(servers := w.servers[1..]));
    }
  }

  // ----------------------------------------------------------- main results

  /** Every state that the servers can reach from the start satisfies the invariant. */
  lemma Safety(w: World, steps: seq<Label>, w': World)
    requires Initial(w) && Run(w, steps, w')
    ensures WorldOk(w') && w'.limit == w.limit && |w'.servers| == |w.servers|
  {
    InitialOk(w);
    RunKeeps(w, steps, w');
  }

  /** Quota conservation: the bytes counted are the bytes queued, over all
      pipes of all servers, and never exceed the limit; without a limit nothing
      is counted. */
  lemma QuotaConserved(w: World, steps: seq<Label>, w': World)
    requires Initial(w) && Run(w, steps, w')
    ensures w.limit >= 0 ==> w'.bytes == AllQueued(w'.servers) && 0 <= w'.bytes <= w.limit
    ensures w.limit < 0 ==> w'.bytes == 0
  {
    Safety(w, steps, w');
  }

  /** Exactly once: for every id, the messages for which Result has been called
      are the first of those accepted, in order; the rest is queued; and when
      a server is closed nothing is left. */
  lemma ExactlyOnce(w: World, steps: seq<Label>, w': World, k: nat, id: int)
    requires Initial(w) && Run(w, steps, w') && k < |w'.servers|
    ensures var s := w'.servers[k];
      && Results(id, s.log.completed) + QueueOf(s.pipes, id) == To(id, s.log.accepted)
      && (s.pc == Stopped ==> Results(id, s.log.completed) == To(id, s.log.accepted))
  {
    Safety(w, steps, w');
    var s := w'.servers[k];
    assert ServerOk(s);
    if s.pc == Stopped { assert Results(id, s.log.completed) + [] == Results(id, s.log.completed); }
  }

  /** SendData takes a message exactly when it is not empty, the server works,
      an instance has the id it names and the quota has room.  One it turns down
      leaves no trace; one it takes is queued last on that instance, which is
      reading. */
  lemma SendOutcome(w: World, steps: seq<Label>, w': World, l: Label)
    requires Initial(w) && Run(w, steps, w') && Enabled(w', l) && l.SendOne?
    ensures var s, r, msg := w'.servers[l.k], Apply(w', l).servers[l.k], l.msg;
      var i := Find(s.pipes, msg.to);
      if msg.size > 0 && s.working && i < |s.pipes| && Room(w', msg.size) then
        && s.pipes[i].status == Reading
        && r.pipes == s.pipes[i := Push(s.pipes[i], msg)]
        && r.log == s.log.(accepted := s.log.accepted + [msg])
      else Apply(w', l) == w'
  {
    Safety(w, steps, w');
    var s, r, msg := w'.servers[l.k], Apply(w', l).servers[l.k], l.msg;
    assert ServerOk(s);
    if r == s {
      assert w'.servers[l.k := r] == w'.servers;
    }
    var i := Find(s.pipes, msg.to);
    if i < |s.pipes| {
      assert PipeOk(s.pipes[i], s.nextId, s.log.announced, Served(s.pc, i));
    }
  }

  /** Session isolation: ids are distinct; only a reading instance has anything
      queued; what is queued or was written is addressed to the id under which
      its instance holds it or wrote it. */
  lemma Isolation(w: World, steps: seq<Label>, w': World, k: nat)
    requires Initial(w) && Run(w, steps, w') && k < |w'.servers|
    ensures var s := w'.servers[k];
      && Distinct(s.pipes)
      && (forall i :: 0 <= i < |s.pipes| ==> Addressed(s.pipes[i].queue, s.pipes[i].id))
      && (forall i :: 0 <= i < |s.pipes| && s.pipes[i].status != Reading ==> s.pipes[i].queue == [])
      && (forall n :: 0 <= n < |s.log.written| ==> s.log.written[n].msg.to == s.log.written[n].session)
  {
    Safety(w, steps, w');
    var s := w'.servers[k];
    assert ServerOk(s);
    forall i | 0 <= i < |s.pipes|
      ensures Addressed(s.pipes[i].queue, s.pipes[i].id) && (s.pipes[i].status != Reading ==> s.pipes[i].queue == [])
    {
      assert PipeOk(s.pipes[i], s.nextId, s.log.announced, Served(s.pc, i));
    }
  }

  /** No lost wake-up: whatever is queued has its write event signalled or a
      write under way, and a write under way is that of the head of the queue. */
  lemma NoLostWakeup(w: World, steps: seq<Label>, w': World, k: nat, i: nat)
    requires Initial(w) && Run(w, steps, w') && k < |w'.servers| && i < |w'.servers[k].pipes|
    ensures var s := w'.servers[k];
      var p := s.pipes[i];
      && (p.queue != [] ==> Signalled(s, 2 * i + 2) || p.writePending)
      && (p.writePending ==> p.queue != [] && p.inFlight == Some(p.queue[0]))
      && (Signalled(s, 2 * i + 1) || p.pending || Served(s.pc, i))
  {
    Safety(w, steps, w');
    var s := w'.servers[k];
    assert ServerOk(s);
    assert PipeOk(s.pipes[i], s.nextId, s.log.announced, Served(s.pc, i));
    assert (2 * i + 2 - 1) / 2 == i && (2 * i + 1 - 1) / 2 == i;
  }

  /** The counter of connected instances is right when there can be several;
      whenever the worker waits, an instance is there for the next client,
      unless the maximum is reached or one could not be created; and the wait
      list is never too long. */
  lemma Listening(w: World, steps: seq<Label>, w': World, k: nat)
    requires Initial(w) && Run(w, steps, w') && k < |w'.servers|
    ensures var s := w'.servers[k];
      && (s.maxPipes > 1 && s.pc != Stopped ==> s.nConnected == CountReading(s.pipes))
      && (s.pc == Waiting && |s.pipes| < s.maxPipes && !s.error ==>
            exists i :: 0 <= i < |s.pipes| && s.pipes[i].status != Reading)
      && 1 + 2 * |s.pipes| <= 64
  {
    Safety(w, steps, w');
    var s := w'.servers[k];
    assert ServerOk(s);
    CountBound(s.pipes);
  }

  // ------------------------------------------------------------- identities

  // Instance p carries on a session of s; once reading, a session only reads.
  ghost predicate Continues(s: Server, p: Pipe) {
    exists i :: 0 <= i < |s.pipes| && s.pipes[i].id == p.id && (s.pipes[i].status == Reading ==> p.status == Reading)
  }

  ghost predicate FreshIds(s: Server, r: Server) {
    && s.nextId <= r.nextId
    && forall i :: 0 <= i < |r.pipes| ==> r.pipes[i].id >= s.nextId || Continues(s, r.pipes[i])
  }

  // Instance i becomes p, under a new id or in the same session.
  lemma SetIds(s: Server, i: nat, p: Pipe, r: Server)
    requires i < |s.pipes| && s.nextId <= r.nextId && r.pipes == s.pipes[i := p]
    requires p.id >= s.nextId || (p.id == s.pipes[i].id && (s.pipes[i].status == Reading ==> p.status == Reading))
    ensures FreshIds(s, r)
  {
    forall k | 0 <= k < |r.pipes| ensures r.pipes[k].id >= s.nextId || Continues(s, r.pipes[k]) {
      if k != i { assert r.pipes[k] == s.pipes[k]; }
    }
  }

  lemma SameIds(s: Server, r: Server)
    requires s.nextId <= r.nextId && r.pipes == s.pipes
    ensures FreshIds(s, r)
  {}

  lemma DiscardIds(s: Server, i: nat, reading: bool)
    requires i < |s.pipes|
    ensures FreshIds(s, Discard(s, i, reading).server)
  {
    var r := Discard(s, i, reading).server;
    if s.maxPipes == 1 {
      SetIds(s, i, r.pipes[i], r);
    } else {
      forall k | 0 <= k < |r.pipes| ensures Continues(s, r.pipes[k]) {
        assert r.pipes[k] == s.pipes[if k < i then k else k + 1];
      }
    }
  }

  lemma FreshIdsTrans(s: Server, t: Server, r: Server)
    requires FreshIds(s, t) && FreshIds(t, r)
    ensures FreshIds(s, r)
  {
    forall k | 0 <= k < |r.pipes| && r.pipes[k].id < s.nextId ensures Continues(s, r.pipes[k]) {
      assert Continues(t, r.pipes[k]);
      var j :| 0 <= j < |t.pipes| && t.pipes[j].id == r.pipes[k].id
               && (t.pipes[j].status == Reading ==> r.pipes[k].status == Reading);
      assert t.pipes[j].id < s.nextId && Continues(s, t.pipes[j]);
    }
  }

  lemma ReadNextIds(s: Server, i: nat, os: Os)
    requires i < |s.pipes|
    ensures FreshIds(s, ReadNext(s, i, os).server)
  {
    var r := ReadNext(s, i, os).server;
    match os.read
    case Done => SameIds(s, r);
    case Pending => SetIds(s, i, s.pipes[i].(pending := true), r);
    case Failed => DiscardIds(s, i, true);
  }

  lemma OnCreatedIds(s: Server, i: nat, os: Os)
    requires i < |s.pipes| && s.pipes[i].status != Reading
    ensures FreshIds(s, OnCreated(s, i, os).server)
    ensures FreshIds(s, OnConnecting(s, i, os).server)
  {
    DiscardIds(s, i, false);
    SetIds(s, i, Connect(s.pipes[i], os.connect), SetPipe(s, i, Connect(s.pipes[i], os.connect)));
    var p := s.pipes[i].(pending := false, status := Reading, event := true);
    SetIds(s, i, p, SetPipe(s, i, p).(nConnected := s.nConnected + 1));
  }

  lemma OnReadingIds(s: Server, i: nat, os: Os)
    requires i < |s.pipes|
    ensures FreshIds(s, OnReading(s, i, os).server)
  {
    ReadNextIds(s, i, os);
    DiscardIds(s, i, true);
    SameIds(s, Announce(s, i).(pc := InRead(i)));
  }

  lemma OnPipeIds(s: Server, i: nat, os: Os)
    requires i < |s.pipes|
    ensures FreshIds(s, OnPipe(s, i, os).server)
  {
    var p := s.pipes[i].(event := false);
    var s1 := SetPipe(s, i, p).(pc := Opening);
    SetIds(s, i, p, s1);
    if p.status == Reading { OnReadingIds(s1, i, os); } else { OnCreatedIds(s1, i, os); }
    FreshIdsTrans(s, s1, OnPipe(s, i, os).server);
  }

  lemma FinishIds(s: Server, i: nat, ok: bool)
    requires i < |s.pipes| && s.pipes[i].queue != []
    ensures FreshIds(s, Finish(s, i, ok).server)
  {
    SetIds(s, i, Pop(s.pipes[i]), Finish(s, i, ok).server);
  }

  lemma StartWriteIds(s: Server, i: nat, os: Os)
    requires i < |s.pipes| && s.pipes[i].queue != []
    ensures FreshIds(s, StartWrite(s, i, os).server)
  {
    var p := s.pipes[i];
    var s1 := LogWrite(s, Write(p.id, p.queue[0]));
    var p1 := p.(writePending := true, inFlight := Some(p.queue[0]));
    if os.write == Pending {
      SetIds(s, i, p1, SetPipe(s1, i, p1));
    } else {
      SameIds(s, s1);
      FinishIds(s1, i, os.write == Done);
      FreshIdsTrans(s, s1, Finish(s1, i, os.write == Done).server);
    }
  }

  lemma OnWriteIds(s: Server, i: nat, os: Os)
    requires i < |s.pipes|
    ensures FreshIds(s, OnWrite(s, i, os).server)
  {
    var p := s.pipes[i].(writeEvent := false);
    var s1 := SetPipe(s, i, p).(pc := Opening);
    SetIds(s, i, p, s1);
    if p.queue == [] { SetIds(s1, i, p.(writePending := false), SetPipe(s1, i, p.(writePending := false))); }
    else if p.writePending { FinishIds(s1, i, os.finished && os.transferred == p.queue[0].size); }
    else { StartWriteIds(s1, i, os); }
    FreshIdsTrans(s, s1, OnWrite(s, i, os).server);
  }

  lemma OnWaitIds(s: Server, e: nat, os: Os)
    ensures FreshIds(s, OnWait(s, e, os).server)
  {
    if e == 0 || e > 2 * |s.pipes| { SameIds(s, OnWait(s, e, os).server); }
    else if (e - 1) % 2 == 0 { OnPipeIds(s, (e - 1) / 2, os); }
    else { OnWriteIds(s, (e - 1) / 2, os); }
  }

  lemma AfterReadIds(s: Server, i: nat, os: Os)
    requires i < |s.pipes|
    ensures FreshIds(s, AfterRead(s, i, os).server)
  {
    var p := s.pipes[i].(pending := false);
    var s1 := SetPipe(s, i, p).(pc := Opening);
    SetIds(s, i, p, s1);
    ReadNextIds(s1, i, os);
    FreshIdsTrans(s, s1, ReadNext(s1, i, os).server);
  }

  lemma SendIds(s: Server, msg: Msg, room: bool)
    ensures FreshIds(s, Send(s, msg, room))
  {
    var i, r := Find(s.pipes, msg.to), Send(s, msg, room);
    if r == s { SameIds(s, r); } else { SetIds(s, i, Push(s.pipes[i], msg), r); }
  }

  lemma OpenIds(s: Server, os: Os)
    ensures FreshIds(s, Open(s, os).server)
  {
    var r := Open(s, os).server;
    assert forall i :: 0 <= i < |s.pipes| ==> r.pipes[i] == s.pipes[i];
  }

  lemma RegionIds(s: Server, l: Label, room: bool)
    requires CanStep(s, l)
    ensures FreshIds(s, Region(s, l, room).server)
  {
    match l
    case Start(_, _, _) =>
    case OpenOne(_, os) => OpenIds(s, os);
    case Wake(_, e, os) => OnWaitIds(s, e, os);
    case ReadDone(_, os) => AfterReadIds(s, s.pc.i, os);
    case NextReadDone(_) =>
      var p := s.pipes[s.pc.i].(event := true);
      SetIds(s, s.pc.i, p, AfterNextRead(s, s.pc.i).server);
    case Signal(_, i, write) => SetIds(s, i, SignalPipe(s, i, write).pipes[i], SignalPipe(s, i, write));
    case SendOne(_, msg) => SendIds(s, msg, room);
    case Closing(_) => SameIds(s, BeginClose(s));
    case Closed(_) =>
  }

  /** Ids are never reused: whatever happens between two states, an instance of
      the later one either has an id that was not yet given out in the earlier
      one, or carries on the session that had its id then. */
  lemma {:induction false} NeverReused(w: World, steps: seq<Label>, w': World, k: nat)
    requires Run(w, steps, w') && k < |w.servers|
    ensures |w'.servers| == |w.servers| && FreshIds(w.servers[k], w'.servers[k])
    decreases |steps|
  {
    var s := w.servers[k];
    if steps == [] {
      SameIds(s, s);
    } else {
      var w1 := Apply(w, steps[0]);
      NeverReused(w1, steps[1..], w', k);
      if steps[0].k == k {
        RegionIds(s, steps[0], steps[0].SendOne? && Room(w, steps[0].msg.size));
        FreshIdsTrans(s, w1.servers[k], w'.servers[k]);
      }
    }
  }
}
