/**
 The named pipe server as a state machine.  A step is one region of the code
 that runs under the pipe lock; what the operating system answers inside it is
 a parameter.  `ProcessData` runs between two regions, outside the lock.
 */
module PipeModel {
  import opened Options

  // A message to be written: the id it is addressed to, its data, its size.
  datatype Msg = Msg(to: int, head: int, size: nat)

  // One call of Result.
  datatype Completion = Completion(msg: Msg, ok: bool)

  // One call of WriteFile: on behalf of which session.
  datatype Write = Write(session: int, msg: Msg)

  datatype Status = Created | Connecting | Reading

  /** A pipe instance; `inFlight` is what the last WriteFile that did not
      complete at once was given. */
  datatype Pipe = Pipe(
    id: int,
    status: Status,
    pending: bool,
    event: bool,
    writeEvent: bool,
    writePending: bool,
    inFlight: Option<Msg>,
    queue: seq<Msg>)

  // Where the worker is: before the first region, at the wait, in ProcessData
  // for a read that was pending, in ProcessData for one that was not, done.
  datatype Pc = Stopped | Opening | Waiting | InRead(i: nat) | InNextRead(i: nat) | Finished

  // What has happened so far.
  datatype Log = Log(accepted: seq<Msg>, completed: seq<Completion>, announced: set<int>, written: seq<Write>)

  datatype Server = Server(
    maxPipes: nat,
    pipes: seq<Pipe>,
    nConnected: int,
    nextId: nat,
    error: bool,
    working: bool,
    done: bool,
    pc: Pc,
    log: Log)

  // The state after a region, and the bytes it took off the quota.
  datatype Effect = Effect(server: Server, released: nat)

  datatype Io = Done | Pending | Failed

  /** The answers of the operating system within one region. */
  datatype Os = Os(created: bool, connect: Io, finished: bool, transferred: nat, read: Io, write: Io)

  const MAX_INSTANCES: nat := 31

  // ------------------------------------------------------------------ queues

  function Total(queue: seq<Msg>): nat {
    if queue == [] then 0 else queue[0].size + Total(queue[1..])
  }

  function Queued(pipes: seq<Pipe>): nat {
    if pipes == [] then 0 else Total(pipes[0].queue) + Queued(pipes[1..])
  }

  function FailAll(queue: seq<Msg>): (r: seq<Completion>)
    ensures |r| == |queue|
  {
    seq(|queue|, k requires 0 <= k < |queue| => Completion(queue[k], false))
  }

  function FailPipes(pipes: seq<Pipe>): seq<Completion> {
    if pipes == [] then [] else FailAll(pipes[0].queue) + FailPipes(pipes[1..])
  }

  // ------------------------------------------------------------------- pipes

  // A new instance starts with its event signalled.
  function NewPipe(id: int): Pipe {
    Pipe(id, Created, false, true, false, false, None, [])
  }

  // ResetResource: the queue and the id are the caller's business.
  function Reset(p: Pipe): Pipe {
    Pipe(p.id, Created, false, true, false, false, None, p.queue)
  }

  function Push(p: Pipe, msg: Msg): Pipe {
    p.(queue := p.queue + [msg], writeEvent := p.writeEvent || p.queue == [])
  }

  // ConnectNamedPipe did not fail.
  function Connect(p: Pipe, connect: Io): Pipe {
    p.(pending := connect == Pending, event := p.event || connect == Done, status := Connecting)
  }

  // The head of the queue has been dealt with.
  function Pop(p: Pipe): Pipe
    requires p.queue != []
  {
    p.(queue := p.queue[1..], writePending := false, inFlight := None,
       writeEvent := p.writeEvent || |p.queue| > 1)
  }

  // ------------------------------------------------------------------ server

  function Complete(s: Server, done: seq<Completion>): Server {
    s.(log := s.log.(completed := s.log.completed + done))
  }

  function Announce(s: Server, i: nat): Server
    requires i < |s.pipes|
  {
    s.(log := s.log.(announced := s.log.announced + {s.pipes[i].id}))
  }

  function SetPipe(s: Server, i: nat, p: Pipe): Server
    requires i < |s.pipes|
  {
    s.(pipes := s.pipes[i := p])
  }

  /** An instance failed.  The only instance of a server is reset and gets a
      new id, its queue being cleared only if it was reading; otherwise it is
      deleted. */
  function Discard(s: Server, i: nat, reading: bool): Effect
    requires i < |s.pipes|
  {
    var p := s.pipes[i];
    if s.maxPipes == 1 then
      var s1 := SetPipe(s, i, Reset(p.(id := s.nextId, queue := if reading then [] else p.queue)));
      var s2 := s1.(nextId := s.nextId + 1);
      if reading then Effect(Complete(s2, FailAll(p.queue)), Total(p.queue)) else Effect(s2, 0)
    else
      var s1 := s.(pipes := s.pipes[..i] + s.pipes[i + 1..],
                   nConnected := if reading then s.nConnected - 1 else s.nConnected);
      Effect(Complete(s1, FailAll(p.queue)), Total(p.queue))
  }

  // Another instance, if all of them are connected.
  function Open(s: Server, os: Os): Effect {
    var open := s.nConnected == |s.pipes| && |s.pipes| < s.maxPipes && !s.error;
    var s1 := if !open then s
              else if os.created then s.(pipes := s.pipes + [NewPipe(s.nextId)], nextId := s.nextId + 1)
              else s.(error := true);
    Effect(s1.(pc := Waiting), 0)
  }

  // The event of an instance that was just created.
  function OnCreated(s: Server, i: nat, os: Os): Effect
    requires i < |s.pipes|
  {
    if os.connect == Failed then Discard(s, i, false)
    else Effect(SetPipe(s, i, Connect(s.pipes[i], os.connect)), 0)
  }

  function OnConnecting(s: Server, i: nat, os: Os): Effect
    requires i < |s.pipes|
  {
    if s.pipes[i].pending && !os.finished then Discard(s, i, false)
    else Effect(SetPipe(s, i, s.pipes[i].(pending := false, status := Reading, event := true))
                .(nConnected := s.nConnected + 1), 0)
  }

  // The next read is issued.
  function ReadNext(s: Server, i: nat, os: Os): Effect
    requires i < |s.pipes|
  {
    match os.read
    case Done => Effect(Announce(s, i).(pc := InNextRead(i)), 0)
    case Pending => Effect(SetPipe(s, i, s.pipes[i].(pending := true)), 0)
    case Failed => Discard(s, i, true)
  }

  function OnReading(s: Server, i: nat, os: Os): Effect
    requires i < |s.pipes|
  {
    if !s.pipes[i].pending then ReadNext(s, i, os)
    else if os.finished then Effect(Announce(s, i).(pc := InRead(i)), 0)
    else Discard(s, i, true)
  }

  // The first region after the wait, for the event of instance i.
  function OnPipe(s: Server, i: nat, os: Os): Effect
    requires i < |s.pipes|
  {
    var s1 := SetPipe(s, i, s.pipes[i].(event := false)).(pc := Opening);
    match s.pipes[i].status
    case Created => OnCreated(s1, i, os)
    case Connecting => OnConnecting(s1, i, os)
    case Reading => OnReading(s1, i, os)
  }

  // The head of the queue is dealt with, and its device told.
  function Finish(s: Server, i: nat, ok: bool): Effect
    requires i < |s.pipes| && s.pipes[i].queue != []
  {
    var p := s.pipes[i];
    Effect(Complete(SetPipe(s, i, Pop(p)), [Completion(p.queue[0], ok)]), p.queue[0].size)
  }

  function LogWrite(s: Server, w: Write): Server {
    s.(log := s.log.(written := s.log.written + [w]))
  }

  // The head of the queue is handed to WriteFile.
  function StartWrite(s: Server, i: nat, os: Os): Effect
    requires i < |s.pipes| && s.pipes[i].queue != []
  {
    var p := s.pipes[i];
    var s1 := LogWrite(s, Write(p.id, p.queue[0]));
    if os.write == Pending then Effect(SetPipe(s1, i, p.(writePending := true, inFlight := Some(p.queue[0]))), 0)
    else Finish(s1, i, os.write == Done)
  }

  // The worker looks at the queue of instance i.
  function ServeQueue(s: Server, i: nat, os: Os): Effect
    requires i < |s.pipes|
  {
    var p := s.pipes[i];
    if p.queue == [] then Effect(SetPipe(s, i, p.(writePending := false)), 0)
    else if p.writePending then Finish(s, i, os.finished && os.transferred == p.queue[0].size)
    else StartWrite(s, i, os)
  }

  // The first region after the wait, for the write event of instance i.
  function OnWrite(s: Server, i: nat, os: Os): Effect
    requires i < |s.pipes|
  {
    ServeQueue(SetPipe(s, i, s.pipes[i].(writeEvent := false)).(pc := Opening), i, os)
  }

  /** What the wait returned: 0 for the done event, then two events an instance. */
  function OnWait(s: Server, w: nat, os: Os): Effect {
    if w == 0 then Effect(s.(pc := Finished), 0)
    else if w > 2 * |s.pipes| then Effect(s.(pc := Opening), 0)
    else if (w - 1) % 2 == 0 then OnPipe(s, (w - 1) / 2, os)
    else OnWrite(s, (w - 1) / 2, os)
  }

  // ProcessData for a read that was pending has returned.
  function AfterRead(s: Server, i: nat, os: Os): Effect
    requires i < |s.pipes|
  {
    ReadNext(SetPipe(s, i, s.pipes[i].(pending := false)).(pc := Opening), i, os)
  }

  // ProcessData for a read that completed at once has returned.
  function AfterNextRead(s: Server, i: nat): Effect
    requires i < |s.pipes|
  {
    Effect(SetPipe(s, i, s.pipes[i].(event := true)).(pc := Opening), 0)
  }

  // ------------------------------------------------------- calls from outside

  // The instance with this id, or the number of instances.
  function Find(pipes: seq<Pipe>, id: int): (i: nat)
    ensures i <= |pipes|
    ensures i < |pipes| ==> pipes[i].id == id
    ensures forall k :: 0 <= k < i ==> pipes[k].id != id
  {
    if pipes == [] || pipes[0].id == id then 0
    else
      var j := Find(pipes[1..], id);
      assert forall k :: 1 <= k < j + 1 ==> pipes[k] == pipes[1..][k - 1];
      j + 1
  }

  // SendData, when the quota has room or has not.
  function Send(s: Server, msg: Msg, room: bool): Server {
    var i := Find(s.pipes, msg.to);
    if msg.size == 0 || !s.working || i == |s.pipes| || !room then s
    else SetPipe(s, i, Push(s.pipes[i], msg)).(log := s.log.(accepted := s.log.accepted + [msg]))
  }

  // The first instance, which is connected before Init returns; if that fails
  // it is reset under the next id.
  function FirstPipe(id: int, connect: Io): Pipe {
    var p := NewPipe(id).(event := false);
    if connect == Failed then Reset(p.(id := id + 1)) else Connect(p, connect)
  }

  // Init, for a server that is not running.
  function Init(s: Server, nPipes: nat, os: Os): Server {
    Server(if nPipes > MAX_INSTANCES then MAX_INSTANCES else nPipes,
           [FirstPipe(s.nextId, os.connect)], 0,
           s.nextId + (if os.connect == Failed then 2 else 1),
           false, true, false, Opening, s.log)
  }

  // Close asks the worker to stop,
  function BeginClose(s: Server): Server {
    s.(working := false, done := true)
  }

  // and when it has, fails all that is left.
  function EndClose(s: Server): Effect {
    Effect(Complete(s, FailPipes(s.pipes)).(pipes := [], pc := Stopped), Queued(s.pipes))
  }
}
