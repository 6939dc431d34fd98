/**
 What every region of the pipe server keeps.
 */
module PipeInvariant {
  import opened Options
  import opened PipeModel
  import opened Sequences

  // ------------------------------------------------------------ accounting

  // The messages addressed to an id, in order.
  function To(id: int, ms: seq<Msg>): seq<Msg> {
    if ms == [] then [] else (if ms[0].to == id then [ms[0]] else []) + To(id, ms[1..])
  }

  // The messages addressed to an id for which Result was called, in order.
  function Results(id: int, cs: seq<Completion>): seq<Msg> {
    if cs == [] then [] else (if cs[0].msg.to == id then [cs[0].msg] else []) + Results(id, cs[1..])
  }

  lemma {:induction false} ToAppend(id: int, a: seq<Msg>, b: seq<Msg>)
    ensures To(id, a + b) == To(id, a) + To(id, b)
    decreases |a|
  {
    if a == [] {
      assert a + b == b;
    } else {
      assert (a + b)[1..] == a[1..] + b;
      ToAppend(id, a[1..], b);
    }
  }

  lemma {:induction false} ResultsAppend(id: int, a: seq<Completion>, b: seq<Completion>)
    ensures Results(id, a + b) == Results(id, a) + Results(id, b)
    decreases |a|
  {
    if a == [] {
      assert a + b == b;
    } else {
      assert (a + b)[0] == a[0] && (a + b)[1..] == a[1..] + b;
      var first := if a[0].msg.to == id then [a[0].msg] else [];
      assert first + (Results(id, a[1..]) + Results(id, b)) == first + Results(id, a[1..]) + Results(id, b);
      ResultsAppend(id, a[1..], b);
    }
  }

  ghost predicate Addressed(queue: seq<Msg>, id: int) {
    forall k :: 0 <= k < |queue| ==> queue[k].to == id
  }

  lemma {:induction false} ResultsOfFailAll(id: int, queue: seq<Msg>, owner: int)
    requires Addressed(queue, owner)
    ensures Results(id, FailAll(queue)) == if id == owner then queue else []
    decreases |queue|
  {
    if queue == [] {
    } else {
      assert FailAll(queue)[1..] == FailAll(queue[1..]);
      assert queue[0].to == owner;
      assert Addressed(queue[1..], owner) by {
        forall k | 0 <= k < |queue| - 1 ensures queue[1..][k].to == owner { assert queue[k + 1].to == owner; }
      }
      ResultsOfFailAll(id, queue[1..], owner);
      assert [queue[0]] + queue[1..] == queue;
    }
  }

  lemma {:induction false} TotalAppend(queue: seq<Msg>, msg: Msg)
    ensures Total(queue + [msg]) == Total(queue) + msg.size
    decreases |queue|
  {
    if queue == [] {
      assert queue + [msg] == [msg] && [msg][1..] == [];
    } else {
      assert (queue + [msg])[1..] == queue[1..] + [msg];
      TotalAppend(queue[1..], msg);
    }
  }

  lemma {:induction false} QueuedUpdate(pipes: seq<Pipe>, i: nat, p: Pipe)
    requires i < |pipes|
    ensures Queued(pipes[i := p]) == Queued(pipes) - Total(pipes[i].queue) + Total(p.queue)
    decreases |pipes|
  {
    if i == 0 {
      assert pipes[0 := p][1..] == pipes[1..];
    } else {
      assert pipes[i := p][1..] == pipes[1..][i - 1 := p];
      QueuedUpdate(pipes[1..], i - 1, p);
    }
  }

  lemma {:induction false} QueuedAppend(a: seq<Pipe>, b: seq<Pipe>)
    ensures Queued(a + b) == Queued(a) + Queued(b)
    decreases |a|
  {
    if a == [] {
      assert a + b == b;
    } else {
      assert (a + b)[1..] == a[1..] + b;
      QueuedAppend(a[1..], b);
    }
  }

  lemma QueuedRemove(pipes: seq<Pipe>, i: nat)
    requires i < |pipes|
    ensures Queued(pipes[..i] + pipes[i + 1..]) == Queued(pipes) - Total(pipes[i].queue)
  {
    QueuedAppend(pipes[..i], pipes[i + 1..]);
    QueuedAppend(pipes[..i], pipes[i..]);
    assert pipes[..i] + pipes[i..] == pipes;
    assert pipes[i..][0] == pipes[i] && pipes[i..][1..] == pipes[i + 1..];
  }

  // ------------------------------------------------------- one pipe at a time

  /** What is always so of an instance.  One that is not reading has an empty
      queue and an id nobody was told; everything in a queue is addressed to the
      id of its instance; a non-empty queue has its event signalled or a write
      under way, and that is the write of its head; and unless it is being
      served, something will wake the worker for it. */
  ghost predicate PipeOk(p: Pipe, nextId: nat, announced: set<int>, served: bool) {
    && 0 <= p.id < nextId
    && Addressed(p.queue, p.id)
    && (p.status != Reading ==> p.queue == [] && !p.writePending && p.id !in announced)
    && (p.queue != [] ==> p.writeEvent || p.writePending)
    && (p.writePending ==> p.queue != [] && p.inFlight == Some(p.queue[0]))
    && (served || p.pending || p.event)
  }

  // The instance that the worker is serving outside the lock.
  ghost predicate Served(pc: Pc, i: int) {
    (pc.InRead? || pc.InNextRead?) && pc.i == i
  }

  ghost predicate Distinct(pipes: seq<Pipe>) {
    forall i, j :: 0 <= i < j < |pipes| ==> pipes[i].id != pipes[j].id
  }

  // `free`: an instance whose wake-up is about to be settled, or -1.
  ghost predicate PipesOk(s: Server, free: int) {
    && Distinct(s.pipes)
    && (forall id :: id in s.log.announced ==> 0 <= id < s.nextId)
    && forall i :: 0 <= i < |s.pipes| ==>
         PipeOk(s.pipes[i], s.nextId, s.log.announced, i == free || Served(s.pc, i))
  }

  ghost predicate PcOk(s: Server) {
    match s.pc
    case InRead(i) => i < |s.pipes| && s.pipes[i].status == Reading
    case InNextRead(i) => i < |s.pipes| && s.pipes[i].status == Reading
    case Stopped => s.pipes == [] && !s.working
    case _ => true
  }

  function CountReading(pipes: seq<Pipe>): nat {
    if pipes == [] then 0 else (if pipes[0].status == Reading then 1 else 0) + CountReading(pipes[1..])
  }

  /** The counter of connected instances, if there can be several; how many
      instances there are; and that somebody can connect when the worker waits. */
  ghost predicate CountsOk(s: Server) {
    && 1 <= s.maxPipes <= MAX_INSTANCES && |s.pipes| <= s.maxPipes
    && (s.maxPipes == 1 && !s.pc.Stopped? ==> |s.pipes| == 1)
    && (s.maxPipes > 1 && !s.pc.Stopped? ==> s.nConnected == CountReading(s.pipes))
    && (s.pc == Waiting ==> s.nConnected < |s.pipes| || |s.pipes| == s.maxPipes || s.error)
  }

  // The queue of an id; no instance, no queue.
  function QueueOf(pipes: seq<Pipe>, id: int): seq<Msg> {
    var i := Find(pipes, id);
    if i < |pipes| then pipes[i].queue else []
  }

  /** Exactly once: for every id, what was accepted is what was completed and
      what is queued, in this order. */
  ghost predicate Balanced(pipes: seq<Pipe>, log: Log) {
    forall id :: Results(id, log.completed) + QueueOf(pipes, id) == To(id, log.accepted)
  }

  // What is written is addressed to the session it is written to.
  ghost predicate WritesOk(log: Log) {
    forall k :: 0 <= k < |log.written| ==> log.written[k].msg.to == log.written[k].session
  }

  ghost predicate Inv(s: Server, free: int) {
    && PipesOk(s, free) && PcOk(s) && Balanced(s.pipes, s.log) && WritesOk(s.log)
  }

  ghost predicate ServerOk(s: Server) {
    Inv(s, -1) && CountsOk(s)
  }

  // --------------------------------------------------------------- the balance

  lemma QueueAt(pipes: seq<Pipe>, i: nat)
    requires i < |pipes| && Distinct(pipes)
    ensures Find(pipes, pipes[i].id) == i
  {
  }

  lemma NoQueue(pipes: seq<Pipe>, id: int)
    requires forall i :: 0 <= i < |pipes| ==> pipes[i].id != id
    ensures QueueOf(pipes, id) == []
  {}

  // Changing one instance changes the queues of its old and of its new id.
  lemma QueueOfUpdate(pipes: seq<Pipe>, i: nat, p: Pipe, id: int)
    requires i < |pipes| && Distinct(pipes) && Distinct(pipes[i := p])
    ensures QueueOf(pipes[i := p], id)
         == if id == p.id then p.queue else if id == pipes[i].id then [] else QueueOf(pipes, id)
  {
    var pipes' := pipes[i := p];
    if id == p.id {
      QueueAt(pipes', i);
    } else if id == pipes[i].id {
      forall k | 0 <= k < |pipes'| ensures pipes'[k].id != id {
        if k != i { assert pipes'[k] == pipes[k]; }
      }
    } else {
      var j := Find(pipes, id);
      if j < |pipes| {
        assert pipes'[j] == pipes[j];
        QueueAt(pipes', j);
      } else {
        NoQueue(pipes', id);
      }
    }
  }

  lemma QueueOfRemove(pipes: seq<Pipe>, i: nat, id: int)
    requires i < |pipes| && Distinct(pipes)
    ensures Distinct(pipes[..i] + pipes[i + 1..])
    ensures QueueOf(pipes[..i] + pipes[i + 1..], id) == if id == pipes[i].id then [] else QueueOf(pipes, id)
  {
    var pipes' := pipes[..i] + pipes[i + 1..];
    assert forall k :: 0 <= k < |pipes'| ==> pipes'[k] == if k < i then pipes[k] else pipes[k + 1];
    if id == pipes[i].id {
      NoQueue(pipes', id);
    } else {
      var j := Find(pipes, id);
      if j < |pipes| {
        var j' := if j < i then j else j - 1;
        assert pipes'[j'] == pipes[j];
        QueueAt(pipes', j');
      } else {
        NoQueue(pipes', id);
      }
    }
  }

  lemma QueueOfAppend(pipes: seq<Pipe>, p: Pipe, id: int)
    requires Distinct(pipes + [p]) && p.queue == []
    ensures QueueOf(pipes + [p], id) == QueueOf(pipes, id)
  {
    var pipes' := pipes + [p];
    assert forall k :: 0 <= k < |pipes| ==> pipes'[k] == pipes[k];
    if id == p.id {
      assert pipes'[|pipes|] == p;
      QueueAt(pipes', |pipes|);
      NoQueue(pipes, id);
    } else {
      var j := Find(pipes, id);
      if j < |pipes| {
        assert pipes'[j] == pipes[j];
        QueueAt(pipes', j);
      } else {
        NoQueue(pipes', id);
      }
    }
  }

  // An instance changes, but neither its id nor its queue.
  lemma QuietBalanced(pipes: seq<Pipe>, log: Log, i: nat, p: Pipe)
    requires i < |pipes| && Distinct(pipes) && Balanced(pipes, log)
    requires p.id == pipes[i].id && p.queue == pipes[i].queue
    ensures Distinct(pipes[i := p]) && Balanced(pipes[i := p], log)
  {
    forall id ensures Results(id, log.completed) + QueueOf(pipes[i := p], id) == To(id, log.accepted) {
      QueueOfUpdate(pipes, i, p, id);
      QueueAt(pipes, i);
    }
  }

  // What is completed next and what stays queued make up what was queued.
  ghost predicate Splits(done: seq<Completion>, p: Pipe, queue: seq<Msg>, id: int) {
    Results(id, done) + (if id == p.id then p.queue else []) == if id == p.id then queue else []
  }

  lemma FinishAt(pipes: seq<Pipe>, log: Log, i: nat, p: Pipe, done: seq<Completion>, id: int)
    requires i < |pipes| && Distinct(pipes) && Distinct(pipes[i := p]) && p.id == pipes[i].id
    requires Results(id, log.completed) + QueueOf(pipes, id) == To(id, log.accepted)
    requires Splits(done, p, pipes[i].queue, id)
    ensures Results(id, log.completed + done) + QueueOf(pipes[i := p], id) == To(id, log.accepted)
  {
    QueueOfUpdate(pipes, i, p, id);
    ResultsAppend(id, log.completed, done);
    if id == p.id {
      QueueAt(pipes, i);
      Regrouped(Results(id, log.completed), Results(id, done), p.queue);
    } else {
      assert |Results(id, done)| == 0;
      NothingAdded(Results(id, log.completed));
    }
  }

  // The first messages of an instance are completed.
  lemma FinishBalanced(pipes: seq<Pipe>, log: Log, i: nat, p: Pipe, done: seq<Completion>)
    requires i < |pipes| && Distinct(pipes) && Balanced(pipes, log) && p.id == pipes[i].id
    requires forall id :: Splits(done, p, pipes[i].queue, id)
    ensures Distinct(pipes[i := p]) && Balanced(pipes[i := p], log.(completed := log.completed + done))
  {
    forall id ensures Results(id, log.completed + done) + QueueOf(pipes[i := p], id) == To(id, log.accepted) {
      assert Splits(done, p, pipes[i].queue, id);
      FinishAt(pipes, log, i, p, done, id);
    }
  }

  // An instance with nothing queued gets a new id,
  lemma RenameBalanced(pipes: seq<Pipe>, log: Log, i: nat, p: Pipe)
    requires i < |pipes| && Distinct(pipes) && Balanced(pipes, log) && pipes[i].queue == p.queue == []
    requires forall k :: 0 <= k < |pipes| ==> pipes[k].id != p.id
    ensures Distinct(pipes[i := p]) && Balanced(pipes[i := p], log)
  {
    forall id ensures Results(id, log.completed) + QueueOf(pipes[i := p], id) == To(id, log.accepted) {
      QueueOfUpdate(pipes, i, p, id);
      QueueAt(pipes, i);
      if id == p.id { NoQueue(pipes, id); }
    }
  }

  // or is deleted.
  lemma RemoveBalanced(pipes: seq<Pipe>, log: Log, i: nat)
    requires i < |pipes| && Distinct(pipes) && Balanced(pipes, log) && pipes[i].queue == []
    ensures Distinct(pipes[..i] + pipes[i + 1..]) && Balanced(pipes[..i] + pipes[i + 1..], log)
  {
    QueueOfRemove(pipes, i, 0);
    forall id ensures Results(id, log.completed) + QueueOf(pipes[..i] + pipes[i + 1..], id) == To(id, log.accepted) {
      QueueOfRemove(pipes, i, id);
      QueueAt(pipes, i);
    }
  }

  lemma AppendBalanced(pipes: seq<Pipe>, log: Log, p: Pipe)
    requires Distinct(pipes + [p]) && Balanced(pipes, log) && p.queue == []
    ensures Balanced(pipes + [p], log)
  {
    forall id ensures Results(id, log.completed) + QueueOf(pipes + [p], id) == To(id, log.accepted) {
      QueueOfAppend(pipes, p, id);
    }
  }

  lemma PushBalanced(pipes: seq<Pipe>, log: Log, i: nat, p: Pipe, msg: Msg)
    requires i < |pipes| && Distinct(pipes) && Balanced(pipes, log)
    requires p.id == pipes[i].id == msg.to && p.queue == pipes[i].queue + [msg]
    ensures Distinct(pipes[i := p]) && Balanced(pipes[i := p], log.(accepted := log.accepted + [msg]))
  {
    forall id ensures Results(id, log.completed) + QueueOf(pipes[i := p], id) == To(id, log.accepted + [msg]) {
      QueueOfUpdate(pipes, i, p, id);
      QueueAt(pipes, i);
      ToAppend(id, log.accepted, [msg]);
      assert To(id, [msg]) == if id == msg.to then [msg] else [];
      assert Results(id, log.completed) + pipes[i].queue + [msg]
          == Results(id, log.completed) + (pipes[i].queue + [msg]);
    }
  }
}
