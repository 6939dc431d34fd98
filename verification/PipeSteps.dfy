/**
 Every region of the pipe server keeps its invariant, and takes off the quota
 exactly what it takes out of the queues.
 */
module PipeSteps {
  import opened Options
  import opened PipeModel
  import opened PipeInvariant
  import opened Sequences

  // ------------------------------------------------------- the invariant

  // Instance i becomes p; its id and queue stay.
  lemma QuietStep(s: Server, i: nat, p: Pipe, pc: Pc, free: int)
    requires Inv(s, free) && i < |s.pipes| && (free == i || free == -1)
    requires p.id == s.pipes[i].id && p.queue == s.pipes[i].queue
    requires PipeOk(p, s.nextId, s.log.announced, Served(pc, i))
    requires PcOk(SetPipe(s, i, p).(pc := pc)) && (s.pc == Opening || pc == s.pc || Served(s.pc, i))
    ensures Inv(SetPipe(s, i, p).(pc := pc), -1)
  {
    QuietBalanced(s.pipes, s.log, i, p);
  }

  // What FinishStep and StartWriteStep need: the invariant, but for the wake-up
  // of the writes of instance i.
  ghost predicate Writing(s: Server, i: nat) {
    && i < |s.pipes| && s.pipes[i].queue != [] && s.pc == Opening
    && s.pipes[i].status == Reading && !s.pipes[i].writeEvent
    && Inv(SetPipe(s, i, s.pipes[i].(writeEvent := true)), -1)
  }

  lemma WritingParts(s: Server, i: nat)
    requires Writing(s, i)
    ensures Distinct(s.pipes) && Balanced(s.pipes, s.log) && WritesOk(s.log)
    ensures forall id :: id in s.log.announced ==> 0 <= id < s.nextId
    ensures forall j :: 0 <= j < |s.pipes| && j != i ==>
      PipeOk(s.pipes[j], s.nextId, s.log.announced, false)
    ensures PipeOk(s.pipes[i].(writeEvent := true), s.nextId, s.log.announced, false)
  {
    var t := SetPipe(s, i, s.pipes[i].(writeEvent := true));
    QuietBalanced(t.pipes, t.log, i, s.pipes[i]);
    assert t.pipes[i := s.pipes[i]] == s.pipes;
    forall j | 0 <= j < |s.pipes| && j != i ensures PipeOk(s.pipes[j], s.nextId, s.log.announced, false) {
      assert t.pipes[j] == s.pipes[j];
    }
    assert t.pipes[i] == s.pipes[i].(writeEvent := true);
  }

  lemma PopOk(p: Pipe, nextId: nat, announced: set<int>)
    requires p.queue != [] && p.status == Reading && PipeOk(p.(writeEvent := true), nextId, announced, false)
    ensures PipeOk(Pop(p), nextId, announced, false)
  {
    var p' := Pop(p);
    forall k | 0 <= k < |p'.queue| ensures p'.queue[k].to == p.id {
      assert p.(writeEvent := true).queue[k + 1] == p.queue[k + 1] == p'.queue[k];
    }
  }

  lemma HeadResult(id: int, p: Pipe, ok: bool)
    requires p.queue != [] && p.queue[0].to == p.id
    ensures Splits([Completion(p.queue[0], ok)], Pop(p), p.queue, id)
  {
    assert [Completion(p.queue[0], ok)][1..] == [];
    assert p.queue == [p.queue[0]] + Pop(p).queue;
  }

  lemma FinishStep(s: Server, i: nat, ok: bool)
    requires Writing(s, i)
    ensures Inv(Finish(s, i, ok).server, -1)
  {
    WritingParts(s, i);
    var p, p' := s.pipes[i], Pop(s.pipes[i]);
    PopOk(p, s.nextId, s.log.announced);
    var done := [Completion(p.queue[0], ok)];
    assert p.(writeEvent := true).queue[0].to == p.id;
    forall id ensures Splits(done, p', p.queue, id) { HeadResult(id, p, ok); }
    FinishBalanced(s.pipes, s.log, i, p', done);
  }

  lemma LogWriteStep(s: Server, w: Write)
    requires Inv(s, -1) && w.msg.to == w.session
    ensures Inv(LogWrite(s, w), -1)
  {
    assert Balanced(s.pipes, LogWrite(s, w).log) by {
      forall id ensures Results(id, s.log.completed) + QueueOf(s.pipes, id) == To(id, s.log.accepted) {}
    }
    assert PcOk(LogWrite(s, w));
  }

  lemma StartWriteStep(s: Server, i: nat, os: Os)
    requires Writing(s, i)
    ensures Inv(StartWrite(s, i, os).server, -1)
  {
    WritingParts(s, i);
    var p := s.pipes[i];
    assert p.(writeEvent := true).queue[0].to == p.id;
    var w := Write(p.id, p.queue[0]);
    var t := SetPipe(s, i, p.(writeEvent := true));
    LogWriteStep(t, w);
    var s1 := LogWrite(s, w);
    assert SetPipe(s1, i, p.(writeEvent := true)) == LogWrite(t, w);
    assert Writing(s1, i);
    if os.write == Pending {
      PendingStep(s1, i);
    } else {
      FinishStep(s1, i, os.write == Done);
    }
  }

  lemma PendingStep(s: Server, i: nat)
    requires Writing(s, i)
    ensures Inv(SetPipe(s, i, s.pipes[i].(writePending := true, inFlight := Some(s.pipes[i].queue[0]))), -1)
  {
    WritingParts(s, i);
    QuietBalanced(s.pipes, s.log, i, s.pipes[i].(writePending := true, inFlight := Some(s.pipes[i].queue[0])));
  }

  // All of instance i's queue fails.
  lemma FailStep(s: Server, i: nat, free: int)
    requires Inv(s, free) && i < |s.pipes|
    ensures Addressed(s.pipes[i].queue, s.pipes[i].id)
    ensures var s' := Complete(SetPipe(s, i, s.pipes[i].(queue := [])), FailAll(s.pipes[i].queue));
      Distinct(s'.pipes) && Balanced(s'.pipes, s'.log)
  {
    var p := s.pipes[i];
    var p', done := p.(queue := []), FailAll(p.queue);
    forall id ensures Splits(done, p', p.queue, id) {
      ResultsOfFailAll(id, p.queue, p.id);
      NothingAdded(Results(id, done));
    }
    FinishBalanced(s.pipes, s.log, i, p', done);
  }

  lemma ResetStep(s: Server, i: nat, reading: bool)
    requires Inv(s, i) && i < |s.pipes| && s.maxPipes == 1 && s.pc == Opening
    requires !reading ==> s.pipes[i].queue == []
    ensures Inv(Discard(s, i, reading).server, -1)
  {
    var p := s.pipes[i];
    var p' := Reset(p.(id := s.nextId, queue := []));
    var r := Discard(s, i, reading).server;
    assert reading || p.queue == [];
    assert r.pipes == s.pipes[i := p'];
    var emptied := s.pipes[i := p.(queue := [])];
    if reading {
      FailStep(s, i, i);
      RenameBalanced(emptied, r.log, i, p');
      assert emptied[i := p'] == r.pipes;
    } else {
      RenameBalanced(s.pipes, s.log, i, p');
    }
  }

  lemma DeleteStep(s: Server, i: nat, reading: bool)
    requires Inv(s, i) && i < |s.pipes| && s.maxPipes != 1 && s.pc == Opening
    ensures Inv(Discard(s, i, reading).server, -1)
  {
    var p := s.pipes[i];
    var r := Discard(s, i, reading).server;
    var emptied := s.pipes[i := p.(queue := [])];
    FailStep(s, i, i);
    RemoveBalanced(emptied, r.log, i);
    assert r.pipes == emptied[..i] + emptied[i + 1..];
    assert forall k :: 0 <= k < |r.pipes| ==> r.pipes[k] == if k < i then s.pipes[k] else s.pipes[k + 1];
  }

  lemma DiscardStep(s: Server, i: nat, reading: bool)
    requires Inv(s, i) && i < |s.pipes| && s.pc == Opening
    requires !reading ==> s.pipes[i].queue == []
    ensures Inv(Discard(s, i, reading).server, -1)
  {
    if s.maxPipes == 1 { ResetStep(s, i, reading); } else { DeleteStep(s, i, reading); }
  }

  lemma AddStep(s: Server)
    requires Inv(s, -1) && s.pc == Opening
    ensures Inv(s.(pipes := s.pipes + [NewPipe(s.nextId)], nextId := s.nextId + 1), -1)
  {
    AppendBalanced(s.pipes, s.log, NewPipe(s.nextId));
  }

  lemma OpenStep(s: Server, os: Os)
    requires Inv(s, -1) && s.pc == Opening
    ensures Inv(Open(s, os).server, -1)
  {
    AddStep(s);
  }

  // ProcessData is called for a reading instance: its id becomes known.
  lemma AnnounceStep(s: Server, i: nat, pc: Pc)
    requires Inv(s, i) && i < |s.pipes| && s.pc == Opening && s.pipes[i].status == Reading
    requires pc == InRead(i) || pc == InNextRead(i)
    ensures Inv(Announce(s, i).(pc := pc), -1)
  {
    var r := Announce(s, i).(pc := pc);
    assert r.pipes == s.pipes && Balanced(r.pipes, r.log);
    forall j | 0 <= j < |s.pipes| && j != i ensures s.pipes[j].id != s.pipes[i].id {}
  }

  lemma ReadNextStep(s: Server, i: nat, os: Os)
    requires Inv(s, i) && i < |s.pipes| && s.pc == Opening && s.pipes[i].status == Reading
    ensures Inv(ReadNext(s, i, os).server, -1)
  {
    match os.read
    case Done => AnnounceStep(s, i, InNextRead(i));
    case Pending => QuietStep(s, i, s.pipes[i].(pending := true), Opening, i);
    case Failed => DiscardStep(s, i, true);
  }

  lemma OnPipeStep(s: Server, i: nat, os: Os)
    requires Inv(s, -1) && s.pc == Waiting && i < |s.pipes|
    ensures Inv(OnPipe(s, i, os).server, -1)
  {
    var p := s.pipes[i].(event := false);
    var s1 := SetPipe(s, i, p).(pc := Opening);
    QuietBalanced(s.pipes, s.log, i, p);
    assert Inv(s1, i);
    match p.status
    case Created =>
      if os.connect == Failed { DiscardStep(s1, i, false); }
      else { QuietStep(s1, i, Connect(p, os.connect), Opening, i); }
    case Connecting =>
      if p.pending && !os.finished { DiscardStep(s1, i, false); }
      else { QuietStep(s1, i, p.(pending := false, status := Reading, event := true), Opening, i); }
    case Reading =>
      if !p.pending { ReadNextStep(s1, i, os); }
      else if os.finished { AnnounceStep(s1, i, InRead(i)); }
      else { DiscardStep(s1, i, true); }
  }

  // The event of the writes of instance i has been reset.
  lemma ResetIsWriting(s: Server, i: nat)
    requires Inv(s, -1) && s.pc == Waiting && i < |s.pipes| && s.pipes[i].queue != []
    ensures Writing(SetPipe(s, i, s.pipes[i].(writeEvent := false)).(pc := Opening), i)
  {
    var p, q := s.pipes[i].(writeEvent := false), s.pipes[i].(writeEvent := true);
    var s1 := SetPipe(s, i, p).(pc := Opening);
    QuietStep(s.(pc := Opening), i, q, Opening, -1);
    assert SetPipe(s1, i, q) == SetPipe(s.(pc := Opening), i, q);
  }

  lemma ServeQueueStep(s: Server, i: nat, os: Os)
    requires Writing(s, i)
    ensures Inv(ServeQueue(s, i, os).server, -1)
  {
    var p := s.pipes[i];
    if p.writePending { FinishStep(s, i, os.finished && os.transferred == p.queue[0].size); }
    else { StartWriteStep(s, i, os); }
  }

  lemma OnWriteStep(s: Server, i: nat, os: Os)
    requires Inv(s, -1) && s.pc == Waiting && i < |s.pipes|
    ensures Inv(OnWrite(s, i, os).server, -1)
  {
    var p := s.pipes[i].(writeEvent := false);
    if p.queue == [] {
      var p1 := p.(writePending := false);
      QuietStep(s.(pc := Opening), i, p1, Opening, -1);
      assert s.pipes[i := p][i := p1] == s.pipes[i := p1];
    } else {
      ResetIsWriting(s, i);
      ServeQueueStep(SetPipe(s, i, p).(pc := Opening), i, os);
    }
  }

  lemma OnWaitStep(s: Server, w: nat, os: Os)
    requires Inv(s, -1) && s.pc == Waiting
    ensures Inv(OnWait(s, w, os).server, -1)
  {
    if 0 < w <= 2 * |s.pipes| {
      if (w - 1) % 2 == 0 { OnPipeStep(s, (w - 1) / 2, os); } else { OnWriteStep(s, (w - 1) / 2, os); }
    }
  }

  lemma AfterReadStep(s: Server, i: nat, os: Os)
    requires Inv(s, -1) && s.pc == InRead(i)
    ensures Inv(AfterRead(s, i, os).server, -1)
  {
    var p := s.pipes[i].(pending := false);
    QuietBalanced(s.pipes, s.log, i, p);
    ReadNextStep(SetPipe(s, i, p).(pc := Opening), i, os);
  }

  lemma AfterNextReadStep(s: Server, i: nat)
    requires Inv(s, -1) && s.pc == InNextRead(i)
    ensures Inv(AfterNextRead(s, i).server, -1)
  {
    QuietStep(s, i, s.pipes[i].(event := true), Opening, -1);
  }

  lemma SendStep(s: Server, msg: Msg, room: bool)
    requires Inv(s, -1) && (msg.to in s.log.announced || msg.to == -1)
    ensures Inv(Send(s, msg, room), -1)
  {
    var i := Find(s.pipes, msg.to);
    if i < |s.pipes| {
      PushBalanced(s.pipes, s.log, i, Push(s.pipes[i], msg), msg);
    }
  }

  // ------------------------------------------------------------- the counts

  lemma {:induction false} CountUpdate(pipes: seq<Pipe>, i: nat, p: Pipe)
    requires i < |pipes|
    ensures CountReading(pipes[i := p]) + (if pipes[i].status == Reading then 1 else 0)
         == CountReading(pipes) + (if p.status == Reading then 1 else 0)
    decreases |pipes|
  {
    if i == 0 {
      assert pipes[0 := p][1..] == pipes[1..];
    } else {
      assert pipes[i := p][1..] == pipes[1..][i - 1 := p];
      CountUpdate(pipes[1..], i - 1, p);
    }
  }

  lemma {:induction false} CountAppend(a: seq<Pipe>, b: seq<Pipe>)
    ensures CountReading(a + b) == CountReading(a) + CountReading(b)
    decreases |a|
  {
    if a == [] {
      assert a + b == b;
    } else {
      assert (a + b)[0] == a[0] && (a + b)[1..] == a[1..] + b;
      CountAppend(a[1..], b);
    }
  }

  lemma CountRemove(pipes: seq<Pipe>, i: nat)
    requires i < |pipes|
    ensures CountReading(pipes[..i] + pipes[i + 1..])
         == CountReading(pipes) - (if pipes[i].status == Reading then 1 else 0)
  {
    CountAppend(pipes[..i], pipes[i + 1..]);
    CountAppend(pipes[..i], pipes[i..]);
    assert pipes[..i] + pipes[i..] == pipes;
    assert pipes[i..][0] == pipes[i] && pipes[i..][1..] == pipes[i + 1..];
  }

  lemma {:induction false} CountBound(pipes: seq<Pipe>)
    ensures CountReading(pipes) <= |pipes|
    ensures CountReading(pipes) == |pipes| <==> forall i :: 0 <= i < |pipes| ==> pipes[i].status == Reading
  {
    if pipes == [] {
    } else {
      CountBound(pipes[1..]);
      assert forall i :: 1 <= i < |pipes| ==> pipes[i] == pipes[1..][i - 1];
    }
  }

  lemma OpenCounts(s: Server, os: Os)
    requires CountsOk(s) && s.pc == Opening
    ensures CountsOk(Open(s, os).server)
  {
    CountBound(s.pipes);
    CountAppend(s.pipes, [NewPipe(s.nextId)]);
  }

  // Between the regions of one wake-up nothing but the pipes changes.
  lemma SetCounts(s: Server, i: nat, p: Pipe, pc: Pc)
    requires CountsOk(s) && i < |s.pipes| && s.pc != Stopped && pc != Waiting && pc != Stopped
    requires p.status == s.pipes[i].status
    ensures CountsOk(SetPipe(s, i, p).(pc := pc))
  {
    CountUpdate(s.pipes, i, p);
  }

  lemma DiscardCounts(s: Server, i: nat)
    requires CountsOk(s) && i < |s.pipes| && s.pc == Opening
    ensures CountsOk(Discard(s, i, s.pipes[i].status == Reading).server)
  {
    if s.maxPipes > 1 { CountRemove(s.pipes, i); }
  }

  lemma ReadNextCounts(s: Server, i: nat, os: Os)
    requires CountsOk(s) && i < |s.pipes| && s.pc == Opening && s.pipes[i].status == Reading
    ensures CountsOk(ReadNext(s, i, os).server)
  {
    match os.read
    case Done =>
    case Pending => SetCounts(s, i, s.pipes[i].(pending := true), Opening);
    case Failed => DiscardCounts(s, i);
  }

  lemma OnCreatedCounts(s: Server, i: nat, os: Os)
    requires CountsOk(s) && s.pc == Opening && i < |s.pipes| && s.pipes[i].status != Reading
    ensures CountsOk(OnCreated(s, i, os).server)
    ensures CountsOk(OnConnecting(s, i, os).server)
  {
    DiscardCounts(s, i);
    CountUpdate(s.pipes, i, Connect(s.pipes[i], os.connect));
    CountUpdate(s.pipes, i, s.pipes[i].(pending := false, status := Reading, event := true));
  }

  lemma OnReadingCounts(s: Server, i: nat, os: Os)
    requires CountsOk(s) && s.pc == Opening && i < |s.pipes| && s.pipes[i].status == Reading
    ensures CountsOk(OnReading(s, i, os).server)
  {
    DiscardCounts(s, i);
    ReadNextCounts(s, i, os);
  }

  lemma OnPipeCounts(s: Server, i: nat, os: Os)
    requires CountsOk(s) && s.pc == Waiting && i < |s.pipes|
    ensures CountsOk(OnPipe(s, i, os).server)
  {
    var p := s.pipes[i].(event := false);
    var s1 := SetPipe(s, i, p).(pc := Opening);
    SetCounts(s, i, p, Opening);
    if p.status == Reading { OnReadingCounts(s1, i, os); } else { OnCreatedCounts(s1, i, os); }
  }

  lemma FinishCounts(s: Server, i: nat, ok: bool)
    requires CountsOk(s) && i < |s.pipes| && s.pc == Opening && s.pipes[i].queue != []
    ensures CountsOk(Finish(s, i, ok).server)
  {
    SetCounts(s, i, Pop(s.pipes[i]), Opening);
  }

  lemma ServeQueueCounts(s: Server, i: nat, os: Os)
    requires CountsOk(s) && s.pc == Opening && i < |s.pipes|
    ensures CountsOk(ServeQueue(s, i, os).server)
  {
    var p := s.pipes[i];
    if p.queue == [] {
      SetCounts(s, i, p.(writePending := false), Opening);
    } else if p.writePending {
      FinishCounts(s, i, os.finished && os.transferred == p.queue[0].size);
    } else {
      var s1 := LogWrite(s, Write(p.id, p.queue[0]));
      SetCounts(s1, i, p.(writePending := true, inFlight := Some(p.queue[0])), Opening);
      FinishCounts(s1, i, os.write == Done);
    }
  }

  lemma OnWriteCounts(s: Server, i: nat, os: Os)
    requires CountsOk(s) && s.pc == Waiting && i < |s.pipes|
    ensures CountsOk(OnWrite(s, i, os).server)
  {
    var p := s.pipes[i].(writeEvent := false);
    SetCounts(s, i, p, Opening);
    ServeQueueCounts(SetPipe(s, i, p).(pc := Opening), i, os);
  }

  lemma OnWaitCounts(s: Server, w: nat, os: Os)
    requires CountsOk(s) && s.pc == Waiting
    ensures CountsOk(OnWait(s, w, os).server)
  {
    if 0 < w <= 2 * |s.pipes| {
      if (w - 1) % 2 == 0 { OnPipeCounts(s, (w - 1) / 2, os); } else { OnWriteCounts(s, (w - 1) / 2, os); }
    }
  }

  lemma AfterReadCounts(s: Server, i: nat, os: Os)
    requires CountsOk(s) && s.pc == InRead(i) && PcOk(s)
    ensures CountsOk(AfterRead(s, i, os).server)
  {
    var p := s.pipes[i].(pending := false);
    SetCounts(s, i, p, Opening);
    ReadNextCounts(SetPipe(s, i, p).(pc := Opening), i, os);
  }

  lemma SendCounts(s: Server, msg: Msg, room: bool)
    requires CountsOk(s)
    ensures CountsOk(Send(s, msg, room))
  {
    var i := Find(s.pipes, msg.to);
    if i < |s.pipes| { CountUpdate(s.pipes, i, Push(s.pipes[i], msg)); }
  }

  // -------------------------------------------------------------- the quota

  // What a region takes out of the queues is what it takes off the quota.
  ghost predicate Pays(s: Server, r: Effect) {
    Queued(r.server.pipes) + r.released == Queued(s.pipes)
  }

  lemma DiscardPays(s: Server, i: nat, reading: bool)
    requires i < |s.pipes|
    ensures Pays(s, Discard(s, i, reading))
  {
    if s.maxPipes == 1 {
      QueuedUpdate(s.pipes, i, Discard(s, i, reading).server.pipes[i]);
    } else {
      QueuedRemove(s.pipes, i);
    }
  }

  lemma SamePays(s: Server, i: nat, p: Pipe)
    requires i < |s.pipes| && p.queue == s.pipes[i].queue
    ensures Queued(s.pipes[i := p]) == Queued(s.pipes)
  {
    QueuedUpdate(s.pipes, i, p);
  }

  lemma ReadNextPays(s: Server, i: nat, os: Os)
    requires i < |s.pipes|
    ensures Pays(s, ReadNext(s, i, os))
  {
    SamePays(s, i, s.pipes[i].(pending := true));
    DiscardPays(s, i, true);
  }

  lemma OnCreatedPays(s: Server, i: nat, os: Os)
    requires i < |s.pipes|
    ensures Pays(s, OnCreated(s, i, os)) && Pays(s, OnConnecting(s, i, os))
  {
    DiscardPays(s, i, false);
    SamePays(s, i, Connect(s.pipes[i], os.connect));
    SamePays(s, i, s.pipes[i].(pending := false, status := Reading, event := true));
  }

  lemma OnReadingPays(s: Server, i: nat, os: Os)
    requires i < |s.pipes|
    ensures Pays(s, OnReading(s, i, os))
  {
    DiscardPays(s, i, true);
    ReadNextPays(s, i, os);
  }

  lemma OnPipePays(s: Server, i: nat, os: Os)
    requires i < |s.pipes|
    ensures Pays(s, OnPipe(s, i, os))
  {
    var p := s.pipes[i].(event := false);
    var s1 := SetPipe(s, i, p).(pc := Opening);
    SamePays(s, i, p);
    OnCreatedPays(s1, i, os);
    OnReadingPays(s1, i, os);
  }

  lemma FinishPays(s: Server, i: nat, ok: bool)
    requires i < |s.pipes| && s.pipes[i].queue != []
    ensures Pays(s, Finish(s, i, ok))
  {
    QueuedUpdate(s.pipes, i, Pop(s.pipes[i]));
  }

  lemma StartWritePays(s: Server, i: nat, os: Os)
    requires i < |s.pipes| && s.pipes[i].queue != []
    ensures Pays(s, StartWrite(s, i, os))
  {
    var p := s.pipes[i];
    if os.write == Pending {
      SamePays(s, i, p.(writePending := true, inFlight := Some(p.queue[0])));
    } else {
      FinishPays(LogWrite(s, Write(p.id, p.queue[0])), i, os.write == Done);
    }
  }

  lemma OnWritePays(s: Server, i: nat, os: Os)
    requires i < |s.pipes|
    ensures Pays(s, OnWrite(s, i, os))
  {
    var p := s.pipes[i].(writeEvent := false);
    var s1 := SetPipe(s, i, p).(pc := Opening);
    SamePays(s, i, p);
    if p.queue == [] { SamePays(s1, i, p.(writePending := false)); }
    else if p.writePending { FinishPays(s1, i, os.finished && os.transferred == p.queue[0].size); }
    else { StartWritePays(s1, i, os); }
  }

  lemma OnWaitPays(s: Server, w: nat, os: Os)
    ensures Pays(s, OnWait(s, w, os))
  {
    if 0 < w <= 2 * |s.pipes| {
      if (w - 1) % 2 == 0 { OnPipePays(s, (w - 1) / 2, os); } else { OnWritePays(s, (w - 1) / 2, os); }
    }
  }

  lemma OpenPays(s: Server, os: Os)
    ensures Pays(s, Open(s, os))
  {
    QueuedAppend(s.pipes, [NewPipe(s.nextId)]);
    assert Queued([NewPipe(s.nextId)]) == Queued([]);
  }

  lemma AfterReadPays(s: Server, i: nat, os: Os)
    requires i < |s.pipes|
    ensures Pays(s, AfterRead(s, i, os))
  {
    var p := s.pipes[i].(pending := false);
    SamePays(s, i, p);
    ReadNextPays(SetPipe(s, i, p).(pc := Opening), i, os);
  }

  // An accepted message enters the queues.
  lemma SendPays(s: Server, msg: Msg, room: bool)
    ensures Queued(Send(s, msg, room).pipes)
         == Queued(s.pipes) + if Send(s, msg, room) == s then 0 else msg.size
  {
    var i := Find(s.pipes, msg.to);
    if i < |s.pipes| {
      var p := Push(s.pipes[i], msg);
      QueuedUpdate(s.pipes, i, p);
      TotalAppend(s.pipes[i].queue, msg);
      assert |s.pipes[i := p][i].queue| != |s.pipes[i].queue|;
    }
  }
}
