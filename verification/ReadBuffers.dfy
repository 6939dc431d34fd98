/**
 The protocol around the ring of read buffers: the thread of the channel finds
 a buffer, has the device fill it, and hands it to every ADC that is active;
 each ADC has a queue, from which its own thread takes, extracts and releases.
 GetFree does not claim what it returns.
 */
module ReadBuffers {
  import opened Bits
  import opened MemRing
  import opened Options
  import opened Sequences

  // A buffer in a queue, and what it held when it was put there.
  datatype Entry = Entry(idx: nat, content: seq<Byte>)

  /** An ADC: its queue with the event of the queue, and what its thread is
      busy with; what was handed to it, and what it has extracted. */
  datatype Consumer = Consumer(queue: seq<Entry>, event: bool, busy: Option<Entry>, read: bool,
                               delivered: seq<seq<Byte>>, extracted: seq<seq<Byte>>)

  // The thread of the channel.
  datatype Producer = Idle | Found(idx: nat) | Handing(idx: nat, k: nat)

  datatype Protocol = Protocol(counts: seq<int>, data: seq<seq<Byte>>, max: nat,
                               producer: Producer, consumers: seq<Consumer>)

  datatype Label =
    | Look
    | Fill(content: seq<Byte>, ok: bool)
    | Hand(active: bool)
    | Take(c: nat)
    | Extract(c: nat)
    | Release(c: nat)

  predicate Enabled(p: Protocol, l: Label) {
    match l
    case Look => p.producer == Idle
    case Fill(_, _) => p.producer.Found? && p.producer.idx < |p.data|
    case Hand(_) => p.producer.Handing? && p.producer.idx < |p.data| == |p.counts|
    case Take(c) => c < |p.consumers| && p.consumers[c].event && p.consumers[c].busy == None
    case Extract(c) => c < |p.consumers| && p.consumers[c].busy != None && !p.consumers[c].read
                       && p.consumers[c].busy.value.idx < |p.data|
    case Release(c) => c < |p.consumers| && p.consumers[c].busy != None && p.consumers[c].read
                       && p.consumers[c].busy.value.idx < |p.counts|
  }

  // Push sets the event only when the queue is empty.
  function Push(c: Consumer, e: Entry): Consumer {
    c.(queue := c.queue + [e], event := c.event || c.queue == [], delivered := c.delivered + [e.content])
  }

  // The thread of an ADC wakes: it takes the first entry, if there is one.
  function TakeFirst(c: Consumer): Consumer {
    if c.queue == [] then c.(event := false)
    else c.(queue := c.queue[1..], busy := Some(c.queue[0]), read := false)
  }

  // It is done with an entry, and resets the event if the queue is empty.
  function Finish(c: Consumer): Consumer {
    c.(busy := None, read := false, event := c.event && c.queue != [])
  }

  function Apply(p: Protocol, l: Label): Protocol
    requires Enabled(p, l)
  {
    match l
    case Look =>
      var counts := Grown(p.counts, p.max);
      var i := FirstFree(counts);
      p.(counts := counts, data := if |counts| > |p.counts| then p.data + [[]] else p.data,
         producer := if i < |counts| then Found(i) else Idle)
    case Fill(content, ok) =>
      p.(data := p.data[p.producer.idx := content], producer := if ok then Handing(p.producer.idx, 0) else Idle)
    case Hand(active) =>
      var i, k := p.producer.idx, p.producer.k;
      if k >= |p.consumers| then p.(producer := Idle)
      else if !active then p.(producer := Handing(i, k + 1))
      else p.(producer := Handing(i, k + 1), counts := p.counts[i := p.counts[i] + 1],
              consumers := p.consumers[k := Push(p.consumers[k], Entry(i, p.data[i]))])
    case Take(c) => p.(consumers := p.consumers[c := TakeFirst(p.consumers[c])])
    case Extract(c) =>
      var consumer := p.consumers[c];
      var content := p.data[consumer.busy.value.idx];
      p.(consumers := p.consumers[c := consumer.(read := true, extracted := consumer.extracted + [content])])
    case Release(c) =>
      var i := p.consumers[c].busy.value.idx;
      p.(counts := p.counts[i := p.counts[i] - 1], consumers := p.consumers[c := Finish(p.consumers[c])])
  }

  predicate Run(p: Protocol, steps: seq<Label>, p': Protocol)
    decreases |steps|
  {
    if steps == [] then p == p' else Enabled(p, steps[0]) && Run(Apply(p, steps[0]), steps[1..], p')
  }

  const FRESH: Consumer := Consumer([], false, None, false, [], [])

  predicate Initial(p: Protocol) {
    && |p.data| == |p.counts| && p.producer == Idle
    && (forall i :: 0 <= i < |p.counts| ==> p.counts[i] == 0)
    && forall c :: 0 <= c < |p.consumers| ==> p.consumers[c] == FRESH
  }

  // -------------------------------------------------------------- invariant

  function Occurs(queue: seq<Entry>, idx: nat): nat {
    if queue == [] then 0 else (if queue[0].idx == idx then 1 else 0) + Occurs(queue[1..], idx)
  }

  // The claims of an ADC on a buffer: in its queue, and the one it is busy with.
  function Holds(c: Consumer, idx: nat): nat {
    Occurs(c.queue, idx) + if c.busy != None && c.busy.value.idx == idx then 1 else 0
  }

  function Claims(consumers: seq<Consumer>, idx: nat): nat {
    if consumers == [] then 0 else Holds(consumers[0], idx) + Claims(consumers[1..], idx)
  }

  function Contents(queue: seq<Entry>): (r: seq<seq<Byte>>)
    ensures |r| == |queue|
  {
    seq(|queue|, k requires 0 <= k < |queue| => queue[k].content)
  }

  // What an ADC holds, oldest first: the entry it has not read yet, and its queue.
  function Held(c: Consumer): seq<seq<Byte>> {
    (if c.busy != None && !c.read then [c.busy.value.content] else []) + Contents(c.queue)
  }

  // The buffer of an entry still holds what it held when it was handed over.
  ghost predicate Stable(e: Entry, data: seq<seq<Byte>>) {
    e.idx < |data| && data[e.idx] == e.content
  }

  ghost predicate ConsumerOk(c: Consumer, data: seq<seq<Byte>>) {
    && (forall k :: 0 <= k < |c.queue| ==> Stable(c.queue[k], data))
    && (c.busy != None ==> Stable(c.busy.value, data))
    && c.extracted + Held(c) == c.delivered
    && (c.queue != [] ==> c.event)
    && (c.busy == None ==> !c.read && (c.event <==> c.queue != []))
  }

  ghost predicate Ok(p: Protocol) {
    && |p.data| == |p.counts|
    && (forall c :: 0 <= c < |p.consumers| ==> ConsumerOk(p.consumers[c], p.data))
    && (forall i :: 0 <= i < |p.counts| ==> p.counts[i] == Claims(p.consumers, i))
    && match p.producer
       case Idle => true
       case Found(i) => i < |p.counts| && p.counts[i] == 0
       case Handing(i, k) => i < |p.counts|
  }

  lemma {:induction false} OccursAppend(queue: seq<Entry>, e: Entry, idx: nat)
    ensures Occurs(queue + [e], idx) == Occurs(queue, idx) + if e.idx == idx then 1 else 0
  {
    if queue == [] {
      assert queue + [e] == [e] && [e][1..] == [];
    } else {
      assert (queue + [e])[0] == queue[0] && (queue + [e])[1..] == queue[1..] + [e];
      OccursAppend(queue[1..], e, idx);
    }
  }

  lemma {:induction false} ClaimsUpdate(consumers: seq<Consumer>, k: nat, c: Consumer, idx: nat)
    requires k < |consumers|
    ensures Claims(consumers[k := c], idx) == Claims(consumers, idx) - Holds(consumers[k], idx) + Holds(c, idx)
    decreases |consumers|
  {
    if k == 0 {
      assert consumers[0 := c][1..] == consumers[1..];
    } else {
      assert consumers[k := c][1..] == consumers[1..][k - 1 := c];
      ClaimsUpdate(consumers[1..], k - 1, c, idx);
    }
  }

  // Whoever holds a buffer has claimed it.
  lemma {:induction false} HeldIsClaimed(consumers: seq<Consumer>, k: nat, idx: nat)
    requires k < |consumers|
    ensures Holds(consumers[k], idx) <= Claims(consumers, idx)
    decreases |consumers|
  {
    if k == 0 {
    } else {
      HeldIsClaimed(consumers[1..], k - 1, idx);
    }
  }

  lemma {:induction false} InQueue(queue: seq<Entry>, j: nat)
    requires j < |queue|
    ensures Occurs(queue, queue[j].idx) > 0
  {
    if j == 0 {
    } else {
      InQueue(queue[1..], j - 1);
    }
  }

  // Nobody holds a buffer without claims, so writing to it disturbs nobody.
  lemma Undisturbed(p: Protocol, i: nat, content: seq<Byte>, k: nat)
    requires Ok(p) && i < |p.counts| && p.counts[i] == 0 && k < |p.consumers|
    ensures ConsumerOk(p.consumers[k], p.data[i := content])
  {
    var c := p.consumers[k];
    HeldIsClaimed(p.consumers, k, i);
    assert ConsumerOk(c, p.data);
    forall j | 0 <= j < |c.queue| ensures Stable(c.queue[j], p.data[i := content]) {
      InQueue(c.queue, j);
      assert Stable(c.queue[j], p.data);
    }
  }

  lemma {:induction false} NoClaims(consumers: seq<Consumer>, data: seq<seq<Byte>>, idx: nat)
    requires forall c :: 0 <= c < |consumers| ==> ConsumerOk(consumers[c], data)
    requires idx >= |data|
    ensures Claims(consumers, idx) == 0
    decreases |consumers|
  {
    if consumers == [] {
    } else {
      assert forall c :: 0 <= c < |consumers| - 1 ==> consumers[1..][c] == consumers[c + 1];
      NoClaims(consumers[1..], data, idx);
      NotInQueue(consumers[0].queue, data, idx);
      assert ConsumerOk(consumers[0], data);
    }
  }

  lemma {:induction false} NotInQueue(queue: seq<Entry>, data: seq<seq<Byte>>, idx: nat)
    requires (forall k :: 0 <= k < |queue| ==> Stable(queue[k], data)) && idx >= |data|
    ensures Occurs(queue, idx) == 0
  {
    if queue == [] {
    } else {
      assert Stable(queue[0], data);
      assert forall k :: 0 <= k < |queue| - 1 ==> queue[1..][k] == queue[k + 1];
      NotInQueue(queue[1..], data, idx);
    }
  }

  /** What the thread of the channel finds: the first buffer without claims; if there is
      none a new one, as long as there may be more; and else nothing. */
  lemma LookOutcome(p: Protocol)
    requires Enabled(p, Look) && |p.data| == |p.counts|
    ensures var r := Apply(p, Look);
      r.consumers == p.consumers
      && if exists i :: 0 <= i < |p.counts| && p.counts[i] == 0 then
           && r.counts == p.counts && r.data == p.data && r.producer.Found? && r.producer.idx < |p.counts|
           && p.counts[r.producer.idx] == 0 && forall i :: 0 <= i < r.producer.idx ==> p.counts[i] != 0
         else if |p.counts| < p.max then
           && r.counts == p.counts + [0] && r.data == p.data + [[]] && r.producer == Found(|p.counts|)
         else r.counts == p.counts && r.data == p.data && r.producer == Idle
  {
    var i := FirstFree(p.counts);
    if i == |p.counts| {
      assert forall k :: 0 <= k < i ==> p.counts[k] != 0;
      if i < p.max { NewIsFree(p.counts); }
    }
  }

  /** The thread of an ADC that wakes takes the first entry of its queue, or goes back to
      sleep if there is none. */
  lemma TakeOutcome(p: Protocol, c: nat)
    requires Enabled(p, Take(c))
    ensures var r, before := Apply(p, Take(c)), p.consumers[c];
      && r.counts == p.counts && r.data == p.data && r.producer == p.producer
      && |r.consumers| == |p.consumers| && r.consumers == p.consumers[c := r.consumers[c]]
      && var after := r.consumers[c];
        && after.extracted == before.extracted && after.delivered == before.delivered
        && if before.queue == [] then after.busy == None && after.queue == [] && !after.event
           else after.busy == Some(before.queue[0]) && after.queue == before.queue[1..] && !after.read && after.event
  {}

  // The buffer that was added is the first free one.
  lemma NewIsFree(counts: seq<int>)
    requires forall k :: 0 <= k < |counts| ==> counts[k] != 0
    ensures FirstFree(counts + [0]) == |counts|
  {
    FirstFreeIs(counts + [0], |counts|);
  }

  lemma LookKeeps(p: Protocol)
    requires Ok(p) && p.producer == Idle
    ensures Ok(Apply(p, Look))
  {
    var r := Apply(p, Look);
    if |r.counts| > |p.counts| {
      NoClaims(p.consumers, p.data, |p.data|);
      forall c | 0 <= c < |p.consumers| ensures ConsumerOk(p.consumers[c], r.data) {
        var consumer := p.consumers[c];
        forall k | 0 <= k < |consumer.queue| ensures Stable(consumer.queue[k], r.data) {
          assert Stable(consumer.queue[k], p.data);
        }
      }
    }
  }

  lemma FillKeeps(p: Protocol, content: seq<Byte>, ok: bool)
    requires Ok(p) && Enabled(p, Fill(content, ok))
    ensures Ok(Apply(p, Fill(content, ok)))
  {
    forall k | 0 <= k < |p.consumers| ensures ConsumerOk(p.consumers[k], p.data[p.producer.idx := content]) {
      Undisturbed(p, p.producer.idx, content, k);
    }
  }

  // One ADC changes; the claims change with what it holds.
  lemma OneChanges(p: Protocol, k: nat, c: Consumer, counts: seq<int>, producer: Producer)
    requires Ok(p) && k < |p.consumers| && ConsumerOk(c, p.data) && |counts| == |p.counts|
    requires forall i :: 0 <= i < |counts| ==> counts[i] - p.counts[i] == Holds(c, i) - Holds(p.consumers[k], i)
    requires match producer
      case Idle => true
      case Found(i) => i < |counts| && counts[i] == 0
      case Handing(i, _) => i < |counts|
    ensures Ok(p.(consumers := p.consumers[k := c], counts := counts, producer := producer))
  {
    forall i | 0 <= i < |counts| ensures counts[i] == Claims(p.consumers[k := c], i) {
      ClaimsUpdate(p.consumers, k, c, i);
    }
  }

  lemma PushOk(c: Consumer, e: Entry, data: seq<seq<Byte>>)
    requires ConsumerOk(c, data) && Stable(e, data)
    ensures ConsumerOk(Push(c, e), data)
  {
    assert Held(Push(c, e)) == Held(c) + [e.content];
    assert c.extracted + (Held(c) + [e.content]) == c.extracted + Held(c) + [e.content];
  }

  lemma HandKeeps(p: Protocol, active: bool)
    requires Ok(p) && Enabled(p, Hand(active))
    ensures Ok(Apply(p, Hand(active)))
  {
    var i, k := p.producer.idx, p.producer.k;
    if k < |p.consumers| && active {
      var e := Entry(i, p.data[i]);
      var c := Push(p.consumers[k], e);
      PushOk(p.consumers[k], e, p.data);
      forall j | 0 <= j < |p.counts| { OccursAppend(p.consumers[k].queue, e, j); }
      OneChanges(p, k, c, p.counts[i := p.counts[i] + 1], Handing(i, k + 1));
    }
  }

  lemma TakeKeeps(p: Protocol, k: nat)
    requires Ok(p) && Enabled(p, Take(k))
    ensures Ok(Apply(p, Take(k)))
  {
    var c := p.consumers[k];
    var c' := TakeFirst(c);
    assert ConsumerOk(c, p.data);
    if c.queue != [] {
      assert c'.queue == c.queue[1..];
      assert Held(c') == Held(c);
      assert forall j :: 0 <= j < |c'.queue| ==> c'.queue[j] == c.queue[j + 1];
      assert Stable(c.queue[0], p.data);
    }
    OneChanges(p, k, c', p.counts, p.producer);
  }

  lemma ExtractKeeps(p: Protocol, k: nat)
    requires Ok(p) && Enabled(p, Extract(k))
    ensures Ok(Apply(p, Extract(k)))
  {
    var c := p.consumers[k];
    var content := p.data[c.busy.value.idx];
    assert ConsumerOk(c, p.data) && Stable(c.busy.value, p.data);
    var c' := c.(read := true, extracted := c.extracted + [content]);
    assert Held(c) == [content] + Held(c');
    assert c.extracted + ([content] + Held(c')) == c.extracted + [content] + Held(c');
    OneChanges(p, k, c', p.counts, p.producer);
  }

  lemma ReleaseKeeps(p: Protocol, k: nat)
    requires Ok(p) && Enabled(p, Release(k))
    ensures Ok(Apply(p, Release(k)))
  {
    var c := p.consumers[k];
    var i := c.busy.value.idx;
    assert ConsumerOk(c, p.data);
    HeldIsClaimed(p.consumers, k, i);
    OneChanges(p, k, Finish(c), p.counts[i := p.counts[i] - 1], p.producer);
  }

  lemma StepKeeps(p: Protocol, l: Label)
    requires Ok(p) && Enabled(p, l)
    ensures Ok(Apply(p, l))
  {
    match l
    case Look => LookKeeps(p);
    case Fill(content, ok) => FillKeeps(p, content, ok);
    case Hand(active) => HandKeeps(p, active);
    case Take(c) => TakeKeeps(p, c);
    case Extract(c) => ExtractKeeps(p, c);
    case Release(c) => ReleaseKeeps(p, c);
  }

  lemma {:induction false} RunKeeps(p: Protocol, steps: seq<Label>, p': Protocol)
    requires Ok(p) && Run(p, steps, p')
    ensures Ok(p')
    decreases |steps|
  {
    if steps == [] {
    } else {
      StepKeeps(p, steps[0]);
      RunKeeps(Apply(p, steps[0]), steps[1..], p');
    }
  }

  lemma {:induction false} NothingHeld(consumers: seq<Consumer>, idx: nat)
    requires forall c :: 0 <= c < |consumers| ==> consumers[c] == FRESH
    ensures Claims(consumers, idx) == 0
  {
    if consumers == [] {
    } else {
      assert forall c :: 0 <= c < |consumers| - 1 ==> consumers[1..][c] == consumers[c + 1];
      NothingHeld(consumers[1..], idx);
    }
  }

  /** Under every interleaving of the threads: the claims of a buffer are its
      places in the queues and in the hands of the ADCs; a buffer about to be
      filled has none; what an ADC extracted, and holds, is what was handed to it,
      in order and unchanged; and its thread is woken exactly while there is
      something for it. */
  lemma ClaimsAreSafe(p: Protocol, steps: seq<Label>, p': Protocol)
    requires Initial(p) && Run(p, steps, p')
    ensures |p'.counts| == |p'.data|
    ensures forall i :: 0 <= i < |p'.counts| ==> p'.counts[i] == Claims(p'.consumers, i)
    ensures p'.producer.Found? ==>
      p'.producer.idx < |p'.counts|
      && forall c :: 0 <= c < |p'.consumers| ==> Holds(p'.consumers[c], p'.producer.idx) == 0
    ensures forall c :: 0 <= c < |p'.consumers| ==>
      var consumer := p'.consumers[c];
      consumer.extracted + Held(consumer) == consumer.delivered
      && (consumer.queue != [] ==> consumer.event)
      && (consumer.busy == None ==> (consumer.event <==> consumer.queue != []))
  {
    forall i | 0 <= i < |p.counts| ensures p.counts[i] == Claims(p.consumers, i) { NothingHeld(p.consumers, i); }
    assert forall c :: 0 <= c < |p.consumers| ==> ConsumerOk(p.consumers[c], p.data);
    RunKeeps(p, steps, p');
    if p'.producer.Found? {
      forall c | 0 <= c < |p'.consumers| ensures Holds(p'.consumers[c], p'.producer.idx) == 0 {
        HeldIsClaimed(p'.consumers, c, p'.producer.idx);
      }
    }
    assert forall c :: 0 <= c < |p'.consumers| ==> ConsumerOk(p'.consumers[c], p'.data);
  }

  // ----------------------------------------------------------------- history

  /** What the steps hand to ADC c, read off the steps alone: what a fill that
      succeeded has read, if the ADC is active when its turn comes. `filled` is what
      is being handed over, if anything, `turn` the ADC whose turn is next. */
  function HandedTo(steps: seq<Label>, c: nat, filled: Option<seq<Byte>>, turn: nat): seq<seq<Byte>>
    decreases |steps|
  {
    if steps == [] then []
    else
      match steps[0]
      case Fill(content, ok) => HandedTo(steps[1..], c, if ok then Some(content) else None, 0)
      case Hand(active) =>
        (if filled != None && turn == c && active then [filled.value] else [])
        + HandedTo(steps[1..], c, filled, turn + 1)
      case _ => HandedTo(steps[1..], c, filled, turn)
  }

  // Everything that was read.
  function GoodReads(steps: seq<Label>): seq<seq<Byte>>
    decreases |steps|
  {
    if steps == [] then []
    else (if steps[0].Fill? && steps[0].ok then [steps[0].content] else []) + GoodReads(steps[1..])
  }

  // Whenever its turn comes the ADC is active.
  predicate AlwaysActive(steps: seq<Label>, c: nat, turn: nat)
    decreases |steps|
  {
    steps == []
    || match steps[0]
       case Fill(_, _) => AlwaysActive(steps[1..], c, 0)
       case Hand(active) => (turn == c ==> active) && AlwaysActive(steps[1..], c, turn + 1)
       case _ => AlwaysActive(steps[1..], c, turn)
  }

  function Filled(p: Protocol): Option<seq<Byte>> {
    if p.producer.Handing? && p.producer.idx < |p.data| then Some(p.data[p.producer.idx]) else None
  }

  function Turn(p: Protocol): nat { if p.producer.Handing? then p.producer.k else 0 }

  // While nothing is being handed over, it does not matter what was.
  lemma {:induction false} BetweenRounds(p: Protocol, steps: seq<Label>, p': Protocol, c: nat,
                                         filled: Option<seq<Byte>>, turn: nat)
    requires Run(p, steps, p') && !p.producer.Handing?
    ensures HandedTo(steps, c, filled, turn) == HandedTo(steps, c, None, 0)
    decreases |steps|
  {
    if steps == [] {
    } else if steps[0].Fill? {
    } else {
      BetweenRounds(Apply(p, steps[0]), steps[1..], p', c, filled, turn);
    }
  }

  lemma {:induction false} DeliversHanded(p: Protocol, steps: seq<Label>, p': Protocol, c: nat)
    requires Run(p, steps, p') && c < |p.consumers|
    ensures |p'.consumers| == |p.consumers|
    ensures p'.consumers[c].delivered == p.consumers[c].delivered + HandedTo(steps, c, Filled(p), Turn(p))
    decreases |steps|
  {
    var delivered := p.consumers[c].delivered;
    if steps == [] {
      NothingAdded(delivered);
    } else {
      var l, p1, rest := steps[0], Apply(p, steps[0]), steps[1..];
      DeliversHanded(p1, rest, p', c);
      NothingAdded(delivered);
      if !p1.producer.Handing? {
        if l.Hand? {
          BetweenRounds(p1, rest, p', c, Filled(p), Turn(p) + 1);
        } else {
          BetweenRounds(p1, rest, p', c, Filled(p), Turn(p));
        }
      }
      if l.Hand? {
        var first := if Filled(p) != None && Turn(p) == c && l.active then [Filled(p).value] else [];
        Regrouped(delivered, first, HandedTo(rest, c, Filled(p), Turn(p) + 1));
      }
    }
  }

  /** What an ADC was handed is what was read, in order, whenever it was active at its
      turn; what a read that failed left in the buffer reaches nobody. */
  lemma DeliveredWasRead(p: Protocol, steps: seq<Label>, p': Protocol, c: nat)
    requires Initial(p) && Run(p, steps, p') && c < |p'.consumers|
    ensures c < |p.consumers| && p'.consumers[c].delivered == HandedTo(steps, c, None, 0)
  {
    SameNumber(p, steps, p');
    DeliversHanded(p, steps, p', c);
    assert [] + HandedTo(steps, c, None, 0) == HandedTo(steps, c, None, 0);
  }

  lemma {:induction false} SameNumber(p: Protocol, steps: seq<Label>, p': Protocol)
    requires Run(p, steps, p')
    ensures |p'.consumers| == |p.consumers|
    decreases |steps|
  {
    if steps == [] {
    } else {
      SameNumber(Apply(p, steps[0]), steps[1..], p');
    }
  }

  // What is being handed over reaches the ADC if its turn is to come.
  function Due(p: Protocol, c: nat): seq<seq<Byte>> {
    if Filled(p) != None && Turn(p) <= c then [Filled(p).value] else []
  }

  // Nothing is handed over after this step, whatever was before.
  lemma RoundIsOver(p: Protocol, steps: seq<Label>, p': Protocol, c: nat, filled: Option<seq<Byte>>, turn: nat)
    requires Run(p, steps, p') && !p.producer.Handing? && AlwaysActive(steps, c, turn)
    ensures HandedTo(steps, c, filled, turn) == HandedTo(steps, c, Filled(p), Turn(p))
    ensures AlwaysActive(steps, c, Turn(p)) && Due(p, c) == []
  {
    AnyTurn(p, steps, p', c, turn);
    BetweenRounds(p, steps, p', c, filled, turn);
  }

  lemma {:induction false} HandedAll(p: Protocol, steps: seq<Label>, p': Protocol, c: nat)
    requires Run(p, steps, p') && c < |p.consumers| && !p'.producer.Handing?
    requires p.producer.Handing? ==> p.producer.idx < |p.data|
    requires AlwaysActive(steps, c, Turn(p))
    ensures HandedTo(steps, c, Filled(p), Turn(p)) == Due(p, c) + GoodReads(steps)
    decreases |steps|
  {
    if steps == [] {
    } else {
      var p1, rest := Apply(p, steps[0]), steps[1..];
      if !p1.producer.Handing? {
        match steps[0]
        case Fill(_, ok) => RoundIsOver(p1, rest, p', c, None, 0);
        case Hand(_) => RoundIsOver(p1, rest, p', c, Filled(p), Turn(p) + 1);
        case _ => RoundIsOver(p1, rest, p', c, Filled(p), Turn(p));
      }
      HandedAll(p1, rest, p', c);
      if steps[0].Hand? { NothingAdded(GoodReads(rest)); }
    }
  }

  lemma {:induction false} AnyTurn(p: Protocol, steps: seq<Label>, p': Protocol, c: nat, turn: nat)
    requires Run(p, steps, p') && !p.producer.Handing? && AlwaysActive(steps, c, turn)
    ensures AlwaysActive(steps, c, 0)
    decreases |steps|
  {
    if steps == [] {
    } else if steps[0].Fill? {
    } else {
      AnyTurn(Apply(p, steps[0]), steps[1..], p', c, turn);
    }
  }

  /** So an ADC that was active at every turn has been handed everything that was
      read, once the buffer has gone round. */
  lemma NoReadIsMissed(p: Protocol, steps: seq<Label>, p': Protocol, c: nat)
    requires Initial(p) && Run(p, steps, p') && c < |p'.consumers|
    requires AlwaysActive(steps, c, 0) && !p'.producer.Handing?
    ensures p'.consumers[c].delivered == GoodReads(steps)
  {
    DeliveredWasRead(p, steps, p', c);
    HandedAll(p, steps, p', c);
    assert [] + GoodReads(steps) == GoodReads(steps);
  }
}
