/**
 The requests of a writing peripheral (shift registers and pins keep them alike):
 the ids to be answered, the state of the peripheral, and how far the channel
 has got with what was asked.
 */
module WriteRequests {
  import opened FtState
  import opened Sequences

  const CLOSING: int := -1

  datatype Answer = Answer(id: int, error: int)

  /** `next`: the event that makes the channel go. Of the log, `written` is how
      many requests had been accepted when the last wave was made. */
  datatype Requests = Requests(
    state: State,
    updated: bool,
    changed: bool,
    processed: nat,
    ids: seq<int>,
    next: bool,
    accepted: seq<int>,
    answered: seq<Answer>,
    written: nat)

  function Answers(ids: seq<int>, error: int): (r: seq<Answer>)
    ensures |r| == |ids|
  {
    seq(|ids|, k requires 0 <= k < |ids| => Answer(ids[k], error))
  }

  function SetState(r: Requests, active: bool): Requests {
    r.(state := if active then Active else Inactivating)
  }

  // The device was lost and opened again: the last data has to go out again.
  function Recover(r: Requests): Requests {
    if r.state == Active || r.state == Inactivating then r.(updated := true, next := true) else r
  }

  // Is a wave due before the next write?
  predicate Due(r: Requests) {
    r.state == Active && r.updated
  }

  function PreWrite(r: Requests): Requests {
    if r.state == Inactivating then
      r.(state := Inactive, updated := false, next := false, answered := r.answered + Answers(r.ids, CLOSING),
         ids := [], processed := 0, changed := false)
    else if Due(r) then
      r.(updated := false, changed := true, processed := |r.ids|, next := false, written := |r.accepted|)
    else r
  }

  // The write is over, with this error or none.
  function Answered(r: Requests, error: int): Requests {
    // There are never fewer ids (see Ok).
    var n := if r.processed <= |r.ids| then r.processed else |r.ids|;
    if r.state == Active && r.changed then
      r.(answered := r.answered + Answers(r.ids[..n], error), ids := r.ids[n..], processed := 0, changed := false)
    else r
  }

  function Request(r: Requests, id: int): Requests {
    if r.state == Active then
      r.(updated := true, ids := r.ids + [id], next := true, accepted := r.accepted + [id])
    else r
  }

  // -------------------------------------------------------------- invariant

  function Ids(answers: seq<Answer>): (r: seq<int>)
    ensures |r| == |answers|
  {
    seq(|answers|, k requires 0 <= k < |answers| => answers[k].id)
  }

  ghost predicate Ok(r: Requests) {
    && r.processed <= |r.ids|
    && Ids(r.answered) + r.ids == r.accepted
    && (r.state == Inactive ==> r.ids == [] && !r.updated && !r.changed)
    && r.updated == r.next
    && (if r.changed then |r.answered| + r.processed == r.written else r.processed == 0)
    && r.written <= |r.accepted|
    && (|r.ids| > r.processed ==> r.updated)
  }

  const INITIAL: Requests := Requests(Inactivating, false, false, 0, [], false, [], [], 0)

  lemma IdsAppend(answered: seq<Answer>, ids: seq<int>, rest: seq<int>, error: int)
    ensures Ids(answered + Answers(ids, error)) + rest == Ids(answered) + (ids + rest)
  {
    assert Ids(answered + Answers(ids, error)) == Ids(answered) + ids;
  }

  lemma PreWriteOk(r: Requests)
    requires Ok(r)
    ensures Ok(PreWrite(r))
  {
    if r.state == Inactivating {
      IdsAppend(r.answered, r.ids, [], CLOSING);
      assert r.ids + [] == r.ids;
    }
  }

  lemma AnsweredOk(r: Requests, error: int)
    requires Ok(r)
    ensures Ok(Answered(r, error))
  {
    IdsAppend(r.answered, r.ids[..r.processed], r.ids[r.processed..], error);
    assert r.ids[..r.processed] + r.ids[r.processed..] == r.ids;
  }

  lemma RequestOk(r: Requests, id: int)
    requires Ok(r)
    ensures Ok(Request(r, id))
  {
    assert Ids(r.answered) + (r.ids + [id]) == Ids(r.answered) + r.ids + [id];
  }

  datatype Step = Activate(active: bool) | Lost | Before | After(error: int) | Ask(id: int)

  function Apply(r: Requests, s: Step): Requests {
    match s
    case Activate(active) => SetState(r, active)
    case Lost => Recover(r)
    case Before => PreWrite(r)
    case After(error) => Answered(r, error)
    case Ask(id) => Request(r, id)
  }

  lemma ApplyOk(r: Requests, s: Step)
    requires Ok(r)
    ensures Ok(Apply(r, s))
  {
    match s
    case Activate(_) =>
    case Lost =>
    case Before => PreWriteOk(r);
    case After(error) => AnsweredOk(r, error);
    case Ask(id) => RequestOk(r, id);
  }

  predicate Run(r: Requests, steps: seq<Step>, r': Requests)
    decreases |steps|
  {
    if steps == [] then r == r' else Run(Apply(r, steps[0]), steps[1..], r')
  }

  lemma {:induction false} RunOk(r: Requests, steps: seq<Step>, r': Requests)
    requires Ok(r) && Run(r, steps, r')
    ensures Ok(r')
    decreases |steps|
  {
    if steps == [] {
    } else {
      ApplyOk(r, steps[0]);
      RunOk(Apply(r, steps[0]), steps[1..], r');
    }
  }

  /** Over any sequence of activations, losses of the device, writes with or
      without errors and requests: every accepted request is answered at most
      once and in order, none is left once the peripheral is inactive, and the
      channel is told to go on exactly while a wave is due. */
  lemma EveryRequestOnce(steps: seq<Step>, r: Requests)
    requires Run(INITIAL, steps, r)
    ensures Ids(r.answered) + r.ids == r.accepted
    ensures r.state == Inactive ==> Ids(r.answered) == r.accepted
    ensures r.next <==> r.updated
  {
    assert Ids([]) + [] == [];
    RunOk(INITIAL, steps, r);
    if r.state == Inactive { assert Ids(r.answered) + [] == Ids(r.answered); }
  }

  /** What is answered after a write are requests that were there when the wave
      was made, all of them. */
  lemma AnsweredWereWritten(steps: seq<Step>, r: Requests, error: int)
    requires Run(INITIAL, steps, r) && r.state == Active && r.changed
    ensures r.processed <= |r.ids| && r.written <= |r.accepted|
    ensures |Answered(r, error).answered| == |r.answered| + r.processed && r.answered <= Answered(r, error).answered
    ensures Answered(r, error).ids == r.ids[r.processed..] && !Answered(r, error).changed
    ensures Answered(r, error).processed == 0 && Answered(r, error).state == Active
    ensures Answered(r, error).updated == r.updated && Answered(r, error).next == r.next
    ensures forall k :: 0 <= k < r.processed ==>
      Answered(r, error).answered[|r.answered| + k] == Answer(r.ids[k], error)
    ensures Ids(Answered(r, error).answered) == r.accepted[..r.written]
  {
    assert Ids([]) + [] == [];
    RunOk(INITIAL, steps, r);
    var n := r.processed;
    AnsweredOk(r, error);
    var r' := Answered(r, error);
    assert r'.accepted[..r.written] == (Ids(r'.answered) + r'.ids)[..r.written];
  }

  /** When it is shut down everybody who still waits is told so, once, in order. */
  lemma ClosedAreTold(r: Requests)
    requires r.state == Inactivating
    ensures var s := PreWrite(r);
      s.state == Inactive && s.ids == [] && s.processed == 0 && !s.updated && !s.changed && !s.next
    ensures |PreWrite(r).answered| == |r.answered| + |r.ids| && r.answered <= PreWrite(r).answered
    ensures forall k :: 0 <= k < |r.ids| ==> PreWrite(r).answered[|r.answered| + k] == Answer(r.ids[k], -1)
  {}

  // A write that carried no wave answers nobody.
  lemma NoWaveNoAnswer(r: Requests, error: int)
    requires r.state != Active || !r.changed
    ensures Answered(r, error) == r
  {}

  // What a peripheral was told last, and whether there was a write since.
  function StateAfter(steps: seq<Step>): State {
    if steps == [] then Inactivating
    else
      var before := StateAfter(steps[..|steps| - 1]);
      match steps[|steps| - 1]
      case Activate(active) => if active then Active else Inactivating
      case Before => if before == Inactivating then Inactive else before
      case _ => before
  }

  lemma {:induction false} RunInit(r: Requests, steps: seq<Step>, r': Requests) returns (r1: Requests)
    requires steps != [] && Run(r, steps, r')
    ensures Run(r, steps[..|steps| - 1], r1) && r' == Apply(r1, steps[|steps| - 1])
    decreases |steps|
  {
    if |steps| == 1 {
      r1 := r;
    } else {
      r1 := RunInit(Apply(r, steps[0]), steps[1..], r');
      assert steps[..|steps| - 1][1..] == steps[1..][..|steps| - 2];
    }
  }

  /** A peripheral is active as long as that was what it was told last; told otherwise
      it is inactive from the next write on. */
  lemma {:induction false} StateFollows(steps: seq<Step>, r: Requests)
    requires Run(INITIAL, steps, r)
    ensures r.state == StateAfter(steps)
    decreases |steps|
  {
    if steps == [] {
    } else {
      var r1 := RunInit(INITIAL, steps, r);
      StateFollows(steps[..|steps| - 1], r1);
    }
  }

  // The requests that were made while it was active, in order.
  function AskedInTime(steps: seq<Step>): seq<int> {
    if steps == [] then []
    else
      var before := steps[..|steps| - 1];
      match steps[|steps| - 1]
      case Ask(id) => AskedInTime(before) + if StateAfter(before) == Active then [id] else []
      case _ => AskedInTime(before)
  }

  /** Just these are accepted. */
  lemma {:induction false} AcceptedInTime(steps: seq<Step>, r: Requests)
    requires Run(INITIAL, steps, r)
    ensures r.accepted == AskedInTime(steps)
    decreases |steps|
  {
    if steps == [] {
    } else {
      var before := steps[..|steps| - 1];
      var r1 := RunInit(INITIAL, steps, r);
      StateFollows(before, r1);
      AcceptedInTime(before, r1);
      NothingAdded(r1.accepted);
    }
  }

  /** A request that is accepted gets its wave: as long as it is not part of one, one
      is due, and the next write carries it. */
  lemma WaitersGetAWave(steps: seq<Step>, r: Requests)
    requires Run(INITIAL, steps, r) && |r.ids| > r.processed
    ensures r.updated && r.next
    ensures r.state == Active ==> PreWrite(r).processed == |r.ids| && PreWrite(r).changed
  {
    assert Ids([]) + [] == [];
    RunOk(INITIAL, steps, r);
  }

  lemma {:induction false} StaysUpdated(r: Requests, steps: seq<Step>, r': Requests)
    requires r.updated && r.next && Run(r, steps, r') && Before !in steps
    ensures r'.updated && r'.next
    decreases |steps|
  {
    if steps == [] {
    } else {
      assert steps[0] in steps;
      StaysUpdated(Apply(r, steps[0]), steps[1..], r');
    }
  }

  /** After the device was lost the last data goes out again: unless the peripheral is
      inactive, whatever happens until the next write, if it is active then a wave is
      made for it, and the channel is told to go on. */
  lemma LostIsRedone(r: Requests, steps: seq<Step>, r': Requests)
    requires r.state == Active || r.state == Inactivating
    requires Run(Apply(r, Lost), steps, r') && Before !in steps
    ensures r'.updated && r'.next && (r'.state == Active ==> PreWrite(r').changed)
  {
    StaysUpdated(Apply(r, Lost), steps, r');
  }

  // ------------------------------------------------------------------ class

  class WriteQueue {
    var eState: State
    var bUpdated: bool
    var bChanged: bool
    var nProcessed: nat
    var allIds: seq<int>
    var hNext: bool
    var sent: seq<Answer>
    ghost var accepted: seq<int>
    ghost var written: nat

    ghost function View(): Requests
      reads this
    {
      Requests(eState, bUpdated, bChanged, nProcessed, allIds, hNext, accepted, sent, written)
    }

    constructor ()
      ensures View() == INITIAL
    {
      eState, bUpdated, bChanged, nProcessed, allIds, hNext, sent := Inactivating, false, false, 0, [], false, [];
      accepted, written := [], 0;
    }

    method ChangeState(active: bool)
      modifies this
      ensures View() == SetState(old(View()), active)
    {
      eState := if active then Active else Inactivating;
    }

    method OnRecover()
      modifies this
      ensures View() == Recover(old(View()))
    {
      if eState == Active || eState == Inactivating {
        bUpdated := true;
        hNext := true;
      }
    }

    // Everybody who waits is told that the peripheral closes.
    method Shutdown()
      requires eState == Inactivating
      modifies this
      ensures View() == PreWrite(old(View()))
    {
      eState := Inactive;
      bUpdated := false;
      hNext := false;
      ghost var waiting, before, i := allIds, sent, 0;
      assert waiting[0..] == waiting;
      while |allIds| > 0
        invariant 0 <= i <= |waiting| && allIds == waiting[i..]
        invariant sent == before + Answers(waiting, CLOSING)[..i]
        invariant View() == old(View()).(state := Inactive, updated := false, next := false,
                                           ids := allIds, answered := sent)
        decreases |allIds|
      {
        sent := sent + [Answer(allIds[0], CLOSING)];
        allIds := allIds[1..];
        i := i + 1;
      }
      nProcessed := 0;
      bChanged := false;
    }

    // The wave for what has been asked is being made.
    method BeginWave()
      requires Due(View())
      modifies this
      ensures View() == PreWrite(old(View()))
    {
      bUpdated := false;
      bChanged := true;
      nProcessed := |allIds|;
      hNext := false;
      written := |accepted|;
    }

    // Those who asked for what was written are told the outcome.
    method Respond(error: int)
      requires eState == Active && bChanged && nProcessed <= |allIds|
      modifies this
      ensures View() == Answered(old(View()), error)
    {
      ghost var waiting, before := allIds, sent;
      assert waiting[0..] == waiting;
      var i := 0;
      while i < nProcessed
        invariant 0 <= i <= nProcessed <= |waiting| && allIds == waiting[i..]
        invariant sent == before + Answers(waiting[..nProcessed], error)[..i]
        invariant View() == old(View()).(ids := allIds, answered := sent)
      {
        sent := sent + [Answer(allIds[0], error)];
        allIds := allIds[1..];
        i := i + 1;
      }
      nProcessed := 0;
      bChanged := false;
    }

    method Ask(id: int) returns (ok: bool)
      modifies this
      ensures ok <==> old(eState) == Active
      ensures View() == Request(old(View()), id)
    {
      ok := eState == Active;
      if ok {
        bUpdated := true;
        allIds := allIds + [id];
        hNext := true;
        accepted := accepted + [id];
      }
    }
  }
}
