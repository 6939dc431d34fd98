/**
 The requests of a reading peripheral (shift registers and pins keep them alike):
 who wants what is read, once or continuously.  The channel's thread reports to
 them one at a time, and clients may ask or cancel in between.
 */
module ReadRequests {
  import opened FtState

  // A cancelled request, or one whose client is gone.
  const NOBODY: int := -1

  datatype Reply = Data(id: int) | Failed(id: int, error: int) | Closing(id: int) | Cancelled(id: int)

  // What the thread of the channel is doing, and for which request next.
  datatype Task = Nothing | Reporting(j: nat, error: int) | Sharing(j: nat)

  datatype Readers = Readers(
    continuous: bool,
    state: State,
    ids: seq<int>,
    processed: nat,
    read: bool,
    next: bool,
    task: Task,
    asked: seq<int>,
    sent: seq<Reply>)

  datatype Step =
    | Activate(active: bool)
    | Before
    | StartReport(error: int)
    | ReportNext
    | EndReport
    | StartShare
    | ShareNext(ok: bool)
    | EndShare
    | Trigger(id: int)
    | Cancel(id: int)

  function ClosingAll(ids: seq<int>): (r: seq<Reply>)
    ensures |r| == |ids|
  {
    seq(|ids|, k requires 0 <= k < |ids| => Closing(ids[k]))
  }

  function Live(ids: seq<int>): seq<int> {
    if ids == [] then [] else (if ids[0] == NOBODY then [] else [ids[0]]) + Live(ids[1..])
  }

  // Requests that are done with leave the list, unless they are continuous.
  function Rest(r: Readers): seq<int> {
    if r.continuous || r.processed > |r.ids| then r.ids else r.ids[r.processed..]
  }

  function SetState(r: Readers, active: bool): Readers {
    r.(state := if active then Active else Inactivating)
  }

  function BeforeWrite(r: Readers): Readers {
    if r.state == Inactivating then
      r.(state := Inactive, sent := r.sent + ClosingAll(r.ids), ids := [], next := false, processed := 0, read := false)
    else if r.state == Active then r.(processed := |r.ids|, read := r.read || r.ids != [])
    else r
  }

  function Reported(r: Readers): Readers {
    r.(read := false, ids := Rest(r), next := r.next && Rest(r) != [], processed := 0, task := Nothing)
  }

  function Shared(r: Readers): Readers {
    r.(read := false, ids := Live(Rest(r)), next := r.next && Live(Rest(r)) != [], processed := 0, task := Nothing)
  }

  function Ask(r: Readers, id: int): Readers {
    if r.state == Active && (!r.continuous || id !in r.ids) then
      r.(ids := r.ids + [id], next := true, asked := r.asked + [id])
    else r
  }

  // The first request of a client is struck out.
  function Strike(ids: seq<int>, id: int): (r: seq<int>)
    ensures |r| == |ids|
  {
    if ids == [] then [] else if ids[0] == id then [NOBODY] + ids[1..] else [ids[0]] + Strike(ids[1..], id)
  }

  function Withdraw(r: Readers, id: int): Readers {
    r.(ids := Strike(r.ids, id), sent := r.sent + [Cancelled(id)])
  }

  /** The thread of the channel does one thing at a time; clients ask and cancel
      whenever they like. */
  predicate Enabled(r: Readers, s: Step) {
    match s
    case Activate(_) => r.task == Nothing
    case Before => r.task == Nothing
    case StartReport(error) => r.task == Nothing && r.state == Active && r.read && error != 0
    case ReportNext => r.task.Reporting? && r.task.j < r.processed && r.task.j < |r.ids|
    case EndReport => r.task.Reporting? && r.task.j >= r.processed
    case StartShare => r.task == Nothing && r.state == Active && r.read
    case ShareNext(_) => r.task.Sharing? && r.task.j < r.processed && r.task.j < |r.ids|
    case EndShare => r.task.Sharing? && r.task.j >= r.processed
    case Trigger(id) => id >= 0
    case Cancel(id) => id >= 0
  }

  function Apply(r: Readers, s: Step): Readers
    requires Enabled(r, s)
  {
    match s
    case Activate(active) => SetState(r, active)
    case Before => BeforeWrite(r)
    case StartReport(error) => r.(task := Reporting(0, error))
    case ReportNext =>
      r.(sent := r.sent + [Failed(r.ids[r.task.j], r.task.error)], task := Reporting(r.task.j + 1, r.task.error))
    case EndReport => Reported(r)
    case StartShare => r.(task := Sharing(0))
    case ShareNext(ok) =>
      r.(sent := r.sent + [Data(r.ids[r.task.j])], ids := if ok then r.ids else r.ids[r.task.j := NOBODY],
         task := Sharing(r.task.j + 1))
    case EndShare => Shared(r)
    case Trigger(id) => Ask(r, id)
    case Cancel(id) => Withdraw(r, id)
  }

  predicate Run(r: Readers, steps: seq<Step>, r': Readers)
    decreases |steps|
  {
    if steps == [] then r == r' else Enabled(r, steps[0]) && Run(Apply(r, steps[0]), steps[1..], r')
  }

  function Initial(continuous: bool): Readers {
    Readers(continuous, Inactivating, [], 0, false, false, Nothing, [], [])
  }

  // -------------------------------------------------------------- invariant

  predicate DistinctLive(ids: seq<int>) {
    forall i, j :: 0 <= i < j < |ids| && ids[i] == ids[j] ==> ids[i] == NOBODY
  }

  // How far the thread has got in its round.
  function Done(r: Readers): nat {
    match r.task
    case Nothing => 0
    case Reporting(j, _) => j
    case Sharing(j) => j
  }

  ghost predicate Ok(r: Readers) {
    && Done(r) <= r.processed <= |r.ids|
    && (r.continuous ==> DistinctLive(r.ids))
    && (r.state == Inactive ==> r.ids == [])
    && (r.ids != [] <==> r.next)
    && (r.task != Nothing ==> r.state == Active && r.read)
  }

  lemma {:induction false} LiveMembers(ids: seq<int>, id: int)
    ensures id in Live(ids) <==> id in ids && id != NOBODY
  {
    if ids == [] {
    } else {
      LiveMembers(ids[1..], id);
    }
  }

  // What a loop that erases in place has still to look at.
  lemma LiveNext(ids: seq<int>, k: nat)
    requires k < |ids|
    ensures ids[k] == NOBODY ==>
      (ids[..k] + ids[k + 1..])[..k] + Live((ids[..k] + ids[k + 1..])[k..]) == ids[..k] + Live(ids[k..])
    ensures ids[k] != NOBODY ==> ids[..k + 1] + Live(ids[k + 1..]) == ids[..k] + Live(ids[k..])
  {
    assert ids[k..][0] == ids[k] && ids[k..][1..] == ids[k + 1..];
    if ids[k] == NOBODY {
      var erased := ids[..k] + ids[k + 1..];
      assert erased[..k] == ids[..k] && erased[k..] == ids[k + 1..];
      assert [] + Live(ids[k + 1..]) == Live(ids[k + 1..]);
    } else {
      assert ids[..k + 1] == ids[..k] + [ids[k]];
      assert ids[..k] + ([ids[k]] + Live(ids[k + 1..])) == ids[..k + 1] + Live(ids[k + 1..]);
    }
  }

  lemma {:induction false} LiveDistinct(ids: seq<int>)
    requires DistinctLive(ids)
    ensures DistinctLive(Live(ids))
  {
    if ids == [] {
    } else {
      var rest := ids[1..];
      assert forall i :: 0 <= i < |rest| ==> rest[i] == ids[i + 1];
      LiveDistinct(rest);
      LiveMembers(rest, ids[0]);
    }
  }

  lemma {:induction false} StrikeAt(ids: seq<int>, id: int, i: nat)
    requires i < |ids|
    ensures Strike(ids, id)[i] == if ids[i] == id && id !in ids[..i] then NOBODY else ids[i]
  {
    if i == 0 {
    } else {
      assert ids[..i] == [ids[0]] + ids[1..][..i - 1];
      if ids[0] != id { StrikeAt(ids[1..], id, i - 1); }
    }
  }

  lemma StrikeFirst(ids: seq<int>, id: int, k: nat)
    requires k <= |ids| && (forall i :: 0 <= i < k ==> ids[i] != id) && (k < |ids| ==> ids[k] == id)
    ensures Strike(ids, id) == if k < |ids| then ids[k := NOBODY] else ids
  {
    forall i | 0 <= i < |ids|
      ensures Strike(ids, id)[i] == if i == k then NOBODY else ids[i]
    {
      StrikeAt(ids, id, i);
      if i > k { assert ids[..i][k] == id; }
    }
  }

  lemma StrikeDistinct(ids: seq<int>, id: int)
    requires DistinctLive(ids)
    ensures DistinctLive(Strike(ids, id))
  {
    forall i, j | 0 <= i < j < |ids| && Strike(ids, id)[i] == Strike(ids, id)[j]
      ensures Strike(ids, id)[i] == NOBODY
    {
      StrikeAt(ids, id, i);
      StrikeAt(ids, id, j);
    }
  }

  lemma EndsOk(r: Readers)
    requires Ok(r)
    ensures Ok(Reported(r)) && Ok(Shared(r))
  {
    if r.continuous { LiveDistinct(r.ids); }
    if Live(Rest(r)) != [] {
      LiveMembers(Rest(r), Live(Rest(r))[0]);
      assert Live(Rest(r))[0] in Rest(r);
    }
  }

  lemma AskOk(r: Readers, id: int)
    requires Ok(r) && id >= 0
    ensures Ok(Ask(r, id))
  {}

  lemma WithdrawOk(r: Readers, id: int)
    requires Ok(r)
    ensures Ok(Withdraw(r, id))
  {
    if r.continuous { StrikeDistinct(r.ids, id); }
  }

  lemma ShareOk(r: Readers, ok: bool)
    requires Ok(r) && Enabled(r, ShareNext(ok))
    ensures Ok(Apply(r, ShareNext(ok)))
  {}

  lemma StepOk(r: Readers, s: Step)
    requires Ok(r) && Enabled(r, s)
    ensures Ok(Apply(r, s))
  {
    match s
    case EndReport => EndsOk(r);
    case EndShare => EndsOk(r);
    case ShareNext(ok) => ShareOk(r, ok);
    case Trigger(id) => AskOk(r, id);
    case Cancel(id) => WithdrawOk(r, id);
    case _ =>
  }

  lemma {:induction false} RunOk(r: Readers, steps: seq<Step>, r': Readers)
    requires Ok(r) && Run(r, steps, r')
    ensures Ok(r') && r'.continuous == r.continuous
    decreases |steps|
  {
    if steps == [] {
    } else {
      StepOk(r, steps[0]);
      RunOk(Apply(r, steps[0]), steps[1..], r');
    }
  }

  /** Whatever happens: what is being processed never exceeds the list; a
      continuous reader has no client twice; nobody waits once the peripheral is
      inactive; and the channel is told to go on exactly while somebody is listed. */
  lemma ListIsSound(continuous: bool, steps: seq<Step>, r: Readers)
    requires Run(Initial(continuous), steps, r)
    ensures r.processed <= |r.ids|
    ensures continuous ==> DistinctLive(r.ids)
    ensures r.state == Inactive ==> r.ids == []
    ensures r.ids != [] <==> r.next
  {
    RunOk(Initial(continuous), steps, r);
  }

  // ---------------------------------------------------------- cancellation

  // What has been sent since is not for this client, but for confirmations that
  // it has cancelled.
  predicate NothingFor(before: seq<Reply>, after: seq<Reply>, id: int) {
    before <= after && forall k :: |before| <= k < |after| ==> after[k].id != id || after[k].Cancelled?
  }

  // None of the client's requests will be served (again).
  predicate Out(r: Readers, id: int) {
    forall k :: (if r.continuous then 0 else Done(r)) <= k < |r.ids| ==> r.ids[k] != id
  }

  lemma WithdrawLeavesOut(r: Readers, other: int, id: int)
    requires id >= 0 && Out(r, id)
    ensures Out(Withdraw(r, other), id) && NothingFor(r.sent, Withdraw(r, other).sent, id)
  {
    forall i | 0 <= i < |r.ids| ensures Strike(r.ids, other)[i] in [r.ids[i], NOBODY] { StrikeAt(r.ids, other, i); }
  }

  lemma EndsLeaveOut(r: Readers, id: int)
    requires Ok(r) && Done(r) == r.processed && id >= 0 && Out(r, id)
    ensures Out(Reported(r), id) && Out(Shared(r), id)
  {
    assert id !in Rest(r);
    LiveMembers(Rest(r), id);
  }

  lemma StepLeavesOut(r: Readers, s: Step, id: int)
    requires Ok(r) && Enabled(r, s) && id >= 0 && Out(r, id) && s != Trigger(id)
    ensures Out(Apply(r, s), id) && NothingFor(r.sent, Apply(r, s).sent, id)
  {
    match s
    case EndReport => EndsLeaveOut(r, id);
    case EndShare => EndsLeaveOut(r, id);
    case Cancel(other) => WithdrawLeavesOut(r, other, id);
    case _ =>
  }

  lemma {:induction false} RunLeavesOut(r: Readers, steps: seq<Step>, r': Readers, id: int)
    requires Ok(r) && Run(r, steps, r') && id >= 0 && Out(r, id) && Trigger(id) !in steps
    ensures NothingFor(r.sent, r'.sent, id)
    decreases |steps|
  {
    if steps == [] {
    } else {
      var r1 := Apply(r, steps[0]);
      StepLeavesOut(r, steps[0], id);
      StepOk(r, steps[0]);
      RunLeavesOut(r1, steps[1..], r', id);
      forall k | |r.sent| <= k < |r'.sent| ensures r'.sent[k].id != id || r'.sent[k].Cancelled? {
        if k < |r1.sent| { assert r'.sent[k] == r1.sent[k]; }
      }
    }
  }

  // A client of a continuous reader is in the list no more than once.
  lemma CancelledIsOut(r: Readers, id: int)
    requires Ok(r) && r.continuous && id >= 0
    ensures Out(Withdraw(r, id), id)
  {
    CancelLeaves(r.ids, id);
    if id in Strike(r.ids, id) {
      TwiceInList(r.ids, id);
      assert false;
    }
  }

  /** Once a client of a continuous reader has cancelled, nothing but
      confirmations goes to it until it asks again, whatever it got before. */
  lemma SilentAfterCancel(steps: seq<Step>, r: Readers, id: int, more: seq<Step>, r': Readers)
    requires Run(Initial(true), steps, r) && id >= 0
    requires Run(Withdraw(r, id), more, r') && Trigger(id) !in more
    ensures NothingFor(r.sent, r'.sent, id)
  {
    RunOk(Initial(true), steps, r);
    CancelledIsOut(r, id);
    StepOk(r, Cancel(id));
    RunLeavesOut(Withdraw(r, id), more, r', id);
    assert r'.sent[|r.sent|] == Cancelled(id);
  }

  // Whatever happens, nothing more goes to this client until it asks.
  ghost predicate Silent(r: Readers, id: int) {
    forall more, r' :: Run(r, more, r') && Trigger(id) !in more ==> NothingFor(r.sent, r'.sent, id)
  }

  // The client has been sent something since.
  predicate Told(before: seq<Reply>, after: seq<Reply>, id: int) {
    exists k :: |before| <= k < |after| && after[k].id == id && !after[k].Cancelled?
  }

  // It will be, at the latest when the peripheral is shut down.
  lemma ToldByClosing(r: Readers, id: int) returns (more: seq<Step>, r': Readers)
    requires Ok(r) && r.task == Nothing && id in r.ids
    ensures Run(r, more, r') && Trigger(id) !in more && Told(r.sent, r'.sent, id)
  {
    more := [Activate(false), Before];
    var r1 := Apply(r, more[0]);
    r' := Apply(r1, more[1]);
    assert more[1..] == [Before] && [Before][1..] == [];
    assert Run(r', [], r') && Run(r1, [Before], r');
    var k :| 0 <= k < |r.ids| && r.ids[k] == id;
    assert r'.sent[|r.sent| + k] == Closing(id);
  }

  // What the thread does next in its round, or the end of it.
  function NextInRound(r: Readers): Step
    requires r.task != Nothing
  {
    if Done(r) < r.processed then (if r.task.Reporting? then ReportNext else ShareNext(true))
    else if r.task.Reporting? then EndReport else EndShare
  }

  lemma {:induction false} StillTold(r: Readers, id: int) returns (more: seq<Step>, r': Readers)
    requires Ok(r) && !r.continuous && id >= 0 && !Out(r, id)
    ensures Run(r, more, r') && Trigger(id) !in more && Told(r.sent, r'.sent, id)
    decreases if r.task == Nothing then 0 else 1 + r.processed - Done(r)
  {
    if r.task == Nothing {
      more, r' := ToldByClosing(r, id);
    } else {
      var s := NextInRound(r);
      var r1 := Apply(r, s);
      StepOk(r, s);
      if Done(r) < r.processed && r.ids[Done(r)] == id {
        more, r' := [s], r1;
        assert r'.sent[|r.sent|].id == id;
      } else {
        LiveMembers(Rest(r), id);
        var rest;
        rest, r' := StillTold(r1, id);
        more := [s] + rest;
        assert more[1..] == rest;
      }
    }
  }

  /** A client of any other reader may have more requests: cancelling silences it
      exactly when none of them, but the one that is struck out, is still to be
      served. */
  lemma SilencedExactly(continuous: bool, steps: seq<Step>, r: Readers, id: int)
    requires Run(Initial(continuous), steps, r) && id >= 0
    ensures Silent(Withdraw(r, id), id) <==> continuous || Out(Withdraw(r, id), id)
  {
    var r1 := Withdraw(r, id);
    RunOk(Initial(continuous), steps, r);
    StepOk(r, Cancel(id));
    if continuous { CancelledIsOut(r, id); }
    if Out(r1, id) {
      forall more, r' | Run(r1, more, r') && Trigger(id) !in more ensures NothingFor(r1.sent, r'.sent, id) {
        RunLeavesOut(r1, more, r', id);
      }
    } else {
      var more, r' := StillTold(r1, id);
      assert !NothingFor(r1.sent, r'.sent, id);
    }
  }

  function Occurrences(ids: seq<int>, id: int): nat {
    if ids == [] then 0 else (if ids[0] == id then 1 else 0) + Occurrences(ids[1..], id)
  }

  lemma {:induction false} Occurs(ids: seq<int>, id: int)
    ensures Occurrences(ids, id) > 0 <==> id in ids
  {
    if ids == [] {
    } else {
      Occurs(ids[1..], id);
    }
  }

  lemma {:induction false} TwiceInList(ids: seq<int>, id: int)
    requires Occurrences(ids, id) > 1
    ensures exists i, j :: 0 <= i < j < |ids| && ids[i] == ids[j] == id
  {
    if ids[0] == id {
      Occurs(ids[1..], id);
      var j :| 0 <= j < |ids[1..]| && ids[1..][j] == id;
      assert ids[0] == ids[j + 1] == id;
    } else {
      TwiceInList(ids[1..], id);
      var i, j :| 0 <= i < j < |ids[1..]| && ids[1..][i] == ids[1..][j] == id;
      assert ids[i + 1] == ids[j + 1] == id;
    }
  }

  /** Cancelling strikes out one request; a client that may ask more than once is
      out of the list exactly when it had asked no more than once. */
  lemma {:induction false} CancelLeaves(ids: seq<int>, id: int)
    requires id != NOBODY
    ensures Occurrences(Strike(ids, id), id) == if id in ids then Occurrences(ids, id) - 1 else 0
    ensures id in Strike(ids, id) <==> Occurrences(ids, id) > 1
  {
    if ids == [] {
    } else {
      var rest := ids[1..];
      Occurs(rest, id);
      if ids[0] == id {
        assert Strike(ids, id)[1..] == rest;
      } else {
        CancelLeaves(rest, id);
        assert Strike(ids, id)[1..] == Strike(rest, id);
      }
      Occurs(Strike(ids, id), id);
      Occurs(ids, id);
    }
  }

  // ------------------------------------------- at most once, and none is dropped

  // How many replies to the client confirm a cancellation, or do not.
  function Replies(sent: seq<Reply>, id: int, cancelled: bool): nat {
    if sent == [] then 0
    else Replies(sent[..|sent| - 1], id, cancelled)
         + if sent[|sent| - 1].id == id && sent[|sent| - 1].Cancelled? == cancelled then 1 else 0
  }

  // Replies that settle a request.
  function Settled(sent: seq<Reply>, id: int): nat { Replies(sent, id, false) }

  function Confirmed(sent: seq<Reply>, id: int): nat { Replies(sent, id, true) }

  // The requests that the thread has still to settle.
  function Pending(r: Readers, id: int): nat {
    if Done(r) <= |r.ids| then Occurrences(r.ids[Done(r)..], id) else 0
  }

  lemma {:induction false} OccurrencesAppend(a: seq<int>, b: seq<int>, id: int)
    ensures Occurrences(a + b, id) == Occurrences(a, id) + Occurrences(b, id)
    decreases |a|
  {
    if a == [] {
      assert a + b == b;
    } else {
      assert (a + b)[0] == a[0] && (a + b)[1..] == a[1..] + b;
      OccurrencesAppend(a[1..], b, id);
    }
  }

  lemma {:induction false} RepliesAppend(a: seq<Reply>, b: seq<Reply>, id: int, cancelled: bool)
    ensures Replies(a + b, id, cancelled) == Replies(a, id, cancelled) + Replies(b, id, cancelled)
    decreases |b|
  {
    if b == [] {
      assert a + b == a;
    } else {
      var n := |b| - 1;
      assert (a + b)[..|a + b| - 1] == a + b[..n] && (a + b)[|a + b| - 1] == b[n];
      RepliesAppend(a, b[..n], id, cancelled);
    }
  }

  lemma BothAppend(a: seq<Reply>, b: seq<Reply>, id: int)
    ensures Settled(a + b, id) == Settled(a, id) + Settled(b, id)
    ensures Confirmed(a + b, id) == Confirmed(a, id) + Confirmed(b, id)
  {
    RepliesAppend(a, b, id, false);
    RepliesAppend(a, b, id, true);
  }

  lemma OneMoreReply(sent: seq<Reply>, reply: Reply, id: int)
    ensures Settled(sent + [reply], id)
         == Settled(sent, id) + if reply.id == id && !reply.Cancelled? then 1 else 0
    ensures Confirmed(sent + [reply], id)
         == Confirmed(sent, id) + if reply.id == id && reply.Cancelled? then 1 else 0
  {
    BothAppend(sent, [reply], id);
    assert [reply][..0] == [];
  }

  lemma {:induction false} SettledClosing(ids: seq<int>, id: int)
    ensures Settled(ClosingAll(ids), id) == Occurrences(ids, id) && Confirmed(ClosingAll(ids), id) == 0
    decreases |ids|
  {
    if ids == [] {
    } else {
      var n := |ids| - 1;
      assert ids == ids[..n] + [ids[n]] && ClosingAll(ids)[..n] == ClosingAll(ids[..n]);
      SettledClosing(ids[..n], id);
      OccurrencesAppend(ids[..n], [ids[n]], id);
      assert [ids[n]][1..] == [];
    }
  }

  lemma {:induction false} LiveOccurrences(ids: seq<int>, id: int)
    requires id != NOBODY
    ensures Occurrences(Live(ids), id) == Occurrences(ids, id)
  {
    if ids == [] {
    } else {
      LiveOccurrences(ids[1..], id);
      if ids[0] == NOBODY {
        assert Live(ids) == [] + Live(ids[1..]) == Live(ids[1..]);
      } else {
        assert Live(ids) == [ids[0]] + Live(ids[1..]) && Live(ids)[1..] == Live(ids[1..]);
      }
    }
  }

  // Striking takes no more than one request away.
  lemma {:induction false} OneFewerAfterStrike(ids: seq<int>, j: nat, id: int, other: int)
    requires j <= |ids| && id != NOBODY
    ensures var left, were := Occurrences(Strike(ids, other)[j..], id), Occurrences(ids[j..], id);
      left <= were <= left + if id == other then 1 else 0
    decreases |ids|
  {
    if ids == [] {
    } else {
      var struck := Strike(ids, other);
      if ids[0] == other {
        if j > 0 { assert struck[j..] == ids[j..]; } else { assert struck[1..] == ids[1..]; }
      } else if j > 0 {
        assert struck[j..] == Strike(ids[1..], other)[j - 1..] && ids[j..] == ids[1..][j - 1..];
        OneFewerAfterStrike(ids[1..], j - 1, id, other);
      } else {
        OneFewerAfterStrike(ids[1..], 0, id, other);
        assert Strike(ids[1..], other)[0..] == Strike(ids[1..], other) && ids[1..][0..] == ids[1..];
        assert struck[0..] == struck && ids[0..] == ids && struck[1..] == Strike(ids[1..], other);
      }
    }
  }

  // Whatever was asked for is settled or pending, or was cancelled; and nothing else is.
  ghost predicate Accounted(r: Readers, id: int) {
    Settled(r.sent, id) + Pending(r, id) <= Occurrences(r.asked, id)
    <= Settled(r.sent, id) + Pending(r, id) + Confirmed(r.sent, id)
  }

  // The thread settles the request it has come to.
  lemma SettlesOne(r: Readers, reply: Reply, ids: seq<int>, task: Task, id: int)
    requires Ok(r) && Done(r) < r.processed && id != NOBODY && Accounted(r, id)
    requires reply.id == r.ids[Done(r)] && !reply.Cancelled?
    requires |ids| == |r.ids| && ids[Done(r) + 1..] == r.ids[Done(r) + 1..]
    requires !task.Nothing? && task.j == Done(r) + 1
    ensures Accounted(r.(sent := r.sent + [reply], ids := ids, task := task), id)
  {
    var j := Done(r);
    OneMoreReply(r.sent, reply, id);
    assert r.ids[j..] == [r.ids[j]] + r.ids[j + 1..];
    OccurrencesAppend([r.ids[j]], r.ids[j + 1..], id);
    assert [r.ids[j]][1..] == [];
  }

  lemma EndsAccounted(r: Readers, id: int)
    requires Ok(r) && Done(r) == r.processed && !r.continuous && id >= 0 && Accounted(r, id)
    ensures Accounted(Reported(r), id) && Accounted(Shared(r), id)
  {
    LiveOccurrences(Rest(r), id);
    assert Live(Rest(r))[0..] == Live(Rest(r)) && Rest(r)[0..] == Rest(r);
  }

  lemma BeforeAccounted(r: Readers, id: int)
    requires id >= 0 && Accounted(r, id) && r.task == Nothing
    ensures Accounted(BeforeWrite(r), id)
  {
    BothAppend(r.sent, ClosingAll(r.ids), id);
    SettledClosing(r.ids, id);
    assert r.ids[0..] == r.ids;
  }

  lemma AskAccounted(r: Readers, id: int, other: int)
    requires Ok(r) && Accounted(r, id)
    ensures Accounted(Ask(r, other), id)
  {
    var ids := r.ids + [other];
    assert ids[Done(r)..] == r.ids[Done(r)..] + [other];
    OccurrencesAppend(r.ids[Done(r)..], [other], id);
    OccurrencesAppend(r.asked, [other], id);
  }

  lemma WithdrawAccounted(r: Readers, id: int, other: int)
    requires Ok(r) && id >= 0 && Accounted(r, id)
    ensures Accounted(Withdraw(r, other), id)
  {
    OneMoreReply(r.sent, Cancelled(other), id);
    OneFewerAfterStrike(r.ids, Done(r), id, other);
  }

  lemma StepAccounted(r: Readers, s: Step, id: int)
    requires Ok(r) && Enabled(r, s) && !r.continuous && id >= 0 && Accounted(r, id)
    ensures Accounted(Apply(r, s), id)
  {
    var r' := Apply(r, s);
    match s {
      case ReportNext => SettlesOne(r, r'.sent[|r.sent|], r'.ids, r'.task, id);
      case ShareNext(_) => SettlesOne(r, r'.sent[|r.sent|], r'.ids, r'.task, id);
      case EndReport => EndsAccounted(r, id);
      case EndShare => EndsAccounted(r, id);
      case Before => BeforeAccounted(r, id);
      case Trigger(other) => AskAccounted(r, id, other);
      case Cancel(other) => WithdrawAccounted(r, id, other);
      case _ =>
    }
  }

  lemma {:induction false} RunAccounted(r: Readers, steps: seq<Step>, r': Readers, id: int)
    requires Ok(r) && Run(r, steps, r') && !r.continuous && id >= 0 && Accounted(r, id)
    ensures Accounted(r', id)
    decreases |steps|
  {
    if steps == [] {
    } else {
      StepOk(r, steps[0]);
      StepAccounted(r, steps[0], id);
      RunAccounted(Apply(r, steps[0]), steps[1..], r', id);
    }
  }

  /** A client of a reader that is not continuous is told at most once for each
      time it asked, however reads fail and whatever is cancelled. */
  lemma ToldAtMostOnce(steps: seq<Step>, r: Readers, id: int)
    requires Run(Initial(false), steps, r) && id >= 0
    ensures Settled(r.sent, id) <= Occurrences(r.asked, id)
  {
    RunAccounted(Initial(false), steps, r, id);
  }

  /** And no request is dropped in silence: there are as many answers,
      confirmations of cancellations and requests still pending as it asked times,
      at least; so once nobody waits every time it asked was answered or cancelled. */
  lemma NoneIsDropped(steps: seq<Step>, r: Readers, id: int)
    requires Run(Initial(false), steps, r) && id >= 0
    ensures Occurrences(r.asked, id) <= Settled(r.sent, id) + Pending(r, id) + Confirmed(r.sent, id)
    ensures r.ids == [] ==> Occurrences(r.asked, id) <= Settled(r.sent, id) + Confirmed(r.sent, id)
  {
    RunAccounted(Initial(false), steps, r, id);
  }
}
