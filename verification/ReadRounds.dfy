/**
 What a round of a reading peripheral sends, whatever its clients do meanwhile, and
 that a continuous reader goes on with its clients.
 */
module ReadRounds {
  import opened FtState
  import opened Options
  import opened ReadRequests
  import opened Sequences

  // ----------------------------------------------------------------- one round

  // The replies of the thread: all but the confirmations of cancellations.
  function ByThread(sent: seq<Reply>): seq<Reply> {
    if sent == [] then []
    else (if sent[0].Cancelled? then [] else [sent[0]]) + ByThread(sent[1..])
  }

  lemma {:induction false} ByThreadAppend(a: seq<Reply>, b: seq<Reply>)
    ensures ByThread(a + b) == ByThread(a) + ByThread(b)
    decreases |a|
  {
    if a == [] {
      assert a + b == b;
    } else {
      assert (a + b)[0] == a[0] && (a + b)[1..] == a[1..] + b;
      ByThreadAppend(a[1..], b);
      Regrouped(if a[0].Cancelled? then [] else [a[0]], ByThread(a[1..]), ByThread(b));
    }
  }

  // The error that a round reports; none if it sends data.
  function ErrorOf(task: Task): Option<int> {
    if task.Reporting? then Some(task.error) else None
  }

  predicate Answers(error: Option<int>, reply: Reply, id: int) {
    reply == match error case None => Data(id) case Some(e) => Failed(id, e)
  }

  // A request is answered, or if it was cancelled in these steps nobody is.
  predicate AnsweredOrStruck(error: Option<int>, reply: Reply, id: int, steps: seq<Step>) {
    Answers(error, reply, id) || (Answers(error, reply, NOBODY) && Cancel(id) in steps)
  }

  // These replies answer the requests from j on.
  ghost predicate AllAnswered(error: Option<int>, replies: seq<Reply>, ids: seq<int>, j: nat, steps: seq<Step>) {
    j + |replies| <= |ids|
    && forall k :: 0 <= k < |replies| ==> AnsweredOrStruck(error, replies[k], ids[j + k], steps)
  }

  // The steps do not end the round.
  predicate WithinRound(steps: seq<Step>) {
    EndReport !in steps && EndShare !in steps
  }

  // The round goes on, and the requests it has come to are answered.
  ghost predicate Replied(r: Readers, steps: seq<Step>, r': Readers) {
    && r.task != Nothing && r'.task != Nothing && r'.task.Sharing? == r.task.Sharing?
    && ErrorOf(r'.task) == ErrorOf(r.task) && r'.processed == r.processed && r.sent <= r'.sent
    && var replies := ByThread(r'.sent[|r.sent|..]);
      Done(r') == Done(r) + |replies| && AllAnswered(ErrorOf(r.task), replies, r.ids, Done(r), steps)
  }

  // What one step sends comes first.
  lemma SentFirst(a: seq<Reply>, b: seq<Reply>, c: seq<Reply>)
    requires a <= b <= c
    ensures ByThread(c[|a|..]) == ByThread(b[|a|..]) + ByThread(c[|b|..])
  {
    assert c[|a|..] == b[|a|..] + c[|b|..];
    ByThreadAppend(b[|a|..], c[|b|..]);
  }

  // One step of a round.
  lemma StepReplies(r: Readers, s: Step)
    requires Ok(r) && Enabled(r, s) && r.task != Nothing && WithinRound([s])
    ensures Replied(r, [s], Apply(r, s))
    ensures |Apply(r, s).ids| >= |r.ids|
    ensures forall k :: Done(Apply(r, s)) <= k < |r.ids| ==>
      Apply(r, s).ids[k] == r.ids[k] || (Apply(r, s).ids[k] == NOBODY && s == Cancel(r.ids[k]))
  {
    var r' := Apply(r, s);
    assert EndReport in [EndReport] && EndShare in [EndShare];
    assert s in [s];
    match s
    case ReportNext => OneReply(r, r', Failed(r.ids[r.task.j], r.task.error));
    case ShareNext(_) => OneReply(r, r', Data(r.ids[r.task.j]));
    case Trigger(_) => assert r'.sent[|r.sent|..] == [];
    case Cancel(id) =>
      assert r'.sent[|r.sent|..] == [Cancelled(id)] && [Cancelled(id)][1..] == [];
      forall k | 0 <= k < |r.ids| ensures r'.ids[k] == r.ids[k] || (r'.ids[k] == NOBODY && r.ids[k] == id) {
        StrikeAt(r.ids, id, k);
      }
  }

  lemma OneReply(r: Readers, r': Readers, reply: Reply)
    requires r'.sent == r.sent + [reply] && !reply.Cancelled?
    ensures ByThread(r'.sent[|r.sent|..]) == [reply]
  {
    assert r'.sent[|r.sent|..] == [reply] && [reply][1..] == [];
  }

  // The replies of one step and those of the steps behind it.
  lemma JoinAnswers(error: Option<int>, a: seq<Reply>, b: seq<Reply>, ids: seq<int>, ids1: seq<int>, j: nat,
                    s: Step, rest: seq<Step>)
    requires AllAnswered(error, a, ids, j, [s]) && AllAnswered(error, b, ids1, j + |a|, rest)
    requires |ids1| >= |ids| >= j + |a| + |b|
    requires forall k :: j + |a| <= k < |ids| ==> ids1[k] == ids[k] || (ids1[k] == NOBODY && s == Cancel(ids[k]))
    ensures AllAnswered(error, a + b, ids, j, [s] + rest)
  {
    forall k | 0 <= k < |a + b| ensures AnsweredOrStruck(error, (a + b)[k], ids[j + k], [s] + rest) {
      if k < |a| {
        assert AnsweredOrStruck(error, a[k], ids[j + k], [s]);
      } else {
        var m := k - |a|;
        assert AnsweredOrStruck(error, b[m], ids1[j + |a| + m], rest) && j + |a| + m == j + k;
      }
    }
  }

  lemma JoinReplies(r: Readers, s: Step, r1: Readers, rest: seq<Step>, r': Readers)
    requires Replied(r, [s], r1) && Replied(r1, rest, r') && |r1.ids| >= |r.ids| && Done(r') <= |r.ids|
    requires forall k :: Done(r1) <= k < |r.ids| ==>
      r1.ids[k] == r.ids[k] || (r1.ids[k] == NOBODY && s == Cancel(r.ids[k]))
    ensures Replied(r, [s] + rest, r')
  {
    SentFirst(r.sent, r1.sent, r'.sent);
    JoinAnswers(ErrorOf(r.task), ByThread(r1.sent[|r.sent|..]), ByThread(r'.sent[|r1.sent|..]), r.ids, r1.ids,
                Done(r), s, rest);
  }

  lemma {:induction false} RunReplies(r: Readers, steps: seq<Step>, r': Readers)
    requires Ok(r) && Run(r, steps, r') && r.task != Nothing && WithinRound(steps)
    ensures Replied(r, steps, r')
    decreases |steps|
  {
    if steps == [] {
      assert r'.sent[|r.sent|..] == [];
    } else {
      var s, rest := steps[0], steps[1..];
      var r1 := Apply(r, s);
      assert WithinRound([s]) by { assert s in steps; }
      StepReplies(r, s);
      StepOk(r, s);
      RunReplies(r1, rest, r');
      RunOk(r1, rest, r');
      JoinReplies(r, s, r1, rest, r');
      assert steps == [s] + rest;
    }
  }

  /** A finished round of data, whatever clients ask and cancel while it goes on: the
      thread sends the data once for every request that was counted, in order, to its
      client, unless that cancelled it meanwhile. */
  lemma RoundOfData(continuous: bool, steps: seq<Step>, r: Readers, more: seq<Step>, r': Readers)
    requires Run(Initial(continuous), steps, r) && Enabled(r, StartShare)
    requires Run(Apply(r, StartShare), more, r') && WithinRound(more) && Enabled(r', EndShare)
    ensures r.sent <= r'.sent && r.processed <= |r.ids| && Apply(r', EndShare).sent == r'.sent
    ensures var replies := ByThread(r'.sent[|r.sent|..]);
      && |replies| == r.processed
      && forall k :: 0 <= k < r.processed ==>
           replies[k] == Data(r.ids[k]) || (replies[k] == Data(NOBODY) && Cancel(r.ids[k]) in more)
  {
    RunOk(Initial(continuous), steps, r);
    StepOk(r, StartShare);
    var r1 := Apply(r, StartShare);
    RunReplies(r1, more, r');
    RunOk(r1, more, r');
    var replies := ByThread(r'.sent[|r.sent|..]);
    forall k | 0 <= k < |replies| ensures AnsweredOrStruck(ErrorOf(r1.task), replies[k], r.ids[k], more) {
      assert AnsweredOrStruck(ErrorOf(r1.task), replies[k], r1.ids[0 + k], more);
    }
  }

  /** So it is in a round after a failed write: each is told the error of the write. */
  lemma RoundOfFailure(continuous: bool, steps: seq<Step>, r: Readers, error: int, more: seq<Step>, r': Readers)
    requires Run(Initial(continuous), steps, r) && Enabled(r, StartReport(error))
    requires Run(Apply(r, StartReport(error)), more, r') && WithinRound(more) && Enabled(r', EndReport)
    ensures r.sent <= r'.sent && r.processed <= |r.ids| && Apply(r', EndReport).sent == r'.sent
    ensures var replies := ByThread(r'.sent[|r.sent|..]);
      && |replies| == r.processed
      && forall k :: 0 <= k < r.processed ==>
           replies[k] == Failed(r.ids[k], error) || (replies[k] == Failed(NOBODY, error) && Cancel(r.ids[k]) in more)
  {
    RunOk(Initial(continuous), steps, r);
    StepOk(r, StartReport(error));
    var r1 := Apply(r, StartReport(error));
    RunReplies(r1, more, r');
    RunOk(r1, more, r');
    var replies := ByThread(r'.sent[|r.sent|..]);
    forall k | 0 <= k < |replies| ensures AnsweredOrStruck(ErrorOf(r1.task), replies[k], r.ids[k], more) {
      assert AnsweredOrStruck(ErrorOf(r1.task), replies[k], r1.ids[0 + k], more);
    }
  }

  /** A wave is made, and a round follows, if and only if somebody is listed; the round
      is for all who are. When the peripheral is shut down they are told so instead. */
  lemma BeforeOutcome(r: Readers)
    ensures r.state == Active ==> BeforeWrite(r) == r.(processed := |r.ids|, read := r.read || r.ids != [])
    ensures r.state == Inactivating ==>
      var s := BeforeWrite(r);
      && s.state == Inactive && s.ids == [] && s.processed == 0 && !s.read && !s.next
      && r.sent <= s.sent && |s.sent| == |r.sent| + |r.ids|
      && forall k :: 0 <= k < |r.ids| ==> s.sent[|r.sent| + k] == Closing(r.ids[k])
    ensures r.state != Active && r.state != Inactivating ==> BeforeWrite(r) == r
  {}

  /** After a round there is no other until the next wave; single requests have left the
      list, and after data so has everybody who cancelled or could not be reached. */
  lemma EndOutcome(r: Readers)
    requires Ok(r) && r.task != Nothing && Done(r) == r.processed
    ensures var e := Apply(r.(task := Reporting(r.processed, 0)), EndReport);
      var s := Apply(r.(task := Sharing(r.processed)), EndShare);
      var left := if r.continuous then r.ids else r.ids[r.processed..];
      && !e.read && e.processed == 0 && e.task == Nothing && e.state == r.state && e.sent == r.sent
      && !s.read && s.processed == 0 && s.task == Nothing && s.state == r.state && s.sent == r.sent
      && e.ids == left && NOBODY !in s.ids
      && (e.next <==> e.ids != []) && (s.next <==> s.ids != [])
      && forall id :: id != NOBODY ==> Occurrences(s.ids, id) == Occurrences(left, id)
  {
    var left := if r.continuous then r.ids else r.ids[r.processed..];
    forall id | id != NOBODY ensures Occurrences(Live(left), id) == Occurrences(left, id) { LiveOccurrences(left, id); }
    LiveMembers(left, NOBODY);
    if Live(left) != [] {
      LiveMembers(left, Live(left)[0]);
      assert left[0] in r.ids;
    }
    if left != [] { assert r.ids != []; }
  }

  // -------------------------------------------------------- continuous readers

  // The client has not cancelled, is always reached, and its reader stays active.
  predicate StaysClient(r: Readers, steps: seq<Step>, id: int)
    decreases |steps|
  {
    steps == []
    || (Enabled(r, steps[0]) && steps[0] != Cancel(id) && steps[0] != Activate(false)
        && !(steps[0] == ShareNext(false) && r.ids[r.task.j] == id)
        && StaysClient(Apply(r, steps[0]), steps[1..], id))
  }

  lemma StrikeOther(ids: seq<int>, id: int, other: int)
    requires id in ids && id != other
    ensures id in Strike(ids, other)
  {
    var k :| 0 <= k < |ids| && ids[k] == id;
    StrikeAt(ids, other, k);
    assert Strike(ids, other)[k] == id;
  }

  lemma StepStays(r: Readers, s: Step, id: int)
    requires Ok(r) && r.continuous && r.state == Active && id >= 0 && id in r.ids
    requires Enabled(r, s) && s != Cancel(id) && s != Activate(false)
    requires !(s == ShareNext(false) && r.ids[r.task.j] == id)
    ensures var r' := Apply(r, s);
      r'.continuous && r'.state == Active && id in r'.ids
  {
    var k :| 0 <= k < |r.ids| && r.ids[k] == id;
    match s
    case EndShare => LiveMembers(r.ids, id);
    case Cancel(other) => StrikeOther(r.ids, id, other);
    case ShareNext(_) => assert Apply(r, s).ids[k] == id;
    case Trigger(_) => assert Apply(r, s).ids[k] == id;
    case _ =>
  }

  lemma {:induction false} RunStays(r: Readers, steps: seq<Step>, r': Readers, id: int)
    requires Ok(r) && r.continuous && r.state == Active && id >= 0 && id in r.ids
    requires Run(r, steps, r') && StaysClient(r, steps, id)
    ensures Ok(r') && r'.state == Active && id in r'.ids
    decreases |steps|
  {
    if steps == [] {
    } else {
      StepOk(r, steps[0]);
      StepStays(r, steps[0], id);
      RunStays(Apply(r, steps[0]), steps[1..], r', id);
    }
  }

  /** A continuous reader goes on: a client that asked while it was active is listed,
      and the channel is told to go on, as long as it does not cancel, can be reached
      and the reader stays active, however many rounds there are, failed ones too. */
  lemma ContinuousGoesOn(steps: seq<Step>, r: Readers, id: int, more: seq<Step>, r': Readers)
    requires Run(Initial(true), steps, r) && r.state == Active && id >= 0
    requires Run(Apply(r, Trigger(id)), more, r') && StaysClient(Apply(r, Trigger(id)), more, id)
    ensures id in r'.ids && r'.next && r'.state == Active
  {
    RunOk(Initial(true), steps, r);
    StepOk(r, Trigger(id));
    RunStays(Apply(r, Trigger(id)), more, r', id);
  }

  // Clients ask and cancel.
  predicate ByClients(steps: seq<Step>) {
    forall k :: 0 <= k < |steps| ==> steps[k].Trigger? || steps[k].Cancel?
  }

  // A request that is counted stays where it is.
  lemma {:induction false} StaysCounted(r: Readers, steps: seq<Step>, r': Readers, k: nat)
    requires Run(r, steps, r') && ByClients(steps) && k < |r.ids| && r.ids[k] >= 0 && Cancel(r.ids[k]) !in steps
    ensures k < |r'.ids| && r'.ids[k] == r.ids[k] && r'.processed == r.processed && r'.continuous == r.continuous
    decreases |steps|
  {
    if steps == [] {
    } else {
      var s := steps[0];
      if s.Cancel? {
        assert s in steps;
        StrikeAt(r.ids, s.id, k);
      }
      StaysCounted(Apply(r, s), steps[1..], r', k);
    }
  }

  lemma {:induction false} RunAppend(r: Readers, a: seq<Step>, r1: Readers, b: seq<Step>, r2: Readers)
    requires Run(r, a, r1) && Run(r1, b, r2)
    ensures Run(r, a + b, r2)
    decreases |a|
  {
    if a == [] {
      assert a + b == b;
    } else {
      assert (a + b)[0] == a[0] && (a + b)[1..] == a[1..] + b;
      RunAppend(Apply(r, a[0]), a[1..], r1, b, r2);
    }
  }

  // Its place in the list, when the round begins.
  lemma CountedClient(steps: seq<Step>, r: Readers, id: int, a: seq<Step>, r1: Readers)
      returns (k: nat, all: seq<Step>)
    requires Run(Initial(true), steps, r) && r.state == Active && r.task == Nothing && id >= 0 && id in r.ids
    requires Run(Apply(r, Before), a, r1) && ByClients(a) && Cancel(id) !in a
    ensures k < r1.processed <= |r1.ids| && r1.ids[k] == id && Run(Initial(true), all, r1)
    ensures forall m :: 0 <= m < |r1.ids| && m != k ==> r1.ids[m] != id
  {
    k :| 0 <= k < |r.ids| && r.ids[k] == id;
    var r0 := Apply(r, Before);
    RunOk(Initial(true), steps, r);
    StepOk(r, Before);
    StaysCounted(r0, a, r1, k);
    RunOk(r0, a, r1);
    all := steps + ([Before] + a);
    assert ([Before] + a)[1..] == a;
    assert Run(r, [Before] + a, r1);
    RunAppend(Initial(true), steps, r, [Before] + a, r1);
  }

  /** Every round of data tells a client of a continuous reader once: it was listed
      when the wave was made and has not cancelled since. */
  lemma EveryRoundTells(steps: seq<Step>, r: Readers, id: int, a: seq<Step>, r1: Readers, b: seq<Step>, r2: Readers)
    requires Run(Initial(true), steps, r) && r.state == Active && r.task == Nothing && id >= 0 && id in r.ids
    requires Run(Apply(r, Before), a, r1) && ByClients(a) && Cancel(id) !in a && Enabled(r1, StartShare)
    requires Run(Apply(r1, StartShare), b, r2) && WithinRound(b) && Cancel(id) !in b && Enabled(r2, EndShare)
    ensures r1.sent <= r2.sent
    ensures var replies := ByThread(r2.sent[|r1.sent|..]);
      exists k :: 0 <= k < |replies| && replies[k] == Data(id)
        && forall m :: 0 <= m < |replies| && m != k ==> replies[m].id != id
  {
    var k, all := CountedClient(steps, r, id, a, r1);
    RoundOfData(true, all, r1, b, r2);
    assert ByThread(r2.sent[|r1.sent|..])[k] == Data(id);
  }

  /** And every round after a failed write tells it the error once. */
  lemma EveryFailureTells(steps: seq<Step>, r: Readers, id: int, a: seq<Step>, r1: Readers, error: int,
                          b: seq<Step>, r2: Readers)
    requires Run(Initial(true), steps, r) && r.state == Active && r.task == Nothing && id >= 0 && id in r.ids
    requires Run(Apply(r, Before), a, r1) && ByClients(a) && Cancel(id) !in a && Enabled(r1, StartReport(error))
    requires Run(Apply(r1, StartReport(error)), b, r2) && WithinRound(b) && Cancel(id) !in b && Enabled(r2, EndReport)
    ensures r1.sent <= r2.sent
    ensures var replies := ByThread(r2.sent[|r1.sent|..]);
      exists k :: 0 <= k < |replies| && replies[k] == Failed(id, error)
        && forall m :: 0 <= m < |replies| && m != k ==> replies[m].id != id
  {
    var k, all := CountedClient(steps, r, id, a, r1);
    RoundOfFailure(true, all, r1, error, b, r2);
    assert ByThread(r2.sent[|r1.sent|..])[k] == Failed(id, error);
  }
}
