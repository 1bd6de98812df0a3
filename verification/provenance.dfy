/** Where the columns of a row and the fields of a message come from, in every run. */
module Provenance {
  import opened Basics
  import opened Model
  import opened Repository
  import opened Pipeline
  import opened Frame
  import opened Tokens
  import opened Evidence
  import opened Idempotency
  import opened PublishOnce

  // ---------------------------------------------------------------- messages

  predicate Matches(t: Table, body: Body) {
    body.Note? ==> body.id in t && body.retry <= t[body.id].retryCount
  }

  /** A message is on the queue of its row's channel and carries a retry count that the row had: none
      if a creation call published it. */
  predicate OwnMessage(t: Table, copy: Copy) {
    && Matches(t, copy.body)
    && (copy.body.Note? ==> copy.channel == t[copy.body.id].channel && (copy.source.Api? ==> copy.body.retry == 0))
  }

  ghost predicate MessagesInv(s: State) {
    && (forall c | 0 <= c < |s.copies| :: OwnMessage(s.rows, s.copies[c]))
    && (forall j, k | 0 <= j < |s.scheds| && 0 <= k < |s.scheds[j].todo| :: Matches(s.rows, s.scheds[j].todo[k]))
  }

  lemma MatchesLater(t: Table, u: Table, body: Body)
    requires Matches(t, body) && RowsLater(t, u)
    ensures Matches(u, body)
  {
    if body.Note? { assert RowLater(t[body.id], u[body.id]); }
  }

  lemma SnapshotMatches(cfg: Config, s: State, e: Event, j: nat, k: nat)
    requires Wf(s) && MessagesInv(s)
    requires var t := Step(cfg, s, e); j < |t.scheds| && k < |t.scheds[j].todo|
    ensures var t := Step(cfg, s, e); Matches(t.rows, t.scheds[j].todo[k])
  {
    var t := Step(cfg, s, e);
    StepKeeps(cfg, s, e);
    SchedOrigin(cfg, s, e, j);
    if e.Poll? && e.sched == j && t.scheds[j] != s.scheds[j] {
      assert DuePending(s.rows, s.now, e.picked[k]);
    } else {
      assert t.scheds[j].todo[k] in s.scheds[j].todo;
    }
    MatchesLater(s.rows, t.rows, t.scheds[j].todo[k]);
  }

  lemma MessagesKept(cfg: Config, s: State, e: Event)
    requires Wf(s) && MessagesInv(s)
    ensures MessagesInv(Step(cfg, s, e))
  {
    var t := Step(cfg, s, e);
    StepKeeps(cfg, s, e);
    CopyOrigin(cfg, s, e);
    forall c | 0 <= c < |t.copies| ensures OwnMessage(t.rows, t.copies[c]) {
      if c < |s.copies| {
        assert OwnMessage(s.rows, s.copies[c]) && CopyLater(s.copies[c], t.copies[c]);
      } else if e.SchedPublish? {
        assert Matches(s.rows, s.scheds[e.sched].todo[0]);
      }
      if t.copies[c].body.Note? { assert RowLater(s.rows[t.copies[c].body.id], t.rows[t.copies[c].body.id]); }
    }
    forall j, k | 0 <= j < |t.scheds| && 0 <= k < |t.scheds[j].todo| ensures Matches(t.rows, t.scheds[j].todo[k]) {
      SnapshotMatches(cfg, s, e, j, k);
    }
  }

  /** In every run each message of a notification is on the queue of its row's channel, and carries a
      retry count that the row had. */
  lemma {:induction false} MessagesMatchRows(cfg: Config, schedulers: nat, es: seq<Event>)
    ensures MessagesInv(After(cfg, schedulers, es))
  {
    if es != [] {
      AfterWf(cfg, schedulers, es[..|es| - 1]);
      MessagesMatchRows(cfg, schedulers, es[..|es| - 1]);
      MessagesKept(cfg, After(cfg, schedulers, es[..|es| - 1]), es[|es| - 1]);
    }
  }

  // ---------------------------------------------------------------- cancelled rows

  lemma OnlyCancelCancels(cfg: Config, s: State, e: Event, n: Id)
    requires Wf(s) && n in Step(cfg, s, e).rows && Step(cfg, s, e).rows[n].status == Cancelled
    ensures (n in s.rows && s.rows[n].status == Cancelled) || e == Cancel(n)
  {
    if n !in s.rows {
      RowsAppear(cfg, s, e, n);
    } else if ByPublisher(e) {
      PublisherColumns(cfg, s, e, n);
    } else if e.Work? && e.delivery < |s.deliveries| {
      assert WfDelivery(s, s.deliveries[e.delivery]);
      MoveColumns(cfg, s, e.delivery, e.input, n);
    }
  }

  /** Nothing but a cancellation makes a row cancelled. */
  lemma {:induction false} CancelledByCancel(cfg: Config, schedulers: nat, es: seq<Event>, n: Id)
    requires n in After(cfg, schedulers, es).rows && After(cfg, schedulers, es).rows[n].status == Cancelled
    ensures Cancel(n) in es
  {
    if es != [] {
      var front := es[..|es| - 1];
      AfterWf(cfg, schedulers, front);
      OnlyCancelCancels(cfg, After(cfg, schedulers, front), es[|es| - 1], n);
      if es[|es| - 1] != Cancel(n) { CancelledByCancel(cfg, schedulers, front, n); }
    }
  }

  // ---------------------------------------------------------------- errors

  predicate Errs(outcome: Outcome, error: string) { !outcome.Delivered? && outcome.error == error }

  /** Some call of the provider for `n` failed with this error. */
  ghost predicate FailedAs(s: State, n: Id, error: string) {
    exists j :: 0 <= j < |s.sends| && s.sends[j].id == n && Errs(s.sends[j].outcome, error)
  }

  /** Some call of the provider for `n` failed for good. */
  ghost predicate GivenUp(cfg: Config, s: State, n: Id) {
    exists j :: 0 <= j < |s.sends| && s.sends[j].id == n && Final(cfg, s.sends[j])
  }

  ghost predicate PcErrs(s: State, body: Body, pc: Pc) {
    body.Note? ==>
      && (pc.AtCount? ==> !pc.outcome.Delivered? && FailedAs(s, body.id, pc.outcome.error))
      && (pc.AtMarkFailed? || pc.AtMarkQueued? ==> FailedAs(s, body.id, pc.error))
  }

  ghost predicate RowErrs(cfg: Config, s: State, n: Id, row: Row) {
    && (row.lastError.Some? ==> FailedAs(s, n, row.lastError.value))
    && (row.status == Failed ==> row.lastError.Some? && GivenUp(cfg, s, n))
    && (row.status == Sent ==> row.providerMsgId.Some?)
  }

  ghost predicate ErrorsInv(cfg: Config, s: State) {
    && (forall d | 0 <= d < |s.deliveries| :: PcErrs(s, s.deliveries[d].body, s.deliveries[d].pc))
    && (forall n | n in s.rows :: RowErrs(cfg, s, n, s.rows[n]))
  }

  lemma ErrorsPersist(cfg: Config, s: State, t: State)
    requires s.sends <= t.sends
    ensures forall n, error {:trigger FailedAs(t, n, error)} :: FailedAs(s, n, error) ==> FailedAs(t, n, error)
    ensures forall n {:trigger GivenUp(cfg, t, n)} :: GivenUp(cfg, s, n) ==> GivenUp(cfg, t, n)
  {
    forall n, error {:trigger FailedAs(t, n, error)} | FailedAs(s, n, error) ensures FailedAs(t, n, error) {
      var j :| 0 <= j < |s.sends| && s.sends[j].id == n && Errs(s.sends[j].outcome, error);
      assert t.sends[j] == s.sends[j];
    }
    forall n {:trigger GivenUp(cfg, t, n)} | GivenUp(cfg, s, n) ensures GivenUp(cfg, t, n) {
      var j :| 0 <= j < |s.sends| && s.sends[j].id == n && Final(cfg, s.sends[j]);
      assert t.sends[j] == s.sends[j];
    }
  }

  /** A worker that is about to mark its row failed has had the failure that lets it. */
  lemma GaveUpIsGivenUp(cfg: Config, s: State, d: nat)
    requires EvidenceInv(cfg, s) && d < |s.deliveries| && s.deliveries[d].pc.AtMarkFailed? && s.deliveries[d].body.Note?
    ensures GivenUp(cfg, s, s.deliveries[d].body.id)
  {
    assert PcEvidence(cfg, s, d, s.deliveries[d].body, s.deliveries[d].pc);
    var j :| 0 <= j < |s.sends| && s.sends[j].delivery == d && Final(cfg, s.sends[j]);
  }

  lemma PcErrsKept(cfg: Config, s: State, d: nat, input: Input)
    requires d < |s.deliveries| && s.deliveries[d].copy < |s.copies| && WfDelivery(s, s.deliveries[d])
    requires PcErrs(s, s.deliveries[d].body, s.deliveries[d].pc)
    ensures PcErrs(WorkStep(cfg, s, d, input), s.deliveries[d].body, WorkMove(cfg, s, d, input).pc)
  {
    var (m, t) := (WorkMove(cfg, s, d, input), WorkStep(cfg, s, d, input));
    OneSend(cfg, s, d, input);
    if s.deliveries[d].pc.AtSend? {
      if m.sent != [] { assert t.sends[|s.sends|] == m.sent[0]; }
    } else {
      assert t.sends == s.sends;
    }
  }

  /** Which columns a worker's step writes, and with what. */
  lemma MoveColumns(cfg: Config, s: State, d: nat, input: Input, n: Id)
    requires d < |s.deliveries| && s.deliveries[d].copy < |s.copies| && n in s.rows
    ensures var (m, pc) := (WorkMove(cfg, s, d, input), s.deliveries[d].pc);
            && n in m.rows
            && var (a, b) := (s.rows[n], m.rows[n]);
               || (b.status == a.status && b.lastError == a.lastError && b.providerMsgId == a.providerMsgId)
               || (Of(s.deliveries[d].body, n) && input == Plain(true)
                   && match pc
                      case AtMarkSending(_) => b.status == Sending && b.lastError == None && b.providerMsgId == a.providerMsgId
                      case AtMarkSent(msg) => b.status == Sent && b.lastError == None && b.providerMsgId == Some(msg)
                      case AtCount(_, out) =>
                        b.status == a.status && !out.Delivered? && b.lastError == Some(out.error) && b.providerMsgId == a.providerMsgId
                      case AtMarkFailed(error) =>
                        b.status == Failed && b.lastError == Some(error) && b.providerMsgId == a.providerMsgId
                      case AtMarkQueued(_, error) =>
                        b.status == Queued && b.lastError == Some(error) && b.providerMsgId == a.providerMsgId
                      case _ => false)
  {
  }

  lemma ErrorsKeptByWork(cfg: Config, s: State, d: nat, input: Input)
    requires Wf(s) && EvidenceInv(cfg, s) && ErrorsInv(cfg, s) && d < |s.deliveries|
    ensures ErrorsInv(cfg, Step(cfg, s, Work(d, input)))
  {
    assert WfDelivery(s, s.deliveries[d]);
    var t := WorkStep(cfg, s, d, input);
    MoveShape(cfg, s, d, input);
    ErrorsPersist(cfg, s, t);
    PcErrsKept(cfg, s, d, input);
    forall k | 0 <= k < |t.deliveries| ensures PcErrs(t, t.deliveries[k].body, t.deliveries[k].pc) {
      if k != d { assert PcErrs(s, s.deliveries[k].body, s.deliveries[k].pc); }
    }
    forall n | n in t.rows ensures RowErrs(cfg, t, n, t.rows[n]) {
      assert RowErrs(cfg, s, n, s.rows[n]) && PcErrs(s, s.deliveries[d].body, s.deliveries[d].pc);
      MoveColumns(cfg, s, d, input, n);
      if s.deliveries[d].pc.AtMarkFailed? && s.deliveries[d].body.Note? { GaveUpIsGivenUp(cfg, s, d); }
    }
  }

  /** A publisher or a cancellation leaves the columns of a row, or queues it, or cancels it. */
  lemma PublisherColumns(cfg: Config, s: State, e: Event, n: Id)
    requires ByPublisher(e) && n in s.rows
    ensures var t := Step(cfg, s, e);
            && n in t.rows
            && var (a, b) := (s.rows[n], t.rows[n]);
               || b == a
               || (b == a.(status := Queued, lastError := None) && Marks(s, e, n))
               || (b == a.(status := Cancelled) && e == Cancel(n) && Cancellable(s.rows, n))
  {
    if e.Commit? && e.call < |s.calls| { CommitAddsNewRows(s, e.call, e.answer); }
  }

  /** The event is a publisher's mark of `n` that works. */
  predicate Marks(s: State, e: Event, n: Id) {
    || (e.ApiMark? && e.ok && At(s, e.call, Mark) && s.calls[e.call].pc.todo[0] == n)
    || (e.SchedMark? && e.ok && HasHead(s, e.sched, true) && s.scheds[e.sched].todo[0].id == n)
  }

  lemma ErrorsKeptByPublisher(cfg: Config, s: State, e: Event)
    requires Wf(s) && ErrorsInv(cfg, s) && ByPublisher(e)
    ensures ErrorsInv(cfg, Step(cfg, s, e))
  {
    var t := Step(cfg, s, e);
    PublisherSteps(cfg, s, e);
    ErrorsPersist(cfg, s, t);
    forall d | 0 <= d < |t.deliveries| ensures PcErrs(t, t.deliveries[d].body, t.deliveries[d].pc) {
      assert PcErrs(s, s.deliveries[d].body, s.deliveries[d].pc);
    }
    forall n | n in t.rows ensures RowErrs(cfg, t, n, t.rows[n]) {
      if n in s.rows {
        assert RowErrs(cfg, s, n, s.rows[n]);
        PublisherColumns(cfg, s, e, n);
      }
    }
  }

  lemma ErrorsKeptByBroker(cfg: Config, s: State, e: Event)
    requires ErrorsInv(cfg, s) && (e.Deliver? || e.Lose?)
    ensures ErrorsInv(cfg, BrokerStep(s, e))
  {
    var t := BrokerStep(s, e);
    ErrorsPersist(cfg, s, t);
    forall d | 0 <= d < |t.deliveries| ensures PcErrs(t, t.deliveries[d].body, t.deliveries[d].pc) {
      if d < |s.deliveries| { assert PcErrs(s, s.deliveries[d].body, s.deliveries[d].pc); }
    }
    forall n | n in t.rows ensures RowErrs(cfg, t, n, t.rows[n]) { assert RowErrs(cfg, s, n, s.rows[n]); }
  }

  lemma {:induction false} ErrorsAlways(cfg: Config, schedulers: nat, es: seq<Event>)
    ensures ErrorsInv(cfg, After(cfg, schedulers, es))
  {
    if es != [] {
      var (front, e) := (es[..|es| - 1], es[|es| - 1]);
      var s := After(cfg, schedulers, front);
      AfterWf(cfg, schedulers, front);
      EvidenceAlways(cfg, schedulers, front);
      ErrorsAlways(cfg, schedulers, front);
      if ByPublisher(e) {
        ErrorsKeptByPublisher(cfg, s, e);
      } else if e.Work? {
        if e.delivery < |s.deliveries| { ErrorsKeptByWork(cfg, s, e.delivery, e.input); }
      } else {
        ErrorsKeptByBroker(cfg, s, e);
      }
    }
  }

  /** In every run, whatever fails and however many messages there are: a cancelled row was cancelled;
      a failed one has an error, and some call of the provider for it failed for good; a sent one has a
      message id; and last_error is the error of some call for that row. */
  lemma EveryColumnHasACause(cfg: Config, schedulers: nat, es: seq<Event>, n: Id)
    requires n in After(cfg, schedulers, es).rows
    ensures var s := After(cfg, schedulers, es);
            var row := s.rows[n];
            && (row.status == Cancelled ==> Cancel(n) in es)
            && (row.status == Failed ==> row.lastError.Some? && GivenUp(cfg, s, n))
            && (row.status == Sent ==> row.providerMsgId.Some?)
            && (row.lastError.Some? ==> FailedAs(s, n, row.lastError.value))
  {
    ErrorsAlways(cfg, schedulers, es);
    assert RowErrs(cfg, After(cfg, schedulers, es), n, After(cfg, schedulers, es).rows[n]);
    if After(cfg, schedulers, es).rows[n].status == Cancelled { CancelledByCancel(cfg, schedulers, es, n); }
  }

  // ---------------------------------------------------------------- new rows

  /** A row appears by a commit, dated at that moment, pending and untried. */
  lemma RowsAppear(cfg: Config, s: State, e: Event, n: Id)
    requires Wf(s) && n !in s.rows && n in Step(cfg, s, e).rows
    ensures e.Commit? && IsNew(Step(cfg, s, e).rows[n]) && Step(cfg, s, e).rows[n].createdAt == s.now
  {
    if e.Commit? && e.call < |s.calls| {
      CommitAddsNewRows(s, e.call, e.answer);
      NewRowsDated(s, e.call, e.answer, n);
    }
    if e.Work? && e.delivery < |s.deliveries| {
      assert WfDelivery(s, s.deliveries[e.delivery]);
      MoveShape(cfg, s, e.delivery, e.input);
    }
  }

  lemma NewRowsDated(s: State, i: nat, answer: Commitment, n: Id)
    requires i < |s.calls| && n !in s.rows && n in CommitStep(s, i, answer).rows
    ensures CommitStep(s, i, answer).rows[n].createdAt == s.now
  {
    var (call, ds) := (s.calls[i], CallDrafts(s, i));
    InsertAllAdds(s.rows, ds);
    var k :| 0 <= k < |ds| && ds[k].id == n;
    var q := DraftOrigin(call.items, call.answers, Owner(i, s.calls[i]), s.now, k);
  }

  /** A row that was not there before has a creation time since then. */
  lemma {:induction false} NewRowsAreDated(cfg: Config, s: State, es: seq<Event>, n: Id)
    requires Wf(s) && n !in s.rows && n in Run(cfg, s, es).rows
    ensures s.now <= Run(cfg, s, es).rows[n].createdAt <= Run(cfg, s, es).now
  {
    if es != [] {
      var (front, e) := (es[..|es| - 1], es[|es| - 1]);
      var u := Run(cfg, s, front);
      RunKeeps(cfg, s, front);
      StepKeeps(cfg, u, e);
      if n in u.rows {
        NewRowsAreDated(cfg, s, front, n);
        assert RowLater(u.rows[n], Run(cfg, s, es).rows[n]);
      } else {
        RowsAppear(cfg, u, e, n);
      }
    }
  }
}
