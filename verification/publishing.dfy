/** When, and how often, a notification is put on the queue. */
module Publishing {
  import opened Basics
  import opened Model
  import opened Repository
  import opened Pipeline
  import opened Frame
  import opened Tokens
  import opened Evidence

  // ---------------------------------------------------------------- rows without messages

  predicate Waiting(row: Row) {
    && (row.status == Pending || row.status == Cancelled)
    && row.retryCount == 0 && row.providerMsgId.None? && row.sentAt.None?
  }

  ghost predicate MarksFollowCopies(s: State) {
    && (forall i | 0 <= i < |s.calls| && At(s, i, Mark) :: HasCopy(s, s.calls[i].pc.todo[0]))
    && (forall j | 0 <= j < |s.scheds| && HasHead(s, j, true) :: HasCopy(s, s.scheds[j].todo[0].id))
  }

  ghost predicate UntouchedInv(s: State) {
    && MarksFollowCopies(s)
    && forall n | n in s.rows && !HasCopy(s, n) :: Waiting(s.rows[n])
  }

  lemma HasCopyPersists(s: State, t: State)
    requires Later(s, t)
    ensures forall n {:trigger HasCopy(t, n)} :: HasCopy(s, n) ==> HasCopy(t, n)
  {
    forall n {:trigger HasCopy(t, n)} | HasCopy(s, n) ensures HasCopy(t, n) {
      var c :| 0 <= c < |s.copies| && Of(s.copies[c].body, n);
      assert CopyLater(s.copies[c], t.copies[c]);
    }
  }

  lemma NewCopyIsThere(s: State, n: Id)
    requires s.copies != [] && Of(s.copies[|s.copies| - 1].body, n)
    ensures HasCopy(s, n)
  {
  }

  lemma UntouchedKeptByWork(cfg: Config, s: State, d: nat, input: Input)
    requires Wf(s) && UntouchedInv(s) && d < |s.deliveries| && s.deliveries[d].copy < |s.copies|
    ensures UntouchedInv(WorkStep(cfg, s, d, input))
  {
    var t, del := WorkStep(cfg, s, d, input), s.deliveries[d];
    WorkKeeps(cfg, s, d, input);
    HasCopyPersists(s, t);
    MoveShape(cfg, s, d, input);
    assert WfDelivery(s, del);
    if del.body.Note? { assert Of(s.copies[del.copy].body, del.body.id); }
    assert MarksFollowCopies(t) by {
      assert forall i | 0 <= i < |t.calls| && At(t, i, Mark) :: At(s, i, Mark);
      assert forall j | 0 <= j < |t.scheds| && HasHead(t, j, true) :: HasHead(s, j, true);
    }
    forall n | n in t.rows && !HasCopy(t, n) ensures Waiting(t.rows[n]) {
      assert !HasCopy(s, n) && Waiting(s.rows[n]);
    }
  }

  /** A call waits to mark its head only if it did before, or has just published it. */
  lemma MarkComesFromPublish(s: State, e: Event, i: nat)
    requires At(ApiStep(s, e), i, Mark)
    ensures i < |s.calls| && (At(s, i, Mark) || s.calls[i].pc.Publishing?)
    ensures var t := ApiStep(s, e);
            || t.calls[i] == s.calls[i]
            || (e == ApiPublish(i, true) && At(s, i, Send) && t.calls[i].pc.todo == s.calls[i].pc.todo
                && |t.copies| == |s.copies| + 1 && Of(t.copies[|s.copies|].body, s.calls[i].pc.todo[0]))
  {
  }

  lemma ApiMarks(s: State, e: Event)
    requires Wf(s) && MarksFollowCopies(s)
    ensures MarksFollowCopies(ApiStep(s, e))
  {
    var t := ApiStep(s, e);
    ApiKeeps(s, e);
    HasCopyPersists(s, t);
    forall i | 0 <= i < |t.calls| && At(t, i, Mark) ensures HasCopy(t, t.calls[i].pc.todo[0]) {
      MarkComesFromPublish(s, e, i);
      if t.calls[i] == s.calls[i] {
        assert t.calls[i].pc.todo[0] in s.rows;
        assert At(s, i, Mark);
      } else {
        NewCopyIsThere(t, s.calls[i].pc.todo[0]);
      }
    }
    SchedMarksStay(s, t);
  }

  /** What a scheduler waits to mark had its message before. */
  lemma SchedMarksStay(s: State, t: State)
    requires Wf(s) && MarksFollowCopies(s) && Later(s, t) && t.scheds == s.scheds
    ensures forall j | 0 <= j < |t.scheds| && HasHead(t, j, true) :: HasCopy(t, t.scheds[j].todo[0].id)
  {
    HasCopyPersists(s, t);
    forall j | 0 <= j < |t.scheds| && HasHead(t, j, true) ensures HasCopy(t, t.scheds[j].todo[0].id) {
      assert s.scheds[j].todo[0].id in s.rows;
      assert HasHead(s, j, true);
    }
  }

  /** An API call changes no row but the one it marks. */
  lemma ApiRows(s: State, e: Event)
    ensures var t := ApiStep(s, e);
            && (forall n | n in t.rows && n !in s.rows :: IsNew(t.rows[n]))
            && (forall n | n in s.rows && !(e.ApiMark? && At(s, e.call, Mark) && s.calls[e.call].pc.todo[0] == n) ::
                  n in t.rows && t.rows[n] == s.rows[n])
  {
    if e.Commit? && e.call < |s.calls| { CommitAddsNewRows(s, e.call, e.answer); }
  }

  lemma UntouchedKeptByApi(s: State, e: Event)
    requires Wf(s) && UntouchedInv(s)
    ensures UntouchedInv(ApiStep(s, e))
  {
    var t := ApiStep(s, e);
    ApiKeeps(s, e);
    HasCopyPersists(s, t);
    ApiMarks(s, e);
    ApiRows(s, e);
    forall n | n in t.rows && !HasCopy(t, n) ensures Waiting(t.rows[n]) {
      if n in s.rows { assert !HasCopy(s, n) && Waiting(s.rows[n]); }
    }
  }

  lemma UntouchedKeptByScheduler(cfg: Config, s: State, e: Event)
    requires Wf(s) && UntouchedInv(s)
    ensures UntouchedInv(SchedStep(cfg, s, e))
  {
    var t := SchedStep(cfg, s, e);
    SchedKeeps(cfg, s, e);
    HasCopyPersists(s, t);
    if e.SchedPublish? && HasHead(s, e.sched, false) && e.ok { NewCopyIsThere(t, s.scheds[e.sched].todo[0].id); }
    assert forall i | 0 <= i < |t.calls| && At(t, i, Mark) :: At(s, i, Mark);
    forall j | 0 <= j < |t.scheds| && HasHead(t, j, true) ensures HasCopy(t, t.scheds[j].todo[0].id) {
      if t.scheds[j] == s.scheds[j] { assert HasHead(s, j, true); }
    }
    forall n | n in t.rows && !HasCopy(t, n) ensures Waiting(t.rows[n]) {
      assert !HasCopy(s, n) && Waiting(s.rows[n]);
    }
  }

  lemma UntouchedKeptOtherwise(cfg: Config, s: State, e: Event)
    requires Wf(s) && UntouchedInv(s) && (e.Tick? || e.Cancel? || e.Inject? || e.Deliver? || e.Lose?)
    ensures UntouchedInv(Step(cfg, s, e))
  {
    var t := Step(cfg, s, e);
    StepKeeps(cfg, s, e);
    HasCopyPersists(s, t);
    assert t.calls == s.calls && t.scheds == s.scheds;
    forall i | 0 <= i < |t.calls| && At(t, i, Mark) ensures HasCopy(t, t.calls[i].pc.todo[0]) {
      assert s.calls[i].pc.todo[0] in s.rows;
      assert At(s, i, Mark);
    }
    SchedMarksStay(s, t);
    forall n | n in t.rows && !HasCopy(t, n) ensures Waiting(t.rows[n]) {
      assert !HasCopy(s, n) && Waiting(s.rows[n]);
    }
  }

  predicate IsApi(e: Event) {
    e.Begin? || e.Lookup? || e.Commit? || e.Decide? || e.ApiPublish? || e.ApiMark?
  }

  lemma UntouchedKept(cfg: Config, s: State, e: Event)
    requires Wf(s) && UntouchedInv(s)
    ensures UntouchedInv(Step(cfg, s, e))
  {
    if e.Work? {
      if e.delivery < |s.deliveries| {
        assert WfDelivery(s, s.deliveries[e.delivery]);
        UntouchedKeptByWork(cfg, s, e.delivery, e.input);
      }
    } else if e.Poll? || e.SchedPublish? || e.SchedMark? {
      UntouchedKeptByScheduler(cfg, s, e);
    } else if IsApi(e) {
      UntouchedKeptByApi(s, e);
    } else {
      UntouchedKeptOtherwise(cfg, s, e);
    }
  }

  lemma {:induction false} UntouchedAlways(cfg: Config, schedulers: nat, es: seq<Event>)
    ensures UntouchedInv(After(cfg, schedulers, es))
  {
    if es != [] {
      AfterWf(cfg, schedulers, es[..|es| - 1]);
      UntouchedAlways(cfg, schedulers, es[..|es| - 1]);
      UntouchedKept(cfg, After(cfg, schedulers, es[..|es| - 1]), es[|es| - 1]);
    }
  }

  lemma {:induction false} NoneIsZero(copies: seq<Copy>, n: Id)
    ensures Total(copies, CopyOf(n)) == 0 <==> forall c | 0 <= c < |copies| :: !Of(copies[c].body, n)
  {
    if copies != [] {
      var k := |copies| - 1;
      NoneIsZero(copies[..k], n);
      assert forall c | 0 <= c < k :: copies[..k][c] == copies[c];
    }
  }

  /** Pending, and scheduled for no particular time or for one that has come. */
  predicate Ripe(row: Row, now: Time) {
    row.status == Pending && (row.scheduledAt.Some? ==> row.scheduledAt.value <= now)
  }

  /** The due rows that are not younger than `n`, itself included. */
  function AsOld(t: Table, now: Time, n: Id): set<Id>
    requires n in t
  {
    set id | id in t && Ripe(t[id], now) && t[id].createdAt <= t[n].createdAt
  }

  /** A poll takes a due row unless its limit is used up by others that are not younger. */
  lemma PickedInTurn(t: Table, now: Time, limit: nat, picked: seq<Id>, n: Id)
    requires n in t && Ripe(t[n], now) && PendingAnswer(t, now, limit, picked) && |AsOld(t, now, n)| <= limit
    ensures n in picked
  {
    if n !in picked {
      assert Members(picked) <= AsOld(t, now, n) - {n};
      DistinctSize(picked);
      SubsetSize(Members(picked), AsOld(t, now, n) - {n});
      assert false;
    }
  }

  /** A notification that never reached the queue is pending or cancelled, was never tried, and, unless
      cancelled or not yet due, is there for every scheduler to pick: a poll takes it as soon as the due
      rows that are not younger, itself included, are no more than the poll's limit. */
  lemma NothingIsForgotten(cfg: Config, schedulers: nat, es: seq<Event>, n: Id, limit: nat, picked: seq<Id>)
    requires var s := After(cfg, schedulers, es); n in s.rows && Published(s, n) == 0
    ensures var s := After(cfg, schedulers, es);
            && Waiting(s.rows[n])
            && (Ripe(s.rows[n], s.now) && PendingAnswer(s.rows, s.now, limit, picked) && |AsOld(s.rows, s.now, n)| <= limit ==>
                  n in picked)
  {
    var s := After(cfg, schedulers, es);
    UntouchedAlways(cfg, schedulers, es);
    NoneIsZero(s.copies, n);
    if PendingAnswer(s.rows, s.now, limit, picked) && Ripe(s.rows[n], s.now) && |AsOld(s.rows, s.now, n)| <= limit {
      PickedInTurn(s.rows, s.now, limit, picked, n);
    }
  }
}
