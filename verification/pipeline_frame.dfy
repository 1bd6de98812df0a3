/** What every step of the pipeline keeps, and what only ever grows along a run. */
module Frame {
  import opened Basics
  import opened Model
  import opened Repository
  import opened Pipeline

  // ---------------------------------------------------------------- well-formed states

  ghost predicate WfCopies(s: State) {
    forall c {:trigger s.copies[c]} | 0 <= c < |s.copies| ::
      && (s.copies[c].body.Note? ==> s.copies[c].body.id in s.rows)
      && (s.copies[c].place.Unacked? ==>
            s.copies[c].place.delivery < |s.deliveries| && s.deliveries[s.copies[c].place.delivery].copy == c)
  }

  ghost predicate WfDelivery(s: State, del: Delivery) {
    && del.copy < |s.copies|
    && del.body == s.copies[del.copy].body
    && (del.body.Undecodable? ==> del.pc.AtDecode? || del.pc.AtNackDead? || del.pc.AtEnd?)
    && (del.pc.AtCount? ==> !del.pc.outcome.Delivered?)
  }

  ghost predicate WfDeliveries(s: State) {
    forall d {:trigger s.deliveries[d]} | 0 <= d < |s.deliveries| :: WfDelivery(s, s.deliveries[d])
  }

  ghost predicate WfPublishers(s: State) {
    && (forall i, k | 0 <= i < |s.calls| && s.calls[i].pc.Publishing? && 0 <= k < |s.calls[i].pc.todo| ::
          s.calls[i].pc.todo[k] in s.rows)
    && (forall j, k | 0 <= j < |s.scheds| && 0 <= k < |s.scheds[j].todo| ::
          s.scheds[j].todo[k].Note? && s.scheds[j].todo[k].id in s.rows)
  }

  ghost predicate Wf(s: State) {
    WfCopies(s) && WfDeliveries(s) && WfPublishers(s)
  }

  // ---------------------------------------------------------------- what only grows

  /** Identity fields never change, the retry count and the delivery evidence never go back,
      and nothing becomes pending again. */
  predicate RowLater(a: Row, b: Row) {
    && b.batch == a.batch && b.key == a.key && b.channel == a.channel
    && b.scheduledAt == a.scheduledAt && b.createdAt == a.createdAt
    && a.retryCount <= b.retryCount
    && (b.status == Pending ==> a.status == Pending)
    && (a.providerMsgId.Some? ==> b.providerMsgId.Some?)
    && (a.sentAt.Some? ==> b.sentAt.Some?)
  }

  /** A copy keeps its body, its queue and its publisher; once settled it stays settled. */
  predicate CopyLater(a: Copy, b: Copy) {
    && b.body == a.body && b.channel == a.channel && b.source == a.source && b.at == a.at
    && a.lost <= b.lost && a.fails <= b.fails && a.waited <= b.waited && (a.cut ==> b.cut)
    && (a.place == Acked || a.place == Dead ==> b.place == a.place)
  }

  ghost predicate RowsLater(t: Table, u: Table) {
    forall id | id in t :: id in u && RowLater(t[id], u[id])
  }

  ghost predicate Later(s: State, t: State) {
    && s.now <= t.now
    && s.nextId <= t.nextId
    && RowsLater(s.rows, t.rows)
    && |s.copies| <= |t.copies|
    && (forall c | 0 <= c < |s.copies| :: CopyLater(s.copies[c], t.copies[c]))
    && |s.deliveries| <= |t.deliveries|
    && (forall d | 0 <= d < |s.deliveries| ::
          t.deliveries[d].copy == s.deliveries[d].copy && t.deliveries[d].body == s.deliveries[d].body)
    && s.sends <= t.sends
    && |s.calls| <= |t.calls|
    && |s.scheds| == |t.scheds|
    && s.readFailed <= t.readFailed && s.writeFailed <= t.writeFailed
    && s.markFailed <= t.markFailed && s.overwritten <= t.overwritten
  }

  lemma LaterTransitive(s: State, t: State, u: State)
    requires Later(s, t) && Later(t, u)
    ensures Later(s, u)
  {
    assert forall id | id in s.rows :: id in t.rows && id in u.rows && RowLater(s.rows[id], u.rows[id]);
    forall c | 0 <= c < |s.copies| ensures CopyLater(s.copies[c], u.copies[c]) {
      assert CopyLater(s.copies[c], t.copies[c]) && CopyLater(t.copies[c], u.copies[c]);
    }
    forall d | 0 <= d < |s.deliveries|
      ensures u.deliveries[d].copy == s.deliveries[d].copy && u.deliveries[d].body == s.deliveries[d].body
    {
      assert t.deliveries[d].copy == s.deliveries[d].copy;
    }
  }

  // ---------------------------------------------------------------- inserts

  lemma {:induction false} DraftsAreFresh(items: seq<Item>, answers: seq<Answer>, batch: Option<nat>, now: Time)
    requires |answers| <= |items|
    ensures var ds := Drafts(items, answers, batch, now);
            && |FreshIds(answers)| == |ds|
            && forall k | 0 <= k < |ds| :: ds[k].id == FreshIds(answers)[k] && ds[k].row.status == Pending
  {
    if answers != [] {
      DraftsAreFresh(items, answers[..|answers| - 1], batch, now);
    }
  }

  lemma InsertLater(t: Table, ds: seq<Draft>)
    requires InsertAll(t, ds).Some?
    ensures RowsLater(t, InsertAll(t, ds).value)
  {
    InsertAllAdds(t, ds);
  }

  // ---------------------------------------------------------------- single changes

  lemma RowsTo(s: State, rows: Table)
    requires Wf(s) && RowsLater(s.rows, rows)
    ensures Wf(s.(rows := rows)) && Later(s, s.(rows := rows))
  {
    var t := s.(rows := rows);
    forall d | 0 <= d < |t.deliveries| ensures WfDelivery(t, t.deliveries[d]) {
      assert WfDelivery(s, s.deliveries[d]);
    }
  }

  lemma CopyTo(s: State, c: nat, copy: Copy)
    requires Wf(s) && c < |s.copies| && CopyLater(s.copies[c], copy)
    requires copy.place.Unacked? ==> copy.place.delivery < |s.deliveries| && s.deliveries[copy.place.delivery].copy == c
    ensures Wf(s.(copies := s.copies[c := copy])) && Later(s, s.(copies := s.copies[c := copy]))
  {
    var t := s.(copies := s.copies[c := copy]);
    forall d | 0 <= d < |t.deliveries| ensures WfDelivery(t, t.deliveries[d]) {
      assert WfDelivery(s, s.deliveries[d]);
    }
  }

  function Goto(s: State, d: nat, pc: Pc): State
    requires d < |s.deliveries|
  {
    s.(deliveries := s.deliveries[d := s.deliveries[d].(pc := pc)])
  }

  lemma GotoKeeps(s: State, d: nat, pc: Pc)
    requires Wf(s) && d < |s.deliveries|
    requires WfDelivery(s, s.deliveries[d].(pc := pc))
    ensures Wf(Goto(s, d, pc)) && Later(s, Goto(s, d, pc))
  {
    var t := Goto(s, d, pc);
    forall k | 0 <= k < |t.deliveries| ensures WfDelivery(t, t.deliveries[k]) {
      assert WfDelivery(s, s.deliveries[k]);
    }
  }

  lemma CallTo(s: State, i: nat, call: Call)
    requires Wf(s) && i < |s.calls|
    requires call.pc.Publishing? ==> forall k | 0 <= k < |call.pc.todo| :: call.pc.todo[k] in s.rows
    ensures Wf(s.(calls := s.calls[i := call])) && Later(s, s.(calls := s.calls[i := call]))
  {
    var t := s.(calls := s.calls[i := call]);
    forall d | 0 <= d < |t.deliveries| ensures WfDelivery(t, t.deliveries[d]) {
      assert WfDelivery(s, s.deliveries[d]);
    }
  }

  lemma SchedTo(s: State, j: nat, sched: Sched)
    requires Wf(s) && j < |s.scheds|
    requires forall k | 0 <= k < |sched.todo| :: sched.todo[k].Note? && sched.todo[k].id in s.rows
    ensures Wf(SetSched(s, j, sched)) && Later(s, SetSched(s, j, sched))
  {
    var t := SetSched(s, j, sched);
    forall d | 0 <= d < |t.deliveries| ensures WfDelivery(t, t.deliveries[d]) {
      assert WfDelivery(s, s.deliveries[d]);
    }
  }

  lemma AddKeeps(s: State, body: Body, channel: Channel, source: Source)
    requires Wf(s) && (body.Note? ==> body.id in s.rows)
    ensures var t := AddCopy(s, body, channel, source); Wf(t) && Later(s, t)
  {
    var t := AddCopy(s, body, channel, source);
    forall d | 0 <= d < |t.deliveries| ensures WfDelivery(t, t.deliveries[d]) {
      assert WfDelivery(s, s.deliveries[d]);
    }
  }

  /** Growth of the clock, the id counter, the provider's log and the history sets. */
  ghost predicate SameButHistory(s: State, t: State) {
    && t.rows == s.rows && t.calls == s.calls && t.scheds == s.scheds
    && t.copies == s.copies && t.deliveries == s.deliveries
    && s.now <= t.now && s.nextId <= t.nextId && s.sends <= t.sends
    && s.readFailed <= t.readFailed && s.writeFailed <= t.writeFailed
    && s.markFailed <= t.markFailed && s.overwritten <= t.overwritten
  }

  lemma HistoryKeeps(s: State, t: State)
    requires Wf(s) && SameButHistory(s, t)
    ensures Wf(t) && Later(s, t)
  {
    forall d | 0 <= d < |t.deliveries| ensures WfDelivery(t, t.deliveries[d]) {
      assert WfDelivery(s, s.deliveries[d]);
    }
  }

  lemma MarkKeeps(s: State, id: Id, ok: bool)
    requires Wf(s)
    ensures Wf(MarkQueued(s, id, ok)) && Later(s, MarkQueued(s, id, ok))
  {
    var t := MarkQueued(s, id, ok);
    RowsTo(s, t.rows);
    HistoryKeeps(s.(rows := t.rows), t);
    LaterTransitive(s, s.(rows := t.rows), t);
  }

  // ---------------------------------------------------------------- steps

  lemma CommitKeeps(s: State, i: nat, answer: Commitment)
    requires Wf(s) && i < |s.calls|
    ensures var t := CommitStep(s, i, answer); Wf(t) && Later(s, t)
  {
    var t, drafts := CommitStep(s, i, answer), CallDrafts(s, i);
    if drafts != [] && answer != RolledBack && InsertAll(s.rows, drafts).Some? {
      var call := s.calls[i];
      InsertLater(s.rows, drafts);
      InsertAllAdds(s.rows, drafts);
      DraftsAreFresh(call.items, call.answers, if call.batch then Some(i) else None, s.now);
      forall k | 0 <= k < |FreshIds(call.answers)| ensures FreshIds(call.answers)[k] in t.rows {
        assert drafts[k].id == FreshIds(call.answers)[k];
      }
      assert t.calls[i].pc.Publishing? ==> t.calls[i].pc.todo == FreshIds(call.answers);
    }
  }

  lemma LookupKeeps(s: State, i: nat, found: Found)
    requires Wf(s) && i < |s.calls| && s.calls[i].pc == Looking && |s.calls[i].answers| < |s.calls[i].items|
    ensures var t := LookupStep(s, i, found); Wf(t) && Later(s, t)
  {
    var t := LookupStep(s, i, found);
    CallTo(s, i, t.calls[i]);
    var u := s.(calls := s.calls[i := t.calls[i]]);
    HistoryKeeps(u, t);
    LaterTransitive(s, u, t);
  }

  lemma ApiPublishKeeps(s: State, i: nat, ok: bool)
    requires Wf(s) && At(s, i, Send)
    ensures var t := ApiPublishStep(s, i, ok); Wf(t) && Later(s, t)
  {
    var todo := s.calls[i].pc.todo;
    CallTo(s, i, s.calls[i].(pc := Publishing(if ok then todo else todo[1..], if ok then Mark else Check)));
    if ok {
      var u := SetPc(s, i, Publishing(todo, Mark));
      AddKeeps(u, Note(todo[0], 0), s.rows[todo[0]].channel, Api(i));
      LaterTransitive(s, u, ApiPublishStep(s, i, ok));
    }
  }

  lemma ApiMarkKeeps(s: State, i: nat, ok: bool)
    requires Wf(s) && At(s, i, Mark)
    ensures var t := ApiMarkStep(s, i, ok); Wf(t) && Later(s, t)
  {
    var todo := s.calls[i].pc.todo;
    var u := SetPc(s, i, Publishing(todo[1..], Check));
    CallTo(s, i, s.calls[i].(pc := Publishing(todo[1..], Check)));
    MarkKeeps(u, todo[0], ok);
    LaterTransitive(s, u, ApiMarkStep(s, i, ok));
  }

  lemma DecideKeeps(s: State, i: nat)
    requires Wf(s) && i < |s.calls| && s.calls[i].pc.Publishing?
    ensures var t := DecideStep(s, i); Wf(t) && Later(s, t)
  {
    CallTo(s, i, DecideStep(s, i).calls[i]);
  }

  lemma BeginKeeps(s: State, batch: bool, items: seq<Item>)
    requires Wf(s)
    ensures var t := ApiStep(s, Begin(batch, items)); Wf(t) && Later(s, t)
  {
    var t := ApiStep(s, Begin(batch, items));
    forall d | 0 <= d < |t.deliveries| ensures WfDelivery(t, t.deliveries[d]) {
      assert WfDelivery(s, s.deliveries[d]);
    }
  }

  lemma ApiKeeps(s: State, e: Event)
    requires Wf(s)
    ensures var t := ApiStep(s, e); Wf(t) && Later(s, t)
  {
    HistoryKeeps(s, s);
    match e {
      case Begin(batch, items) => BeginKeeps(s, batch, items);
      case Lookup(i, found) =>
        if i < |s.calls| && s.calls[i].pc == Looking && |s.calls[i].answers| < |s.calls[i].items| {
          LookupKeeps(s, i, found);
        }
      case Commit(i, answer) => if i < |s.calls| { CommitKeeps(s, i, answer); }
      case Decide(i) => if i < |s.calls| && s.calls[i].pc.Publishing? { DecideKeeps(s, i); }
      case ApiPublish(i, ok) => if At(s, i, Send) { ApiPublishKeeps(s, i, ok); }
      case ApiMark(i, ok) => if At(s, i, Mark) { ApiMarkKeeps(s, i, ok); }
      case _ =>
    }
  }

  lemma SchedKeeps(cfg: Config, s: State, e: Event)
    requires Wf(s)
    ensures var t := SchedStep(cfg, s, e); Wf(t) && Later(s, t)
  {
    var t := SchedStep(cfg, s, e);
    match e {
      case Poll(j, picked) =>
        if j < |s.scheds| && s.scheds[j] == Sched([], false) && PendingAnswer(s.rows, s.now, cfg.batchSize, picked) {
          SchedTo(s, j, Sched(Snapshot(s.rows, picked), false));
        } else {
          HistoryKeeps(s, t);
        }
      case SchedPublish(j, ok) =>
        if HasHead(s, j, false) {
          var todo := s.scheds[j].todo;
          if ok {
            var u := SetSched(s, j, Sched(todo, true));
            SchedTo(s, j, Sched(todo, true));
            AddKeeps(u, todo[0], s.rows[todo[0].id].channel, Scheduler(j));
            LaterTransitive(s, u, t);
          } else {
            SchedTo(s, j, Sched(todo[1..], false));
          }
        } else {
          HistoryKeeps(s, t);
        }
      case SchedMark(j, ok) =>
        if HasHead(s, j, true) {
          var todo := s.scheds[j].todo;
          var u := SetSched(s, j, Sched(todo[1..], false));
          SchedTo(s, j, Sched(todo[1..], false));
          MarkKeeps(u, todo[0].id, ok);
          LaterTransitive(s, u, t);
        } else {
          HistoryKeeps(s, t);
        }
      case _ => HistoryKeeps(s, t);
    }
  }

  lemma DeliverKeeps(s: State, c: nat)
    requires Wf(s) && c < |s.copies|
    ensures var t := DeliverStep(s, c); Wf(t) && Later(s, t)
  {
    if s.copies[c].place == Ready {
      var u := s.(deliveries := s.deliveries + [Delivery(c, s.copies[c].body, AtDecode)]);
      forall d | 0 <= d < |u.deliveries| ensures WfDelivery(u, u.deliveries[d]) {
        if d < |s.deliveries| { assert WfDelivery(s, s.deliveries[d]); }
      }
      CopyTo(u, c, s.copies[c].(place := Unacked(|s.deliveries|)));
      LaterTransitive(s, u, DeliverStep(s, c));
    }
  }

  lemma BrokerKeeps(s: State, e: Event)
    requires Wf(s)
    ensures var t := BrokerStep(s, e); Wf(t) && Later(s, t)
  {
    HistoryKeeps(s, s);
    match e {
      case Inject(channel) => AddKeeps(s, Undecodable, channel, Outside);
      case Deliver(c) => if c < |s.copies| { DeliverKeeps(s, c); }
      case Lose(c) => if c < |s.copies| && s.copies[c].place.Unacked? { CopyTo(s, c, BrokerStep(s, e).copies[c]); }
      case _ =>
    }
  }

  lemma StatusLater(t: Table, id: Id, status: Status, msg: Option<string>, error: Option<string>, now: Time)
    requires status != Pending
    ensures RowsLater(t, SetStatus(t, id, status, msg, error, now))
  {
  }

  lemma RetryLater(t: Table, id: Id, error: string)
    ensures RowsLater(t, AddRetry(t, id, error))
  {
  }

  lemma MoveRowsLater(cfg: Config, s: State, d: nat, input: Input)
    requires d < |s.deliveries| && s.deliveries[d].copy < |s.copies|
    ensures RowsLater(s.rows, WorkMove(cfg, s, d, input).rows)
  {
    var (pc, body, rows) := (s.deliveries[d].pc, s.deliveries[d].body, WorkMove(cfg, s, d, input).rows);
    if body.Note? && rows != s.rows {
      if pc.AtMarkSending? {
        StatusLater(s.rows, body.id, Sending, None, None, s.now);
      } else if pc.AtMarkSent? {
        StatusLater(s.rows, body.id, Sent, Some(pc.msg), None, s.now);
      } else if pc.AtCount? {
        RetryLater(s.rows, body.id, pc.outcome.error);
      } else if pc.AtMarkFailed? {
        StatusLater(s.rows, body.id, Failed, None, Some(pc.error), s.now);
      } else {
        StatusLater(s.rows, body.id, Queued, None, Some(pc.error), s.now);
      }
    }
  }

  lemma MoveCopyLater(cfg: Config, s: State, d: nat, input: Input)
    requires d < |s.deliveries| && s.deliveries[d].copy < |s.copies|
    ensures var (m, copy) := (WorkMove(cfg, s, d, input), s.copies[s.deliveries[d].copy]);
            CopyLater(copy, m.copy) && (m.copy.place.Unacked? ==> m.copy.place == copy.place)
  {
  }

  lemma MovePc(cfg: Config, s: State, d: nat, input: Input)
    requires d < |s.deliveries| && s.deliveries[d].copy < |s.copies| && WfDelivery(s, s.deliveries[d])
    ensures WfDelivery(s, s.deliveries[d].(pc := WorkMove(cfg, s, d, input).pc))
  {
  }

  lemma WorkKeeps(cfg: Config, s: State, d: nat, input: Input)
    requires Wf(s) && d < |s.deliveries|
    ensures s.deliveries[d].copy < |s.copies|
    ensures var t := WorkStep(cfg, s, d, input); Wf(t) && Later(s, t)
  {
    assert WfDelivery(s, s.deliveries[d]);
    var m, c := WorkMove(cfg, s, d, input), s.deliveries[d].copy;
    MoveRowsLater(cfg, s, d, input);
    MoveCopyLater(cfg, s, d, input);
    MovePc(cfg, s, d, input);
    RowsTo(s, m.rows);
    var u := s.(rows := m.rows);
    CopyTo(u, c, m.copy);
    var v := u.(copies := u.copies[c := m.copy]);
    GotoKeeps(v, d, m.pc);
    var w, t := Goto(v, d, m.pc), WorkStep(cfg, s, d, input);
    HistoryKeeps(w, t);
    LaterTransitive(s, u, v);
    LaterTransitive(s, v, w);
    LaterTransitive(s, w, t);
  }

  lemma StepKeeps(cfg: Config, s: State, e: Event)
    requires Wf(s)
    ensures Wf(Step(cfg, s, e)) && Later(s, Step(cfg, s, e))
  {
    if e.Work? {
      if e.delivery < |s.deliveries| { WorkKeeps(cfg, s, e.delivery, e.input); }
    } else if e.Tick? {
      HistoryKeeps(s, Step(cfg, s, e));
    } else if e.Cancel? {
      RowsTo(s, CancelRow(s.rows, e.id));
    } else if e.Poll? || e.SchedPublish? || e.SchedMark? {
      SchedKeeps(cfg, s, e);
    } else if e.Inject? || e.Deliver? || e.Lose? {
      BrokerKeeps(s, e);
    } else {
      ApiKeeps(s, e);
    }
  }

  /** Every run keeps states well formed and only ever moves forward: rows, copies, provider
      calls and delivery evidence are never taken back, acked and dead copies stay so. */
  lemma {:induction false} RunKeeps(cfg: Config, s: State, es: seq<Event>)
    requires Wf(s)
    ensures Wf(Run(cfg, s, es)) && Later(s, Run(cfg, s, es))
  {
    if es != [] {
      var u := Run(cfg, s, es[..|es| - 1]);
      RunKeeps(cfg, s, es[..|es| - 1]);
      StepKeeps(cfg, u, es[|es| - 1]);
      LaterTransitive(s, u, Run(cfg, s, es));
    }
  }

  lemma AfterWf(cfg: Config, schedulers: nat, es: seq<Event>)
    ensures Wf(After(cfg, schedulers, es))
  {
    RunKeeps(cfg, Init(schedulers), es);
  }
}
