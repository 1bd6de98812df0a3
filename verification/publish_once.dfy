/** No message is queued before its time, and no publisher queues a notification twice. */
module PublishOnce {
  import opened Basics
  import opened Model
  import opened Repository
  import opened Pipeline
  import opened Frame
  import opened Tokens
  import opened RetryBound

  // ---------------------------------------------------------------- where things come from

  /** A message appears only from outside, or because a publisher sends its head now. */
  lemma CopyOrigin(cfg: Config, s: State, e: Event)
    ensures var t := Step(cfg, s, e);
            || |t.copies| == |s.copies|
            || (|t.copies| == |s.copies| + 1 && t.copies[..|s.copies|] == s.copies
                && var copy := t.copies[|s.copies|];
                   && copy.at == s.now
                   && (|| (e.Inject? && copy.body.Undecodable?)
                       || (e.ApiPublish? && e.ok && At(s, e.call, Send) && copy.source == Api(e.call)
                           && copy.body == Note(s.calls[e.call].pc.todo[0], 0) && copy.channel == s.rows[copy.body.id].channel)
                       || (e.SchedPublish? && e.ok && HasHead(s, e.sched, false) && copy.source == Scheduler(e.sched)
                           && copy.body == s.scheds[e.sched].todo[0] && copy.channel == s.rows[copy.body.id].channel)))
  {
  }

  /** Where a call's publishing state after a step may come from. */
  predicate CallStep(s: State, e: Event, i: nat, b: CallPc)
    requires i < |s.calls|
  {
    var a := s.calls[i].pc;
    || b == a
    || (e.Commit? && e.call == i && b == Publishing(FreshIds(s.calls[i].answers), Check)
        && a == Looking && CallDrafts(s, i) != [] && InsertAll(s.rows, CallDrafts(s, i)).Some?)
    || (!e.Commit? && a.Publishing? && a.todo != [] && b == Publishing(a.todo[1..], Check))
    || (e == Decide(i) && At(s, i, Check) && b == Publishing(a.todo, Send)
        && (s.rows[a.todo[0]].scheduledAt.None? || s.rows[a.todo[0]].scheduledAt.value < s.now))
    || (e == ApiPublish(i, true) && At(s, i, Send) && b == Publishing(a.todo, Mark))
  }

  lemma ApiOrigin(s: State, e: Event, i: nat)
    requires var t := ApiStep(s, e); i < |t.calls| && t.calls[i].pc.Publishing?
    ensures i < |s.calls| && CallStep(s, e, i, ApiStep(s, e).calls[i].pc)
  {
  }

  lemma CallOrigin(cfg: Config, s: State, e: Event, i: nat)
    requires var t := Step(cfg, s, e); i < |t.calls| && t.calls[i].pc.Publishing?
    ensures i < |s.calls| && CallStep(s, e, i, Step(cfg, s, e).calls[i].pc)
  {
    if e.Begin? || e.Lookup? || e.Commit? || e.Decide? || e.ApiPublish? || e.ApiMark? {
      ApiOrigin(s, e, i);
    } else {
      assert Step(cfg, s, e).calls == s.calls;
    }
  }

  /** How a scheduler comes to have something left to publish. */
  lemma SchedOrigin(cfg: Config, s: State, e: Event, j: nat)
    requires j < |s.scheds|
    ensures var t := Step(cfg, s, e);
            && |t.scheds| == |s.scheds|
            && var (b, a) := (t.scheds[j], s.scheds[j]);
               || b == a
               || (e.Poll? && e.sched == j && a.todo == [] && PendingAnswer(s.rows, s.now, cfg.batchSize, e.picked)
                   && b == Sched(Snapshot(s.rows, e.picked), false))
               || (e == SchedPublish(j, false) && HasHead(s, j, false) && b == Sched(a.todo[1..], false))
               || (e == SchedPublish(j, true) && HasHead(s, j, false) && b == Sched(a.todo, true))
               || (e.SchedMark? && e.sched == j && HasHead(s, j, true) && b == Sched(a.todo[1..], false))
  {
  }

  // ---------------------------------------------------------------- never early

  predicate DueBy(due: Option<Time>, now: Time) { due.Some? ==> due.value <= now }

  predicate DueBefore(due: Option<Time>, now: Time) { due.Some? ==> due.value < now }

  ghost predicate CopyOnTime(s: State, copy: Copy) {
    copy.body.Note? ==>
      && copy.body.id in s.rows && copy.at <= s.now
      && DueBy(s.rows[copy.body.id].scheduledAt, copy.at)
      && (copy.source.Api? ==> DueBefore(s.rows[copy.body.id].scheduledAt, copy.at))
  }

  ghost predicate OnTimeInv(s: State) {
    && (forall c | 0 <= c < |s.copies| :: CopyOnTime(s, s.copies[c]))
    && (forall i | 0 <= i < |s.calls| && At(s, i, Send) :: DueBefore(s.rows[s.calls[i].pc.todo[0]].scheduledAt, s.now))
    && (forall j, k | 0 <= j < |s.scheds| && 0 <= k < |s.scheds[j].todo| ::
          s.scheds[j].todo[k].Note? && s.scheds[j].todo[k].id in s.rows
          && DueBy(s.rows[s.scheds[j].todo[k].id].scheduledAt, s.now))
  }

  lemma CopiesOnTime(cfg: Config, s: State, e: Event)
    requires Wf(s) && OnTimeInv(s)
    ensures var t := Step(cfg, s, e); forall c | 0 <= c < |t.copies| :: CopyOnTime(t, t.copies[c])
  {
    var t := Step(cfg, s, e);
    StepKeeps(cfg, s, e);
    CopyOrigin(cfg, s, e);
    forall c | 0 <= c < |t.copies| ensures CopyOnTime(t, t.copies[c]) {
      if c < |s.copies| {
        assert CopyOnTime(s, s.copies[c]) && CopyLater(s.copies[c], t.copies[c]);
      }
      if t.copies[c].body.Note? && t.copies[c].body.id in s.rows {
        assert RowLater(s.rows[t.copies[c].body.id], t.rows[t.copies[c].body.id]);
      }
    }
  }

  lemma CallsOnTime(cfg: Config, s: State, e: Event, i: nat)
    requires Wf(s) && OnTimeInv(s) && At(Step(cfg, s, e), i, Send)
    ensures var t := Step(cfg, s, e); DueBefore(t.rows[t.calls[i].pc.todo[0]].scheduledAt, t.now)
  {
    var t := Step(cfg, s, e);
    StepKeeps(cfg, s, e);
    CallOrigin(cfg, s, e, i);
    var n := t.calls[i].pc.todo[0];
    assert n in s.rows ==> RowLater(s.rows[n], t.rows[n]);
    if t.calls[i].pc == s.calls[i].pc {
      assert s.calls[i].pc.todo[0] in s.rows;
      assert At(s, i, Send);
    }
  }

  lemma SchedsOnTime(cfg: Config, s: State, e: Event, j: nat, k: nat)
    requires Wf(s) && OnTimeInv(s)
    requires var t := Step(cfg, s, e); j < |t.scheds| && k < |t.scheds[j].todo|
    ensures var t := Step(cfg, s, e);
            t.scheds[j].todo[k].Note? && t.scheds[j].todo[k].id in t.rows
            && DueBy(t.rows[t.scheds[j].todo[k].id].scheduledAt, t.now)
  {
    var t := Step(cfg, s, e);
    StepKeeps(cfg, s, e);
    SchedOrigin(cfg, s, e, j);
    if e.Poll? && e.sched == j && t.scheds[j] != s.scheds[j] {
      assert DuePending(s.rows, s.now, e.picked[k]);
    } else {
      assert t.scheds[j].todo[k] in s.scheds[j].todo;
    }
    assert t.scheds[j].todo[k].Note? && t.scheds[j].todo[k].id in s.rows;
    assert RowLater(s.rows[t.scheds[j].todo[k].id], t.rows[t.scheds[j].todo[k].id]);
  }

  lemma OnTimeKept(cfg: Config, s: State, e: Event)
    requires Wf(s) && OnTimeInv(s)
    ensures OnTimeInv(Step(cfg, s, e))
  {
    var t := Step(cfg, s, e);
    CopiesOnTime(cfg, s, e);
    forall i | 0 <= i < |t.calls| && At(t, i, Send) ensures DueBefore(t.rows[t.calls[i].pc.todo[0]].scheduledAt, t.now) {
      CallsOnTime(cfg, s, e, i);
    }
    forall j, k | 0 <= j < |t.scheds| && 0 <= k < |t.scheds[j].todo|
      ensures t.scheds[j].todo[k].Note? && t.scheds[j].todo[k].id in t.rows
              && DueBy(t.rows[t.scheds[j].todo[k].id].scheduledAt, t.now)
    {
      SchedsOnTime(cfg, s, e, j, k);
    }
  }

  lemma {:induction false} OnTimeAlways(cfg: Config, schedulers: nat, es: seq<Event>)
    ensures OnTimeInv(After(cfg, schedulers, es))
  {
    if es != [] {
      AfterWf(cfg, schedulers, es[..|es| - 1]);
      OnTimeAlways(cfg, schedulers, es[..|es| - 1]);
      OnTimeKept(cfg, After(cfg, schedulers, es[..|es| - 1]), es[|es| - 1]);
    }
  }

  /** No message of a scheduled notification is ever queued before scheduled_at, nor at that very
      moment by an API call. */
  lemma NothingIsPublishedEarly(cfg: Config, schedulers: nat, es: seq<Event>, c: nat)
    requires var s := After(cfg, schedulers, es); c < |s.copies| && s.copies[c].body.Note?
    ensures var s := After(cfg, schedulers, es);
            var copy := s.copies[c];
            && copy.body.id in s.rows && copy.at <= s.now
            && var due := s.rows[copy.body.id].scheduledAt;
               due.Some? ==> due.value <= copy.at && (copy.source.Api? ==> due.value < copy.at)
  {
    OnTimeAlways(cfg, schedulers, es);
    var s := After(cfg, schedulers, es);
    assert CopyOnTime(s, s.copies[c]);
  }

  // ---------------------------------------------------------------- at most once each

  function ByApi(n: Id): Copy -> nat { (c: Copy) => if Of(c.body, n) && c.source.Api? then 1 else 0 }

  function BySched(j: nat, n: Id): Copy -> nat { (c: Copy) => if Of(c.body, n) && c.source == Scheduler(j) then 1 else 0 }

  function BySchedBelow(m: nat, n: Id): Copy -> nat {
    (c: Copy) => if Of(c.body, n) && c.source.Scheduler? && c.source.sched < m then 1 else 0
  }

  predicate Carries(todo: seq<Body>, n: Id) {
    exists k :: 0 <= k < |todo| && Of(todo[k], n)
  }

  ghost predicate SchedOnce(s: State, j: nat, n: Id)
    requires j < |s.scheds|
  {
    var (sched, count) := (s.scheds[j], Total(s.copies, BySched(j, n)));
    && (forall p, q | 0 <= p < q < |sched.todo| :: !(Of(sched.todo[p], n) && Of(sched.todo[q], n)))
    && count <= 1
    && (count == 1 ==>
          || (sched.marking && sched.todo != [] && Of(sched.todo[0], n))
          || (!Carries(sched.todo, n) && n in s.rows && s.rows[n].status != Pending))
  }

  ghost predicate ApiOnce(s: State, n: Id) {
    var count := Total(s.copies, ByApi(n));
    && (forall i, k | 0 <= i < k < |s.calls| && s.calls[i].pc.Publishing? && s.calls[k].pc.Publishing? ::
          !(n in s.calls[i].pc.todo && n in s.calls[k].pc.todo))
    && (forall i, p, q | 0 <= i < |s.calls| && s.calls[i].pc.Publishing? && 0 <= p < q < |s.calls[i].pc.todo| ::
          s.calls[i].pc.todo[p] != n || s.calls[i].pc.todo[q] != n)
    && count <= 1
    && (count == 1 ==> forall i | 0 <= i < |s.calls| && s.calls[i].pc.Publishing? && n in s.calls[i].pc.todo ::
          s.calls[i].pc.stage == Mark && s.calls[i].pc.todo[0] == n)
  }

  ghost predicate SourcesInv(s: State) {
    forall c | 0 <= c < |s.copies| && s.copies[c].body.Note? ::
      s.copies[c].source.Api? || (s.copies[c].source.Scheduler? && s.copies[c].source.sched < |s.scheds|)
  }

  /** What `f` counts depends only on fields of a message that never change. */
  ghost predicate Fixed(f: Copy -> nat) {
    forall a, b {:trigger f(a), f(b)} :: CopyLater(a, b) ==> f(a) == f(b)
  }

  lemma CountOfFixed(s: State, t: State, f: Copy -> nat)
    requires Later(s, t) && Fixed(f)
    ensures Total(t.copies[..|s.copies|], f) == Total(s.copies, f)
  {
    var front := t.copies[..|s.copies|];
    forall c | 0 <= c < |s.copies| ensures f(s.copies[c]) == f(front[c]) {
      assert CopyLater(s.copies[c], t.copies[c]);
    }
    TotalSame(s.copies, front, f, f);
  }

  /** A step adds at most the message it publishes. */
  lemma CountGrows(cfg: Config, s: State, e: Event, f: Copy -> nat)
    requires Wf(s) && Fixed(f)
    ensures var t := Step(cfg, s, e);
            || (|t.copies| == |s.copies| && Total(t.copies, f) == Total(s.copies, f))
            || (|t.copies| == |s.copies| + 1 && Total(t.copies, f) == Total(s.copies, f) + f(t.copies[|s.copies|]))
  {
    var t := Step(cfg, s, e);
    StepKeeps(cfg, s, e);
    CopyOrigin(cfg, s, e);
    CountOfFixed(s, t, f);
    if |t.copies| == |s.copies| {
      assert t.copies[..|s.copies|] == t.copies;
    } else {
      assert t.copies == t.copies[..|s.copies|] + [t.copies[|s.copies|]];
      TotalSnoc(t.copies[..|s.copies|], t.copies[|s.copies|], f);
    }
  }

  /** What the snapshot still holds of `n` after a step. */
  lemma CarriesOrigin(cfg: Config, s: State, e: Event, j: nat, n: Id)
    requires j < |s.scheds|
    requires forall p, q | 0 <= p < q < |s.scheds[j].todo| :: !(Of(s.scheds[j].todo[p], n) && Of(s.scheds[j].todo[q], n))
    ensures var (t, a) := (Step(cfg, s, e), s.scheds[j]);
            && j < |t.scheds|
            && var b := t.scheds[j];
               && (forall p, q | 0 <= p < q < |b.todo| :: !(Of(b.todo[p], n) && Of(b.todo[q], n)))
               && (Carries(b.todo, n) ==> Carries(a.todo, n) || DuePending(s.rows, s.now, n))
               && (b.todo != a.todo && a.todo != [] && Of(a.todo[0], n) ==> !Carries(b.todo, n))
  {
    SchedOrigin(cfg, s, e, j);
    var (a, b) := (s.scheds[j], Step(cfg, s, e).scheds[j]);
    if e.Poll? && e.sched == j && b != a {
      assert forall k | 0 <= k < |b.todo| :: Of(b.todo[k], n) <==> e.picked[k] == n;
    } else if b.todo != a.todo {
      assert forall k | 0 <= k < |b.todo| :: b.todo[k] == a.todo[k + 1];
    }
  }

  lemma SchedOnceKept(cfg: Config, s: State, e: Event, j: nat, n: Id)
    requires Wf(s) && j < |s.scheds| && SchedOnce(s, j, n)
    requires n !in Step(cfg, s, e).markFailed
    ensures j < |Step(cfg, s, e).scheds| && SchedOnce(Step(cfg, s, e), j, n)
  {
    var t := Step(cfg, s, e);
    var (a, before, after) := (s.scheds[j], Total(s.copies, BySched(j, n)), Total(t.copies, BySched(j, n)));
    SchedOrigin(cfg, s, e, j);
    CarriesOrigin(cfg, s, e, j, n);
    SchedCountStep(cfg, s, e, j, n);
    RowStays(cfg, s, e, n);
    var b := t.scheds[j];
    if after == 1 {
      if before == 0 {
        assert b == Sched(a.todo, true) && Of(b.todo[0], n);
      } else if a.marking && a.todo != [] && Of(a.todo[0], n) {
        if b != a { MarkedIsNotPending(cfg, s, e, j); }
      } else {
        assert !Carries(a.todo, n);
        assert a.todo != [] ==> !Of(a.todo[0], n);
      }
    }
  }

  lemma RowStays(cfg: Config, s: State, e: Event, n: Id)
    requires Wf(s)
    ensures n in s.rows ==> n in Step(cfg, s, e).rows
    ensures n in s.rows && s.rows[n].status != Pending ==> Step(cfg, s, e).rows[n].status != Pending
  {
    StepKeeps(cfg, s, e);
    if n in s.rows { assert RowLater(s.rows[n], Step(cfg, s, e).rows[n]); }
  }

  /** Marking its head leaves it queued, or leaves a trace that the write failed. */
  lemma MarkedIsNotPending(cfg: Config, s: State, e: Event, j: nat)
    requires e.SchedMark? && e.sched == j && HasHead(s, j, true)
    ensures var (t, n) := (Step(cfg, s, e), s.scheds[j].todo[0].id);
            n in t.markFailed || (n in t.rows && t.rows[n].status == Queued)
  {
  }

  lemma SchedCountStep(cfg: Config, s: State, e: Event, j: nat, n: Id)
    requires Wf(s) && j < |s.scheds|
    ensures var (t, a) := (Step(cfg, s, e), s.scheds[j]);
            var (before, after) := (Total(s.copies, BySched(j, n)), Total(t.copies, BySched(j, n)));
            || after == before
            || (after == before + 1 && e == SchedPublish(j, true) && HasHead(s, j, false) && Of(a.todo[0], n)
                && j < |t.scheds| && t.scheds[j] == Sched(a.todo, true))
  {
    CopyOrigin(cfg, s, e);
    assert Fixed(BySched(j, n));
    CountGrows(cfg, s, e, BySched(j, n));
  }

  lemma NoCopyNoCount(s: State, n: Id)
    requires Wf(s) && n !in s.rows
    ensures Total(s.copies, ByApi(n)) == 0
  {
    assert forall c | 0 <= c < |s.copies| :: !Of(s.copies[c].body, n);
    TotalZero(s.copies, ByApi(n));
  }

  /** Ids that are all different and in no row. */
  ghost predicate NewIds(t: Table, ids: seq<Id>) {
    (forall p | 0 <= p < |ids| :: ids[p] !in t) && (forall p, q | 0 <= p < q < |ids| :: ids[p] != ids[q])
  }

  /** A commit hands new ids to its publisher. */
  lemma CommittedIds(s: State, i: nat)
    requires i < |s.calls| && CallDrafts(s, i) != [] && InsertAll(s.rows, CallDrafts(s, i)).Some?
    ensures NewIds(s.rows, FreshIds(s.calls[i].answers))
  {
    var call, ds := s.calls[i], CallDrafts(s, i);
    InsertAllAdds(s.rows, ds);
    InsertAllAllOrNothing(s.rows, ds);
    DraftsAreFresh(call.items, call.answers, if call.batch then Some(i) else None, s.now);
    var ids := FreshIds(call.answers);
    assert forall p | 0 <= p < |ids| :: ids[p] == ds[p].id;
  }

  /** What call `i` still has to publish after a step, it had before, or it has just inserted. */
  lemma TodoOrigin(cfg: Config, s: State, e: Event, i: nat)
    requires Wf(s)
    requires var t := Step(cfg, s, e); i < |t.calls| && t.calls[i].pc.Publishing?
    ensures i < |s.calls|
    ensures var todo := Step(cfg, s, e).calls[i].pc.todo;
            || (s.calls[i].pc.Publishing? && (todo == s.calls[i].pc.todo || (s.calls[i].pc.todo != [] && todo == s.calls[i].pc.todo[1..])))
            || (e.Commit? && e.call == i && NewIds(s.rows, todo))
  {
    CallOrigin(cfg, s, e, i);
    if e.Commit? && e.call == i && Step(cfg, s, e).calls[i].pc != s.calls[i].pc { CommittedIds(s, i); }
  }

  lemma TodosStayDisjoint(cfg: Config, s: State, e: Event, n: Id)
    requires Wf(s) && ApiOnce(s, n)
    ensures var t := Step(cfg, s, e);
            && (forall i, k | 0 <= i < k < |t.calls| && t.calls[i].pc.Publishing? && t.calls[k].pc.Publishing? ::
                  !(n in t.calls[i].pc.todo && n in t.calls[k].pc.todo))
            && (forall i, p, q | 0 <= i < |t.calls| && t.calls[i].pc.Publishing? && 0 <= p < q < |t.calls[i].pc.todo| ::
                  t.calls[i].pc.todo[p] != n || t.calls[i].pc.todo[q] != n)
  {
    var t := Step(cfg, s, e);
    forall i, k | 0 <= i < k < |t.calls| && t.calls[i].pc.Publishing? && t.calls[k].pc.Publishing?
      ensures !(n in t.calls[i].pc.todo && n in t.calls[k].pc.todo)
    {
      TodoOrigin(cfg, s, e, i);
      TodoOrigin(cfg, s, e, k);
    }
    forall i, p, q | 0 <= i < |t.calls| && t.calls[i].pc.Publishing? && 0 <= p < q < |t.calls[i].pc.todo|
      ensures t.calls[i].pc.todo[p] != n || t.calls[i].pc.todo[q] != n
    {
      TodoOrigin(cfg, s, e, i);
    }
  }

  lemma ApiOnceKept(cfg: Config, s: State, e: Event, n: Id)
    requires Wf(s) && ApiOnce(s, n)
    ensures ApiOnce(Step(cfg, s, e), n)
  {
    var t := Step(cfg, s, e);
    TodosStayDisjoint(cfg, s, e, n);
    CopyOrigin(cfg, s, e);
    assert Fixed(ByApi(n));
    CountGrows(cfg, s, e, ByApi(n));
    if n !in s.rows { NoCopyNoCount(s, n); }
    forall i | Total(t.copies, ByApi(n)) == 1 && 0 <= i < |t.calls| && t.calls[i].pc.Publishing? && n in t.calls[i].pc.todo
      ensures t.calls[i].pc.stage == Mark && t.calls[i].pc.todo[0] == n
    {
      TodoOrigin(cfg, s, e, i);
      CallOrigin(cfg, s, e, i);
      if Total(s.copies, ByApi(n)) == 0 {
        assert e.ApiPublish? && s.calls[e.call].pc.todo[0] == n;
        TodoOrigin(cfg, s, e, e.call);
      }
    }
  }

  lemma {:induction false} SourcesAdd(copies: seq<Copy>, m: nat, n: Id)
    ensures Total(copies, BySchedBelow(m + 1, n)) == Total(copies, BySchedBelow(m, n)) + Total(copies, BySched(m, n))
    ensures Total(copies, BySchedBelow(0, n)) == 0
  {
    if copies != [] { SourcesAdd(copies[..|copies| - 1], m, n); }
  }

  lemma {:induction false} SourcesSplit(copies: seq<Copy>, m: nat, n: Id)
    requires forall c | 0 <= c < |copies| && copies[c].body.Note? ::
               copies[c].source.Api? || (copies[c].source.Scheduler? && copies[c].source.sched < m)
    ensures Total(copies, CopyOf(n)) == Total(copies, ByApi(n)) + Total(copies, BySchedBelow(m, n))
  {
    if copies != [] { SourcesSplit(copies[..|copies| - 1], m, n); }
  }

  lemma {:induction false} AtMostOneEach(copies: seq<Copy>, m: nat, n: Id)
    requires forall j | 0 <= j < m :: Total(copies, BySched(j, n)) <= 1
    ensures Total(copies, BySchedBelow(m, n)) <= m
  {
    if m == 0 {
      SourcesAdd(copies, 0, n);
    } else {
      AtMostOneEach(copies, m - 1, n);
      SourcesAdd(copies, m - 1, n);
      assert Total(copies, BySched(m - 1, n)) <= 1;
    }
  }

  ghost predicate OnceInv(s: State, n: Id) {
    ApiOnce(s, n) && SourcesInv(s) && forall j | 0 <= j < |s.scheds| :: SchedOnce(s, j, n)
  }

  lemma {:induction false} OnceAlways(cfg: Config, schedulers: nat, es: seq<Event>, n: Id)
    requires n !in After(cfg, schedulers, es).markFailed
    ensures OnceInv(After(cfg, schedulers, es), n) && |After(cfg, schedulers, es).scheds| == schedulers
  {
    if es != [] {
      var front, e := es[..|es| - 1], es[|es| - 1];
      var s, t := After(cfg, schedulers, front), After(cfg, schedulers, es);
      AfterWf(cfg, schedulers, front);
      StepKeeps(cfg, s, e);
      OnceAlways(cfg, schedulers, front, n);
      ApiOnceKept(cfg, s, e, n);
      forall j | 0 <= j < |t.scheds| ensures SchedOnce(t, j, n) {
        assert SchedOnce(s, j, n);
        SchedOnceKept(cfg, s, e, j, n);
      }
      CopyOrigin(cfg, s, e);
      forall c | 0 <= c < |t.copies| && t.copies[c].body.Note?
        ensures t.copies[c].source.Api? || (t.copies[c].source.Scheduler? && t.copies[c].source.sched < |t.scheds|)
      {
        if c < |s.copies| { assert CopyLater(s.copies[c], t.copies[c]); }
      }
    }
  }

  /** If the publishers' status writes for a notification succeed, the API publishes it at most
      once and each scheduler at most once. So a row its API call left unpublished is published
      at most once by a single scheduler. */
  lemma EachPublisherPublishesOnce(cfg: Config, schedulers: nat, es: seq<Event>, n: Id)
    requires n !in After(cfg, schedulers, es).markFailed
    ensures var s := After(cfg, schedulers, es);
            && Total(s.copies, ByApi(n)) <= 1
            && (forall j | 0 <= j < schedulers :: Total(s.copies, BySched(j, n)) <= 1)
            && Published(s, n) <= Total(s.copies, ByApi(n)) + schedulers
  {
    OnceAlways(cfg, schedulers, es, n);
    var s := After(cfg, schedulers, es);
    SourcesSplit(s.copies, schedulers, n);
    forall j | 0 <= j < schedulers ensures Total(s.copies, BySched(j, n)) <= 1 {
      assert SchedOnce(s, j, n);
    }
    AtMostOneEach(s.copies, schedulers, n);
  }

  /** With S schedulers, and with only connection losses to speak of, retry_count stays within what
      S + 1 copies can do. */
  lemma RetryCountInProduction(cfg: Config, schedulers: nat, es: seq<Event>, n: Id)
    requires n !in After(cfg, schedulers, es).markFailed
    ensures var s := After(cfg, schedulers, es);
            && RetryCount(s, n) <= MostRetries(Attempts(cfg), schedulers + 1, Losses(s, n), s.readFailed[n])
            && Calls(s, n) <= MostRetries(Attempts(cfg), schedulers + 1, Losses(s, n), s.readFailed[n] + s.writeFailed[n])
  {
    EachPublisherPublishesOnce(cfg, schedulers, es, n);
    RetryCountIsBounded(cfg, schedulers, es, n);
    CallsAreBounded(cfg, schedulers, es, n);
  }
}
