/** When a status is final: decided, like an effective cancellation, by what is still on its way to
    write the row. */
module Finality {
  import opened Model
  import opened Pipeline
  import opened Frame
  import opened Tokens
  import opened PublishOnce
  import opened Cancellation

  /** A publisher has published `n` and is about to mark it queued. */
  predicate AboutToBeMarked(s: State, n: Id) {
    || (exists i :: 0 <= i < |s.calls| && CallMarks(s, i, n))
    || (exists j :: 0 <= j < |s.scheds| && SchedMarks(s, j, n))
  }

  predicate CallMarks(s: State, i: nat, n: Id)
    requires i < |s.calls|
  {
    var pc := s.calls[i].pc;
    pc.Publishing? && pc.stage == Mark && pc.todo != [] && pc.todo[0] == n
  }

  predicate SchedMarks(s: State, j: nat, n: Id)
    requires j < |s.scheds|
  {
    s.scheds[j].marking && s.scheds[j].todo != [] && Of(s.scheds[j].todo[0], n)
  }

  /** A worker past the provider's answer that is bound to write another status than `st`. */
  predicate WritesOther(cfg: Config, pc: Pc, st: Status) {
    || (pc.AtMarkSent? && st != Sent)
    || (pc.AtMarkFailed? && st != Failed)
    || pc.AtMarkQueued?
    || (pc.AtCount? && (st != Failed || !(pc.outcome.Permanent? || Exhausted(cfg, pc.retry))))
  }

  predicate HasWriter(cfg: Config, s: State, n: Id, st: Status) {
    exists d :: 0 <= d < |s.deliveries| && Of(s.deliveries[d].body, n) && WritesOther(cfg, s.deliveries[d].pc, st)
  }

  /** The row has a status that a cancellation cannot replace. */
  predicate IsFinal(s: State, n: Id, st: Status) {
    n in s.rows && s.rows[n].status == st && st != Pending && st != Queued
  }

  /** Nothing is left that could write another status. */
  predicate Closed(cfg: Config, s: State, n: Id, st: Status) {
    Idle(s, n) && !AboutToBeMarked(s, n) && !HasWriter(cfg, s, n, st)
  }

  // ---------------------------------------------------------------- closed stays closed

  lemma ClosedCalls(cfg: Config, s: State, e: Event, n: Id, i: nat)
    requires Wf(s) && Idle(s, n) && NotPending(s, n) && !AboutToBeMarked(s, n)
    requires i < |Step(cfg, s, e).calls|
    ensures !CallMarks(Step(cfg, s, e), i, n)
  {
    var t := Step(cfg, s, e);
    if t.calls[i].pc.Publishing? {
      CallOrigin(cfg, s, e, i);
      assert !CallMarks(s, i, n) && !CallOwes(s, i, n);
    }
  }

  lemma ClosedScheds(cfg: Config, s: State, e: Event, n: Id, j: nat)
    requires Wf(s) && Idle(s, n) && !AboutToBeMarked(s, n) && j < |s.scheds|
    ensures j < |Step(cfg, s, e).scheds| && !SchedMarks(Step(cfg, s, e), j, n)
  {
    SchedOrigin(cfg, s, e, j);
    assert !SchedMarks(s, j, n) && !SchedOwes(s, j, n);
  }

  lemma ClosedMarks(cfg: Config, s: State, e: Event, n: Id)
    requires Wf(s) && Idle(s, n) && NotPending(s, n) && !AboutToBeMarked(s, n)
    ensures !AboutToBeMarked(Step(cfg, s, e), n)
  {
    var t := Step(cfg, s, e);
    StepKeeps(cfg, s, e);
    forall i | 0 <= i < |t.calls| ensures !CallMarks(t, i, n) { ClosedCalls(cfg, s, e, n, i); }
    forall j | 0 <= j < |t.scheds| ensures !SchedMarks(t, j, n) { ClosedScheds(cfg, s, e, n, j); }
  }

  /** A worker that is past its answer and bound to write nothing else leaves the status alone. */
  lemma ClosedMove(cfg: Config, s: State, d: nat, input: Input, n: Id, st: Status)
    requires d < |s.deliveries| && s.deliveries[d].copy < |s.copies| && WfDelivery(s, s.deliveries[d])
    requires Of(s.deliveries[d].body, n) && IsFinal(s, n, st)
    requires !BeforeSend(s.deliveries[d].pc) && !WritesOther(cfg, s.deliveries[d].pc, st)
    ensures var m := WorkMove(cfg, s, d, input);
            n in m.rows && m.rows[n].status == st && !WritesOther(cfg, m.pc, st)
  {
  }

  lemma ClosedByWork(cfg: Config, s: State, d: nat, input: Input, n: Id, st: Status)
    requires Wf(s) && d < |s.deliveries| && IsFinal(s, n, st) && Closed(cfg, s, n, st)
    ensures var t := Step(cfg, s, Work(d, input)); IsFinal(t, n, st) && !HasWriter(cfg, t, n, st)
  {
    assert WfDelivery(s, s.deliveries[d]);
    MoveShape(cfg, s, d, input);
    if Of(s.deliveries[d].body, n) {
      assert !BeforeSend(s.deliveries[d].pc) && !WritesOther(cfg, s.deliveries[d].pc, st);
      ClosedMove(cfg, s, d, input, n, st);
    }
    var t := Step(cfg, s, Work(d, input));
    forall k | 0 <= k < |t.deliveries| && Of(t.deliveries[k].body, n) ensures !WritesOther(cfg, t.deliveries[k].pc, st) {
      if k != d { assert t.deliveries[k] == s.deliveries[k]; }
    }
  }

  /** A publisher changes a final status only by marking its row. */
  lemma PublisherLeaves(cfg: Config, s: State, e: Event, n: Id, st: Status)
    requires Wf(s) && ByPublisher(e) && IsFinal(s, n, st) && !AboutToBeMarked(s, n)
    ensures IsFinal(Step(cfg, s, e), n, st)
  {
    if e.Commit? && e.call < |s.calls| {
      CommitAddsNewRows(s, e.call, e.answer);
    } else if e.ApiMark? && At(s, e.call, Mark) {
      assert !CallMarks(s, e.call, n);
    } else if e.SchedMark? && HasHead(s, e.sched, true) {
      assert !SchedMarks(s, e.sched, n);
    }
  }

  lemma ClosedOtherwise(cfg: Config, s: State, e: Event, n: Id, st: Status)
    requires Wf(s) && !e.Work? && IsFinal(s, n, st) && Closed(cfg, s, n, st)
    ensures var t := Step(cfg, s, e); IsFinal(t, n, st) && !HasWriter(cfg, t, n, st)
  {
    var t := Step(cfg, s, e);
    if ByPublisher(e) {
      PublisherLeaves(cfg, s, e, n, st);
      PublisherSteps(cfg, s, e);
    }
    forall k | 0 <= k < |t.deliveries| && Of(t.deliveries[k].body, n) ensures !WritesOther(cfg, t.deliveries[k].pc, st) {
      if k < |s.deliveries| { PcsStay(cfg, s, e, k); }
    }
  }

  lemma {:induction false} ClosedForever(cfg: Config, s: State, es: seq<Event>, n: Id, st: Status)
    requires Wf(s) && IsFinal(s, n, st) && Closed(cfg, s, n, st)
    ensures var t := Run(cfg, s, es); Wf(t) && IsFinal(t, n, st) && Closed(cfg, t, n, st)
  {
    if es != [] {
      var u, e := Run(cfg, s, es[..|es| - 1]), es[|es| - 1];
      ClosedForever(cfg, s, es[..|es| - 1], n, st);
      StepKeeps(cfg, u, e);
      IdleCopies(cfg, u, e, n);
      IdleDeliveries(cfg, u, e, n);
      IdlePublishers(cfg, u, e, n);
      ClosedMarks(cfg, u, e, n);
      if e.Work? {
        if e.delivery < |u.deliveries| { ClosedByWork(cfg, u, e.delivery, e.input, n, st); }
      } else {
        ClosedOtherwise(cfg, u, e, n, st);
      }
    }
  }

  // ---------------------------------------------------------------- what is open can change it

  ghost predicate Changes(cfg: Config, s: State, es: seq<Event>, n: Id, st: Status) {
    var t := Run(cfg, s, es); n in t.rows && t.rows[n].status != st
  }

  lemma OneChanges(cfg: Config, s: State, e: Event, n: Id, st: Status)
    requires n in Step(cfg, s, e).rows && Step(cfg, s, e).rows[n].status != st
    ensures Changes(cfg, s, [e], n, st)
  {
    assert [e][..0] == [];
    assert Run(cfg, s, []) == s;
  }

  lemma ThenChanges(cfg: Config, s: State, a: seq<Event>, b: seq<Event>, n: Id, st: Status)
    requires Changes(cfg, Run(cfg, s, a), b, n, st)
    ensures Changes(cfg, s, a + b, n, st)
  {
    RunConcat(cfg, s, a, b);
  }

  lemma MarkChanges(cfg: Config, s: State, n: Id, st: Status) returns (es: seq<Event>)
    requires Wf(s) && IsFinal(s, n, st) && AboutToBeMarked(s, n)
    ensures Changes(cfg, s, es, n, st)
  {
    if i :| 0 <= i < |s.calls| && CallMarks(s, i, n) {
      assert At(s, i, Mark);
      es := [ApiMark(i, true)];
      OneChanges(cfg, s, ApiMark(i, true), n, st);
    } else {
      var j :| 0 <= j < |s.scheds| && SchedMarks(s, j, n);
      assert HasHead(s, j, true);
      es := [SchedMark(j, true)];
      OneChanges(cfg, s, SchedMark(j, true), n, st);
    }
  }

  lemma WriteChanges(cfg: Config, s: State, d: nat, n: Id, st: Status)
    requires Wf(s) && d < |s.deliveries| && Of(s.deliveries[d].body, n) && IsFinal(s, n, st)
    requires WritesOther(cfg, s.deliveries[d].pc, st) && !s.deliveries[d].pc.AtCount?
    ensures Changes(cfg, s, [Work(d, Plain(true))], n, st)
  {
    assert WfDelivery(s, s.deliveries[d]);
    OneChanges(cfg, s, Work(d, Plain(true)), n, st);
  }

  lemma CountLeadsToWrite(cfg: Config, s: State, d: nat, n: Id, st: Status)
    requires Wf(s) && d < |s.deliveries| && Of(s.deliveries[d].body, n) && IsFinal(s, n, st)
    requires s.deliveries[d].pc.AtCount? && WritesOther(cfg, s.deliveries[d].pc, st)
    ensures var t := Step(cfg, s, Work(d, Plain(true)));
            && IsFinal(t, n, st) && d < |t.deliveries| && Of(t.deliveries[d].body, n)
            && WritesOther(cfg, t.deliveries[d].pc, st) && !t.deliveries[d].pc.AtCount?
  {
    assert WfDelivery(s, s.deliveries[d]);
  }

  lemma WriterChanges(cfg: Config, s: State, d: nat, n: Id, st: Status) returns (es: seq<Event>)
    requires Wf(s) && d < |s.deliveries| && Of(s.deliveries[d].body, n) && IsFinal(s, n, st)
    requires WritesOther(cfg, s.deliveries[d].pc, st)
    ensures Changes(cfg, s, es, n, st)
  {
    var e := Work(d, Plain(true));
    if s.deliveries[d].pc.AtCount? {
      CountLeadsToWrite(cfg, s, d, n, st);
      StepKeeps(cfg, s, e);
      var t := Step(cfg, s, e);
      WriteChanges(cfg, t, d, n, st);
      assert [e][..0] == [] && Run(cfg, s, []) == s && Run(cfg, s, [e]) == t;
      es := [e] + [e];
      ThenChanges(cfg, s, [e], [e], n, st);
    } else {
      es := [e];
      WriteChanges(cfg, s, d, n, st);
    }
  }

  /** The provider's next answer can be the one that the row does not show. */
  lemma AnswerLeadsToWrite(cfg: Config, s: State, d: nat, n: Id, st: Status)
    requires Wf(s) && d < |s.deliveries| && Of(s.deliveries[d].body, n) && IsFinal(s, n, st) && s.deliveries[d].pc.AtSend?
    ensures var t := Step(cfg, s, Work(d, Provider(if st == Sent then Permanent("") else Delivered(""))));
            && IsFinal(t, n, st) && d < |t.deliveries| && Of(t.deliveries[d].body, n)
            && WritesOther(cfg, t.deliveries[d].pc, st)
  {
    assert WfDelivery(s, s.deliveries[d]);
  }

  lemma SenderChanges(cfg: Config, s: State, d: nat, n: Id, st: Status) returns (es: seq<Event>)
    requires Wf(s) && d < |s.deliveries| && Of(s.deliveries[d].body, n) && IsFinal(s, n, st) && s.deliveries[d].pc.AtSend?
    ensures Changes(cfg, s, es, n, st)
  {
    var e := Work(d, Provider(if st == Sent then Permanent("") else Delivered("")));
    AnswerLeadsToWrite(cfg, s, d, n, st);
    StepKeeps(cfg, s, e);
    var rest := WriterChanges(cfg, Step(cfg, s, e), d, n, st);
    assert [e][..0] == [] && Run(cfg, s, []) == s && Run(cfg, s, [e]) == Step(cfg, s, e);
    es := [e] + rest;
    ThenChanges(cfg, s, [e], rest, n, st);
  }

  lemma OnlySendsCall(cfg: Config, s: State, e: Event, n: Id)
    requires Wf(s) && Calls(Step(cfg, s, e), n) > Calls(s, n)
    ensures e.Work? && e.delivery < |s.deliveries| && Of(s.deliveries[e.delivery].body, n) && s.deliveries[e.delivery].pc.AtSend?
  {
    if ByPublisher(e) {
      PublisherSteps(cfg, s, e);
    } else if e.Work? && e.delivery < |s.deliveries| {
      assert WfDelivery(s, s.deliveries[e.delivery]);
      OneSend(cfg, s, e.delivery, e.input);
      WorkCalls(s, e.delivery, WorkMove(cfg, s, e.delivery, e.input), n);
    }
  }

  /** Before a run calls the provider there is a worker about to do so. */
  lemma {:induction false} FirstCall(cfg: Config, s: State, es: seq<Event>, n: Id) returns (k: nat, d: nat)
    requires Wf(s) && Calls(Run(cfg, s, es), n) > Calls(s, n)
    ensures k < |es|
    ensures var u := Run(cfg, s, es[..k]);
            Wf(u) && d < |u.deliveries| && Of(u.deliveries[d].body, n) && u.deliveries[d].pc.AtSend?
  {
    var last := |es| - 1;
    var u := Run(cfg, s, es[..last]);
    RunKeeps(cfg, s, es[..last]);
    if Calls(u, n) > Calls(s, n) {
      k, d := FirstCall(cfg, s, es[..last], n);
      assert es[..last][..k] == es[..k];
    } else {
      OnlySendsCall(cfg, u, es[last], n);
      k, d := last, es[last].delivery;
    }
  }

  lemma OpenChanges(cfg: Config, s: State, n: Id, st: Status) returns (es: seq<Event>)
    requires Wf(s) && IsFinal(s, n, st) && !Idle(s, n)
    ensures Changes(cfg, s, es, n, st)
  {
    CanBeSentIffNotIdle(cfg, s, n);
    var calls: seq<Event> :| Calls(Run(cfg, s, calls), n) > Calls(s, n);
    var k, d := FirstCall(cfg, s, calls, n);
    var u := Run(cfg, s, calls[..k]);
    RunKeeps(cfg, s, calls[..k]);
    if u.rows[n].status == st {
      var rest := SenderChanges(cfg, u, d, n, st);
      es := calls[..k] + rest;
      ThenChanges(cfg, s, calls[..k], rest, n, st);
    } else {
      es := calls[..k];
    }
  }

  /** `sent`, `failed`, `cancelled` and a left-over `sending` are final exactly when nothing is left that could write the row: no
      message ready or unacked, no worker before its send or before the write of another status, and
      no publisher that still has the row to publish or to mark. If any of these is left, some
      continuation changes the status. */
  lemma FinalIffClosed(cfg: Config, s: State, n: Id, st: Status)
    requires Wf(s) && IsFinal(s, n, st)
    ensures (forall es: seq<Event> :: !Changes(cfg, s, es, n, st)) <==> Closed(cfg, s, n, st)
  {
    if Closed(cfg, s, n, st) {
      forall es: seq<Event> ensures !Changes(cfg, s, es, n, st) { ClosedForever(cfg, s, es, n, st); }
    } else {
      var es;
      if !Idle(s, n) {
        es := OpenChanges(cfg, s, n, st);
      } else if AboutToBeMarked(s, n) {
        es := MarkChanges(cfg, s, n, st);
      } else {
        var d :| 0 <= d < |s.deliveries| && Of(s.deliveries[d].body, n) && WritesOther(cfg, s.deliveries[d].pc, st);
        es := WriterChanges(cfg, s, d, n, st);
      }
      assert Changes(cfg, s, es, n, st);
    }
  }
}
