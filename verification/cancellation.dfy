/** When cancelling a notification really stops it. The worker never looks at the status, so
    this is decided by where the notification is, not by what its row says. */
module Cancellation {
  import opened Basics
  import opened Model
  import opened Repository
  import opened Pipeline
  import opened Frame
  import opened Tokens
  import opened Evidence
  import opened PublishOnce

  predicate HasMessage(s: State, n: Id) {
    exists c :: 0 <= c < |s.copies| && Of(s.copies[c].body, n) && (s.copies[c].place == Ready || s.copies[c].place.Unacked?)
  }

  predicate BeforeSend(pc: Pc) { pc.AtDecode? || BeforeAnswer(pc) }

  predicate HasSender(s: State, n: Id) {
    exists d :: 0 <= d < |s.deliveries| && Of(s.deliveries[d].body, n) && BeforeSend(s.deliveries[d].pc)
  }

  /** `n` is still to be published by call `i`: at its head and not only to be marked, or later. */
  predicate CallOwes(s: State, i: nat, n: Id)
    requires i < |s.calls|
  {
    var pc := s.calls[i].pc;
    pc.Publishing? && exists k :: 0 <= k < |pc.todo| && pc.todo[k] == n && !(k == 0 && pc.stage == Mark)
  }

  predicate SchedOwes(s: State, j: nat, n: Id)
    requires j < |s.scheds|
  {
    var sched := s.scheds[j];
    exists k :: 0 <= k < |sched.todo| && Of(sched.todo[k], n) && !(k == 0 && sched.marking)
  }

  predicate HasPublisher(s: State, n: Id) {
    || (exists i :: 0 <= i < |s.calls| && CallOwes(s, i, n))
    || (exists j :: 0 <= j < |s.scheds| && SchedOwes(s, j, n))
  }

  /** Nothing in the system will touch the provider for `n` again. */
  predicate Idle(s: State, n: Id) {
    !HasMessage(s, n) && !HasSender(s, n) && !HasPublisher(s, n)
  }

  predicate NotPending(s: State, n: Id) {
    n in s.rows && s.rows[n].status != Pending
  }

  // ---------------------------------------------------------------- idle stays idle

  lemma IdleCopies(cfg: Config, s: State, e: Event, n: Id)
    requires Wf(s) && Idle(s, n)
    ensures !HasMessage(Step(cfg, s, e), n)
  {
    var t := Step(cfg, s, e);
    CopyOrigin(cfg, s, e);
    // What is published now is not n.
    if e.ApiPublish? && At(s, e.call, Send) {
      assert !CallOwes(s, e.call, n);
      assert s.calls[e.call].pc.todo[0] != n;
    }
    if e.SchedPublish? && HasHead(s, e.sched, false) {
      assert !SchedOwes(s, e.sched, n);
      assert !Of(s.scheds[e.sched].todo[0], n);
    }
    forall c | 0 <= c < |t.copies| && Of(t.copies[c].body, n) ensures t.copies[c].place == Acked || t.copies[c].place == Dead {
      if c < |s.copies| {
        StepKeeps(cfg, s, e);
        assert CopyLater(s.copies[c], t.copies[c]);
        assert Of(s.copies[c].body, n);
      }
    }
  }

  lemma IdleDeliveries(cfg: Config, s: State, e: Event, n: Id)
    requires Wf(s) && Idle(s, n)
    ensures !HasSender(Step(cfg, s, e), n)
  {
    var t := Step(cfg, s, e);
    forall d | 0 <= d < |t.deliveries| && Of(t.deliveries[d].body, n) ensures !BeforeSend(t.deliveries[d].pc) {
      if e.Work? && e.delivery == d && d < |s.deliveries| {
        assert WfDelivery(s, s.deliveries[d]);
        assert t.deliveries[d].body == s.deliveries[d].body;
        PastSend(cfg, s, d, e.input);
      } else if d < |s.deliveries| {
        PcsStay(cfg, s, e, d);
        assert !BeforeSend(s.deliveries[d].pc);
      }
    }
  }

  lemma PastSend(cfg: Config, s: State, d: nat, input: Input)
    requires d < |s.deliveries| && s.deliveries[d].copy < |s.copies| && !BeforeSend(s.deliveries[d].pc)
    ensures !BeforeSend(WorkMove(cfg, s, d, input).pc)
  {
  }

  /** Only its own steps move a delivery. */
  lemma PcsStay(cfg: Config, s: State, e: Event, d: nat)
    requires Wf(s) && d < |s.deliveries| && !(e.Work? && e.delivery == d)
    ensures var t := Step(cfg, s, e); d < |t.deliveries| && t.deliveries[d] == s.deliveries[d]
  {
    if ByPublisher(e) { PublisherSteps(cfg, s, e); }
  }

  lemma CallStaysIdle(cfg: Config, s: State, e: Event, i: nat, n: Id)
    requires Wf(s) && NotPending(s, n) && i < |Step(cfg, s, e).calls|
    requires i < |s.calls| ==> !CallOwes(s, i, n)
    ensures !CallOwes(Step(cfg, s, e), i, n)
  {
    var t := Step(cfg, s, e);
    if t.calls[i].pc.Publishing? {
      CallOrigin(cfg, s, e, i);
      var (b, a) := (t.calls[i].pc, s.calls[i].pc);
      if e.Commit? && e.call == i && b != a {
        CommittedIds(s, i);
        assert NewIds(s.rows, b.todo);
      } else if b != a && b.todo != a.todo {
        assert forall k | 0 <= k < |b.todo| :: b.todo[k] == a.todo[k + 1];
      }
    }
  }

  lemma SchedStaysIdle(cfg: Config, s: State, e: Event, j: nat, n: Id)
    requires NotPending(s, n) && j < |s.scheds| && !SchedOwes(s, j, n)
    ensures j < |Step(cfg, s, e).scheds| && !SchedOwes(Step(cfg, s, e), j, n)
  {
    SchedOrigin(cfg, s, e, j);
    var (b, a) := (Step(cfg, s, e).scheds[j], s.scheds[j]);
    if e.Poll? && e.sched == j && b != a {
      assert forall k | 0 <= k < |e.picked| :: DuePending(s.rows, s.now, e.picked[k]);
    } else if b.todo != a.todo {
      assert forall k | 0 <= k < |b.todo| :: b.todo[k] == a.todo[k + 1];
    }
  }

  lemma IdlePublishers(cfg: Config, s: State, e: Event, n: Id)
    requires Wf(s) && Idle(s, n) && NotPending(s, n)
    ensures !HasPublisher(Step(cfg, s, e), n)
  {
    var t := Step(cfg, s, e);
    forall i | 0 <= i < |t.calls| ensures !CallOwes(t, i, n) { CallStaysIdle(cfg, s, e, i, n); }
    forall j | 0 <= j < |t.scheds| ensures !SchedOwes(t, j, n) {
      assert |t.scheds| == |s.scheds| by { StepKeeps(cfg, s, e); }
      SchedStaysIdle(cfg, s, e, j, n);
    }
  }

  lemma IdleWork(cfg: Config, s: State, d: nat, input: Input, n: Id)
    requires Wf(s) && Idle(s, n) && d < |s.deliveries|
    ensures Calls(Step(cfg, s, Work(d, input)), n) == Calls(s, n)
  {
    assert WfDelivery(s, s.deliveries[d]);
    assert Of(s.deliveries[d].body, n) ==> !BeforeSend(s.deliveries[d].pc);
    OneSend(cfg, s, d, input);
    WorkCalls(s, d, WorkMove(cfg, s, d, input), n);
  }

  lemma IdleCalls(cfg: Config, s: State, e: Event, n: Id)
    requires Wf(s) && Idle(s, n)
    ensures Calls(Step(cfg, s, e), n) == Calls(s, n)
  {
    if ByPublisher(e) {
      PublisherSteps(cfg, s, e);
    } else if e.Work? && e.delivery < |s.deliveries| {
      IdleWork(cfg, s, e.delivery, e.input, n);
    }
  }

  lemma {:induction false} IdleForever(cfg: Config, s: State, es: seq<Event>, n: Id)
    requires Wf(s) && Idle(s, n) && NotPending(s, n)
    ensures var t := Run(cfg, s, es); Wf(t) && Idle(t, n) && NotPending(t, n) && Calls(t, n) == Calls(s, n)
  {
    if es != [] {
      var u, e := Run(cfg, s, es[..|es| - 1]), es[|es| - 1];
      IdleForever(cfg, s, es[..|es| - 1], n);
      StepKeeps(cfg, u, e);
      RowStays(cfg, u, e, n);
      IdleCopies(cfg, u, e, n);
      IdleDeliveries(cfg, u, e, n);
      IdlePublishers(cfg, u, e, n);
      IdleCalls(cfg, u, e, n);
    }
  }

  // ---------------------------------------------------------------- not idle can still send

  lemma RunFirst(cfg: Config, s: State, e: Event, es: seq<Event>)
    ensures Run(cfg, s, [e] + es) == Run(cfg, Step(cfg, s, e), es)
  {
    RunConcat(cfg, s, [e], es);
    assert [e][..0] == [] && Run(cfg, s, [e][..0]) == s;
    assert Run(cfg, s, [e]) == Step(cfg, s, e);
  }

  /** Steps left before the provider is called. */
  function ToSend(pc: Pc): nat
    requires BeforeSend(pc)
  {
    if pc.AtDecode? then 4 else if pc.AtFetch? then 3 else if pc.AtMarkSending? then 2 else if pc.AtLimit? then 1 else 0
  }

  function Smooth(pc: Pc): Input {
    if pc.AtSend? then Provider(Delivered("id")) else if pc.AtLimit? then Limiter(Admit) else Plain(true)
  }

  lemma WorkerAdvances(cfg: Config, s: State, d: nat)
    requires d < |s.deliveries| && s.deliveries[d].copy < |s.copies|
    requires s.deliveries[d].body.Note? && BeforeSend(s.deliveries[d].pc)
    ensures var (m, pc) := (WorkMove(cfg, s, d, Smooth(s.deliveries[d].pc)), s.deliveries[d].pc);
            if pc.AtSend? then m.sent == [SendRecord(d, s.deliveries[d].copy, s.deliveries[d].body.id, pc.retry, Delivered("id"))]
            else m.sent == [] && BeforeSend(m.pc) && ToSend(m.pc) == ToSend(pc) - 1
  {
  }

  /** From any point before the send, a worker that meets no obstacle sends. */
  lemma WorkerCanSend(cfg: Config, s: State, d: nat, n: Id) returns (es: seq<Event>)
    requires Wf(s) && d < |s.deliveries| && Of(s.deliveries[d].body, n) && BeforeSend(s.deliveries[d].pc)
    ensures Calls(Run(cfg, s, es), n) > Calls(s, n)
    decreases ToSend(s.deliveries[d].pc)
  {
    assert WfDelivery(s, s.deliveries[d]);
    WorkerAdvances(cfg, s, d);
    var e := Work(d, Smooth(s.deliveries[d].pc));
    var t, m := Step(cfg, s, e), WorkMove(cfg, s, d, e.input);
    var rest := [];
    if m.sent == [] {
      StepKeeps(cfg, s, e);
      assert t.sends == s.sends;
      rest := WorkerCanSend(cfg, t, d, n);
    } else {
      TotalSnoc(s.sends, m.sent[0], CalledFor(n));
    }
    es := [e] + rest;
    RunFirst(cfg, s, e, rest);
  }

  lemma ReadyCanBeSent(cfg: Config, s: State, c: nat, n: Id) returns (es: seq<Event>)
    requires Wf(s) && c < |s.copies| && Of(s.copies[c].body, n) && s.copies[c].place == Ready
    ensures Calls(Run(cfg, s, es), n) > Calls(s, n)
  {
    var t := Step(cfg, s, Deliver(c));
    StepKeeps(cfg, s, Deliver(c));
    var rest := WorkerCanSend(cfg, t, |s.deliveries|, n);
    es := [Deliver(c)] + rest;
    RunFirst(cfg, s, Deliver(c), rest);
  }

  lemma MessageCanBeSent(cfg: Config, s: State, c: nat, n: Id) returns (es: seq<Event>)
    requires Wf(s) && c < |s.copies| && Of(s.copies[c].body, n) && (s.copies[c].place == Ready || s.copies[c].place.Unacked?)
    ensures Calls(Run(cfg, s, es), n) > Calls(s, n)
  {
    if s.copies[c].place == Ready {
      es := ReadyCanBeSent(cfg, s, c, n);
    } else {
      StepKeeps(cfg, s, Lose(c));
      var rest := ReadyCanBeSent(cfg, Step(cfg, s, Lose(c)), c, n);
      es := [Lose(c)] + rest;
      RunFirst(cfg, s, Lose(c), rest);
    }
  }

  /** A call about to publish `n` does so. */
  lemma HeadCanBeSent(cfg: Config, s: State, i: nat, n: Id) returns (es: seq<Event>)
    requires Wf(s) && At(s, i, Send) && s.calls[i].pc.todo[0] == n
    ensures Calls(Run(cfg, s, es), n) > Calls(s, n)
  {
    var e := ApiPublish(i, true);
    var t := Step(cfg, s, e);
    StepKeeps(cfg, s, e);
    assert Of(t.copies[|s.copies|].body, n) && t.copies[|s.copies|].place == Ready;
    var rest := MessageCanBeSent(cfg, t, |s.copies|, n);
    es := [e] + rest;
    RunFirst(cfg, s, e, rest);
  }

  /** A call that has still to decide on `n` waits until it is due and decides to send. */
  lemma DueHeadCanBeSent(cfg: Config, s: State, i: nat, n: Id) returns (es: seq<Event>)
    requires Wf(s) && At(s, i, Check) && s.calls[i].pc.todo[0] == n
    ensures Calls(Run(cfg, s, es), n) > Calls(s, n)
  {
    var due := s.rows[n].scheduledAt;
    var tick := Tick(if due.Some? && due.value >= s.now then due.value - s.now + 1 else 0);
    var t := Step(cfg, s, tick);
    StepKeeps(cfg, s, tick);
    var u := Step(cfg, t, Decide(i));
    StepKeeps(cfg, t, Decide(i));
    assert At(t, i, Check) && u.calls[i].pc == Publishing(s.calls[i].pc.todo, Send);
    var rest := HeadCanBeSent(cfg, u, i, n);
    RunFirst(cfg, t, Decide(i), rest);
    es := [tick] + ([Decide(i)] + rest);
    RunFirst(cfg, s, tick, [Decide(i)] + rest);
  }

  /** A call that still owes `n` at position `k` gets there by failing to publish the rest. */
  lemma CallCanSend(cfg: Config, s: State, i: nat, k: nat, n: Id) returns (es: seq<Event>)
    requires Wf(s) && i < |s.calls| && s.calls[i].pc.Publishing?
    requires var pc := s.calls[i].pc; k < |pc.todo| && pc.todo[k] == n && !(k == 0 && pc.stage == Mark)
    ensures Calls(Run(cfg, s, es), n) > Calls(s, n)
    decreases k, if s.calls[i].pc.stage == Check then 1 else 0
  {
    var pc := s.calls[i].pc;
    assert pc.todo[0] in s.rows && At(s, i, pc.stage);
    if k == 0 && pc.stage == Check {
      es := DueHeadCanBeSent(cfg, s, i, n);
    } else if k == 0 {
      es := HeadCanBeSent(cfg, s, i, n);
    } else {
      var e := if pc.stage == Mark then ApiMark(i, true) else if pc.stage == Send then ApiPublish(i, false) else Decide(i);
      var t := Step(cfg, s, e);
      StepKeeps(cfg, s, e);
      assert t.sends == s.sends;
      var rest;
      if t.calls[i].pc.todo == pc.todo {
        rest := CallCanSend(cfg, t, i, k, n);
      } else {
        assert t.calls[i].pc.todo[k - 1] == n;
        rest := CallCanSend(cfg, t, i, k - 1, n);
      }
      es := [e] + rest;
      RunFirst(cfg, s, e, rest);
    }
  }

  lemma SchedCanSend(cfg: Config, s: State, j: nat, k: nat, n: Id) returns (es: seq<Event>)
    requires Wf(s) && j < |s.scheds|
    requires var sched := s.scheds[j]; k < |sched.todo| && Of(sched.todo[k], n) && !(k == 0 && sched.marking)
    ensures Calls(Run(cfg, s, es), n) > Calls(s, n)
    decreases k
  {
    var sched := s.scheds[j];
    assert sched.todo[0].Note? && sched.todo[0].id in s.rows && HasHead(s, j, sched.marking);
    var e := if k == 0 then SchedPublish(j, true) else if sched.marking then SchedMark(j, true) else SchedPublish(j, false);
    var t := Step(cfg, s, e);
    StepKeeps(cfg, s, e);
    assert t.sends == s.sends;
    var rest: seq<Event>;
    if k == 0 {
      assert Of(t.copies[|s.copies|].body, n) && t.copies[|s.copies|].place == Ready;
      rest := MessageCanBeSent(cfg, t, |s.copies|, n);
    } else {
      assert t.scheds[j].todo == sched.todo[1..] && t.scheds[j].todo[k - 1] == sched.todo[k] && !t.scheds[j].marking;
      rest := SchedCanSend(cfg, t, j, k - 1, n);
    }
    es := [e] + rest;
    RunFirst(cfg, s, e, rest);
  }

  // ---------------------------------------------------------------- results

  /** The provider can be called again for a notification that is no longer pending exactly when
      a message of it is ready or unacked, a worker is on its way to send it, or a publisher has
      still to publish it. Its status, cancelled or not, plays no part. */
  lemma CanBeSentIffNotIdle(cfg: Config, s: State, n: Id)
    requires Wf(s) && NotPending(s, n)
    ensures (exists es: seq<Event> :: Calls(Run(cfg, s, es), n) > Calls(s, n)) <==> !Idle(s, n)
  {
    if Idle(s, n) {
      forall es: seq<Event> ensures Calls(Run(cfg, s, es), n) == Calls(s, n) { IdleForever(cfg, s, es, n); }
    } else {
      var es: seq<Event>;
      if HasMessage(s, n) {
        var c :| 0 <= c < |s.copies| && Of(s.copies[c].body, n) && (s.copies[c].place == Ready || s.copies[c].place.Unacked?);
        es := MessageCanBeSent(cfg, s, c, n);
      } else if HasSender(s, n) {
        var d :| 0 <= d < |s.deliveries| && Of(s.deliveries[d].body, n) && BeforeSend(s.deliveries[d].pc);
        es := WorkerCanSend(cfg, s, d, n);
      } else if i :| 0 <= i < |s.calls| && CallOwes(s, i, n) {
        var k :| 0 <= k < |s.calls[i].pc.todo| && s.calls[i].pc.todo[k] == n && !(k == 0 && s.calls[i].pc.stage == Mark);
        es := CallCanSend(cfg, s, i, k, n);
      } else {
        var j :| 0 <= j < |s.scheds| && SchedOwes(s, j, n);
        var k :| 0 <= k < |s.scheds[j].todo| && Of(s.scheds[j].todo[k], n) && !(k == 0 && s.scheds[j].marking);
        es := SchedCanSend(cfg, s, j, k, n);
      }
      assert Calls(Run(cfg, s, es), n) > Calls(s, n);
    }
  }

  /** Cancelled before any publisher took it up: no message, in no call and in no snapshot. */
  ghost predicate Withdrawn(s: State, n: Id) {
    && n in s.rows && s.rows[n].status == Cancelled
    && !HasCopy(s, n)
    && (forall i | 0 <= i < |s.calls| && s.calls[i].pc.Publishing? :: n !in s.calls[i].pc.todo)
    && (forall j | 0 <= j < |s.scheds| :: !Carries(s.scheds[j].todo, n))
  }

  lemma WithdrawnKept(cfg: Config, s: State, e: Event, n: Id)
    requires Wf(s) && Withdrawn(s, n)
    ensures Withdrawn(Step(cfg, s, e), n)
  {
    var t := Step(cfg, s, e);
    StepKeeps(cfg, s, e);
    CopyOrigin(cfg, s, e);
    forall c | 0 <= c < |t.copies| ensures !Of(t.copies[c].body, n) {
      if c < |s.copies| {
        assert CopyLater(s.copies[c], t.copies[c]);
      } else if e.SchedPublish? {
        assert !Carries(s.scheds[e.sched].todo, n);
      }
    }
    forall i | 0 <= i < |t.calls| && t.calls[i].pc.Publishing? ensures n !in t.calls[i].pc.todo {
      TodoOrigin(cfg, s, e, i);
    }
    forall j | 0 <= j < |t.scheds| ensures !Carries(t.scheds[j].todo, n) {
      SchedOrigin(cfg, s, e, j);
      var (b, a) := (t.scheds[j], s.scheds[j]);
      if e.Poll? && e.sched == j && b != a {
        assert forall k | 0 <= k < |e.picked| :: DuePending(s.rows, s.now, e.picked[k]);
      } else if b.todo != a.todo {
        assert forall k | 0 <= k < |b.todo| :: b.todo[k] == a.todo[k + 1];
      }
    }
    WithdrawnRow(cfg, s, e, n);
  }

  lemma WithdrawnRow(cfg: Config, s: State, e: Event, n: Id)
    requires Wf(s) && Withdrawn(s, n)
    ensures var t := Step(cfg, s, e); n in t.rows && t.rows[n].status == Cancelled
  {
    if e.Work? {
      if e.delivery < |s.deliveries| {
        assert WfDelivery(s, s.deliveries[e.delivery]);
        assert !Of(s.copies[s.deliveries[e.delivery].copy].body, n);
        MoveShape(cfg, s, e.delivery, e.input);
      }
    } else if e.Commit? && e.call < |s.calls| {
      CommitAddsNewRows(s, e.call, e.answer);
    } else if e.SchedMark? && HasHead(s, e.sched, true) {
      assert !Carries(s.scheds[e.sched].todo, n);
    }
  }

  /** A cancellation that comes before any publisher took the row up is final: in every
      continuation the row stays cancelled, is never queued and never reaches the provider. */
  lemma {:induction false} CancelledForGood(cfg: Config, s: State, es: seq<Event>, n: Id)
    requires Wf(s) && Withdrawn(s, n)
    ensures var t := Run(cfg, s, es);
            && Wf(t) && Withdrawn(t, n)
            && t.rows[n].status == Cancelled && Published(t, n) == 0 && Calls(t, n) == Calls(s, n)
  {
    var t := Run(cfg, s, es);
    if es != [] {
      var u, e := Run(cfg, s, es[..|es| - 1]), es[|es| - 1];
      CancelledForGood(cfg, s, es[..|es| - 1], n);
      StepKeeps(cfg, u, e);
      WithdrawnKept(cfg, u, e, n);
      assert Idle(u, n) by {
        forall d | 0 <= d < |u.deliveries| ensures !Of(u.deliveries[d].body, n) { assert WfDelivery(u, u.deliveries[d]); }
        forall j | 0 <= j < |u.scheds| ensures !SchedOwes(u, j, n) { assert !Carries(u.scheds[j].todo, n); }
      }
      IdleCalls(cfg, u, e, n);
    }
    assert forall c | 0 <= c < |t.copies| :: CopyOf(n)(t.copies[c]) == 0;
    TotalZero(t.copies, CopyOf(n));
  }
}
