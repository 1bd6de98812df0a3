/** Workers finish: every message is given up or delivered after a bounded number of steps. */
module Termination {
  import opened Basics
  import opened Pipeline
  import opened Frame
  import opened Tokens
  import opened RetryBound
  import opened PublishOnce
  import opened Cancellation

  // ---------------------------------------------------------------- one message's attempts

  function CountOf(s: State, body: Body): nat {
    if body.Note? then RetryCount(s, body.id) else 0
  }

  predicate PcSound(pc: Pc, fails: nat, count: nat, attempts: nat) {
    if Holds(pc) then fails < attempts && fails <= pc.retry <= count
    else if pc.AtDecode? || pc.AtFetch? || pc.AtMarkQueued? || pc.AtBackoff? || pc.AtNackRetry? then
      fails < attempts && fails <= count
    else fails <= attempts
  }

  predicate Unharmed(s: State, copy: Copy) {
    copy.lost == 0 && (copy.body.Note? ==> copy.body.id !in s.readFailed && copy.body.id !in s.writeFailed)
  }

  ghost predicate CopySound(s: State, copy: Copy, attempts: nat) {
    Unharmed(s, copy) ==>
      match copy.place
      case Ready => copy.fails < attempts && copy.fails <= CountOf(s, copy.body)
      case Unacked(d) => d < |s.deliveries| && PcSound(s.deliveries[d].pc, copy.fails, CountOf(s, copy.body), attempts)
      case _ => copy.fails <= attempts
  }

  /** A worker still busy with a message that was never lost holds it. */
  ghost predicate HeldInv(s: State) {
    forall d | 0 <= d < |s.deliveries| && s.deliveries[d].pc != AtEnd ::
      s.deliveries[d].copy < |s.copies| &&
      (s.copies[s.deliveries[d].copy].lost == 0 ==> s.copies[s.deliveries[d].copy].place == Unacked(d))
  }

  ghost predicate SoundInv(cfg: Config, s: State) {
    HeldInv(s) && forall c | 0 <= c < |s.copies| :: CopySound(s, s.copies[c], Attempts(cfg))
  }

  lemma CountsGrow(cfg: Config, s: State, e: Event)
    requires Wf(s)
    ensures var t := Step(cfg, s, e);
            forall body: Body {:trigger CountOf(t, body)} :: CountOf(s, body) <= CountOf(t, body)
  {
    var t := Step(cfg, s, e);
    StepKeeps(cfg, s, e);
    assert forall n | n in s.rows :: n in t.rows && RowLater(s.rows[n], t.rows[n]);
  }

  ghost predicate Holder(s: State, d: nat) {
    d < |s.deliveries| && s.deliveries[d].copy < |s.copies| &&
    (s.deliveries[d].pc != AtEnd && s.copies[s.deliveries[d].copy].lost == 0 ==>
      s.copies[s.deliveries[d].copy].place == Unacked(d))
  }

  lemma HolderKeptByWork(cfg: Config, s: State, k: nat, input: Input, d: nat)
    requires Wf(s) && Holder(s, d) && k < |s.deliveries|
    ensures Holder(Step(cfg, s, Work(k, input)), d)
  {
    assert WfDelivery(s, s.deliveries[k]) && WfDelivery(s, s.deliveries[d]);
    MoveHolds(cfg, s, k, input);
    if k != d && s.copies[s.deliveries[d].copy].lost == 0 && s.deliveries[d].pc != AtEnd {
      OthersStay(cfg, s, Work(k, input), s.deliveries[d].copy, d);
    }
  }

  lemma HolderKept(cfg: Config, s: State, e: Event, d: nat)
    requires Wf(s) && Holder(s, d)
    ensures Holder(Step(cfg, s, e), d)
  {
    if e.Work? {
      if e.delivery < |s.deliveries| { HolderKeptByWork(cfg, s, e.delivery, e.input, d); }
    } else {
      PcsStay(cfg, s, e, d);
      if s.copies[s.deliveries[d].copy].lost == 0 && s.deliveries[d].pc != AtEnd {
        OthersStay(cfg, s, e, s.deliveries[d].copy, d);
      } else {
        StepKeeps(cfg, s, e);
        assert CopyLater(s.copies[s.deliveries[d].copy], Step(cfg, s, e).copies[s.deliveries[d].copy]);
      }
    }
  }

  lemma HeldKept(cfg: Config, s: State, e: Event)
    requires Wf(s) && HeldInv(s)
    ensures HeldInv(Step(cfg, s, e))
  {
    var t := Step(cfg, s, e);
    forall d | 0 <= d < |t.deliveries| && t.deliveries[d].pc != AtEnd ensures Holder(t, d) {
      if d < |s.deliveries| {
        assert WfDelivery(s, s.deliveries[d]);
        HolderKept(cfg, s, e, d);
      } else {
        NewDelivery(cfg, s, e);
      }
    }
  }

  lemma NewDelivery(cfg: Config, s: State, e: Event)
    requires Wf(s) && |Step(cfg, s, e).deliveries| > |s.deliveries|
    ensures |Step(cfg, s, e).deliveries| == |s.deliveries| + 1 && Holder(Step(cfg, s, e), |s.deliveries|)
  {
    if ByPublisher(e) { PublisherSteps(cfg, s, e); }
  }

  lemma MoveHolds(cfg: Config, s: State, d: nat, input: Input)
    requires d < |s.deliveries| && s.deliveries[d].copy < |s.copies|
    ensures var (m, del) := (WorkMove(cfg, s, d, input), s.deliveries[d]);
            && m.copy.lost == s.copies[del.copy].lost
            && (m.pc != AtEnd ==> m.copy.place == s.copies[del.copy].place)
            && (del.pc == AtEnd ==> m == Move(AtEnd, s.copies[del.copy], s.rows, [], multiset{}, multiset{}))
  {
  }

  /** A message held by one delivery is not moved by another's step. */
  lemma OthersStay(cfg: Config, s: State, e: Event, c: nat, d: nat)
    requires Wf(s) && c < |s.copies| && s.copies[c].lost == 0 && s.copies[c].place == Unacked(d)
    requires !(e.Work? && e.delivery == d)
    ensures var t := Step(cfg, s, e);
            c < |t.copies| && (t.copies[c].lost == 0 ==> t.copies[c].place == Unacked(d))
  {
    if ByPublisher(e) { PublisherSteps(cfg, s, e); }
  }

  /** The count a row has after a worker's step on it. */
  function CountAfter(s: State, d: nat, input: Input): nat
    requires d < |s.deliveries|
  {
    var del := s.deliveries[d];
    CountOf(s, del.body) + if del.body.Note? && del.body.id in s.rows && del.pc.AtCount? && input == Plain(true) then 1 else 0
  }

  lemma CountAfterIsCount(cfg: Config, s: State, d: nat, input: Input)
    requires d < |s.deliveries| && s.deliveries[d].copy < |s.copies| && WfDelivery(s, s.deliveries[d])
    ensures CountOf(WorkStep(cfg, s, d, input), s.deliveries[d].body) == CountAfter(s, d, input)
  {
  }

  lemma MovePcSound(cfg: Config, s: State, d: nat, input: Input)
    requires d < |s.deliveries| && s.deliveries[d].copy < |s.copies| && WfDelivery(s, s.deliveries[d])
    requires var copy := s.copies[s.deliveries[d].copy];
             && copy.place == Unacked(d) && (copy.body.Note? ==> copy.body.id in s.rows)
             && PcSound(s.deliveries[d].pc, copy.fails, CountOf(s, copy.body), Attempts(cfg))
    ensures var m := WorkMove(cfg, s, d, input);
            m.readFailed == multiset{} && m.writeFailed == multiset{} ==>
              match m.copy.place
              case Ready => m.copy.fails < Attempts(cfg) && m.copy.fails <= CountAfter(s, d, input)
              case Unacked(k) => k == d && PcSound(m.pc, m.copy.fails, CountAfter(s, d, input), Attempts(cfg))
              case _ => m.copy.fails <= Attempts(cfg)
  {
  }

  /** What one worker's step does to the soundness of the message it holds. */
  lemma MoveSound(cfg: Config, s: State, d: nat, input: Input)
    requires Wf(s) && d < |s.deliveries| && s.deliveries[d].copy < |s.copies|
    requires s.copies[s.deliveries[d].copy].place == Unacked(d)
    requires CopySound(s, s.copies[s.deliveries[d].copy], Attempts(cfg))
    ensures var t := WorkStep(cfg, s, d, input);
            CopySound(t, t.copies[s.deliveries[d].copy], Attempts(cfg))
  {
    var del, copy, m, t := s.deliveries[d], s.copies[s.deliveries[d].copy], WorkMove(cfg, s, d, input), WorkStep(cfg, s, d, input);
    assert WfDelivery(s, del);
    MoveShape(cfg, s, d, input);
    CountAfterIsCount(cfg, s, d, input);
    if Unharmed(t, m.copy) {
      MoveFailures(cfg, s, d, input);
      MovePcSound(cfg, s, d, input);
    }
  }

  /** A worker's failures are its own notification's. */
  lemma MoveFailures(cfg: Config, s: State, d: nat, input: Input)
    requires d < |s.deliveries| && s.deliveries[d].copy < |s.copies|
    ensures var (m, body) := (WorkMove(cfg, s, d, input), s.deliveries[d].body);
            forall n | n in m.readFailed + m.writeFailed :: Of(body, n)
  {
  }

  lemma SoundKeptByWork(cfg: Config, s: State, d: nat, input: Input)
    requires Wf(s) && SoundInv(cfg, s) && d < |s.deliveries|
    ensures SoundInv(cfg, Step(cfg, s, Work(d, input)))
  {
    var e := Work(d, input);
    var t := Step(cfg, s, e);
    assert WfDelivery(s, s.deliveries[d]);
    HeldKept(cfg, s, e);
    CountsGrow(cfg, s, e);
    var c := s.deliveries[d].copy;
    MoveHolds(cfg, s, d, input);
    forall k | 0 <= k < |t.copies| ensures CopySound(t, t.copies[k], Attempts(cfg)) {
      assert CopySound(s, s.copies[k], Attempts(cfg));
      if k == c && s.copies[c].place == Unacked(d) {
        MoveSound(cfg, s, d, input);
      } else if k == c {
        assert t.copies[c].lost == 0 ==> t.copies[c] == s.copies[c];
      }
    }
  }

  lemma SoundKeptByDeliver(cfg: Config, s: State, c: nat)
    requires Wf(s) && SoundInv(cfg, s)
    ensures SoundInv(cfg, Step(cfg, s, Deliver(c)))
  {
    var t := Step(cfg, s, Deliver(c));
    HeldKept(cfg, s, Deliver(c));
    forall k | 0 <= k < |t.copies| ensures CopySound(t, t.copies[k], Attempts(cfg)) {
      assert CopySound(s, s.copies[k], Attempts(cfg));
      assert CountOf(t, s.copies[k].body) == CountOf(s, s.copies[k].body);
      if t.copies[k] == s.copies[k] && s.copies[k].place.Unacked? {
        assert t.deliveries[s.copies[k].place.delivery] == s.deliveries[s.copies[k].place.delivery];
      }
    }
  }

  lemma SoundKeptByLose(cfg: Config, s: State, c: nat)
    requires Wf(s) && SoundInv(cfg, s)
    ensures SoundInv(cfg, Step(cfg, s, Lose(c)))
  {
    var t := Step(cfg, s, Lose(c));
    HeldKept(cfg, s, Lose(c));
    forall k | 0 <= k < |t.copies| ensures CopySound(t, t.copies[k], Attempts(cfg)) {
      assert CopySound(s, s.copies[k], Attempts(cfg));
      assert CountOf(t, s.copies[k].body) == CountOf(s, s.copies[k].body);
    }
  }

  lemma SoundKeptByPublisher(cfg: Config, s: State, e: Event)
    requires Wf(s) && SoundInv(cfg, s) && ByPublisher(e)
    ensures SoundInv(cfg, Step(cfg, s, e))
  {
    var t := Step(cfg, s, e);
    HeldKept(cfg, s, e);
    CountsGrow(cfg, s, e);
    PublisherSteps(cfg, s, e);
    NoWriteFails(cfg, s, e);
    forall k | 0 <= k < |t.copies| ensures CopySound(t, t.copies[k], Attempts(cfg)) {
      if k < |s.copies| { assert CopySound(s, s.copies[k], Attempts(cfg)); }
    }
  }

  lemma SoundKept(cfg: Config, s: State, e: Event)
    requires Wf(s) && SoundInv(cfg, s)
    ensures SoundInv(cfg, Step(cfg, s, e))
  {
    if ByPublisher(e) {
      SoundKeptByPublisher(cfg, s, e);
    } else if e.Work? {
      if e.delivery < |s.deliveries| { SoundKeptByWork(cfg, s, e.delivery, e.input); }
    } else if e.Deliver? {
      SoundKeptByDeliver(cfg, s, e.copy);
    } else {
      SoundKeptByLose(cfg, s, e.copy);
    }
  }

  lemma {:induction false} SoundAlways(cfg: Config, schedulers: nat, es: seq<Event>)
    ensures SoundInv(cfg, After(cfg, schedulers, es))
  {
    if es != [] {
      AfterWf(cfg, schedulers, es[..|es| - 1]);
      SoundAlways(cfg, schedulers, es[..|es| - 1]);
      SoundKept(cfg, After(cfg, schedulers, es[..|es| - 1]), es[|es| - 1]);
    }
  }

  /** Whatever other copies do, a message that was never lost, and whose reads and writes
      succeeded, fails at most max(1, MaxRetries) times. */
  lemma FailuresArePerMessageBounded(cfg: Config, schedulers: nat, es: seq<Event>, c: nat)
    requires var s := After(cfg, schedulers, es); c < |s.copies| && Unharmed(s, s.copies[c])
    ensures After(cfg, schedulers, es).copies[c].fails <= Attempts(cfg)
  {
    SoundAlways(cfg, schedulers, es);
    var s := After(cfg, schedulers, es);
    assert CopySound(s, s.copies[c], Attempts(cfg));
  }

  // ---------------------------------------------------------------- all messages' steps

  const ROUND := 10

  /** Steps left for a worker at `pc` on a message with `left` attempts left. */
  function PcSteps(pc: Pc, left: nat): nat {
    if pc.AtDecode? then ROUND * left - Min(1, left)
    else if pc.AtFetch? then ROUND * left - 2 * Min(1, left)
    else if pc.AtMarkSending? then ROUND * left - 3 * Min(1, left)
    else if pc.AtLimit? then ROUND * left - 4 * Min(1, left)
    else if pc.AtSend? then ROUND * left - 5 * Min(1, left)
    else if pc.AtCount? then ROUND * left - 6 * Min(1, left)
    else if pc.AtMarkQueued? then ROUND * left + 3
    else if pc.AtBackoff? then ROUND * left + 2
    else if pc.AtNackRetry? then ROUND * left + 1
    else if pc.AtMarkSent? || pc.AtMarkFailed? then 2
    else if pc.AtAck? || pc.AtNackDead? then 1
    else 0
  }

  function StepsLeft(ds: seq<Delivery>, attempts: nat): Copy -> nat {
    (c: Copy) =>
      var left := if c.fails <= attempts then attempts - c.fails else 0;
      match c.place
      case Ready => ROUND * left
      case Unacked(d) => if d < |ds| then PcSteps(ds[d].pc, left) else 0
      case _ => 0
  }

  /** Everything works: no connection is lost, no statement fails, nobody shuts down. */
  predicate Calm(e: Event) {
    && !e.Lose?
    && (e.Work? ==> e.input != Plain(false) && e.input != Limiter(Shutdown))
  }

  predicate IsWork(cfg: Config, s: State, e: Event) {
    (e.Deliver? || e.Work?) && Step(cfg, s, e) != s
  }

  function WorkDone(cfg: Config, s: State, es: seq<Event>): nat {
    if es == [] then 0 else
      WorkDone(cfg, s, es[..|es| - 1]) + if IsWork(cfg, Run(cfg, s, es[..|es| - 1]), es[|es| - 1]) then 1 else 0
  }

  ghost predicate CalmInv(cfg: Config, s: State) {
    && SoundInv(cfg, s) && s.readFailed == multiset{} && s.writeFailed == multiset{}
    && forall c | 0 <= c < |s.copies| ::
         s.copies[c].lost == 0
         && (s.copies[c].place.Unacked? ==>
               s.copies[c].place.delivery < |s.deliveries| && s.deliveries[s.copies[c].place.delivery].pc != AtEnd)
  }

  lemma CalmMove(cfg: Config, s: State, d: nat, input: Input)
    requires Wf(s) && CalmInv(cfg, s) && d < |s.deliveries| && s.deliveries[d].pc != AtEnd && Calm(Work(d, input))
    ensures var c := s.deliveries[d].copy; c < |s.copies| && s.copies[c].place == Unacked(d)
    ensures var (m, t, c) := (WorkMove(cfg, s, d, input), WorkStep(cfg, s, d, input), s.deliveries[d].copy);
            && m.readFailed == multiset{} && m.writeFailed == multiset{}
            && (m.copy.place.Unacked? ==> m.copy.place == Unacked(d) && m.pc != AtEnd)
            && var f, g := StepsLeft(s.deliveries, Attempts(cfg)), StepsLeft(t.deliveries, Attempts(cfg));
               (t == s || g(m.copy) < f(s.copies[c]))
  {
    var del, c := s.deliveries[d], s.deliveries[d].copy;
    assert WfDelivery(s, del);
    assert CopySound(s, s.copies[c], Attempts(cfg));
    var m, t := WorkMove(cfg, s, d, input), WorkStep(cfg, s, d, input);
    if m == Move(del.pc, s.copies[c], s.rows, [], multiset{}, multiset{}) {
      assert t == s by {
        assert t.copies == s.copies && t.deliveries == s.deliveries && t.sends == s.sends;
        assert t.readFailed == s.readFailed && t.writeFailed == s.writeFailed;
      }
    }
  }

  lemma IdleWork(cfg: Config, s: State, d: nat, input: Input)
    requires d < |s.deliveries| && s.deliveries[d].copy < |s.copies| && s.deliveries[d].pc == AtEnd
    ensures WorkStep(cfg, s, d, input) == s
  {
    var t := WorkStep(cfg, s, d, input);
    MoveHolds(cfg, s, d, input);
    assert t.copies == s.copies && t.deliveries == s.deliveries && t.sends == s.sends;
    assert t.readFailed == s.readFailed && t.writeFailed == s.writeFailed;
  }

  lemma CalmWork(cfg: Config, s: State, d: nat, input: Input)
    requires Wf(s) && CalmInv(cfg, s) && d < |s.deliveries| && Calm(Work(d, input))
    ensures CalmInv(cfg, Step(cfg, s, Work(d, input)))
  {
    var t, c := Step(cfg, s, Work(d, input)), s.deliveries[d].copy;
    assert WfDelivery(s, s.deliveries[d]);
    if s.deliveries[d].pc == AtEnd {
      IdleWork(cfg, s, d, input);
    } else {
      SoundKept(cfg, s, Work(d, input));
      MoveHolds(cfg, s, d, input);
      CalmMove(cfg, s, d, input);
    }
  }

  lemma CalmProgress(cfg: Config, s: State, d: nat, input: Input)
    requires Wf(s) && CalmInv(cfg, s) && d < |s.deliveries| && Calm(Work(d, input))
    ensures var t := Step(cfg, s, Work(d, input));
            && |t.copies| == |s.copies|
            && Total(t.copies, StepsLeft(t.deliveries, Attempts(cfg))) + (if t != s then 1 else 0)
               <= Total(s.copies, StepsLeft(s.deliveries, Attempts(cfg)))
  {
    var t, c := Step(cfg, s, Work(d, input)), s.deliveries[d].copy;
    assert WfDelivery(s, s.deliveries[d]);
    if s.deliveries[d].pc == AtEnd {
      IdleWork(cfg, s, d, input);
    } else {
      var f, g := StepsLeft(s.deliveries, Attempts(cfg)), StepsLeft(t.deliveries, Attempts(cfg));
      CalmMove(cfg, s, d, input);
      forall k | 0 <= k < |s.copies| && k != c ensures f(s.copies[k]) == g(t.copies[k]) {
        assert t.copies[k] == s.copies[k];
        assert t.copies[k].place.Unacked? ==> t.copies[k].place.delivery != d;
      }
      TotalChange(s.copies, t.copies, c, f, g);
    }
  }

  lemma CalmDeliver(cfg: Config, s: State, c: nat)
    requires Wf(s) && CalmInv(cfg, s) && c < |s.copies| && s.copies[c].place == Ready
    ensures var t := Step(cfg, s, Deliver(c));
            && CalmInv(cfg, t) && |t.copies| == |s.copies|
            && Total(t.copies, StepsLeft(t.deliveries, Attempts(cfg))) + 1
               <= Total(s.copies, StepsLeft(s.deliveries, Attempts(cfg)))
  {
    var t := Step(cfg, s, Deliver(c));
    var f, g := StepsLeft(s.deliveries, Attempts(cfg)), StepsLeft(t.deliveries, Attempts(cfg));
    SoundKept(cfg, s, Deliver(c));
    assert CopySound(s, s.copies[c], Attempts(cfg));
    forall k | 0 <= k < |s.copies| && k != c ensures f(s.copies[k]) == g(t.copies[k]) {
      assert t.copies[k] == s.copies[k];
    }
    TotalChange(s.copies, t.copies, c, f, g);
  }

  lemma CalmPublisher(cfg: Config, s: State, e: Event)
    requires Wf(s) && CalmInv(cfg, s) && ByPublisher(e)
    ensures var t := Step(cfg, s, e);
            && CalmInv(cfg, t)
            && var f, g := StepsLeft(s.deliveries, Attempts(cfg)), StepsLeft(t.deliveries, Attempts(cfg));
               || (|t.copies| == |s.copies| && Total(t.copies, g) == Total(s.copies, f))
               || (|t.copies| == |s.copies| + 1 && Total(t.copies, g) == Total(s.copies, f) + ROUND * Attempts(cfg))
  {
    var t := Step(cfg, s, e);
    SoundKept(cfg, s, e);
    PublisherSteps(cfg, s, e);
    NoWriteFails(cfg, s, e);
    if t.copies != s.copies {
      TotalSnoc(s.copies, t.copies[|s.copies|], StepsLeft(s.deliveries, Attempts(cfg)));
    }
  }

  lemma NoWriteFails(cfg: Config, s: State, e: Event)
    requires ByPublisher(e)
    ensures Step(cfg, s, e).writeFailed == s.writeFailed
  {
  }

  function Allowance(attempts: nat, messages: nat): nat { ROUND * attempts * messages }

  lemma AllowanceGrows(attempts: nat, messages: nat)
    ensures Allowance(attempts, messages + 1) == Allowance(attempts, messages) + ROUND * attempts
  {
    var r := ROUND * attempts;
    assert r * (messages + 1) == r * messages + r;
  }

  /** What is done and what is left fit the messages there are. */
  ghost predicate WithinBudget(cfg: Config, s: State, done: nat) {
    done + Total(s.copies, StepsLeft(s.deliveries, Attempts(cfg))) <= Allowance(Attempts(cfg), |s.copies|)
  }

  lemma CalmStep(cfg: Config, s: State, e: Event, done: nat)
    requires Wf(s) && CalmInv(cfg, s) && Calm(e) && WithinBudget(cfg, s, done)
    ensures CalmInv(cfg, Step(cfg, s, e))
    ensures WithinBudget(cfg, Step(cfg, s, e), done + if IsWork(cfg, s, e) then 1 else 0)
  {
    var t := Step(cfg, s, e);
    if ByPublisher(e) {
      CalmPublisher(cfg, s, e);
      AllowanceGrows(Attempts(cfg), |s.copies|);
    } else if e.Work? {
      if e.delivery < |s.deliveries| {
        CalmWork(cfg, s, e.delivery, e.input);
        CalmProgress(cfg, s, e.delivery, e.input);
      }
    } else if e.copy < |s.copies| && s.copies[e.copy].place == Ready {
      CalmDeliver(cfg, s, e.copy);
    }
  }

  lemma {:induction false} CalmRuns(cfg: Config, schedulers: nat, es: seq<Event>)
    requires forall e | e in es :: Calm(e)
    ensures var s := After(cfg, schedulers, es);
            CalmInv(cfg, s) && WithinBudget(cfg, s, WorkDone(cfg, Init(schedulers), es))
  {
    if es != [] {
      var front, e := es[..|es| - 1], es[|es| - 1];
      CalmRuns(cfg, schedulers, front);
      AfterWf(cfg, schedulers, front);
      assert e in es;
      CalmStep(cfg, After(cfg, schedulers, front), e, WorkDone(cfg, Init(schedulers), front));
    }
  }

  /** When everything works, k messages of whatever notifications cost the workers at most
      10 * max(1, MaxRetries) * k steps in all, not counting the limiter's refusals. */
  lemma WorkIsBounded(cfg: Config, schedulers: nat, es: seq<Event>)
    requires forall e | e in es :: Calm(e)
    ensures WorkDone(cfg, Init(schedulers), es) <= Allowance(Attempts(cfg), |After(cfg, schedulers, es).copies|)
  {
    CalmRuns(cfg, schedulers, es);
  }

  /** The answer that moves a worker on. */
  function GoodAnswer(pc: Pc): Input {
    if pc.AtSend? then Provider(Delivered("id")) else if pc.AtLimit? then Limiter(Admit)
    else if pc.AtBackoff? then Woken(false) else Plain(true)
  }

  lemma WorkerCanMove(cfg: Config, s: State, d: nat)
    requires d < |s.deliveries| && s.deliveries[d].copy < |s.copies| && WfDelivery(s, s.deliveries[d])
    requires s.deliveries[d].pc != AtEnd
    ensures var input := GoodAnswer(s.deliveries[d].pc);
            Calm(Work(d, input)) && WorkMove(cfg, s, d, input).pc != s.deliveries[d].pc
  {
  }

  /** While a message is neither acked nor dead-lettered some worker can still move. */
  lemma UnsettledCanMove(cfg: Config, schedulers: nat, es: seq<Event>, c: nat)
    requires forall e | e in es :: Calm(e)
    requires var s := After(cfg, schedulers, es);
             c < |s.copies| && s.copies[c].place != Acked && s.copies[c].place != Dead
    ensures var s := After(cfg, schedulers, es);
            exists e :: Calm(e) && IsWork(cfg, s, e)
  {
    var s := After(cfg, schedulers, es);
    CalmRuns(cfg, schedulers, es);
    AfterWf(cfg, schedulers, es);
    var e := Deliver(c);
    if s.copies[c].place.Unacked? {
      var d := s.copies[c].place.delivery;
      assert WfDelivery(s, s.deliveries[d]);
      e := Work(d, GoodAnswer(s.deliveries[d].pc));
      WorkerCanMove(cfg, s, d);
      assert Step(cfg, s, e).deliveries[d].pc != s.deliveries[d].pc;
    } else {
      assert |Step(cfg, s, e).deliveries| == |s.deliveries| + 1;
    }
    assert Calm(e) && IsWork(cfg, s, e);
  }

  predicate AllSettled(s: State) {
    forall c | 0 <= c < |s.copies| :: s.copies[c].place == Acked || s.copies[c].place == Dead
  }

  lemma WorkAddsNoMessage(cfg: Config, s: State, e: Event)
    requires Wf(s) && IsWork(cfg, s, e)
    ensures |Step(cfg, s, e).copies| == |s.copies|
  {
    CopyOrigin(cfg, s, e);
  }

  /** How many steps of the workers the bound still allows after a calm run. */
  function Remaining(cfg: Config, schedulers: nat, es: seq<Event>): int {
    Allowance(Attempts(cfg), |After(cfg, schedulers, es).copies|) - WorkDone(cfg, Init(schedulers), es)
  }

  lemma StepLeavesFewer(cfg: Config, schedulers: nat, es: seq<Event>, e: Event)
    requires (forall x | x in es :: Calm(x)) && Calm(e) && IsWork(cfg, After(cfg, schedulers, es), e)
    ensures |After(cfg, schedulers, es + [e]).copies| == |After(cfg, schedulers, es).copies|
    ensures 0 <= Remaining(cfg, schedulers, es + [e]) < Remaining(cfg, schedulers, es)
  {
    AfterWf(cfg, schedulers, es);
    WorkAddsNoMessage(cfg, After(cfg, schedulers, es), e);
    assert (es + [e])[..|es|] == es;
    WorkIsBounded(cfg, schedulers, es + [e]);
  }

  lemma NextStep(cfg: Config, schedulers: nat, es: seq<Event>) returns (e: Event)
    requires (forall x | x in es :: Calm(x)) && !AllSettled(After(cfg, schedulers, es))
    ensures Calm(e) && IsWork(cfg, After(cfg, schedulers, es), e)
  {
    var s := After(cfg, schedulers, es);
    var c :| 0 <= c < |s.copies| && s.copies[c].place != Acked && s.copies[c].place != Dead;
    UnsettledCanMove(cfg, schedulers, es, c);
    e :| Calm(e) && IsWork(cfg, s, e);
  }

  predicate ByWorkers(es: seq<Event>) { forall e | e in es :: Calm(e) && (e.Deliver? || e.Work?) }

  /** `more` carries the calm run `es` on by the workers alone. */
  ghost predicate Extends(cfg: Config, schedulers: nat, es: seq<Event>, more: seq<Event>) {
    && ByWorkers(more) && (forall e | e in es + more :: Calm(e))
    && |After(cfg, schedulers, es + more).copies| == |After(cfg, schedulers, es).copies|
  }

  lemma OneStepMore(cfg: Config, schedulers: nat, es: seq<Event>, more: seq<Event>) returns (next: seq<Event>)
    requires Extends(cfg, schedulers, es, more) && !AllSettled(After(cfg, schedulers, es + more))
    ensures Extends(cfg, schedulers, es, next)
    ensures 0 <= Remaining(cfg, schedulers, es + next) < Remaining(cfg, schedulers, es + more)
  {
    var e := NextStep(cfg, schedulers, es + more);
    StepLeavesFewer(cfg, schedulers, es + more, e);
    next := more + [e];
    assert es + more + [e] == es + next;
  }

  lemma RestSettles(cfg: Config, schedulers: nat, es: seq<Event>) returns (more: seq<Event>)
    requires forall e | e in es :: Calm(e)
    ensures Extends(cfg, schedulers, es, more) && AllSettled(After(cfg, schedulers, es + more))
  {
    more := [];
    assert es + more == es;
    while !AllSettled(After(cfg, schedulers, es + more))
      invariant Extends(cfg, schedulers, es, more)
      decreases Remaining(cfg, schedulers, es + more)
    {
      more := OneStepMore(cfg, schedulers, es, more);
    }
  }

  /** Every calm run can be carried on by the workers alone, calmly, until every message is acked or
      dead-lettered; and it cannot stop short of that, since a calm run after which no worker can
      move has every message settled. */
  lemma EveryMessageSettles(cfg: Config, schedulers: nat, es: seq<Event>) returns (more: seq<Event>)
    requires forall e | e in es :: Calm(e)
    ensures ByWorkers(more) && AllSettled(After(cfg, schedulers, es + more))
    ensures |After(cfg, schedulers, es + more).copies| == |After(cfg, schedulers, es).copies|
    ensures !(exists e :: Calm(e) && IsWork(cfg, After(cfg, schedulers, es), e)) ==> AllSettled(After(cfg, schedulers, es))
  {
    if !AllSettled(After(cfg, schedulers, es)) { var e := NextStep(cfg, schedulers, es); }
    more := RestSettles(cfg, schedulers, es);
  }
}
