/** How a row's status, its retry count and the place of its message go together while the
    notification has a single message. Cancel may come at any step. */
module Coupling {
  import opened Model
  import opened Pipeline
  import opened Frame
  import opened Tokens
  import opened Evidence
  import opened RetryBound
  import opened Publishing
  import opened PublishOnce
  import opened Termination

  /** Message `c` is the only one of `n` and was never lost, and no worker's write for `n` failed. */
  ghost predicate Sole(s: State, n: Id, c: nat) {
    && c < |s.copies| && Of(s.copies[c].body, n) && n in s.rows
    && s.copies[c].lost == 0 && n !in s.writeFailed
    && forall k | 0 <= k < |s.copies| && k != c :: !Of(s.copies[k].body, n)
  }

  predicate Untaken(st: Status) { st == Pending || st == Queued || st == Cancelled }

  predicate Taken(st: Status) { st == Sending || st == Queued || st == Cancelled }

  predicate EndsAs(st: Status, final: Status, overwritten: bool) {
    if overwritten then st == Queued || st == Cancelled else st == final
  }

  predicate PcStatus(pc: Pc, st: Status, overwritten: bool, cut: bool) {
    if pc.AtAck? then EndsAs(st, Sent, overwritten)
    else if pc.AtNackDead? then EndsAs(st, Failed, overwritten)
    else if pc.AtEnd? then true
    else
      && !overwritten
      && (if pc.AtDecode? || pc.AtFetch? || pc.AtMarkSending? then Untaken(st) || (cut && st == Sending)
          else if pc.AtBackoff? then st == Queued || st == Cancelled
          else if pc.AtNackRetry? then st == Queued || st == Cancelled || (cut && st == Sending)
          else Taken(st))
  }

  ghost predicate StatusAt(s: State, n: Id, c: nat)
    requires c < |s.copies| && n in s.rows
  {
    var (copy, st, overwritten) := (s.copies[c], s.rows[n].status, n in s.overwritten);
    match copy.place
    case Ready => !overwritten && (Untaken(st) || (copy.cut && st == Sending))
    case Unacked(d) => d < |s.deliveries| && PcStatus(s.deliveries[d].pc, st, overwritten, copy.cut)
    case Acked => EndsAs(st, Sent, overwritten)
    case Dead => EndsAs(st, Failed, overwritten)
  }

  ghost predicate StatusInv(s: State, n: Id) {
    && (n in s.overwritten ==> HasCopy(s, n))
    && forall c | Sole(s, n, c) :: StatusAt(s, n, c)
  }

  // ---------------------------------------------------------------- steps

  /** Publishers and Cancel change a status in two ways only. */
  lemma PublisherStatus(cfg: Config, s: State, e: Event, n: Id)
    requires ByPublisher(e) && n in s.rows
    ensures var t := Step(cfg, s, e);
            && n in t.rows
            && var (a, b) := (s.rows[n].status, t.rows[n].status);
               || (b == a && (n in t.overwritten <==> n in s.overwritten))
               || (b == Cancelled && (a == Pending || a == Queued) && (n in t.overwritten <==> n in s.overwritten))
               || (b == Queued && (n in t.overwritten <==> n in s.overwritten || a == Sent || a == Failed))
  {
    if e.Commit? && e.call < |s.calls| { CommitAddsNewRows(s, e.call, e.answer); }
  }

  lemma OverwrittenOrigin(cfg: Config, s: State, e: Event, n: Id)
    requires n in Step(cfg, s, e).overwritten
    ensures n in s.overwritten || (n in s.rows && (s.rows[n].status == Sent || s.rows[n].status == Failed))
  {
  }

  lemma OverwrittenHasCopy(cfg: Config, s: State, e: Event, n: Id)
    requires Later(s, Step(cfg, s, e)) && UntouchedInv(s) && (n in s.overwritten ==> HasCopy(s, n))
    ensures n in Step(cfg, s, e).overwritten ==> HasCopy(Step(cfg, s, e), n)
  {
    if n in Step(cfg, s, e).overwritten {
      OverwrittenOrigin(cfg, s, e, n);
      assert n !in s.overwritten ==> !Waiting(s.rows[n]);
      HasCopyPersists(s, Step(cfg, s, e));
    }
  }

  lemma SoleBefore(cfg: Config, s: State, e: Event, n: Id, c: nat)
    requires Wf(s) && Sole(Step(cfg, s, e), n, c)
    ensures c < |s.copies| ==> Sole(s, n, c)
    ensures c >= |s.copies| ==> !HasCopy(s, n) && c == |s.copies|
  {
    var t := Step(cfg, s, e);
    StepKeeps(cfg, s, e);
    CopyOrigin(cfg, s, e);
    assert forall k | 0 <= k < |s.copies| :: CopyLater(s.copies[k], t.copies[k]);
  }

  lemma StatusKeptByPublisher(cfg: Config, s: State, e: Event, n: Id, c: nat)
    requires Wf(s) && ByPublisher(e) && c < |s.copies| && n in s.rows && StatusAt(s, n, c)
    ensures var t := Step(cfg, s, e); c < |t.copies| && n in t.rows && StatusAt(t, n, c)
  {
    PublisherSteps(cfg, s, e);
    PublisherStatus(cfg, s, e, n);
    assert Step(cfg, s, e).copies[c] == s.copies[c];
  }

  lemma MoveStatus(cfg: Config, s: State, d: nat, input: Input, n: Id)
    requires d < |s.deliveries| && s.deliveries[d].copy < |s.copies| && WfDelivery(s, s.deliveries[d])
    requires Of(s.deliveries[d].body, n) && n in s.rows && s.deliveries[d].pc != AtEnd
    requires s.copies[s.deliveries[d].copy].place == Unacked(d)
    requires StatusAt(s, n, s.deliveries[d].copy)
    requires n !in WorkStep(cfg, s, d, input).writeFailed
    ensures var t := WorkStep(cfg, s, d, input); n in t.rows && StatusAt(t, n, s.deliveries[d].copy)
  {
    var m, c := WorkMove(cfg, s, d, input), s.deliveries[d].copy;
    MoveShape(cfg, s, d, input);
    assert PcStatus(s.deliveries[d].pc, s.rows[n].status, n in s.overwritten, s.copies[c].cut);
    assert match m.copy.place
           case Ready => n !in s.overwritten && (Untaken(m.rows[n].status) || (m.copy.cut && m.rows[n].status == Sending))
           case Unacked(k) => k == d && PcStatus(m.pc, m.rows[n].status, n in s.overwritten, m.copy.cut)
           case Acked => EndsAs(m.rows[n].status, Sent, n in s.overwritten)
           case Dead => EndsAs(m.rows[n].status, Failed, n in s.overwritten);
  }

  lemma StatusKeptByWork(cfg: Config, s: State, d: nat, input: Input, n: Id, c: nat)
    requires Wf(s) && HeldInv(s) && d < |s.deliveries| && Sole(s, n, c) && StatusAt(s, n, c)
    requires n !in Step(cfg, s, Work(d, input)).writeFailed
    ensures var t := Step(cfg, s, Work(d, input)); c < |t.copies| && n in t.rows && StatusAt(t, n, c)
  {
    assert WfDelivery(s, s.deliveries[d]);
    MoveShape(cfg, s, d, input);
    MoveHolds(cfg, s, d, input);
    if s.deliveries[d].copy == c && s.deliveries[d].pc != AtEnd {
      MoveStatus(cfg, s, d, input, n);
    } else {
      var t := Step(cfg, s, Work(d, input));
      assert t.copies[c] == s.copies[c] && t.overwritten == s.overwritten;
      assert s.deliveries[d].copy != c ==> !Of(s.deliveries[d].body, n);
      assert t.rows[n] == s.rows[n];
      if s.copies[c].place.Unacked? { assert t.deliveries[s.copies[c].place.delivery] == s.deliveries[s.copies[c].place.delivery]; }
    }
  }

  lemma StatusOfNew(cfg: Config, s: State, e: Event, n: Id, c: nat)
    requires Wf(s) && UntouchedInv(s) && c == |s.copies| && !HasCopy(s, n) && n !in s.overwritten
    requires Sole(Step(cfg, s, e), n, c)
    ensures StatusAt(Step(cfg, s, e), n, c)
  {
    CopyOrigin(cfg, s, e);
    assert ByPublisher(e);
    PublisherSteps(cfg, s, e);
    assert n in s.rows && Waiting(s.rows[n]);
    PublisherStatus(cfg, s, e, n);
  }

  lemma StatusKept(cfg: Config, s: State, e: Event, n: Id)
    requires Wf(s) && HeldInv(s) && UntouchedInv(s) && StatusInv(s, n)
    ensures StatusInv(Step(cfg, s, e), n)
  {
    var t := Step(cfg, s, e);
    assert n in t.overwritten ==> HasCopy(t, n) by {
      StepKeeps(cfg, s, e);
      OverwrittenHasCopy(cfg, s, e, n);
    }
    forall c: nat | Sole(t, n, c) ensures StatusAt(t, n, c) {
      SoleBefore(cfg, s, e, n, c);
      if c >= |s.copies| {
        StatusOfNew(cfg, s, e, n, c);
      } else if ByPublisher(e) {
        StatusKeptByPublisher(cfg, s, e, n, c);
      } else if e.Work? {
        if e.delivery < |s.deliveries| { StatusKeptByWork(cfg, s, e.delivery, e.input, n, c); }
      } else {
        StatusKeptByBroker(s, e, n, c);
      }
    }
  }

  lemma StatusKeptByBroker(s: State, e: Event, n: Id, c: nat)
    requires WfCopies(s) && (e.Deliver? || e.Lose?) && Sole(s, n, c) && StatusAt(s, n, c) && Sole(BrokerStep(s, e), n, c)
    ensures StatusAt(BrokerStep(s, e), n, c)
  {
    if e.Deliver? && s.copies[c].place.Unacked? {
      assert BrokerStep(s, e).deliveries[s.copies[c].place.delivery] == s.deliveries[s.copies[c].place.delivery];
    }
  }

  lemma {:induction false} StatusAlways(cfg: Config, schedulers: nat, es: seq<Event>, n: Id)
    ensures StatusInv(After(cfg, schedulers, es), n)
  {
    if es != [] {
      var front := es[..|es| - 1];
      AfterWf(cfg, schedulers, front);
      SoundAlways(cfg, schedulers, front);
      UntouchedAlways(cfg, schedulers, front);
      StatusAlways(cfg, schedulers, front, n);
      StatusKept(cfg, After(cfg, schedulers, front), es[|es| - 1], n);
    }
  }

  // ---------------------------------------------------------------- results

  predicate WorkerAt(s: State, place: Place, pc: Pc) {
    place.Unacked? && place.delivery < |s.deliveries| && s.deliveries[place.delivery].pc == pc
  }

  /** A notification with a single message, never lost, whose workers' writes succeed: a ready
      message is pending, queued or cancelled (or left sending by a shutdown); an acked one is
      sent, and a dead-lettered one failed, exactly when no publisher's mark came after that
      final write. Conversely a row is sent or failed only once its worker is done. */
  lemma StatusMatchesPlace(cfg: Config, schedulers: nat, es: seq<Event>, n: Id, c: nat)
    requires Sole(After(cfg, schedulers, es), n, c)
    ensures var s := After(cfg, schedulers, es);
            var (place, st) := (s.copies[c].place, s.rows[n].status);
            && (place == Ready ==> Untaken(st) || (s.copies[c].cut && st == Sending))
            && (place == Acked ==> (st == Sent <==> n !in s.overwritten))
            && (place == Dead ==> (st == Failed <==> n !in s.overwritten))
            && (n in s.overwritten && (place == Acked || place == Dead) ==> st == Queued || st == Cancelled)
            && (st == Sent ==> place == Acked || WorkerAt(s, place, AtAck) || WorkerAt(s, place, AtEnd))
            && (st == Failed ==> place == Dead || WorkerAt(s, place, AtNackDead) || WorkerAt(s, place, AtEnd))
  {
    StatusAlways(cfg, schedulers, es, n);
    assert StatusAt(After(cfg, schedulers, es), n, c);
  }

  // ---------------------------------------------------------------- retries and waiting

  /** A failure has been counted and not yet waited for. */
  predicate Unwaited(pc: Pc) {
    pc.AtMarkQueued? || pc.AtBackoff? || pc.AtMarkFailed? || pc.AtNackDead?
  }

  predicate Waited(cfg: Config, copy: Copy, failures: nat) {
    copy.cut || copy.waited == Backoff.TotalSlept(cfg.baseDelay, failures)
  }

  predicate PcRetries(cfg: Config, pc: Pc, r: nat, copy: Copy) {
    && copy.fails == r
    && (Holds(pc) ==> pc.retry == r)
    && (pc.AtMarkQueued? || pc.AtBackoff? ==> pc.attempt == r)
    && (Unwaited(pc) ==> r > 0)
    && (pc.AtEnd? || Waited(cfg, copy, if Unwaited(pc) then r - 1 else r))
  }

  predicate PlaceRetries(cfg: Config, pc: Pc, r: nat, copy: Copy) {
    match copy.place
    case Unacked(_) => PcRetries(cfg, pc, r, copy)
    case Dead => r > 0 && copy.fails == r && Waited(cfg, copy, r - 1)
    case _ => copy.fails == r && Waited(cfg, copy, r)
  }

  ghost predicate RetriesAt(cfg: Config, s: State, n: Id, c: nat)
    requires c < |s.copies| && n in s.rows
  {
    var place := s.copies[c].place;
    && (place.Unacked? ==> place.delivery < |s.deliveries|)
    && PlaceRetries(cfg, if place.Unacked? then s.deliveries[place.delivery].pc else AtEnd, s.rows[n].retryCount, s.copies[c])
  }

  ghost predicate RetriesInv(cfg: Config, s: State, n: Id) {
    n !in s.readFailed ==> forall c | Sole(s, n, c) :: RetriesAt(cfg, s, n, c)
  }

  lemma BackoffRetries(cfg: Config, s: State, d: nat, early: bool, n: Id)
    requires d < |s.deliveries| && s.deliveries[d].copy < |s.copies| && WfDelivery(s, s.deliveries[d])
    requires Of(s.deliveries[d].body, n) && n in s.rows && s.deliveries[d].pc.AtBackoff?
    requires s.copies[s.deliveries[d].copy].place == Unacked(d)
    requires PcRetries(cfg, s.deliveries[d].pc, s.rows[n].retryCount, s.copies[s.deliveries[d].copy])
    ensures var m := WorkMove(cfg, s, d, Woken(early));
            m.copy.place == Unacked(d) && n in m.rows && PcRetries(cfg, m.pc, m.rows[n].retryCount, m.copy)
  {
    var r := s.rows[n].retryCount;
    assert Backoff.TotalSlept(cfg.baseDelay, r) == Backoff.TotalSlept(cfg.baseDelay, r - 1) + Backoff.Slept(cfg.baseDelay, r);
  }

  lemma MoveRetries(cfg: Config, s: State, d: nat, input: Input, n: Id)
    requires d < |s.deliveries| && s.deliveries[d].copy < |s.copies| && WfDelivery(s, s.deliveries[d])
    requires Of(s.deliveries[d].body, n) && n in s.rows && s.deliveries[d].pc != AtEnd
    requires s.copies[s.deliveries[d].copy].place == Unacked(d)
    requires PcRetries(cfg, s.deliveries[d].pc, s.rows[n].retryCount, s.copies[s.deliveries[d].copy])
    ensures var m := WorkMove(cfg, s, d, input);
            && n in m.rows
            && (m.copy.place.Unacked? ==> m.copy.place == Unacked(d))
            && (n !in m.writeFailed && n !in m.readFailed ==> PlaceRetries(cfg, m.pc, m.rows[n].retryCount, m.copy))
  {
    if s.deliveries[d].pc.AtBackoff? && input.Woken? { BackoffRetries(cfg, s, d, input.early, n); }
  }

  lemma RetriesKeptByWork(cfg: Config, s: State, d: nat, input: Input, n: Id, c: nat)
    requires Wf(s) && HeldInv(s) && d < |s.deliveries| && Sole(s, n, c) && RetriesAt(cfg, s, n, c)
    requires var t := Step(cfg, s, Work(d, input)); n !in t.writeFailed && n !in t.readFailed
    ensures var t := Step(cfg, s, Work(d, input)); c < |t.copies| && n in t.rows && RetriesAt(cfg, t, n, c)
  {
    assert WfDelivery(s, s.deliveries[d]);
    MoveShape(cfg, s, d, input);
    MoveHolds(cfg, s, d, input);
    if s.deliveries[d].copy == c && s.deliveries[d].pc != AtEnd {
      MoveRetries(cfg, s, d, input, n);
    } else {
      var t := Step(cfg, s, Work(d, input));
      assert t.copies[c] == s.copies[c];
      assert s.deliveries[d].copy != c ==> !Of(s.deliveries[d].body, n);
      assert t.rows[n] == s.rows[n];
      if s.copies[c].place.Unacked? { assert t.deliveries[s.copies[c].place.delivery] == s.deliveries[s.copies[c].place.delivery]; }
    }
  }

  lemma RetriesKeptOtherwise(cfg: Config, s: State, e: Event, n: Id, c: nat)
    requires Wf(s) && !e.Work? && Sole(s, n, c) && RetriesAt(cfg, s, n, c) && Sole(Step(cfg, s, e), n, c)
    ensures RetriesAt(cfg, Step(cfg, s, e), n, c)
  {
    var t := Step(cfg, s, e);
    if ByPublisher(e) {
      PublisherSteps(cfg, s, e);
      assert t.copies[c] == s.copies[c];
    } else if s.copies[c].place.Unacked? {
      assert t.deliveries[s.copies[c].place.delivery] == s.deliveries[s.copies[c].place.delivery];
    }
  }

  lemma RetriesOfNew(cfg: Config, s: State, e: Event, n: Id, c: nat)
    requires Wf(s) && UntouchedInv(s) && c == |s.copies| && !HasCopy(s, n) && Sole(Step(cfg, s, e), n, c)
    ensures RetriesAt(cfg, Step(cfg, s, e), n, c)
  {
    CopyOrigin(cfg, s, e);
    assert ByPublisher(e);
    PublisherSteps(cfg, s, e);
    assert n in s.rows && Waiting(s.rows[n]);
  }

  lemma RetriesKept(cfg: Config, s: State, e: Event, n: Id)
    requires Wf(s) && HeldInv(s) && UntouchedInv(s) && RetriesInv(cfg, s, n)
    requires s.readFailed <= Step(cfg, s, e).readFailed
    ensures RetriesInv(cfg, Step(cfg, s, e), n)
  {
    var t := Step(cfg, s, e);
    forall c: nat | Sole(t, n, c) && n !in t.readFailed ensures RetriesAt(cfg, t, n, c) {
      SoleBefore(cfg, s, e, n, c);
      if c >= |s.copies| {
        RetriesOfNew(cfg, s, e, n, c);
      } else if e.Work? {
        if e.delivery < |s.deliveries| { RetriesKeptByWork(cfg, s, e.delivery, e.input, n, c); }
      } else {
        RetriesKeptOtherwise(cfg, s, e, n, c);
      }
    }
  }

  lemma {:induction false} RetriesAlways(cfg: Config, schedulers: nat, es: seq<Event>, n: Id)
    ensures RetriesInv(cfg, After(cfg, schedulers, es), n)
  {
    if es != [] {
      var front := es[..|es| - 1];
      AfterWf(cfg, schedulers, front);
      SoundAlways(cfg, schedulers, front);
      UntouchedAlways(cfg, schedulers, front);
      RetriesAlways(cfg, schedulers, front, n);
      StepKeeps(cfg, After(cfg, schedulers, front), es[|es| - 1]);
      RetriesKept(cfg, After(cfg, schedulers, front), es[|es| - 1], n);
    }
  }

  /** A single message whose reads and writes succeed makes retry_count its own failures: at most
      max(1, MaxRetries). Unless a shutdown cut it short, it was held back for exactly the delays
      of those failures, the last one not counted once it is dead-lettered, which is never more
      than a minute each. */
  lemma SoleMessageWaitsTheBackoffs(cfg: Config, schedulers: nat, es: seq<Event>, n: Id, c: nat)
    requires var s := After(cfg, schedulers, es); Sole(s, n, c) && n !in s.readFailed
    ensures var s := After(cfg, schedulers, es);
            var (copy, r) := (s.copies[c], s.rows[n].retryCount);
            && (!copy.place.Unacked? ==> r == copy.fails <= Attempts(cfg))
            && (!copy.cut && (copy.place == Ready || copy.place == Acked) ==>
                  copy.waited == Backoff.TotalSlept(cfg.baseDelay, r))
            && (!copy.cut && copy.place == Dead ==>
                  r > 0 && copy.waited == Backoff.TotalSlept(cfg.baseDelay, r - 1)
                  && copy.waited <= Backoff.CAP * (Attempts(cfg) - 1))
  {
    var s := After(cfg, schedulers, es);
    RetriesAlways(cfg, schedulers, es, n);
    assert RetriesAt(cfg, s, n, c);
    FailuresArePerMessageBounded(cfg, schedulers, es, c);
    if s.copies[c].place == Dead {
      Backoff.TotalSleptAtMost(cfg.baseDelay, s.rows[n].retryCount - 1);
    }
  }
}
