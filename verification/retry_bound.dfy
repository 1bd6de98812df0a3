/** How far retry_count can go, and how often the provider can be called, when several copies of a
    notification are worked on at once. */
module RetryBound {
  import opened Basics
  import opened Model
  import opened Pipeline
  import opened Frame
  import opened Tokens

  /** The attempts a message gets: handleFailure always makes one. */
  function Attempts(cfg: Config): nat { Max(1, cfg.maxRetries) }

  predicate Holds(pc: Pc) {
    pc.AtMarkSending? || pc.AtLimit? || pc.AtSend? || pc.AtCount?
  }

  /** A worker that can still end a call of the provider: count its failure, or hear it accepted. */
  function CountsOf(n: Id): Delivery -> nat {
    (d: Delivery) => if Of(d.body, n) && Counts(d.pc) then 1 else 0
  }

  predicate Counts(pc: Pc) {
    Holds(pc) || pc.AtDecode? || pc.AtFetch?
  }

  /** A worker between a failed call and the count of it. */
  function CountingOf(n: Id): Delivery -> nat {
    (d: Delivery) => if Of(d.body, n) && d.pc.AtCount? then 1 else 0
  }

  function Uncounted(s: State, n: Id): nat { Total(s.deliveries, CountingOf(n)) }

  /** A worker that gives its message back once it is done, or that will do so if it fails: it has
      read a count below `mark`. */
  predicate GivesBack(pc: Pc, mark: nat) {
    (Holds(pc) && pc.retry < mark) || pc.AtMarkQueued? || pc.AtBackoff? || pc.AtNackRetry?
  }

  /** A message that can be worked on once more, after the worker that holds it. A worker that has
      lost its message gives nothing back. */
  function AgainOf(n: Id, mark: nat, deliveries: seq<Delivery>): Copy -> nat {
    (c: Copy) => if !Of(c.body, n) then 0
         else match c.place
           case Ready => 1
           case Unacked(d) => if d < |deliveries| && GivesBack(deliveries[d].pc, mark) then 1 else 0
           case _ => 0
  }

  function MarkAt(m: nat, r: nat): nat
    requires m >= 1
  {
    Min(m - 1, r)
  }

  function Sum(s: State, n: Id, mark: nat): nat {
    Total(s.deliveries, CountsOf(n)) + Total(s.copies, AgainOf(n, mark, s.deliveries))
  }

  function Potential(s: State, n: Id, m: nat): nat
    requires m >= 1
  {
    Sum(s, n, MarkAt(m, RetryCount(s, n)))
  }

  /** With more than one attempt: until the first failure no worker has read an old count; before the
      limit one worker has not; past it the count and what is still to come are bounded together. Each
      failed read is worth one more, like a loss. */
  ghost predicate Budget(r: nat, p: nat, k: nat, l: nat, m: nat) {
    && (r == 0 ==> p <= k + l)
    && (1 <= r < m ==> p + 1 <= 2 * k + l)
    && (r >= m ==> r + p + 2 <= m + 2 * k + l)
  }

  /** With one attempt each copy and each loss is worth one call, whatever reads and writes do. */
  ghost predicate BoundInv(s: State, n: Id, m: nat)
    requires m >= 1
  {
    if m == 1 then Calls(s, n) + Potential(s, n, m) <= Published(s, n) + Losses(s, n) + Uncounted(s, n)
    else Budget(RetryCount(s, n), Successes(s, n) + Potential(s, n, m), Published(s, n), Losses(s, n) + s.readFailed[n], m)
  }

  /** Every call was heard accepted, counted, is about to be counted, or its count failed. */
  ghost predicate CallsInv(s: State, n: Id) {
    Successes(s, n) + RetryCount(s, n) + Uncounted(s, n) <= Calls(s, n)
    <= Successes(s, n) + RetryCount(s, n) + Uncounted(s, n) + s.writeFailed[n]
  }

  ghost predicate NothingYet(s: State, n: Id) {
    Published(s, n) == 0 ==> s.readFailed[n] == 0 && s.writeFailed[n] == 0
  }

  ghost predicate RetryInv(s: State, n: Id, m: nat)
    requires m >= 1
  {
    BoundInv(s, n, m) && CallsInv(s, n) && NothingYet(s, n)
  }

  // ---------------------------------------------------------------- a worker's step

  /** A worker that has just counted a failure leaves one unit of slack. */
  lemma {:induction false} OneIsDone(ds: seq<Delivery>, n: Id, d: nat)
    requires d < |ds| && CountsOf(n)(ds[d]) < UnsentOf(n)(ds[d])
    ensures Total(ds, CountsOf(n)) < Total(ds, UnsentOf(n))
  {
    var k := |ds| - 1;
    if d == k {
      TotalBound(ds[..k], CountsOf(n), UnsentOf(n));
    } else {
      OneIsDone(ds[..k], n, d);
    }
  }

  /** Only the worker's own message can change its part. */
  lemma AgainChanges(s: State, d: nat, m: Move, n: Id, mark: nat)
    requires Wf(s) && d < |s.deliveries|
    ensures var (c, t) := (s.deliveries[d].copy, Apply(s, d, m));
            Total(t.copies, AgainOf(n, mark, t.deliveries)) + AgainOf(n, mark, s.deliveries)(s.copies[c])
            == Total(s.copies, AgainOf(n, mark, s.deliveries)) + AgainOf(n, mark, t.deliveries)(m.copy)
  {
    assert WfDelivery(s, s.deliveries[d]);
    var (c, t) := (s.deliveries[d].copy, Apply(s, d, m));
    TotalChange(s.copies, t.copies, c, AgainOf(n, mark, s.deliveries), AgainOf(n, mark, t.deliveries));
  }

  predicate Counting(s: State, d: nat, input: Input, n: Id)
    requires d < |s.deliveries|
  {
    s.deliveries[d].pc.AtCount? && Of(s.deliveries[d].body, n) && input == Plain(true) && n in s.rows
  }

  function One(b: bool): nat { if b then 1 else 0 }

  /** What a worker that holds its message, or one that has lost it, can still bring. */
  function Worth(pc: Pc, place: Place, d: nat, mark: nat): nat {
    One(Counts(pc)) + One(place == Ready || (place == Unacked(d) && GivesBack(pc, mark)))
  }

  predicate Hears(m: Move) { m.sent != [] && m.sent[0].outcome.Delivered? }

  lemma MoveRetries(cfg: Config, s: State, d: nat, input: Input, n: Id)
    requires d < |s.deliveries| && s.deliveries[d].copy < |s.copies| && WfDelivery(s, s.deliveries[d])
    ensures RetryCount(WorkStep(cfg, s, d, input), n) == RetryCount(s, n) + One(Counting(s, d, input, n))
  {
    MoveShape(cfg, s, d, input);
  }

  /** A worker that has lost its message does not move it. */
  lemma MovePlace(cfg: Config, s: State, d: nat, input: Input)
    requires d < |s.deliveries| && s.deliveries[d].copy < |s.copies|
    ensures var (m, place) := (WorkMove(cfg, s, d, input), s.copies[s.deliveries[d].copy].place);
            && (place != Unacked(d) ==> m.copy.place == place)
            && (place == Unacked(d) && m.copy.place.Unacked? ==> m.copy.place == place)
  {
  }

  /** A move that ends no call raises that only by a failed read; one that hears an acceptance lowers
      it, and so does one that counts a failure, if the count has reached the last attempt. */
  lemma MoveWorth(cfg: Config, s: State, d: nat, input: Input, n: Id, mark: nat)
    requires d < |s.deliveries| && s.deliveries[d].copy < |s.copies| && WfDelivery(s, s.deliveries[d])
    requires Of(s.deliveries[d].body, n) && n in s.rows
    requires mark <= RetryCount(s, n) && mark < Attempts(cfg)
    requires Counting(s, d, input, n) ==> mark == Attempts(cfg) - 1
    ensures var (m, pc, place) := (WorkMove(cfg, s, d, input), s.deliveries[d].pc, s.copies[s.deliveries[d].copy].place);
            Worth(m.pc, m.copy.place, d, mark) + One(Counting(s, d, input, n)) + One(Hears(m))
            <= Worth(pc, place, d, mark) + if mark > 0 then m.readFailed[n] else 0
  {
  }

  /** With one attempt a call lowers it, however it ends. */
  lemma MoveWorthOnce(cfg: Config, s: State, d: nat, input: Input)
    requires d < |s.deliveries| && s.deliveries[d].copy < |s.copies| && WfDelivery(s, s.deliveries[d])
    requires s.deliveries[d].body.Note? && Attempts(cfg) == 1
    ensures var (m, pc, place) := (WorkMove(cfg, s, d, input), s.deliveries[d].pc, s.copies[s.deliveries[d].copy].place);
            Worth(m.pc, m.copy.place, d, 0) + One(m.sent != []) + One(pc.AtCount?) <= Worth(pc, place, d, 0) + One(m.pc.AtCount?)
  {
    var del := s.deliveries[d];
    var stay := Move(del.pc, s.copies[del.copy], s.rows, [], multiset{}, multiset{});
    if BeforeAnswer(del.pc) {
      SendingWorthOnce(s, d, del.copy, del.body.id, del.body.retry, stay, input);
    } else if !del.pc.AtDecode? {
      SettlingWorthOnce(cfg, s, d, del.body.id, stay, input);
    }
  }

  lemma SendingWorthOnce(s: State, d: nat, c: nat, id: Id, retry0: nat, m: Move, input: Input)
    requires BeforeAnswer(m.pc) && m.sent == []
    ensures var a := SendingMove(s, d, c, id, retry0, m, input);
            Worth(a.pc, a.copy.place, d, 0) + One(a.sent != []) <= Worth(m.pc, m.copy.place, d, 0) + One(a.pc.AtCount?)
  {
  }

  lemma SettlingWorthOnce(cfg: Config, s: State, d: nat, id: Id, m: Move, input: Input)
    requires !BeforeAnswer(m.pc) && !m.pc.AtDecode? && m.sent == [] && Attempts(cfg) == 1
    requires m.pc.AtCount? ==> !m.pc.outcome.Delivered?
    ensures var a := SettlingMove(cfg, s, d, id, m, input);
            a.sent == [] && Worth(a.pc, a.copy.place, d, 0) + One(m.pc.AtCount?) <= Worth(m.pc, m.copy.place, d, 0) + One(a.pc.AtCount?)
  {
  }

  lemma MoveCalls(cfg: Config, s: State, d: nat, input: Input, n: Id)
    requires d < |s.deliveries| && s.deliveries[d].copy < |s.copies| && WfDelivery(s, s.deliveries[d])
    requires Of(s.deliveries[d].body, n) && n in s.rows
    ensures var (m, pc) := (WorkMove(cfg, s, d, input), s.deliveries[d].pc);
            One(Hears(m)) + One(Counting(s, d, input, n)) + One(m.pc.AtCount?)
            <= One(m.sent != []) + One(pc.AtCount?)
            <= One(Hears(m)) + One(Counting(s, d, input, n)) + One(m.pc.AtCount?) + m.writeFailed[n]
  {
  }

  /** A worker with another notification changes nothing here. */
  lemma OtherFailures(cfg: Config, s: State, d: nat, input: Input, n: Id)
    requires d < |s.deliveries| && s.deliveries[d].copy < |s.copies| && !Of(s.deliveries[d].body, n)
    ensures var m := WorkMove(cfg, s, d, input); m.readFailed[n] == 0 && m.writeFailed[n] == 0
  {
  }

  lemma CallsKept(cfg: Config, s: State, d: nat, input: Input, n: Id)
    requires Wf(s) && CallsInv(s, n) && d < |s.deliveries|
    ensures CallsInv(WorkStep(cfg, s, d, input), n)
  {
    assert WfDelivery(s, s.deliveries[d]);
    var (m, t) := (WorkMove(cfg, s, d, input), WorkStep(cfg, s, d, input));
    OneSend(cfg, s, d, input);
    WorkCalls(s, d, m, n);
    MoveRetries(cfg, s, d, input, n);
    TotalUpdate(s.deliveries, d, t.deliveries[d], CountingOf(n));
    if Of(s.deliveries[d].body, n) { MoveCalls(cfg, s, d, input, n); }
  }

  lemma WorthIs(s: State, d: nat, m: Move, n: Id, mark: nat)
    requires Wf(s) && d < |s.deliveries|
    requires Of(s.deliveries[d].body, n) && m.copy.body == s.deliveries[d].body
    requires var place := s.copies[s.deliveries[d].copy].place;
             && (place != Unacked(d) ==> m.copy.place == place)
             && (place == Unacked(d) && m.copy.place.Unacked? ==> m.copy.place == place)
    ensures var (t, copy) := (Apply(s, d, m), s.copies[s.deliveries[d].copy]);
            var others := if copy.place == Unacked(d) then 0 else AgainOf(n, mark, s.deliveries)(copy) - One(copy.place == Ready);
            && CountsOf(n)(t.deliveries[d]) + AgainOf(n, mark, t.deliveries)(m.copy) == Worth(m.pc, m.copy.place, d, mark) + others
            && CountsOf(n)(s.deliveries[d]) + AgainOf(n, mark, s.deliveries)(copy) == Worth(s.deliveries[d].pc, copy.place, d, mark) + others
  {
    assert WfDelivery(s, s.deliveries[d]);
  }

  /** The potential changes by what the worker's own part is worth. */
  lemma SumChanges(cfg: Config, s: State, d: nat, input: Input, n: Id, mark: nat)
    requires Wf(s) && d < |s.deliveries|
    ensures var (m, copy) := (WorkMove(cfg, s, d, input), s.copies[s.deliveries[d].copy]);
            Sum(WorkStep(cfg, s, d, input), n, mark) + (if Of(s.deliveries[d].body, n) then Worth(s.deliveries[d].pc, copy.place, d, mark) else 0)
            == Sum(s, n, mark) + if Of(s.deliveries[d].body, n) then Worth(m.pc, m.copy.place, d, mark) else 0
  {
    assert WfDelivery(s, s.deliveries[d]);
    var (m, t) := (WorkMove(cfg, s, d, input), WorkStep(cfg, s, d, input));
    MoveShape(cfg, s, d, input);
    MovePlace(cfg, s, d, input);
    AgainChanges(s, d, m, n, mark);
    TotalUpdate(s.deliveries, d, t.deliveries[d], CountsOf(n));
    if Of(s.deliveries[d].body, n) { WorthIs(s, d, m, n, mark); }
  }

  lemma SameMessages(cfg: Config, s: State, d: nat, input: Input, n: Id)
    requires Wf(s) && d < |s.deliveries|
    ensures var t := WorkStep(cfg, s, d, input); Published(t, n) == Published(s, n) && Losses(t, n) == Losses(s, n)
  {
    assert WfDelivery(s, s.deliveries[d]);
    MoveShape(cfg, s, d, input);
    CopyCounts(s.copies, s.deliveries[d].copy, WorkMove(cfg, s, d, input).copy, n);
  }

  lemma OnceChanges(cfg: Config, s: State, d: nat, input: Input, n: Id)
    requires Wf(s) && Attempts(cfg) == 1 && d < |s.deliveries|
    ensures var t := WorkStep(cfg, s, d, input);
            Calls(t, n) + Sum(t, n, 0) + Uncounted(s, n) <= Calls(s, n) + Sum(s, n, 0) + Uncounted(t, n)
  {
    assert WfDelivery(s, s.deliveries[d]);
    var (m, t) := (WorkMove(cfg, s, d, input), WorkStep(cfg, s, d, input));
    SumChanges(cfg, s, d, input, n, 0);
    if Of(s.deliveries[d].body, n) { MoveWorthOnce(cfg, s, d, input); }
    OneSend(cfg, s, d, input);
    WorkCalls(s, d, m, n);
    TotalUpdate(s.deliveries, d, t.deliveries[d], CountingOf(n));
  }

  lemma OnceKept(cfg: Config, s: State, d: nat, input: Input, n: Id)
    requires Wf(s) && BoundInv(s, n, 1) && Attempts(cfg) == 1 && d < |s.deliveries|
    ensures BoundInv(WorkStep(cfg, s, d, input), n, 1)
  {
    SameMessages(cfg, s, d, input, n);
    OnceChanges(cfg, s, d, input, n);
  }

  lemma SumGrows(cfg: Config, s: State, d: nat, input: Input, n: Id, mark: nat)
    requires Wf(s) && d < |s.deliveries| && mark <= RetryCount(s, n) && mark < Attempts(cfg)
    requires Counting(s, d, input, n) ==> mark == Attempts(cfg) - 1
    ensures var (m, t) := (WorkMove(cfg, s, d, input), WorkStep(cfg, s, d, input));
            Successes(t, n) + Sum(t, n, mark) + One(Counting(s, d, input, n))
            <= Successes(s, n) + Sum(s, n, mark) + if mark > 0 then m.readFailed[n] else 0
  {
    assert WfDelivery(s, s.deliveries[d]);
    SumChanges(cfg, s, d, input, n, mark);
    OneSend(cfg, s, d, input);
    WorkCalls(s, d, WorkMove(cfg, s, d, input), n);
    if Of(s.deliveries[d].body, n) { MoveWorth(cfg, s, d, input, n, mark); } else { OtherFailures(cfg, s, d, input, n); }
  }

  lemma BudgetKept(cfg: Config, s: State, d: nat, input: Input, n: Id)
    requires Wf(s) && BoundInv(s, n, Attempts(cfg)) && Attempts(cfg) > 1 && d < |s.deliveries|
    requires Counting(s, d, input, n) ==> RetryCount(s, n) + 1 >= Attempts(cfg)
    ensures BoundInv(WorkStep(cfg, s, d, input), n, Attempts(cfg))
  {
    assert WfDelivery(s, s.deliveries[d]);
    var (m, t, mark) := (WorkMove(cfg, s, d, input), WorkStep(cfg, s, d, input), MarkAt(Attempts(cfg), RetryCount(s, n)));
    SameMessages(cfg, s, d, input, n);
    SumGrows(cfg, s, d, input, n, mark);
    MoveRetries(cfg, s, d, input, n);
    BudgetAfter(RetryCount(s, n), One(Counting(s, d, input, n)), m.readFailed[n], Successes(s, n) + Sum(s, n, mark),
                Successes(t, n) + Sum(t, n, mark), Published(s, n), Losses(s, n) + s.readFailed[n], Attempts(cfg));
  }

  lemma BudgetAfter(r: nat, inc: nat, f: nat, p: nat, q: nat, k: nat, l: nat, m: nat)
    requires m > 1 && Budget(r, p, k, l, m) && inc <= 1 && (inc == 1 ==> r + 1 >= m)
    requires q + inc <= p + if MarkAt(m, r) > 0 then f else 0
    ensures Budget(r + inc, q, k, l + f, m) && MarkAt(m, r + inc) == MarkAt(m, r)
  {
  }

  /** Before the last attempt at most one failure per message is still to come after the others. */
  lemma EarlyCountKeeps(cfg: Config, s: State, d: nat, n: Id)
    requires Wf(s) && TokenInv(s, n) && d < |s.deliveries|
    requires Counting(s, d, Plain(true), n) && RetryCount(s, n) + 1 < Attempts(cfg)
    ensures BoundInv(WorkStep(cfg, s, d, Plain(true)), n, Attempts(cfg))
  {
    assert WfDelivery(s, s.deliveries[d]);
    var t := WorkStep(cfg, s, d, Plain(true));
    MoveRetries(cfg, s, d, Plain(true), n);
    TokensKeptByWork(cfg, s, d, Plain(true), n);
    OneIsDone(t.deliveries, n, d);
    TotalBound(t.copies, AgainOf(n, MarkAt(Attempts(cfg), RetryCount(t, n)), t.deliveries), CopyOf(n));
  }

  lemma {:induction false} OneCopy(copies: seq<Copy>, c: nat, n: Id)
    requires c < |copies| && Of(copies[c].body, n)
    ensures Total(copies, CopyOf(n)) >= 1
  {
    if c < |copies| - 1 { OneCopy(copies[..|copies| - 1], c, n); }
  }

  lemma WorkKeepsBound(cfg: Config, s: State, d: nat, input: Input, n: Id)
    requires Wf(s) && TokenInv(s, n) && RetryInv(s, n, Attempts(cfg)) && d < |s.deliveries|
    ensures RetryInv(WorkStep(cfg, s, d, input), n, Attempts(cfg))
  {
    assert WfDelivery(s, s.deliveries[d]);
    CallsKept(cfg, s, d, input, n);
    SameMessages(cfg, s, d, input, n);
    if Of(s.deliveries[d].body, n) { OneCopy(s.copies, s.deliveries[d].copy, n); } else { OtherFailures(cfg, s, d, input, n); }
    if Attempts(cfg) == 1 {
      OnceKept(cfg, s, d, input, n);
    } else if Counting(s, d, input, n) && RetryCount(s, n) + 1 < Attempts(cfg) {
      EarlyCountKeeps(cfg, s, d, n);
    } else {
      BudgetKept(cfg, s, d, input, n);
    }
  }

  // ---------------------------------------------------------------- every step

  /** A new message or a loss makes up for what it adds to the potential. */
  lemma RetryInvMoves(s: State, t: State, n: Id, m: nat)
    requires m >= 1 && RetryInv(s, n, m)
    requires t.sends == s.sends && t.readFailed == s.readFailed && t.writeFailed == s.writeFailed
    requires RetryCount(t, n) == RetryCount(s, n) && Uncounted(t, n) == Uncounted(s, n)
    requires Published(s, n) <= Published(t, n) && Losses(s, n) <= Losses(t, n)
    requires Potential(t, n, m) <= Potential(s, n, m) + (Published(t, n) - Published(s, n)) + (Losses(t, n) - Losses(s, n))
    ensures RetryInv(t, n, m)
  {
  }

  lemma DeliverKeeps(cfg: Config, s: State, c: nat, n: Id)
    requires Wf(s) && RetryInv(s, n, Attempts(cfg)) && c < |s.copies| && s.copies[c].place == Ready
    ensures RetryInv(DeliverStep(s, c), n, Attempts(cfg))
  {
    var t := DeliverStep(s, c);
    CopyCounts(s.copies, c, t.copies[c], n);
    TotalSnoc(s.deliveries, t.deliveries[|s.deliveries|], CountingOf(n));
    DeliverPotential(s, c, n, MarkAt(Attempts(cfg), RetryCount(s, n)));
    RetryInvMoves(s, t, n, Attempts(cfg));
  }

  lemma DeliverPotential(s: State, c: nat, n: Id, mark: nat)
    requires Wf(s) && c < |s.copies| && s.copies[c].place == Ready
    ensures Sum(DeliverStep(s, c), n, mark) <= Sum(s, n, mark)
  {
    var t := DeliverStep(s, c);
    TotalSnoc(s.deliveries, t.deliveries[|s.deliveries|], CountsOf(n));
    TotalChange(s.copies, t.copies, c, AgainOf(n, mark, s.deliveries), AgainOf(n, mark, t.deliveries));
  }

  lemma LoseKeeps(cfg: Config, s: State, c: nat, n: Id)
    requires RetryInv(s, n, Attempts(cfg)) && c < |s.copies| && s.copies[c].place.Unacked?
    ensures RetryInv(LoseStep(s, c), n, Attempts(cfg))
  {
    var (t, mark) := (LoseStep(s, c), MarkAt(Attempts(cfg), RetryCount(s, n)));
    CopyCounts(s.copies, c, t.copies[c], n);
    TotalUpdate(s.copies, c, t.copies[c], AgainOf(n, mark, s.deliveries));
    RetryInvMoves(s, t, n, Attempts(cfg));
  }

  lemma PublisherKeeps(cfg: Config, s: State, e: Event, n: Id)
    requires Wf(s) && RetryInv(s, n, Attempts(cfg)) && ByPublisher(e)
    ensures RetryInv(Step(cfg, s, e), n, Attempts(cfg))
  {
    var t := Step(cfg, s, e);
    PublisherSteps(cfg, s, e);
    PublisherFailures(cfg, s, e);
    assert RetryCount(t, n) == RetryCount(s, n);
    if t.copies != s.copies {
      AddedCounts(s.copies, t.copies[|s.copies|], n);
      TotalSnoc(s.copies, t.copies[|s.copies|], AgainOf(n, MarkAt(Attempts(cfg), RetryCount(s, n)), s.deliveries));
    }
    RetryInvMoves(s, t, n, Attempts(cfg));
  }

  lemma PublisherFailures(cfg: Config, s: State, e: Event)
    requires ByPublisher(e)
    ensures Step(cfg, s, e).writeFailed == s.writeFailed
  {
  }

  lemma StepKeepsBudget(cfg: Config, s: State, e: Event, n: Id)
    requires Wf(s) && TokenInv(s, n) && RetryInv(s, n, Attempts(cfg))
    ensures RetryInv(Step(cfg, s, e), n, Attempts(cfg))
  {
    if ByPublisher(e) {
      PublisherKeeps(cfg, s, e, n);
    } else if e.Deliver? {
      if e.copy < |s.copies| && s.copies[e.copy].place == Ready { DeliverKeeps(cfg, s, e.copy, n); }
    } else if e.Lose? {
      if e.copy < |s.copies| && s.copies[e.copy].place.Unacked? { LoseKeeps(cfg, s, e.copy, n); }
    } else if e.delivery < |s.deliveries| {
      assert WfDelivery(s, s.deliveries[e.delivery]);
      WorkKeepsBound(cfg, s, e.delivery, e.input, n);
    }
  }

  lemma {:induction false} BudgetAlways(cfg: Config, schedulers: nat, es: seq<Event>, n: Id)
    ensures RetryInv(After(cfg, schedulers, es), n, Attempts(cfg))
  {
    if es != [] {
      var front := es[..|es| - 1];
      AfterWf(cfg, schedulers, front);
      TokensAlways(cfg, schedulers, front, n);
      BudgetAlways(cfg, schedulers, front, n);
      StepKeepsBudget(cfg, After(cfg, schedulers, front), es[|es| - 1], n);
    }
  }

  // ---------------------------------------------------------------- results

  /** How far k copies, l losses and f failed reads can take retry_count: with one attempt, one failure
      for each copy and loss; with more, two for every copy but the first, and one for each loss and
      each failed read. */
  function MostRetries(attempts: nat, k: nat, l: nat, f: nat): nat {
    if k == 0 then 0 else if attempts <= 1 then k + l else attempts + 2 * (k - 1) + l + f
  }

  /** In every run retry_count stays within that. */
  lemma RetryCountIsBounded(cfg: Config, schedulers: nat, es: seq<Event>, n: Id)
    ensures var s := After(cfg, schedulers, es);
            RetryCount(s, n) <= MostRetries(Attempts(cfg), Published(s, n), Losses(s, n), s.readFailed[n])
  {
    BudgetAlways(cfg, schedulers, es, n);
    NoCopiesNoLosses(After(cfg, schedulers, es).copies, n);
  }

  /** Every call of the provider was heard accepted, was counted as a failure, is about to be counted, or
      is one whose count failed to be written. */
  lemma EveryCallIsAccountedFor(cfg: Config, schedulers: nat, es: seq<Event>, n: Id)
    ensures var s := After(cfg, schedulers, es);
            Successes(s, n) + RetryCount(s, n) + Uncounted(s, n) <= Calls(s, n)
            <= Successes(s, n) + RetryCount(s, n) + Uncounted(s, n) + s.writeFailed[n]
  {
    BudgetAlways(cfg, schedulers, es, n);
  }

  /** And so do the calls of the provider, which bounds what it can have accepted, heard or not; with
      more than one attempt each failed write of the count allows one call more. */
  lemma CallsAreBounded(cfg: Config, schedulers: nat, es: seq<Event>, n: Id)
    ensures var s := After(cfg, schedulers, es);
            Calls(s, n) <= MostRetries(Attempts(cfg), Published(s, n), Losses(s, n), s.readFailed[n] + s.writeFailed[n])
  {
    BudgetAlways(cfg, schedulers, es, n);
    var s := After(cfg, schedulers, es);
    NoCopiesNoLosses(s.copies, n);
    TotalBound(s.deliveries, CountingOf(n), CountsOf(n));
  }

  lemma {:induction false} NoCopiesNoLosses(copies: seq<Copy>, n: Id)
    ensures Total(copies, CopyOf(n)) == 0 ==> Total(copies, LostOf(n)) == 0
  {
    if copies != [] { NoCopiesNoLosses(copies[..|copies| - 1], n); }
  }
}
