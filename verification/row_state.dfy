/** What the row of a notification with a single message says at every moment: the status that its
    worker wrote last and the outcome of its last call of the provider, unless a publisher's mark or a
    cancellation came after that write. */
module RowState {
  import opened Basics
  import opened Model
  import opened Repository
  import opened Pipeline
  import opened Frame
  import opened Tokens
  import opened Evidence
  import opened Publishing
  import opened PublishOnce
  import opened Termination
  import opened Coupling
  import Provenance

  // ---------------------------------------------------------------- history

  /** The last call of the provider for message `c`. */
  function LastSend(sends: seq<SendRecord>, c: nat): Option<SendRecord> {
    if sends == [] then None else
      var n := |sends| - 1;
      if sends[n].copy == c then Some(sends[n]) else LastSend(sends[..n], c)
  }

  /** A publisher marks the row, or a cancellation takes effect on it. */
  predicate Touches(s: State, e: Event, n: Id) {
    Provenance.Marks(s, e, n) || (e == Cancel(n) && Cancellable(s.rows, n))
  }

  predicate WritesStatusAt(pc: Pc) { pc.AtMarkSending? || pc.AtMarkSent? || pc.AtMarkFailed? || pc.AtMarkQueued? }

  /** A worker's UpdateStatus for `n`, and it works. */
  predicate Writes(s: State, e: Event, n: Id) {
    e.Work? && e.input == Plain(true) && e.delivery < |s.deliveries|
    && Of(s.deliveries[e.delivery].body, n) && WritesStatusAt(s.deliveries[e.delivery].pc)
  }

  /** A mark or a cancellation of `n` came after the last status write of a worker, if there was one. */
  ghost predicate Touched(cfg: Config, schedulers: nat, es: seq<Event>, n: Id) {
    es != [] &&
      var (front, e) := (es[..|es| - 1], es[|es| - 1]);
      var s := After(cfg, schedulers, front);
      Touches(s, e, n) || (!Writes(s, e, n) && Touched(cfg, schedulers, front, n))
  }

  // ---------------------------------------------------------------- what the row says

  predicate Heard(last: Option<SendRecord>, outcome: Outcome) { last.Some? && last.value.outcome == outcome }

  predicate IsSent(row: Row, last: Option<SendRecord>) {
    && last.Some? && last.value.outcome.Delivered?
    && row.status == Sent && row.lastError == None && row.providerMsgId == Some(last.value.outcome.msg)
  }

  /** The row has this status and the error of a last call that failed. */
  predicate FailedWith(row: Row, last: Option<SendRecord>, status: Status) {
    && last.Some? && !last.value.outcome.Delivered?
    && row.status == status && row.lastError == Some(last.value.outcome.error)
  }

  /** Waiting for a worker: never tried, given back after a failure worth another try, or given back
      by a shutdown that cut the wait for the limiter short. */
  predicate Rests(row: Row, last: Option<SendRecord>, cut: bool) {
    || (row.status == Pending && row.lastError == None && last == None)
    || (FailedWith(row, last, Queued) && last.value.outcome.Retryable?)
    || (cut && row.status == Sending && row.lastError == None)
  }

  /** The row beside a worker at `pc`. */
  predicate Says(pc: Pc, row: Row, last: Option<SendRecord>, cut: bool) {
    match pc
    case AtDecode => Rests(row, last, cut)
    case AtFetch => Rests(row, last, cut)
    case AtMarkSending(_) => Rests(row, last, cut)
    case AtLimit(_) => row.status == Sending && row.lastError == None
    case AtSend(_) => row.status == Sending && row.lastError == None
    case AtMarkSent(_) => row.status == Sending && row.lastError == None
    case AtAck => IsSent(row, last)
    case AtCount(_, _) => row.status == Sending && row.lastError == None
    case AtMarkFailed(_) => FailedWith(row, last, Sending)
    case AtNackDead => FailedWith(row, last, Failed)
    case AtMarkQueued(_, _) => FailedWith(row, last, Sending)
    case AtBackoff(_) => FailedWith(row, last, Queued) && last.value.outcome.Retryable?
    case AtNackRetry => Rests(row, last, cut)
    case AtEnd => Rests(row, last, cut) || IsSent(row, last) || FailedWith(row, last, Failed)
  }

  /** What a worker carries is what it heard last. */
  predicate Carried(pc: Pc, last: Option<SendRecord>) {
    match pc
    case AtMarkSent(msg) => Heard(last, Delivered(msg))
    case AtAck => last.Some? && last.value.outcome.Delivered?
    case AtCount(_, outcome) => Heard(last, outcome)
    case AtMarkFailed(error) => Heard(last, Retryable(error)) || Heard(last, Permanent(error))
    case AtMarkQueued(_, error) => Heard(last, Retryable(error))
    case AtNackDead => last.Some? && !last.value.outcome.Delivered?
    case AtBackoff(_) => last.Some? && last.value.outcome.Retryable?
    case _ => true
  }

  predicate Tells(pc: Pc, row: Row, last: Option<SendRecord>, cut: bool, touched: bool) {
    Carried(pc, last) && if touched then row.status == Queued || row.status == Cancelled else Says(pc, row, last, cut)
  }

  /** The program point that a message's place stands for. */
  function Point(s: State, c: nat): Pc
    requires c < |s.copies|
  {
    match s.copies[c].place
    case Ready => AtNackRetry
    case Unacked(d) => if d < |s.deliveries| then s.deliveries[d].pc else AtEnd
    case Acked => AtAck
    case Dead => AtNackDead
  }

  ghost predicate StoryAt(s: State, n: Id, c: nat, touched: bool)
    requires c < |s.copies| && n in s.rows
  {
    Tells(Point(s, c), s.rows[n], LastSend(s.sends, c), s.copies[c].cut, touched)
  }

  /** Rows without a message are pending, or cancelled, and never had an error. */
  ghost predicate UntouchedRow(row: Row, touched: bool) {
    if touched then row.status == Cancelled else row.status == Pending && row.lastError == None
  }

  ghost predicate StoryInv(s: State, n: Id, touched: bool) {
    && (n !in s.rows ==> !touched)
    && (n in s.rows && !HasCopy(s, n) ==> UntouchedRow(s.rows[n], touched))
    && forall c | Sole(s, n, c) :: StoryAt(s, n, c, touched)
  }

  // ---------------------------------------------------------------- steps

  lemma {:induction false} NoSendYet(sends: seq<SendRecord>, c: nat)
    requires forall j | 0 <= j < |sends| :: sends[j].copy < c
    ensures LastSend(sends, c) == None
  {
    if sends != [] { NoSendYet(sends[..|sends| - 1], c); }
  }

  lemma LastSendSnoc(sends: seq<SendRecord>, record: SendRecord, c: nat)
    ensures LastSend(sends + [record], c) == if record.copy == c then Some(record) else LastSend(sends, c)
  {
    assert (sends + [record])[..|sends|] == sends;
  }

  function Now(s: State, e: Event, n: Id, touched: bool): bool {
    Touches(s, e, n) || (!Writes(s, e, n) && touched)
  }

  lemma SentIsOwn(cfg: Config, s: State, d: nat, input: Input)
    requires d < |s.deliveries| && s.deliveries[d].copy < |s.copies|
    ensures var m := WorkMove(cfg, s, d, input); m.sent == [] || (m.sent == [m.sent[0]] && m.sent[0].copy == s.deliveries[d].copy)
  {
  }

  lemma WorkSends(cfg: Config, s: State, d: nat, input: Input, c: nat)
    requires d < |s.deliveries| && s.deliveries[d].copy < |s.copies|
    ensures var m := WorkMove(cfg, s, d, input);
            LastSend(WorkStep(cfg, s, d, input).sends, c)
            == if m.sent != [] && s.deliveries[d].copy == c then Some(m.sent[0]) else LastSend(s.sends, c)
  {
    var m := WorkMove(cfg, s, d, input);
    SentIsOwn(cfg, s, d, input);
    if m.sent == [] { assert s.sends + m.sent == s.sends; } else { LastSendSnoc(s.sends, m.sent[0], c); }
  }

  /** The program point of a message after its worker's step. */
  function PointOf(m: Move): Pc {
    match m.copy.place
    case Ready => AtNackRetry
    case Unacked(_) => m.pc
    case Acked => AtAck
    case Dead => AtNackDead
  }

  lemma SendingTells(s: State, d: nat, c: nat, n: Id, retry0: nat, m: Move, input: Input, last: Option<SendRecord>, touched: bool)
    requires BeforeAnswer(m.pc) && m.sent == [] && m.copy.place.Unacked? && n in m.rows
    requires Tells(m.pc, m.rows[n], last, m.copy.cut, touched)
    requires var a := SendingMove(s, d, c, n, retry0, m, input); n !in a.writeFailed
    ensures var a := SendingMove(s, d, c, n, retry0, m, input);
            var writes := input == Plain(true) && WritesStatusAt(m.pc);
            && n in a.rows
            && Tells(PointOf(a), a.rows[n], if a.sent != [] then Some(a.sent[0]) else last, a.copy.cut, !writes && touched)
  {
  }

  lemma SettlingTells(cfg: Config, s: State, d: nat, n: Id, m: Move, input: Input, last: Option<SendRecord>, touched: bool)
    requires !BeforeAnswer(m.pc) && !m.pc.AtDecode? && m.pc != AtEnd && m.sent == [] && m.copy.place == Unacked(d) && n in m.rows
    requires Tells(m.pc, m.rows[n], last, m.copy.cut, touched)
    requires var a := SettlingMove(cfg, s, d, n, m, input); n !in a.writeFailed
    ensures var a := SettlingMove(cfg, s, d, n, m, input);
            var writes := input == Plain(true) && WritesStatusAt(m.pc);
            && n in a.rows
            && Tells(PointOf(a), a.rows[n], last, a.copy.cut, !writes && touched)
  {
  }

  lemma MoveTells(cfg: Config, s: State, d: nat, input: Input, n: Id, touched: bool)
    requires d < |s.deliveries| && s.deliveries[d].copy < |s.copies|
    requires Of(s.deliveries[d].body, n) && n in s.rows && s.deliveries[d].pc != AtEnd
    requires s.copies[s.deliveries[d].copy].place == Unacked(d)
    requires StoryAt(s, n, s.deliveries[d].copy, touched)
    requires n !in WorkStep(cfg, s, d, input).writeFailed
    ensures var (m, last) := (WorkMove(cfg, s, d, input), LastSend(s.sends, s.deliveries[d].copy));
            && n in m.rows
            && Tells(PointOf(m), m.rows[n], if m.sent != [] then Some(m.sent[0]) else last, m.copy.cut,
                     !Writes(s, Work(d, input), n) && touched)
  {
    var (del, last) := (s.deliveries[d], LastSend(s.sends, s.deliveries[d].copy));
    var stay := Move(del.pc, s.copies[del.copy], s.rows, [], multiset{}, multiset{});
    if BeforeAnswer(del.pc) {
      SendingTells(s, d, del.copy, n, del.body.retry, stay, input, last, touched);
    } else if !del.pc.AtDecode? {
      SettlingTells(cfg, s, d, n, stay, input, last, touched);
    }
  }

  lemma MoveKeepsHold(cfg: Config, s: State, d: nat, input: Input)
    requires d < |s.deliveries| && s.deliveries[d].copy < |s.copies| && s.copies[s.deliveries[d].copy].place == Unacked(d)
    ensures var m := WorkMove(cfg, s, d, input); m.copy.place.Unacked? ==> m.copy.place == Unacked(d)
  {
  }

  lemma StoryKeptByItsWorker(cfg: Config, s: State, d: nat, input: Input, n: Id, touched: bool)
    requires d < |s.deliveries| && s.deliveries[d].copy < |s.copies| && Of(s.deliveries[d].body, n) && n in s.rows
    requires s.deliveries[d].pc != AtEnd && s.copies[s.deliveries[d].copy].place == Unacked(d)
    requires StoryAt(s, n, s.deliveries[d].copy, touched)
    requires n !in WorkStep(cfg, s, d, input).writeFailed
    ensures var t := WorkStep(cfg, s, d, input);
            n in t.rows && StoryAt(t, n, s.deliveries[d].copy, !Writes(s, Work(d, input), n) && touched)
  {
    var (c, t) := (s.deliveries[d].copy, WorkStep(cfg, s, d, input));
    WorkSends(cfg, s, d, input, c);
    MoveTells(cfg, s, d, input, n, touched);
    MoveKeepsHold(cfg, s, d, input);
    assert Point(t, c) == PointOf(WorkMove(cfg, s, d, input));
  }

  lemma StoryKeptByAnother(cfg: Config, s: State, d: nat, input: Input, n: Id, c: nat, touched: bool)
    requires d < |s.deliveries| && s.deliveries[d].copy < |s.copies| && c < |s.copies| && n in s.rows && StoryAt(s, n, c, touched)
    requires s.deliveries[d].pc == AtEnd || (s.deliveries[d].copy != c && !Of(s.deliveries[d].body, n))
    requires s.copies[c].place.Unacked? ==>
               var k := s.copies[c].place.delivery; k < |s.deliveries| && s.deliveries[k].copy == c
    ensures var t := WorkStep(cfg, s, d, input); n in t.rows && StoryAt(t, n, c, touched)
  {
    var t := WorkStep(cfg, s, d, input);
    WorkSends(cfg, s, d, input, c);
    MoveShape(cfg, s, d, input);
    MoveHolds(cfg, s, d, input);
    assert t.copies[c] == s.copies[c] && t.rows[n] == s.rows[n];
    if s.copies[c].place.Unacked? { assert t.deliveries[s.copies[c].place.delivery] == s.deliveries[s.copies[c].place.delivery]; }
  }

  lemma StoryKeptByWork(cfg: Config, s: State, d: nat, input: Input, n: Id, c: nat, touched: bool)
    requires Wf(s) && HeldInv(s) && d < |s.deliveries| && Sole(s, n, c) && StoryAt(s, n, c, touched)
    requires n !in Step(cfg, s, Work(d, input)).writeFailed
    ensures var t := Step(cfg, s, Work(d, input));
            c < |t.copies| && n in t.rows && StoryAt(t, n, c, !Writes(s, Work(d, input), n) && touched)
  {
    assert WfDelivery(s, s.deliveries[d]);
    if s.deliveries[d].copy == c && s.deliveries[d].pc != AtEnd {
      StoryKeptByItsWorker(cfg, s, d, input, n, touched);
    } else {
      assert s.deliveries[d].copy != c ==> !Of(s.deliveries[d].body, n);
      StoryKeptByAnother(cfg, s, d, input, n, c, touched);
    }
  }

  lemma TouchedRow(cfg: Config, s: State, e: Event, n: Id)
    requires ByPublisher(e) && n in s.rows
    ensures var t := Step(cfg, s, e);
            && n in t.rows
            && if Touches(s, e, n) then
                 t.rows[n].status == Cancelled || (t.rows[n].status == Queued && Provenance.Marks(s, e, n))
               else t.rows[n] == s.rows[n]
  {
    Provenance.PublisherColumns(cfg, s, e, n);
  }

  lemma StoryKeptByPublisher(cfg: Config, s: State, e: Event, n: Id, c: nat, touched: bool)
    requires Wf(s) && ByPublisher(e) && c < |s.copies| && n in s.rows && StoryAt(s, n, c, touched)
    ensures var t := Step(cfg, s, e); c < |t.copies| && n in t.rows && StoryAt(t, n, c, Now(s, e, n, touched))
  {
    PublisherSteps(cfg, s, e);
    TouchedRow(cfg, s, e, n);
    assert Step(cfg, s, e).copies[c] == s.copies[c];
  }

  lemma StoryKeptByBroker(s: State, e: Event, n: Id, c: nat, touched: bool)
    requires WfCopies(s) && (e.Deliver? || e.Lose?) && Sole(s, n, c) && StoryAt(s, n, c, touched) && Sole(BrokerStep(s, e), n, c)
    ensures StoryAt(BrokerStep(s, e), n, c, touched)
  {
    if e.Deliver? && s.copies[c].place.Unacked? {
      assert BrokerStep(s, e).deliveries[s.copies[c].place.delivery] == s.deliveries[s.copies[c].place.delivery];
    }
  }

  lemma MarksHaveCopies(s: State, e: Event, n: Id)
    requires MarksFollowCopies(s) && Provenance.Marks(s, e, n)
    ensures HasCopy(s, n)
  {
  }

  lemma StoryOfNew(cfg: Config, s: State, e: Event, n: Id, c: nat, touched: bool)
    requires Wf(s) && LogInv(s) && UntouchedInv(s) && c == |s.copies| && !HasCopy(s, n)
    requires n in s.rows ==> UntouchedRow(s.rows[n], touched)
    requires Sole(Step(cfg, s, e), n, c)
    ensures StoryAt(Step(cfg, s, e), n, c, Now(s, e, n, touched))
  {
    var t := Step(cfg, s, e);
    CopyOrigin(cfg, s, e);
    assert ByPublisher(e);
    PublisherSteps(cfg, s, e);
    TouchedRow(cfg, s, e, n);
    assert t.copies[c].place == Ready && n in s.rows;
    forall j | 0 <= j < |t.sends| ensures t.sends[j].copy < c {
      assert WfDelivery(s, s.deliveries[s.sends[j].delivery]);
    }
    NoSendYet(t.sends, c);
  }

  lemma NewRowIsUntouched(cfg: Config, s: State, e: Event, n: Id)
    requires Wf(s) && n !in s.rows && n in Step(cfg, s, e).rows
    ensures UntouchedRow(Step(cfg, s, e).rows[n], Now(s, e, n, false))
  {
    Provenance.RowsAppear(cfg, s, e, n);
  }

  /** No worker carries a notification that has no message. */
  lemma NobodyWorks(cfg: Config, s: State, d: nat, input: Input, n: Id)
    requires Wf(s) && d < |s.deliveries| && !HasCopy(s, n) && n in s.rows
    ensures var t := Step(cfg, s, Work(d, input)); n in t.rows && t.rows[n] == s.rows[n] && !Writes(s, Work(d, input), n)
  {
    assert WfDelivery(s, s.deliveries[d]);
    assert !Of(s.copies[s.deliveries[d].copy].body, n);
    MoveShape(cfg, s, d, input);
  }

  /** A row without messages. */
  lemma WithoutMessages(cfg: Config, s: State, e: Event, n: Id, touched: bool)
    requires Wf(s) && MarksFollowCopies(s) && !HasCopy(s, n) && n in s.rows && UntouchedRow(s.rows[n], touched)
    ensures n in Step(cfg, s, e).rows && UntouchedRow(Step(cfg, s, e).rows[n], Now(s, e, n, touched))
  {
    if ByPublisher(e) {
      if Provenance.Marks(s, e, n) {
        MarksHaveCopies(s, e, n);
        assert false;
      }
      TouchedRow(cfg, s, e, n);
    } else if e.Work? && e.delivery < |s.deliveries| {
      NobodyWorks(cfg, s, e.delivery, e.input, n);
    }
  }

  lemma NoRowNoTouch(cfg: Config, s: State, e: Event, n: Id, touched: bool)
    requires Wf(s) && (n !in s.rows ==> !touched) && n !in Step(cfg, s, e).rows
    ensures !Now(s, e, n, touched)
  {
    StepKeeps(cfg, s, e);
    assert n !in s.rows;
  }

  lemma RowKept(cfg: Config, s: State, e: Event, n: Id, touched: bool)
    requires Wf(s) && UntouchedInv(s) && (n !in s.rows ==> !touched)
    requires n in s.rows && !HasCopy(s, n) ==> UntouchedRow(s.rows[n], touched)
    ensures var t := Step(cfg, s, e);
            && (n !in t.rows ==> !Now(s, e, n, touched))
            && (n in t.rows && !HasCopy(t, n) ==> UntouchedRow(t.rows[n], Now(s, e, n, touched)))
  {
    var t := Step(cfg, s, e);
    if n !in t.rows {
      NoRowNoTouch(cfg, s, e, n, touched);
    } else if n !in s.rows {
      NewRowIsUntouched(cfg, s, e, n);
    } else if !HasCopy(t, n) {
      StepKeeps(cfg, s, e);
      HasCopyPersists(s, t);
      WithoutMessages(cfg, s, e, n, touched);
    }
  }

  lemma StoryKeptAt(cfg: Config, s: State, e: Event, n: Id, c: nat, touched: bool)
    requires Wf(s) && HeldInv(s) && Sole(s, n, c) && Sole(Step(cfg, s, e), n, c) && StoryAt(s, n, c, touched)
    ensures StoryAt(Step(cfg, s, e), n, c, Now(s, e, n, touched))
  {
    if ByPublisher(e) {
      StoryKeptByPublisher(cfg, s, e, n, c, touched);
    } else if e.Work? {
      if e.delivery < |s.deliveries| { StoryKeptByWork(cfg, s, e.delivery, e.input, n, c, touched); }
    } else {
      StoryKeptByBroker(s, e, n, c, touched);
    }
  }

  lemma StoryKept(cfg: Config, s: State, e: Event, n: Id, touched: bool)
    requires Wf(s) && LogInv(s) && HeldInv(s) && UntouchedInv(s) && StoryInv(s, n, touched)
    ensures StoryInv(Step(cfg, s, e), n, Now(s, e, n, touched))
  {
    var t := Step(cfg, s, e);
    RowKept(cfg, s, e, n, touched);
    forall c: nat | Sole(t, n, c) ensures StoryAt(t, n, c, Now(s, e, n, touched)) {
      SoleBefore(cfg, s, e, n, c);
      if c >= |s.copies| {
        StoryOfNew(cfg, s, e, n, c, touched);
      } else {
        StoryKeptAt(cfg, s, e, n, c, touched);
      }
    }
  }

  lemma {:induction false} StoryAlways(cfg: Config, schedulers: nat, es: seq<Event>, n: Id)
    ensures StoryInv(After(cfg, schedulers, es), n, Touched(cfg, schedulers, es, n))
  {
    if es != [] {
      var (front, e) := (es[..|es| - 1], es[|es| - 1]);
      var s := After(cfg, schedulers, front);
      AfterWf(cfg, schedulers, front);
      EvidenceAlways(cfg, schedulers, front);
      SoundAlways(cfg, schedulers, front);
      UntouchedAlways(cfg, schedulers, front);
      StoryAlways(cfg, schedulers, front, n);
      StoryKept(cfg, s, e, n, Touched(cfg, schedulers, front, n));
    }
  }

  // ---------------------------------------------------------------- results

  /** A notification with a single message, never lost, whose workers' writes succeed. After a mark or a
      cancellation that no worker's status write has followed, its row is queued or cancelled. Otherwise
      the row tells what its worker did: it is `sending` from the write that starts a delivery to the
      next status write, without an error until a failure is counted; an acked message left it `sent`
      with the message id of the last call, a dead-lettered one `failed` with the error of the last
      call, and one given back after a failure `queued` with that error. A settled message's row was
      touched exactly if a mark replaced its final status. */
  lemma RowTellsItsStory(cfg: Config, schedulers: nat, es: seq<Event>, n: Id, c: nat)
    requires Sole(After(cfg, schedulers, es), n, c)
    ensures var s := After(cfg, schedulers, es);
            var (row, copy, last, touched) := (s.rows[n], s.copies[c], LastSend(s.sends, c), Touched(cfg, schedulers, es, n));
            && (touched ==> row.status == Queued || row.status == Cancelled)
            && (!touched && copy.place == Ready ==> Rests(row, last, copy.cut))
            && (!touched && copy.place == Acked ==> IsSent(row, last))
            && (!touched && copy.place == Dead ==> FailedWith(row, last, Failed))
            && (!touched && copy.place.Unacked? ==>
                  copy.place.delivery < |s.deliveries| && Says(s.deliveries[copy.place.delivery].pc, row, last, copy.cut))
            && (copy.place == Acked || copy.place == Dead ==> (touched <==> n in s.overwritten))
  {
    var s := After(cfg, schedulers, es);
    AfterWf(cfg, schedulers, es);
    StoryAlways(cfg, schedulers, es, n);
    StatusMatchesPlace(cfg, schedulers, es, n, c);
    assert StoryAt(s, n, c, Touched(cfg, schedulers, es, n));
  }
}
