/** internal/queue/consumer.go: processMessage and handleFailure, run against any interference.
    What the database, the broker, the limiter and the provider answer is arbitrary. */
module Consumer {
  import opened Model
  import opened Pipeline
  import opened Frame
  import opened Tokens
  import opened System

  /** How one run of processMessage ended. */
  datatype Ending = Discarded | Interrupted | Answered(retry: nat, outcome: Outcome)

  /** What became of the webhook call: no response, or a response with its status and its text, the
      message id for 2xx (made up if it has none) and the error text for any other. */
  datatype Reply = NoReply(error: string) | Http(status: int, text: string)

  /** internal/delivery/provider.go, and handleFailure's default for errors of any other kind. */
  function Classify(reply: Reply): Outcome {
    match reply
    case NoReply(error) => Retryable(error)
    case Http(status, text) =>
      if 200 <= status < 300 then Delivered(text)
      else if status == 429 || status >= 500 then Retryable(text)
      else Permanent(text)
  }

  /** Where the broker puts a message after its run, if the ack or nack gets through. */
  function Destination(cfg: Config, end: Ending): Place {
    match end
    case Discarded => Dead
    case Interrupted => Ready
    case Answered(retry, outcome) =>
      if outcome.Delivered? then Acked
      else if outcome.Permanent? || retry + 1 >= cfg.maxRetries then Dead
      else Ready
  }

  /** Where a message that the provider was called for belongs, in terms of the response and of the
      failures its row showed before: only 2xx acks it; 429, 5xx and no response give it back until
      MaxRetries is reached; every other status, 3xx included, dead-letters it. */
  predicate BelongsAt(maxRetries: int, failures: nat, reply: Reply, place: Place) {
    match reply
    case NoReply(_) => place == if failures + 1 < maxRetries then Ready else Dead
    case Http(status, _) =>
      if 200 <= status <= 299 then place == Acked
      else place == if (status == 429 || 500 <= status) && failures + 1 < maxRetries then Ready else Dead
  }

  /** What the worker makes of the response: only 2xx is a delivery, with its message id; every other
      answer is a failure with its own error text, worth another try for 429, 5xx and no response. */
  predicate HeardAs(reply: Reply, outcome: Outcome) {
    match reply
    case NoReply(error) => outcome == Retryable(error)
    case Http(status, text) =>
      if 200 <= status <= 299 then outcome == Delivered(text)
      else !outcome.Delivered? && outcome.error == text && (outcome.Retryable? <==> status == 429 || 500 <= status)
  }

  /** What the environment does to one execution: whether the fresh read and the first status write
      work, how often the limiter refuses and whether a shutdown ends that wait, what comes of the
      webhook call, whether the failure is counted and the last status written, whether a shutdown cuts
      the backoff short, and whether the ack or nack gets through. */
  datatype World = World(
    readWorks: bool, started: bool, refusals: nat, shutdown: bool, reply: Reply,
    counted: bool, recorded: bool, wokenEarly: bool, confirms: bool)

  // ---------------------------------------------------------------- the statements of one execution

  function Denials(d: nat, n: nat): seq<Event> {
    if n == 0 then [] else Denials(d, n - 1) + [Work(d, Limiter(Deny))]
  }

  /** The limiter is asked until it admits, or until a shutdown falls into a wait. */
  function WaitScript(d: nat, world: World): seq<Event> {
    if world.refusals > 0 && world.shutdown then Denials(d, world.refusals - 1) + [Work(d, Limiter(Shutdown))]
    else Denials(d, world.refusals) + [Work(d, Limiter(Admit))]
  }

  /** The failure is counted and the status written; only before another try comes the backoff. */
  function FailureScript(d: nat, again: bool, world: World): seq<Event> {
    (if again then Writing(d, world) + [Work(d, Woken(world.wokenEarly))] else Writing(d, world)) + [Work(d, Plain(world.confirms))]
  }

  function Writing(d: nat, world: World): seq<Event> { [Work(d, Plain(world.counted))] + [Work(d, Plain(world.recorded))] }

  function SendScript(cfg: Config, d: nat, retry: nat, world: World): seq<Event> {
    var outcome := Classify(world.reply);
    if outcome.Delivered? then [Work(d, Provider(outcome))] + [Work(d, Plain(world.recorded))] + [Work(d, Plain(world.confirms))]
    else [Work(d, Provider(outcome))] + FailureScript(d, Destination(cfg, Answered(retry, outcome)) == Ready, world)
  }

  function DeliverScript(cfg: Config, d: nat, retry: nat, world: World): seq<Event> {
    [Work(d, Plain(world.started))] + WaitScript(d, world)
    + if world.refusals > 0 && world.shutdown then [Work(d, Plain(world.confirms))] else SendScript(cfg, d, retry, world)
  }

  function NoteScript(cfg: Config, d: nat, end: Ending, world: World): seq<Event> {
    [Work(d, Plain(world.readWorks))] + DeliverScript(cfg, d, if end.Answered? then end.retry else 0, world)
  }

  /** All the statements of an execution, in order, each with the environment's answer to it. */
  function Script(cfg: Config, d: nat, body: Body, end: Ending, world: World): seq<Event> {
    if body.Undecodable? then [Work(d, Plain(true))] + [Work(d, Plain(world.confirms))]
    else [Work(d, Plain(true))] + NoteScript(cfg, d, end, world)
  }

  /** The last statement of a run: the broker's answer decides whether the message moves. */
  ghost predicate Ended(cfg: Config, s: State, d: nat, end: Ending, moves: bool) {
    && d < |s.deliveries| && s.deliveries[d].pc == AtEnd && s.deliveries[d].copy < |s.copies|
    && (moves ==> s.copies[s.deliveries[d].copy].place == Destination(cfg, end))
  }

  /** The provider's calls that an execution ending so makes: one, or none. */
  function SendsFor(del: Delivery, d: nat, end: Ending): seq<SendRecord> {
    if end.Answered? && del.body.Note? then [SendRecord(d, del.copy, del.body.id, end.retry, end.outcome)] else []
  }

  /** Where a worker goes from `pc`; from the fresh read it goes with what it read. */
  function NextPc(cfg: Config, pc: Pc, input: Input): Pc {
    match (pc, input)
    case (AtMarkSending(r), Plain(_)) => AtLimit(r)
    case (AtLimit(r), Limiter(Admit)) => AtSend(r)
    case (AtLimit(_), Limiter(Shutdown)) => AtNackRetry
    case (AtSend(r), Provider(out)) => if out.Delivered? then AtMarkSent(out.msg) else AtCount(r, out)
    case (AtMarkSent(_), Plain(_)) => AtAck
    case (AtCount(r, out), Plain(_)) =>
      if out.Delivered? then pc
      else if out.Permanent? || r + 1 >= cfg.maxRetries then AtMarkFailed(out.error) else AtMarkQueued(r + 1, out.error)
    case (AtMarkFailed(_), Plain(_)) => AtNackDead
    case (AtMarkQueued(attempt, _), Plain(_)) => AtBackoff(attempt)
    case (AtBackoff(_), Woken(_)) => AtNackRetry
    case _ => pc
  }

  predicate Settles(pc: Pc) { pc.AtAck? || pc.AtNackDead? || pc.AtNackRetry? }

  lemma NextPcIsNext(cfg: Config, s: State, d: nat, input: Input)
    requires d < |s.deliveries| && s.deliveries[d].copy < |s.copies| && s.deliveries[d].body.Note?
    requires var pc := s.deliveries[d].pc; !pc.AtDecode? && !pc.AtFetch? && !Settles(pc)
    ensures WorkMove(cfg, s, d, input).pc == NextPc(cfg, s.deliveries[d].pc, input)
  {
  }

  lemma NextSendsNothing(cfg: Config, s: State, d: nat, input: Input)
    requires d < |s.deliveries| && s.deliveries[d].copy < |s.copies| && !s.deliveries[d].pc.AtSend?
    ensures Step(cfg, s, Work(d, input)).sends == s.sends
  {
  }

  /** One statement of the worker, after whatever the others did. */
  method Next(sys: Engine, d: nat, input: Input)
    requires sys.Valid() && d < |sys.s.deliveries| && sys.s.deliveries[d].body.Note?
    requires var pc := sys.s.deliveries[d].pc; !pc.AtDecode? && !pc.AtFetch? && !pc.AtSend? && !Settles(pc)
    modifies sys
    ensures sys.Valid() && SendsOf(sys.s.sends, d) == old(SendsOf(sys.s.sends, d))
    ensures d < |sys.s.deliveries|
    ensures sys.s.deliveries[d] == old(sys.s.deliveries[d]).(pc := NextPc(sys.cfg, old(sys.s.deliveries[d].pc), input))
    ensures Ran(old(sys.log), sys.log, Worker(d), [Work(d, input)])
  {
    sys.Interfere(Worker(d));
    AfterWf(sys.cfg, sys.schedulers, sys.log);
    assert WfDelivery(sys.s, sys.s.deliveries[d]);
    NextPcIsNext(sys.cfg, sys.s, d, input);
    NextSendsNothing(sys.cfg, sys.s, d, input);
    sys.Do(Work(d, input));
  }

  /** A statement of the database, which may fail: the worker goes on all the same. */
  method Statement(sys: Engine, d: nat, ok: bool)
    requires sys.Valid() && d < |sys.s.deliveries| && sys.s.deliveries[d].body.Note?
    requires var pc := sys.s.deliveries[d].pc; !pc.AtDecode? && !pc.AtFetch? && !pc.AtSend? && !Settles(pc)
    modifies sys
    ensures sys.Valid() && SendsOf(sys.s.sends, d) == old(SendsOf(sys.s.sends, d))
    ensures d < |sys.s.deliveries|
    ensures sys.s.deliveries[d] == old(sys.s.deliveries[d]).(pc := NextPc(sys.cfg, old(sys.s.deliveries[d].pc), Plain(true)))
    ensures Ran(old(sys.log), sys.log, Worker(d), [Work(d, Plain(ok))])
  {
    assert NextPc(sys.cfg, sys.s.deliveries[d].pc, Plain(ok)) == NextPc(sys.cfg, sys.s.deliveries[d].pc, Plain(true));
    Next(sys, d, Plain(ok));
  }

  lemma SettleLands(cfg: Config, s: State, d: nat, ok: bool)
    requires d < |s.deliveries| && s.deliveries[d].copy < |s.copies| && Settles(s.deliveries[d].pc)
    requires s.deliveries[d].body.Note? || s.deliveries[d].pc.AtNackDead?
    ensures var (m, pc) := (WorkMove(cfg, s, d, Plain(ok)), s.deliveries[d].pc);
            && m.pc == AtEnd
            && (ok && s.copies[s.deliveries[d].copy].place == Unacked(d) ==>
                  m.copy.place == if pc.AtAck? then Acked else if pc.AtNackDead? then Dead else Ready)
  {
  }

  /** The final ack or nack. `held`: the broker had not taken the message back in the meantime. */
  method Settle(sys: Engine, d: nat, end: Ending, confirms: bool) returns (held: bool)
    requires sys.Valid() && d < |sys.s.deliveries|
    requires sys.s.deliveries[d].body.Note? || sys.s.deliveries[d].pc.AtNackDead?
    requires match Destination(sys.cfg, end)
             case Acked => sys.s.deliveries[d].pc == AtAck
             case Dead => sys.s.deliveries[d].pc == AtNackDead
             case Ready => sys.s.deliveries[d].pc == AtNackRetry
             case Unacked(_) => false
    modifies sys
    ensures sys.Valid() && SendsOf(sys.s.sends, d) == old(SendsOf(sys.s.sends, d))
    ensures Ended(sys.cfg, sys.s, d, end, confirms && held)
    ensures Ran(old(sys.log), sys.log, Worker(d), [Work(d, Plain(confirms))])
  {
    sys.Interfere(Worker(d));
    AfterWf(sys.cfg, sys.schedulers, sys.log);
    assert WfDelivery(sys.s, sys.s.deliveries[d]);
    held := sys.s.copies[sys.s.deliveries[d].copy].place == Unacked(d);
    SettleLands(sys.cfg, sys.s, d, confirms);
    NextSendsNothing(sys.cfg, sys.s, d, Plain(confirms));
    sys.Do(Work(d, Plain(confirms)));
  }

  /** The delay before another try: the timer, or ctx.Done, and in either case Nack with requeue. */
  method BackOff(sys: Engine, d: nat, retry: nat, outcome: Outcome, world: World, ghost begun: seq<Event>) returns (held: bool)
    requires sys.Valid() && d < |sys.s.deliveries| && sys.s.deliveries[d].body.Note?
    requires Destination(sys.cfg, Answered(retry, outcome)) == Ready && sys.s.deliveries[d].pc == AtBackoff(retry + 1)
    requires Ran(begun, sys.log, Worker(d), Writing(d, world))
    modifies sys
    ensures sys.Valid() && SendsOf(sys.s.sends, d) == old(SendsOf(sys.s.sends, d))
    ensures Ended(sys.cfg, sys.s, d, Answered(retry, outcome), world.confirms && held)
    ensures Ran(begun, sys.log, Worker(d), FailureScript(d, true, world))
  {
    ghost var written := sys.log;
    Next(sys, d, Woken(world.wokenEarly));
    RanThen(begun, written, sys.log, Worker(d), Writing(d, world), [Work(d, Woken(world.wokenEarly))]);
    ghost var woken := sys.log;
    held := Settle(sys, d, Answered(retry, outcome), world.confirms);
    RanThen(begun, woken, sys.log, Worker(d), Writing(d, world) + [Work(d, Woken(world.wokenEarly))], [Work(d, Plain(world.confirms))]);
  }

  method HandleFailure(sys: Engine, d: nat, retry: nat, outcome: Outcome, world: World) returns (held: bool)
    requires sys.Valid() && d < |sys.s.deliveries| && sys.s.deliveries[d].body.Note?
    requires !outcome.Delivered? && sys.s.deliveries[d].pc == AtCount(retry, outcome)
    modifies sys
    ensures sys.Valid() && SendsOf(sys.s.sends, d) == old(SendsOf(sys.s.sends, d))
    ensures Ended(sys.cfg, sys.s, d, Answered(retry, outcome), world.confirms && held)
    ensures Ran(old(sys.log), sys.log, Worker(d), FailureScript(d, Destination(sys.cfg, Answered(retry, outcome)) == Ready, world))
  {
    ghost var begun := sys.log;
    var retryable := outcome.Retryable?;
    Statement(sys, d, world.counted);                                // IncrementRetry
    ghost var counted := sys.log;
    var currentRetry := retry + 1;
    if !retryable || currentRetry >= sys.cfg.maxRetries {
      Statement(sys, d, world.recorded);                             // UpdateStatus(failed)
      RanThen(begun, counted, sys.log, Worker(d), [Work(d, Plain(world.counted))], [Work(d, Plain(world.recorded))]);
      ghost var settling := sys.log;
      held := Settle(sys, d, Answered(retry, outcome), world.confirms); // Nack without requeue
      RanThen(begun, settling, sys.log, Worker(d), Writing(d, world), [Work(d, Plain(world.confirms))]);
    } else {
      Statement(sys, d, world.recorded);                             // UpdateStatus(queued)
      RanThen(begun, counted, sys.log, Worker(d), [Work(d, Plain(world.counted))], [Work(d, Plain(world.recorded))]);
      held := BackOff(sys, d, retry, outcome, world, begun);
    }
  }

  /** Worker `d` still waits as `del`, has made the calls `sends`, and has been refused `k` times. */
  ghost predicate Waits(s: State, log: seq<Event>, d: nat, del: Delivery, sends: seq<SendRecord>, begun: seq<Event>, k: nat) {
    d < |s.deliveries| && s.deliveries[d] == del && SendsOf(s.sends, d) == sends && Ran(begun, log, Worker(d), Denials(d, k))
  }

  /** The limiter refuses once more. */
  method Refused(sys: Engine, d: nat, ghost del: Delivery, ghost sends: seq<SendRecord>, ghost begun: seq<Event>, ghost k: nat)
    requires sys.Valid() && del.body.Note? && del.pc.AtLimit? && Waits(sys.s, sys.log, d, del, sends, begun, k)
    modifies sys
    ensures sys.Valid() && Waits(sys.s, sys.log, d, del, sends, begun, k + 1)
  {
    ghost var before := sys.log;
    Next(sys, d, Limiter(Deny));
    RanThen(begun, before, sys.log, Worker(d), Denials(d, k), [Work(d, Limiter(Deny))]);
  }

  /** The wait is over: the limiter admits, or a shutdown comes. */
  method Decided(
    sys: Engine, d: nat, verdict: Verdict, ghost del: Delivery, ghost sends: seq<SendRecord>, ghost begun: seq<Event>, ghost k: nat)
    requires sys.Valid() && del.body.Note? && del.pc.AtLimit? && Waits(sys.s, sys.log, d, del, sends, begun, k) && verdict != Deny
    modifies sys
    ensures sys.Valid() && d < |sys.s.deliveries| && SendsOf(sys.s.sends, d) == sends
    ensures sys.s.deliveries[d] == del.(pc := if verdict == Admit then AtSend(del.pc.retry) else AtNackRetry)
    ensures Ran(begun, sys.log, Worker(d), Denials(d, k) + [Work(d, Limiter(verdict))])
  {
    ghost var before := sys.log;
    Next(sys, d, Limiter(verdict));
    RanThen(begun, before, sys.log, Worker(d), Denials(d, k), [Work(d, Limiter(verdict))]);
  }

  /** The rate-limit wait loop: a shutdown during one of its waits ends the run, a limiter error
      counts as leave to go on. */
  method WaitForLimiter(sys: Engine, d: nat, retry: nat, world: World) returns (admitted: bool)
    requires sys.Valid() && d < |sys.s.deliveries| && sys.s.deliveries[d].body.Note?
    requires sys.s.deliveries[d].pc == AtLimit(retry)
    modifies sys
    ensures sys.Valid() && SendsOf(sys.s.sends, d) == old(SendsOf(sys.s.sends, d))
    ensures d < |sys.s.deliveries|
    ensures sys.s.deliveries[d] == old(sys.s.deliveries[d]).(pc := if admitted then AtSend(retry) else AtNackRetry)
    ensures admitted <==> world.refusals == 0 || !world.shutdown
    ensures Ran(old(sys.log), sys.log, Worker(d), WaitScript(d, world))
  {
    ghost var begun, del, sends := sys.log, sys.s.deliveries[d], SendsOf(sys.s.sends, d);
    assert Waits(sys.s, sys.log, d, del, sends, begun, 0);
    var denied := 0;
    while denied < world.refusals
      invariant 0 <= denied <= world.refusals && (denied == world.refusals ==> denied == 0 || !world.shutdown)
      invariant sys.Valid() && Waits(sys.s, sys.log, d, del, sends, begun, denied)
    {
      if world.shutdown && denied == world.refusals - 1 {
        Decided(sys, d, Shutdown, del, sends, begun, denied);
        return false;
      }
      Refused(sys, d, del, sends, begun, denied);
      denied := denied + 1;
    }
    Decided(sys, d, Admit, del, sends, begun, denied);
    return true;
  }

  lemma SendIsLogged(cfg: Config, s: State, d: nat, outcome: Outcome)
    requires d < |s.deliveries| && s.deliveries[d].copy < |s.copies| && s.deliveries[d].body.Note? && s.deliveries[d].pc.AtSend?
    ensures var (t, del) := (WorkStep(cfg, s, d, Provider(outcome)), s.deliveries[d]);
            && t.sends == s.sends + [SendRecord(d, del.copy, del.body.id, del.pc.retry, outcome)]
            && t.deliveries[d] == del.(pc := NextPc(cfg, del.pc, Provider(outcome)))
  {
  }

  /** provider.Send: one call, whose answer is on record. */
  method Send(sys: Engine, d: nat, retry: nat, outcome: Outcome)
    requires sys.Valid() && d < |sys.s.deliveries| && sys.s.deliveries[d].body.Note?
    requires sys.s.deliveries[d].pc == AtSend(retry)
    modifies sys
    ensures sys.Valid() && d < |sys.s.deliveries|
    ensures sys.s.deliveries[d] == old(sys.s.deliveries[d]).(pc := NextPc(sys.cfg, AtSend(retry), Provider(outcome)))
    ensures SendsOf(sys.s.sends, d)
            == old(SendsOf(sys.s.sends, d)) + SendsFor(old(sys.s.deliveries[d]), d, Answered(retry, outcome))
    ensures Ran(old(sys.log), sys.log, Worker(d), [Work(d, Provider(outcome))])
  {
    sys.Interfere(Worker(d));
    AfterWf(sys.cfg, sys.schedulers, sys.log);
    assert WfDelivery(sys.s, sys.s.deliveries[d]);
    SendIsLogged(sys.cfg, sys.s, d, outcome);
    SendsOfSnoc(sys.s.sends, SendRecord(d, sys.s.deliveries[d].copy, sys.s.deliveries[d].body.id, retry, outcome), d);
    sys.Do(Work(d, Provider(outcome)));
  }

  method SendAndSettle(sys: Engine, d: nat, retry: nat, world: World) returns (end: Ending, held: bool)
    requires sys.Valid() && d < |sys.s.deliveries| && sys.s.deliveries[d].body.Note?
    requires sys.s.deliveries[d].pc == AtSend(retry)
    modifies sys
    ensures sys.Valid()
    ensures end == Answered(retry, Classify(world.reply)) && Ended(sys.cfg, sys.s, d, end, world.confirms && held)
    ensures SendsOf(sys.s.sends, d) == old(SendsOf(sys.s.sends, d)) + SendsFor(old(sys.s.deliveries[d]), d, end)
    ensures Ran(old(sys.log), sys.log, Worker(d), SendScript(sys.cfg, d, retry, world))
  {
    var outcome := Classify(world.reply);
    end := Answered(retry, outcome);
    ghost var begun, send := sys.log, [Work(d, Provider(outcome))];
    Send(sys, d, retry, outcome);
    ghost var answered := sys.log;
    if !outcome.Delivered? {
      held := HandleFailure(sys, d, retry, outcome, world);
      RanThen(begun, answered, sys.log, Worker(d), send, FailureScript(d, Destination(sys.cfg, end) == Ready, world));
    } else {
      Statement(sys, d, world.recorded);                             // UpdateStatus(sent)
      RanThen(begun, answered, sys.log, Worker(d), send, [Work(d, Plain(world.recorded))]);
      ghost var recorded := sys.log;
      held := Settle(sys, d, end, world.confirms);                   // Ack
      RanThen(begun, recorded, sys.log, Worker(d), send + [Work(d, Plain(world.recorded))], [Work(d, Plain(world.confirms))]);
    }
  }

  lemma FetchReads(cfg: Config, s: State, d: nat, ok: bool)
    requires d < |s.deliveries| && s.deliveries[d].copy < |s.copies| && s.deliveries[d].body.Note? && s.deliveries[d].pc.AtFetch?
    ensures var (t, body) := (WorkStep(cfg, s, d, Plain(ok)), s.deliveries[d].body);
            && t.sends == s.sends && t.rows == s.rows
            && t.deliveries[d] == s.deliveries[d].(pc := AtMarkSending(
                 if ok && body.id in s.rows then s.rows[body.id].retryCount else body.retry))
  {
  }

  /** The fresh read: the row's retry count, or the message's own when the read fails. */
  method Fetch(sys: Engine, d: nat, works: bool) returns (retry: nat)
    requires sys.Valid() && d < |sys.s.deliveries| && sys.s.deliveries[d].body.Note?
    requires sys.s.deliveries[d].pc == AtFetch
    modifies sys
    ensures sys.Valid() && SendsOf(sys.s.sends, d) == old(SendsOf(sys.s.sends, d))
    ensures d < |sys.s.deliveries| && sys.s.deliveries[d] == old(sys.s.deliveries[d]).(pc := AtMarkSending(retry))
    ensures retry == if works then RetryCount(sys.s, sys.s.deliveries[d].body.id) else sys.s.deliveries[d].body.retry
    ensures Ran(old(sys.log), sys.log, Worker(d), [Work(d, Plain(works))])
  {
    sys.Interfere(Worker(d));
    AfterWf(sys.cfg, sys.schedulers, sys.log);
    assert WfDelivery(sys.s, sys.s.deliveries[d]);
    var body := sys.s.deliveries[d].body;
    retry := body.retry;
    assert body.id in sys.s.rows by { assert sys.s.copies[sys.s.deliveries[d].copy].body == body; }
    if works { retry := sys.s.rows[body.id].retryCount; }
    FetchReads(sys.cfg, sys.s, d, works);
    sys.Do(Work(d, Plain(works)));
  }

  lemma DecodeGoesOn(cfg: Config, s: State, d: nat)
    requires d < |s.deliveries| && s.deliveries[d].copy < |s.copies| && s.deliveries[d].pc.AtDecode?
    ensures var t := WorkStep(cfg, s, d, Plain(true));
            && t.sends == s.sends
            && t.deliveries[d] == s.deliveries[d].(pc := if s.deliveries[d].body.Note? then AtFetch else AtNackDead)
  {
  }

  /** json.Unmarshal. */
  method Decode(sys: Engine, d: nat) returns (body: Body)
    requires sys.Valid() && d < |sys.s.deliveries| && sys.s.deliveries[d].pc == AtDecode
    modifies sys
    ensures sys.Valid() && SendsOf(sys.s.sends, d) == old(SendsOf(sys.s.sends, d))
    ensures body == old(sys.s.deliveries[d].body) && d < |sys.s.deliveries|
    ensures sys.s.deliveries[d] == old(sys.s.deliveries[d]).(pc := if body.Note? then AtFetch else AtNackDead)
    ensures Ran(old(sys.log), sys.log, Worker(d), [Work(d, Plain(true))])
  {
    sys.Interfere(Worker(d));
    AfterWf(sys.cfg, sys.schedulers, sys.log);
    assert WfDelivery(sys.s, sys.s.deliveries[d]);
    body := sys.s.deliveries[d].body;
    DecodeGoesOn(sys.cfg, sys.s, d);
    sys.Do(Work(d, Plain(true)));
  }

  /** From the status write on: the wait for the limiter, the send and what follows. */
  method Deliver(sys: Engine, d: nat, retry: nat, world: World) returns (end: Ending, held: bool)
    requires sys.Valid() && d < |sys.s.deliveries| && sys.s.deliveries[d].body.Note?
    requires sys.s.deliveries[d].pc == AtMarkSending(retry)
    modifies sys
    ensures sys.Valid()
    ensures end == if world.refusals > 0 && world.shutdown then Interrupted else Answered(retry, Classify(world.reply))
    ensures Ended(sys.cfg, sys.s, d, end, world.confirms && held)
    ensures SendsOf(sys.s.sends, d) == old(SendsOf(sys.s.sends, d)) + SendsFor(old(sys.s.deliveries[d]), d, end)
    ensures Ran(old(sys.log), sys.log, Worker(d), DeliverScript(sys.cfg, d, retry, world))
  {
    ghost var begun, start := sys.log, [Work(d, Plain(world.started))];
    Statement(sys, d, world.started);                                // UpdateStatus(sending)
    ghost var started := sys.log;
    var admitted := WaitForLimiter(sys, d, retry, world);
    RanThen(begun, started, sys.log, Worker(d), start, WaitScript(d, world));
    ghost var waited := sys.log;
    if !admitted {
      end := Interrupted;
      held := Settle(sys, d, end, world.confirms);                   // Nack with requeue
      RanThen(begun, waited, sys.log, Worker(d), start + WaitScript(d, world), [Work(d, Plain(world.confirms))]);
    } else {
      end, held := SendAndSettle(sys, d, retry, world);
      RanThen(begun, waited, sys.log, Worker(d), start + WaitScript(d, world), SendScript(sys.cfg, d, retry, world));
    }
  }

  /** The fresh read, and the delivery with what it found. */
  method ReadAndDeliver(sys: Engine, d: nat, body: Body, world: World) returns (end: Ending, held: bool)
    requires sys.Valid() && d < |sys.s.deliveries| && body.Note? && sys.s.deliveries[d].body == body && sys.s.deliveries[d].pc == AtFetch
    modifies sys
    ensures sys.Valid()
    ensures end.Interrupted? || end.Answered?
    ensures end.Interrupted? <==> world.refusals > 0 && world.shutdown
    ensures end.Answered? ==> end.outcome == Classify(world.reply)
    ensures end.Answered? ==>
              if world.readWorks then old(RetryCount(sys.s, body.id)) <= end.retry <= RetryCount(sys.s, body.id)
              else end.retry == body.retry
    ensures Ended(sys.cfg, sys.s, d, end, world.confirms && held)
    ensures SendsOf(sys.s.sends, d) == old(SendsOf(sys.s.sends, d)) + SendsFor(old(sys.s.deliveries[d]), d, end)
    ensures Ran(old(sys.log), sys.log, Worker(d), NoteScript(sys.cfg, d, end, world))
  {
    ghost var begun := sys.log;
    var retry := Fetch(sys, d, world.readWorks);                     // GetByID
    RetryCountGrows(sys.cfg, sys.schedulers, begun, sys.log, body.id);
    ghost var read := sys.log;
    end, held := Deliver(sys, d, retry, world);
    RanThen(begun, read, sys.log, Worker(d), [Work(d, Plain(world.readWorks))], DeliverScript(sys.cfg, d, retry, world));
    RetryCountGrows(sys.cfg, sys.schedulers, read, sys.log, body.id);
  }

  /** Every execution of processMessage, whatever the others do between its statements, is a run of
      the step machine that ends its delivery. The environment's answers determine how it ends: an
      undecodable message makes no call of the provider, nor does a shutdown during the wait; any
      other makes exactly one, with the retry count that the read found. An ack or nack that gets
      through while the worker still holds the message puts it where that ending says. Its events
      are the script of that ending and no others: in particular the limiter is asked until it admits,
      and the backoff comes after the status write and before the nack. */
  method ProcessMessage(sys: Engine, d: nat, world: World) returns (end: Ending, held: bool)
    requires sys.Valid() && d < |sys.s.deliveries| && sys.s.deliveries[d].pc == AtDecode
    modifies sys
    ensures sys.Valid()
    ensures end.Discarded? <==> old(sys.s.deliveries[d].body.Undecodable?)
    ensures end.Interrupted? <==> old(sys.s.deliveries[d].body.Note?) && world.refusals > 0 && world.shutdown
    ensures end.Answered? ==> HeardAs(world.reply, end.outcome)
    ensures end.Answered? ==>
              var body := old(sys.s.deliveries[d].body);
              if world.readWorks then old(RetryCount(sys.s, body.id)) <= end.retry <= RetryCount(sys.s, body.id)
              else end.retry == body.retry
    ensures Ended(sys.cfg, sys.s, d, end, world.confirms && held)
    ensures world.confirms && held ==>
              var place := sys.s.copies[sys.s.deliveries[d].copy].place;
              match end
              case Discarded => place == Dead
              case Interrupted => place == Ready
              case Answered(failures, _) => BelongsAt(sys.cfg.maxRetries, failures, world.reply, place)
    ensures SendsOf(sys.s.sends, d) == old(SendsOf(sys.s.sends, d)) + SendsFor(old(sys.s.deliveries[d]), d, end)
    ensures Ran(old(sys.log), sys.log, Worker(d), Script(sys.cfg, d, old(sys.s.deliveries[d].body), end, world))
  {
    ghost var begun := sys.log;
    var body := Decode(sys, d);
    ghost var decoded := sys.log;
    if body.Undecodable? {
      end := Discarded;
      held := Settle(sys, d, end, world.confirms);                   // Nack without requeue
      RanThen(begun, decoded, sys.log, Worker(d), [Work(d, Plain(true))], [Work(d, Plain(world.confirms))]);
    } else {
      RetryCountGrows(sys.cfg, sys.schedulers, begun, decoded, body.id);
      end, held := ReadAndDeliver(sys, d, body, world);
      RanThen(begun, decoded, sys.log, Worker(d), [Work(d, Plain(true))], NoteScript(sys.cfg, d, end, world));
    }
  }

  lemma RetryCountGrows(cfg: Config, schedulers: nat, before: seq<Event>, later: seq<Event>, n: Id)
    requires before <= later
    ensures RetryCount(After(cfg, schedulers, before), n) <= RetryCount(After(cfg, schedulers, later), n)
  {
    LogGrows(cfg, schedulers, before, later);
  }
}
