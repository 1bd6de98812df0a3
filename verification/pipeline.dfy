/** The delivery pipeline as a step machine. One event is one database statement, one broker
    operation, one call of the provider or the limiter, or one local decision; the actors
    interleave freely, so a run is any sequence of events. An event that its actor cannot take
    in the present state changes nothing. */
module Pipeline {
  import opened Basics
  import opened Model
  import opened Repository
  import Backoff

  datatype Config = Config(maxRetries: int, baseDelay: int, batchSize: nat)

  // ---------------------------------------------------------------- the broker

  /** A message body: one the worker cannot decode, or a notification with the retry count it
      had when it was published. */
  datatype Body = Undecodable | Note(id: Id, retry: nat)

  datatype Place = Ready | Unacked(delivery: nat) | Acked | Dead

  datatype Source = Api(call: nat) | Scheduler(sched: nat) | Outside

  /** A message copy in its channel's queue or dead-letter queue. The last four fields are
      history: how often the copy was lost with its consumer's connection, how many failures
      were counted on it, how long it was held back, and whether a shutdown ever cut its handling short. */
  datatype Copy = Copy(
    body: Body, channel: Channel, source: Source, at: Time, place: Place,
    lost: nat, fails: nat, waited: nat, cut: bool)

  // ---------------------------------------------------------------- the workers

  datatype Outcome = Delivered(msg: string) | Retryable(error: string) | Permanent(error: string)

  /** Where one run of processMessage is. `retry` is n.RetryCount after the fresh read and
      `attempt` is currentRetry. */
  datatype Pc =
    | AtDecode
    | AtFetch
    | AtMarkSending(retry: nat)
    | AtLimit(retry: nat)
    | AtSend(retry: nat)
    | AtMarkSent(msg: string)
    | AtAck
    | AtCount(retry: nat, outcome: Outcome)
    | AtMarkFailed(error: string)
    | AtNackDead
    | AtMarkQueued(attempt: nat, error: string)
    | AtBackoff(attempt: nat)
    | AtNackRetry
    | AtEnd

  /** A delivery of a copy to a worker. It outlives its claim on the copy when the connection
      is lost while the worker is still running. */
  datatype Delivery = Delivery(copy: nat, body: Body, pc: Pc)

  /** One call of the provider and what the worker heard of it: an answer that is lost on the way is a
      failure to the worker, though the provider may have accepted the message. */
  datatype SendRecord = SendRecord(delivery: nat, copy: nat, id: Id, retry: nat, outcome: Outcome)

  // ---------------------------------------------------------------- the publishers

  datatype Answer = Rejected | Existing(id: Id) | Fresh(id: Id)

  datatype Stage = Check | Send | Mark

  /** A call that failed was `Refused`, or `Orphaned` if its rows are stored all the same. */
  datatype CallPc = Looking | Publishing(todo: seq<Id>, stage: Stage) | Returned | Refused | Orphaned

  /** A running Create (batch == false, one item) or CreateBatch. */
  datatype Call = Call(batch: bool, items: seq<Item>, answers: seq<Answer>, pc: CallPc)

  /** A scheduler in the middle of pollAndPublish, or idle when `todo` is empty. */
  datatype Sched = Sched(todo: seq<Body>, marking: bool)

  // ---------------------------------------------------------------- the whole

  /** The last four fields are history: the failed fresh reads and the failed status and retry writes
      of the workers, once each, and the notifications whose mark failed in a publisher or whose final
      status a publisher's late mark replaced. */
  datatype State = State(
    now: Time,
    rows: Table,
    nextId: Id,
    calls: seq<Call>,
    scheds: seq<Sched>,
    copies: seq<Copy>,
    deliveries: seq<Delivery>,
    sends: seq<SendRecord>,
    readFailed: multiset<Id>,
    writeFailed: multiset<Id>,
    markFailed: set<Id>,
    overwritten: set<Id>)

  function Init(schedulers: nat): State {
    State(0, map[], 0, [], seq(schedulers, _ => Sched([], false)), [], [], [], multiset{}, multiset{}, {}, {})
  }

  datatype Found = Hit(id: Id) | Miss | Broken

  datatype Verdict = Admit | Deny | Shutdown

  /** What the outside world answers at a worker's step. */
  datatype Input =
    | Plain(ok: bool)
    | Limiter(verdict: Verdict)
    | Provider(outcome: Outcome)
    | Woken(early: bool)

  datatype Event =
    | Tick(dt: nat)
    | Cancel(id: Id)
    | Begin(batch: bool, items: seq<Item>)
    | Lookup(call: nat, found: Found)
    | Commit(call: nat, answer: Commitment)
    | Decide(call: nat)
    | ApiPublish(call: nat, ok: bool)
    | ApiMark(call: nat, ok: bool)
    | Poll(sched: nat, picked: seq<Id>)
    | SchedPublish(sched: nat, ok: bool)
    | SchedMark(sched: nat, ok: bool)
    | Inject(channel: Channel)
    | Deliver(copy: nat)
    | Lose(copy: nat)
    | Work(delivery: nat, input: Input)

  // ---------------------------------------------------------------- API calls

  /** An item that gets past validation, the idempotency check and the template lookup. */
  function NewId(s: State, i: nat): State
    requires i < |s.calls|
  {
    var call := s.calls[i];
    s.(nextId := s.nextId + 1,
       calls := s.calls[i := call.(answers := call.answers + [Fresh(s.nextId)])])
  }

  function LookupStep(s: State, i: nat, found: Found): State
    requires i < |s.calls| && s.calls[i].pc == Looking && |s.calls[i].answers| < |s.calls[i].items|
  {
    var call := s.calls[i];
    var item := call.items[|call.answers|];
    var refused := s.(calls := s.calls[i := call.(pc := Refused)]);
    var missed := if !call.batch && !item.templateOk then refused else NewId(s, i);
    if !item.valid then
      if call.batch then s.(calls := s.calls[i := call.(answers := call.answers + [Rejected])]) else refused
    else if item.key.None? then missed
    else match found
      case Broken => if call.batch then missed else refused
      case Miss => if KeyTaken(s.rows, item.key) then s else missed
      case Hit(id) =>
        if id !in s.rows || s.rows[id].key != item.key then s else
          s.(calls := s.calls[i := call.(answers := call.answers + [Existing(id)],
                                         pc := if call.batch then Looking else Returned)])
  }

  function FreshIds(answers: seq<Answer>): seq<Id> {
    if answers == [] then [] else
      var n := |answers| - 1;
      FreshIds(answers[..n]) + if answers[n].Fresh? then [answers[n].id] else []
  }

  function Drafts(items: seq<Item>, answers: seq<Answer>, batch: Option<nat>, now: Time): seq<Draft>
    requires |answers| <= |items|
  {
    if answers == [] then [] else
      var n := |answers| - 1;
      Drafts(items, answers[..n], batch, now)
      + if answers[n].Fresh? then [Draft(answers[n].id, NewRow(items[n], batch, now))] else []
  }

  function CallDrafts(s: State, i: nat): seq<Draft>
    requires i < |s.calls|
  {
    var call := s.calls[i];
    if |call.answers| > |call.items| then [] else
      Drafts(call.items, call.answers, if call.batch then Some(i) else None, s.now)
  }

  function CommitStep(s: State, i: nat, answer: Commitment): State
    requires i < |s.calls|
  {
    var call := s.calls[i];
    var drafts := CallDrafts(s, i);
    if drafts == [] then s.(calls := s.calls[i := call.(pc := Returned)]) else
      match InsertAll(s.rows, drafts)
      case Some(t) =>
        match answer {
          case Confirmed => s.(rows := t, calls := s.calls[i := call.(pc := Publishing(FreshIds(call.answers), Check))])
          case Unheard => s.(rows := t, calls := s.calls[i := call.(pc := Orphaned)])
          case RolledBack => s.(calls := s.calls[i := call.(pc := Refused)])
        }
      case None => s.(calls := s.calls[i := call.(pc := Refused)])
  }

  predicate At(s: State, i: nat, stage: Stage) {
    && i < |s.calls| && s.calls[i].pc.Publishing? && s.calls[i].pc.stage == stage
    && s.calls[i].pc.todo != [] && s.calls[i].pc.todo[0] in s.rows
  }

  function SetPc(s: State, i: nat, pc: CallPc): State
    requires i < |s.calls|
  {
    s.(calls := s.calls[i := s.calls[i].(pc := pc)])
  }

  function DecideStep(s: State, i: nat): State
    requires i < |s.calls| && s.calls[i].pc.Publishing?
  {
    var pc := s.calls[i].pc;
    if pc.todo == [] then SetPc(s, i, Returned)
    else if !At(s, i, Check) then s
    else
      var due := s.rows[pc.todo[0]].scheduledAt;
      SetPc(s, i, if due.None? || due.value < s.now then Publishing(pc.todo, Send) else Publishing(pc.todo[1..], Check))
  }

  /** A stored message. The row's channel selects the queue. */
  function AddCopy(s: State, body: Body, channel: Channel, source: Source): State {
    s.(copies := s.copies + [Copy(body, channel, source, s.now, Ready, 0, 0, 0, false)])
  }

  function ApiPublishStep(s: State, i: nat, ok: bool): State
    requires At(s, i, Send)
  {
    var todo := s.calls[i].pc.todo;
    if ok then AddCopy(SetPc(s, i, Publishing(todo, Mark)), Note(todo[0], 0), s.rows[todo[0]].channel, Api(i))
    else SetPc(s, i, Publishing(todo[1..], Check))
  }

  /** A publisher's UpdateStatus(queued). */
  function MarkQueued(s: State, id: Id, ok: bool): State {
    if !ok then s.(markFailed := s.markFailed + {id}) else
      s.(rows := SetStatus(s.rows, id, Queued, None, None, s.now),
         overwritten := if id in s.rows && (s.rows[id].status == Sent || s.rows[id].status == Failed)
                        then s.overwritten + {id} else s.overwritten)
  }

  function ApiMarkStep(s: State, i: nat, ok: bool): State
    requires At(s, i, Mark)
  {
    var todo := s.calls[i].pc.todo;
    MarkQueued(SetPc(s, i, Publishing(todo[1..], Check)), todo[0], ok)
  }

  // ---------------------------------------------------------------- the scheduler

  function Snapshot(t: Table, picked: seq<Id>): seq<Body>
    requires forall i | 0 <= i < |picked| :: picked[i] in t
  {
    seq(|picked|, i requires 0 <= i < |picked| => Note(picked[i], t[picked[i]].retryCount))
  }

  function PollStep(cfg: Config, s: State, j: nat, picked: seq<Id>): State
    requires j < |s.scheds|
  {
    if s.scheds[j] != Sched([], false) || !PendingAnswer(s.rows, s.now, cfg.batchSize, picked) then s else
      s.(scheds := s.scheds[j := Sched(Snapshot(s.rows, picked), false)])
  }

  predicate HasHead(s: State, j: nat, marking: bool) {
    && j < |s.scheds| && s.scheds[j].todo != [] && s.scheds[j].marking == marking
    && s.scheds[j].todo[0].Note? && s.scheds[j].todo[0].id in s.rows
  }

  function SetSched(s: State, j: nat, sched: Sched): State
    requires j < |s.scheds|
  {
    s.(scheds := s.scheds[j := sched])
  }

  function SchedPublishStep(s: State, j: nat, ok: bool): State
    requires HasHead(s, j, false)
  {
    var todo := s.scheds[j].todo;
    if ok then AddCopy(SetSched(s, j, Sched(todo, true)), todo[0], s.rows[todo[0].id].channel, Scheduler(j))
    else SetSched(s, j, Sched(todo[1..], false))
  }

  function SchedMarkStep(s: State, j: nat, ok: bool): State
    requires HasHead(s, j, true)
  {
    var todo := s.scheds[j].todo;
    MarkQueued(SetSched(s, j, Sched(todo[1..], false)), todo[0].id, ok)
  }

  // ---------------------------------------------------------------- the worker

  /** What one step of a worker does: its next program point, its copy, the rows, the provider
      calls it adds and the failures it suffers. */
  datatype Move = Move(
    pc: Pc, copy: Copy, rows: Table, sent: seq<SendRecord>, readFailed: multiset<Id>, writeFailed: multiset<Id>)

  predicate Exhausted(cfg: Config, retry: nat) {
    retry + 1 >= cfg.maxRetries
  }

  /** A worker's UpdateStatus, on the way to `pc`. */
  function Written(m: Move, now: Time, id: Id, status: Status, msg: Option<string>, error: Option<string>, ok: bool, pc: Pc): Move {
    if ok then m.(pc := pc, rows := SetStatus(m.rows, id, status, msg, error, now))
    else m.(pc := pc, writeFailed := multiset{id})
  }

  /** Ack or nack: it takes effect only while delivery `d` still holds the copy. */
  function Settled(m: Move, d: nat, place: Place, ok: bool): Move {
    m.(pc := AtEnd, copy := if ok && m.copy.place == Unacked(d) then m.copy.(place := place) else m.copy)
  }

  /** IncrementRetry, and the choice between giving up and trying again. */
  function Counted(cfg: Config, m: Move, id: Id, retry: nat, outcome: Outcome, ok: bool): Move
    requires !outcome.Delivered?
  {
    m.(pc := if outcome.Permanent? || Exhausted(cfg, retry) then AtMarkFailed(outcome.error)
             else AtMarkQueued(retry + 1, outcome.error),
       rows := if ok then AddRetry(m.rows, id, outcome.error) else m.rows,
       writeFailed := if ok then multiset{} else multiset{id},
       copy := m.copy.(fails := m.copy.fails + 1))
  }

  /** processMessage up to the provider's answer. */
  function SendingMove(s: State, d: nat, c: nat, id: Id, retry0: nat, m: Move, input: Input): Move {
    match (m.pc, input)
    case (AtFetch, Plain(ok)) =>
      if ok && id in s.rows then m.(pc := AtMarkSending(s.rows[id].retryCount))
      else m.(pc := AtMarkSending(retry0), readFailed := multiset{id})
    case (AtMarkSending(r), Plain(ok)) => Written(m, s.now, id, Sending, None, None, ok, AtLimit(r))
    case (AtLimit(r), Limiter(Admit)) => m.(pc := AtSend(r))
    case (AtLimit(r), Limiter(Shutdown)) => m.(pc := AtNackRetry, copy := m.copy.(cut := true))
    case (AtSend(r), Provider(out)) =>
      m.(pc := if out.Delivered? then AtMarkSent(out.msg) else AtCount(r, out), sent := [SendRecord(d, c, id, r, out)])
    case _ => m
  }

  /** The rest of processMessage, and handleFailure. */
  function SettlingMove(cfg: Config, s: State, d: nat, id: Id, m: Move, input: Input): Move {
    match (m.pc, input)
    case (AtMarkSent(msg), Plain(ok)) => Written(m, s.now, id, Sent, Some(msg), None, ok, AtAck)
    case (AtAck, Plain(ok)) => Settled(m, d, Acked, ok)
    case (AtCount(r, out), Plain(ok)) => if out.Delivered? then m else Counted(cfg, m, id, r, out, ok)
    case (AtMarkFailed(error), Plain(ok)) => Written(m, s.now, id, Failed, None, Some(error), ok, AtNackDead)
    case (AtNackDead, Plain(ok)) => Settled(m, d, Dead, ok)
    case (AtMarkQueued(attempt, error), Plain(ok)) =>
      Written(m, s.now, id, Queued, None, Some(error), ok, AtBackoff(attempt))
    case (AtBackoff(attempt), Woken(early)) =>
      m.(pc := AtNackRetry,
         copy := m.copy.(waited := m.copy.waited + if early then 0 else Backoff.Slept(cfg.baseDelay, attempt),
                         cut := m.copy.cut || early))
    case (AtNackRetry, Plain(ok)) => Settled(m, d, Ready, ok)
    case _ => m
  }

  predicate BeforeAnswer(pc: Pc) {
    pc.AtFetch? || pc.AtMarkSending? || pc.AtLimit? || pc.AtSend?
  }

  function WorkMove(cfg: Config, s: State, d: nat, input: Input): Move
    requires d < |s.deliveries| && s.deliveries[d].copy < |s.copies|
  {
    var del := s.deliveries[d];
    var stay := Move(del.pc, s.copies[del.copy], s.rows, [], multiset{}, multiset{});
    match del.body
    case Undecodable =>
      // Only the two steps before the body would be needed.
      if del.pc.AtDecode? && input.Plain? then stay.(pc := AtNackDead)
      else if del.pc.AtNackDead? && input.Plain? then Settled(stay, d, Dead, input.ok)
      else stay
    case Note(id, retry0) =>
      if del.pc.AtDecode? then (if input.Plain? then stay.(pc := AtFetch) else stay)
      else if BeforeAnswer(del.pc) then SendingMove(s, d, del.copy, id, retry0, stay, input)
      else SettlingMove(cfg, s, d, id, stay, input)
  }

  function Apply(s: State, d: nat, m: Move): State
    requires d < |s.deliveries| && s.deliveries[d].copy < |s.copies|
  {
    s.(rows := m.rows,
       copies := s.copies[s.deliveries[d].copy := m.copy],
       deliveries := s.deliveries[d := s.deliveries[d].(pc := m.pc)],
       sends := s.sends + m.sent,
       readFailed := s.readFailed + m.readFailed,
       writeFailed := s.writeFailed + m.writeFailed)
  }

  function WorkStep(cfg: Config, s: State, d: nat, input: Input): State
    requires d < |s.deliveries| && s.deliveries[d].copy < |s.copies|
  {
    Apply(s, d, WorkMove(cfg, s, d, input))
  }

  function DeliverStep(s: State, c: nat): State
    requires c < |s.copies|
  {
    if s.copies[c].place != Ready then s else
      s.(deliveries := s.deliveries + [Delivery(c, s.copies[c].body, AtDecode)],
         copies := s.copies[c := s.copies[c].(place := Unacked(|s.deliveries|))])
  }

  /** The consumer's connection is gone: the broker takes an unacked copy back. */
  function LoseStep(s: State, c: nat): State
    requires c < |s.copies|
  {
    if !s.copies[c].place.Unacked? then s else
      s.(copies := s.copies[c := s.copies[c].(place := Ready, lost := s.copies[c].lost + 1)])
  }

  // ---------------------------------------------------------------- one event, one run

  function ApiStep(s: State, e: Event): State {
    match e
    case Begin(batch, items) =>
      if (if batch then 1 <= |items| <= 1000 else |items| == 1)
      then s.(calls := s.calls + [Call(batch, items, [], Looking)]) else s
    case Lookup(i, found) =>
      if i < |s.calls| && s.calls[i].pc == Looking && |s.calls[i].answers| < |s.calls[i].items|
      then LookupStep(s, i, found) else s
    case Commit(i, answer) =>
      if i < |s.calls| && s.calls[i].pc == Looking && |s.calls[i].answers| == |s.calls[i].items|
      then CommitStep(s, i, answer) else s
    case Decide(i) => if i < |s.calls| && s.calls[i].pc.Publishing? then DecideStep(s, i) else s
    case ApiPublish(i, ok) => if At(s, i, Send) then ApiPublishStep(s, i, ok) else s
    case ApiMark(i, ok) => if At(s, i, Mark) then ApiMarkStep(s, i, ok) else s
    case _ => s
  }

  function SchedStep(cfg: Config, s: State, e: Event): State {
    match e
    case Poll(j, picked) => if j < |s.scheds| then PollStep(cfg, s, j, picked) else s
    case SchedPublish(j, ok) => if HasHead(s, j, false) then SchedPublishStep(s, j, ok) else s
    case SchedMark(j, ok) => if HasHead(s, j, true) then SchedMarkStep(s, j, ok) else s
    case _ => s
  }

  function BrokerStep(s: State, e: Event): State {
    match e
    case Inject(channel) => AddCopy(s, Undecodable, channel, Outside)
    case Deliver(c) => if c < |s.copies| then DeliverStep(s, c) else s
    case Lose(c) => if c < |s.copies| then LoseStep(s, c) else s
    case _ => s
  }

  function Step(cfg: Config, s: State, e: Event): State {
    match e
    case Tick(dt) => s.(now := s.now + dt)
    case Cancel(id) => s.(rows := CancelRow(s.rows, id))
    case Begin(_, _) => ApiStep(s, e)
    case Lookup(_, _) => ApiStep(s, e)
    case Commit(_, _) => ApiStep(s, e)
    case Decide(_) => ApiStep(s, e)
    case ApiPublish(_, _) => ApiStep(s, e)
    case ApiMark(_, _) => ApiStep(s, e)
    case Poll(_, _) => SchedStep(cfg, s, e)
    case SchedPublish(_, _) => SchedStep(cfg, s, e)
    case SchedMark(_, _) => SchedStep(cfg, s, e)
    case Inject(_) => BrokerStep(s, e)
    case Deliver(_) => BrokerStep(s, e)
    case Lose(_) => BrokerStep(s, e)
    case Work(d, input) =>
      if d < |s.deliveries| && s.deliveries[d].copy < |s.copies| then WorkStep(cfg, s, d, input) else s
  }

  function Run(cfg: Config, s: State, es: seq<Event>): State {
    if es == [] then s else Step(cfg, Run(cfg, s, es[..|es| - 1]), es[|es| - 1])
  }

  /** The state that the events `es` lead to, from a system with no rows and no messages. */
  function After(cfg: Config, schedulers: nat, es: seq<Event>): State {
    Run(cfg, Init(schedulers), es)
  }

  lemma {:induction false} RunConcat(cfg: Config, s: State, a: seq<Event>, b: seq<Event>)
    ensures Run(cfg, s, a + b) == Run(cfg, Run(cfg, s, a), b)
  {
    if b == [] {
      assert a + b == a;
    } else {
      assert (a + b)[..|a + b| - 1] == a + b[..|b| - 1];
      RunConcat(cfg, s, a, b[..|b| - 1]);
    }
  }
}
