/** internal/service/notification.go: Create, CreateBatch and Cancel, run against any
    interference. What the database and the broker answer is arbitrary. */
module Service {
  import opened Basics
  import opened Model
  import opened Repository
  import opened Pipeline
  import opened Frame
  import opened PublishOnce
  import opened Idempotency
  import opened System
  import Provenance

  datatype ServiceError = ValidationError | NotFound | Internal

  datatype ItemResult = ItemResult(index: nat, answer: Answer)

  datatype BatchResponse = BatchResponse(accepted: nat, rejected: nat, results: seq<ItemResult>)

  /** How the database and the broker answer one call: its key lookups by item, its insert, and
      its publishes and marks by inserted row. */
  datatype World = World(lookups: nat -> bool, commit: Commitment, publishes: nat -> bool, marks: nat -> bool)

  // ---------------------------------------------------------------- one item

  /** A call in state `call` has answered nothing yet, or goes on where it was. */
  ghost predicate Running(s: State, i: nat, batch: bool, items: seq<Item>, pc: CallPc) {
    i < |s.calls| && s.calls[i].batch == batch && s.calls[i].items == items && s.calls[i].pc == pc
  }

  method Start(sys: Engine, batch: bool, items: seq<Item>) returns (i: nat)
    requires sys.Valid() && (if batch then 1 <= |items| <= 1000 else |items| == 1)
    modifies sys
    ensures sys.Valid() && old(sys.log) <= sys.log
    ensures Running(sys.s, i, batch, items, Looking) && sys.s.calls[i].answers == []
    ensures PublishedBy(sys.s.copies, Api(i)) == []
    ensures sys.s.rows == old(sys.s.rows) && sys.s.now == old(sys.s.now)
  {
    i := |sys.s.calls|;
    IdemAlways(sys.cfg, sys.schedulers, sys.log);
    NothingPublishedYet(sys.s.copies, i, sys.s);
    sys.Do(Begin(batch, items));
  }

  lemma {:induction false} NothingPublishedYet(copies: seq<Copy>, i: nat, s: State)
    requires forall c | 0 <= c < |copies| :: CopySource(s, copies[c])
    requires i == |s.calls|
    ensures PublishedBy(copies, Api(i)) == []
  {
    if copies != [] {
      assert CopySource(s, copies[|copies| - 1]);
      NothingPublishedYet(copies[..|copies| - 1], i, s);
    }
  }

  /** What Create and CreateBatch do with one item: reject it, answer with the row its key has,
      refuse the whole call, or go on to make a new row. `hit`: the lookup found its key. */
  predicate Looked(a: Call, b: Call, item: Item, works: bool, hit: bool) {
    && b == a.(answers := b.answers, pc := b.pc)
    && if !item.valid then
         if a.batch then b.pc == Looking && b.answers == a.answers + [Rejected] else b.pc == Refused && b.answers == a.answers
       else if hit then
         && b.pc == (if a.batch then Looking else Returned)
         && b.answers != [] && b.answers[|b.answers| - 1].Existing? && b.answers[..|b.answers| - 1] == a.answers
       else if !a.batch && ((item.key.Some? && !works) || !item.templateOk) then b.pc == Refused && b.answers == a.answers
       else
         b.pc == Looking && b.answers != [] && b.answers[|b.answers| - 1].Fresh? && b.answers[..|b.answers| - 1] == a.answers
  }

  lemma LookupOutcome(s: State, i: nat, found: Found, works: bool)
    requires i < |s.calls| && s.calls[i].pc == Looking && |s.calls[i].answers| < |s.calls[i].items|
    requires var item := s.calls[i].items[|s.calls[i].answers|];
             item.valid && item.key.Some? ==>
               match found
               case Broken => !works
               case Miss => works && !KeyTaken(s.rows, item.key)
               case Hit(id) => works && id in s.rows && s.rows[id].key == item.key
    ensures var (t, a) := (LookupStep(s, i, found), s.calls[i]);
            var item := a.items[|a.answers|];
            && t.copies == s.copies && |t.calls| == |s.calls|
            && Looked(a, t.calls[i], item, works, item.valid && item.key.Some? && found.Hit?)
  {
  }

  lemma KeysStay(cfg: Config, schedulers: nat, before: seq<Event>, later: seq<Event>, key: Option<string>)
    requires before <= later && KeyTaken(After(cfg, schedulers, before).rows, key)
    ensures KeyTaken(After(cfg, schedulers, later).rows, key)
  {
    LogGrows(cfg, schedulers, before, later);
    var id :| id in After(cfg, schedulers, before).rows && After(cfg, schedulers, before).rows[id].key == key;
    assert RowLater(After(cfg, schedulers, before).rows[id], After(cfg, schedulers, later).rows[id]);
  }

  /** Validation, the idempotency check and the template lookup of the next item. A key that is
      taken before is found, unless the lookup fails; and only a key that is taken is found. */
  method LookupNext(sys: Engine, i: nat, works: bool) returns (ghost hit: bool)
    requires sys.Valid() && i < |sys.s.calls| && sys.s.calls[i].pc == Looking
    requires |sys.s.calls[i].answers| < |sys.s.calls[i].items|
    modifies sys
    ensures sys.Valid() && old(sys.log) <= sys.log
    ensures i < |sys.s.calls| && PublishedBy(sys.s.copies, Api(i)) == old(PublishedBy(sys.s.copies, Api(i)))
    ensures var a := old(sys.s.calls[i]);
            var item := a.items[|a.answers|];
            && Looked(a, sys.s.calls[i], item, works, hit)
            && (hit ==> item.valid && works && KeyTaken(sys.s.rows, item.key))
            && (item.valid && works && KeyTaken(old(sys.s.rows), item.key) ==> hit)
  {
    ghost var start := sys.log;
    sys.Interfere(Caller(i));
    var item := sys.s.calls[i].items[|sys.s.calls[i].answers|];
    if KeyTaken(old(sys.s.rows), item.key) { KeysStay(sys.cfg, sys.schedulers, start, sys.log, item.key); }
    var found := Miss;
    if item.valid && item.key.Some? {
      if !works {
        found := Broken;
      } else if KeyTaken(sys.s.rows, item.key) {
        var id :| id in sys.s.rows && sys.s.rows[id].key == item.key;
        found := Hit(id);
      }
    }
    hit := item.valid && item.key.Some? && found.Hit?;
    LookupOutcome(sys.s, i, found, works);
    ghost var before := sys.log;
    sys.Do(Lookup(i, found));
    if hit { KeysStay(sys.cfg, sys.schedulers, before, sys.log, item.key); }
  }

  // ---------------------------------------------------------------- publishing

  /** Whether one inserted row was found due: it was if it was due when the publishing began, and only
      if it is due now. */
  ghost predicate Judged(start: Time, s: State, id: Id, due: bool) {
    && id in s.rows
    && (due ==> DueBefore(s.rows[id].scheduledAt, s.now))
    && (DueBefore(s.rows[id].scheduledAt, start) ==> due)
  }

  lemma JudgedLater(start: Time, s: State, t: State, id: Id, due: bool)
    requires Judged(start, s, id, due) && Later(s, t)
    ensures Judged(start, t, id, due)
  {
    assert RowLater(s.rows[id], t.rows[id]);
  }

  ghost predicate AllJudged(start: Time, s: State, ids: seq<Id>, due: seq<bool>) {
    |due| <= |ids| && forall k | 0 <= k < |due| :: Judged(start, s, ids[k], due[k])
  }

  lemma AllJudgedLater(start: Time, s: State, t: State, ids: seq<Id>, due: seq<bool>)
    requires AllJudged(start, s, ids, due) && Later(s, t)
    ensures AllJudged(start, t, ids, due)
  {
    forall k | 0 <= k < |due| ensures Judged(start, t, ids[k], due[k]) {
      JudgedLater(start, s, t, ids[k], due[k]);
    }
  }

  /** The rows that were due and whose publish worked. */
  function Sent(due: seq<bool>, world: World): seq<bool> {
    seq(|due|, k requires 0 <= k < |due| => due[k] && world.publishes(k))
  }

  /** The statements for one row: its date is looked at, and if it is due it is published and, if that
      works, marked as queued. */
  function ItemScript(i: nat, due: bool, publishes: bool, marks: bool): seq<Event> {
    [Decide(i)]
    + if !due then [] else if !publishes then [ApiPublish(i, false)] else [ApiPublish(i, true)] + [ApiMark(i, marks)]
  }

  function PublishScript(i: nat, due: seq<bool>, world: World): seq<Event> {
    if due == [] then [] else
      var k := |due| - 1;
      PublishScript(i, due[..k], world) + ItemScript(i, due[k], world.publishes(k), world.marks(k))
  }

  /** Every message of the call is a notification on the queue of its row's channel, never tried. */
  ghost predicate OnOwnQueues(s: State, i: nat) {
    forall c | 0 <= c < |s.copies| && s.copies[c].source == Api(i) ::
      var copy := s.copies[c];
      copy.body.Note? && copy.body.retry == 0 && copy.body.id in s.rows && copy.channel == s.rows[copy.body.id].channel
  }

  lemma OwnQueues(cfg: Config, schedulers: nat, es: seq<Event>, i: nat)
    ensures OnOwnQueues(After(cfg, schedulers, es), i)
  {
    var s := After(cfg, schedulers, es);
    IdemAlways(cfg, schedulers, es);
    Provenance.MessagesMatchRows(cfg, schedulers, es);
    forall c | 0 <= c < |s.copies| && s.copies[c].source == Api(i)
      ensures var copy := s.copies[c];
              copy.body.Note? && copy.body.retry == 0 && copy.body.id in s.rows && copy.channel == s.rows[copy.body.id].channel
    {
      assert CopySource(s, s.copies[c]) && Provenance.OwnMessage(s.rows, s.copies[c]);
    }
  }

  /** The rows of a committed call are published in order, one by one: those that are due and whose
      publish works, each on its own channel; and those that were published are marked. */
  method PublishAll(sys: Engine, i: nat, ids: seq<Id>, world: World) returns (ghost due: seq<bool>)
    requires sys.Valid() && i < |sys.s.calls| && sys.s.calls[i].pc == Publishing(ids, Check)
    requires PublishedBy(sys.s.copies, Api(i)) == []
    modifies sys
    ensures sys.Valid() && i < |sys.s.calls| && sys.s.calls[i] == old(sys.s.calls[i]).(pc := Returned)
    ensures |due| == |ids| && PublishedBy(sys.s.copies, Api(i)) == Chosen(ids, Sent(due, world))
    ensures AllJudged(old(sys.s.now), sys.s, ids, due) && OnOwnQueues(sys.s, i)
    ensures Ran(old(sys.log), sys.log, Caller(i), PublishScript(i, due, world) + [Decide(i)])
  {
    ghost var start, begun := sys.s.now, sys.log;
    due := [];
    for k := 0 to |ids|
      invariant sys.Valid()
      invariant i < |sys.s.calls| && sys.s.calls[i] == old(sys.s.calls[i]).(pc := Publishing(ids[k..], Check))
      invariant |due| == k && PublishedBy(sys.s.copies, Api(i)) == Chosen(ids, Sent(due, world))
      invariant AllJudged(start, sys.s, ids, due) && Ran(begun, sys.log, Caller(i), PublishScript(i, due, world))
    {
      due := PublishNext(sys, i, ids, k, world, start, due, begun);
    }
    ghost var before := sys.log;
    Finish(sys, i);
    RanThen(begun, before, sys.log, Caller(i), PublishScript(i, due, world), [Decide(i)]);
    LogGrows(sys.cfg, sys.schedulers, before, sys.log);
    AllJudgedLater(start, After(sys.cfg, sys.schedulers, before), sys.s, ids, due);
    OwnQueues(sys.cfg, sys.schedulers, sys.log, i);
  }

  /** The end of the loop over the rows. */
  method Finish(sys: Engine, i: nat)
    requires sys.Valid() && i < |sys.s.calls| && sys.s.calls[i].pc == Publishing([], Check)
    modifies sys
    ensures sys.Valid() && i < |sys.s.calls| && sys.s.calls[i] == old(sys.s.calls[i]).(pc := Returned)
    ensures PublishedBy(sys.s.copies, Api(i)) == old(PublishedBy(sys.s.copies, Api(i)))
    ensures Ran(old(sys.log), sys.log, Caller(i), [Decide(i)])
  {
    sys.Interfere(Caller(i));
    sys.Do(Decide(i));
  }

  method PublishNext(
    sys: Engine, i: nat, ids: seq<Id>, k: nat, world: World, ghost start: Time, ghost due0: seq<bool>, ghost begun: seq<Event>)
    returns (ghost due: seq<bool>)
    requires sys.Valid() && i < |sys.s.calls| && k < |ids| && sys.s.calls[i].pc == Publishing(ids[k..], Check)
    requires |due0| == k && PublishedBy(sys.s.copies, Api(i)) == Chosen(ids, Sent(due0, world))
    requires begun <= sys.log && start == After(sys.cfg, sys.schedulers, begun).now
    requires AllJudged(start, sys.s, ids, due0) && Ran(begun, sys.log, Caller(i), PublishScript(i, due0, world))
    modifies sys
    ensures sys.Valid()
    ensures i < |sys.s.calls| && sys.s.calls[i] == old(sys.s.calls[i]).(pc := Publishing(ids[k + 1..], Check))
    ensures |due| == k + 1 && PublishedBy(sys.s.copies, Api(i)) == Chosen(ids, Sent(due, world))
    ensures AllJudged(start, sys.s, ids, due) && Ran(begun, sys.log, Caller(i), PublishScript(i, due, world))
  {
    assert ids[k..][1..] == ids[k + 1..];
    ghost var before := sys.log;
    LogGrows(sys.cfg, sys.schedulers, begun, before);
    ghost var one := PublishOne(sys, i, ids[k..], world.publishes(k), world.marks(k), start);
    LogGrows(sys.cfg, sys.schedulers, before, sys.log);
    AllJudgedLater(start, After(sys.cfg, sys.schedulers, before), sys.s, ids, due0);
    OneMoreSent(start, sys.s, i, ids, world, due0, one);
    RanThen(begun, before, sys.log, Caller(i), PublishScript(i, due0, world), ItemScript(i, one, world.publishes(k), world.marks(k)));
    due := due0 + [one];
  }

  lemma OneMoreSent(start: Time, s: State, i: nat, ids: seq<Id>, world: World, due: seq<bool>, one: bool)
    requires AllJudged(start, s, ids, due) && |due| < |ids|
    requires Judged(start, s, ids[|due|], one)
    ensures AllJudged(start, s, ids, due + [one])
    ensures Chosen(ids, Sent(due + [one], world))
            == Chosen(ids, Sent(due, world)) + if one && world.publishes(|due|) then [ids[|due|]] else []
    ensures PublishScript(i, due + [one], world)
            == PublishScript(i, due, world) + ItemScript(i, one, world.publishes(|due|), world.marks(|due|))
  {
    assert (due + [one])[..|due|] == due;
    assert Sent(due + [one], world)[..|due|] == Sent(due, world);
  }

  lemma DecideOutcome(s: State, i: nat)
    requires At(s, i, Check)
    ensures var (t, todo) := (DecideStep(s, i), s.calls[i].pc.todo);
            && t.copies == s.copies && |t.calls| == |s.calls| && t.rows == s.rows && t.now == s.now
            && t.calls[i] == s.calls[i].(pc :=
                 if DueBefore(s.rows[todo[0]].scheduledAt, s.now) then Publishing(todo, Send) else Publishing(todo[1..], Check))
  {
  }

  lemma PublishOutcome(cfg: Config, s: State, i: nat, ok: bool)
    requires Wf(s) && At(s, i, Send)
    ensures var (t, todo) := (Step(cfg, s, ApiPublish(i, ok)), s.calls[i].pc.todo);
            && |t.calls| == |s.calls|
            && t.calls[i] == s.calls[i].(pc := if ok then Publishing(todo, Mark) else Publishing(todo[1..], Check))
            && PublishedBy(t.copies, Api(i)) == PublishedBy(s.copies, Api(i)) + if ok then [todo[0]] else []
  {
    PublishedGrows(cfg, s, ApiPublish(i, ok), Api(i));
  }

  lemma MarkOutcome(s: State, i: nat, ok: bool)
    requires At(s, i, Mark)
    ensures var t := ApiMarkStep(s, i, ok);
            && t.copies == s.copies && |t.calls| == |s.calls|
            && t.calls[i] == s.calls[i].(pc := Publishing(s.calls[i].pc.todo[1..], Check))
  {
  }

  /** The call's next statement, after whatever the others did. */
  method Await(sys: Engine, i: nat, stage: Stage)
    requires sys.Valid() && i < |sys.s.calls| && sys.s.calls[i].pc.Publishing?
    requires sys.s.calls[i].pc.todo != [] && sys.s.calls[i].pc.stage == stage
    modifies sys
    ensures sys.Valid() && Ran(old(sys.log), sys.log, Caller(i), []) && Wf(sys.s) && At(sys.s, i, stage)
    ensures i < |sys.s.calls| && sys.s.calls[i] == old(sys.s.calls[i])
    ensures PublishedBy(sys.s.copies, Api(i)) == old(PublishedBy(sys.s.copies, Api(i)))
  {
    sys.Interfere(Caller(i));
    AfterWf(sys.cfg, sys.schedulers, sys.log);
    assert sys.s.calls[i].pc.todo[0] in sys.s.rows;
  }

  /** publisher.Publish, and UpdateStatus(queued) if it succeeds. */
  method SendAndMark(sys: Engine, i: nat, todo: seq<Id>, publishes: bool, marks: bool)
    requires sys.Valid() && i < |sys.s.calls| && todo != [] && sys.s.calls[i].pc == Publishing(todo, Send)
    modifies sys
    ensures sys.Valid()
    ensures i < |sys.s.calls| && sys.s.calls[i] == old(sys.s.calls[i]).(pc := Publishing(todo[1..], Check))
    ensures PublishedBy(sys.s.copies, Api(i)) == old(PublishedBy(sys.s.copies, Api(i))) + if publishes then [todo[0]] else []
    ensures Ran(old(sys.log), sys.log, Caller(i), [ApiPublish(i, publishes)] + if publishes then [ApiMark(i, marks)] else [])
  {
    ghost var begun := sys.log;
    Await(sys, i, Send);
    PublishOutcome(sys.cfg, sys.s, i, publishes);
    sys.Do(ApiPublish(i, publishes));
    ghost var published := sys.log;
    if publishes {
      MarkHead(sys, i, todo, marks);
      RanThen(begun, published, sys.log, Caller(i), [ApiPublish(i, true)], [ApiMark(i, marks)]);
    }
  }

  method MarkHead(sys: Engine, i: nat, todo: seq<Id>, marks: bool)
    requires sys.Valid() && i < |sys.s.calls| && todo != [] && sys.s.calls[i].pc == Publishing(todo, Mark)
    modifies sys
    ensures sys.Valid()
    ensures i < |sys.s.calls| && sys.s.calls[i] == old(sys.s.calls[i]).(pc := Publishing(todo[1..], Check))
    ensures PublishedBy(sys.s.copies, Api(i)) == old(PublishedBy(sys.s.copies, Api(i)))
    ensures Ran(old(sys.log), sys.log, Caller(i), [ApiMark(i, marks)])
  {
    Await(sys, i, Mark);
    MarkOutcome(sys.s, i, marks);
    sys.Do(ApiMark(i, marks));
  }

  /** Whether the row is due: ScheduledAt.Before(time.Now()). */
  method DecideHead(sys: Engine, i: nat, todo: seq<Id>, ghost start: Time) returns (ghost due: bool)
    requires sys.Valid() && i < |sys.s.calls| && todo != [] && sys.s.calls[i].pc == Publishing(todo, Check) && start <= sys.s.now
    modifies sys
    ensures sys.Valid() && i < |sys.s.calls|
    ensures sys.s.calls[i] == old(sys.s.calls[i]).(pc := if due then Publishing(todo, Send) else Publishing(todo[1..], Check))
    ensures PublishedBy(sys.s.copies, Api(i)) == old(PublishedBy(sys.s.copies, Api(i)))
    ensures Judged(start, sys.s, todo[0], due) && Ran(old(sys.log), sys.log, Caller(i), [Decide(i)])
  {
    ghost var begun := sys.log;
    Await(sys, i, Check);
    LogGrows(sys.cfg, sys.schedulers, begun, sys.log);
    DecideOutcome(sys.s, i);
    sys.Do(Decide(i));
    due := sys.s.calls[i].pc.stage == Send;
  }

  method PublishOne(sys: Engine, i: nat, todo: seq<Id>, publishes: bool, marks: bool, ghost start: Time) returns (ghost due: bool)
    requires sys.Valid() && i < |sys.s.calls| && todo != [] && sys.s.calls[i].pc == Publishing(todo, Check) && start <= sys.s.now
    modifies sys
    ensures sys.Valid()
    ensures i < |sys.s.calls| && sys.s.calls[i] == old(sys.s.calls[i]).(pc := Publishing(todo[1..], Check))
    ensures PublishedBy(sys.s.copies, Api(i)) == old(PublishedBy(sys.s.copies, Api(i))) + if due && publishes then [todo[0]] else []
    ensures Judged(start, sys.s, todo[0], due)
    ensures Ran(old(sys.log), sys.log, Caller(i), ItemScript(i, due, publishes, marks))
  {
    ghost var begun := sys.log;
    due := DecideHead(sys, i, todo, start);
    ghost var decided := sys.log;
    if sys.s.calls[i].pc.stage == Send {
      SendAndMark(sys, i, todo, publishes, marks);
      RanThen(begun, decided, sys.log, Caller(i), [Decide(i)], [ApiPublish(i, publishes)] + if publishes then [ApiMark(i, marks)] else []);
    }
    LogGrows(sys.cfg, sys.schedulers, decided, sys.log);
    JudgedLater(start, After(sys.cfg, sys.schedulers, decided), sys.s, todo[0], due);
  }

  // ---------------------------------------------------------------- the insert

  /** A new row of the call has a key that a row of the table or another new row of the call has. */
  ghost predicate Collides(t: Table, call: Call) {
    exists p :: 0 <= p < |call.answers| && p < |call.items| && call.answers[p].Fresh? && call.items[p].key.Some?
                && (KeyTaken(t, call.items[p].key) || Repeats(call, p))
  }

  ghost predicate Repeats(call: Call, p: nat)
    requires p < |call.items|
  {
    exists q :: 0 <= q < |call.answers| && q < |call.items| && q != p && call.answers[q].Fresh?
                && call.items[q].key == call.items[p].key
  }

  /** The transaction of a call is refused exactly for a key. */
  lemma RefusedForAKey(cfg: Config, schedulers: nat, es: seq<Event>, i: nat)
    requires var s := After(cfg, schedulers, es);
             i < |s.calls| && s.calls[i].pc == Looking && |s.calls[i].answers| == |s.calls[i].items|
    ensures var s := After(cfg, schedulers, es);
            InsertAll(s.rows, CallDrafts(s, i)).None? <==> Collides(s.rows, s.calls[i])
  {
    var s := After(cfg, schedulers, es);
    IdemAlways(cfg, schedulers, es);
    InsertAllAllOrNothing(s.rows, CallDrafts(s, i));
    if Collides(s.rows, s.calls[i]) {
      CollisionRefuses(s, i);
    }
    if !Insertable(s.rows, CallDrafts(s, i)) {
      RefusalCollides(s, i);
    }
  }

  lemma CollisionRefuses(s: State, i: nat)
    requires IdemInv(s) && AllAnswered(s, i) && Collides(s.rows, s.calls[i])
    ensures !Insertable(s.rows, CallDrafts(s, i))
  {
    var call, ds := s.calls[i], CallDrafts(s, i);
    var p :| 0 <= p < |call.answers| && p < |call.items| && call.answers[p].Fresh? && call.items[p].key.Some?
             && (KeyTaken(s.rows, call.items[p].key) || Repeats(call, p));
    var k := DraftOf(call.items, call.answers, Owner(i, s.calls[i]), s.now, p);
    if Repeats(call, p) {
      var q :| 0 <= q < |call.answers| && q < |call.items| && q != p && call.answers[q].Fresh?
               && call.items[q].key == call.items[p].key;
      var m := DraftOf(call.items, call.answers, Owner(i, s.calls[i]), s.now, q);
      assert call.answers[p] != call.answers[q];
      assert ds[k].id != ds[m].id && ds[k].row.key == ds[m].row.key;
      if k < m { assert ds[k].row.key == ds[m].row.key; } else { assert ds[m].row.key == ds[k].row.key; }
    } else {
      assert !CanInsert(s.rows, ds[k]);
    }
  }

  lemma RefusalCollides(s: State, i: nat)
    requires IdemInv(s) && AllAnswered(s, i) && !Insertable(s.rows, CallDrafts(s, i))
    ensures Collides(s.rows, s.calls[i])
  {
    var call, ds := s.calls[i], CallDrafts(s, i);
    if k :| 0 <= k < |ds| && !CanInsert(s.rows, ds[k]) {
      var p := DraftOrigin(call.items, call.answers, Owner(i, s.calls[i]), s.now, k);
      assert CallInv(s.rows, s.nextId, i, call);
      assert AnswerOk(s.rows, s.nextId, Owner(i, call), call.items[p], call.answers[p], call.pc);
      assert KeyTaken(s.rows, call.items[p].key);
    } else {
      var k, m :| 0 <= k < m < |ds| && !(ds[k].id != ds[m].id && (ds[k].row.key.Some? ==> ds[k].row.key != ds[m].row.key));
      var p := DraftOrigin(call.items, call.answers, Owner(i, s.calls[i]), s.now, k);
      var q := DraftOrigin(call.items, call.answers, Owner(i, s.calls[i]), s.now, m);
      DraftsDiffer(s, i, k, m);
      assert Repeats(call, p);
    }
  }

  /** Two drafts of a call never share an id. */
  lemma DraftsDiffer(s: State, i: nat, k: nat, m: nat)
    requires IdemInv(s) && AllAnswered(s, i) && k < m < |CallDrafts(s, i)|
    ensures CallDrafts(s, i)[k].id != CallDrafts(s, i)[m].id
  {
    var call := s.calls[i];
    DraftIdsDiffer(call.items, call.answers, Owner(i, s.calls[i]), s.now, k, m);
  }

  lemma {:induction false} DraftIdsDiffer(items: seq<Item>, answers: seq<Answer>, batch: Option<nat>, now: Time, k: nat, m: nat)
    requires |answers| <= |items| && k < m < |Drafts(items, answers, batch, now)|
    requires forall p, q | 0 <= p < q < |answers| && answers[p].Fresh? :: answers[p] != answers[q]
    ensures Drafts(items, answers, batch, now)[k].id != Drafts(items, answers, batch, now)[m].id
  {
    var n := |answers| - 1;
    if m < |Drafts(items, answers[..n], batch, now)| {
      DraftIdsDiffer(items, answers[..n], batch, now, k, m);
    } else {
      var p := DraftOrigin(items, answers[..n], batch, now, k);
      assert answers[p] == answers[..n][p];
    }
  }

  lemma CommitOutcome(s: State, i: nat, answer: Commitment)
    requires i < |s.calls| && s.calls[i].pc == Looking && |s.calls[i].answers| == |s.calls[i].items|
    ensures var (t, a, drafts) := (CommitStep(s, i, answer), s.calls[i], CallDrafts(s, i));
            && t.copies == s.copies && |t.calls| == |s.calls| && t.now == s.now
            && t.calls[i] == a.(pc := if drafts == [] then Returned
                                      else if answer == RolledBack || InsertAll(s.rows, drafts).None? then Refused
                                      else if answer == Unheard then Orphaned
                                      else Publishing(FreshIds(a.answers), Check))
  {
  }

  lemma {:induction false} NoDraftsNoIds(items: seq<Item>, answers: seq<Answer>, batch: Option<nat>, now: Time)
    requires |answers| <= |items|
    ensures |FreshIds(answers)| == |Drafts(items, answers, batch, now)|
  {
    if answers != [] { NoDraftsNoIds(items, answers[..|answers| - 1], batch, now); }
  }

  /** How the insert of call `a` ended. */
  ghost predicate InsertEnds(t: Table, s: State, i: nat, a: Call, answer: Commitment) {
    var ids := FreshIds(a.answers);
    && i < |s.calls| && s.calls[i] == a.(pc := s.calls[i].pc)
    && match s.calls[i].pc
       case Returned => ids == []
       case Publishing(todo, stage) => ids != [] && todo == ids && stage == Check && answer == Confirmed && !Collides(t, a)
       case Refused => ids != [] && (answer == RolledBack || Collides(s.rows, a))
       case Orphaned => ids != [] && answer == Unheard && !Collides(t, a)
       case Looking => false
  }

  /** The insert: refused only if the database undoes it or a key collides, and always for a key
      that the call repeats or that was taken before. */
  method Insert(sys: Engine, i: nat, answer: Commitment)
    requires sys.Valid() && i < |sys.s.calls| && sys.s.calls[i].pc == Looking
    requires |sys.s.calls[i].answers| == |sys.s.calls[i].items|
    modifies sys
    ensures sys.Valid() && old(sys.log) <= sys.log && i < |sys.s.calls|
    ensures PublishedBy(sys.s.copies, Api(i)) == old(PublishedBy(sys.s.copies, Api(i)))
    ensures InsertEnds(old(sys.s.rows), sys.s, i, old(sys.s.calls[i]), answer)
  {
    ghost var begun, a := sys.log, sys.s.calls[i];
    sys.Interfere(Caller(i));
    ghost var before := sys.log;
    CommitOutcome(sys.s, i, answer);
    NoDraftsNoIds(a.items, a.answers, Owner(i, sys.s.calls[i]), sys.s.now);
    RefusedForAKey(sys.cfg, sys.schedulers, sys.log, i);
    if Collides(old(sys.s.rows), a) { CollisionStays(sys.cfg, sys.schedulers, begun, before, a); }
    sys.Do(Commit(i, answer));
    if Collides(After(sys.cfg, sys.schedulers, before).rows, a) { CollisionStays(sys.cfg, sys.schedulers, before, sys.log, a); }
  }

  lemma CollisionStays(cfg: Config, schedulers: nat, before: seq<Event>, later: seq<Event>, call: Call)
    requires before <= later && Collides(After(cfg, schedulers, before).rows, call)
    ensures Collides(After(cfg, schedulers, later).rows, call)
  {
    var t := After(cfg, schedulers, before).rows;
    var p :| 0 <= p < |call.answers| && p < |call.items| && call.answers[p].Fresh? && call.items[p].key.Some?
             && (KeyTaken(t, call.items[p].key) || Repeats(call, p));
    if KeyTaken(t, call.items[p].key) { KeysStay(cfg, schedulers, before, later, call.items[p].key); }
  }

  /** The new rows are stored with the fields of their items and the batch id of a batch, and were
      created since `start`. */
  ghost predicate Stored(start: Time, s: State, i: nat, call: Call) {
    forall p | 0 <= p < |call.answers| && p < |call.items| && call.answers[p].Fresh? ::
      var id := call.answers[p].id;
      && id in s.rows && SameItem(s.rows[id], call.items[p], if call.batch then Some(i) else None)
      && start <= s.rows[id].createdAt <= s.now
  }

  ghost predicate NotStored(s: State, call: Call) {
    forall p | 0 <= p < |call.answers| && call.answers[p].Fresh? :: call.answers[p].id !in s.rows
  }

  /** The rows that a call inserts were not there when it had looked everything up. */
  lemma StoredSince(cfg: Config, schedulers: nat, before: seq<Event>, later: seq<Event>, i: nat)
    requires before <= later
    requires var (a, b) := (After(cfg, schedulers, before), After(cfg, schedulers, later));
             && i < |a.calls| && i < |b.calls| && a.calls[i].pc == Looking && |a.calls[i].answers| == |a.calls[i].items|
             && b.calls[i] == a.calls[i].(pc := b.calls[i].pc)
    ensures var (a, b) := (After(cfg, schedulers, before), After(cfg, schedulers, later));
            if Committed(b.calls[i].pc) then Stored(a.now, b, i, b.calls[i]) else NotStored(b, b.calls[i])
  {
    var (a, b) := (After(cfg, schedulers, before), After(cfg, schedulers, later));
    var call := b.calls[i];
    IdemAlways(cfg, schedulers, before);
    IdemAlways(cfg, schedulers, later);
    AfterWf(cfg, schedulers, before);
    assert CallInv(a.rows, a.nextId, i, a.calls[i]) && CallInv(b.rows, b.nextId, i, call);
    var more := later[|before|..];
    assert later == before + more;
    RunConcat(cfg, Init(schedulers), before, more);
    forall p | 0 <= p < |call.answers| && call.answers[p].Fresh?
      ensures var id := call.answers[p].id;
              if Committed(call.pc) then
                && id in b.rows && SameItem(b.rows[id], call.items[p], if call.batch then Some(i) else None)
                && a.now <= b.rows[id].createdAt <= b.now
              else id !in b.rows
    {
      assert AnswerOk(a.rows, a.nextId, Owner(i, a.calls[i]), call.items[p], call.answers[p], Looking);
      assert AnswerOk(b.rows, b.nextId, Owner(i, call), call.items[p], call.answers[p], call.pc);
      if Committed(call.pc) { Provenance.NewRowsAreDated(cfg, a, more, call.answers[p].id); }
    }
  }

  /** What a call that has looked everything up comes to. */
  ghost predicate Inserted(start: Time, t: Table, s: State, i: nat, call: Call, world: World, ok: bool, due: seq<bool>) {
    var ids := FreshIds(call.answers);
    && i < |s.calls| && s.calls[i] == call.(pc := s.calls[i].pc)
    && (if ok then s.calls[i].pc == Returned
        else s.calls[i].pc == Refused || (s.calls[i].pc == Orphaned && world.commit == Unheard))
    && (!ok ==> ids != [] && (world.commit != Confirmed || Collides(s.rows, call)))
    && (ids != [] && (world.commit != Confirmed || Collides(t, call)) ==> !ok)
    && (if ok then |due| == |ids| && PublishedBy(s.copies, Api(i)) == Chosen(ids, Sent(due, world)) && AllJudged(start, s, ids, due)
        else PublishedBy(s.copies, Api(i)) == [])
    && (if s.calls[i].pc == Refused then NotStored(s, call) else Stored(start, s, i, call))
    && OnOwnQueues(s, i)
  }

  /** The insert, and the publishing of what it inserted. */
  method InsertAndPublish(sys: Engine, i: nat, world: World) returns (ok: bool, ghost due: seq<bool>)
    requires sys.Valid() && i < |sys.s.calls| && sys.s.calls[i].pc == Looking
    requires |sys.s.calls[i].answers| == |sys.s.calls[i].items| && PublishedBy(sys.s.copies, Api(i)) == []
    modifies sys
    ensures sys.Valid() && old(sys.log) <= sys.log
    ensures Inserted(old(sys.s.now), old(sys.s.rows), sys.s, i, old(sys.s.calls[i]), world, ok, due)
  {
    ghost var begun, a, start := sys.log, sys.s.calls[i], sys.s.now;
    due := [];
    Insert(sys, i, world.commit);
    ghost var inserted := sys.log;
    LogGrows(sys.cfg, sys.schedulers, begun, inserted);
    ok := sys.s.calls[i].pc != Refused && sys.s.calls[i].pc != Orphaned;
    if sys.s.calls[i].pc.Publishing? {
      due := PublishAll(sys, i, sys.s.calls[i].pc.todo, world);
      JudgedFrom(start, After(sys.cfg, sys.schedulers, inserted).now, sys.s, FreshIds(a.answers), due);
      PrefixTransitive(begun, inserted, sys.log);
    }
    StoredSince(sys.cfg, sys.schedulers, begun, sys.log, i);
    OwnQueues(sys.cfg, sys.schedulers, sys.log, i);
  }

  lemma JudgedFrom(start: Time, later: Time, s: State, ids: seq<Id>, due: seq<bool>)
    requires start <= later && AllJudged(later, s, ids, due)
    ensures AllJudged(start, s, ids, due)
  {
    forall k | 0 <= k < |due| ensures Judged(start, s, ids[k], due[k]) {
      assert Judged(later, s, ids[k], due[k]);
    }
  }

  // ---------------------------------------------------------------- the service

  /** Create answers with the id of the row that has the request's key, or with a new row's id.
      A key that was taken before the call is answered with its row and publishes nothing. Without
      a failure of the database the call fails only for an invalid request or template, or because
      another call's row got the key first; the first two are validation errors, everything else is
      an internal one. A new row has the request's fields and no batch, and is published, on its own
      channel, if that works and it is due, and only then. */
  method Create(sys: Engine, item: Item, world: World) returns (r: Result<Id, ServiceError>, ghost i: nat)
    requires sys.Valid()
    modifies sys
    ensures sys.Valid() && old(sys.log) <= sys.log
    ensures i < |sys.s.calls| && !sys.s.calls[i].batch && sys.s.calls[i].items == [item]
    ensures r.Ok? ==> item.valid && r.value in sys.s.rows && sys.s.rows[r.value].key == item.key
    ensures r.Ok? ==> |sys.s.calls[i].answers| == 1 && AnswerId(sys.s.calls[i].answers[0]) == Some(r.value)
    ensures !item.valid ==> r == Err(ValidationError)
    ensures r == Err(ValidationError) ==> !item.valid || !item.templateOk
    ensures r.Err? ==> r.error == ValidationError || r.error == Internal
    ensures item.valid && item.key.Some? && !world.lookups(0) ==> r == Err(Internal)
    ensures item.valid && !item.templateOk && (item.key.None? || world.lookups(0)) ==>
              r == Err(ValidationError) || (r.Ok? && sys.s.calls[i].answers[0].Existing?)
    ensures r.Err? && r.error != ValidationError ==>
              || (item.key.Some? && !world.lookups(0)) || world.commit != Confirmed || KeyTaken(sys.s.rows, item.key)
    ensures item.valid && world.lookups(0) && KeyTaken(old(sys.s.rows), item.key) ==>
              r.Ok? && sys.s.calls[i].answers[0].Existing?
    ensures r.Err? || sys.s.calls[i].answers[0].Existing? ==> PublishedBy(sys.s.copies, Api(i)) == []
    ensures r.Ok? && sys.s.calls[i].answers[0].Fresh? ==>
              exists due :: PublishedBy(sys.s.copies, Api(i)) == (if due && world.publishes(0) then [r.value] else [])
                            && Judged(old(sys.s.now), sys.s, r.value, due)
    ensures OnOwnQueues(sys.s, i)
    ensures r.Ok? && sys.s.calls[i].answers[0].Fresh? ==>
              SameItem(sys.s.rows[r.value], item, None) && old(sys.s.now) <= sys.s.rows[r.value].createdAt <= sys.s.now
    ensures r.Err? ==>
              || NotStored(sys.s, sys.s.calls[i])
              || (world.commit == Unheard && Stored(old(sys.s.now), sys.s, i, sys.s.calls[i]))
  {
    ghost var start := sys.s.now;
    var call := Start(sys, false, [item]);
    i := call;
    ghost var hit := LookupNext(sys, call, world.lookups(0));
    if sys.s.calls[call].pc == Refused {
      r := Err(if item.valid && item.key.Some? && !world.lookups(0) then Internal else ValidationError);
      OwnQueues(sys.cfg, sys.schedulers, sys.log, call);
      return;
    }
    ghost var looked := sys.log;
    LogGrows(sys.cfg, sys.schedulers, old(sys.log), looked);
    if sys.s.calls[call].pc == Looking {
      var ok;
      ghost var due;
      ok, due := InsertAndPublish(sys, call, world);
      PrefixTransitive(old(sys.log), looked, sys.log);
      if !ok {
        OnlyItsKey(sys.s.rows, sys.s.calls[call], item);
        r := Err(Internal);
        return;
      }
      OneFresh(sys.s.calls[call].answers);
      JudgedFrom(start, After(sys.cfg, sys.schedulers, looked).now, sys.s, [sys.s.calls[call].answers[0].id], due);
      ChosenOne(sys.s.calls[call].answers[0].id, Sent(due, world));
      assert Judged(start, sys.s, sys.s.calls[call].answers[0].id, due[0]);
    }
    CreateAnswer(sys.cfg, sys.schedulers, sys.log, call, item);
    OwnQueues(sys.cfg, sys.schedulers, sys.log, call);
    var answer := sys.s.calls[call].answers[0];
    r := Ok(answer.id);
  }

  lemma OneFresh(answers: seq<Answer>)
    requires |answers| == 1 && answers[0].Fresh?
    ensures FreshIds(answers) == [answers[0].id]
  {
    assert answers[..0] == [];
    assert FreshIds([]) == [];
  }

  lemma ChosenOne(id: Id, sent: seq<bool>)
    requires |sent| == 1
    ensures Chosen([id], sent) == if sent[0] then [id] else []
  {
    assert sent[..0] == [];
    assert Chosen([id], []) == [];
  }

  lemma OnlyItsKey(t: Table, call: Call, item: Item)
    requires call.items == [item] && |call.answers| == 1
    ensures Collides(t, call) ==> KeyTaken(t, item.key)
  {
  }

  lemma CreateAnswer(cfg: Config, schedulers: nat, es: seq<Event>, i: nat, item: Item)
    requires var s := After(cfg, schedulers, es);
             i < |s.calls| && s.calls[i].pc == Returned && s.calls[i].items == [item] && !s.calls[i].batch
    ensures var s := After(cfg, schedulers, es);
            && |s.calls[i].answers| == 1 && !s.calls[i].answers[0].Rejected? && item.valid
            && s.calls[i].answers[0].id in s.rows && s.rows[s.calls[i].answers[0].id].key == item.key
  {
    IdemAlways(cfg, schedulers, es);
    var s := After(cfg, schedulers, es);
    assert CallInv(s.rows, s.nextId, i, s.calls[i]);
    assert AnswerOk(s.rows, s.nextId, None, item, s.calls[i].answers[0], Returned);
  }

  /** The response counts every answer once and lists them in order, each with its index. */
  predicate Reports(resp: BatchResponse, answers: seq<Answer>) {
    && resp.accepted + resp.rejected == |resp.results| == |answers|
    && resp.accepted == Total(answers, AcceptedAnswer())
    && resp.results == Results(answers)
  }

  function Results(answers: seq<Answer>): seq<ItemResult> {
    seq(|answers|, p requires 0 <= p < |answers| => ItemResult(p, answers[p]))
  }

  lemma ReportsOneMore(resp: BatchResponse, answers: seq<Answer>, answer: Answer)
    requires Reports(resp, answers)
    ensures Reports(BatchResponse(resp.accepted + if answer.Rejected? then 0 else 1,
                                  resp.rejected + if answer.Rejected? then 1 else 0,
                                  resp.results + [ItemResult(|answers|, answer)]),
                    answers + [answer])
  {
    TotalSnoc(answers, answer, AcceptedAnswer());
    assert Results(answers + [answer]) == Results(answers) + [ItemResult(|answers|, answer)];
  }

  /** One item of a batch: its answer, and its place in the response. */
  method AnswerNext(sys: Engine, call: nat, items: seq<Item>, p: nat, works: bool, resp0: BatchResponse) returns (resp: BatchResponse)
    requires sys.Valid() && Running(sys.s, call, true, items, Looking) && p < |items|
    requires |sys.s.calls[call].answers| == p && PublishedBy(sys.s.copies, Api(call)) == []
    requires Reports(resp0, sys.s.calls[call].answers)
    modifies sys
    ensures sys.Valid() && old(sys.log) <= sys.log
    ensures Running(sys.s, call, true, items, Looking) && |sys.s.calls[call].answers| == p + 1
    ensures sys.s.calls[call].answers[..p] == old(sys.s.calls[call].answers)
    ensures items[p].valid && works && KeyTaken(old(sys.s.rows), items[p].key) ==> sys.s.calls[call].answers[p].Existing?
    ensures PublishedBy(sys.s.copies, Api(call)) == [] && Reports(resp, sys.s.calls[call].answers)
  {
    ghost var before := sys.s.calls[call].answers;
    ghost var hit := LookupNext(sys, call, works);
    var answer := sys.s.calls[call].answers[p];
    ReportsOneMore(resp0, before, answer);
    assert sys.s.calls[call].answers == before + [answer];
    resp := if answer.Rejected? then resp0.(rejected := resp0.rejected + 1) else resp0.(accepted := resp0.accepted + 1);
    resp := resp.(results := resp.results + [ItemResult(p, answer)]);
  }

  /** Valid items whose key was taken at the start, and whose lookup works, are answered with its row. */
  ghost predicate FoundTaken(t: Table, items: seq<Item>, world: World, answers: seq<Answer>) {
    |answers| <= |items| && forall p | 0 <= p < |answers| && items[p].valid && world.lookups(p) && KeyTaken(t, items[p].key) ::
      answers[p].Existing?
  }

  /** The loop of CreateBatch over the items, before anything is inserted. */
  method AnswerItems(sys: Engine, call: nat, items: seq<Item>, world: World) returns (resp: BatchResponse)
    requires sys.Valid() && Running(sys.s, call, true, items, Looking) && sys.s.calls[call].answers == []
    requires PublishedBy(sys.s.copies, Api(call)) == []
    modifies sys
    ensures sys.Valid() && old(sys.log) <= sys.log
    ensures Running(sys.s, call, true, items, Looking) && |sys.s.calls[call].answers| == |items|
    ensures PublishedBy(sys.s.copies, Api(call)) == [] && Reports(resp, sys.s.calls[call].answers)
    ensures FoundTaken(old(sys.s.rows), items, world, sys.s.calls[call].answers)
  {
    ghost var begun, t := sys.log, sys.s.rows;
    resp := BatchResponse(0, 0, []);
    for p := 0 to |items|
      invariant sys.Valid() && begun <= sys.log
      invariant Running(sys.s, call, true, items, Looking) && |sys.s.calls[call].answers| == p
      invariant PublishedBy(sys.s.copies, Api(call)) == []
      invariant Reports(resp, sys.s.calls[call].answers)
      invariant FoundTaken(t, items, world, sys.s.calls[call].answers)
    {
      ghost var before, answers := sys.log, sys.s.calls[call].answers;
      if KeyTaken(t, items[p].key) { KeysStay(sys.cfg, sys.schedulers, begun, before, items[p].key); }
      resp := AnswerNext(sys, call, items, p, world.lookups(p), resp);
      PrefixTransitive(begun, before, sys.log);
      FoundOneMore(t, items, world, answers, sys.s.calls[call].answers);
    }
  }

  lemma FoundOneMore(t: Table, items: seq<Item>, world: World, before: seq<Answer>, after: seq<Answer>)
    requires FoundTaken(t, items, world, before) && |after| == |before| + 1 <= |items| && after[..|before|] == before
    requires var p := |before|; items[p].valid && world.lookups(p) && KeyTaken(t, items[p].key) ==> after[p].Existing?
    ensures FoundTaken(t, items, world, after)
  {
    forall p | 0 <= p < |before| ensures after[p] == before[p] { assert after[..|before|][p] == before[p]; }
  }

  /** CreateBatch counts every item once and answers in order: invalid items, and only they, are
      rejected; each accepted id is a row with the item's key, the existing one if the key was
      taken before, else a new one of this batch with the item's fields. What it published is, in
      order, the part of its new rows that were due and whose publish worked. It fails, with an
      internal error, only if the commit does or a key of a new row collides, and always if the batch
      repeats a key that it did not find; then it has published nothing, and left no row unless the
      server committed unheard. */
  method CreateBatch(sys: Engine, items: seq<Item>, world: World)
    returns (r: Result<BatchResponse, ServiceError>, ghost i: nat, ghost due: seq<bool>)
    requires sys.Valid()
    modifies sys
    ensures sys.Valid() && old(sys.log) <= sys.log
    ensures |items| == 0 || |items| > 1000 ==> r == Err(ValidationError) && sys.log == old(sys.log)
    ensures 1 <= |items| <= 1000 ==>
              && i < |sys.s.calls| && sys.s.calls[i].batch && sys.s.calls[i].items == items && |sys.s.calls[i].answers| == |items|
              && FoundTaken(old(sys.s.rows), items, world, sys.s.calls[i].answers)
              && BatchEnds(old(sys.s.now), sys.s, sys.s.calls[i], i, world, r, due)
  {
    i, due := 0, [];
    if |items| == 0 || |items| > 1000 {
      r := Err(ValidationError);
      return;
    }
    ghost var start, begun := sys.s.now, sys.log;
    var call := Start(sys, true, items);
    i := call;
    ghost var started := sys.log;
    assert sys.s.rows == old(sys.s.rows) && sys.s.now == start;
    var resp := AnswerItems(sys, call, items, world);
    ghost var answered := sys.log;
    LogGrows(sys.cfg, sys.schedulers, started, answered);
    ghost var looked, t, mid := sys.s.calls[call], sys.s.rows, sys.s.now;
    var ok;
    ok, due := InsertAndPublish(sys, call, world);
    PrefixTransitive(started, answered, sys.log);
    PrefixTransitive(begun, started, sys.log);
    BatchConcludes(sys.cfg, sys.schedulers, sys.log, start, mid, t, i, looked, world, ok, resp, due);
    r := if ok then Ok(resp) else Err(Internal);
  }

  lemma {:induction false} FreshHasId(answers: seq<Answer>, p: nat)
    requires p < |answers| && answers[p].Fresh?
    ensures FreshIds(answers) != []
  {
    if p < |answers| - 1 { FreshHasId(answers[..|answers| - 1], p); }
  }

  /** Two new rows of the batch have the same key. */
  ghost predicate RepeatsItself(call: Call) {
    exists p :: 0 <= p < |call.answers| && p < |call.items| && call.answers[p].Fresh? && call.items[p].key.Some? && Repeats(call, p)
  }

  ghost predicate BatchAnswers(start: Time, s: State, call: Call, i: nat, world: World, resp: BatchResponse, due: seq<bool>) {
    var (items, answers, ids) := (call.items, call.answers, FreshIds(call.answers));
    && |answers| == |items| && Reports(resp, answers)
    && (forall p | 0 <= p < |items| :: answers[p] == Rejected <==> !items[p].valid)
    && (forall p | 0 <= p < |items| && !answers[p].Rejected? ::
          answers[p].id in s.rows && s.rows[answers[p].id].key == items[p].key)
    && Stored(start, s, i, call)
    && |due| == |ids| && PublishedBy(s.copies, Api(i)) == Chosen(ids, Sent(due, world)) && AllJudged(start, s, ids, due)
  }

  ghost predicate BatchFails(start: Time, s: State, call: Call, i: nat, world: World) {
    && (world.commit != Confirmed || Collides(s.rows, call))
    && PublishedBy(s.copies, Api(i)) == []
    && (NotStored(s, call) || (world.commit == Unheard && Stored(start, s, i, call)))
  }

  ghost predicate BatchEnds(
    start: Time, s: State, call: Call, i: nat, world: World, r: Result<BatchResponse, ServiceError>, due: seq<bool>)
  {
    && (match r
        case Ok(resp) => BatchAnswers(start, s, call, i, world, resp, due)
        case Err(error) => error == Internal && BatchFails(start, s, call, i, world))
    && OnOwnQueues(s, i)
    && (FreshIds(call.answers) != [] && world.commit != Confirmed ==> r.Err?)
    && (RepeatsItself(call) ==> r.Err?)
  }

  lemma BatchConcludes(
    cfg: Config, schedulers: nat, es: seq<Event>, start: Time, mid: Time, t: Table, i: nat, call: Call, world: World,
    ok: bool, resp: BatchResponse, due: seq<bool>)
    requires start <= mid && call.batch && |call.answers| == |call.items| && Reports(resp, call.answers)
    requires Inserted(mid, t, After(cfg, schedulers, es), i, call, world, ok, due)
    ensures var s := After(cfg, schedulers, es);
            BatchEnds(start, s, s.calls[i], i, world, if ok then Ok(resp) else Err(Internal), due)
  {
    var s := After(cfg, schedulers, es);
    if ok {
      BatchIsAnswered(cfg, schedulers, es, start, mid, t, i, call, world, resp, due);
      RepeatsRefuse(mid, t, s, i, call, world, due);
    } else {
      StoredBefore(start, mid, s, i, call);
      assert BatchFails(start, s, s.calls[i], i, world);
    }
  }

  lemma BatchIsAnswered(
    cfg: Config, schedulers: nat, es: seq<Event>, start: Time, mid: Time, t: Table, i: nat, call: Call, world: World,
    resp: BatchResponse, due: seq<bool>)
    requires start <= mid && call.batch && |call.answers| == |call.items| && Reports(resp, call.answers)
    requires Inserted(mid, t, After(cfg, schedulers, es), i, call, world, true, due)
    ensures var s := After(cfg, schedulers, es); BatchAnswers(start, s, s.calls[i], i, world, resp, due)
  {
    var s := After(cfg, schedulers, es);
    BatchIsWhole(cfg, schedulers, es, i);
    BatchKeys(cfg, schedulers, es, i);
    JudgedFrom(start, mid, s, FreshIds(call.answers), due);
    StoredBefore(start, mid, s, i, call);
  }

  lemma StoredBefore(start: Time, mid: Time, s: State, i: nat, call: Call)
    requires start <= mid && i < |s.calls| && s.calls[i] == call.(pc := s.calls[i].pc)
    ensures Stored(mid, s, i, call) ==> Stored(start, s, i, s.calls[i])
    ensures NotStored(s, call) ==> NotStored(s, s.calls[i])
  {
  }

  /** A batch that repeats a key among its new rows is not stored. */
  lemma RepeatsRefuse(mid: Time, t: Table, s: State, i: nat, call: Call, world: World, due: seq<bool>)
    requires |call.answers| == |call.items| && Inserted(mid, t, s, i, call, world, true, due)
    ensures !RepeatsItself(s.calls[i])
  {
    if RepeatsItself(call) {
      var p :| 0 <= p < |call.answers| && p < |call.items| && call.answers[p].Fresh? && call.items[p].key.Some? && Repeats(call, p);
      assert Collides(t, call);
      FreshHasId(call.answers, p);
    }
  }

  lemma BatchKeys(cfg: Config, schedulers: nat, es: seq<Event>, i: nat)
    requires var s := After(cfg, schedulers, es); i < |s.calls|
    ensures var s := After(cfg, schedulers, es);
            var call := s.calls[i];
            call.pc == Returned ==> forall p | 0 <= p < |call.answers| && p < |call.items| && !call.answers[p].Rejected? ::
              call.answers[p].id in s.rows && s.rows[call.answers[p].id].key == call.items[p].key
  {
    IdemAlways(cfg, schedulers, es);
    var s := After(cfg, schedulers, es);
    assert CallInv(s.rows, s.nextId, i, s.calls[i]);
  }

  /** Cancel succeeds exactly on a row that is pending or queued at that moment, and changes its
      status alone. */
  method CancelNotification(sys: Engine, id: Id) returns (r: Result<(), ServiceError>)
    requires sys.Valid()
    modifies sys
    ensures sys.Valid() && sys.log == old(sys.log) + [Cancel(id)]
    ensures sys.s == old(sys.s).(rows := sys.s.rows) && OthersKept(old(sys.s.rows), sys.s.rows, id)
    ensures r.Ok? <==> id in old(sys.s.rows) && old(sys.s.rows)[id].status in {Pending, Queued}
    ensures r.Ok? ==> sys.s.rows[id].status == Cancelled
                      && sys.s.rows[id].(status := old(sys.s.rows)[id].status) == old(sys.s.rows)[id]
    ensures r.Err? ==> r == Err(ServiceError.NotFound) && sys.s.rows == old(sys.s.rows)
  {
    r := if Cancellable(sys.s.rows, id) then Ok(()) else Err(ServiceError.NotFound);
    sys.Do(Cancel(id));
  }
}
