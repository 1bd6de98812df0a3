/** internal/queue/scheduler.go: pollAndPublish against any interference, and how undisturbed
    polls drain the due rows. */
module Polling {
  import opened Basics
  import opened Model
  import opened Repository
  import opened Pipeline
  import opened Frame
  import opened Tokens
  import opened Publishing
  import opened System
  import Provenance

  // ---------------------------------------------------------------- the query always has an answer

  /** The earliest due row that is not picked yet. */
  lemma {:induction false} PendingAnswerExists(t: Table, now: Time, limit: nat) returns (picked: seq<Id>)
    ensures PendingAnswer(t, now, limit, picked)
  {
    if limit == 0 {
      picked := [];
    } else {
      var front := PendingAnswerExists(t, now, limit - 1);
      var left := set id | id in t && DuePending(t, now, id) && id !in front;
      if left == {} {
        picked := front;
        assert forall id | id in t && DuePending(t, now, id) && id !in front :: id in left;
      } else {
        var next := Oldest(t, left);
        picked := front + [next];
        assert forall i | 0 <= i < |front| :: picked[i] == front[i];
        forall id | id in t && DuePending(t, now, id) && id !in picked
          ensures |picked| == limit && forall i | 0 <= i < |picked| :: t[picked[i]].createdAt <= t[id].createdAt
        {
          assert id !in front && id in left;
        }
      }
    }
  }

  // ---------------------------------------------------------------- pollAndPublish, with interference

  /** The scheduler's next statement, after whatever the others did. */
  method Await(sys: Engine, j: nat, marking: bool)
    requires sys.Valid() && j < |sys.s.scheds| && sys.s.scheds[j].todo != [] && sys.s.scheds[j].marking == marking
    modifies sys
    ensures sys.Valid() && Ran(old(sys.log), sys.log, Poller(j), []) && Wf(sys.s) && HasHead(sys.s, j, marking)
    ensures j < |sys.s.scheds| && sys.s.scheds[j] == old(sys.s.scheds[j])
    ensures PublishedBy(sys.s.copies, Scheduler(j)) == old(PublishedBy(sys.s.copies, Scheduler(j)))
  {
    sys.Interfere(Poller(j));
    AfterWf(sys.cfg, sys.schedulers, sys.log);
    assert sys.s.scheds[j].todo[0].Note? && sys.s.scheds[j].todo[0].id in sys.s.rows;
  }

  lemma PublishOutcome(cfg: Config, s: State, j: nat, ok: bool)
    requires Wf(s) && HasHead(s, j, false)
    ensures var (t, todo) := (Step(cfg, s, SchedPublish(j, ok)), s.scheds[j].todo);
            && |t.scheds| == |s.scheds|
            && t.scheds[j] == (if ok then Sched(todo, true) else Sched(todo[1..], false))
            && PublishedBy(t.copies, Scheduler(j)) == PublishedBy(s.copies, Scheduler(j)) + if ok then [todo[0].id] else []
  {
    PublishedGrows(cfg, s, SchedPublish(j, ok), Scheduler(j));
  }

  lemma MarkOutcome(s: State, j: nat, ok: bool)
    requires HasHead(s, j, true)
    ensures var t := SchedMarkStep(s, j, ok);
            && t.copies == s.copies && |t.scheds| == |s.scheds|
            && t.scheds[j] == Sched(s.scheds[j].todo[1..], false)
  {
  }

  /** How the database and the broker answer one poll: its query, and its publishes and marks by
      position in the snapshot. */
  datatype World = World(queries: bool, publishes: nat -> bool, marks: nat -> bool)

  /** Which of `n` publishes work. */
  function Works(world: World, n: nat): seq<bool> { seq(n, k requires 0 <= k < n => world.publishes(k)) }

  /** The statements for one row: it is published and, if that works, marked as queued. */
  function ItemScript(j: nat, publishes: bool, marks: bool): seq<Event> {
    [SchedPublish(j, publishes)] + if publishes then [SchedMark(j, marks)] else []
  }

  function PublishScript(j: nat, n: nat, world: World): seq<Event> {
    if n == 0 then [] else PublishScript(j, n - 1, world) + ItemScript(j, world.publishes(n - 1), world.marks(n - 1))
  }

  method PublishHead(sys: Engine, j: nat, todo: seq<Body>, publishes: bool, marks: bool)
    requires sys.Valid() && j < |sys.s.scheds| && todo != [] && sys.s.scheds[j] == Sched(todo, false) && todo[0].Note?
    modifies sys
    ensures sys.Valid() && Ran(old(sys.log), sys.log, Poller(j), ItemScript(j, publishes, marks))
    ensures j < |sys.s.scheds| && sys.s.scheds[j] == Sched(todo[1..], false)
    ensures PublishedBy(sys.s.copies, Scheduler(j))
            == old(PublishedBy(sys.s.copies, Scheduler(j))) + if publishes then [todo[0].id] else []
  {
    ghost var begun := sys.log;
    PublishRow(sys, j, todo, publishes);
    if publishes {
      ghost var published := sys.log;
      MarkRow(sys, j, todo, marks);
      RanThen(begun, published, sys.log, Poller(j), [SchedPublish(j, true)], [SchedMark(j, marks)]);
    }
  }

  method PublishRow(sys: Engine, j: nat, todo: seq<Body>, publishes: bool)
    requires sys.Valid() && j < |sys.s.scheds| && todo != [] && sys.s.scheds[j] == Sched(todo, false) && todo[0].Note?
    modifies sys
    ensures sys.Valid() && Ran(old(sys.log), sys.log, Poller(j), [SchedPublish(j, publishes)])
    ensures j < |sys.s.scheds| && sys.s.scheds[j] == if publishes then Sched(todo, true) else Sched(todo[1..], false)
    ensures PublishedBy(sys.s.copies, Scheduler(j))
            == old(PublishedBy(sys.s.copies, Scheduler(j))) + if publishes then [todo[0].id] else []
  {
    Await(sys, j, false);
    PublishOutcome(sys.cfg, sys.s, j, publishes);
    sys.Do(SchedPublish(j, publishes));
  }

  method MarkRow(sys: Engine, j: nat, todo: seq<Body>, marks: bool)
    requires sys.Valid() && j < |sys.s.scheds| && todo != [] && sys.s.scheds[j] == Sched(todo, true)
    modifies sys
    ensures sys.Valid() && Ran(old(sys.log), sys.log, Poller(j), [SchedMark(j, marks)])
    ensures j < |sys.s.scheds| && sys.s.scheds[j] == Sched(todo[1..], false)
    ensures PublishedBy(sys.s.copies, Scheduler(j)) == old(PublishedBy(sys.s.copies, Scheduler(j)))
  {
    Await(sys, j, true);
    MarkOutcome(sys.s, j, marks);
    sys.Do(SchedMark(j, marks));
  }

  method PublishSnapshot(sys: Engine, j: nat, picked: seq<Id>, world: World)
    requires sys.Valid() && j < |sys.s.scheds| && !sys.s.scheds[j].marking && |sys.s.scheds[j].todo| == |picked|
    requires var todo := sys.s.scheds[j].todo; forall k | 0 <= k < |todo| :: todo[k].Note? && todo[k].id == picked[k]
    modifies sys
    ensures sys.Valid() && Ran(old(sys.log), sys.log, Poller(j), PublishScript(j, |picked|, world))
    ensures j < |sys.s.scheds| && sys.s.scheds[j] == Sched([], false)
    ensures PublishedBy(sys.s.copies, Scheduler(j))
            == old(PublishedBy(sys.s.copies, Scheduler(j))) + Chosen(picked, Works(world, |picked|))
  {
    var todo := sys.s.scheds[j].todo;
    ghost var published, begun := PublishedBy(sys.s.copies, Scheduler(j)), sys.log;
    for k := 0 to |todo|
      invariant sys.Valid() && Ran(begun, sys.log, Poller(j), PublishScript(j, k, world))
      invariant j < |sys.s.scheds| && sys.s.scheds[j] == Sched(todo[k..], false)
      invariant PublishedBy(sys.s.copies, Scheduler(j)) == published + Chosen(picked, Works(world, k))
    {
      assert todo[k..][1..] == todo[k + 1..] && Works(world, k + 1)[..k] == Works(world, k);
      ghost var before := sys.log;
      PublishHead(sys, j, todo[k..], world.publishes(k), world.marks(k));
      RanThen(begun, before, sys.log, Poller(j), PublishScript(j, k, world), ItemScript(j, world.publishes(k), world.marks(k)));
    }
  }

  lemma PollOutcome(cfg: Config, s: State, j: nat, picked: seq<Id>)
    requires j < |s.scheds| && s.scheds[j] == Sched([], false) && PendingAnswer(s.rows, s.now, cfg.batchSize, picked)
    ensures var t := PollStep(cfg, s, j, picked);
            && t.copies == s.copies && |t.scheds| == |s.scheds|
            && !t.scheds[j].marking && |t.scheds[j].todo| == |picked|
            && forall k | 0 <= k < |picked| :: t.scheds[j].todo[k].Note? && t.scheds[j].todo[k].id == picked[k]
  {
  }

  /** One poll, whatever the others do meanwhile. If its query fails it publishes nothing; else it
      publishes, of the rows that the query answers at that moment, in order, exactly those whose
      publish works, and marks each of these before it goes on to the next. All its messages are on the queues of their rows' channels. */
  method PollAndPublish(sys: Engine, j: nat, world: World) returns (ghost picked: seq<Id>, ghost polled: seq<Event>)
    requires sys.Valid() && j < |sys.s.scheds| && sys.s.scheds[j] == Sched([], false)
    modifies sys
    ensures sys.Valid() && old(sys.log) <= polled <= sys.log
    ensures Ran(old(sys.log), sys.log, Poller(j), if world.queries then [Poll(j, picked)] + PublishScript(j, |picked|, world) else [])
    ensures j < |sys.s.scheds| && sys.s.scheds[j] == Sched([], false)
    ensures if world.queries then
              var s := After(sys.cfg, sys.schedulers, polled);
              PendingAnswer(s.rows, s.now, sys.cfg.batchSize, picked)
            else picked == []
    ensures PublishedBy(sys.s.copies, Scheduler(j))
            == old(PublishedBy(sys.s.copies, Scheduler(j))) + Chosen(picked, Works(world, |picked|))
    ensures forall c | 0 <= c < |sys.s.copies| && sys.s.copies[c].source == Scheduler(j) && sys.s.copies[c].body.Note? ::
              Provenance.OwnMessage(sys.s.rows, sys.s.copies[c])
  {
    ghost var begun := sys.log;
    sys.Interfere(Poller(j));
    picked, polled := [], sys.log;
    assert Chosen(picked, Works(world, 0)) == [];
    if world.queries {
      ghost var some := PendingAnswerExists(sys.s.rows, sys.s.now, sys.cfg.batchSize);
      var answer: seq<Id> :| PendingAnswer(sys.s.rows, sys.s.now, sys.cfg.batchSize, answer);
      picked := answer;
      PollOutcome(sys.cfg, sys.s, j, answer);
      sys.Do(Poll(j, answer));
      ghost var before := sys.log;
      PublishSnapshot(sys, j, answer, world);
      RanThen(begun, before, sys.log, Poller(j), [Poll(j, answer)], PublishScript(j, |answer|, world));
    }
    Provenance.MessagesMatchRows(sys.cfg, sys.schedulers, sys.log);
  }

  // ---------------------------------------------------------------- one undisturbed poll

  /** The scheduler's own events for a snapshot: a publish each, and a mark for each that succeeded. */
  function ItemEvents(j: nat, oks: seq<bool>): seq<Event> {
    if oks == [] then [] else
      var n := |oks| - 1;
      ItemEvents(j, oks[..n]) + OneItem(j, oks[n])
  }

  function OneItem(j: nat, ok: bool): seq<Event> {
    if ok then [SchedPublish(j, true), SchedMark(j, true)] else [SchedPublish(j, false)]
  }

  function MarkAll(t: Table, ids: seq<Id>, now: Time): Table {
    if ids == [] then t else
      SetStatus(MarkAll(t, ids[..|ids| - 1], now), ids[|ids| - 1], Queued, None, None, now)
  }

  function QueuedRow(row: Row): Row { row.(status := Queued, lastError := None) }

  /** Exactly the listed rows became queued. */
  ghost predicate OnlyQueued(t: Table, u: Table, ids: seq<Id>) {
    && u.Keys == t.Keys
    && forall id | id in t :: u[id] == if id in ids then QueuedRow(t[id]) else t[id]
  }

  lemma {:induction false} MarkAllRows(t: Table, ids: seq<Id>, now: Time)
    ensures OnlyQueued(t, MarkAll(t, ids, now), ids)
  {
    if ids != [] {
      var n := |ids| - 1;
      MarkAllRows(t, ids[..n], now);
      assert ids == ids[..n] + [ids[n]];
    }
  }

  function Message(t: Table, id: Id, j: nat, now: Time): Copy
    requires id in t
  {
    Copy(Note(id, t[id].retryCount), t[id].channel, Scheduler(j), now, Ready, 0, 0, 0, false)
  }

  function Messages(t: Table, ids: seq<Id>, j: nat, now: Time): seq<Copy>
    requires forall k | 0 <= k < |ids| :: ids[k] in t
  {
    seq(|ids|, k requires 0 <= k < |ids| => Message(t, ids[k], j, now))
  }

  /** The state of a poll that has published `ids` and still has `todo` before it. */
  function Midway(s: State, j: nat, todo: seq<Body>, ids: seq<Id>): State
    requires j < |s.scheds| && forall k | 0 <= k < |ids| :: ids[k] in s.rows
  {
    s.(scheds := s.scheds[j := Sched(todo, false)],
       rows := MarkAll(s.rows, ids, s.now),
       copies := s.copies + Messages(s.rows, ids, j, s.now))
  }

  predicate AllPending(t: Table, ids: seq<Id>) {
    forall k | 0 <= k < |ids| :: ids[k] in t && t[ids[k]].status == Pending
  }

  lemma SkipItem(cfg: Config, s: State, j: nat, todo: seq<Body>, ids: seq<Id>)
    requires j < |s.scheds| && todo != [] && todo[0].Note? && todo[0].id in s.rows
    requires forall k | 0 <= k < |ids| :: ids[k] in s.rows
    ensures Step(cfg, Midway(s, j, todo, ids), SchedPublish(j, false)) == Midway(s, j, todo[1..], ids)
  {
    MarkAllRows(s.rows, ids, s.now);
  }

  lemma TakeItem(cfg: Config, s: State, j: nat, todo: seq<Body>, ids: seq<Id>)
    requires j < |s.scheds| && todo != [] && todo[0].Note? && todo[0].id in s.rows
    requires todo[0].retry == s.rows[todo[0].id].retryCount && s.rows[todo[0].id].status == Pending && todo[0].id !in ids
    requires forall k | 0 <= k < |ids| :: ids[k] in s.rows
    ensures Step(cfg, Step(cfg, Midway(s, j, todo, ids), SchedPublish(j, true)), SchedMark(j, true))
            == Midway(s, j, todo[1..], ids + [todo[0].id])
  {
    var id := todo[0].id;
    MarkAllRows(s.rows, ids, s.now);
    assert (ids + [id])[..|ids|] == ids;
    assert Messages(s.rows, ids + [id], j, s.now) == Messages(s.rows, ids, j, s.now) + [Message(s.rows, id, j, s.now)];
    var m := Midway(s, j, todo, ids);
    assert m.rows[id] == s.rows[id];
    var p := Step(cfg, m, SchedPublish(j, true));
    assert p.copies == m.copies + [Message(s.rows, id, j, s.now)];
    assert p.scheds == s.scheds[j := Sched(todo, true)] && HasHead(p, j, true);
    assert Step(cfg, p, SchedMark(j, true)).scheds == s.scheds[j := Sched(todo[1..], false)];
  }

  lemma RunTwo(cfg: Config, s: State, a: Event, b: Event)
    ensures Run(cfg, s, [a, b]) == Step(cfg, Step(cfg, s, a), b)
  {
    assert [a, b][..1] == [a];
    RunOne(cfg, s, a);
  }

  lemma RunOne(cfg: Config, s: State, a: Event)
    ensures Run(cfg, s, [a]) == Step(cfg, s, a)
  {
    assert [a][..0] == [];
  }

  lemma ItemRun(cfg: Config, s: State, j: nat, todo: seq<Body>, ids: seq<Id>, ok: bool)
    requires j < |s.scheds| && todo != [] && todo[0].Note? && todo[0].id in s.rows
    requires todo[0].retry == s.rows[todo[0].id].retryCount && s.rows[todo[0].id].status == Pending && todo[0].id !in ids
    requires forall k | 0 <= k < |ids| :: ids[k] in s.rows
    ensures Run(cfg, Midway(s, j, todo, ids), OneItem(j, ok))
            == Midway(s, j, todo[1..], ids + if ok then [todo[0].id] else [])
  {
    var m := Midway(s, j, todo, ids);
    if ok {
      RunTwo(cfg, m, SchedPublish(j, true), SchedMark(j, true));
      TakeItem(cfg, s, j, todo, ids);
    } else {
      RunOne(cfg, m, SchedPublish(j, false));
      SkipItem(cfg, s, j, todo, ids);
      assert ids + [] == ids;
    }
  }

  lemma {:induction false} SucceededArePicked(picked: seq<Id>, oks: seq<bool>)
    requires |oks| <= |picked|
    ensures forall k | 0 <= k < |Chosen(picked, oks)| :: Chosen(picked, oks)[k] in picked[..|oks|]
  {
    if oks != [] {
      var n := |oks| - 1;
      SucceededArePicked(picked, oks[..n]);
      assert picked[..n + 1] == picked[..n] + [picked[n]];
    }
  }

  lemma {:induction false} ItemsRun(cfg: Config, s: State, j: nat, picked: seq<Id>, oks: seq<bool>)
    requires j < |s.scheds| && |oks| <= |picked| && Distinct(picked) && AllPending(s.rows, picked)
    ensures forall k | 0 <= k < |Chosen(picked, oks)| :: Chosen(picked, oks)[k] in s.rows
    ensures var todo := Snapshot(s.rows, picked);
            Run(cfg, Midway(s, j, todo, []), ItemEvents(j, oks)) == Midway(s, j, todo[|oks|..], Chosen(picked, oks))
  {
    var todo := Snapshot(s.rows, picked);
    SucceededArePicked(picked, oks);
    if oks != [] {
      var n := |oks| - 1;
      var ids := Chosen(picked, oks[..n]);
      ItemsRun(cfg, s, j, picked, oks[..n]);
      SucceededArePicked(picked, oks[..n]);
      assert todo[n..][1..] == todo[n + 1..] && picked[n] !in ids;
      RunConcat(cfg, Midway(s, j, todo, []), ItemEvents(j, oks[..n]), OneItem(j, oks[n]));
      ItemRun(cfg, s, j, todo[n..], ids, oks[n]);
    } else {
      assert todo[0..] == todo;
    }
  }

  /** `ids` were published and queued between the two states, and nothing else happened. */
  ghost predicate PollDone(s: State, t: State, j: nat, ids: seq<Id>) {
    && (forall k | 0 <= k < |ids| :: ids[k] in s.rows)
    && OnlyQueued(s.rows, t.rows, ids)
    && t == s.(rows := t.rows, copies := s.copies + Messages(s.rows, ids, j, s.now))
  }

  /** An undisturbed poll changes exactly the rows whose publish succeeded: they become queued, in
      order one ready message each is added, and every other part of the state is as it was. A
      row whose publish failed stays pending for the next poll. */
  lemma PollChangesWhatItPublishes(cfg: Config, s: State, j: nat, picked: seq<Id>, oks: seq<bool>)
    requires j < |s.scheds| && s.scheds[j] == Sched([], false) && |oks| == |picked|
    requires PendingAnswer(s.rows, s.now, cfg.batchSize, picked)
    ensures PollDone(s, Run(cfg, s, [Poll(j, picked)] + ItemEvents(j, oks)), j, Chosen(picked, oks))
  {
    assert forall k | 0 <= k < |picked| :: DuePending(s.rows, s.now, picked[k]);
    var todo := Snapshot(s.rows, picked);
    RunConcat(cfg, s, [Poll(j, picked)], ItemEvents(j, oks));
    RunOne(cfg, s, Poll(j, picked));
    assert Messages(s.rows, [], j, s.now) == [];
    assert Run(cfg, s, [Poll(j, picked)]) == Midway(s, j, todo, []);
    ItemsRun(cfg, s, j, picked, oks);
    MarkAllRows(s.rows, Chosen(picked, oks), s.now);
    assert todo[|oks|..] == [];
    assert s.scheds[j := Sched([], false)] == s.scheds;
  }

  // ---------------------------------------------------------------- draining

  function AllOk(n: nat): seq<bool> { seq(n, _ => true) }

  lemma {:induction false} AllSucceeded(picked: seq<Id>, n: nat)
    requires n <= |picked|
    ensures Chosen(picked, AllOk(n)) == picked[..n]
  {
    if n > 0 {
      assert AllOk(n)[..n - 1] == AllOk(n - 1);
      AllSucceeded(picked, n - 1);
    }
  }

  /** Polls `interval` apart, with no other actor and every publish and mark succeeding. */
  function Polls(j: nat, interval: nat, picks: seq<seq<Id>>): seq<Event> {
    if picks == [] then [] else
      var n := |picks| - 1;
      Polls(j, interval, picks[..n]) + OnePoll(j, interval, picks[n])
  }

  function OnePoll(j: nat, interval: nat, picked: seq<Id>): seq<Event> {
    [Tick(interval)] + ([Poll(j, picked)] + ItemEvents(j, AllOk(|picked|)))
  }

  /** Each poll got an answer of its query. */
  ghost predicate Answered(cfg: Config, s: State, j: nat, interval: nat, picks: seq<seq<Id>>) {
    picks == [] ||
      var n := |picks| - 1;
      var t := Run(cfg, s, Polls(j, interval, picks[..n]));
      Answered(cfg, s, j, interval, picks[..n]) && PendingAnswer(t.rows, t.now + interval, cfg.batchSize, picks[n])
  }

  /** No scheduled row comes due within `span`. */
  predicate NoArrivals(s: State, span: nat) {
    forall id | id in s.rows && s.rows[id].status == Pending && s.rows[id].scheduledAt.Some? ::
      s.rows[id].scheduledAt.value <= s.now || s.now + span < s.rows[id].scheduledAt.value
  }

  function Flatten(picks: seq<seq<Id>>): seq<Id> {
    if picks == [] then [] else Flatten(picks[..|picks| - 1]) + picks[|picks| - 1]
  }

  function Due(s: State): set<Id> { set id | id in s.rows && Ripe(s.rows[id], s.now) }

  ghost predicate IsMessage(s: State, copy: Copy, id: Id, j: nat) {
    id in s.rows && copy == Message(s.rows, id, j, copy.at)
  }

  /** The rows of `all` have been published and queued, once each and in this order. */
  ghost predicate Drained(s: State, t: State, j: nat, all: seq<Id>) {
    && j < |t.scheds| && t.scheds[j] == Sched([], false)
    && OnlyQueued(s.rows, t.rows, all)
    && |t.copies| == |s.copies| + |all| && t.copies[..|s.copies|] == s.copies
    && forall k | 0 <= k < |all| :: IsMessage(s, t.copies[|s.copies| + k], all[k], j)
  }

  /** Due rows, each once, oldest first, with none left out that is older than one of them. */
  ghost predicate OldestFirst(s: State, all: seq<Id>) {
    && Distinct(all)
    && (forall k | 0 <= k < |all| :: all[k] in Due(s))
    && (forall a, b | 0 <= a < b < |all| :: s.rows[all[a]].createdAt <= s.rows[all[b]].createdAt)
    && (forall id, k | id in Due(s) && id !in all && 0 <= k < |all| :: s.rows[all[k]].createdAt <= s.rows[id].createdAt)
  }

  lemma OldestFirstGrows(s: State, t: Table, now: Time, limit: nat, all: seq<Id>, last: seq<Id>)
    requires OldestFirst(s, all) && OnlyQueued(s.rows, t, all) && PendingAnswer(t, now, limit, last)
    requires forall id | id in s.rows && s.rows[id].status == Pending :: DuePending(s.rows, now, id) <==> DuePending(s.rows, s.now, id)
    ensures OldestFirst(s, all + last)
    ensures (exists id :: id in Due(s) && id !in all + last) ==> |last| == limit
  {
    forall k | 0 <= k < |last| ensures last[k] in Due(s) && last[k] !in all {
      assert DuePending(t, now, last[k]);
    }
    forall id | id in Due(s) && id !in all + last
      ensures |last| == limit && forall k | 0 <= k < |last| :: s.rows[last[k]].createdAt <= s.rows[id].createdAt
    {
      assert id !in all && id !in last && DuePending(t, now, id);
      assert t[id] == s.rows[id];
      assert forall k | 0 <= k < |last| :: t[last[k]] == s.rows[last[k]];
    }
    assert forall k | 0 <= k < |last| :: t[last[k]] == s.rows[last[k]];
  }

  lemma OnlyQueuedJoins(t: Table, u: Table, v: Table, a: seq<Id>, b: seq<Id>)
    requires OnlyQueued(t, u, a) && OnlyQueued(u, v, b) && forall k | 0 <= k < |b| :: b[k] !in a
    ensures OnlyQueued(t, v, a + b)
  {
  }

  lemma TickFirst(cfg: Config, t: State, interval: nat, rest: seq<Event>)
    ensures Run(cfg, t, [Tick(interval)] + rest) == Run(cfg, t.(now := t.now + interval), rest)
  {
    RunConcat(cfg, t, [Tick(interval)], rest);
    RunOne(cfg, t, Tick(interval));
  }

  lemma PollRuns(cfg: Config, t: State, j: nat, interval: nat, picked: seq<Id>)
    requires j < |t.scheds| && t.scheds[j] == Sched([], false)
    requires PendingAnswer(t.rows, t.now + interval, cfg.batchSize, picked)
    ensures PollDone(t.(now := t.now + interval), Run(cfg, t, OnePoll(j, interval, picked)), j, picked)
  {
    TickFirst(cfg, t, interval, [Poll(j, picked)] + ItemEvents(j, AllOk(|picked|)));
    PollChangesWhatItPublishes(cfg, t.(now := t.now + interval), j, picked, AllOk(|picked|));
    AllSucceeded(picked, |picked|);
    assert picked[..|picked|] == picked;
  }

  lemma DrainedGrows(s: State, t: State, u: State, j: nat, now: Time, all: seq<Id>, last: seq<Id>)
    requires Drained(s, t, j, all) && PollDone(t.(now := now), u, j, last) && forall k | 0 <= k < |last| :: last[k] !in all
    ensures Drained(s, u, j, all + last) && u.now == now
  {
    OnlyQueuedJoins(s.rows, t.rows, u.rows, all, last);
    forall k | 0 <= k < |all + last| ensures IsMessage(s, u.copies[|s.copies| + k], (all + last)[k], j) {
      if k < |all| {
        assert u.copies[|s.copies| + k] == t.copies[|s.copies| + k];
        assert IsMessage(s, t.copies[|s.copies| + k], all[k], j);
      } else {
        assert u.copies[|s.copies| + k] == Message(t.rows, last[k - |all|], j, now);
      }
    }
  }

  /** What `picks` polls have done: everything in `all`, and only it. */
  ghost predicate DrainedTo(cfg: Config, s: State, t: State, j: nat, polls: nat, interval: nat, all: seq<Id>) {
    && Drained(s, t, j, all) && OldestFirst(s, all) && t.now == s.now + polls * interval
    && |all| <= polls * cfg.batchSize
    && forall id | id in Due(s) && id !in all :: |all| == polls * cfg.batchSize
  }

  lemma DrainStep(cfg: Config, s: State, t: State, j: nat, polls: nat, interval: nat, all: seq<Id>, last: seq<Id>)
    requires DrainedTo(cfg, s, t, j, polls, interval, all) && NoArrivals(s, (polls + 1) * interval)
    requires PendingAnswer(t.rows, t.now + interval, cfg.batchSize, last)
    ensures DrainedTo(cfg, s, Run(cfg, t, OnePoll(j, interval, last)), j, polls + 1, interval, all + last)
  {
    var now := t.now + interval;
    OneMoreTimes(polls, interval);
    forall k | 0 <= k < |last| ensures last[k] !in all { assert DuePending(t.rows, now, last[k]); }
    OldestFirstGrows(s, t.rows, now, cfg.batchSize, all, last);
    PollRuns(cfg, t, j, interval, last);
    var u := Run(cfg, t, OnePoll(j, interval, last));
    DrainedGrows(s, t, u, j, now, all, last);
    OneMoreTimes(polls, cfg.batchSize);
    forall id | id in Due(s) && id !in all + last ensures |all + last| == (polls + 1) * cfg.batchSize { assert id !in all; }
  }

  lemma OneMoreTimes(a: nat, b: nat)
    ensures (a + 1) * b == a * b + b
  {
  }

  lemma FewerArrivals(s: State, n: nat, interval: nat)
    requires NoArrivals(s, (n + 1) * interval)
    ensures NoArrivals(s, n * interval)
  {
    assert (n + 1) * interval == n * interval + interval;
  }

  lemma {:induction false} DrainRuns(cfg: Config, s: State, j: nat, interval: nat, picks: seq<seq<Id>>)
    requires j < |s.scheds| && s.scheds[j] == Sched([], false)
    requires Answered(cfg, s, j, interval, picks) && NoArrivals(s, |picks| * interval)
    ensures DrainedTo(cfg, s, Run(cfg, s, Polls(j, interval, picks)), j, |picks|, interval, Flatten(picks))
  {
    if picks != [] {
      var n := |picks| - 1;
      FewerArrivals(s, n, interval);
      DrainRuns(cfg, s, j, interval, picks[..n]);
      var t := Run(cfg, s, Polls(j, interval, picks[..n]));
      assert PendingAnswer(t.rows, t.now + interval, cfg.batchSize, picks[n]);
      DrainStep(cfg, s, t, j, n, interval, Flatten(picks[..n]), picks[n]);
      RunConcat(cfg, s, Polls(j, interval, picks[..n]), OnePoll(j, interval, picks[n]));
    }
  }

  /** A sequence of distinct due rows has them all exactly when it is long enough. */
  lemma AllDue(s: State, all: seq<Id>, room: nat)
    requires Distinct(all) && (forall k | 0 <= k < |all| :: all[k] in Due(s))
    requires |all| <= room && forall id | id in Due(s) && id !in all :: |all| == room
    ensures |all| == Min(|Due(s)|, room)
    ensures (forall id | id in Due(s) :: id in all) <==> |Due(s)| <= room
  {
    var ids := Members(all);
    DistinctSize(all);
    SubsetSize(ids, Due(s));
    if id :| id in Due(s) && id !in all {
      assert id !in ids && |ids + {id}| == |ids| + 1;
      SubsetSize(ids + {id}, Due(s));
    } else {
      assert Due(s) == ids by { assert forall id | id in Due(s) :: id in all; }
    }
  }

  /** With every publish and mark succeeding and no row coming due, consecutive polls publish the
      due rows oldest first, each exactly once: all N of them exactly when the number of polls
      times the batch size reaches N, so after the ceiling of N / batchSize polls and not before. */
  lemma SchedulerDrains(cfg: Config, s: State, j: nat, interval: nat, picks: seq<seq<Id>>)
    requires j < |s.scheds| && s.scheds[j] == Sched([], false)
    requires Answered(cfg, s, j, interval, picks) && NoArrivals(s, |picks| * interval)
    ensures var (t, all) := (Run(cfg, s, Polls(j, interval, picks)), Flatten(picks));
            && Drained(s, t, j, all) && OldestFirst(s, all)
            && |all| == Min(|Due(s)|, |picks| * cfg.batchSize)
            && ((forall id | id in Due(s) :: id in all) <==> |Due(s)| <= |picks| * cfg.batchSize)
  {
    DrainRuns(cfg, s, j, interval, picks);
    AllDue(s, Flatten(picks), |picks| * cfg.batchSize);
  }

  // ---------------------------------------------------------------- a notification in its turn

  lemma {:induction false} CountedOnce(s: State, t: State, j: nat, all: seq<Id>, n: Id, m: nat)
    requires Drained(s, t, j, all) && Distinct(all) && m <= |all|
    ensures Total(t.copies[..|s.copies| + m], CopyOf(n)) == Published(s, n) + if n in all[..m] then 1 else 0
  {
    if m > 0 {
      var k := |s.copies| + m - 1;
      CountedOnce(s, t, j, all, n, m - 1);
      assert t.copies[..k + 1] == t.copies[..k] + [t.copies[k]];
      TotalSnoc(t.copies[..k], t.copies[k], CopyOf(n));
      assert IsMessage(s, t.copies[k], all[m - 1], j);
      assert all[..m] == all[..m - 1] + [all[m - 1]];
    } else {
      assert t.copies[..|s.copies| + 0] == s.copies;
    }
  }

  /** What is taken before `n` is not younger. */
  lemma TakenInTurn(s: State, all: seq<Id>, room: nat, n: Id)
    requires OldestFirst(s, all) && n in Due(s) && |AsOld(s.rows, s.now, n)| <= room
    requires |all| <= room && forall id | id in Due(s) && id !in all :: |all| == room
    ensures n in all
  {
    if n !in all {
      assert Members(all) <= AsOld(s.rows, s.now, n) - {n};
      DistinctSize(all);
      SubsetSize(Members(all), AsOld(s.rows, s.now, n) - {n});
      assert false;
    }
  }

  /** A row that waits with no message and whose time has come is due. */
  lemma WaitsInDue(cfg: Config, schedulers: nat, es: seq<Event>, n: Id)
    requires var s := After(cfg, schedulers, es);
             && n in s.rows && Published(s, n) == 0 && s.rows[n].status != Cancelled
             && (s.rows[n].scheduledAt.Some? ==> s.rows[n].scheduledAt.value <= s.now)
    ensures n in Due(After(cfg, schedulers, es))
  {
    UntouchedAlways(cfg, schedulers, es);
    NoneIsZero(After(cfg, schedulers, es).copies, n);
  }

  lemma DrainedOnce(s: State, t: State, j: nat, all: seq<Id>, n: Id)
    requires Drained(s, t, j, all) && Distinct(all) && n in all && n in s.rows && Published(s, n) == 0
    ensures n in t.rows && t.rows[n].status == Queued && Published(t, n) == 1
  {
    CountedOnce(s, t, j, all, n, |all|);
    assert t.copies[..|s.copies| + |all|] == t.copies && all[..|all|] == all;
  }

  /** From creation to the queue: a stored notification that was not cancelled, that no publisher has
      published and whose time has come is published exactly once and queued by a scheduler's next
      polls, as soon as they have room for the due rows that are not younger than it. */
  lemma PublishedInItsTurn(cfg: Config, schedulers: nat, es: seq<Event>, j: nat, interval: nat, picks: seq<seq<Id>>, n: Id)
    requires var s := After(cfg, schedulers, es);
             && n in s.rows && Published(s, n) == 0 && s.rows[n].status != Cancelled
             && (s.rows[n].scheduledAt.Some? ==> s.rows[n].scheduledAt.value <= s.now)
             && j < |s.scheds| && s.scheds[j] == Sched([], false)
             && Answered(cfg, s, j, interval, picks) && NoArrivals(s, |picks| * interval)
             && |AsOld(s.rows, s.now, n)| <= |picks| * cfg.batchSize
    ensures var t := Run(cfg, After(cfg, schedulers, es), Polls(j, interval, picks));
            n in t.rows && t.rows[n].status == Queued && Published(t, n) == 1
  {
    var s := After(cfg, schedulers, es);
    var (t, all) := (Run(cfg, s, Polls(j, interval, picks)), Flatten(picks));
    WaitsInDue(cfg, schedulers, es, n);
    DrainRuns(cfg, s, j, interval, picks);
    TakenInTurn(s, all, |picks| * cfg.batchSize, n);
    DrainedOnce(s, t, j, all, n);
  }
}
