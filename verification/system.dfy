/** The running system. The programs of the consumer, the service and the scheduler act on it one
    event at a time; between two of their events the other actors do whatever they like. */
module System {
  import opened Model
  import opened Pipeline
  import opened Frame
  import opened Tokens
  import opened PublishOnce
  import opened Cancellation

  datatype Actor = Worker(delivery: nat) | Caller(call: nat) | Poller(sched: nat)

  /** The events that only this actor takes. */
  predicate Belongs(e: Event, a: Actor) {
    match a
    case Worker(d) => e.Work? && e.delivery == d
    case Caller(i) => (e.Lookup? || e.Commit? || e.Decide? || e.ApiPublish? || e.ApiMark?) && e.call == i
    case Poller(j) => (e.Poll? || e.SchedPublish? || e.SchedMark?) && e.sched == j
  }

  ghost predicate Present(s: State, a: Actor) {
    match a
    case Worker(d) => d < |s.deliveries|
    case Caller(i) => i < |s.calls|
    case Poller(j) => j < |s.scheds|
  }

  /** The ids of the messages that `source` published, in order. */
  function PublishedBy(copies: seq<Copy>, source: Source): seq<Id> {
    if copies == [] then [] else
      var n := |copies| - 1;
      PublishedBy(copies[..n], source)
      + if copies[n].source == source && copies[n].body.Note? then [copies[n].body.id] else []
  }

  /** What the provider was asked by a delivery, and what it answered, in order. */
  function SendsOf(sends: seq<SendRecord>, d: nat): seq<SendRecord> {
    if sends == [] then [] else
      var n := |sends| - 1;
      SendsOf(sends[..n], d) + if sends[n].delivery == d then [sends[n]] else []
  }

  /** The events of one actor, in order. */
  function OwnEvents(log: seq<Event>, a: Actor): seq<Event> {
    if log == [] then [] else
      var n := |log| - 1;
      OwnEvents(log[..n], a) + if Belongs(log[n], a) then [log[n]] else []
  }

  lemma OwnEventsSnoc(log: seq<Event>, e: Event, a: Actor)
    ensures OwnEvents(log + [e], a) == OwnEvents(log, a) + if Belongs(e, a) then [e] else []
  {
    assert (log + [e])[..|log|] == log;
  }

  /** Since the log was `before`, the actor has taken exactly the steps of `script`. */
  ghost predicate Ran(before: seq<Event>, log: seq<Event>, a: Actor, script: seq<Event>) {
    before <= log && OwnEvents(log, a) == OwnEvents(before, a) + script
  }

  lemma RanThen(before: seq<Event>, mid: seq<Event>, log: seq<Event>, a: Actor, first: seq<Event>, second: seq<Event>)
    requires Ran(before, mid, a, first) && Ran(mid, log, a, second)
    ensures Ran(before, log, a, first + second)
  {
    PrefixTransitive(before, mid, log);
    assert (OwnEvents(before, a) + first) + second == OwnEvents(before, a) + (first + second);
  }

  lemma SendsOfSnoc(sends: seq<SendRecord>, record: SendRecord, d: nat)
    ensures SendsOf(sends + [record], d) == SendsOf(sends, d) + if record.delivery == d then [record] else []
  {
    assert (sends + [record])[..|sends|] == sends;
  }

  /** The actor's own variables, and what it has published or sent, are the same in both states. */
  ghost predicate SameLocals(s: State, t: State, a: Actor) {
    match a
    case Worker(d) => d < |s.deliveries| && d < |t.deliveries| && t.deliveries[d] == s.deliveries[d]
                      && SendsOf(t.sends, d) == SendsOf(s.sends, d)
    case Caller(i) => i < |s.calls| && i < |t.calls| && t.calls[i] == s.calls[i]
                      && PublishedBy(t.copies, Api(i)) == PublishedBy(s.copies, Api(i))
    case Poller(j) => j < |s.scheds| && j < |t.scheds| && t.scheds[j] == s.scheds[j]
                      && PublishedBy(t.copies, Scheduler(j)) == PublishedBy(s.copies, Scheduler(j))
  }

  lemma {:induction false} PublishedSame(a: seq<Copy>, b: seq<Copy>, source: Source)
    requires |a| == |b| && forall c | 0 <= c < |a| :: CopyLater(a[c], b[c])
    ensures PublishedBy(a, source) == PublishedBy(b, source)
  {
    if a != [] {
      var n := |a| - 1;
      PublishedSame(a[..n], b[..n], source);
      assert CopyLater(a[n], b[n]);
    }
  }

  /** A step adds to what a source has published only if that source publishes its head. */
  lemma PublishedGrows(cfg: Config, s: State, e: Event, source: Source)
    requires Wf(s)
    ensures var t := Step(cfg, s, e);
            PublishedBy(t.copies, source) == PublishedBy(s.copies, source)
              + if |t.copies| > |s.copies| && t.copies[|s.copies|].source == source && t.copies[|s.copies|].body.Note?
                then [t.copies[|s.copies|].body.id] else []
  {
    var t := Step(cfg, s, e);
    StepKeeps(cfg, s, e);
    CopyOrigin(cfg, s, e);
    PublishedSame(s.copies, t.copies[..|s.copies|], source);
    if |t.copies| == |s.copies| { assert t.copies[..|s.copies|] == t.copies; }
  }

  lemma OthersKeepLocals(cfg: Config, s: State, e: Event, a: Actor)
    requires Wf(s) && Present(s, a) && !Belongs(e, a)
    ensures SameLocals(s, Step(cfg, s, e), a)
  {
    CopyOrigin(cfg, s, e);
    match a {
      case Worker(d) =>
        PcsStay(cfg, s, e, d);
        OthersSend(cfg, s, e, d);
      case Caller(i) =>
        CallsStay(cfg, s, e, i);
        PublishedGrows(cfg, s, e, Api(i));
      case Poller(j) =>
        SchedOrigin(cfg, s, e, j);
        PublishedGrows(cfg, s, e, Scheduler(j));
    }
  }

  lemma OthersSend(cfg: Config, s: State, e: Event, d: nat)
    requires Wf(s) && !Belongs(e, Worker(d))
    ensures SendsOf(Step(cfg, s, e).sends, d) == SendsOf(s.sends, d)
  {
    if e.Work? && e.delivery < |s.deliveries| {
      assert WfDelivery(s, s.deliveries[e.delivery]);
      var m := WorkMove(cfg, s, e.delivery, e.input);
      SendsAreOwn(cfg, s, e.delivery, e.input);
      if m.sent == [] { assert s.sends + m.sent == s.sends; } else { SendsOfSnoc(s.sends, m.sent[0], d); }
    } else if ByPublisher(e) {
      PublisherSteps(cfg, s, e);
    }
  }

  lemma SendsAreOwn(cfg: Config, s: State, d: nat, input: Input)
    requires d < |s.deliveries| && s.deliveries[d].copy < |s.copies|
    ensures var m := WorkMove(cfg, s, d, input); m.sent == [] || (m.sent == [m.sent[0]] && m.sent[0].delivery == d)
  {
  }

  lemma CallsStay(cfg: Config, s: State, e: Event, i: nat)
    requires i < |s.calls| && !Belongs(e, Caller(i))
    ensures var t := Step(cfg, s, e); i < |t.calls| && t.calls[i] == s.calls[i]
  {
  }

  lemma PrefixTransitive<T>(a: seq<T>, b: seq<T>, c: seq<T>)
    requires a <= b <= c
    ensures a <= c
  {
  }

  /** A longer log leads to a later state. */
  lemma LogGrows(cfg: Config, schedulers: nat, before: seq<Event>, later: seq<Event>)
    requires before <= later
    ensures Wf(After(cfg, schedulers, later)) && Later(After(cfg, schedulers, before), After(cfg, schedulers, later))
  {
    var more := later[|before|..];
    assert later == before + more;
    RunConcat(cfg, Init(schedulers), before, more);
    AfterWf(cfg, schedulers, before);
    RunKeeps(cfg, After(cfg, schedulers, before), more);
  }

  class Engine {
    const cfg: Config
    const schedulers: nat
    var s: State
    ghost var log: seq<Event>

    constructor (cfg: Config, schedulers: nat)
      ensures Valid() && this.cfg == cfg && this.schedulers == schedulers && log == []
    {
      this.cfg := cfg;
      this.schedulers := schedulers;
      s := Init(schedulers);
      log := [];
    }

    /** The state is the one the events so far lead to: what holds of every run holds of it. */
    ghost predicate Valid()
      reads this
    {
      s == After(cfg, schedulers, log)
    }

    method Do(e: Event)
      requires Valid()
      modifies this
      ensures Valid() && log == old(log) + [e] && s == Step(cfg, old(s), e)
      ensures forall a: Actor :: OwnEvents(log, a) == old(OwnEvents(log, a)) + if Belongs(e, a) then [e] else []
    {
      s := Step(cfg, s, e);
      forall a: Actor ensures OwnEvents(log + [e], a) == OwnEvents(log, a) + if Belongs(e, a) then [e] else [] {
        OwnEventsSnoc(log, e, a);
      }
      log := log + [e];
      assert log[..|log| - 1] == old(log);
    }

    /** Any number of events of the other actors, in any order. */
    method Interfere(a: Actor)
      requires Valid() && Present(s, a)
      modifies this
      ensures Valid() && old(log) <= log
      ensures SameLocals(old(s), s, a) && OwnEvents(log, a) == old(OwnEvents(log, a))
    {
      var others: seq<Event> := *;
      for k := 0 to |others|
        invariant Valid() && old(log) <= log
        invariant SameLocals(old(s), s, a) && OwnEvents(log, a) == old(OwnEvents(log, a))
      {
        if !Belongs(others[k], a) {
          AfterWf(cfg, schedulers, log);
          OthersKeepLocals(cfg, s, others[k], a);
          Do(others[k]);
        }
      }
    }
  }
}
