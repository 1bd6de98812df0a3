/** The broker's containers: the ready messages of every queue, the unacked deliveries and the acked
    messages. They change only by what publishers and consumers ask of the broker, and what goes
    where is decided by the bindings. A message is known by its place in the order of publication,
    a delivery by its tag. */
module Queues {
  import opened Basics
  import opened Model
  import opened Pipeline
  import opened Frame
  import opened Tokens
  import opened PublishOnce
  import opened Topology
  import Provenance

  datatype Store = Store(
    queues: map<string, multiset<nat>>,
    unacked: map<string, map<nat, nat>>,
    acked: map<string, multiset<nat>>)

  // ---------------------------------------------------------------- what the broker does

  predicate Holds(store: Store, q: string) {
    q in store.queues && q in store.unacked && q in store.acked
  }

  /** A message goes to every queue that its key is bound to. */
  function Put(queues: map<string, multiset<nat>>, targets: set<string>, message: nat): map<string, multiset<nat>> {
    map q | q in queues :: if q in targets then queues[q] + multiset{message} else queues[q]
  }

  function Publish(layout: Layout, store: Store, key: string, message: nat): Store {
    store.(queues := Put(store.queues, Routing(layout, key), message))
  }

  function Take(store: Store, q: string, message: nat, tag: nat): Store {
    if !Holds(store, q) || message !in store.queues[q] then store else
      store.(queues := store.queues[q := store.queues[q] - multiset{message}],
             unacked := store.unacked[q := Opening(store.unacked[q], tag, message)])
  }

  function Opening(deliveries: map<nat, nat>, tag: nat, message: nat): map<nat, nat> {
    deliveries[tag := message]
  }

  predicate Open(store: Store, q: string, tag: nat) {
    Holds(store, q) && tag in store.unacked[q]
  }

  /** An ack or nack closes the delivery; one for a delivery that is no longer open does nothing. */
  function Close(store: Store, q: string, tag: nat): Store
    requires Open(store, q, tag)
  {
    store.(unacked := store.unacked[q := store.unacked[q] - {tag}])
  }

  function Ack(store: Store, q: string, tag: nat): Store {
    if !Open(store, q, tag) then store else
      Close(store, q, tag).(acked := store.acked[q := store.acked[q] + multiset{store.unacked[q][tag]}])
  }

  /** A nack with requeue, or the end of the delivery's connection. */
  function Requeue(store: Store, q: string, tag: nat): Store {
    if !Open(store, q, tag) then store else
      Close(store, q, tag).(queues := store.queues[q := store.queues[q] + multiset{store.unacked[q][tag]}])
  }

  /** A nack without requeue: the queue's own arguments say under which key the message goes on. */
  function Discard(layout: Layout, store: Store, q: string, tag: nat): Store {
    if !Open(store, q, tag) then store
    else if q in layout.queues && layout.queues[q].DeadLetter? then
      Publish(layout, Close(store, q, tag), layout.queues[q].key, store.unacked[q][tag])
    else Close(store, q, tag)
  }

  // ---------------------------------------------------------------- along a run

  /** A worker's ack or nack, if it is at one, that gets through to the broker. */
  function Settle(layout: Layout, prefix: string, store: Store, s: State, d: nat): Store {
    if d >= |s.deliveries| || s.deliveries[d].copy >= |s.copies| then store else
      var (q, pc) := (QueueName(prefix, s.copies[s.deliveries[d].copy].channel), s.deliveries[d].pc);
      if pc.AtAck? then Ack(store, q, d)
      else if pc.AtNackRetry? then Requeue(store, q, d)
      else if pc.AtNackDead? then Discard(layout, store, q, d)
      else store
  }

  /** What one event asks of the broker. */
  function Follow(layout: Layout, prefix: string, store: Store, s: State, e: Event, t: State): Store {
    match e
    case Deliver(c) => if c < |s.copies| then Take(store, QueueName(prefix, s.copies[c].channel), c, |s.deliveries|) else store
    case Lose(c) =>
      if c < |s.copies| && s.copies[c].place.Unacked?
      then Requeue(store, QueueName(prefix, s.copies[c].channel), s.copies[c].place.delivery) else store
    case Work(d, input) => if input == Plain(true) then Settle(layout, prefix, store, s, d) else store
    case _ => if |t.copies| > |s.copies| then Publish(layout, store, PublishKey(t.copies[|s.copies|].channel), |s.copies|) else store
  }

  function Empty(layout: Layout): Store {
    Store(map q | q in layout.queues :: multiset{}, map q | q in layout.queues :: map[], map q | q in layout.queues :: multiset{})
  }

  function StoreAfter(cfg: Config, layout: Layout, prefix: string, schedulers: nat, es: seq<Event>): Store {
    if es == [] then Empty(layout) else
      var (front, e) := (es[..|es| - 1], es[|es| - 1]);
      Follow(layout, prefix, StoreAfter(cfg, layout, prefix, schedulers, front),
             After(cfg, schedulers, front), e, After(cfg, schedulers, es))
  }

  // ---------------------------------------------------------------- the containers and the places

  /** The layout that setup leaves on a fresh broker. */
  function Standard(prefix: string, dlq: string): Layout {
    AddChannels(Layout(map[], {}), prefix, dlq, |CHANNELS|)
  }

  /** The queue that a message waits in. */
  function Home(prefix: string, dlq: string, copy: Copy): Option<string> {
    match copy.place
    case Ready => Some(QueueName(prefix, copy.channel))
    case Dead => Some(QueueName(dlq, copy.channel))
    case _ => None
  }

  function Waiting(prefix: string, dlq: string, copies: seq<Copy>, q: string, c: nat): nat {
    if c < |copies| && Home(prefix, dlq, copies[c]) == Some(q) then 1 else 0
  }

  function Finished(prefix: string, copies: seq<Copy>, q: string, c: nat): nat {
    if c < |copies| && copies[c].place == Acked && QueueName(prefix, copies[c].channel) == q then 1 else 0
  }

  predicate OpenAt(prefix: string, s: State, q: string, tag: nat) {
    && tag < |s.deliveries| && s.deliveries[tag].copy < |s.copies|
    && s.copies[s.deliveries[tag].copy].place == Unacked(tag)
    && QueueName(prefix, s.copies[s.deliveries[tag].copy].channel) == q
  }

  predicate SameDomain(layout: Layout, store: Store) {
    store.queues.Keys == layout.queues.Keys && store.unacked.Keys == layout.queues.Keys && store.acked.Keys == layout.queues.Keys
  }

  ghost predicate QueuesMatch(prefix: string, dlq: string, queues: map<string, multiset<nat>>, copies: seq<Copy>) {
    forall q, c: nat | q in queues :: queues[q][c] == Waiting(prefix, dlq, copies, q, c)
  }

  ghost predicate AckedMatch(prefix: string, acked: map<string, multiset<nat>>, copies: seq<Copy>) {
    forall q, c: nat | q in acked :: acked[q][c] == Finished(prefix, copies, q, c)
  }

  ghost predicate UnackedMatch(prefix: string, unacked: map<string, map<nat, nat>>, s: State) {
    forall q, tag: nat | q in unacked ::
      && (tag in unacked[q] <==> OpenAt(prefix, s, q, tag))
      && (tag in unacked[q] ==> tag < |s.deliveries| && unacked[q][tag] == s.deliveries[tag].copy)
  }

  /** The containers hold what the places say, once each, and nothing else. */
  ghost predicate Mirrors(prefix: string, dlq: string, store: Store, s: State) {
    && SameDomain(Standard(prefix, dlq), store)
    && QueuesMatch(prefix, dlq, store.queues, s.copies)
    && AckedMatch(prefix, store.acked, s.copies)
    && UnackedMatch(prefix, store.unacked, s)
  }

  /** What is known of the standard layout. */
  lemma Layouts(prefix: string, dlq: string, ch: Channel)
    requires prefix != dlq
    ensures var (layout, q, d) := (Standard(prefix, dlq), QueueName(prefix, ch), QueueName(dlq, ch));
            && q in layout.queues && layout.queues[q] == DeadLetter(3, DeadKey(ch)) && d in layout.queues && q != d
            && Routing(layout, PublishKey(ch)) == {q} && Routing(layout, DeadKey(ch)) == {d}
  {
    EachChannelHasItsQueues(prefix, dlq, ch, ch);
  }

  lemma QueueOf(prefix: string, dlq: string, store: Store, ch: Channel)
    requires prefix != dlq && SameDomain(Standard(prefix, dlq), store)
    ensures Holds(store, QueueName(prefix, ch)) && QueueName(dlq, ch) in store.queues
    ensures QueueName(prefix, ch) != QueueName(dlq, ch)
  {
    Layouts(prefix, dlq, ch);
  }

  // ---------------------------------------------------------------- one message moves

  /** A new ready message is put in its queue. */
  lemma QueuePut(prefix: string, dlq: string, queues: map<string, multiset<nat>>, copies: seq<Copy>, copy: Copy)
    requires QueuesMatch(prefix, dlq, queues, copies) && copy.place == Ready
    ensures QueuesMatch(prefix, dlq, Put(queues, {QueueName(prefix, copy.channel)}, |copies|), copies + [copy])
  {
    var (to, n) := (QueueName(prefix, copy.channel), |copies|);
    forall q, c: nat | q in queues ensures Put(queues, {to}, n)[q][c] == Waiting(prefix, dlq, copies + [copy], q, c) {
      PutAt(queues, to, n, q, c);
      WaitingAdded(prefix, dlq, copies, copy, q, c);
      assert queues[q][c] == Waiting(prefix, dlq, copies, q, c);
    }
  }

  lemma PutAt(queues: map<string, multiset<nat>>, to: string, message: nat, q: string, c: nat)
    requires q in queues
    ensures Put(queues, {to}, message)[q][c] == queues[q][c] + if q == to && c == message then 1 else 0
  {
  }

  lemma WaitingAdded(prefix: string, dlq: string, copies: seq<Copy>, copy: Copy, q: string, c: nat)
    ensures Waiting(prefix, dlq, copies + [copy], q, c)
            == Waiting(prefix, dlq, copies, q, c) + if c == |copies| && Home(prefix, dlq, copy) == Some(q) then 1 else 0
  {
  }

  /** A copy that was in no queue comes home to one, or stays out. */
  lemma QueueMove(prefix: string, dlq: string, queues: map<string, multiset<nat>>, copies: seq<Copy>, c: nat, copy: Copy)
    requires QueuesMatch(prefix, dlq, queues, copies) && c < |copies| && Home(prefix, dlq, copies[c]).None?
    ensures var home := Home(prefix, dlq, copy);
            QueuesMatch(prefix, dlq, Put(queues, if home.Some? then {home.value} else {}, c), copies[c := copy])
  {
  }

  /** A ready copy leaves its queue. */
  lemma QueueTake(prefix: string, dlq: string, queues: map<string, multiset<nat>>, copies: seq<Copy>, c: nat, copy: Copy)
    requires QueuesMatch(prefix, dlq, queues, copies) && c < |copies| && copies[c].place == Ready && copy.place.Unacked?
    requires var q := QueueName(prefix, copies[c].channel); q in queues
    ensures var q := QueueName(prefix, copies[c].channel);
            QueuesMatch(prefix, dlq, queues[q := queues[q] - multiset{c}], copies[c := copy])
  {
    var q0 := QueueName(prefix, copies[c].channel);
    assert queues[q0][c] == Waiting(prefix, dlq, copies, q0, c) == 1;
  }

  lemma PutOne(queues: map<string, multiset<nat>>, q: string, c: nat)
    ensures q in queues ==> Put(queues, {q}, c) == queues[q := queues[q] + multiset{c}]
    ensures Put(queues, {}, c) == queues
  {
  }

  lemma AckedAdd(prefix: string, acked: map<string, multiset<nat>>, copies: seq<Copy>, c: nat, copy: Copy)
    requires AckedMatch(prefix, acked, copies) && c < |copies| && copies[c].place != Acked && copy.channel == copies[c].channel
    requires QueueName(prefix, copy.channel) in acked
    ensures var q := QueueName(prefix, copy.channel);
            AckedMatch(prefix, if copy.place == Acked then acked[q := acked[q] + multiset{c}] else acked, copies[c := copy])
  {
  }

  /** One held copy is settled or given back; nothing else moves. */
  ghost predicate Settles(s: State, t: State, c: nat, tag: nat) {
    && c < |s.copies| == |t.copies| && tag < |s.deliveries| == |t.deliveries|
    && t.copies == s.copies[c := t.copies[c]] && t.copies[c].channel == s.copies[c].channel
    && s.copies[c].place == Unacked(tag) && !t.copies[c].place.Unacked?
    && (forall k | 0 <= k < |s.deliveries| :: t.deliveries[k].copy == s.deliveries[k].copy)
  }

  lemma Opened(prefix: string, dlq: string, store: Store, s: State, c: nat, tag: nat)
    requires prefix != dlq && Wf(s) && Mirrors(prefix, dlq, store, s) && c < |s.copies| && s.copies[c].place == Unacked(tag)
    ensures var q := QueueName(prefix, s.copies[c].channel); Open(store, q, tag) && store.unacked[q][tag] == c
  {
    QueueOf(prefix, dlq, store, s.copies[c].channel);
    assert OpenAt(prefix, s, QueueName(prefix, s.copies[c].channel), tag);
  }

  /** Two deliveries never hold the same copy. */
  lemma OthersOpen(prefix: string, s: State, t: State, c: nat, tag: nat, q: string, k: nat)
    requires Wf(s) && Settles(s, t, c, tag)
    ensures OpenAt(prefix, t, q, k) <==> OpenAt(prefix, s, q, k) && k != tag
  {
    if k < |s.deliveries| { assert WfDelivery(s, s.deliveries[k]); }
    assert s.deliveries[tag].copy == c;
  }

  lemma UnackedClose(prefix: string, unacked: map<string, map<nat, nat>>, s: State, t: State, c: nat, tag: nat)
    requires Wf(s) && UnackedMatch(prefix, unacked, s) && Settles(s, t, c, tag)
    requires QueueName(prefix, s.copies[c].channel) in unacked
    ensures var q := QueueName(prefix, s.copies[c].channel); UnackedMatch(prefix, unacked[q := unacked[q] - {tag}], t)
  {
    var q0 := QueueName(prefix, s.copies[c].channel);
    var closed := unacked[q0 := unacked[q0] - {tag}];
    forall q, k: nat | q in closed
      ensures k in closed[q] <==> OpenAt(prefix, t, q, k)
      ensures k in closed[q] ==> k < |t.deliveries| && closed[q][k] == t.deliveries[k].copy
    {
      OthersOpen(prefix, s, t, c, tag, q, k);
      assert k in unacked[q] <==> OpenAt(prefix, s, q, k);
      assert s.deliveries[tag].copy == c;
    }
  }

  lemma UnackedOpen(prefix: string, unacked: map<string, map<nat, nat>>, s: State, c: nat)
    requires Wf(s) && UnackedMatch(prefix, unacked, s) && c < |s.copies| && s.copies[c].place == Ready
    requires QueueName(prefix, s.copies[c].channel) in unacked
    ensures var q := QueueName(prefix, s.copies[c].channel);
            UnackedMatch(prefix, unacked[q := Opening(unacked[q], |s.deliveries|, c)], DeliverStep(s, c))
  {
    var (q0, t) := (QueueName(prefix, s.copies[c].channel), DeliverStep(s, c));
    var later := unacked[q0 := Opening(unacked[q0], |s.deliveries|, c)];
    forall q, k: nat | q in later
      ensures k in later[q] <==> OpenAt(prefix, t, q, k)
      ensures k in later[q] ==> k < |t.deliveries| && later[q][k] == t.deliveries[k].copy
    {
      assert k in unacked[q] <==> OpenAt(prefix, s, q, k);
      if k < |s.deliveries| { assert WfDelivery(s, s.deliveries[k]); }
    }
  }

  lemma MirrorsPublish(prefix: string, dlq: string, store: Store, s: State, t: State)
    requires prefix != dlq && Wf(s) && Mirrors(prefix, dlq, store, s) && t.deliveries == s.deliveries
    requires |t.copies| == |s.copies| + 1 && t.copies == s.copies + [t.copies[|s.copies|]] && t.copies[|s.copies|].place == Ready
    ensures Mirrors(prefix, dlq, Publish(Standard(prefix, dlq), store, PublishKey(t.copies[|s.copies|].channel), |s.copies|), t)
  {
    var copy := t.copies[|s.copies|];
    Layouts(prefix, dlq, copy.channel);
    QueuePut(prefix, dlq, store.queues, s.copies, copy);
    AckedStays(prefix, store.acked, s.copies, copy);
    UnackedStays(prefix, store.unacked, s, t);
  }

  lemma AckedStays(prefix: string, acked: map<string, multiset<nat>>, copies: seq<Copy>, copy: Copy)
    requires AckedMatch(prefix, acked, copies) && copy.place != Acked
    ensures AckedMatch(prefix, acked, copies + [copy])
  {
  }

  lemma UnackedStays(prefix: string, unacked: map<string, map<nat, nat>>, s: State, t: State)
    requires Wf(s) && UnackedMatch(prefix, unacked, s) && t.deliveries == s.deliveries && s.copies <= t.copies
    ensures UnackedMatch(prefix, unacked, t)
  {
    forall q, k: nat ensures OpenAt(prefix, t, q, k) <==> OpenAt(prefix, s, q, k) {
      if k < |s.deliveries| { assert WfDelivery(s, s.deliveries[k]); }
    }
  }

  lemma MirrorsTake(prefix: string, dlq: string, store: Store, s: State, c: nat)
    requires prefix != dlq && Wf(s) && Mirrors(prefix, dlq, store, s) && c < |s.copies|
    ensures Mirrors(prefix, dlq, Take(store, QueueName(prefix, s.copies[c].channel), c, |s.deliveries|), DeliverStep(s, c))
  {
    var q := QueueName(prefix, s.copies[c].channel);
    QueueOf(prefix, dlq, store, s.copies[c].channel);
    assert store.queues[q][c] == Waiting(prefix, dlq, s.copies, q, c);
    if s.copies[c].place == Ready {
      var copy := s.copies[c].(place := Unacked(|s.deliveries|));
      QueueTake(prefix, dlq, store.queues, s.copies, c, copy);
      AckedAdd(prefix, store.acked, s.copies, c, copy);
      UnackedOpen(prefix, store.unacked, s, c);
    } else {
      OnlyReadyWaits(prefix, dlq, s.copies[c]);
    }
  }

  lemma OnlyReadyWaits(prefix: string, dlq: string, copy: Copy)
    requires prefix != dlq && copy.place != Ready
    ensures Home(prefix, dlq, copy) != Some(QueueName(prefix, copy.channel))
  {
    NamesDiffer(prefix, copy.channel, dlq, copy.channel);
  }

  function Settling(store: Store, q: string, tag: nat, c: nat, home: Option<string>, acked: bool): Store
    requires Open(store, q, tag)
  {
    Store(Put(store.queues, if home.Some? then {home.value} else {}, c),
          store.unacked[q := store.unacked[q] - {tag}],
          if acked then store.acked[q := store.acked[q] + multiset{c}] else store.acked)
  }

  lemma SettlingKeeps(store: Store, q: string, tag: nat, c: nat, home: Option<string>, acked: bool)
    requires Open(store, q, tag)
    ensures var next := Settling(store, q, tag, c, home, acked);
            next.queues.Keys == store.queues.Keys && next.unacked.Keys == store.unacked.Keys && next.acked.Keys == store.acked.Keys
  {
  }

  /** A settled message: its delivery is closed, and it is acked, or put where its place says. */
  lemma MirrorsSettle(prefix: string, dlq: string, store: Store, s: State, t: State, c: nat, tag: nat)
    requires prefix != dlq && Wf(s) && Mirrors(prefix, dlq, store, s) && Settles(s, t, c, tag)
    ensures var q := QueueName(prefix, s.copies[c].channel);
            && Open(store, q, tag) && store.unacked[q][tag] == c
            && Mirrors(prefix, dlq, Settling(store, q, tag, c, Home(prefix, dlq, t.copies[c]), t.copies[c].place == Acked), t)
  {
    Opened(prefix, dlq, store, s, c, tag);
    SettlingKeeps(store, QueueName(prefix, s.copies[c].channel), tag, c, Home(prefix, dlq, t.copies[c]), t.copies[c].place == Acked);
    QueueMove(prefix, dlq, store.queues, s.copies, c, t.copies[c]);
    AckedAdd(prefix, store.acked, s.copies, c, t.copies[c]);
    UnackedClose(prefix, store.unacked, s, t, c, tag);
  }

  lemma MirrorsAck(prefix: string, dlq: string, store: Store, s: State, t: State, c: nat, tag: nat)
    requires prefix != dlq && Wf(s) && Mirrors(prefix, dlq, store, s) && Settles(s, t, c, tag) && t.copies[c].place == Acked
    ensures Mirrors(prefix, dlq, Ack(store, QueueName(prefix, s.copies[c].channel), tag), t)
  {
    MirrorsSettle(prefix, dlq, store, s, t, c, tag);
    PutOne(store.queues, "", c);
  }

  lemma MirrorsRequeue(prefix: string, dlq: string, store: Store, s: State, t: State, c: nat, tag: nat)
    requires prefix != dlq && Wf(s) && Mirrors(prefix, dlq, store, s) && Settles(s, t, c, tag) && t.copies[c].place == Ready
    ensures Mirrors(prefix, dlq, Requeue(store, QueueName(prefix, s.copies[c].channel), tag), t)
  {
    MirrorsSettle(prefix, dlq, store, s, t, c, tag);
    PutOne(store.queues, QueueName(prefix, s.copies[c].channel), c);
  }

  /** The bindings take a discarded message of a channel's queue to that channel's dead-letter queue. */
  lemma DiscardGoesTo(prefix: string, dlq: string, store: Store, ch: Channel, tag: nat)
    requires prefix != dlq && Open(store, QueueName(prefix, ch), tag)
    ensures var (q, d) := (QueueName(prefix, ch), QueueName(dlq, ch));
            Discard(Standard(prefix, dlq), store, q, tag) == Settling(store, q, tag, store.unacked[q][tag], Some(d), false)
  {
    Layouts(prefix, dlq, ch);
  }

  lemma DiscardMirrors(prefix: string, dlq: string, store: Store, ch: Channel, tag: nat, c: nat, home: Option<string>, acked: bool, t: State)
    requires prefix != dlq && Open(store, QueueName(prefix, ch), tag) && store.unacked[QueueName(prefix, ch)][tag] == c
    requires home == Some(QueueName(dlq, ch)) && !acked
    requires Mirrors(prefix, dlq, Settling(store, QueueName(prefix, ch), tag, c, home, acked), t)
    ensures Mirrors(prefix, dlq, Discard(Standard(prefix, dlq), store, QueueName(prefix, ch), tag), t)
  {
    DiscardGoesTo(prefix, dlq, store, ch, tag);
  }

  lemma MirrorsDiscard(prefix: string, dlq: string, store: Store, s: State, t: State, c: nat, tag: nat)
    requires prefix != dlq && Wf(s) && Mirrors(prefix, dlq, store, s) && Settles(s, t, c, tag) && t.copies[c].place == Dead
    ensures Mirrors(prefix, dlq, Discard(Standard(prefix, dlq), store, QueueName(prefix, s.copies[c].channel), tag), t)
  {
    MirrorsSettle(prefix, dlq, store, s, t, c, tag);
    DiscardMirrors(prefix, dlq, store, s.copies[c].channel, tag, c, Home(prefix, dlq, t.copies[c]), t.copies[c].place == Acked, t);
  }

  /** A step that moves no message. */
  lemma MirrorsStill(prefix: string, dlq: string, store: Store, s: State, t: State)
    requires Mirrors(prefix, dlq, store, s) && SamePlaces(s, t)
    ensures Mirrors(prefix, dlq, store, t)
  {
    StillQueues(prefix, dlq, store.queues, s.copies, t.copies);
    StillAcked(prefix, store.acked, s.copies, t.copies);
    StillUnacked(prefix, store.unacked, s, t);
  }

  predicate SamePlaces(s: State, t: State) {
    && |t.copies| == |s.copies| && |t.deliveries| == |s.deliveries|
    && (forall c | 0 <= c < |s.copies| :: t.copies[c].place == s.copies[c].place && t.copies[c].channel == s.copies[c].channel)
    && (forall d | 0 <= d < |s.deliveries| :: t.deliveries[d].copy == s.deliveries[d].copy)
  }

  predicate SamePlace(a: Copy, b: Copy) { b.place == a.place && b.channel == a.channel }

  lemma StillQueues(prefix: string, dlq: string, queues: map<string, multiset<nat>>, a: seq<Copy>, b: seq<Copy>)
    requires QueuesMatch(prefix, dlq, queues, a) && |a| == |b| && forall c | 0 <= c < |a| :: SamePlace(a[c], b[c])
    ensures QueuesMatch(prefix, dlq, queues, b)
  {
    forall q, c: nat ensures Waiting(prefix, dlq, b, q, c) == Waiting(prefix, dlq, a, q, c) {
      if c < |a| { assert SamePlace(a[c], b[c]); }
    }
  }

  lemma StillAcked(prefix: string, acked: map<string, multiset<nat>>, a: seq<Copy>, b: seq<Copy>)
    requires AckedMatch(prefix, acked, a) && |a| == |b| && forall c | 0 <= c < |a| :: SamePlace(a[c], b[c])
    ensures AckedMatch(prefix, acked, b)
  {
    forall q, c: nat ensures Finished(prefix, b, q, c) == Finished(prefix, a, q, c) {
      if c < |a| { assert SamePlace(a[c], b[c]); }
    }
  }

  lemma StillUnacked(prefix: string, unacked: map<string, map<nat, nat>>, s: State, t: State)
    requires UnackedMatch(prefix, unacked, s) && SamePlaces(s, t)
    ensures UnackedMatch(prefix, unacked, t)
  {
    forall q, k: nat ensures OpenAt(prefix, t, q, k) <==> OpenAt(prefix, s, q, k) {}
  }

  /** A worker moves its message only by an ack or nack that gets through while it holds it. */
  lemma WorkMoves(cfg: Config, s: State, d: nat, input: Input)
    requires d < |s.deliveries| && s.deliveries[d].copy < |s.copies| && WfDelivery(s, s.deliveries[d])
    ensures var (m, copy, pc) := (WorkMove(cfg, s, d, input), s.copies[s.deliveries[d].copy], s.deliveries[d].pc);
            && m.copy.channel == copy.channel
            && m.copy.place == if copy.place == Unacked(d) && input == Plain(true) && pc.AtAck? then Acked
                               else if copy.place == Unacked(d) && input == Plain(true) && pc.AtNackRetry? then Ready
                               else if copy.place == Unacked(d) && input == Plain(true) && pc.AtNackDead? then Dead
                               else copy.place
  {
  }

  lemma ClosedIsClosed(prefix: string, dlq: string, store: Store, s: State, d: nat)
    requires prefix != dlq && Wf(s) && Mirrors(prefix, dlq, store, s) && d < |s.deliveries| && s.deliveries[d].copy < |s.copies|
    requires s.copies[s.deliveries[d].copy].place != Unacked(d)
    ensures !Open(store, QueueName(prefix, s.copies[s.deliveries[d].copy].channel), d)
  {
    assert !OpenAt(prefix, s, QueueName(prefix, s.copies[s.deliveries[d].copy].channel), d);
  }

  lemma MirrorsWork(cfg: Config, prefix: string, dlq: string, store: Store, s: State, d: nat, input: Input)
    requires prefix != dlq && Wf(s) && Mirrors(prefix, dlq, store, s)
    ensures var t := Step(cfg, s, Work(d, input));
            Mirrors(prefix, dlq, Follow(Standard(prefix, dlq), prefix, store, s, Work(d, input), t), t)
  {
    if d < |s.deliveries| {
      var t := Step(cfg, s, Work(d, input));
      WorkSettles(cfg, s, d, input);
      if Landed(s, d, t) && input == Plain(true) {
        MirrorsSettled(prefix, dlq, store, s, d, t);
      } else {
        FollowsNothing(prefix, dlq, store, s, d, input, t);
        MirrorsStill(prefix, dlq, store, s, t);
      }
    }
  }

  /** The message that `d` held is where its ack or nack puts it. */
  ghost predicate Landed(s: State, d: nat, t: State)
    requires d < |s.deliveries|
  {
    && s.deliveries[d].copy < |s.copies| && Settles(s, t, s.deliveries[d].copy, d)
    && var (pc, place) := (s.deliveries[d].pc, t.copies[s.deliveries[d].copy].place);
       (pc.AtAck? && place == Acked) || (pc.AtNackRetry? && place == Ready) || (pc.AtNackDead? && place == Dead)
  }

  lemma WorkSettles(cfg: Config, s: State, d: nat, input: Input)
    requires Wf(s) && d < |s.deliveries|
    ensures var (t, pc) := (Step(cfg, s, Work(d, input)), s.deliveries[d].pc);
            && s.deliveries[d].copy < |s.copies|
            && ((Landed(s, d, t) && input == Plain(true))
                || (SamePlaces(s, t)
                    && (s.copies[s.deliveries[d].copy].place == Unacked(d) ==>
                          input != Plain(true) || !(pc.AtAck? || pc.AtNackRetry? || pc.AtNackDead?))))
  {
    assert WfDelivery(s, s.deliveries[d]);
    WorkMoves(cfg, s, d, input);
  }

  /** A step that leaves its message in place asks nothing of the broker that has an effect. */
  lemma FollowsNothing(prefix: string, dlq: string, store: Store, s: State, d: nat, input: Input, t: State)
    requires prefix != dlq && Wf(s) && Mirrors(prefix, dlq, store, s) && d < |s.deliveries| && s.deliveries[d].copy < |s.copies|
    requires var (place, pc) := (s.copies[s.deliveries[d].copy].place, s.deliveries[d].pc);
             place == Unacked(d) ==> input != Plain(true) || !(pc.AtAck? || pc.AtNackRetry? || pc.AtNackDead?)
    ensures Follow(Standard(prefix, dlq), prefix, store, s, Work(d, input), t) == store
  {
    if s.copies[s.deliveries[d].copy].place != Unacked(d) { ClosedIsClosed(prefix, dlq, store, s, d); }
  }

  lemma MirrorsSettled(prefix: string, dlq: string, store: Store, s: State, d: nat, t: State)
    requires prefix != dlq && Wf(s) && Mirrors(prefix, dlq, store, s) && d < |s.deliveries|
    requires Landed(s, d, t)
    ensures Mirrors(prefix, dlq, Settle(Standard(prefix, dlq), prefix, store, s, d), t)
  {
    var (c, pc) := (s.deliveries[d].copy, s.deliveries[d].pc);
    if pc.AtAck? {
      MirrorsAck(prefix, dlq, store, s, t, c, d);
    } else if pc.AtNackRetry? {
      MirrorsRequeue(prefix, dlq, store, s, t, c, d);
    } else {
      MirrorsDiscard(prefix, dlq, store, s, t, c, d);
    }
  }

  lemma MirrorsStep(cfg: Config, prefix: string, dlq: string, store: Store, s: State, e: Event)
    requires prefix != dlq && Wf(s) && Mirrors(prefix, dlq, store, s)
    ensures var t := Step(cfg, s, e); Mirrors(prefix, dlq, Follow(Standard(prefix, dlq), prefix, store, s, e, t), t)
  {
    var t := Step(cfg, s, e);
    if e.Work? {
      MirrorsWork(cfg, prefix, dlq, store, s, e.delivery, e.input);
    } else if e.Deliver? {
      if e.copy < |s.copies| { MirrorsTake(prefix, dlq, store, s, e.copy); }
    } else if e.Lose? {
      MirrorsLose(cfg, prefix, dlq, store, s, e.copy);
    } else {
      PublisherSteps(cfg, s, e);
      MirrorsPublisher(prefix, dlq, store, s, e, t);
    }
  }

  lemma MirrorsLose(cfg: Config, prefix: string, dlq: string, store: Store, s: State, c: nat)
    requires prefix != dlq && Wf(s) && Mirrors(prefix, dlq, store, s)
    ensures var t := Step(cfg, s, Lose(c)); Mirrors(prefix, dlq, Follow(Standard(prefix, dlq), prefix, store, s, Lose(c), t), t)
  {
    if c < |s.copies| && s.copies[c].place.Unacked? {
      MirrorsRequeue(prefix, dlq, store, s, Step(cfg, s, Lose(c)), c, s.copies[c].place.delivery);
    }
  }

  lemma MirrorsPublisher(prefix: string, dlq: string, store: Store, s: State, e: Event, t: State)
    requires prefix != dlq && Wf(s) && Mirrors(prefix, dlq, store, s) && ByPublisher(e) && PublisherShape(s, t)
    ensures Mirrors(prefix, dlq, Follow(Standard(prefix, dlq), prefix, store, s, e, t), t)
  {
    if t.copies == s.copies {
      MirrorsStill(prefix, dlq, store, s, t);
    } else {
      MirrorsPublish(prefix, dlq, store, s, t);
    }
  }

  lemma {:induction false} MirrorsAlways(cfg: Config, prefix: string, dlq: string, schedulers: nat, es: seq<Event>)
    requires prefix != dlq
    ensures Mirrors(prefix, dlq, StoreAfter(cfg, Standard(prefix, dlq), prefix, schedulers, es), After(cfg, schedulers, es))
  {
    if es != [] {
      var front := es[..|es| - 1];
      AfterWf(cfg, schedulers, front);
      MirrorsAlways(cfg, prefix, dlq, schedulers, front);
      MirrorsStep(cfg, prefix, dlq, StoreAfter(cfg, Standard(prefix, dlq), prefix, schedulers, front),
                  After(cfg, schedulers, front), es[|es| - 1]);
    }
  }

  // ---------------------------------------------------------------- results

  /** The open deliveries of a message. */
  function Holders(unacked: map<nat, nat>, c: nat): set<nat> {
    set tag | tag in unacked && unacked[tag] == c
  }

  /** How often a message is in the containers of one queue. */
  function Times(store: Store, q: string, c: nat): nat
    requires Holds(store, q)
  {
    store.queues[q][c] + |Holders(store.unacked[q], c)| + store.acked[q][c]
  }

  lemma HoldersAre(prefix: string, unacked: map<string, map<nat, nat>>, s: State, q: string, c: nat)
    requires Wf(s) && UnackedMatch(prefix, unacked, s) && q in unacked
    ensures Holders(unacked[q], c)
            == if c < |s.copies| && s.copies[c].place.Unacked? && QueueName(prefix, s.copies[c].channel) == q
               then {s.copies[c].place.delivery} else {}
  {
    forall tag | tag in unacked[q] && unacked[q][tag] == c
      ensures c < |s.copies| && s.copies[c].place == Unacked(tag) && QueueName(prefix, s.copies[c].channel) == q
    {
      assert OpenAt(prefix, s, q, tag);
    }
    if c < |s.copies| && s.copies[c].place.Unacked? && QueueName(prefix, s.copies[c].channel) == q {
      assert OpenAt(prefix, s, q, s.copies[c].place.delivery);
    }
  }

  /** In every run, after any crashes and failures, each published message is in exactly one place:
      ready in its channel's queue, open at one consumer of that queue, acked there, or in the
      dead-letter queue of the same channel. It is nowhere else, and nowhere twice. The channel of a
      notification's message is the one of its row. */
  lemma EveryMessageIsInOnePlace(cfg: Config, prefix: string, dlq: string, schedulers: nat, es: seq<Event>, c: nat, q: string)
    requires prefix != dlq && c < |After(cfg, schedulers, es).copies| && q in Standard(prefix, dlq).queues
    ensures var (store, ch) := (StoreAfter(cfg, Standard(prefix, dlq), prefix, schedulers, es),
                                After(cfg, schedulers, es).copies[c].channel);
            var (own, dead) := (QueueName(prefix, ch), QueueName(dlq, ch));
            && Holds(store, own) && Holds(store, dead) && Holds(store, q)
            && Times(store, own, c) + Times(store, dead, c) == 1
            && Times(store, dead, c) == store.queues[dead][c]
            && (q != own && q != dead ==> Times(store, q, c) == 0)
    ensures var (rows, copy) := (After(cfg, schedulers, es).rows, After(cfg, schedulers, es).copies[c]);
            copy.body.Note? ==> copy.body.id in rows && copy.channel == rows[copy.body.id].channel
  {
    Provenance.MessagesMatchRows(cfg, schedulers, es);
    assert Provenance.OwnMessage(After(cfg, schedulers, es).rows, After(cfg, schedulers, es).copies[c]);
    var (store, s) := (StoreAfter(cfg, Standard(prefix, dlq), prefix, schedulers, es), After(cfg, schedulers, es));
    var ch := s.copies[c].channel;
    AfterWf(cfg, schedulers, es);
    MirrorsAlways(cfg, prefix, dlq, schedulers, es);
    Layouts(prefix, dlq, ch);
    TimesAre(prefix, dlq, store, s, c, QueueName(prefix, ch));
    TimesAre(prefix, dlq, store, s, c, QueueName(dlq, ch));
    TimesAre(prefix, dlq, store, s, c, q);
  }

  lemma TimesAre(prefix: string, dlq: string, store: Store, s: State, c: nat, q: string)
    requires prefix != dlq && Wf(s) && Mirrors(prefix, dlq, store, s) && c < |s.copies| && q in Standard(prefix, dlq).queues
    ensures var copy := s.copies[c];
            && Holds(store, q)
            && store.queues[q][c] == Waiting(prefix, dlq, s.copies, q, c)
            && Times(store, q, c) == if copy.place == Dead then (if q == QueueName(dlq, copy.channel) then 1 else 0)
                                     else (if q == QueueName(prefix, copy.channel) then 1 else 0)
  {
    HoldersAre(prefix, store.unacked, s, q, c);
  }

  /** All that is in the containers of a queue and of its dead-letter queue. */
  function Load(store: Store, q: string, dead: string): nat
    requires Holds(store, q) && dead in store.queues
  {
    |store.queues[q]| + |store.unacked[q]| + |store.acked[q]| + |store.queues[dead]|
  }

  lemma CloseSize(unacked: map<nat, nat>, tag: nat)
    requires tag in unacked
    ensures |unacked - {tag}| == |unacked| - 1
  {
    assert (unacked - {tag}).Keys == unacked.Keys - {tag};
    assert |unacked.Keys| == |unacked| && |(unacked - {tag}).Keys| == |unacked - {tag}|;
  }

  lemma OpenSize(unacked: map<nat, nat>, tag: nat, message: nat)
    requires tag !in unacked
    ensures |Opening(unacked, tag, message)| == |unacked| + 1
  {
    assert Opening(unacked, tag, message).Keys == unacked.Keys + {tag};
    assert |unacked.Keys| == |unacked| && |Opening(unacked, tag, message).Keys| == |Opening(unacked, tag, message)|;
  }

  /** Messages published on a channel. */
  function OnChannel(ch: Channel): Copy -> nat { (c: Copy) => if c.channel == ch then 1 else 0 }

  ghost predicate Complete(prefix: string, dlq: string, store: Store, s: State, ch: Channel) {
    && Holds(store, QueueName(prefix, ch)) && QueueName(dlq, ch) in store.queues
    && Load(store, QueueName(prefix, ch), QueueName(dlq, ch)) == Total(s.copies, OnChannel(ch))
  }

  lemma NamesApart(prefix: string, dlq: string, a: Channel, b: Channel)
    requires prefix != dlq
    ensures QueueName(prefix, a) != QueueName(dlq, b)
    ensures (QueueName(prefix, a) == QueueName(prefix, b) <==> a == b) && (QueueName(dlq, a) == QueueName(dlq, b) <==> a == b)
  {
    NamesDiffer(prefix, a, dlq, b);
    NamesDiffer(prefix, a, prefix, b);
    NamesDiffer(dlq, a, dlq, b);
  }

  lemma LoadOfPublish(prefix: string, dlq: string, store: Store, to: Channel, c: nat, ch: Channel)
    requires prefix != dlq && SameDomain(Standard(prefix, dlq), store)
    ensures var (layout, q, d) := (Standard(prefix, dlq), QueueName(prefix, ch), QueueName(dlq, ch));
            var next := Publish(layout, store, PublishKey(to), c);
            && Holds(store, q) && d in store.queues && Holds(next, q) && d in next.queues
            && Load(next, q, d) == Load(store, q, d) + if to == ch then 1 else 0
  {
    Layouts(prefix, dlq, to);
    Layouts(prefix, dlq, ch);
    NamesApart(prefix, dlq, to, ch);
    NamesApart(prefix, dlq, ch, to);
  }

  /** What happens in the containers of one queue keeps the load of each, if it keeps its own. */
  lemma LoadAfter(store: Store, own: string, q: string, d: string, next: Store)
    requires Holds(store, own) && Holds(store, q) && d in store.queues && own != d
    requires next.queues.Keys == store.queues.Keys && next.unacked.Keys == store.unacked.Keys && next.acked.Keys == store.acked.Keys
    requires forall x | x in store.queues && x != own :: next.queues[x] == store.queues[x]
    requires forall x | x in store.unacked && x != own :: next.unacked[x] == store.unacked[x]
    requires forall x | x in store.acked && x != own :: next.acked[x] == store.acked[x]
    requires |next.queues[own]| + |next.unacked[own]| + |next.acked[own]| == |store.queues[own]| + |store.unacked[own]| + |store.acked[own]|
    ensures Holds(next, q) && d in next.queues && Load(next, q, d) == Load(store, q, d)
  {
  }

  lemma TakeLoad(store: Store, own: string, c: nat, tag: nat, q: string, d: string)
    requires Holds(store, own) && Holds(store, q) && d in store.queues && own != d && !Open(store, own, tag)
    ensures var next := Take(store, own, c, tag); Holds(next, q) && d in next.queues && Load(next, q, d) == Load(store, q, d)
  {
    if c in store.queues[own] {
      OpenSize(store.unacked[own], tag, c);
      LoadAfter(store, own, q, d, Take(store, own, c, tag));
    }
  }

  lemma AckLoad(store: Store, own: string, tag: nat, q: string, d: string)
    requires Holds(store, own) && Holds(store, q) && d in store.queues && own != d
    ensures var next := Ack(store, own, tag); Holds(next, q) && d in next.queues && Load(next, q, d) == Load(store, q, d)
  {
    if Open(store, own, tag) {
      CloseSize(store.unacked[own], tag);
      LoadAfter(store, own, q, d, Ack(store, own, tag));
    }
  }

  lemma RequeueLoad(store: Store, own: string, tag: nat, q: string, d: string)
    requires Holds(store, own) && Holds(store, q) && d in store.queues && own != d
    ensures var next := Requeue(store, own, tag); Holds(next, q) && d in next.queues && Load(next, q, d) == Load(store, q, d)
  {
    if Open(store, own, tag) {
      CloseSize(store.unacked[own], tag);
      LoadAfter(store, own, q, d, Requeue(store, own, tag));
    }
  }

  /** A discarded message moves between two containers of the same channel. */
  lemma DiscardLoad(store: Store, own: string, to: string, tag: nat, q: string, d: string)
    requires Open(store, own, tag) && to in store.queues && Holds(store, q) && d in store.queues
    requires own != d && to != q && (own == q <==> to == d)
    ensures var next := Settling(store, own, tag, store.unacked[own][tag], Some(to), false);
            Holds(next, q) && d in next.queues && Load(next, q, d) == Load(store, q, d)
  {
    var next := Settling(store, own, tag, store.unacked[own][tag], Some(to), false);
    PutSize(store.queues, to, store.unacked[own][tag], q);
    PutSize(store.queues, to, store.unacked[own][tag], d);
    if own == q { CloseSize(store.unacked[own], tag); }
    assert next.acked == store.acked && |next.unacked[q]| == |store.unacked[q]| - if own == q then 1 else 0;
  }

  lemma PutSize(queues: map<string, multiset<nat>>, to: string, message: nat, x: string)
    requires x in queues
    ensures x in Put(queues, {to}, message) && |Put(queues, {to}, message)[x]| == |queues[x]| + if x == to then 1 else 0
  {
  }

  ghost predicate SameLoad(prefix: string, dlq: string, store: Store, next: Store, ch: Channel) {
    var (q, d) := (QueueName(prefix, ch), QueueName(dlq, ch));
    Holds(store, q) && d in store.queues && Holds(next, q) && d in next.queues && Load(next, q, d) == Load(store, q, d)
  }

  /** The queues of two channels. */
  lemma QueuesOfBoth(prefix: string, dlq: string, store: Store, at: Channel, ch: Channel)
    requires prefix != dlq && SameDomain(Standard(prefix, dlq), store)
    ensures var (own, to, q, d) := (QueueName(prefix, at), QueueName(dlq, at), QueueName(prefix, ch), QueueName(dlq, ch));
            && Holds(store, own) && to in store.queues && Holds(store, q) && d in store.queues
            && own != d && to != q && (own == q <==> to == d)
  {
    QueueOf(prefix, dlq, store, at);
    QueueOf(prefix, dlq, store, ch);
    NamesApart(prefix, dlq, at, ch);
    NamesApart(prefix, dlq, ch, at);
  }

  lemma LoadOfTake(prefix: string, dlq: string, store: Store, at: Channel, c: nat, tag: nat, ch: Channel)
    requires prefix != dlq && SameDomain(Standard(prefix, dlq), store) && !Open(store, QueueName(prefix, at), tag)
    ensures SameLoad(prefix, dlq, store, Take(store, QueueName(prefix, at), c, tag), ch)
  {
    QueuesOfBoth(prefix, dlq, store, at, ch);
    TakeLoad(store, QueueName(prefix, at), c, tag, QueueName(prefix, ch), QueueName(dlq, ch));
  }

  lemma LoadOfAck(prefix: string, dlq: string, store: Store, at: Channel, tag: nat, ch: Channel)
    requires prefix != dlq && SameDomain(Standard(prefix, dlq), store)
    ensures SameLoad(prefix, dlq, store, Ack(store, QueueName(prefix, at), tag), ch)
  {
    QueuesOfBoth(prefix, dlq, store, at, ch);
    AckLoad(store, QueueName(prefix, at), tag, QueueName(prefix, ch), QueueName(dlq, ch));
  }

  lemma LoadOfRequeue(prefix: string, dlq: string, store: Store, at: Channel, tag: nat, ch: Channel)
    requires prefix != dlq && SameDomain(Standard(prefix, dlq), store)
    ensures SameLoad(prefix, dlq, store, Requeue(store, QueueName(prefix, at), tag), ch)
  {
    QueuesOfBoth(prefix, dlq, store, at, ch);
    RequeueLoad(store, QueueName(prefix, at), tag, QueueName(prefix, ch), QueueName(dlq, ch));
  }

  lemma LoadOfDiscard(prefix: string, dlq: string, store: Store, at: Channel, tag: nat, ch: Channel)
    requires prefix != dlq && SameDomain(Standard(prefix, dlq), store)
    ensures SameLoad(prefix, dlq, store, Discard(Standard(prefix, dlq), store, QueueName(prefix, at), tag), ch)
  {
    QueuesOfBoth(prefix, dlq, store, at, ch);
    if Open(store, QueueName(prefix, at), tag) {
      DiscardGoesTo(prefix, dlq, store, at, tag);
      DiscardLoad(store, QueueName(prefix, at), QueueName(dlq, at), tag, QueueName(prefix, ch), QueueName(dlq, ch));
    }
  }

  lemma LoadOfSettle(prefix: string, dlq: string, store: Store, s: State, d: nat, ch: Channel)
    requires prefix != dlq && SameDomain(Standard(prefix, dlq), store)
    ensures SameLoad(prefix, dlq, store, Settle(Standard(prefix, dlq), prefix, store, s, d), ch)
  {
    QueueOf(prefix, dlq, store, ch);
    if d < |s.deliveries| && s.deliveries[d].copy < |s.copies| {
      var (at, pc) := (s.copies[s.deliveries[d].copy].channel, s.deliveries[d].pc);
      if pc.AtAck? {
        LoadOfAck(prefix, dlq, store, at, d, ch);
      } else if pc.AtNackRetry? {
        LoadOfRequeue(prefix, dlq, store, at, d, ch);
      } else if pc.AtNackDead? {
        LoadOfDiscard(prefix, dlq, store, at, d, ch);
      }
    }
  }

  lemma CompleteDeliver(prefix: string, dlq: string, store: Store, s: State, c: nat, ch: Channel)
    requires prefix != dlq && Wf(s) && Mirrors(prefix, dlq, store, s) && c < |s.copies|
    ensures SameLoad(prefix, dlq, store, Take(store, QueueName(prefix, s.copies[c].channel), c, |s.deliveries|), ch)
  {
    assert !OpenAt(prefix, s, QueueName(prefix, s.copies[c].channel), |s.deliveries|);
    LoadOfTake(prefix, dlq, store, s.copies[c].channel, c, |s.deliveries|, ch);
  }

  /** An event that publishes nothing keeps every channel's load. */
  lemma LoadOfEvent(prefix: string, dlq: string, store: Store, s: State, e: Event, t: State, ch: Channel)
    requires prefix != dlq && Wf(s) && Mirrors(prefix, dlq, store, s) && |t.copies| == |s.copies|
    ensures SameLoad(prefix, dlq, store, Follow(Standard(prefix, dlq), prefix, store, s, e, t), ch)
  {
    NoLoad(prefix, dlq, store, ch);
    var next := Follow(Standard(prefix, dlq), prefix, store, s, e, t);
    if next != store {
      if e.Work? {
        LoadOfSettle(prefix, dlq, store, s, e.delivery, ch);
      } else if e.Deliver? {
        CompleteDeliver(prefix, dlq, store, s, e.copy, ch);
      } else {
        LoadOfRequeue(prefix, dlq, store, s.copies[e.copy].channel, s.copies[e.copy].place.delivery, ch);
      }
    }
  }

  lemma NoLoad(prefix: string, dlq: string, store: Store, ch: Channel)
    requires prefix != dlq && SameDomain(Standard(prefix, dlq), store)
    ensures SameLoad(prefix, dlq, store, store, ch)
  {
    QueueOf(prefix, dlq, store, ch);
  }

  lemma CompleteStep(cfg: Config, prefix: string, dlq: string, store: Store, s: State, e: Event, ch: Channel)
    requires prefix != dlq && Wf(s) && Mirrors(prefix, dlq, store, s) && Complete(prefix, dlq, store, s, ch)
    ensures var t := Step(cfg, s, e); Complete(prefix, dlq, Follow(Standard(prefix, dlq), prefix, store, s, e, t), t, ch)
  {
    var t := Step(cfg, s, e);
    SameChannels(cfg, s, e, ch);
    CompleteAfter(prefix, dlq, store, s, e, t, ch);
  }

  lemma CompleteAfter(prefix: string, dlq: string, store: Store, s: State, e: Event, t: State, ch: Channel)
    requires prefix != dlq && Wf(s) && Mirrors(prefix, dlq, store, s) && Complete(prefix, dlq, store, s, ch)
    requires |s.copies| <= |t.copies| && (e.Deliver? || e.Lose? || e.Work? ==> |t.copies| == |s.copies|)
    requires Total(t.copies, OnChannel(ch))
             == Total(s.copies, OnChannel(ch)) + if |t.copies| > |s.copies| && t.copies[|s.copies|].channel == ch then 1 else 0
    ensures Complete(prefix, dlq, Follow(Standard(prefix, dlq), prefix, store, s, e, t), t, ch)
  {
    if |t.copies| > |s.copies| {
      LoadOfPublish(prefix, dlq, store, t.copies[|s.copies|].channel, |s.copies|, ch);
    } else {
      LoadOfEvent(prefix, dlq, store, s, e, t, ch);
    }
  }

  lemma SameChannels(cfg: Config, s: State, e: Event, ch: Channel)
    requires Wf(s)
    ensures var t := Step(cfg, s, e);
            && |s.copies| <= |t.copies| <= |s.copies| + 1
            && (e.Deliver? || e.Lose? || e.Work? ==> |t.copies| == |s.copies|)
            && Total(t.copies, OnChannel(ch))
               == Total(s.copies, OnChannel(ch)) + if |t.copies| > |s.copies| && t.copies[|s.copies|].channel == ch then 1 else 0
  {
    var t := Step(cfg, s, e);
    StepKeeps(cfg, s, e);
    CopyOrigin(cfg, s, e);
    var front := t.copies[..|s.copies|];
    forall c | 0 <= c < |s.copies| ensures OnChannel(ch)(s.copies[c]) == OnChannel(ch)(front[c]) {
      assert CopyLater(s.copies[c], t.copies[c]);
    }
    TotalSame(s.copies, front, OnChannel(ch), OnChannel(ch));
    if |t.copies| == |s.copies| { assert front == t.copies; }
  }

  /** No step loses or doubles a message: in every run, what is ready, open at a consumer, acked, and
      dead-lettered on a channel adds up to what was published on it. */
  lemma {:induction false} ChannelsAddUp(cfg: Config, prefix: string, dlq: string, schedulers: nat, es: seq<Event>, ch: Channel)
    requires prefix != dlq
    ensures var (store, s) := (StoreAfter(cfg, Standard(prefix, dlq), prefix, schedulers, es), After(cfg, schedulers, es));
            var (q, dead) := (QueueName(prefix, ch), QueueName(dlq, ch));
            && Holds(store, q) && dead in store.queues
            && |store.queues[q]| + |store.unacked[q]| + |store.acked[q]| + |store.queues[dead]| == Total(s.copies, OnChannel(ch))
  {
    if es == [] {
      Layouts(prefix, dlq, ch);
    } else {
      var front := es[..|es| - 1];
      var (store, s) := (StoreAfter(cfg, Standard(prefix, dlq), prefix, schedulers, front), After(cfg, schedulers, front));
      AfterWf(cfg, schedulers, front);
      MirrorsAlways(cfg, prefix, dlq, schedulers, front);
      ChannelsAddUp(cfg, prefix, dlq, schedulers, front, ch);
      CompleteStep(cfg, prefix, dlq, store, s, es[|es| - 1], ch);
    }
  }
}
