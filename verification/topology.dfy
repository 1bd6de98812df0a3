/** setup in internal/queue/publisher.go: how the exchange routes messages to the channel queues
    and, from there, to the dead-letter queues. */
module Topology {
  import opened Model

  function ChannelName(ch: Channel): (name: string)
    ensures '.' !in name
  {
    match ch
    case Sms => "sms"
    case Email => "email"
    case Push => "push"
  }

  const CHANNELS := [Sms, Email, Push]

  function QueueName(prefix: string, ch: Channel): string { prefix + "." + ChannelName(ch) }

  function PublishKey(ch: Channel): string { "notification." + ChannelName(ch) }

  function DeadKey(ch: Channel): string { "dlq." + ChannelName(ch) }

  /** The arguments of a queue: none, or a priority limit and where to dead-letter. */
  datatype Args = NoArgs | DeadLetter(maxPriority: int, key: string)

  /** One exchange. The routing keys used have no wildcards, so a topic binding matches its own key. */
  datatype Layout = Layout(queues: map<string, Args>, bindings: set<(string, string)>)

  /** The queues that a message with this key goes to. */
  function Routing(layout: Layout, key: string): set<string> {
    set b | b in layout.bindings && b.1 == key :: b.0
  }

  /** A queue may be declared again only with the arguments it has. */
  predicate CanDeclare(layout: Layout, name: string, args: Args) {
    name in layout.queues ==> layout.queues[name] == args
  }

  /** What the loop body adds for one channel. */
  function AddChannel(layout: Layout, queuePrefix: string, dlqPrefix: string, ch: Channel): Layout {
    var (q, dlq) := (QueueName(queuePrefix, ch), QueueName(dlqPrefix, ch));
    Layout(layout.queues[dlq := NoArgs][q := DeadLetter(3, DeadKey(ch))],
           layout.bindings + {(dlq, DeadKey(ch)), (q, PublishKey(ch))})
  }

  function AddChannels(layout: Layout, queuePrefix: string, dlqPrefix: string, n: nat): Layout
    requires n <= |CHANNELS|
  {
    if n == 0 then layout else AddChannel(AddChannels(layout, queuePrefix, dlqPrefix, n - 1), queuePrefix, dlqPrefix, CHANNELS[n - 1])
  }

  // ---------------------------------------------------------------- names

  /** A text splits in one way at its last dot. */
  lemma LastDot(p: string, m: string, q: string, n: string)
    requires '.' !in m && '.' !in n && p + "." + m == q + "." + n
    ensures p == q && m == n
  {
    var x := p + "." + m;
    assert x[|p|] == '.' && (q + "." + n)[|q|] == '.';
    assert forall i | |p| < i < |x| :: x[i] == m[i - |p| - 1];
    assert forall i | |q| < i < |x| :: (q + "." + n)[i] == n[i - |q| - 1];
    assert |p| == |q|;
    assert p == x[..|p|] && q == x[..|q|];
    assert m == x[|p| + 1..] && n == x[|q| + 1..];
  }

  /** A channel name has no dot, so a queue's name determines its prefix and its channel. */
  lemma NamesDiffer(p: string, a: Channel, q: string, b: Channel)
    ensures QueueName(p, a) == QueueName(q, b) <==> p == q && a == b
  {
    if QueueName(p, a) == QueueName(q, b) {
      LastDot(p, ChannelName(a), q, ChannelName(b));
      ChannelNamesDiffer(a, b);
    }
  }

  lemma ChannelNamesDiffer(a: Channel, b: Channel)
    ensures ChannelName(a) == ChannelName(b) <==> a == b
  {
    assert "sms"[0] != "email"[0] && "sms"[0] != "push"[0] && "email"[0] != "push"[0];
    assert ChannelName(a)[0] == ChannelName(b)[0] <==> a == b;
  }

  lemma KeysDiffer(a: Channel, b: Channel)
    ensures PublishKey(a) == PublishKey(b) <==> a == b
    ensures DeadKey(a) == DeadKey(b) <==> a == b
    ensures PublishKey(a) != DeadKey(b)
  {
    ChannelNamesDiffer(a, b);
    assert PublishKey(a)[0] == 'n' && DeadKey(b)[0] == 'd';
    assert PublishKey(a)[13..] == ChannelName(a) && PublishKey(b)[13..] == ChannelName(b);
    assert DeadKey(a)[4..] == ChannelName(a) && DeadKey(b)[4..] == ChannelName(b);
  }

  lemma {:induction false} ChannelIndex(ch: Channel) returns (i: nat)
    ensures i < |CHANNELS| && CHANNELS[i] == ch
  {
    i := match ch case Sms => 0 case Email => 1 case Push => 2;
  }

  // ---------------------------------------------------------------- setup

  /** Every queue that setup declares is new or has the right arguments already. */
  predicate Compatible(layout: Layout, queuePrefix: string, dlqPrefix: string, ch: Channel) {
    CanDeclare(layout, QueueName(dlqPrefix, ch), NoArgs)
    && CanDeclare(layout, QueueName(queuePrefix, ch), DeadLetter(3, DeadKey(ch)))
  }

  /** Adding some channels does not touch the queues of another. */
  lemma {:induction false} OtherChannelsStay(layout: Layout, queuePrefix: string, dlqPrefix: string, n: nat, ch: Channel)
    requires n <= |CHANNELS| && forall i | 0 <= i < n :: CHANNELS[i] != ch
    ensures Compatible(AddChannels(layout, queuePrefix, dlqPrefix, n), queuePrefix, dlqPrefix, ch)
            <==> Compatible(layout, queuePrefix, dlqPrefix, ch)
  {
    if n > 0 {
      var other := CHANNELS[n - 1];
      OtherChannelsStay(layout, queuePrefix, dlqPrefix, n - 1, ch);
      NamesDiffer(queuePrefix, other, queuePrefix, ch);
      NamesDiffer(queuePrefix, other, dlqPrefix, ch);
      NamesDiffer(dlqPrefix, other, queuePrefix, ch);
      NamesDiffer(dlqPrefix, other, dlqPrefix, ch);
    }
  }

  class Broker {
    var layout: Layout

    constructor ()
      ensures layout == Layout(map[], {})
    {
      layout := Layout(map[], {});
    }

    method QueueDeclare(name: string, args: Args) returns (ok: bool)
      modifies this
      ensures ok <==> CanDeclare(old(layout), name, args)
      ensures layout == if ok then old(layout).(queues := old(layout).queues[name := args]) else old(layout)
    {
      if name in layout.queues && layout.queues[name] != args { return false; }
      layout := layout.(queues := layout.queues[name := args]);
      return true;
    }

    method QueueBind(name: string, key: string)
      modifies this`layout
      ensures layout == old(layout).(bindings := old(layout).bindings + {(name, key)})
    {
      layout := layout.(bindings := layout.bindings + {(name, key)});
    }

    /** setup succeeds exactly when the two prefixes differ and every queue it declares is new or
        was declared alike before; then it has added each channel's two queues and bindings. */
    method Setup(queuePrefix: string, dlqPrefix: string) returns (ok: bool)
      modifies this
      ensures ok <==> queuePrefix != dlqPrefix && forall ch :: Compatible(old(layout), queuePrefix, dlqPrefix, ch)
      ensures ok ==> layout == AddChannels(old(layout), queuePrefix, dlqPrefix, |CHANNELS|)
    {
      for i := 0 to |CHANNELS|
        invariant layout == AddChannels(old(layout), queuePrefix, dlqPrefix, i)
        invariant forall k | 0 <= k < i :: Compatible(old(layout), queuePrefix, dlqPrefix, CHANNELS[k])
        invariant i > 0 ==> queuePrefix != dlqPrefix
      {
        var ch := CHANNELS[i];
        var qName, dlqName := QueueName(queuePrefix, ch), QueueName(dlqPrefix, ch);
        ghost var before := layout;
        OtherChannelsStay(old(layout), queuePrefix, dlqPrefix, i, ch);
        NamesDiffer(queuePrefix, ch, dlqPrefix, ch);
        ok := QueueDeclare(dlqName, NoArgs);
        if !ok { return; }
        QueueBind(dlqName, DeadKey(ch));
        ok := QueueDeclare(qName, DeadLetter(3, DeadKey(ch)));
        if !ok { return; }
        QueueBind(qName, PublishKey(ch));
        assert layout == AddChannel(before, queuePrefix, dlqPrefix, ch);
      }
      forall ch ensures Compatible(old(layout), queuePrefix, dlqPrefix, ch) { var i := ChannelIndex(ch); }
      ok := true;
    }
  }

  // ---------------------------------------------------------------- what is routed where

  predicate KeyOfChannel(queuePrefix: string, dlqPrefix: string, ch: Channel, b: (string, string)) {
    b == (QueueName(dlqPrefix, ch), DeadKey(ch)) || b == (QueueName(queuePrefix, ch), PublishKey(ch))
  }

  lemma {:induction false} BindingsOf(queuePrefix: string, dlqPrefix: string, n: nat, b: (string, string))
    requires n <= |CHANNELS|
    ensures b in AddChannels(Layout(map[], {}), queuePrefix, dlqPrefix, n).bindings
            <==> exists i :: 0 <= i < n && KeyOfChannel(queuePrefix, dlqPrefix, CHANNELS[i], b)
  {
    if n > 0 {
      BindingsOf(queuePrefix, dlqPrefix, n - 1, b);
      if KeyOfChannel(queuePrefix, dlqPrefix, CHANNELS[n - 1], b) {
        assert exists i :: 0 <= i < n && KeyOfChannel(queuePrefix, dlqPrefix, CHANNELS[i], b);
      }
    }
  }

  lemma RoutesTo(queuePrefix: string, dlqPrefix: string, ch: Channel, key: string, name: string)
    requires (key == PublishKey(ch) && name == QueueName(queuePrefix, ch)) || (key == DeadKey(ch) && name == QueueName(dlqPrefix, ch))
    ensures Routing(AddChannels(Layout(map[], {}), queuePrefix, dlqPrefix, |CHANNELS|), key) == {name}
  {
    var layout := AddChannels(Layout(map[], {}), queuePrefix, dlqPrefix, |CHANNELS|);
    var i := ChannelIndex(ch);
    BindingsOf(queuePrefix, dlqPrefix, |CHANNELS|, (name, key));
    assert KeyOfChannel(queuePrefix, dlqPrefix, CHANNELS[i], (name, key));
    assert (name, key) in layout.bindings;
    forall b | b in layout.bindings && b.1 == key ensures b.0 == name {
      BindingsOf(queuePrefix, dlqPrefix, |CHANNELS|, b);
      var k :| 0 <= k < |CHANNELS| && KeyOfChannel(queuePrefix, dlqPrefix, CHANNELS[k], b);
      KeysDiffer(ch, CHANNELS[k]);
      KeysDiffer(CHANNELS[k], ch);
    }
  }

  /** The names as they are on the wire. */
  predicate Spelled(queuePrefix: string, ch: Channel) {
    match ch
    case Sms => QueueName(queuePrefix, ch) == queuePrefix + ".sms" && PublishKey(ch) == "notification.sms" && DeadKey(ch) == "dlq.sms"
    case Email => QueueName(queuePrefix, ch) == queuePrefix + ".email" && PublishKey(ch) == "notification.email" && DeadKey(ch) == "dlq.email"
    case Push => QueueName(queuePrefix, ch) == queuePrefix + ".push" && PublishKey(ch) == "notification.push" && DeadKey(ch) == "dlq.push"
  }

  lemma NamesSpelled(queuePrefix: string, ch: Channel)
    ensures Spelled(queuePrefix, ch)
  {
    var x := "." + ChannelName(ch);
    assert (queuePrefix + ".") + ChannelName(ch) == queuePrefix + x;
    assert "." + "sms" == ".sms" && "." + "email" == ".email" && "." + "push" == ".push";
    assert "notification." + "sms" == "notification.sms" && "notification." + "email" == "notification.email"
        && "notification." + "push" == "notification.push";
    assert "dlq." + "sms" == "dlq.sms" && "dlq." + "email" == "dlq.email" && "dlq." + "push" == "dlq.push";
  }

  /** On a broker set up from scratch, a published notification reaches its channel's queue and no
      other, and a message that queue dead-letters reaches that channel's dead-letter queue and no
      other; the six queues are all different and named after their channels. */
  lemma EachChannelHasItsQueues(queuePrefix: string, dlqPrefix: string, ch: Channel, other: Channel)
    requires queuePrefix != dlqPrefix
    ensures var (layout, q, dlq) := (AddChannels(Layout(map[], {}), queuePrefix, dlqPrefix, |CHANNELS|),
                                     QueueName(queuePrefix, ch), QueueName(dlqPrefix, ch));
            && Routing(layout, PublishKey(ch)) == {q}
            && q in layout.queues && layout.queues[q] == DeadLetter(3, DeadKey(ch))
            && Routing(layout, DeadKey(ch)) == {dlq}
            && dlq in layout.queues && layout.queues[dlq] == NoArgs
            && q != QueueName(dlqPrefix, other)
            && (ch != other ==> q != QueueName(queuePrefix, other) && dlq != QueueName(dlqPrefix, other))
            && Spelled(queuePrefix, ch)
  {
    NamesSpelled(queuePrefix, ch);
    RoutesTo(queuePrefix, dlqPrefix, ch, PublishKey(ch), QueueName(queuePrefix, ch));
    RoutesTo(queuePrefix, dlqPrefix, ch, DeadKey(ch), QueueName(dlqPrefix, ch));
    NamesDiffer(queuePrefix, ch, dlqPrefix, other);
    NamesDiffer(queuePrefix, ch, queuePrefix, other);
    NamesDiffer(dlqPrefix, ch, dlqPrefix, other);
    var i := ChannelIndex(ch);
    AddedHas(Layout(map[], {}), queuePrefix, dlqPrefix, |CHANNELS|, i);
  }

  /** The layout has the queues and bindings of a channel. */
  predicate HasChannel(layout: Layout, queuePrefix: string, dlqPrefix: string, ch: Channel) {
    var (q, dlq) := (QueueName(queuePrefix, ch), QueueName(dlqPrefix, ch));
    && q in layout.queues && layout.queues[q] == DeadLetter(3, DeadKey(ch))
    && dlq in layout.queues && layout.queues[dlq] == NoArgs
    && (q, PublishKey(ch)) in layout.bindings && (dlq, DeadKey(ch)) in layout.bindings
  }

  lemma {:induction false} AddedHas(layout: Layout, queuePrefix: string, dlqPrefix: string, n: nat, i: nat)
    requires queuePrefix != dlqPrefix && i < n <= |CHANNELS|
    ensures HasChannel(AddChannels(layout, queuePrefix, dlqPrefix, n), queuePrefix, dlqPrefix, CHANNELS[i])
  {
    var (ch, last) := (CHANNELS[i], CHANNELS[n - 1]);
    NamesDiffer(queuePrefix, ch, dlqPrefix, last);
    NamesDiffer(queuePrefix, ch, queuePrefix, last);
    NamesDiffer(dlqPrefix, ch, dlqPrefix, last);
    NamesDiffer(dlqPrefix, ch, queuePrefix, last);
    if i < n - 1 { AddedHas(layout, queuePrefix, dlqPrefix, n - 1, i); }
  }

  lemma {:induction false} NothingToAdd(layout: Layout, queuePrefix: string, dlqPrefix: string, n: nat)
    requires queuePrefix != dlqPrefix && n <= |CHANNELS|
    requires forall ch :: HasChannel(layout, queuePrefix, dlqPrefix, ch)
    ensures AddChannels(layout, queuePrefix, dlqPrefix, n) == layout
  {
    if n > 0 {
      NothingToAdd(layout, queuePrefix, dlqPrefix, n - 1);
      assert HasChannel(layout, queuePrefix, dlqPrefix, CHANNELS[n - 1]);
      assert AddChannel(layout, queuePrefix, dlqPrefix, CHANNELS[n - 1]) == layout;
    }
  }

  /** A publisher that starts later runs setup again: whatever else the broker had, that succeeds and
      changes nothing. */
  lemma SetupAgain(before: Layout, queuePrefix: string, dlqPrefix: string)
    requires queuePrefix != dlqPrefix
    ensures var layout := AddChannels(before, queuePrefix, dlqPrefix, |CHANNELS|);
            && (forall ch :: Compatible(layout, queuePrefix, dlqPrefix, ch))
            && AddChannels(layout, queuePrefix, dlqPrefix, |CHANNELS|) == layout
  {
    var layout := AddChannels(before, queuePrefix, dlqPrefix, |CHANNELS|);
    forall ch ensures HasChannel(layout, queuePrefix, dlqPrefix, ch) {
      var i := ChannelIndex(ch);
      AddedHas(before, queuePrefix, dlqPrefix, |CHANNELS|, i);
    }
    forall ch ensures Compatible(layout, queuePrefix, dlqPrefix, ch) { assert HasChannel(layout, queuePrefix, dlqPrefix, ch); }
    NothingToAdd(layout, queuePrefix, dlqPrefix, |CHANNELS|);
  }
}
