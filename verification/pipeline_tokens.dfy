/** Every way a notification can still reach the provider is a token: a ready copy, or a worker
    that has not heard its send accepted. Publishing a copy and losing one each make a token; a
    send that is heard accepted uses one up. */
module Tokens {
  import opened Basics
  import opened Model
  import opened Repository
  import opened Pipeline
  import opened Frame

  predicate Of(body: Body, n: Id) {
    body.Note? && body.id == n
  }

  function RetryCount(s: State, n: Id): nat {
    if n in s.rows then s.rows[n].retryCount else 0
  }

  // ---------------------------------------------------------------- counting

  function CopyOf(n: Id): Copy -> nat { (c: Copy) => if Of(c.body, n) then 1 else 0 }

  function LostOf(n: Id): Copy -> nat { (c: Copy) => if Of(c.body, n) then c.lost else 0 }

  function ReadyOf(n: Id): Copy -> nat { (c: Copy) => if Of(c.body, n) && c.place == Ready then 1 else 0 }

  predicate Unsent(pc: Pc) {
    !pc.AtMarkSent? && !pc.AtAck? && !pc.AtEnd?
  }

  function UnsentOf(n: Id): Delivery -> nat { (d: Delivery) => if Of(d.body, n) && Unsent(d.pc) then 1 else 0 }

  function SentOf(n: Id): SendRecord -> nat { (r: SendRecord) => if r.id == n && r.outcome.Delivered? then 1 else 0 }

  /** Copies of `n` ever published. */
  function Published(s: State, n: Id): nat { Total(s.copies, CopyOf(n)) }

  /** How often a copy of `n` went back to its queue because a connection was lost. */
  function Losses(s: State, n: Id): nat { Total(s.copies, LostOf(n)) }

  /** How often the provider was called for `n`: it cannot have accepted it more often. */
  function Calls(s: State, n: Id): nat { Total(s.sends, CalledFor(n)) }

  function CalledFor(n: Id): SendRecord -> nat { (r: SendRecord) => if r.id == n then 1 else 0 }

  /** Sends of `n` whose acceptance the worker heard. */
  function Successes(s: State, n: Id): nat { Total(s.sends, SentOf(n)) }

  function Live(s: State, n: Id): nat {
    Total(s.copies, ReadyOf(n)) + Total(s.deliveries, UnsentOf(n))
  }

  // ---------------------------------------------------------------- what steps can touch

  predicate IsNew(row: Row) {
    row.status == Pending && row.retryCount == 0 && row.providerMsgId.None? && row.sentAt.None? && row.lastError.None?
  }

  predicate IsNewCopy(s: State, c: Copy) {
    && c == Copy(c.body, c.channel, c.source, s.now, Ready, 0, 0, 0, false)
    && (c.body.Note? ==> c.body.id in s.rows && c.channel == s.rows[c.body.id].channel)
  }

  predicate ByPublisher(e: Event) {
    !e.Deliver? && !e.Lose? && !e.Work?
  }

  /** Whatever is not a worker's or the broker's doing leaves deliveries, sends and retry counts
      alone, adds only new rows, and adds at most one message, ready and never lost. */
  ghost predicate PublisherShape(s: State, t: State) {
    && t.deliveries == s.deliveries && t.sends == s.sends && t.readFailed == s.readFailed
    && (forall id | id in s.rows :: id in t.rows && t.rows[id].retryCount == s.rows[id].retryCount
                                    && t.rows[id].providerMsgId == s.rows[id].providerMsgId
                                    && t.rows[id].sentAt == s.rows[id].sentAt)
    && (forall id | id in t.rows && id !in s.rows :: IsNew(t.rows[id]))
    && (t.copies == s.copies
        || (|t.copies| == |s.copies| + 1 && t.copies == s.copies + [t.copies[|s.copies|]]
            && IsNewCopy(s, t.copies[|s.copies|])))
  }

  lemma {:induction false} DraftsAreNew(items: seq<Item>, answers: seq<Answer>, batch: Option<nat>, now: Time)
    requires |answers| <= |items|
    ensures forall d | d in Drafts(items, answers, batch, now) :: IsNew(d.row)
  {
    if answers != [] {
      DraftsAreNew(items, answers[..|answers| - 1], batch, now);
    }
  }

  lemma CommitAddsNewRows(s: State, i: nat, answer: Commitment)
    requires i < |s.calls|
    ensures var t := CommitStep(s, i, answer);
            && (forall id | id in s.rows :: id in t.rows && t.rows[id] == s.rows[id])
            && (forall id | id in t.rows && id !in s.rows :: IsNew(t.rows[id]))
  {
    var t, ds, call := CommitStep(s, i, answer), CallDrafts(s, i), s.calls[i];
    if InsertAll(s.rows, ds).Some? {
      InsertAllAdds(s.rows, ds);
      if |call.answers| <= |call.items| {
        DraftsAreNew(call.items, call.answers, if call.batch then Some(i) else None, s.now);
      }
      forall id | id in t.rows && id !in s.rows ensures IsNew(t.rows[id]) {
        var k :| 0 <= k < |ds| && ds[k].id == id;
        assert ds[k] in ds;
      }
    }
  }

  lemma ApiSteps(s: State, e: Event)
    requires Wf(s)
    ensures PublisherShape(s, ApiStep(s, e))
  {
    if e.Commit? && e.call < |s.calls| { CommitAddsNewRows(s, e.call, e.answer); }
  }

  lemma SchedulerSteps(cfg: Config, s: State, e: Event)
    requires Wf(s)
    ensures PublisherShape(s, SchedStep(cfg, s, e))
  {
  }

  lemma PublisherSteps(cfg: Config, s: State, e: Event)
    requires Wf(s) && ByPublisher(e)
    ensures PublisherShape(s, Step(cfg, s, e))
  {
    ApiSteps(s, e);
    SchedulerSteps(cfg, s, e);
  }

  /** A worker writes at most the row of the notification it carries, and its copy keeps its
      body and its count of losses. */
  lemma MoveShape(cfg: Config, s: State, d: nat, input: Input)
    requires d < |s.deliveries| && s.deliveries[d].copy < |s.copies|
    ensures var m, c := WorkMove(cfg, s, d, input), s.deliveries[d].copy;
            && m.copy.body == s.copies[c].body && m.copy.lost == s.copies[c].lost
            && m.rows.Keys == s.rows.Keys
            && (forall id | id in s.rows && !Of(s.deliveries[d].body, id) :: m.rows[id] == s.rows[id])
  {
  }

  // ---------------------------------------------------------------- tokens bound sends

  ghost predicate TokenInv(s: State, n: Id) {
    Successes(s, n) + Live(s, n) <= Published(s, n) + Losses(s, n)
  }

  /** Changing one copy changes each count by what that copy holds. */
  lemma CopyCounts(s: seq<Copy>, c: nat, copy: Copy, n: Id)
    requires c < |s|
    ensures Total(s[c := copy], CopyOf(n)) + CopyOf(n)(s[c]) == Total(s, CopyOf(n)) + CopyOf(n)(copy)
    ensures Total(s[c := copy], LostOf(n)) + LostOf(n)(s[c]) == Total(s, LostOf(n)) + LostOf(n)(copy)
    ensures Total(s[c := copy], ReadyOf(n)) + ReadyOf(n)(s[c]) == Total(s, ReadyOf(n)) + ReadyOf(n)(copy)
  {
    TotalUpdate(s, c, copy, CopyOf(n));
    TotalUpdate(s, c, copy, LostOf(n));
    TotalUpdate(s, c, copy, ReadyOf(n));
  }

  lemma AddedCounts(s: seq<Copy>, copy: Copy, n: Id)
    ensures Total(s + [copy], CopyOf(n)) == Total(s, CopyOf(n)) + CopyOf(n)(copy)
    ensures Total(s + [copy], LostOf(n)) == Total(s, LostOf(n)) + LostOf(n)(copy)
    ensures Total(s + [copy], ReadyOf(n)) == Total(s, ReadyOf(n)) + ReadyOf(n)(copy)
  {
    TotalSnoc(s, copy, CopyOf(n));
    TotalSnoc(s, copy, LostOf(n));
    TotalSnoc(s, copy, ReadyOf(n));
  }

  lemma TokensKeptByPublisher(cfg: Config, s: State, e: Event, n: Id)
    requires Wf(s) && TokenInv(s, n) && ByPublisher(e)
    ensures TokenInv(Step(cfg, s, e), n)
  {
    var t := Step(cfg, s, e);
    PublisherSteps(cfg, s, e);
    if t.copies != s.copies { AddedCounts(s.copies, t.copies[|s.copies|], n); }
  }

  lemma TokensKeptByBroker(s: State, e: Event, n: Id)
    requires TokenInv(s, n) && (e.Deliver? || e.Lose?)
    ensures TokenInv(BrokerStep(s, e), n)
  {
    var t := BrokerStep(s, e);
    if t != s {
      CopyCounts(s.copies, e.copy, t.copies[e.copy], n);
      if e.Deliver? { TotalSnoc(s.deliveries, t.deliveries[|s.deliveries|], UnsentOf(n)); }
    }
  }

  /** Before the answer a worker keeps its token; an accepted send uses it up. */
  lemma SendingTokens(s: State, d: nat, c: nat, id: Id, retry0: nat, m: Move, input: Input)
    requires BeforeAnswer(m.pc) && m.sent == []
    ensures var a := SendingMove(s, d, c, id, retry0, m, input);
            && a.copy.body == m.copy.body && a.copy.place == m.copy.place
            && (a.sent == [] ==> Unsent(a.pc))
            && (a.sent != [] ==> a.sent == [a.sent[0]] && a.sent[0].id == id && (Unsent(a.pc) <==> !a.sent[0].outcome.Delivered?))
  {
  }

  /** After it, the token is kept, given back to the queue, or gone. */
  lemma SettlingTokens(cfg: Config, s: State, d: nat, id: Id, m: Move, input: Input)
    requires !BeforeAnswer(m.pc) && !m.pc.AtDecode? && m.sent == []
    ensures var a := SettlingMove(cfg, s, d, id, m, input);
            && a.sent == [] && a.copy.body == m.copy.body
            && (Unsent(a.pc) ==> Unsent(m.pc) && a.copy.place == m.copy.place)
            && (a.copy.place == Ready && m.copy.place != Ready ==> Unsent(m.pc) && !Unsent(a.pc))
  {
  }

  predicate Spends(del: Delivery, copy: Copy, m: Move) {
    && m.copy.body == copy.body == del.body
    && (if m.sent == [] then
          && (Unsent(m.pc) ==> Unsent(del.pc) && (m.copy.place == Ready ==> copy.place == Ready))
          && (m.copy.place == Ready && copy.place != Ready ==> Unsent(del.pc) && !Unsent(m.pc))
        else
          && m.sent == [m.sent[0]] && Of(del.body, m.sent[0].id) && Unsent(del.pc) && m.copy.place == copy.place
          && (m.sent[0].outcome.Delivered? ==> !Unsent(m.pc)))
  }

  lemma WorkSpends(cfg: Config, s: State, d: nat, input: Input)
    requires d < |s.deliveries| && s.deliveries[d].copy < |s.copies| && WfDelivery(s, s.deliveries[d])
    ensures Spends(s.deliveries[d], s.copies[s.deliveries[d].copy], WorkMove(cfg, s, d, input))
  {
    var del := s.deliveries[d];
    var stay := Move(del.pc, s.copies[del.copy], s.rows, [], multiset{}, multiset{});
    if del.body.Note? && BeforeAnswer(del.pc) {
      SendingTokens(s, d, del.copy, del.body.id, del.body.retry, stay, input);
    } else if del.body.Note? && !del.pc.AtDecode? {
      SettlingTokens(cfg, s, d, del.body.id, stay, input);
    }
  }

  /** No move makes a token, and an accepted send uses one up. */
  lemma MoveTokens(del: Delivery, copy: Copy, m: Move, n: Id)
    requires Spends(del, copy, m)
    ensures Total(m.sent, SentOf(n)) + UnsentOf(n)(del.(pc := m.pc)) + ReadyOf(n)(m.copy)
            <= UnsentOf(n)(del) + ReadyOf(n)(copy)
  {
    if m.sent != [] { TotalSnoc([], m.sent[0], SentOf(n)); }
  }

  lemma TokensKeptByApply(s: State, d: nat, m: Move, n: Id)
    requires TokenInv(s, n) && d < |s.deliveries| && s.deliveries[d].copy < |s.copies|
    requires Spends(s.deliveries[d], s.copies[s.deliveries[d].copy], m)
    requires m.copy.lost == s.copies[s.deliveries[d].copy].lost
    ensures TokenInv(Apply(s, d, m), n)
  {
    var c := s.deliveries[d].copy;
    MoveTokens(s.deliveries[d], s.copies[c], m, n);
    CopyCounts(s.copies, c, m.copy, n);
    TotalUpdate(s.deliveries, d, s.deliveries[d].(pc := m.pc), UnsentOf(n));
    if m.sent == [] {
      assert s.sends + m.sent == s.sends;
    } else {
      TotalSnoc(s.sends, m.sent[0], SentOf(n));
      TotalSnoc([], m.sent[0], SentOf(n));
    }
  }

  lemma TokensKeptByWork(cfg: Config, s: State, d: nat, input: Input, n: Id)
    requires TokenInv(s, n) && d < |s.deliveries| && s.deliveries[d].copy < |s.copies|
    requires WfDelivery(s, s.deliveries[d])
    ensures TokenInv(WorkStep(cfg, s, d, input), n)
  {
    MoveShape(cfg, s, d, input);
    WorkSpends(cfg, s, d, input);
    TokensKeptByApply(s, d, WorkMove(cfg, s, d, input), n);
  }

  lemma TokensKept(cfg: Config, s: State, e: Event, n: Id)
    requires Wf(s) && TokenInv(s, n)
    ensures TokenInv(Step(cfg, s, e), n)
  {
    if ByPublisher(e) {
      TokensKeptByPublisher(cfg, s, e, n);
    } else if e.Work? {
      if e.delivery < |s.deliveries| {
        assert WfDelivery(s, s.deliveries[e.delivery]);
        TokensKeptByWork(cfg, s, e.delivery, e.input, n);
      }
    } else {
      TokensKeptByBroker(s, e, n);
    }
  }

  lemma {:induction false} TokensAlways(cfg: Config, schedulers: nat, es: seq<Event>, n: Id)
    ensures TokenInv(After(cfg, schedulers, es), n)
  {
    if es != [] {
      var front := es[..|es| - 1];
      AfterWf(cfg, schedulers, front);
      TokensAlways(cfg, schedulers, front, n);
      TokensKept(cfg, After(cfg, schedulers, front), es[|es| - 1], n);
    }
  }

  /** A worker calls the provider at one statement only, for its own notification. */
  lemma OneSend(cfg: Config, s: State, d: nat, input: Input)
    requires d < |s.deliveries| && s.deliveries[d].copy < |s.copies|
    ensures var m := WorkMove(cfg, s, d, input);
            m.sent == [] || (m.sent == [m.sent[0]] && s.deliveries[d].pc.AtSend? && Of(s.deliveries[d].body, m.sent[0].id))
  {
  }

  /** What a worker's step adds to the calls and to the acceptances heard. */
  lemma WorkCalls(s: State, d: nat, m: Move, n: Id)
    requires d < |s.deliveries| && s.deliveries[d].copy < |s.copies| && (m.sent == [] || m.sent == [m.sent[0]])
    ensures Calls(Apply(s, d, m), n) == Calls(s, n) + if m.sent != [] && m.sent[0].id == n then 1 else 0
    ensures Successes(Apply(s, d, m), n)
            == Successes(s, n) + if m.sent != [] && m.sent[0].id == n && m.sent[0].outcome.Delivered? then 1 else 0
  {
    if m.sent == [] {
      assert s.sends + m.sent == s.sends;
    } else {
      TotalSnoc(s.sends, m.sent[0], CalledFor(n));
      TotalSnoc(s.sends, m.sent[0], SentOf(n));
    }
  }

  /** Whatever fails, workers hear a notification accepted at most once per published copy and once
      more per lost connection. */
  lemma SendsAreBounded(cfg: Config, schedulers: nat, es: seq<Event>, n: Id)
    ensures var s := After(cfg, schedulers, es);
            Successes(s, n) <= Published(s, n) + Losses(s, n)
  {
    TokensAlways(cfg, schedulers, es, n);
  }
}
