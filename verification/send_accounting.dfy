/** Where every send that a worker heard accepted is accounted for, while no connection is lost. */
module SendAccounting {
  import opened Basics
  import opened Model
  import opened Pipeline
  import opened Frame
  import opened Tokens
  import opened Termination

  predicate BeforeAck(pc: Pc) { pc.AtMarkSent? || pc.AtAck? }

  /** Deliveries of `n` between hearing a send accepted and its ack. */
  function BeforeAckOf(n: Id): Delivery -> nat { (d: Delivery) => if Of(d.body, n) && BeforeAck(d.pc) then 1 else 0 }

  function AckedOf(n: Id): Copy -> nat { (c: Copy) => if Of(c.body, n) && c.place == Acked then 1 else 0 }

  /** No copy of `n` was lost with its connection, and none is left by a worker whose ack or nack
      did not get through. */
  ghost predicate Undisturbed(s: State, n: Id) {
    forall c | 0 <= c < |s.copies| && Of(s.copies[c].body, n) ::
      && s.copies[c].lost == 0
      && (s.copies[c].place.Unacked? ==>
            s.copies[c].place.delivery < |s.deliveries| && s.deliveries[s.copies[c].place.delivery].pc != AtEnd)
  }

  ghost predicate Accounted(s: State, n: Id) {
    Successes(s, n) == Total(s.copies, AckedOf(n)) + Total(s.deliveries, BeforeAckOf(n))
  }

  lemma UndisturbedBefore(cfg: Config, s: State, e: Event, n: Id)
    requires Wf(s) && Undisturbed(Step(cfg, s, e), n)
    ensures Undisturbed(s, n)
  {
    var t := Step(cfg, s, e);
    StepKeeps(cfg, s, e);
    forall c | 0 <= c < |s.copies| && Of(s.copies[c].body, n)
      ensures s.copies[c].lost == 0
      ensures s.copies[c].place.Unacked? ==>
                s.copies[c].place.delivery < |s.deliveries| && s.deliveries[s.copies[c].place.delivery].pc != AtEnd
    {
      assert CopyLater(s.copies[c], t.copies[c]);
      if s.copies[c].place.Unacked? { OrphanStays(cfg, s, e, c, s.copies[c].place.delivery); }
    }
  }

  /** A copy whose worker is done stays with it until the connection is lost. */
  lemma OrphanStays(cfg: Config, s: State, e: Event, c: nat, d: nat)
    requires Wf(s) && c < |s.copies| && s.copies[c].place == Unacked(d)
    ensures d < |s.deliveries|
    ensures var t := Step(cfg, s, e);
            s.deliveries[d].pc == AtEnd ==>
              c < |t.copies| && (t.copies[c].lost > s.copies[c].lost || t.copies[c].place == Unacked(d))
              && d < |t.deliveries| && t.deliveries[d].pc == AtEnd
  {
    if e.Work? {
      if e.delivery < |s.deliveries| && s.deliveries[d].pc == AtEnd {
        assert WfDelivery(s, s.deliveries[e.delivery]);
        OrphanStaysAtWork(cfg, s, e.delivery, e.input, c, d);
      }
    } else if ByPublisher(e) {
      PublisherSteps(cfg, s, e);
    }
  }

  lemma OrphanStaysAtWork(cfg: Config, s: State, k: nat, input: Input, c: nat, d: nat)
    requires Wf(s) && c < |s.copies| && s.copies[c].place == Unacked(d) && d < |s.deliveries| && s.deliveries[d].pc == AtEnd
    requires k < |s.deliveries| && s.deliveries[k].copy < |s.copies|
    ensures var t := WorkStep(cfg, s, k, input);
            t.copies[c].place == Unacked(d) && t.deliveries[d].pc == AtEnd
  {
    MoveHolds(cfg, s, k, input);
    OnlyHolderSettles(cfg, s, k, input);
  }

  lemma OnlyHolderSettles(cfg: Config, s: State, k: nat, input: Input)
    requires k < |s.deliveries| && s.deliveries[k].copy < |s.copies|
    ensures var (m, copy) := (WorkMove(cfg, s, k, input), s.copies[s.deliveries[k].copy]);
            m.copy.place == copy.place || copy.place == Unacked(k)
  {
  }

  // ---------------------------------------------------------------- one worker's step

  /** A send that is heard accepted turns up before an ack, and an ack turns that into an acked copy. */
  predicate Balances(del: Delivery, copy: Copy, m: Move, n: Id) {
    && m.copy.body == copy.body == del.body
    && Total(m.sent, SentOf(n)) + AckedOf(n)(copy) + BeforeAckOf(n)(del)
       == AckedOf(n)(m.copy) + BeforeAckOf(n)(del.(pc := m.pc))
  }

  lemma SendingBalances(s: State, d: nat, c: nat, id: Id, retry0: nat, m: Move, input: Input)
    requires BeforeAnswer(m.pc) && m.sent == []
    ensures var a := SendingMove(s, d, c, id, retry0, m, input);
            && a.copy.body == m.copy.body && a.copy.place == m.copy.place && !BeforeAck(m.pc)
            && (if a.sent == [] then !BeforeAck(a.pc)
                else a.sent == [a.sent[0]] && a.sent[0].id == id && (BeforeAck(a.pc) <==> a.sent[0].outcome.Delivered?))
  {
  }

  lemma SettlingBalances(cfg: Config, s: State, d: nat, id: Id, m: Move, input: Input)
    requires !BeforeAnswer(m.pc) && !m.pc.AtDecode? && m.sent == [] && m.copy.place == Unacked(d)
    ensures var a := SettlingMove(cfg, s, d, id, m, input);
            && a.sent == [] && a.copy.body == m.copy.body
            && (if BeforeAck(m.pc) then
                  (if BeforeAck(a.pc) then a.copy.place == m.copy.place
                   else a.pc == AtEnd && (a.copy.place == Acked || a.copy.place == Unacked(d)))
                else !BeforeAck(a.pc) && a.copy.place != Acked)
  {
  }

  lemma WorkBalances(cfg: Config, s: State, d: nat, input: Input, n: Id)
    requires d < |s.deliveries| && s.deliveries[d].copy < |s.copies| && WfDelivery(s, s.deliveries[d])
    requires Of(s.deliveries[d].body, n) && s.copies[s.deliveries[d].copy].place == Unacked(d)
    requires var m := WorkMove(cfg, s, d, input); !(m.pc == AtEnd && m.copy.place == Unacked(d))
    ensures Balances(s.deliveries[d], s.copies[s.deliveries[d].copy], WorkMove(cfg, s, d, input), n)
  {
    var del := s.deliveries[d];
    var stay := Move(del.pc, s.copies[del.copy], s.rows, [], multiset{}, multiset{});
    var m := WorkMove(cfg, s, d, input);
    if BeforeAnswer(del.pc) {
      SendingBalances(s, d, del.copy, del.body.id, del.body.retry, stay, input);
      if m.sent != [] { TotalSnoc([], m.sent[0], SentOf(n)); }
    } else if !del.pc.AtDecode? {
      SettlingBalances(cfg, s, d, del.body.id, stay, input);
    }
  }

  lemma AccountedByApply(s: State, d: nat, m: Move, n: Id)
    requires Accounted(s, n) && d < |s.deliveries| && s.deliveries[d].copy < |s.copies| && |m.sent| <= 1
    requires Balances(s.deliveries[d], s.copies[s.deliveries[d].copy], m, n)
    ensures Accounted(Apply(s, d, m), n)
  {
    TotalUpdate(s.copies, s.deliveries[d].copy, m.copy, AckedOf(n));
    TotalUpdate(s.deliveries, d, s.deliveries[d].(pc := m.pc), BeforeAckOf(n));
    if m.sent == [] {
      assert s.sends + m.sent == s.sends;
    } else {
      assert m.sent == [m.sent[0]];
      TotalSnoc(s.sends, m.sent[0], SentOf(n));
      TotalSnoc([], m.sent[0], SentOf(n));
    }
  }

  /** A step of a worker with another notification, or of one that is done, changes no count. */
  lemma OthersBalance(cfg: Config, s: State, d: nat, input: Input, n: Id)
    requires d < |s.deliveries| && s.deliveries[d].copy < |s.copies| && WfDelivery(s, s.deliveries[d])
    requires !Of(s.deliveries[d].body, n) || s.deliveries[d].pc == AtEnd
    ensures Balances(s.deliveries[d], s.copies[s.deliveries[d].copy], WorkMove(cfg, s, d, input), n)
  {
    MoveShape(cfg, s, d, input);
    MoveHolds(cfg, s, d, input);
    OneSend(cfg, s, d, input);
    var m := WorkMove(cfg, s, d, input);
    if m.sent != [] { TotalSnoc([], m.sent[0], SentOf(n)); }
  }

  // ---------------------------------------------------------------- every step

  lemma AccountedByWork(cfg: Config, s: State, d: nat, input: Input, n: Id)
    requires Wf(s) && HeldInv(s) && Accounted(s, n) && Undisturbed(s, n) && d < |s.deliveries|
    requires Undisturbed(Step(cfg, s, Work(d, input)), n)
    ensures Accounted(Step(cfg, s, Work(d, input)), n)
  {
    var del := s.deliveries[d];
    assert WfDelivery(s, del);
    OneSend(cfg, s, d, input);
    if Of(del.body, n) && del.pc != AtEnd {
      assert s.copies[del.copy].lost == 0 && s.copies[del.copy].place == Unacked(d);
      MoveShape(cfg, s, d, input);
      var t := WorkStep(cfg, s, d, input);
      assert t.copies[del.copy] == WorkMove(cfg, s, d, input).copy && Of(t.copies[del.copy].body, n);
      WorkBalances(cfg, s, d, input, n);
    } else {
      OthersBalance(cfg, s, d, input, n);
    }
    AccountedByApply(s, d, WorkMove(cfg, s, d, input), n);
  }

  lemma AccountedByBroker(s: State, e: Event, n: Id)
    requires Wf(s) && Accounted(s, n) && (e.Deliver? || e.Lose?)
    ensures Accounted(BrokerStep(s, e), n)
  {
    var t := BrokerStep(s, e);
    if t != s {
      TotalUpdate(s.copies, e.copy, t.copies[e.copy], AckedOf(n));
      if e.Deliver? { TotalSnoc(s.deliveries, t.deliveries[|s.deliveries|], BeforeAckOf(n)); }
    }
  }

  lemma AccountedByPublisher(cfg: Config, s: State, e: Event, n: Id)
    requires Wf(s) && Accounted(s, n) && ByPublisher(e)
    ensures Accounted(Step(cfg, s, e), n)
  {
    var t := Step(cfg, s, e);
    PublisherSteps(cfg, s, e);
    if t.copies != s.copies { TotalSnoc(s.copies, t.copies[|s.copies|], AckedOf(n)); }
  }

  /** While no copy of a notification is lost with its connection, workers have heard it accepted
      exactly as often as a copy of it was acked, plus the workers between that answer and their ack:
      so every ack stands for one acceptance that was heard, and none of these goes without. */
  lemma {:induction false} EverySendIsAccountedFor(cfg: Config, schedulers: nat, es: seq<Event>, n: Id)
    requires Undisturbed(After(cfg, schedulers, es), n)
    ensures var s := After(cfg, schedulers, es);
            Successes(s, n) == Total(s.copies, AckedOf(n)) + Total(s.deliveries, BeforeAckOf(n))
  {
    if es != [] {
      var front, e := es[..|es| - 1], es[|es| - 1];
      var s := After(cfg, schedulers, front);
      AfterWf(cfg, schedulers, front);
      SoundAlways(cfg, schedulers, front);
      UndisturbedBefore(cfg, s, e, n);
      EverySendIsAccountedFor(cfg, schedulers, front, n);
      if ByPublisher(e) {
        AccountedByPublisher(cfg, s, e, n);
      } else if e.Work? {
        if e.delivery < |s.deliveries| { AccountedByWork(cfg, s, e.delivery, e.input, n); }
      } else {
        AccountedByBroker(s, e, n);
      }
    }
  }
}
