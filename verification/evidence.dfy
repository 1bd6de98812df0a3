/** What a message's place in the broker and a row's columns prove about the past. */
module Evidence {
  import opened Basics
  import opened Model
  import opened Pipeline
  import opened Frame
  import opened Tokens

  // ---------------------------------------------------------------- evidence

  predicate Final(cfg: Config, r: SendRecord) {
    r.outcome.Permanent? || (r.outcome.Retryable? && Exhausted(cfg, r.retry))
  }

  ghost predicate SentBy(s: State, d: nat, msg: string) {
    exists j :: 0 <= j < |s.sends| && s.sends[j].delivery == d && s.sends[j].outcome == Delivered(msg)
  }

  ghost predicate Accepted(s: State, d: nat) {
    exists j :: 0 <= j < |s.sends| && s.sends[j].delivery == d && s.sends[j].outcome.Delivered?
  }

  ghost predicate Answered(s: State, d: nat, retry: nat, outcome: Outcome) {
    exists j :: 0 <= j < |s.sends| && s.sends[j].delivery == d && s.sends[j].retry == retry && s.sends[j].outcome == outcome
  }

  ghost predicate GaveUp(cfg: Config, s: State, d: nat) {
    exists j :: 0 <= j < |s.sends| && s.sends[j].delivery == d && Final(cfg, s.sends[j])
  }

  ghost predicate CopySent(s: State, c: nat) {
    exists j :: 0 <= j < |s.sends| && s.sends[j].copy == c && s.sends[j].outcome.Delivered?
  }

  ghost predicate CopyGivenUp(cfg: Config, s: State, c: nat) {
    exists j :: 0 <= j < |s.sends| && s.sends[j].copy == c && Final(cfg, s.sends[j])
  }

  ghost predicate SentAs(s: State, n: Id, msg: string) {
    exists j :: 0 <= j < |s.sends| && s.sends[j].id == n && s.sends[j].outcome == Delivered(msg)
  }

  ghost predicate HasCopy(s: State, n: Id) {
    exists c :: 0 <= c < |s.copies| && Of(s.copies[c].body, n)
  }

  /** The provider's log names deliveries that really carried the notification. */
  ghost predicate LogInv(s: State) {
    forall j | 0 <= j < |s.sends| ::
      && s.sends[j].delivery < |s.deliveries|
      && s.deliveries[s.sends[j].delivery].copy == s.sends[j].copy
      && Of(s.deliveries[s.sends[j].delivery].body, s.sends[j].id)
  }

  ghost predicate PcEvidence(cfg: Config, s: State, d: nat, body: Body, pc: Pc) {
    && (pc.AtMarkSent? ==> SentBy(s, d, pc.msg))
    && (pc.AtAck? ==> Accepted(s, d))
    && (pc.AtCount? ==> Answered(s, d, pc.retry, pc.outcome))
    && ((pc.AtMarkFailed? || pc.AtNackDead?) && body.Note? ==> GaveUp(cfg, s, d))
  }

  ghost predicate DeliveryInv(cfg: Config, s: State) {
    forall d | 0 <= d < |s.deliveries| :: PcEvidence(cfg, s, d, s.deliveries[d].body, s.deliveries[d].pc)
  }

  ghost predicate PlaceEvidence(cfg: Config, s: State, c: nat, copy: Copy) {
    && (copy.place == Acked ==> copy.body.Note? && CopySent(s, c))
    && (copy.place == Dead ==> copy.body.Undecodable? || CopyGivenUp(cfg, s, c))
  }

  ghost predicate CopyInv(cfg: Config, s: State) {
    forall c | 0 <= c < |s.copies| :: PlaceEvidence(cfg, s, c, s.copies[c])
  }

  ghost predicate RowEvidence(s: State, n: Id, row: Row) {
    && (row.providerMsgId.Some? <==> row.sentAt.Some?)
    && (row.providerMsgId.Some? ==> SentAs(s, n, row.providerMsgId.value))
  }

  ghost predicate RowInv(s: State) {
    forall n | n in s.rows :: RowEvidence(s, n, s.rows[n])
  }

  ghost predicate EvidenceInv(cfg: Config, s: State) {
    LogInv(s) && DeliveryInv(cfg, s) && CopyInv(cfg, s) && RowInv(s)
  }

  // ---------------------------------------------------------------- steps

  /** Evidence is in the log, and the log only grows. */
  lemma EvidencePersists(cfg: Config, s: State, t: State)
    requires s.sends <= t.sends && EvidenceInv(cfg, s)
    ensures forall d, body, pc {:trigger PcEvidence(cfg, t, d, body, pc)} ::
              PcEvidence(cfg, s, d, body, pc) ==> PcEvidence(cfg, t, d, body, pc)
    ensures forall c, copy {:trigger PlaceEvidence(cfg, t, c, copy)} ::
              PlaceEvidence(cfg, s, c, copy) ==> PlaceEvidence(cfg, t, c, copy)
    ensures forall n, row {:trigger RowEvidence(t, n, row)} :: RowEvidence(s, n, row) ==> RowEvidence(t, n, row)
  {
    assert forall j | 0 <= j < |s.sends| :: t.sends[j] == s.sends[j];
    forall d, msg {:trigger SentBy(t, d, msg)} ensures SentBy(s, d, msg) ==> SentBy(t, d, msg) {
      if SentBy(s, d, msg) {
        var j :| 0 <= j < |s.sends| && s.sends[j].delivery == d && s.sends[j].outcome == Delivered(msg);
        assert t.sends[j] == s.sends[j];
      }
    }
    forall d {:trigger Accepted(t, d)} ensures Accepted(s, d) ==> Accepted(t, d) {
      if Accepted(s, d) {
        var j :| 0 <= j < |s.sends| && s.sends[j].delivery == d && s.sends[j].outcome.Delivered?;
        assert t.sends[j] == s.sends[j];
      }
    }
    forall d, r, out {:trigger Answered(t, d, r, out)} ensures Answered(s, d, r, out) ==> Answered(t, d, r, out) {
      if Answered(s, d, r, out) {
        var j :| 0 <= j < |s.sends| && s.sends[j].delivery == d && s.sends[j].retry == r && s.sends[j].outcome == out;
        assert t.sends[j] == s.sends[j];
      }
    }
    forall c {:trigger CopySent(t, c)} ensures CopySent(s, c) ==> CopySent(t, c) {
      if CopySent(s, c) {
        var j :| 0 <= j < |s.sends| && s.sends[j].copy == c && s.sends[j].outcome.Delivered?;
        assert t.sends[j] == s.sends[j];
      }
    }
    forall c {:trigger CopyGivenUp(cfg, t, c)} ensures CopyGivenUp(cfg, s, c) ==> CopyGivenUp(cfg, t, c) {
      if CopyGivenUp(cfg, s, c) {
        var j :| 0 <= j < |s.sends| && s.sends[j].copy == c && Final(cfg, s.sends[j]);
        assert t.sends[j] == s.sends[j];
      }
    }
    forall d {:trigger GaveUp(cfg, t, d)} ensures GaveUp(cfg, s, d) ==> GaveUp(cfg, t, d) {
      if GaveUp(cfg, s, d) {
        var j :| 0 <= j < |s.sends| && s.sends[j].delivery == d && Final(cfg, s.sends[j]);
        assert t.sends[j] == s.sends[j];
      }
    }
    forall n, msg {:trigger SentAs(t, n, msg)} ensures SentAs(s, n, msg) ==> SentAs(t, n, msg) {
      if SentAs(s, n, msg) {
        var j :| 0 <= j < |s.sends| && s.sends[j].id == n && s.sends[j].outcome == Delivered(msg);
        assert t.sends[j] == s.sends[j];
      }
    }
  }

  lemma CountingPcKept(cfg: Config, s: State, d: nat, input: Input)
    requires d < |s.deliveries| && s.deliveries[d].copy < |s.copies| && s.deliveries[d].pc.AtCount? && s.deliveries[d].body.Note?
    requires PcEvidence(cfg, s, d, s.deliveries[d].body, s.deliveries[d].pc)
    ensures PcEvidence(cfg, WorkStep(cfg, s, d, input), d, s.deliveries[d].body, WorkMove(cfg, s, d, input).pc)
  {
    var (del, m, t) := (s.deliveries[d], WorkMove(cfg, s, d, input), WorkStep(cfg, s, d, input));
    assert t.sends == s.sends;
    if m.pc.AtMarkFailed? {
      var j :| 0 <= j < |s.sends| && s.sends[j].delivery == d
               && s.sends[j].retry == del.pc.retry && s.sends[j].outcome == del.pc.outcome;
      assert Final(cfg, t.sends[j]);
    }
  }

  lemma SendingPcKept(cfg: Config, s: State, d: nat, input: Input)
    requires d < |s.deliveries| && s.deliveries[d].copy < |s.copies| && s.deliveries[d].pc.AtSend? && s.deliveries[d].body.Note?
    ensures PcEvidence(cfg, WorkStep(cfg, s, d, input), d, s.deliveries[d].body, WorkMove(cfg, s, d, input).pc)
  {
    var (m, t) := (WorkMove(cfg, s, d, input), WorkStep(cfg, s, d, input));
    if m.sent != [] { assert t.sends[|s.sends|] == m.sent[0]; }
  }

  lemma SentPcKept(cfg: Config, s: State, d: nat, input: Input)
    requires d < |s.deliveries| && s.deliveries[d].copy < |s.copies| && s.deliveries[d].pc.AtMarkSent? && s.deliveries[d].body.Note?
    requires PcEvidence(cfg, s, d, s.deliveries[d].body, s.deliveries[d].pc)
    ensures PcEvidence(cfg, WorkStep(cfg, s, d, input), d, s.deliveries[d].body, WorkMove(cfg, s, d, input).pc)
  {
    var (del, t) := (s.deliveries[d], WorkStep(cfg, s, d, input));
    assert t.sends == s.sends;
    var j :| 0 <= j < |s.sends| && s.sends[j].delivery == d && s.sends[j].outcome == Delivered(del.pc.msg);
    assert t.sends[j].outcome.Delivered?;
  }

  lemma PcKept(cfg: Config, s: State, d: nat, input: Input)
    requires d < |s.deliveries| && s.deliveries[d].copy < |s.copies| && WfDelivery(s, s.deliveries[d])
    requires EvidenceInv(cfg, s)
    ensures PcEvidence(cfg, WorkStep(cfg, s, d, input), d, s.deliveries[d].body, WorkMove(cfg, s, d, input).pc)
  {
    var del := s.deliveries[d];
    assert PcEvidence(cfg, s, d, del.body, del.pc);
    if del.pc.AtSend? {
      SendingPcKept(cfg, s, d, input);
    } else if del.pc.AtCount? {
      CountingPcKept(cfg, s, d, input);
    } else if del.pc.AtMarkSent? {
      SentPcKept(cfg, s, d, input);
    } else {
      assert WorkStep(cfg, s, d, input).sends == s.sends;
    }
  }

  /** Only the write after an accepted send touches the delivery evidence of a row. */
  lemma MoveRow(cfg: Config, s: State, d: nat, input: Input, n: Id)
    requires d < |s.deliveries| && s.deliveries[d].copy < |s.copies| && n in s.rows
    ensures var (m, pc) := (WorkMove(cfg, s, d, input), s.deliveries[d].pc);
            && n in m.rows
            && (|| (m.rows[n].providerMsgId == s.rows[n].providerMsgId && m.rows[n].sentAt == s.rows[n].sentAt)
                || (pc.AtMarkSent? && Of(s.deliveries[d].body, n) && m.rows[n].providerMsgId == Some(pc.msg)
                    && m.rows[n].sentAt == Some(s.now)))
  {
  }

  lemma RowKept(cfg: Config, s: State, d: nat, input: Input, n: Id)
    requires d < |s.deliveries| && s.deliveries[d].copy < |s.copies|
    requires DeliveryInv(cfg, s) && LogInv(s) && n in s.rows && RowEvidence(s, n, s.rows[n])
    requires var t := WorkStep(cfg, s, d, input);
             s.sends <= t.sends && RowEvidence(t, n, s.rows[n])
    ensures var m := WorkMove(cfg, s, d, input);
            n in m.rows && RowEvidence(WorkStep(cfg, s, d, input), n, m.rows[n])
  {
    var del, m, t := s.deliveries[d], WorkMove(cfg, s, d, input), WorkStep(cfg, s, d, input);
    MoveRow(cfg, s, d, input, n);
    if m.rows[n].providerMsgId != s.rows[n].providerMsgId || m.rows[n].sentAt != s.rows[n].sentAt {
      assert PcEvidence(cfg, s, d, del.body, del.pc);
      var j :| 0 <= j < |s.sends| && s.sends[j].delivery == d && s.sends[j].outcome == Delivered(del.pc.msg);
      assert t.sends[j] == s.sends[j];
      assert SentAs(t, n, del.pc.msg);
    }
  }

  lemma PlaceKept(cfg: Config, s: State, d: nat, input: Input)
    requires d < |s.deliveries| && s.deliveries[d].copy < |s.copies| && WfDelivery(s, s.deliveries[d])
    requires EvidenceInv(cfg, s)
    ensures PlaceEvidence(cfg, WorkStep(cfg, s, d, input), s.deliveries[d].copy, WorkMove(cfg, s, d, input).copy)
  {
    var del, c := s.deliveries[d], s.deliveries[d].copy;
    var m, t := WorkMove(cfg, s, d, input), WorkStep(cfg, s, d, input);
    EvidencePersists(cfg, s, t);
    assert PcEvidence(cfg, s, d, del.body, del.pc) && PlaceEvidence(cfg, s, c, s.copies[c]);
    if m.copy.place != s.copies[c].place {
      if del.pc.AtAck? {
        var j :| 0 <= j < |s.sends| && s.sends[j].delivery == d && s.sends[j].outcome.Delivered?;
        assert t.sends[j] == s.sends[j] && s.sends[j].copy == c;
      } else if del.pc.AtNackDead? && del.body.Note? {
        var j :| 0 <= j < |s.sends| && s.sends[j].delivery == d && Final(cfg, s.sends[j]);
        assert t.sends[j] == s.sends[j] && s.sends[j].copy == c;
      }
    } else {
      assert PlaceEvidence(cfg, t, c, s.copies[c]);
    }
  }

  lemma LogKeptByWork(cfg: Config, s: State, d: nat, input: Input)
    requires d < |s.deliveries| && s.deliveries[d].copy < |s.copies| && LogInv(s)
    ensures LogInv(WorkStep(cfg, s, d, input))
  {
    var m, t := WorkMove(cfg, s, d, input), WorkStep(cfg, s, d, input);
    forall j | 0 <= j < |t.sends|
      ensures && t.sends[j].delivery < |t.deliveries|
              && t.deliveries[t.sends[j].delivery].copy == t.sends[j].copy
              && Of(t.deliveries[t.sends[j].delivery].body, t.sends[j].id)
    {
      if j < |s.sends| { assert t.sends[j] == s.sends[j]; } else { assert m.sent != [] && t.sends[j] == m.sent[0]; }
    }
  }

  lemma EvidenceKeptByWork(cfg: Config, s: State, d: nat, input: Input)
    requires d < |s.deliveries| && s.deliveries[d].copy < |s.copies| && WfDelivery(s, s.deliveries[d])
    requires EvidenceInv(cfg, s)
    ensures EvidenceInv(cfg, WorkStep(cfg, s, d, input))
  {
    var m, t := WorkMove(cfg, s, d, input), WorkStep(cfg, s, d, input);
    EvidencePersists(cfg, s, t);
    PcKept(cfg, s, d, input);
    PlaceKept(cfg, s, d, input);
    MoveShape(cfg, s, d, input);
    LogKeptByWork(cfg, s, d, input);
    forall k | 0 <= k < |t.deliveries| ensures PcEvidence(cfg, t, k, t.deliveries[k].body, t.deliveries[k].pc) {
      if k != d { assert PcEvidence(cfg, s, k, s.deliveries[k].body, s.deliveries[k].pc); }
    }
    forall k | 0 <= k < |t.copies| ensures PlaceEvidence(cfg, t, k, t.copies[k]) {
      if k != s.deliveries[d].copy { assert PlaceEvidence(cfg, s, k, s.copies[k]); }
    }
    forall n | n in t.rows ensures RowEvidence(t, n, t.rows[n]) {
      assert RowEvidence(s, n, s.rows[n]) && RowEvidence(t, n, s.rows[n]);
      RowKept(cfg, s, d, input, n);
    }
  }

  lemma EvidenceKeptByBroker(cfg: Config, s: State, e: Event)
    requires EvidenceInv(cfg, s) && (e.Deliver? || e.Lose?)
    ensures EvidenceInv(cfg, BrokerStep(s, e))
  {
    var t := BrokerStep(s, e);
    EvidencePersists(cfg, s, t);
    forall k | 0 <= k < |t.deliveries| ensures PcEvidence(cfg, t, k, t.deliveries[k].body, t.deliveries[k].pc) {
      if k < |s.deliveries| { assert PcEvidence(cfg, s, k, s.deliveries[k].body, s.deliveries[k].pc); }
    }
    forall k | 0 <= k < |t.copies| ensures PlaceEvidence(cfg, t, k, t.copies[k]) {
      assert PlaceEvidence(cfg, s, k, s.copies[k]);
    }
    forall n | n in t.rows ensures RowEvidence(t, n, t.rows[n]) { assert RowEvidence(s, n, s.rows[n]); }
  }

  lemma EvidenceKeptByPublisher(cfg: Config, s: State, e: Event)
    requires Wf(s) && EvidenceInv(cfg, s) && ByPublisher(e)
    ensures EvidenceInv(cfg, Step(cfg, s, e))
  {
    var t := Step(cfg, s, e);
    PublisherSteps(cfg, s, e);
    EvidencePersists(cfg, s, t);
    forall k | 0 <= k < |t.deliveries| ensures PcEvidence(cfg, t, k, t.deliveries[k].body, t.deliveries[k].pc) {
      assert PcEvidence(cfg, s, k, s.deliveries[k].body, s.deliveries[k].pc);
    }
    forall k | 0 <= k < |t.copies| ensures PlaceEvidence(cfg, t, k, t.copies[k]) {
      if k < |s.copies| { assert PlaceEvidence(cfg, s, k, s.copies[k]); }
    }
    forall n | n in t.rows ensures RowEvidence(t, n, t.rows[n]) {
      if n in s.rows {
        assert RowEvidence(s, n, s.rows[n]);
        assert RowEvidence(t, n, s.rows[n]);
      }
    }
  }

  lemma {:induction false} EvidenceAlways(cfg: Config, schedulers: nat, es: seq<Event>)
    ensures EvidenceInv(cfg, After(cfg, schedulers, es))
  {
    if es != [] {
      var front, e := es[..|es| - 1], es[|es| - 1];
      var s := After(cfg, schedulers, front);
      AfterWf(cfg, schedulers, front);
      EvidenceAlways(cfg, schedulers, front);
      if ByPublisher(e) {
        EvidenceKeptByPublisher(cfg, s, e);
      } else if e.Work? {
        if e.delivery < |s.deliveries| {
          assert WfDelivery(s, s.deliveries[e.delivery]);
          EvidenceKeptByWork(cfg, s, e.delivery, e.input);
        }
      } else {
        EvidenceKeptByBroker(cfg, s, e);
      }
    }
  }

  // ---------------------------------------------------------------- results

  /** In every run, with crashes and failing writes: an acked message was accepted by the
      provider, and a dead-lettered one was undecodable, permanently refused, or failed on its
      last attempt. */
  lemma SettledCopiesHaveAReason(cfg: Config, schedulers: nat, es: seq<Event>, c: nat)
    requires c < |After(cfg, schedulers, es).copies|
    ensures var s := After(cfg, schedulers, es);
            && (s.copies[c].place == Acked ==> s.copies[c].body.Note? && CopySent(s, c))
            && (s.copies[c].place == Dead ==> s.copies[c].body.Undecodable? || CopyGivenUp(cfg, s, c))
  {
    EvidenceAlways(cfg, schedulers, es);
    var s := After(cfg, schedulers, es);
    assert PlaceEvidence(cfg, s, c, s.copies[c]);
  }

  /** provider_message_id and sent_at are set together, only by an accepted send and to its
      message id, and are never cleared. */
  lemma DeliveryEvidenceIsSound(cfg: Config, schedulers: nat, es: seq<Event>, more: seq<Event>, n: Id)
    requires n in After(cfg, schedulers, es).rows
    ensures var s, t := After(cfg, schedulers, es), After(cfg, schedulers, es + more);
            && (s.rows[n].providerMsgId.Some? <==> s.rows[n].sentAt.Some?)
            && (s.rows[n].providerMsgId.Some? ==> SentAs(s, n, s.rows[n].providerMsgId.value))
            && n in t.rows
            && (s.rows[n].providerMsgId.Some? ==> t.rows[n].providerMsgId.Some? && t.rows[n].sentAt.Some?)
  {
    var s := After(cfg, schedulers, es);
    EvidenceAlways(cfg, schedulers, es);
    assert RowEvidence(s, n, s.rows[n]);
    RunConcat(cfg, Init(schedulers), es, more);
    AfterWf(cfg, schedulers, es);
    RunKeeps(cfg, s, more);
    assert RowLater(s.rows[n], After(cfg, schedulers, es + more).rows[n]);
  }
}
