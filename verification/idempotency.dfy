/** Create and CreateBatch in any interleaving: one row per idempotency key, answers that agree,
    batches that are inserted whole or not at all. */
module Idempotency {
  import opened Basics
  import opened Model
  import opened Repository
  import opened Pipeline
  import opened Frame
  import opened Tokens
  import opened Publishing
  import opened PublishOnce

  // ---------------------------------------------------------------- drafts

  /** Every draft stands for one answer. */
  lemma {:induction false} DraftOrigin(items: seq<Item>, answers: seq<Answer>, batch: Option<nat>, now: Time, k: nat)
    returns (p: nat)
    requires |answers| <= |items| && k < |Drafts(items, answers, batch, now)|
    ensures p < |answers|
    ensures var d := Drafts(items, answers, batch, now)[k]; answers[p] == Fresh(d.id) && d.row == NewRow(items[p], batch, now)
  {
    var n := |answers| - 1;
    if k < |Drafts(items, answers[..n], batch, now)| {
      p := DraftOrigin(items, answers[..n], batch, now, k);
    } else {
      p := n;
    }
  }

  /** Every new id has its draft. */
  lemma {:induction false} DraftOf(items: seq<Item>, answers: seq<Answer>, batch: Option<nat>, now: Time, p: nat)
    returns (k: nat)
    requires |answers| <= |items| && p < |answers| && answers[p].Fresh?
    ensures k < |Drafts(items, answers, batch, now)|
    ensures Drafts(items, answers, batch, now)[k] == Draft(answers[p].id, NewRow(items[p], batch, now))
  {
    var n := |answers| - 1;
    if p < n {
      k := DraftOf(items, answers[..n], batch, now, p);
    } else {
      k := |Drafts(items, answers[..n], batch, now)|;
    }
  }

  // ---------------------------------------------------------------- invariant

  /** The call's rows are stored. */
  predicate Committed(pc: CallPc) { pc.Publishing? || pc == Returned || pc == Orphaned }

  /** Its messages may be, too. */
  predicate MayPublish(pc: CallPc) { pc.Publishing? || pc == Returned }

  /** The row has the item's key, channel and schedule, and belongs to this batch, or to none. */
  predicate SameItem(row: Row, item: Item, batch: Option<nat>) {
    row.key == item.key && row.channel == item.channel && row.scheduledAt == item.scheduledAt && row.batch == batch
  }

  /** The batch that the rows of call `i` belong to. */
  function Owner(i: nat, call: Call): Option<nat> { if call.batch then Some(i) else None }

  predicate AnswerOk(t: Table, nextId: Id, owner: Option<nat>, item: Item, answer: Answer, pc: CallPc) {
    match answer
    case Rejected => owner.Some? && !item.valid
    case Existing(id) => item.valid && item.key.Some? && id in t && t[id].key == item.key && id < nextId
    case Fresh(id) => item.valid && id < nextId
                      && (if Committed(pc) then id in t && SameItem(t[id], item, owner) else id !in t)
  }

  predicate CallOk(call: Call) {
    && |call.answers| <= |call.items|
    && (!call.batch ==> |call.items| == 1)
    && (Committed(call.pc) ==> |call.answers| == |call.items|)
    && (call.pc.Publishing? ==> forall k | 0 <= k < |call.pc.todo| :: Fresh(call.pc.todo[k]) in call.answers)
  }

  ghost predicate CallInv(t: Table, nextId: Id, i: nat, call: Call) {
    && CallOk(call)
    && forall p | 0 <= p < |call.answers| :: AnswerOk(t, nextId, Owner(i, call), call.items[p], call.answers[p], call.pc)
  }

  ghost predicate AnswersInv(s: State) {
    forall i | 0 <= i < |s.calls| :: CallInv(s.rows, s.nextId, i, s.calls[i])
  }

  /** Every id is handed out once. */
  ghost predicate FreshInv(s: State) {
    forall i, p, j, q | 0 <= i < |s.calls| && 0 <= p < |s.calls[i].answers| && 0 <= j < |s.calls|
                        && 0 <= q < |s.calls[j].answers| && s.calls[i].answers[p].Fresh?
                        && s.calls[i].answers[p] == s.calls[j].answers[q] ::
      i == j && p == q
  }

  ghost predicate KeysInv(s: State) {
    UniqueKeys(s.rows) && forall id | id in s.rows :: id < s.nextId
  }

  ghost predicate CopySource(s: State, copy: Copy) {
    copy.source.Api? ==>
      copy.source.call < |s.calls| && copy.body.Note? && MayPublish(s.calls[copy.source.call].pc)
      && Fresh(copy.body.id) in s.calls[copy.source.call].answers
  }

  ghost predicate SourceInv(s: State) {
    forall c | 0 <= c < |s.copies| :: CopySource(s, s.copies[c])
  }

  ghost predicate IdemInv(s: State) {
    KeysInv(s) && AnswersInv(s) && FreshInv(s) && SourceInv(s)
  }

  // ---------------------------------------------------------------- steps

  predicate SameIdentities(t: Table, u: Table) {
    t.Keys == u.Keys && forall id | id in t :: id in u && u[id].key == t[id].key && u[id].channel == t[id].channel
                                               && u[id].scheduledAt == t[id].scheduledAt && u[id].batch == t[id].batch
  }

  /** A call's answers stay right while ids, keys and its commitment do. */
  lemma AnswersMove(t: Table, nextId: Id, i: nat, a: Call, u: Table, later: Id, b: Call)
    requires CallInv(t, nextId, i, a) && SameIdentities(t, u) && nextId <= later
    requires b.batch == a.batch && b.items == a.items && b.answers == a.answers && Committed(b.pc) == Committed(a.pc)
    requires b.pc.Publishing? ==> a.pc.Publishing? && forall x | x in b.pc.todo :: x in a.pc.todo
    ensures CallInv(u, later, i, b)
  {
    forall p | 0 <= p < |b.answers| ensures AnswerOk(u, later, Owner(i, b), b.items[p], b.answers[p], b.pc) {
      assert AnswerOk(t, nextId, Owner(i, a), a.items[p], a.answers[p], a.pc);
    }
    if b.pc.Publishing? {
      forall k | 0 <= k < |b.pc.todo| ensures Fresh(b.pc.todo[k]) in b.answers {
        assert b.pc.todo[k] in a.pc.todo;
      }
    }
  }

  /** A step after which every call has the answers it had, and no row is new. */
  ghost predicate Quiet(s: State, t: State) {
    && SameIdentities(s.rows, t.rows) && s.nextId <= t.nextId
    && |t.calls| == |s.calls|
    && forall i | 0 <= i < |s.calls| ::
         && t.calls[i].batch == s.calls[i].batch && t.calls[i].items == s.calls[i].items && t.calls[i].answers == s.calls[i].answers
         && Committed(t.calls[i].pc) == Committed(s.calls[i].pc)
         && (t.calls[i].pc.Publishing? ==>
               s.calls[i].pc.Publishing? && forall x | x in t.calls[i].pc.todo :: x in s.calls[i].pc.todo)
  }

  lemma QuietKeeps(s: State, t: State)
    requires IdemInv(s) && Quiet(s, t)
    ensures KeysInv(t) && AnswersInv(t) && FreshInv(t)
  {
    forall i | 0 <= i < |t.calls| ensures CallInv(t.rows, t.nextId, i, t.calls[i]) {
      assert CallInv(s.rows, s.nextId, i, s.calls[i]);
      AnswersMove(s.rows, s.nextId, i, s.calls[i], t.rows, t.nextId, t.calls[i]);
    }
  }

  predicate IsQuiet(e: Event) {
    !e.Begin? && !e.Lookup? && !e.Commit?
  }

  lemma DecideQuiet(s: State, i: nat)
    ensures Quiet(s, ApiStep(s, Decide(i)))
  {
  }

  lemma PublishQuiet(s: State, i: nat, ok: bool)
    ensures Quiet(s, ApiStep(s, ApiPublish(i, ok)))
  {
  }

  lemma MarkQuiet(s: State, i: nat, ok: bool)
    ensures Quiet(s, ApiStep(s, ApiMark(i, ok)))
  {
  }

  lemma ApiQuiet(s: State, e: Event)
    requires e.Decide? || e.ApiPublish? || e.ApiMark?
    ensures Quiet(s, ApiStep(s, e))
  {
    match e {
      case Decide(i) => DecideQuiet(s, i);
      case ApiPublish(i, ok) => PublishQuiet(s, i, ok);
      case ApiMark(i, ok) => MarkQuiet(s, i, ok);
    }
  }

  lemma QuietSteps(cfg: Config, s: State, e: Event)
    requires Wf(s) && IsQuiet(e)
    ensures Quiet(s, Step(cfg, s, e))
  {
    if e.Decide? || e.ApiPublish? || e.ApiMark? {
      ApiQuiet(s, e);
    } else {
      var t := Step(cfg, s, e);
      assert t.calls == s.calls && t.nextId == s.nextId;
      if e.Work? && e.delivery < |s.deliveries| {
        assert WfDelivery(s, s.deliveries[e.delivery]);
        MoveShape(cfg, s, e.delivery, e.input);
      }
      assert t.rows.Keys == s.rows.Keys;
      StepKeeps(cfg, s, e);
      assert forall id | id in s.rows :: RowLater(s.rows[id], t.rows[id]);
    }
  }

  lemma NextIdIsNew(s: State, j: nat, p: nat)
    requires IdemInv(s) && j < |s.calls| && p < |s.calls[j].answers|
    ensures s.calls[j].answers[p] != Fresh(s.nextId)
  {
    var call := s.calls[j];
    assert CallInv(s.rows, s.nextId, j, call);
    assert AnswerOk(s.rows, s.nextId, Owner(j, call), call.items[p], call.answers[p], call.pc);
  }

  /** The looking-up call answers its next item, or is refused. */
  lemma LookupAnswers(s: State, i: nat, found: Found)
    requires IdemInv(s)
    requires i < |s.calls| && s.calls[i].pc == Looking && |s.calls[i].answers| < |s.calls[i].items|
    ensures var t := LookupStep(s, i, found); CallInv(t.rows, t.nextId, i, t.calls[i])
  {
    var t, call := LookupStep(s, i, found), s.calls[i];
    assert CallInv(s.rows, s.nextId, i, call);
    forall p | 0 <= p < |t.calls[i].answers|
      ensures AnswerOk(t.rows, t.nextId, Owner(i, t.calls[i]), t.calls[i].items[p], t.calls[i].answers[p], t.calls[i].pc)
    {
      if p < |call.answers| {
        assert AnswerOk(s.rows, s.nextId, Owner(i, call), call.items[p], call.answers[p], call.pc);
      }
    }
  }

  lemma LookupFresh(s: State, i: nat, found: Found)
    requires IdemInv(s)
    requires i < |s.calls| && s.calls[i].pc == Looking && |s.calls[i].answers| < |s.calls[i].items|
    ensures FreshInv(LookupStep(s, i, found))
  {
    var t := LookupStep(s, i, found);
    forall a, p, b, q | 0 <= a < |t.calls| && 0 <= p < |t.calls[a].answers| && 0 <= b < |t.calls|
                        && 0 <= q < |t.calls[b].answers| && t.calls[a].answers[p].Fresh?
                        && t.calls[a].answers[p] == t.calls[b].answers[q]
      ensures a == b && p == q
    {
      LookupFreshAt(s, i, found, a, p);
      LookupFreshAt(s, i, found, b, q);
    }
  }

  /** A new id is the next one, given to the call's next item. */
  lemma LookupFreshAt(s: State, i: nat, found: Found, a: nat, p: nat)
    requires IdemInv(s)
    requires i < |s.calls| && s.calls[i].pc == Looking && |s.calls[i].answers| < |s.calls[i].items|
    requires var t := LookupStep(s, i, found); a < |t.calls| && p < |t.calls[a].answers| && t.calls[a].answers[p].Fresh?
    ensures var t := LookupStep(s, i, found);
            && a < |s.calls|
            && (if p < |s.calls[a].answers| then
                  t.calls[a].answers[p] == s.calls[a].answers[p] && t.calls[a].answers[p] != Fresh(s.nextId)
                else
                  a == i && p == |s.calls[i].answers| && t.calls[a].answers[p] == Fresh(s.nextId))
  {
    if p < |s.calls[a].answers| { NextIdIsNew(s, a, p); }
  }

  lemma LookupKeepsInv(s: State, i: nat, found: Found)
    requires IdemInv(s)
    requires i < |s.calls| && s.calls[i].pc == Looking && |s.calls[i].answers| < |s.calls[i].items|
    ensures var t := LookupStep(s, i, found); KeysInv(t) && AnswersInv(t) && FreshInv(t)
  {
    var t := LookupStep(s, i, found);
    LookupFresh(s, i, found);
    forall j | 0 <= j < |t.calls| ensures CallInv(t.rows, t.nextId, j, t.calls[j]) {
      if j == i {
        LookupAnswers(s, i, found);
      } else {
        assert CallInv(s.rows, s.nextId, j, s.calls[j]);
        AnswersMove(s.rows, s.nextId, j, s.calls[j], t.rows, t.nextId, t.calls[j]);
      }
    }
  }

  ghost predicate AllAnswered(s: State, i: nat) {
    i < |s.calls| && s.calls[i].pc == Looking && |s.calls[i].answers| == |s.calls[i].items|
  }

  /** A committed call's new ids are rows, made from their items. */
  lemma CommitRow(s: State, i: nat, answer: Commitment, p: nat)
    requires AllAnswered(s, i) && p < |s.calls[i].answers| && s.calls[i].answers[p].Fresh?
    requires Committed(CommitStep(s, i, answer).calls[i].pc)
    ensures var (t, id) := (CommitStep(s, i, answer), s.calls[i].answers[p].id);
            id in t.rows && t.rows[id] == NewRow(s.calls[i].items[p], Owner(i, s.calls[i]), s.now)
  {
    var call, ds := s.calls[i], CallDrafts(s, i);
    var k := DraftOf(call.items, call.answers, Owner(i, s.calls[i]), s.now, p);
    InsertAllAdds(s.rows, ds);
    assert ds[k].id == call.answers[p].id;
  }

  lemma UncommittedRows(s: State, i: nat, answer: Commitment)
    requires AllAnswered(s, i) && !Committed(CommitStep(s, i, answer).calls[i].pc)
    ensures CommitStep(s, i, answer).rows == s.rows
  {
  }

  lemma CommitAnswer(s: State, i: nat, answer: Commitment, p: nat)
    requires IdemInv(s) && AllAnswered(s, i) && p < |s.calls[i].answers|
    ensures var (t, call) := (CommitStep(s, i, answer), s.calls[i]);
            AnswerOk(t.rows, t.nextId, Owner(i, call), call.items[p], call.answers[p], t.calls[i].pc)
  {
    var t, call := CommitStep(s, i, answer), s.calls[i];
    assert CallInv(s.rows, s.nextId, i, call);
    assert AnswerOk(s.rows, s.nextId, Owner(i, call), call.items[p], call.answers[p], call.pc);
    CommitAddsNewRows(s, i, answer);
    if !Committed(t.calls[i].pc) {
      UncommittedRows(s, i, answer);
    } else if call.answers[p].Fresh? {
      CommitRow(s, i, answer, p);
    }
  }

  /** A row that a commit adds is named by an answer of that call. */
  lemma CommitOrigin(s: State, i: nat, answer: Commitment, id: Id) returns (q: nat)
    requires AllAnswered(s, i) && id in CommitStep(s, i, answer).rows && id !in s.rows
    ensures q < |s.calls[i].answers| && s.calls[i].answers[q] == Fresh(id)
  {
    var call, ds := s.calls[i], CallDrafts(s, i);
    InsertAllAdds(s.rows, ds);
    var k :| 0 <= k < |ds| && ds[k].id == id;
    q := DraftOrigin(call.items, call.answers, Owner(i, s.calls[i]), s.now, k);
  }

  lemma CommitOthers(s: State, i: nat, answer: Commitment, j: nat)
    requires IdemInv(s) && AllAnswered(s, i) && j < |s.calls| && j != i
    ensures var t := CommitStep(s, i, answer); CallInv(t.rows, t.nextId, j, t.calls[j])
  {
    var t, call := CommitStep(s, i, answer), s.calls[j];
    assert CallInv(s.rows, s.nextId, j, call);
    CommitAddsNewRows(s, i, answer);
    forall p | 0 <= p < |call.answers| ensures AnswerOk(t.rows, t.nextId, Owner(j, call), call.items[p], call.answers[p], call.pc) {
      assert AnswerOk(s.rows, s.nextId, Owner(j, call), call.items[p], call.answers[p], call.pc);
      if call.answers[p].Fresh? {
        var id := call.answers[p].id;
        if id !in s.rows && id in t.rows {
          var q := CommitOrigin(s, i, answer, id);
          assert false;
        }
      }
    }
  }

  lemma CommitKeys(s: State, i: nat, answer: Commitment)
    requires IdemInv(s) && AllAnswered(s, i)
    ensures KeysInv(CommitStep(s, i, answer))
  {
    var t, call, ds := CommitStep(s, i, answer), s.calls[i], CallDrafts(s, i);
    if t.rows != s.rows { InsertAllKeepsKeysUnique(s.rows, ds); }
    forall id | id in t.rows ensures id < t.nextId {
      if id !in s.rows {
        var q := CommitOrigin(s, i, answer, id);
        assert CallInv(s.rows, s.nextId, i, call);
        assert AnswerOk(s.rows, s.nextId, Owner(i, call), call.items[q], call.answers[q], call.pc);
      }
    }
  }

  lemma {:induction false} FreshIdsMeaning(answers: seq<Answer>)
    ensures forall k | 0 <= k < |FreshIds(answers)| :: Fresh(FreshIds(answers)[k]) in answers
  {
    if answers != [] {
      var n := |answers| - 1;
      FreshIdsMeaning(answers[..n]);
      forall k | 0 <= k < |FreshIds(answers)| ensures Fresh(FreshIds(answers)[k]) in answers {
        if k < |FreshIds(answers[..n])| {
          assert Fresh(FreshIds(answers[..n])[k]) in answers[..n];
        } else {
          assert answers[n] == Fresh(FreshIds(answers)[k]);
        }
      }
    }
  }

  lemma CommitOwn(s: State, i: nat, answer: Commitment)
    requires IdemInv(s) && AllAnswered(s, i)
    ensures var t := CommitStep(s, i, answer); CallInv(t.rows, t.nextId, i, t.calls[i])
  {
    var t, call := CommitStep(s, i, answer), s.calls[i];
    FreshIdsMeaning(call.answers);
    assert CallInv(s.rows, s.nextId, i, call);
    forall p | 0 <= p < |call.answers|
      ensures AnswerOk(t.rows, t.nextId, Owner(i, call), call.items[p], call.answers[p], t.calls[i].pc)
    {
      CommitAnswer(s, i, answer, p);
    }
  }

  lemma CommitKeepsInv(s: State, i: nat, answer: Commitment)
    requires IdemInv(s) && AllAnswered(s, i)
    ensures var t := CommitStep(s, i, answer); KeysInv(t) && AnswersInv(t) && FreshInv(t)
  {
    CommitKeys(s, i, answer);
    CommitAnswers(s, i, answer);
    CommitFresh(s, i, answer);
  }

  lemma CommitFresh(s: State, i: nat, answer: Commitment)
    requires FreshInv(s) && i < |s.calls|
    ensures FreshInv(CommitStep(s, i, answer))
  {
    var t := CommitStep(s, i, answer);
    assert |t.calls| == |s.calls| && forall j | 0 <= j < |s.calls| :: t.calls[j].answers == s.calls[j].answers;
  }

  lemma CommitAnswers(s: State, i: nat, answer: Commitment)
    requires IdemInv(s) && AllAnswered(s, i)
    ensures AnswersInv(CommitStep(s, i, answer))
  {
    var t := CommitStep(s, i, answer);
    forall j | 0 <= j < |t.calls| ensures CallInv(t.rows, t.nextId, j, t.calls[j]) {
      if j == i {
        CommitOwn(s, i, answer);
      } else {
        CommitOthers(s, i, answer, j);
      }
    }
  }

  lemma BeginKeepsInv(s: State, batch: bool, items: seq<Item>)
    requires IdemInv(s)
    ensures var t := ApiStep(s, Begin(batch, items)); KeysInv(t) && AnswersInv(t) && FreshInv(t)
  {
    var t := ApiStep(s, Begin(batch, items));
    forall j | 0 <= j < |t.calls| ensures CallInv(t.rows, t.nextId, j, t.calls[j]) {
      if j < |s.calls| { assert CallInv(s.rows, s.nextId, j, s.calls[j]); }
    }
  }

  /** What a call answered it keeps, and once committed it stays committed. */
  ghost predicate CallsLater(s: State, t: State) {
    |s.calls| <= |t.calls| && forall i | 0 <= i < |s.calls| ::
      s.calls[i].answers <= t.calls[i].answers && (MayPublish(s.calls[i].pc) ==> MayPublish(t.calls[i].pc))
  }

  lemma ApiCallsLater(s: State, e: Event)
    ensures CallsLater(s, ApiStep(s, e))
  {
    if e.Lookup? {
      LookupCallsLater(s, e);
    } else if e.Commit? {
      CommitCallsLater(s, e);
    }
  }

  lemma LookupCallsLater(s: State, e: Event)
    requires e.Lookup?
    ensures CallsLater(s, ApiStep(s, e))
  {
  }

  lemma CommitCallsLater(s: State, e: Event)
    requires e.Commit?
    ensures CallsLater(s, ApiStep(s, e))
  {
  }

  lemma SourceKept(cfg: Config, s: State, e: Event)
    requires Wf(s) && IdemInv(s)
    ensures SourceInv(Step(cfg, s, e))
  {
    var t := Step(cfg, s, e);
    assert CallsLater(s, t) by {
      if IsApi(e) { ApiCallsLater(s, e); } else { assert t.calls == s.calls; }
    }
    CopyOrigin(cfg, s, e);
    StepKeeps(cfg, s, e);
    forall c | 0 <= c < |t.copies| ensures CopySource(t, t.copies[c]) {
      if c < |s.copies| {
        assert CopySource(s, s.copies[c]) && CopyLater(s.copies[c], t.copies[c]);
      } else if e.ApiPublish? {
        assert CallInv(s.rows, s.nextId, e.call, s.calls[e.call]);
      }
    }
  }

  lemma IdemKept(cfg: Config, s: State, e: Event)
    requires Wf(s) && IdemInv(s)
    ensures IdemInv(Step(cfg, s, e))
  {
    SourceKept(cfg, s, e);
    match e {
      case Begin(batch, items) => BeginKeepsInv(s, batch, items);
      case Lookup(i, found) =>
        if i < |s.calls| && s.calls[i].pc == Looking && |s.calls[i].answers| < |s.calls[i].items| {
          LookupKeepsInv(s, i, found);
        }
      case Commit(i, answer) =>
        if i < |s.calls| && s.calls[i].pc == Looking && |s.calls[i].answers| == |s.calls[i].items| {
          CommitKeepsInv(s, i, answer);
        }
      case _ =>
        QuietSteps(cfg, s, e);
        QuietKeeps(s, Step(cfg, s, e));
    }
  }

  lemma {:induction false} IdemAlways(cfg: Config, schedulers: nat, es: seq<Event>)
    ensures IdemInv(After(cfg, schedulers, es))
  {
    if es != [] {
      AfterWf(cfg, schedulers, es[..|es| - 1]);
      IdemAlways(cfg, schedulers, es[..|es| - 1]);
      IdemKept(cfg, After(cfg, schedulers, es[..|es| - 1]), es[|es| - 1]);
    }
  }

  // ---------------------------------------------------------------- results

  lemma OneRowPerKey(cfg: Config, schedulers: nat, es: seq<Event>)
    ensures UniqueKeys(After(cfg, schedulers, es).rows)
  {
    IdemAlways(cfg, schedulers, es);
  }

  function AnswerId(answer: Answer): Option<Id> {
    match answer
    case Rejected => None
    case Existing(id) => Some(id)
    case Fresh(id) => Some(id)
  }

  /** Two calls that both succeeded name the same row for the same key: the one row that has it. */
  lemma AnswersAgree(cfg: Config, schedulers: nat, es: seq<Event>, i: nat, p: nat, j: nat, q: nat)
    requires var s := After(cfg, schedulers, es);
             && i < |s.calls| && s.calls[i].pc == Returned && p < |s.calls[i].answers|
             && j < |s.calls| && s.calls[j].pc == Returned && q < |s.calls[j].answers|
             && p < |s.calls[i].items| && q < |s.calls[j].items|
             && s.calls[i].items[p].key.Some? && s.calls[i].items[p].key == s.calls[j].items[q].key
             && s.calls[i].items[p].valid && s.calls[j].items[q].valid
    ensures var s := After(cfg, schedulers, es);
            var id := AnswerId(s.calls[i].answers[p]);
            && id.Some? && id == AnswerId(s.calls[j].answers[q])
            && id.value in s.rows && s.rows[id.value].key == s.calls[i].items[p].key
  {
    IdemAlways(cfg, schedulers, es);
    var s := After(cfg, schedulers, es);
    assert CallInv(s.rows, s.nextId, i, s.calls[i]) && CallInv(s.rows, s.nextId, j, s.calls[j]);
    assert AnswerOk(s.rows, s.nextId, Owner(i, s.calls[i]), s.calls[i].items[p], s.calls[i].answers[p], s.calls[i].pc);
    assert AnswerOk(s.rows, s.nextId, Owner(j, s.calls[j]), s.calls[j].items[q], s.calls[j].answers[q], s.calls[j].pc);
  }

  /** A call that found the key already there publishes nothing for that item. */
  lemma HitsPublishNothing(cfg: Config, schedulers: nat, es: seq<Event>, i: nat, p: nat, c: nat)
    requires var s := After(cfg, schedulers, es);
             && i < |s.calls| && p < |s.calls[i].answers| && s.calls[i].answers[p].Existing?
             && c < |s.copies| && s.copies[c].source == Api(i)
    ensures var s := After(cfg, schedulers, es); !Of(s.copies[c].body, s.calls[i].answers[p].id)
  {
    HitsAreNotFresh(cfg, schedulers, es, i, p);
    IdemAlways(cfg, schedulers, es);
    assert CopySource(After(cfg, schedulers, es), After(cfg, schedulers, es).copies[c]);
  }

  /** A hit names a row that was there before the call's own rows. */
  ghost predicate HitsInv(s: State) {
    forall i, p, q | 0 <= i < |s.calls| && 0 <= p < |s.calls[i].answers| && 0 <= q < |s.calls[i].answers|
                     && s.calls[i].answers[p].Existing? :: s.calls[i].answers[q] != Fresh(s.calls[i].answers[p].id)
  }

  lemma HitsKeptByLookup(s: State, i: nat, found: Found)
    requires IdemInv(s) && HitsInv(s)
    requires i < |s.calls| && s.calls[i].pc == Looking && |s.calls[i].answers| < |s.calls[i].items|
    ensures HitsInv(LookupStep(s, i, found))
  {
    var t := LookupStep(s, i, found);
    forall q | 0 <= q < |s.calls[i].answers|
      ensures s.calls[i].answers[q] != Fresh(s.nextId)
      ensures s.calls[i].answers[q].Existing? ==> s.calls[i].answers[q].id < s.nextId
      ensures s.calls[i].answers[q].Fresh? ==> s.calls[i].answers[q].id !in s.rows
    {
      assert CallInv(s.rows, s.nextId, i, s.calls[i]);
      assert AnswerOk(s.rows, s.nextId, Owner(i, s.calls[i]), s.calls[i].items[q], s.calls[i].answers[q], s.calls[i].pc);
    }
    forall j, p, q | 0 <= j < |t.calls| && 0 <= p < |t.calls[j].answers| && 0 <= q < |t.calls[j].answers|
                     && t.calls[j].answers[p].Existing? ensures t.calls[j].answers[q] != Fresh(t.calls[j].answers[p].id)
    {
      if j != i { assert t.calls[j] == s.calls[j]; }
    }
  }

  lemma HitsKept(s: State, e: Event)
    requires IdemInv(s) && HitsInv(s) && CallsLater(s, ApiStep(s, e))
    ensures HitsInv(ApiStep(s, e))
  {
    var t := ApiStep(s, e);
    if e.Lookup? {
      if t != s { HitsKeptByLookup(s, e.call, e.found); }
    } else {
      OnlyLookupsAnswer(s, e);
    }
  }

  lemma OnlyLookupsAnswer(s: State, e: Event)
    requires !e.Lookup?
    ensures var t := ApiStep(s, e);
            && |s.calls| <= |t.calls|
            && (forall j | 0 <= j < |s.calls| :: t.calls[j].answers == s.calls[j].answers)
            && (forall j | |s.calls| <= j < |t.calls| :: t.calls[j].answers == [])
  {
  }

  lemma {:induction false} HitsAreNotFresh(cfg: Config, schedulers: nat, es: seq<Event>, i: nat, p: nat)
    requires var s := After(cfg, schedulers, es); i < |s.calls| && p < |s.calls[i].answers| && s.calls[i].answers[p].Existing?
    ensures var s := After(cfg, schedulers, es); Fresh(s.calls[i].answers[p].id) !in s.calls[i].answers
  {
    HitsAlways(cfg, schedulers, es);
  }

  lemma {:induction false} HitsAlways(cfg: Config, schedulers: nat, es: seq<Event>)
    ensures HitsInv(After(cfg, schedulers, es))
  {
    if es != [] {
      var front, e := es[..|es| - 1], es[|es| - 1];
      var s := After(cfg, schedulers, front);
      HitsAlways(cfg, schedulers, front);
      IdemAlways(cfg, schedulers, front);
      if IsApi(e) {
        ApiCallsLater(s, e);
        HitsKept(s, e);
      } else { assert Step(cfg, s, e).calls == s.calls; }
    }
  }

  function AcceptedAnswer(): Answer -> nat { (a: Answer) => if a.Rejected? then 0 else 1 }

  function RejectedAnswer(): Answer -> nat { (a: Answer) => if a.Rejected? then 1 else 0 }

  lemma {:induction false} AcceptedPlusRejected(answers: seq<Answer>)
    ensures Total(answers, AcceptedAnswer()) + Total(answers, RejectedAnswer()) == |answers|
  {
    if answers != [] { AcceptedPlusRejected(answers[..|answers| - 1]); }
  }

  /** A batch that returned has one answer per item, in order: exactly the invalid items are
      rejected, and each new id is a row with that item's key, channel and schedule. One that
      failed left all of its rows behind if the server had committed, else none of them, and none
      of its messages. */
  lemma BatchIsWhole(cfg: Config, schedulers: nat, es: seq<Event>, i: nat)
    requires var s := After(cfg, schedulers, es); i < |s.calls|
    ensures var s := After(cfg, schedulers, es);
            var call := s.calls[i];
            && |call.answers| <= |call.items|
            && (call.pc == Returned ==>
                  && |call.answers| == |call.items|
                  && Total(call.answers, AcceptedAnswer()) + Total(call.answers, RejectedAnswer()) == |call.items|
                  && forall p | 0 <= p < |call.items| ::
                       && (call.answers[p] == Rejected <==> !call.items[p].valid)
                       && (call.answers[p].Fresh? ==>
                             call.answers[p].id in s.rows
                             && SameItem(s.rows[call.answers[p].id], call.items[p], if call.batch then Some(i) else None)))
            && (call.pc == Refused ==>
                  forall p | 0 <= p < |call.answers| && call.answers[p].Fresh? :: call.answers[p].id !in s.rows)
            && (call.pc == Orphaned ==>
                  forall p | 0 <= p < |call.answers| && call.answers[p].Fresh? ::
                    call.answers[p].id in s.rows
                    && SameItem(s.rows[call.answers[p].id], call.items[p], if call.batch then Some(i) else None))
            && (call.pc == Refused || call.pc == Orphaned ==> forall c | 0 <= c < |s.copies| :: s.copies[c].source != Api(i))
  {
    IdemAlways(cfg, schedulers, es);
    var s := After(cfg, schedulers, es);
    var call := s.calls[i];
    assert CallInv(s.rows, s.nextId, i, call);
    AcceptedPlusRejected(call.answers);
    forall p | 0 <= p < |call.answers| ensures AnswerOk(s.rows, s.nextId, Owner(i, call), call.items[p], call.answers[p], call.pc) {}
    forall c | 0 <= c < |s.copies| && (call.pc == Refused || call.pc == Orphaned) ensures s.copies[c].source != Api(i) {
      assert CopySource(s, s.copies[c]);
    }
  }
}
