/** internal/repository/notification.go: what each SQL statement does to the table.
    The functions are the statements; the class runs them in place. */
module Repository {
  import opened Basics
  import opened Model

  datatype Draft = Draft(id: Id, row: Row)

  // ---------------------------------------------------------------- statements

  function SetStatus(t: Table, id: Id, status: Status, msg: Option<string>, error: Option<string>, now: Time): Table {
    if id !in t then t else
      var row := t[id];
      t[id := row.(status := status,
                   providerMsgId := if msg.Some? then msg else row.providerMsgId,
                   lastError := error,
                   sentAt := if status == Sent then Some(now) else row.sentAt)]
  }

  function AddRetry(t: Table, id: Id, error: string): Table {
    if id !in t then t else
      t[id := t[id].(retryCount := t[id].retryCount + 1, lastError := Some(error))]
  }

  predicate Cancellable(t: Table, id: Id) {
    id in t && (t[id].status == Pending || t[id].status == Queued)
  }

  function CancelRow(t: Table, id: Id): Table {
    if Cancellable(t, id) then t[id := t[id].(status := Cancelled)] else t
  }

  predicate KeyTaken(t: Table, key: Option<string>) {
    key.Some? && exists id | id in t :: t[id].key == key
  }

  /** The primary key and the partial unique index on idempotency_key. */
  predicate CanInsert(t: Table, d: Draft) {
    d.id !in t && !KeyTaken(t, d.row.key)
  }

  /** The inserts of one transaction: all of them, or none. */
  function InsertAll(t: Table, ds: seq<Draft>): Option<Table> {
    if ds == [] then Some(t) else
      var last := ds[|ds| - 1];
      match InsertAll(t, ds[..|ds| - 1])
      case None => None
      case Some(u) => if CanInsert(u, last) then Some(u[last.id := last.row]) else None
  }

  /** Rows the scheduler may pick at time `now`. */
  predicate DuePending(t: Table, now: Time, id: Id) {
    && id in t
    && t[id].status == Pending
    && (t[id].scheduledAt.None? || t[id].scheduledAt.value <= now)
  }

  /** What `ORDER BY created_at ASC LIMIT` may answer: ties come in any order. */
  predicate PendingAnswer(t: Table, now: Time, limit: nat, picked: seq<Id>) {
    && (forall i | 0 <= i < |picked| :: DuePending(t, now, picked[i]))
    && (forall i, j | 0 <= i < j < |picked| :: picked[i] != picked[j])
    && (forall i, j | 0 <= i < j < |picked| :: t[picked[i]].createdAt <= t[picked[j]].createdAt)
    && |picked| <= limit
    && (forall id | id in t && DuePending(t, now, id) && id !in picked ::
          |picked| == limit && forall i | 0 <= i < |picked| :: t[picked[i]].createdAt <= t[id].createdAt)
  }

  // ---------------------------------------------------------------- what inserts mean

  predicate UniqueKeys(t: Table) {
    forall a, b | a in t && b in t && a != b && t[a].key.Some? :: t[a].key != t[b].key
  }

  /** A set of drafts that the two unique indexes accept together. */
  ghost predicate Insertable(t: Table, ds: seq<Draft>) {
    && (forall i | 0 <= i < |ds| :: CanInsert(t, ds[i]))
    && (forall i, j | 0 <= i < j < |ds| ::
          ds[i].id != ds[j].id && (ds[i].row.key.Some? ==> ds[i].row.key != ds[j].row.key))
  }

  /** A transaction that commits adds exactly its drafts. */
  lemma {:induction false} InsertAllAdds(t: Table, ds: seq<Draft>)
    requires InsertAll(t, ds).Some?
    ensures var u := InsertAll(t, ds).value;
            && (forall id :: id in u <==> id in t || exists i :: 0 <= i < |ds| && ds[i].id == id)
            && (forall id | id in t :: u[id] == t[id])
            && (forall i | 0 <= i < |ds| :: ds[i].id !in t && u[ds[i].id] == ds[i].row)
  {
    if ds != [] {
      var n := |ds| - 1;
      InsertAllAdds(t, ds[..n]);
      var u, v := InsertAll(t, ds[..n]).value, InsertAll(t, ds).value;
      assert forall i | 0 <= i < n :: ds[..n][i] == ds[i];
      forall id ensures id in v <==> id in t || exists i :: 0 <= i < |ds| && ds[i].id == id {
        if id in u && id !in t {
          var i :| 0 <= i < n && ds[..n][i].id == id;
          assert ds[i].id == id;
        }
        if id == ds[n].id { assert ds[n].id == id; }
      }
    }
  }

  /** One more insert is accepted exactly when it collides with no earlier row or draft. */
  lemma CanInsertAfter(t: Table, ds: seq<Draft>, d: Draft)
    requires InsertAll(t, ds).Some?
    ensures CanInsert(InsertAll(t, ds).value, d) <==>
            && CanInsert(t, d)
            && (forall i | 0 <= i < |ds| :: ds[i].id != d.id && (d.row.key.Some? ==> ds[i].row.key != d.row.key))
  {
    InsertAllAdds(t, ds);
    var u := InsertAll(t, ds).value;
    if CanInsert(u, d) {
      forall i | 0 <= i < |ds| ensures ds[i].id != d.id && (d.row.key.Some? ==> ds[i].row.key != d.row.key) {
        assert ds[i].id in u;
      }
      assert forall id | id in t :: id in u && u[id].key == t[id].key;
    }
  }

  /** The transaction commits exactly when no draft collides with the table or with another draft. */
  lemma {:induction false} InsertAllAllOrNothing(t: Table, ds: seq<Draft>)
    ensures InsertAll(t, ds).Some? <==> Insertable(t, ds)
  {
    if ds != [] {
      var n := |ds| - 1;
      var front := ds[..n];
      InsertAllAllOrNothing(t, front);
      assert forall i | 0 <= i < n :: front[i] == ds[i];
      if InsertAll(t, front).Some? {
        CanInsertAfter(t, front, ds[n]);
      } else {
        assert !Insertable(t, ds);
      }
    }
  }

  /** A refused prefix refuses the whole transaction. */
  lemma {:induction false} InsertAllPrefix(t: Table, ds: seq<Draft>, n: nat)
    requires n <= |ds| && InsertAll(t, ds[..n]).None?
    ensures InsertAll(t, ds).None?
  {
    if n < |ds| {
      assert ds[..|ds| - 1][..n] == ds[..n];
      InsertAllPrefix(t, ds[..|ds| - 1], n);
    } else {
      assert ds[..n] == ds;
    }
  }

  lemma {:induction false} InsertAllKeepsKeysUnique(t: Table, ds: seq<Draft>)
    requires UniqueKeys(t) && InsertAll(t, ds).Some?
    ensures UniqueKeys(InsertAll(t, ds).value)
  {
    if ds != [] {
      InsertAllKeepsKeysUnique(t, ds[..|ds| - 1]);
    }
  }

  // ---------------------------------------------------------------- the repository

  datatype RepoError = NotFound | Duplicate | Unavailable

  /** How the server ends a write: it confirms it, undoes it, or does it without the client hearing. */
  datatype Commitment = Confirmed | RolledBack | Unheard

  class NotificationRepo {
    var rows: Table

    constructor ()
      ensures rows == map[]
    {
      rows := map[];
    }

    /** INSERT ... RETURNING on its own. */
    method Create(d: Draft, commit: Commitment) returns (r: Result<(), RepoError>)
      modifies this
      ensures r.Ok? <==> commit == Confirmed && CanInsert(old(rows), d)
      ensures r == Err(Duplicate) <==> !CanInsert(old(rows), d)
      ensures rows == if commit != RolledBack && CanInsert(old(rows), d) then old(rows)[d.id := d.row] else old(rows)
      ensures InsertAll(old(rows), [d]) == if CanInsert(old(rows), d) then Some(old(rows)[d.id := d.row]) else None
    {
      assert InsertAll(rows, [d][..0]) == Some(rows);
      if !CanInsert(rows, d) { return Err(Duplicate); }
      if commit != RolledBack { rows := rows[d.id := d.row]; }
      return if commit == Confirmed then Ok(()) else Err(Unavailable);
    }

    /** One transaction: the inserts go to a working copy that only a commit makes visible. */
    method CreateBatch(ds: seq<Draft>, commit: Commitment) returns (r: Result<(), RepoError>)
      modifies this
      ensures r.Ok? <==> commit == Confirmed && InsertAll(old(rows), ds).Some?
      ensures r == Err(Duplicate) <==> InsertAll(old(rows), ds).None?
      ensures rows == if commit != RolledBack && InsertAll(old(rows), ds).Some? then InsertAll(old(rows), ds).value else old(rows)
    {
      var tx := rows;
      for i := 0 to |ds|
        invariant InsertAll(rows, ds[..i]) == Some(tx)
        invariant rows == old(rows)
      {
        assert ds[..i + 1][..i] == ds[..i];
        if !CanInsert(tx, ds[i]) {
          InsertAllPrefix(rows, ds, i + 1);
          return Err(Duplicate);
        }
        tx := tx[ds[i].id := ds[i].row];
      }
      assert ds[..|ds|] == ds;
      if commit != RolledBack { rows := tx; }
      return if commit == Confirmed then Ok(()) else Err(Unavailable);
    }

    method GetByIdempotencyKey(key: string) returns (r: Option<Id>)
      ensures r.Some? ==> r.value in rows && rows[r.value].key == Some(key)
      ensures r.None? <==> !KeyTaken(rows, Some(key))
    {
      if KeyTaken(rows, Some(key)) {
        var id :| id in rows && rows[id].key == Some(key);
        return Some(id);
      }
      return None;
    }

    /** The status is written whatever it was; a message id is replaced only by another; sent_at is
        set by `sent` and never cleared. No other column and no other row is touched. */
    method UpdateStatus(id: Id, status: Status, msg: Option<string>, error: Option<string>, now: Time)
      returns (r: Result<(), RepoError>)
      modifies this
      ensures rows == SetStatus(old(rows), id, status, msg, error, now)
      ensures r == if id in old(rows) then Ok(()) else Err(NotFound)
      ensures OthersKept(old(rows), rows, id)
      ensures id in old(rows) ==>
                var (a, b) := (old(rows)[id], rows[id]);
                && b.status == status && b.lastError == error
                && (msg.Some? ==> b.providerMsgId == msg) && (msg.None? ==> b.providerMsgId == a.providerMsgId)
                && (status == Sent ==> b.sentAt == Some(now)) && (status != Sent ==> b.sentAt == a.sentAt)
                && SameIdentity(a, b) && b.retryCount == a.retryCount
    {
      if id !in rows { return Err(NotFound); }
      var row := rows[id].(status := status, lastError := error);
      if msg.Some? { row := row.(providerMsgId := msg); }
      if status == Sent { row := row.(sentAt := Some(now)); }
      rows := rows[id := row];
      return Ok(());
    }

    /** Counts one more failure, whatever the status, and is silent about a missing row. */
    method IncrementRetry(id: Id, error: string)
      modifies this
      ensures rows == AddRetry(old(rows), id, error)
      ensures OthersKept(old(rows), rows, id)
      ensures id in old(rows) ==>
                var (a, b) := (old(rows)[id], rows[id]);
                && b.retryCount == a.retryCount + 1 && b.lastError == Some(error)
                && SameIdentity(a, b) && b.status == a.status && b.providerMsgId == a.providerMsgId && b.sentAt == a.sentAt
    {
      if id in rows {
        rows := rows[id := rows[id].(retryCount := rows[id].retryCount + 1, lastError := Some(error))];
      }
    }

    /** Succeeds on a pending or queued row, and then only its status changes; else nothing does. */
    method Cancel(id: Id) returns (r: Result<(), RepoError>)
      modifies this
      ensures rows == CancelRow(old(rows), id)
      ensures r.Ok? <==> id in old(rows) && old(rows)[id].status in {Pending, Queued}
      ensures r.Err? ==> r.error == NotFound && rows == old(rows)
      ensures OthersKept(old(rows), rows, id)
      ensures r.Ok? ==> rows[id].status == Cancelled && rows[id].(status := old(rows)[id].status) == old(rows)[id]
    {
      if !Cancellable(rows, id) { return Err(NotFound); }
      rows := rows[id := rows[id].(status := Cancelled)];
      return Ok(());
    }
  }

  /** No row comes or goes, and only row `id` may differ. */
  ghost predicate OthersKept(t: Table, u: Table, id: Id) {
    u.Keys == t.Keys && forall x | x in t && x != id :: u[x] == t[x]
  }

  predicate SameIdentity(a: Row, b: Row) {
    b.batch == a.batch && b.key == a.key && b.channel == a.channel && b.scheduledAt == a.scheduledAt && b.createdAt == a.createdAt
  }
}
