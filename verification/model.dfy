/** The notification row (internal/model/notification.go, migrations/001_create_notifications.up.sql)
    and what the service sees of a creation request (internal/model/request.go). */
module Model {
  import opened Basics

  type Id = nat

  type Time = int

  datatype Channel = Sms | Email | Push

  datatype Status = Pending | Queued | Sending | Sent | Failed | Cancelled

  /** Recipient, content, subject and priority travel with the row unchanged and are left out. */
  datatype Row = Row(
    batch: Option<nat>,
    key: Option<string>,
    channel: Channel,
    scheduledAt: Option<Time>,
    createdAt: Time,
    status: Status,
    retryCount: nat,
    providerMsgId: Option<string>,
    sentAt: Option<Time>,
    lastError: Option<string>)

  type Table = map<Id, Row>

  /** Of any rows one is oldest. */
  lemma {:induction false} Oldest(t: Table, ids: set<Id>) returns (last: Id)
    requires ids != {} && ids <= t.Keys
    ensures last in ids && forall id | id in ids :: t[last].createdAt <= t[id].createdAt
    decreases |ids|
  {
    var x :| x in ids;
    var rest := ids - {x};
    assert forall id | id in ids :: id == x || id in rest;
    if rest == {} {
      last := x;
    } else {
      var y := Oldest(t, rest);
      last := if t[x].createdAt <= t[y].createdAt then x else y;
    }
  }

  /** One creation request. `valid` is the verdict of field validation; `templateOk` says that
      the request names no template, or one that exists on its channel. */
  datatype Item = Item(
    valid: bool,
    templateOk: bool,
    key: Option<string>,
    channel: Channel,
    scheduledAt: Option<Time>)

  /** The row a creation request is inserted as. */
  function NewRow(item: Item, batch: Option<nat>, now: Time): Row {
    Row(batch, item.key, item.channel, item.scheduledAt, now, Pending, 0, None, None, None)
  }
}
