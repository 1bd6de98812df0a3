/** List in internal/repository/notification.go, Normalize in internal/model/request.go and the page
    count of internal/handler/notification.go. */
module Querying {
  import opened Basics
  import opened Model
  import opened Backoff

  datatype Filter = Filter(
    status: Option<Status>,
    channel: Option<Channel>,
    batch: Option<nat>,
    start: Option<Time>,
    finish: Option<Time>)

  /** The conjunction of the filters that are set. */
  predicate Matches(f: Filter, row: Row) {
    && (f.status.Some? ==> row.status == f.status.value)
    && (f.channel.Some? ==> row.channel == f.channel.value)
    && (f.batch.Some? ==> row.batch == f.batch)
    && (f.start.Some? ==> f.start.value <= row.createdAt)
    && (f.finish.Some? ==> row.createdAt <= f.finish.value)
  }

  // ---------------------------------------------------------------- the query text

  datatype Column = StatusColumn | ChannelColumn | BatchColumn | CreatedAtColumn

  datatype Op = Equal | AtLeast | AtMost

  /** `column op $arg`. */
  datatype Condition = Condition(column: Column, op: Op, arg: nat)

  datatype Arg = StatusArg(status: Status) | ChannelArg(channel: Channel) | BatchArg(batch: nat) | TimeArg(time: Time) | IntArg(n: int)

  /** What the server makes of a condition; `$1` is the first argument. */
  predicate Satisfies(row: Row, c: Condition, args: seq<Arg>) {
    && 1 <= c.arg <= |args|
    && match (c.column, c.op, args[c.arg - 1])
       case (StatusColumn, Equal, StatusArg(status)) => row.status == status
       case (ChannelColumn, Equal, ChannelArg(channel)) => row.channel == channel
       case (BatchColumn, Equal, BatchArg(batch)) => row.batch == Some(batch)
       case (CreatedAtColumn, AtLeast, TimeArg(time)) => time <= row.createdAt
       case (CreatedAtColumn, AtMost, TimeArg(time)) => row.createdAt <= time
       case _ => false
  }

  /** `WHERE c1 AND c2 AND ...`, or no WHERE at all. */
  predicate Where(row: Row, conditions: seq<Condition>, args: seq<Arg>) {
    forall k | 0 <= k < |conditions| :: Satisfies(row, conditions[k], args)
  }

  /** The clause keeps exactly the rows that `f` asks for. */
  ghost predicate KeepsExactly(f: Filter, conditions: seq<Condition>, args: seq<Arg>) {
    forall row :: Where(row, conditions, args) <==> Matches(f, row)
  }

  predicate WellNumbered(conditions: seq<Condition>, args: seq<Arg>) {
    forall k | 0 <= k < |conditions| :: 1 <= conditions[k].arg <= |args|
  }

  /** More arguments do not change what the conditions mean. */
  lemma MoreArgs(row: Row, conditions: seq<Condition>, args: seq<Arg>, more: seq<Arg>)
    requires WellNumbered(conditions, args)
    ensures Where(row, conditions, args + more) <==> Where(row, conditions, args)
  {
    forall k | 0 <= k < |conditions|
      ensures Satisfies(row, conditions[k], args + more) <==> Satisfies(row, conditions[k], args)
    {
      assert (args + more)[conditions[k].arg - 1] == args[conditions[k].arg - 1];
    }
  }

  lemma OneMoreCondition(row: Row, conditions: seq<Condition>, args: seq<Arg>, c: Condition, arg: Arg)
    requires WellNumbered(conditions, args)
    ensures Where(row, conditions + [c], args + [arg]) <==> Where(row, conditions, args) && Satisfies(row, c, args + [arg])
  {
    MoreArgs(row, conditions, args, [arg]);
    forall k | 0 <= k < |conditions| ensures (conditions + [c])[k] == conditions[k] {}
    assert (conditions + [c])[|conditions|] == c;
  }

  /** The clause under construction. `idx` always numbers the next argument. */
  class Builder {
    var conditions: seq<Condition>
    var args: seq<Arg>
    var idx: nat

    ghost predicate Valid()
      reads this
    {
      idx == |args| + 1 && |conditions| == |args| && WellNumbered(conditions, args)
    }

    ghost predicate Means(f: Filter)
      reads this
    {
      KeepsExactly(f, conditions, args)
    }

    constructor ()
      ensures Valid() && Means(Filter(None, None, None, None, None))
    {
      conditions, args, idx := [], [], 1;
    }

    method Add(column: Column, op: Op, arg: Arg, ghost before: Filter, ghost after: Filter)
      requires Valid() && Means(before)
      requires forall row :: Matches(after, row) <==> Matches(before, row) && Satisfies(row, Condition(column, op, 1), [arg])
      modifies this
      ensures Valid() && Means(after)
    {
      ghost var conditions0, args0, c := conditions, args, Condition(column, op, idx);
      conditions := conditions + [Condition(column, op, idx)];
      args := args + [arg];
      idx := idx + 1;
      forall row ensures Where(row, conditions, args) <==> Matches(after, row) {
        OneMoreCondition(row, conditions0, args0, c, arg);
        assert Satisfies(row, c, args0 + [arg]) <==> Satisfies(row, Condition(column, op, 1), [arg]);
      }
    }
  }

  /** The built clause keeps exactly the rows that meet every filter that is set. */
  method BuildWhere(f: Filter) returns (conditions: seq<Condition>, args: seq<Arg>, idx: nat)
    ensures idx == |args| + 1 && WellNumbered(conditions, args) && KeepsExactly(f, conditions, args)
  {
    ghost var f0 := Filter(None, None, None, None, None);
    ghost var f1 := f0.(status := f.status);
    ghost var f2 := f1.(channel := f.channel);
    ghost var f3 := f2.(batch := f.batch);
    ghost var f4 := f3.(start := f.start);
    var b := new Builder();
    if f.status.Some? { b.Add(StatusColumn, Equal, StatusArg(f.status.value), f0, f1); }
    assert b.Means(f1);
    if f.channel.Some? { b.Add(ChannelColumn, Equal, ChannelArg(f.channel.value), f1, f2); }
    assert b.Means(f2);
    if f.batch.Some? { b.Add(BatchColumn, Equal, BatchArg(f.batch.value), f2, f3); }
    assert b.Means(f3);
    if f.start.Some? { b.Add(CreatedAtColumn, AtLeast, TimeArg(f.start.value), f3, f4); }
    assert b.Means(f4);
    if f.finish.Some? { b.Add(CreatedAtColumn, AtMost, TimeArg(f.finish.value), f4, f); }
    assert b.Means(f);
    conditions, args, idx := b.conditions, b.args, b.idx;
  }

  // ---------------------------------------------------------------- one page

  class ListRequest {
    const filter: Filter
    var page: int
    var pageSize: int

    constructor (filter: Filter, page: int, pageSize: int)
      ensures this.filter == filter && this.page == page && this.pageSize == pageSize
    {
      this.filter, this.page, this.pageSize := filter, page, pageSize;
    }

    /** Brings page and size into range, and leaves them alone if they are. */
    method Normalize()
      modifies this`page, this`pageSize
      ensures page == Max(old(page), 1) && 1 <= pageSize <= 100
      ensures pageSize == if old(pageSize) < 1 then 20 else Min(old(pageSize), 100)
    {
      if page < 1 { page := 1; }
      if pageSize < 1 { pageSize := 20; }
      if pageSize > 100 { pageSize := 100; }
    }
  }

  /** Go's int on 64-bit machines. */
  function Wrap64(x: int): int {
    (x + INT64_LIMIT) % (2 * INT64_LIMIT) - INT64_LIMIT
  }

  function Matching(t: Table, f: Filter): set<Id> { set id | id in t && Matches(f, t[id]) }

  /** What `ORDER BY created_at DESC` may answer: rows created at the same time come in any order. */
  predicate Newest(t: Table, selected: set<Id>, ids: seq<Id>) {
    && Distinct(ids) && Members(ids) == selected
    && forall i, j | 0 <= i < j < |ids| :: ids[i] in t && ids[j] in t && t[ids[j]].createdAt <= t[ids[i]].createdAt
  }

  predicate IsOrdering(t: Table, f: Filter, ids: seq<Id>) { Newest(t, Matching(t, f), ids) }

  lemma {:induction false} NewestExists(t: Table, selected: set<Id>) returns (ids: seq<Id>)
    requires selected <= t.Keys
    ensures Newest(t, selected, ids)
    decreases |selected|
  {
    if selected == {} {
      ids := [];
    } else {
      var last := Oldest(t, selected);
      var front := NewestExists(t, selected - {last});
      forall i | 0 <= i < |front| ensures front[i] in selected && front[i] != last { assert front[i] in Members(front); }
      ids := front + [last];
      assert Members(ids) == Members(front) + {last};
    }
  }

  /** The rows that a built clause keeps. */
  function Selected(t: Table, conditions: seq<Condition>, args: seq<Arg>): set<Id> {
    set id | id in t && Where(t[id], conditions, args)
  }

  function Slice(ids: seq<Id>, offset: nat, limit: nat): seq<Id> {
    ids[Min(offset, |ids|)..Min(offset + limit, |ids|)]
  }

  function PageOf(ids: seq<Id>, page: nat, size: nat): seq<Id>
    requires page >= 1
  {
    Slice(ids, (page - 1) * size, size)
  }

  /** `LIMIT $l OFFSET $o` on the ordered rows. A negative offset is an error. */
  function Window(ids: seq<Id>, args: seq<Arg>, l: nat, o: nat): Option<seq<Id>> {
    if 1 <= l <= |args| && 1 <= o <= |args| && args[l - 1].IntArg? && args[o - 1].IntArg? && args[l - 1].n >= 0 && args[o - 1].n >= 0
    then Some(Slice(ids, args[o - 1].n, args[l - 1].n)) else None
  }

  /** The data query, run by the server: the rows that the clause keeps, newest first, ties in any
      order, cut to the window. */
  method Execute(t: Table, conditions: seq<Condition>, args: seq<Arg>, l: nat, o: nat)
    returns (rows: Option<seq<Id>>, ghost ids: seq<Id>)
    ensures Newest(t, Selected(t, conditions, args), ids) && rows == Window(ids, args, l, o)
  {
    ghost var some := NewestExists(t, Selected(t, conditions, args));
    var order: seq<Id> :| Newest(t, Selected(t, conditions, args), order);
    ids := order;
    rows := Window(order, args, l, o);
  }

  /** List: the requested page of the matching rows, newest first, and the number of all of them, or
      an error of the server. What the rows are is left to the built clause and its arguments. */
  method List(t: Table, req: ListRequest) returns (rows: Option<seq<Id>>, total: nat, ghost ids: seq<Id>)
    requires req.page < INT64_LIMIT
    modifies req`page, req`pageSize
    ensures 1 <= req.page && 1 <= req.pageSize <= 100
    ensures IsOrdering(t, req.filter, ids) && total == |ids|
    ensures (req.page - 1) * req.pageSize < INT64_LIMIT ==> rows == Some(PageOf(ids, req.page, req.pageSize))
    ensures rows == ListPage(ids, req.page, req.pageSize)
    ensures forall i, j | 0 <= i < j < |ids| :: ids[i] in t && ids[j] in t && t[ids[i]].createdAt >= t[ids[j]].createdAt
  {
    req.Normalize();
    var conditions, args, idx := BuildWhere(req.filter);
    SelectedIsMatching(t, req.filter, conditions, args, []);
    total := |Selected(t, conditions, args)|;                        // SELECT COUNT(*)
    rows, ids := DataQuery(t, req.filter, conditions, args, idx, req.page, req.pageSize);
    TotalIsLength(t, req.filter, ids);
  }

  method DataQuery(t: Table, f: Filter, conditions: seq<Condition>, args0: seq<Arg>, idx: nat, page: nat, size: nat)
    returns (rows: Option<seq<Id>>, ghost ids: seq<Id>)
    requires idx == |args0| + 1 && WellNumbered(conditions, args0) && KeepsExactly(f, conditions, args0) && page >= 1
    ensures IsOrdering(t, f, ids) && rows == ListPage(ids, page, size)
    ensures (page - 1) * size < INT64_LIMIT ==> rows == Some(PageOf(ids, page, size))
  {
    var offset := Wrap64((page - 1) * size);
    var args := args0 + [IntArg(size), IntArg(offset)];
    SelectedIsMatching(t, f, conditions, args0, [IntArg(size), IntArg(offset)]);
    rows, ids := Execute(t, conditions, args, idx, idx + 1);
    WindowIsListPage(ids, args0, page, size);
    PageInRange(ids, page, size);
  }

  lemma TotalIsLength(t: Table, f: Filter, ids: seq<Id>)
    requires IsOrdering(t, f, ids)
    ensures |Matching(t, f)| == |ids|
  {
    DistinctSize(ids);
  }

  lemma SelectedIsMatching(t: Table, f: Filter, conditions: seq<Condition>, args: seq<Arg>, more: seq<Arg>)
    requires WellNumbered(conditions, args) && KeepsExactly(f, conditions, args)
    ensures Selected(t, conditions, args + more) == Matching(t, f)
    ensures more == [] ==> Selected(t, conditions, args) == Matching(t, f)
  {
    forall id | id in t ensures Where(t[id], conditions, args + more) <==> Matches(f, t[id]) { MoreArgs(t[id], conditions, args, more); }
    assert more == [] ==> args + more == args;
  }

  /** What a request for a page gets. */
  function ListPage(ids: seq<Id>, page: nat, size: nat): Option<seq<Id>>
    requires page >= 1
  {
    var offset := Wrap64((page - 1) * size);
    if offset < 0 then None else Some(Slice(ids, offset, size))
  }

  lemma WindowIsListPage(ids: seq<Id>, where: seq<Arg>, page: nat, size: nat)
    requires page >= 1
    ensures Window(ids, where + [IntArg(size), IntArg(Wrap64((page - 1) * size))], |where| + 1, |where| + 2)
            == ListPage(ids, page, size)
  {
    var args := where + [IntArg(size), IntArg(Wrap64((page - 1) * size))];
    assert args[|where|] == IntArg(size) && args[|where| + 1] == IntArg(Wrap64((page - 1) * size));
  }

  lemma OffsetInRange(page: nat, size: nat)
    requires page >= 1
    ensures (page - 1) * size < INT64_LIMIT ==> Wrap64((page - 1) * size) == (page - 1) * size
  {
    Product(page - 1, size);
  }

  lemma PageInRange(ids: seq<Id>, page: nat, size: nat)
    requires page >= 1
    ensures (page - 1) * size < INT64_LIMIT ==> ListPage(ids, page, size) == Some(PageOf(ids, page, size))
  {
    OffsetInRange(page, size);
    Product(page - 1, size);
  }

  lemma Product(a: nat, b: nat)
    ensures 0 <= a * b
  {
  }

  /** A request is answered with its own page exactly when the offset fits an int64, or wraps to one
      past the end. Page 2^62 + 1 of size 4 gets the first page. */
  lemma RightPageIff(ids: seq<Id>, page: nat, size: nat)
    requires page >= 1 && size >= 1 && |ids| < INT64_LIMIT
    ensures ListPage(ids, page, size) == Some(PageOf(ids, page, size)) <==>
            (page - 1) * size < INT64_LIMIT || Wrap64((page - 1) * size) >= |ids|
  {
    OffsetInRange(page, size);
    if (page - 1) * size >= INT64_LIMIT { FarOffset(ids, (page - 1) * size, size); }
  }

  /** An offset past the end asks for nothing, and a wrapped one gets nothing exactly past the end. */
  lemma FarOffset(ids: seq<Id>, offset: nat, size: nat)
    requires size >= 1 && |ids| < INT64_LIMIT <= offset
    ensures Slice(ids, offset, size) == []
    ensures 0 <= Wrap64(offset) ==> (Slice(ids, Wrap64(offset), size) == [] <==> Wrap64(offset) >= |ids|)
  {
    var wrapped := Wrap64(offset);
    if 0 <= wrapped < |ids| { assert |Slice(ids, wrapped, size)| == Min(wrapped + size, |ids|) - wrapped > 0; }
  }

  lemma WrapsToFirstPage(ids: seq<Id>)
    ensures ListPage(ids, 0x4000_0000_0000_0001, 4) == Some(PageOf(ids, 1, 4))
  {
  }

  // ---------------------------------------------------------------- all pages

  /** int(math.Ceil(float64(total) / float64(size))), exact while total is below 2^53. */
  function TotalPages(total: nat, size: nat): nat
    requires size >= 1
  {
    (total + size - 1) / size
  }

  /** Pages 1 to n of one order. */
  function FirstPages(ids: seq<Id>, n: nat, size: nat): seq<Id> {
    if n == 0 then [] else FirstPages(ids, n - 1, size) + PageOf(ids, n, size)
  }

  lemma NextBoundary(n: nat, size: nat)
    ensures (n + 1) * size == n * size + size && 0 <= n * size
  {
  }

  lemma {:induction false} FirstPagesJoin(ids: seq<Id>, n: nat, size: nat)
    ensures FirstPages(ids, n, size) == ids[..Min(n * size, |ids|)]
  {
    if n > 0 {
      FirstPagesJoin(ids, n - 1, size);
      NextBoundary(n - 1, size);
      var lo, hi := Min((n - 1) * size, |ids|), Min(n * size, |ids|);
      assert ids[..lo] + ids[lo..hi] == ids[..hi];
    }
  }

  lemma LastPage(total: nat, size: nat)
    requires size >= 1
    ensures total <= TotalPages(total, size) * size < total + size
  {
    var n := total + size - 1;
    assert n == size * (n / size) + n % size;
    assert TotalPages(total, size) * size == size * (n / size);
  }

  lemma LastPageHasRows(ids: seq<Id>, size: nat)
    requires size >= 1 && ids != []
    ensures TotalPages(|ids|, size) >= 1 && PageOf(ids, TotalPages(|ids|, size), size) != []
  {
    var n := TotalPages(|ids|, size);
    LastPage(|ids|, size);
    assert n >= 1;
    NextBoundary(n - 1, size);
    assert (n - 1) * size < |ids| && (n - 1) * size + size >= |ids|;
    assert |PageOf(ids, n, size)| == |ids| - (n - 1) * size;
  }

  lemma LaterOffset(n: nat, later: nat, size: nat)
    requires n < later
    ensures n * size <= (later - 1) * size
  {
    ScaleMonotone(size, n, later - 1);
  }

  /** In one fixed order, pages 1 to TotalPages are the filtered list, without loss or repeat, and
      every later page is empty; the last of them is not. */
  lemma PagesAreTheList(ids: seq<Id>, size: nat, later: nat)
    requires size >= 1 && later > TotalPages(|ids|, size)
    ensures FirstPages(ids, TotalPages(|ids|, size), size) == ids
    ensures PageOf(ids, later, size) == []
    ensures ids != [] ==> TotalPages(|ids|, size) >= 1 && PageOf(ids, TotalPages(|ids|, size), size) != []
  {
    var n := TotalPages(|ids|, size);
    LastPage(|ids|, size);
    if ids != [] { LastPageHasRows(ids, size); }
    FirstPagesJoin(ids, n, size);
    assert ids[..|ids|] == ids;
    LaterOffset(n, later, size);
  }

  // ---------------------------------------------------------------- pages of different orders

  /** Each page comes from a query of its own, and each query may break ties its own way. */
  function PagesOf(orders: seq<seq<Id>>, size: nat): seq<Id> {
    if orders == [] then [] else
      var n := |orders| - 1;
      PagesOf(orders[..n], size) + PageOf(orders[n], n + 1, size)
  }

  ghost predicate AllOrderings(t: Table, f: Filter, orders: seq<seq<Id>>) {
    forall p | 0 <= p < |orders| :: IsOrdering(t, f, orders[p])
  }

  /** Two rows created at the same time lie on both sides of a page boundary. */
  predicate TieAt(t: Table, ids: seq<Id>, k: nat) {
    0 < k < |ids| && ids[k - 1] in t && ids[k] in t && t[ids[k - 1]].createdAt == t[ids[k]].createdAt
  }

  ghost predicate NoTieAcrossPages(t: Table, ids: seq<Id>, size: nat) {
    forall p: nat :: !TieAt(t, ids, p * size)
  }

  lemma OrderingInTable(t: Table, f: Filter, ids: seq<Id>, i: nat)
    requires IsOrdering(t, f, ids) && i < |ids|
    ensures ids[i] in t && ids[i] in Matching(t, f)
  {
    assert ids[i] in Members(ids);
  }

  lemma SameLength(t: Table, f: Filter, a: seq<Id>, b: seq<Id>)
    requires IsOrdering(t, f, a) && IsOrdering(t, f, b)
    ensures |a| == |b|
  {
    DistinctSize(a);
    DistinctSize(b);
  }

  lemma PrefixDistinct(ids: seq<Id>, k: nat)
    requires Distinct(ids) && k <= |ids|
    ensures Distinct(ids[..k]) && |Members(ids[..k])| == k
  {
    DistinctSize(ids[..k]);
  }

  /** Where no tie straddles, the first k rows are the same in every order. */
  lemma SamePrefix(t: Table, f: Filter, a: seq<Id>, b: seq<Id>, k: nat)
    requires IsOrdering(t, f, a) && IsOrdering(t, f, b) && k <= |a| && !TieAt(t, a, k)
    ensures k <= |b| && Members(b[..k]) == Members(a[..k])
  {
    SameLength(t, f, a, b);
    PrefixDistinct(a, k);
    PrefixDistinct(b, k);
    if 0 < k < |a| {
      OrderingInTable(t, f, a, k - 1);
      OrderingInTable(t, f, a, k);
      forall j | 0 <= j < k ensures b[j] in Members(a[..k]) {
        EarlyIn(t, f, a, b, k, j);
      }
      SubsetSize(Members(b[..k]), Members(a[..k]));
    } else if k == |a| {
      assert a[..k] == a && b[..k] == b;
    }
  }

  /** A row that comes after the boundary in one order comes after it in every other. */
  lemma LateIn(t: Table, f: Filter, a: seq<Id>, b: seq<Id>, k: nat, j: nat, m: nat)
    requires IsOrdering(t, f, a) && IsOrdering(t, f, b) && |a| == |b| && 0 < k < |a| && !TieAt(t, a, k)
    requires j < |b| && k <= m < |a| && b[j] == a[m]
    ensures k <= j
  {
    OrderingInTable(t, f, a, k - 1);
    OrderingInTable(t, f, a, k);
    assert t[a[m]].createdAt < t[a[k - 1]].createdAt;
    forall i | 0 <= i < k ensures a[i] in Members(b[..j]) {
      OrderingInTable(t, f, a, i);
      assert t[a[k - 1]].createdAt <= t[a[i]].createdAt;
      assert a[i] in Members(b);
      var q :| 0 <= q < |b| && b[q] == a[i];
      assert q < j;
      assert b[..j][q] == a[i];
    }
    PrefixDistinct(a, k);
    PrefixDistinct(b, j);
    SubsetSize(Members(a[..k]), Members(b[..j]));
  }

  /** A row among the first k of one order is among the first k of another. */
  lemma EarlyIn(t: Table, f: Filter, a: seq<Id>, b: seq<Id>, k: nat, j: nat)
    requires IsOrdering(t, f, a) && IsOrdering(t, f, b) && |a| == |b| && 0 < k < |a| && !TieAt(t, a, k) && j < k
    ensures b[j] in a[..k]
  {
    OrderingInTable(t, f, b, j);
    assert b[j] in Members(a);
    var m :| 0 <= m < |a| && a[m] == b[j];
    if m < k {
      assert a[..k][m] == b[j];
    } else {
      LateIn(t, f, a, b, k, j, m);
    }
  }

  /** One more page, whatever order it comes from, adds the next rows and none that were there. */
  lemma PageAdds(t: Table, f: Filter, a: seq<Id>, b: seq<Id>, shown: seq<Id>, lo: nat, hi: nat)
    requires IsOrdering(t, f, a) && IsOrdering(t, f, b) && lo <= hi <= |a| && !TieAt(t, a, lo) && !TieAt(t, a, hi)
    requires Distinct(shown) && Members(shown) == Members(a[..lo])
    ensures hi <= |b| && Distinct(shown + b[lo..hi]) && Members(shown + b[lo..hi]) == Members(a[..hi])
  {
    SamePrefix(t, f, a, b, lo);
    SamePrefix(t, f, a, b, hi);
    assert b[..hi] == b[..lo] + b[lo..hi];
    forall i | lo <= i < hi ensures b[i] !in shown {
      assert b[i] !in b[..lo];
      assert b[i] !in Members(b[..lo]);
      assert b[i] !in Members(shown);
    }
    assert Members(shown + b[lo..hi]) == Members(shown) + Members(b[lo..hi]);
    assert Members(b[..hi]) == Members(b[..lo]) + Members(b[lo..hi]);
  }

  lemma BoundaryHasNoTie(t: Table, ids: seq<Id>, size: nat, n: nat)
    requires NoTieAcrossPages(t, ids, size)
    ensures !TieAt(t, ids, Min(n * size, |ids|))
  {
    assert !TieAt(t, ids, n * size);
  }

  lemma {:induction false} PagesCover(t: Table, f: Filter, a: seq<Id>, orders: seq<seq<Id>>, size: nat)
    requires IsOrdering(t, f, a) && AllOrderings(t, f, orders) && NoTieAcrossPages(t, a, size)
    ensures Distinct(PagesOf(orders, size))
    ensures Members(PagesOf(orders, size)) == Members(a[..Min(|orders| * size, |a|)])
  {
    if orders != [] {
      var n := |orders| - 1;
      PagesCover(t, f, a, orders[..n], size);
      NextBoundary(n, size);
      BoundaryHasNoTie(t, a, size, n);
      BoundaryHasNoTie(t, a, size, n + 1);
      SameLength(t, f, a, orders[n]);
      PageAdds(t, f, a, orders[n], PagesOf(orders[..n], size), Min(n * size, |a|), Min((n + 1) * size, |a|));
    }
  }

  /** The order with the two rows of a tie exchanged. */
  function Swapped(ids: seq<Id>, k: nat): seq<Id>
    requires 0 < k < |ids|
  {
    ids[k - 1 := ids[k]][k := ids[k - 1]]
  }

  lemma SwappedIsOrdering(t: Table, f: Filter, ids: seq<Id>, k: nat)
    requires IsOrdering(t, f, ids) && TieAt(t, ids, k)
    ensures IsOrdering(t, f, Swapped(ids, k))
  {
    var b := Swapped(ids, k);
    forall x ensures x in b <==> x in ids {
      if x in ids {
        var i :| 0 <= i < |ids| && ids[i] == x;
        assert b[if i == k then k - 1 else if i == k - 1 then k else i] == x;
      }
    }
    assert Members(b) == Members(ids);
  }

  lemma {:induction false} PagesPrefix(orders: seq<seq<Id>>, size: nat, m: nat)
    requires m <= |orders|
    ensures PagesOf(orders[..m], size) <= PagesOf(orders, size)
  {
    var n := |orders| - 1;
    if m <= n {
      PagesPrefix(orders[..n], size, m);
      assert orders[..n][..m] == orders[..m];
    } else {
      assert orders[..m] == orders;
    }
  }

  lemma {:induction false} SameOrderPages(ids: seq<Id>, orders: seq<seq<Id>>, size: nat)
    requires forall p | 0 <= p < |orders| :: orders[p] == ids
    ensures PagesOf(orders, size) == FirstPages(ids, |orders|, size)
  {
    if orders != [] { SameOrderPages(ids, orders[..|orders| - 1], size); }
  }

  /** Page p shows the tied row before the boundary; page p + 1, with the tie broken the other way,
      shows it again. */
  lemma TieRepeats(t: Table, f: Filter, a: seq<Id>, size: nat, p: nat, orders: seq<seq<Id>>)
    requires IsOrdering(t, f, a) && size >= 1 && TieAt(t, a, p * size) && p < |orders|
    requires (forall q | 0 <= q < p :: orders[q] == a) && orders[p] == Swapped(a, p * size)
    ensures !Distinct(PagesOf(orders, size))
  {
    var k := p * size;
    SameOrderPages(a, orders[..p], size);
    FirstPagesJoin(a, p, size);
    var two := PagesOf(orders[..p + 1], size);
    assert orders[..p + 1][..p] == orders[..p];
    assert two == a[..k] + PageOf(Swapped(a, k), p + 1, size);
    assert two[k - 1] == a[k - 1] && two[k] == Swapped(a, k)[k] == a[k - 1];
    PagesPrefix(orders, size, p + 1);
    assert PagesOf(orders, size)[k - 1] == PagesOf(orders, size)[k];
  }

  lemma PagesEnough(p: nat, size: nat, total: nat)
    requires size >= 1 && p * size < total
    ensures p < TotalPages(total, size)
  {
    LastPage(total, size);
    if TotalPages(total, size) <= p { ScaleMonotone(size, TotalPages(total, size), p); }
  }

  /** Every choice of orders shows every matching row exactly once over the pages. */
  ghost predicate AlwaysComplete(t: Table, f: Filter, size: nat)
    requires size >= 1
  {
    forall orders | AllOrderings(t, f, orders) && |orders| == TotalPages(|Matching(t, f)|, size) ::
      Distinct(PagesOf(orders, size)) && Members(PagesOf(orders, size)) == Matching(t, f)
  }

  /** `ORDER BY created_at DESC` has no tie-break, and each page is a query of its own. Walking the
      pages is sure to show every matching row exactly once if and only if no two rows created at
      the same time lie on both sides of a page boundary. */
  lemma PagesCompleteIff(t: Table, f: Filter, ids: seq<Id>, size: nat)
    requires IsOrdering(t, f, ids) && size >= 1
    ensures AlwaysComplete(t, f, size) <==> NoTieAcrossPages(t, ids, size)
  {
    var n := TotalPages(|Matching(t, f)|, size);
    DistinctSize(ids);
    LastPage(|ids|, size);
    if NoTieAcrossPages(t, ids, size) {
      forall orders | AllOrderings(t, f, orders) && |orders| == n
        ensures Distinct(PagesOf(orders, size)) && Members(PagesOf(orders, size)) == Matching(t, f)
      {
        PagesCover(t, f, ids, orders, size);
        assert ids[..Min(|orders| * size, |ids|)] == ids;
      }
    } else {
      var p: nat :| TieAt(t, ids, p * size);
      PagesEnough(p, size, |ids|);
      SwappedIsOrdering(t, f, ids, p * size);
      var orders := seq(n, q requires 0 <= q < n => if q == p then Swapped(ids, p * size) else ids);
      TieRepeats(t, f, ids, size, p, orders);
      assert AllOrderings(t, f, orders);
    }
  }
}
