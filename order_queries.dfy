/** The read side of `server/controllers/order.controller.js`: the filter,
    sort and offset pagination of `getOrders` and `getOrdersByUser`, and the
    aggregation of `getOrderStats`.  The collection is a sequence in the
    database's natural (insertion) order. */
module OrderQueries {
  import opened Wrappers
  import opened Text
  import opened OrderModel

  // ---------------------------------------------------------------------
  // Filtering

  /** The filter object `getOrders` builds: `search` is set only for a
      truthy search term, `status` only for a truthy status. */
  datatype Filter = Filter(search: Option<string>, status: Option<string>)

  /** A case-insensitive literal substring test (ASCII case folding). */
  predicate ContainsIgnoringCase(field: string, term: string) {
    Includes(Lower(field), Lower(term))
  }

  /** The `$or` of the search filter: customer name, email or order number. */
  predicate MatchesSearch(o: Order, term: string) {
    || ContainsIgnoringCase(o.customerName, term)
    || ContainsIgnoringCase(o.email, term)
    || ContainsIgnoringCase(o.orderId, term)
  }

  /** An order passes a filter when it passes every part that is set. */
  predicate Matches(o: Order, f: Filter) {
    && (f.search.Some? ==> MatchesSearch(o, f.search.value))
    && (f.status.Some? ==> o.status == f.status.value)
  }

  /** `Order.find(filter)` before sorting: the matching orders in natural
      order. */
  function Select(docs: seq<Order>, f: Filter): (r: seq<Order>)
    ensures |r| <= |docs|
    ensures forall o :: o in r <==> o in docs && Matches(o, f)
  {
    if docs == [] then []
    else if Matches(docs[0], f) then [docs[0]] + Select(docs[1..], f)
    else Select(docs[1..], f)
  }

  /** `Order.find({ userId })`: the orders that reference the account. */
  function OfUser(docs: seq<Order>, userId: string): (r: seq<Order>)
    ensures |r| <= |docs|
    ensures forall o :: o in r <==> o in docs && o.userId == Some(userId)
  {
    if docs == [] then []
    else if docs[0].userId == Some(userId) then [docs[0]] + OfUser(docs[1..], userId)
    else OfUser(docs[1..], userId)
  }

  // ---------------------------------------------------------------------
  // Sorting

  /** The numeric fields a listing can be sorted by. */
  datatype SortKey = ByOrderDate | ByTotalAmount | ByQuantity

  function Key(o: Order, k: SortKey): int {
    match k
    case ByOrderDate => o.orderDate
    case ByTotalAmount => o.totalAmount
    case ByQuantity => o.quantity
  }

  /** `a` may come before `b` in the requested direction. */
  predicate InOrder(a: Order, b: Order, k: SortKey, descending: bool) {
    if descending then Key(a, k) >= Key(b, k) else Key(a, k) <= Key(b, k)
  }

  predicate Sorted(s: seq<Order>, k: SortKey, descending: bool) {
    forall i, j :: 0 <= i < j < |s| ==> InOrder(s[i], s[j], k, descending)
  }

  /** Inserts `x` in front of the first element it may precede. */
  function Insert(x: Order, s: seq<Order>, k: SortKey, descending: bool): (r: seq<Order>)
    ensures multiset(r) == multiset(s) + multiset{x}
  {
    if s == [] then [x]
    else if InOrder(x, s[0], k, descending) then [x] + s
    else (assert s == [s[0]] + s[1..]; [s[0]] + Insert(x, s[1..], k, descending))
  }

  /** `.sort({ [k]: descending ? -1 : 1 })`.  MongoDB leaves the order of
      equal keys unspecified; this insertion sort is one admissible choice. */
  function SortBy(s: seq<Order>, k: SortKey, descending: bool): (r: seq<Order>)
    ensures multiset(r) == multiset(s)
  {
    if s == [] then []
    else (assert s == [s[0]] + s[1..]; Insert(s[0], SortBy(s[1..], k, descending), k, descending))
  }

  /** When `x` goes after the head of a sorted list, the head may precede
      everything the insertion into the tail produces. */
  lemma HeadPrecedesInsert(x: Order, s: seq<Order>, k: SortKey, descending: bool)
    requires Sorted(s, k, descending) && s != [] && !InOrder(x, s[0], k, descending)
    ensures forall y :: y in Insert(x, s[1..], k, descending) ==> InOrder(s[0], y, k, descending)
  {
    var t := Insert(x, s[1..], k, descending);
    forall y | y in t ensures InOrder(s[0], y, k, descending) {
      assert y in multiset(t);
      if y != x {
        assert y in multiset(s[1..]);
        var i :| 0 <= i < |s[1..]| && s[1..][i] == y;
        assert s[1 + i] == y;
      }
    }
  }

  /** A sorted list stays sorted without its head. */
  lemma SortedTail(s: seq<Order>, k: SortKey, descending: bool)
    requires Sorted(s, k, descending) && s != []
    ensures Sorted(s[1..], k, descending)
  {
    forall i, j | 0 <= i < j < |s[1..]| ensures InOrder(s[1..][i], s[1..][j], k, descending) {
      assert s[1..][i] == s[i + 1] && s[1..][j] == s[j + 1];
    }
  }

  /** A head that may precede every element of a sorted list extends it
      to a sorted list. */
  lemma SortedCons(h: Order, t: seq<Order>, k: SortKey, descending: bool)
    requires Sorted(t, k, descending)
    requires forall y :: y in t ==> InOrder(h, y, k, descending)
    ensures Sorted([h] + t, k, descending)
  {
    var r := [h] + t;
    forall i, j | 0 <= i < j < |r| ensures InOrder(r[i], r[j], k, descending) {
      assert r[j] == t[j - 1];
      if i > 0 {
        assert r[i] == t[i - 1];
      } else {
        assert r[j] in t;
      }
    }
  }

  lemma {:induction false} InsertSorted(x: Order, s: seq<Order>, k: SortKey, descending: bool)
    requires Sorted(s, k, descending)
    ensures Sorted(Insert(x, s, k, descending), k, descending)
  {
    if s != [] && !InOrder(x, s[0], k, descending) {
      SortedTail(s, k, descending);
      InsertSorted(x, s[1..], k, descending);
      HeadPrecedesInsert(x, s, k, descending);
      SortedCons(s[0], Insert(x, s[1..], k, descending), k, descending);
    } else if s != [] {
      SortedCons(x, s, k, descending);
    }
  }

  /** The sort keeps the number of orders. */
  lemma SortByLength(s: seq<Order>, k: SortKey, descending: bool)
    ensures |SortBy(s, k, descending)| == |s|
  {
    assert |multiset(SortBy(s, k, descending))| == |multiset(s)|;
  }

  /** The sort puts the orders in the requested order and keeps every one. */
  lemma {:induction false} SortBySorted(s: seq<Order>, k: SortKey, descending: bool)
    ensures Sorted(SortBy(s, k, descending), k, descending)
    ensures multiset(SortBy(s, k, descending)) == multiset(s)
  {
    if s != [] {
      SortBySorted(s[1..], k, descending);
      InsertSorted(s[0], SortBy(s[1..], k, descending), k, descending);
    }
  }

  // ---------------------------------------------------------------------
  // Offset pagination

  /** `.skip(skip).limit(limit)` on a result list. */
  function Window(s: seq<Order>, skip: nat, limit: nat): (r: seq<Order>)
    ensures |r| == if skip >= |s| then 0 else if |s| - skip < limit then |s| - skip else limit
    ensures forall i :: 0 <= i < |r| ==> r[i] == s[skip + i]
  {
    if skip >= |s| then []
    else if |s| - skip < limit then s[skip..]
    else s[skip..skip + limit]
  }

  /** `Math.ceil(a / b)` for a non-negative `a` and a positive `b`. */
  function CeilDiv(a: nat, b: nat): (r: nat)
    requires b >= 1
    ensures a <= r * b
    ensures r >= 1 ==> (r - 1) * b < a
  {
    if a == 0 then 0 else 1 + CeilDiv(if a <= b then 0 else a - b, b)
  }

  /** The `pagination` object of a listing. */
  datatype Pagination = Pagination(
    currentPage: int, totalPages: nat, totalOrders: nat, hasNext: bool, hasPrev: bool)

  /** A page of orders with its pagination. */
  datatype Listing = Listing(orders: seq<Order>, pagination: Pagination)

  /** The message of MongoDB's refusal of a negative `skip`. */
  const NegativeSkip := "skip value must be non-negative"

  /** One page of `matches` (already filtered and sorted): `skip` is
      `(page - 1) * limit`; a page below 1 makes `skip` negative, which the
      database refuses, and the error handler answers 500. */
  function Paginate(matches: seq<Order>, page: int, limit: int): (r: Reply<Listing>)
    requires limit >= 1
  {
    var skip := (page - 1) * limit;
    if skip < 0 then Fail(500, NegativeSkip)
    else
      var rows := Window(matches, skip, limit);
      Ok(200, Listing(rows, Pagination(
        page, CeilDiv(|matches|, limit), |matches|, skip + |rows| < |matches|, page > 1)))
  }

  /** A page assembled from its parts, as the handlers do it, is the page
      `Paginate` describes. */
  lemma PageOfParts(sorted: seq<Order>, total: nat, page: int, limit: int)
    requires limit >= 1 && (page - 1) * limit >= 0 && |sorted| == total
    ensures var skip := (page - 1) * limit;
      var rows := Window(sorted, skip, limit);
      Paginate(sorted, page, limit)
        == Ok(200, Listing(rows, Pagination(page, CeilDiv(total, limit), total, skip + |rows| < total, page > 1)))
  {
  }

  lemma MulMonotone(a: int, b: int, c: int)
    requires c >= 1 && a <= b
    ensures a * c <= b * c
  {
  }

  /** What a page holds: an error exactly for a page below 1; otherwise at
      most `limit` consecutive orders starting at `skip`, the page asked
      for, the total count, the least number of pages that covers it,
      `hasNext` exactly when a later page exists and `hasPrev` exactly when
      the page is not the first. */
  lemma PaginateMeaning(matches: seq<Order>, page: int, limit: int)
    requires limit >= 1
    ensures Paginate(matches, page, limit).Fail? <==> page < 1
    ensures page >= 1 ==>
      var r := Paginate(matches, page, limit);
      var skip := (page - 1) * limit;
      && r.Ok? && r.code == 200
      && |r.value.orders| <= limit
      && (forall i :: 0 <= i < |r.value.orders| ==> r.value.orders[i] == matches[skip + i])
      && r.value.pagination.currentPage == page
      && r.value.pagination.totalOrders == |matches|
      && r.value.pagination.totalPages == CeilDiv(|matches|, limit)
      && |matches| <= r.value.pagination.totalPages * limit
      && (r.value.pagination.totalPages >= 1 ==> (r.value.pagination.totalPages - 1) * limit < |matches|)
      && (r.value.pagination.hasNext <==> page < r.value.pagination.totalPages)
      && (r.value.pagination.hasPrev <==> page >= 2)
  {
    if page < 1 {
      MulMonotone(page, 0, limit);
    } else {
      var skip := (page - 1) * limit;
      var total := |matches|;
      var pages := CeilDiv(total, limit);
      var rows := Window(matches, skip, limit);
      MulMonotone(0, page - 1, limit);
      assert page * limit == skip + limit;
      if page < pages {
        MulMonotone(page, pages - 1, limit);
        assert skip + |rows| < total;
      } else {
        MulMonotone(pages, page, limit);
        assert total <= page * limit;
        assert skip + |rows| >= total;
      }
    }
  }

  /** Every matching order lies on exactly one page: the one numbered
      `i / limit + 1`, at position `i % limit`. */
  lemma OrderOnItsPage(matches: seq<Order>, limit: int, i: nat)
    requires limit >= 1 && i < |matches|
    ensures var r := Paginate(matches, i / limit + 1, limit);
      r.Ok? && i % limit < |r.value.orders| && r.value.orders[i % limit] == matches[i]
  {
    var page := i / limit + 1;
    var skip := (page - 1) * limit;
    assert skip == (i / limit) * limit;
    assert skip + i % limit == i;
  }

  // ---------------------------------------------------------------------
  // getOrders and getOrdersByUser

  /** The query string of `getOrders`, with `page` and `limit` already
      read as integers.  A missing value takes its default. */
  datatype ListQuery = ListQuery(
    page: Option<int>, limit: Option<int>, search: Option<string>, status: Option<string>,
    sortBy: Option<SortKey>, sortOrder: Option<string>)

  const DefaultPage := 1
  const DefaultLimit := 10

  /** The query's limit is usable: the default, or a positive number. */
  predicate LimitOk(q: ListQuery) {
    q.limit.GetOr(DefaultLimit) >= 1
  }

  /** The filter `getOrders` builds from a query. */
  function FilterOf(q: ListQuery): Filter {
    Filter(if Truthy(q.search) then q.search else None,
           if Truthy(q.status) then q.status else None)
  }

  /** The filter's meaning: a non-empty search matches the name, email or
      order number case-insensitively; a non-empty status must match
      exactly; both must hold when both are given. */
  lemma FilterOfMeaning(q: ListQuery, o: Order)
    ensures Matches(o, FilterOf(q)) <==>
      && (q.search.Some? && q.search.value != "" ==> MatchesSearch(o, q.search.value))
      && (q.status.Some? && q.status.value != "" ==> o.status == q.status.value)
  {
  }

  /** What `getOrders` answers for the collection `docs`. */
  function ListOrders(docs: seq<Order>, q: ListQuery): Reply<Listing>
    requires LimitOk(q)
  {
    var descending := q.sortOrder.GetOr("desc") == "desc";
    var matches := Select(docs, FilterOf(q));
    Paginate(SortBy(matches, q.sortBy.GetOr(ByOrderDate), descending),
             q.page.GetOr(DefaultPage), q.limit.GetOr(DefaultLimit))
  }

  /** A window of a list holds only orders of the list, and a window of a
      sorted list is sorted. */
  lemma WindowRows(s: seq<Order>, skip: nat, limit: nat, k: SortKey, descending: bool)
    ensures forall o :: o in Window(s, skip, limit) ==> o in s
    ensures Sorted(s, k, descending) ==> Sorted(Window(s, skip, limit), k, descending)
  {
    var rows := Window(s, skip, limit);
    forall o | o in rows ensures o in s {
      var i :| 0 <= i < |rows| && rows[i] == o;
      assert rows[i] == s[skip + i];
    }
    if Sorted(s, k, descending) {
      forall i, j | 0 <= i < j < |rows| ensures InOrder(rows[i], rows[j], k, descending) {
        assert rows[i] == s[skip + i] && rows[j] == s[skip + j];
      }
    }
  }

  /** The rows of a page are orders of the list it pages, and a page of a
      sorted list is sorted. */
  lemma PageRows(s: seq<Order>, page: int, limit: int, k: SortKey, descending: bool)
    requires limit >= 1 && page >= 1
    ensures Paginate(s, page, limit).Ok?
    ensures forall o :: o in Paginate(s, page, limit).value.orders ==> o in s
    ensures Sorted(s, k, descending) ==> Sorted(Paginate(s, page, limit).value.orders, k, descending)
  {
    MulMonotone(0, page - 1, limit);
    var skip := (page - 1) * limit;
    assert Paginate(s, page, limit).value.orders == Window(s, skip, limit);
    WindowRows(s, skip, limit, k, descending);
  }

  /** Sorting keeps the members and the count of a list. */
  lemma SortedMembers(s: seq<Order>, k: SortKey, descending: bool)
    ensures Sorted(SortBy(s, k, descending), k, descending)
    ensures |SortBy(s, k, descending)| == |s|
    ensures forall o :: o in SortBy(s, k, descending) <==> o in s
  {
    var r := SortBy(s, k, descending);
    SortBySorted(s, k, descending);
    assert |multiset(r)| == |multiset(s)|;
    forall o ensures o in r <==> o in s {
      assert o in r <==> o in multiset(r);
      assert o in s <==> o in multiset(s);
    }
  }

  /** A listing holds only stored orders that pass the filter, sorted as
      requested; its total counts every stored order that passes. */
  lemma ListOrdersMeaning(docs: seq<Order>, q: ListQuery)
    requires LimitOk(q)
    ensures var r := ListOrders(docs, q);
      r.Ok? ==>
        && (forall o :: o in r.value.orders ==> o in docs && Matches(o, FilterOf(q)))
        && Sorted(r.value.orders, q.sortBy.GetOr(ByOrderDate), q.sortOrder.GetOr("desc") == "desc")
        && r.value.pagination.totalOrders == |Select(docs, FilterOf(q))|
  {
    var k := q.sortBy.GetOr(ByOrderDate);
    var descending := q.sortOrder.GetOr("desc") == "desc";
    var matches := Select(docs, FilterOf(q));
    SortedMembers(matches, k, descending);
    var page, limit := q.page.GetOr(DefaultPage), q.limit.GetOr(DefaultLimit);
    if page >= 1 {
      PaginateMeaning(SortBy(matches, k, descending), page, limit);
      PageRows(SortBy(matches, k, descending), page, limit, k, descending);
    }
  }

  /** With no query at all: page 1 of at most 10 orders, newest first. */
  lemma ListOrdersDefaults(docs: seq<Order>)
    ensures var q := ListQuery(None, None, None, None, None, None);
      var r := ListOrders(docs, q);
      && r.Ok?
      && r.value.pagination.currentPage == 1
      && !r.value.pagination.hasPrev
      && |r.value.orders| <= 10
      && Sorted(r.value.orders, ByOrderDate, true)
      && r.value.pagination.totalOrders == |docs|
  {
    var q := ListQuery(None, None, None, None, None, None);
    ListOrdersMeaning(docs, q);
    PaginateMeaning(SortBy(Select(docs, FilterOf(q)), ByOrderDate, true), 1, 10);
    SelectAll(docs, FilterOf(q));
  }

  /** An empty filter keeps every order. */
  lemma {:induction false} SelectAll(docs: seq<Order>, f: Filter)
    requires f.search.None? && f.status.None?
    ensures Select(docs, f) == docs
  {
    if docs != [] {
      SelectAll(docs[1..], f);
    }
  }

  /** Fifteen matching orders at ten per page: page 2 shows the last five,
      of two pages, with a previous page and no next one. */
  lemma SecondOfTwoPages(matches: seq<Order>)
    requires |matches| == 15
    ensures var r := Paginate(matches, 2, 10);
      && r.Ok?
      && |r.value.orders| == 5
      && r.value.orders == matches[10..]
      && r.value.pagination == Pagination(2, 2, 15, false, true)
  {
    var r := Paginate(matches, 2, 10);
    assert CeilDiv(15, 10) == 2 by {
      assert CeilDiv(5, 10) == 1 by { assert CeilDiv(0, 10) == 0; }
    }
    assert r.value.orders == matches[10..];
  }

  /** A collection of one order lists as that order on one page. */
  lemma ListOfOne(o: Order)
    ensures ListOrders([o], ListQuery(Some(1), Some(10), None, None, None, None))
      == Ok(200, Listing([o], Pagination(1, 1, 1, false, false)))
  {
    var f := Filter(None, None);
    assert Select([o], f) == [o] by {
      assert Select([o], f) == [o] + Select([], f);
    }
    assert SortBy([o], ByOrderDate, true) == [o];
    assert CeilDiv(1, 10) == 1 by { assert CeilDiv(0, 10) == 0; }
    assert Window([o], 0, 10) == [o];
  }

  /** What `getOrdersByUser` answers: the account's orders, newest first,
      paginated like `getOrders`. */
  function ListOrdersOfUser(docs: seq<Order>, userId: string, page: Option<int>, limit: Option<int>): Reply<Listing>
    requires limit.GetOr(DefaultLimit) >= 1
  {
    Paginate(SortBy(OfUser(docs, userId), ByOrderDate, true), page.GetOr(DefaultPage), limit.GetOr(DefaultLimit))
  }

  /** A user's listing holds only that user's orders, newest first, and
      counts all of them. */
  lemma ListOrdersOfUserMeaning(docs: seq<Order>, userId: string, page: Option<int>, limit: Option<int>)
    requires limit.GetOr(DefaultLimit) >= 1
    ensures var r := ListOrdersOfUser(docs, userId, page, limit);
      r.Ok? ==>
        && (forall o :: o in r.value.orders ==> o in docs && o.userId == Some(userId))
        && Sorted(r.value.orders, ByOrderDate, true)
        && r.value.pagination.totalOrders == |OfUser(docs, userId)|
  {
    var mine := OfUser(docs, userId);
    SortedMembers(mine, ByOrderDate, true);
    var p, l := page.GetOr(DefaultPage), limit.GetOr(DefaultLimit);
    if p >= 1 {
      PaginateMeaning(SortBy(mine, ByOrderDate, true), p, l);
      PageRows(SortBy(mine, ByOrderDate, true), p, l, ByOrderDate, true);
    }
  }

  // ---------------------------------------------------------------------
  // getOrderStats

  /** One `$group` result: a status with its order count and revenue. */
  datatype StatusGroup = StatusGroup(status: string, count: nat, totalAmount: int)

  datatype OrderStats = OrderStats(byStatus: seq<StatusGroup>, totalOrders: nat, totalRevenue: int)

  function CountWithStatus(docs: seq<Order>, s: string): nat {
    if docs == [] then 0
    else (if docs[0].status == s then 1 else 0) + CountWithStatus(docs[1..], s)
  }

  function AmountWithStatus(docs: seq<Order>, s: string): int {
    if docs == [] then 0
    else (if docs[0].status == s then docs[0].totalAmount else 0) + AmountWithStatus(docs[1..], s)
  }

  /** The sum of every order's `totalAmount`. */
  function Revenue(docs: seq<Order>): int {
    if docs == [] then 0 else docs[0].totalAmount + Revenue(docs[1..])
  }

  /** The distinct statuses present, in order of first appearance. */
  function StatusesOf(docs: seq<Order>): (r: seq<string>)
    ensures forall i, j :: 0 <= i < j < |r| ==> r[i] != r[j]
    ensures forall s :: s in r <==> exists i :: 0 <= i < |docs| && docs[i].status == s
  {
    if docs == [] then []
    else
      var front := docs[..|docs| - 1];
      var last := docs[|docs| - 1].status;
      var r := StatusesOf(front);
      assert forall i :: 0 <= i < |front| ==> front[i] == docs[i];
      if last in r then r else r + [last]
  }

  function GroupsFor(statuses: seq<string>, docs: seq<Order>): seq<StatusGroup> {
    if statuses == [] then []
    else
      [StatusGroup(statuses[0], CountWithStatus(docs, statuses[0]), AmountWithStatus(docs, statuses[0]))]
      + GroupsFor(statuses[1..], docs)
  }

  /** An order's status is counted at least once. */
  lemma {:induction false} CountPositive(docs: seq<Order>, i: nat)
    requires i < |docs|
    ensures CountWithStatus(docs, docs[i].status) >= 1
  {
    if i > 0 {
      CountPositive(docs[1..], i - 1);
    }
  }

  /** The answer of `getOrderStats`: one group per distinct status present,
      each with its count and amount; the number of orders and the total
      revenue (0 for an empty collection). */
  function Stats(docs: seq<Order>): (r: OrderStats)
    ensures r.totalOrders == |docs| && r.totalRevenue == Revenue(docs)
    ensures forall g :: g in r.byStatus ==>
      g.count == CountWithStatus(docs, g.status) && g.totalAmount == AmountWithStatus(docs, g.status)
    ensures forall g :: g in r.byStatus ==> g.count >= 1
    ensures forall i :: 0 <= i < |docs| ==> exists g :: g in r.byStatus && g.status == docs[i].status
    ensures forall i, j :: 0 <= i < j < |r.byStatus| ==> r.byStatus[i].status != r.byStatus[j].status
  {
    var statuses := StatusesOf(docs);
    var r := OrderStats(GroupsFor(statuses, docs), |docs|, Revenue(docs));
    GroupsForMembers(statuses, docs);
    assert forall g :: g in r.byStatus ==> g.count >= 1 by {
      forall g | g in r.byStatus ensures g.count >= 1 {
        var k :| 0 <= k < |r.byStatus| && r.byStatus[k] == g;
        assert statuses[k] in statuses;
        var i :| 0 <= i < |docs| && docs[i].status == statuses[k];
        CountPositive(docs, i);
      }
    }
    assert forall i :: 0 <= i < |docs| ==> exists g :: g in r.byStatus && g.status == docs[i].status by {
      forall i | 0 <= i < |docs| ensures exists g :: g in r.byStatus && g.status == docs[i].status {
        assert docs[i].status in statuses;
        var k :| 0 <= k < |statuses| && statuses[k] == docs[i].status;
        assert r.byStatus[k] in r.byStatus;
      }
    }
    r
  }

  lemma {:induction false} GroupsForMembers(statuses: seq<string>, docs: seq<Order>)
    ensures |GroupsFor(statuses, docs)| == |statuses|
    ensures forall i :: 0 <= i < |statuses| ==>
      GroupsFor(statuses, docs)[i] ==
        StatusGroup(statuses[i], CountWithStatus(docs, statuses[i]), AmountWithStatus(docs, statuses[i]))
  {
    if statuses != [] {
      GroupsForMembers(statuses[1..], docs);
    }
  }

  function SumCounts(gs: seq<StatusGroup>): nat {
    if gs == [] then 0 else gs[0].count + SumCounts(gs[1..])
  }

  function SumAmounts(gs: seq<StatusGroup>): int {
    if gs == [] then 0 else gs[0].totalAmount + SumAmounts(gs[1..])
  }

  predicate Distinct(statuses: seq<string>) {
    forall i, j :: 0 <= i < j < |statuses| ==> statuses[i] != statuses[j]
  }

  /** Peeling the first order off the collection takes it out of the one
      group of its status, if the list has one. */
  lemma {:induction false} CountsPeel(statuses: seq<string>, docs: seq<Order>)
    requires docs != [] && Distinct(statuses)
    ensures SumCounts(GroupsFor(statuses, docs))
      == (if docs[0].status in statuses then 1 else 0) + SumCounts(GroupsFor(statuses, docs[1..]))
  {
    if statuses != [] {
      assert Distinct(statuses[1..]);
      CountsPeel(statuses[1..], docs);
    }
  }

  lemma {:induction false} AmountsPeel(statuses: seq<string>, docs: seq<Order>)
    requires docs != [] && Distinct(statuses)
    ensures SumAmounts(GroupsFor(statuses, docs))
      == (if docs[0].status in statuses then docs[0].totalAmount else 0)
        + SumAmounts(GroupsFor(statuses, docs[1..]))
  {
    if statuses != [] {
      assert Distinct(statuses[1..]);
      AmountsPeel(statuses[1..], docs);
    }
  }

  /** Summing the groups over a list of distinct statuses that covers the
      collection gives its size and its revenue. */
  lemma {:induction false} GroupsSum(statuses: seq<string>, docs: seq<Order>)
    requires Distinct(statuses)
    requires forall i :: 0 <= i < |docs| ==> docs[i].status in statuses
    ensures SumCounts(GroupsFor(statuses, docs)) == |docs|
    ensures SumAmounts(GroupsFor(statuses, docs)) == Revenue(docs)
  {
    if docs == [] {
      GroupsEmpty(statuses);
    } else {
      CountsPeel(statuses, docs);
      AmountsPeel(statuses, docs);
      assert docs[0].status in statuses;
      GroupsSum(statuses, docs[1..]);
    }
  }

  lemma {:induction false} GroupsEmpty(statuses: seq<string>)
    ensures SumCounts(GroupsFor(statuses, [])) == 0
    ensures SumAmounts(GroupsFor(statuses, [])) == 0
  {
    if statuses != [] {
      GroupsEmpty(statuses[1..]);
    }
  }

  /** The per-status counts add up to the order total and the per-status
      amounts to the revenue. */
  lemma StatsAddUp(docs: seq<Order>)
    ensures SumCounts(Stats(docs).byStatus) == Stats(docs).totalOrders
    ensures SumAmounts(Stats(docs).byStatus) == Stats(docs).totalRevenue
  {
    var statuses := StatusesOf(docs);
    assert forall i :: 0 <= i < |docs| ==> docs[i].status in statuses;
    GroupsSum(statuses, docs);
  }

  /** A collection of one order has one group, for its status. */
  lemma StatsOfOne(o: Order)
    ensures Stats([o]) == OrderStats([StatusGroup(o.status, 1, o.totalAmount)], 1, o.totalAmount)
  {
    assert [o][..0] == [];
    assert StatusesOf([o]) == [o.status];
    assert [o][1..] == [];
    assert CountWithStatus([o], o.status) == 1;
    assert AmountWithStatus([o], o.status) == o.totalAmount;
    assert Revenue([o]) == o.totalAmount;
    assert GroupsFor([o.status], [o]) == [StatusGroup(o.status, 1, o.totalAmount)] + GroupsFor([], [o]);
  }
}
