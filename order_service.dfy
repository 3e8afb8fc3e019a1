/** The browser's order client, `client/src/services/orderService.js`: the
    query string of `getOrders`/`getOrdersByUser`, `handleResponse`, and the
    report `exportOrders` lays out (rows, their truncated cells, where each
    row goes, and the summary). */
module OrderService {
  import opened Wrappers
  import opened Text
  import OrderModel
  import OrderQueries

  // ---------------------------------------------------------------------
  // Query strings

  /** A value in the `params` object. */
  datatype QueryValue = Undefined | Null | Str(s: string) | Number(n: int)

  /** `params[key] !== undefined && params[key] !== ''`. */
  predicate Kept(v: QueryValue) {
    !v.Undefined? && v != Str("")
  }

  /** How `URLSearchParams.append` renders a kept value. */
  function Render(v: QueryValue): string
    requires !v.Undefined?
  {
    match v
    case Null => "null"
    case Str(s) => s
    case Number(n) => IntToString(n)
  }

  /** The query pairs for `params` (keys in the object's order). */
  function Encode(params: seq<(string, QueryValue)>): (r: seq<(string, string)>)
    ensures |r| <= |params|
  {
    if params == [] then []
    else
      var front := Encode(params[..|params| - 1]);
      var last := params[|params| - 1];
      if Kept(last.1) then front + [(last.0, Render(last.1))] else front
  }

  /** A pair is in the query exactly when some parameter with that key has
      a value that is neither undefined nor empty and renders to it. */
  lemma {:induction false} EncodeMembers(params: seq<(string, QueryValue)>, key: string, text: string)
    ensures (key, text) in Encode(params) <==>
      exists i :: 0 <= i < |params| && params[i].0 == key && Kept(params[i].1) && Render(params[i].1) == text
  {
    if params != [] {
      var front := params[..|params| - 1];
      EncodeMembers(front, key, text);
      assert forall i :: 0 <= i < |front| ==> front[i] == params[i];
      if exists i :: 0 <= i < |params| && params[i].0 == key && Kept(params[i].1) && Render(params[i].1) == text {
        var i :| 0 <= i < |params| && params[i].0 == key && Kept(params[i].1) && Render(params[i].1) == text;
        if i < |front| {
          assert front[i] == params[i];
        }
      }
    }
  }

  /** The `forEach` over the parameters that appends each kept one. */
  method BuildQuery(params: seq<(string, QueryValue)>) returns (query: seq<(string, string)>)
    ensures query == Encode(params)
  {
    query := [];
    var i := 0;
    while i < |params|
      invariant 0 <= i <= |params|
      invariant query == Encode(params[..i])
    {
      assert params[..i + 1][..i] == params[..i];
      var (key, value) := params[i];
      if value != Undefined && value != Str("") {
        query := query + [(key, Render(value))];
      }
      i := i + 1;
    }
    assert params[..i] == params;
  }

  // ---------------------------------------------------------------------
  // Responses

  /** What an awaited call yields: a value, or a thrown error message. */
  datatype Outcome<+T> = Returned(value: T) | Thrown(error: string)

  const DefaultError := "Something went wrong"

  /** `handleResponse`: a response outside 2xx throws the body's message, or
      a generic one when the body has none; otherwise the body is returned. */
  function HandleResponse<T>(ok: bool, message: Option<string>, body: T): (r: Outcome<T>)
    ensures r.Returned? <==> ok
    ensures r.Returned? ==> r.value == body
    ensures r.Thrown? ==> r.error == OrElse(message, DefaultError)
  {
    if !ok then Thrown(OrElse(message, DefaultError)) else Returned(body)
  }

  /** A server reply read through `handleResponse`: a success is returned
      as is, and an error surfaces with the server's own message when that
      is not empty. */
  lemma ServerRepliesSurface<T>(r: Reply<T>)
    requires 200 <= r.code < 300 <==> r.Ok?
    ensures var out := HandleResponse(200 <= r.code < 300, if r.Fail? then Some(r.message) else None, r);
      && (r.Ok? ==> out == Returned(r))
      && (r.Fail? && r.message != "" ==> out == Thrown(r.message))
      && (r.Fail? && r.message == "" ==> out == Thrown(DefaultError))
  {
  }

  // ---------------------------------------------------------------------
  // The report

  /** An order as the browser receives it: any field may be missing. */
  datatype ClientOrder = ClientOrder(
    orderId: Option<string>,
    customerName: Option<string>,
    cylinderName: Option<string>,
    quantity: Option<int>,
    totalAmount: Option<int>,
    status: Option<string>)

  /** A stored order as it reaches the browser. */
  function FromServer(o: OrderModel.Order): ClientOrder {
    ClientOrder(Some(o.orderId), Some(o.customerName), Some(o.cylinder.name),
                Some(o.quantity), Some(o.totalAmount), Some(o.status))
  }

  const Missing := "N/A"
  const MaxCell: nat := 15
  const Ellipsis := "..."

  /** A cell's text: longer than 15 characters becomes its first 15 and
      '...'. */
  function Truncate(s: string): (r: string)
    ensures |s| <= MaxCell ==> r == s
    ensures |s| > MaxCell ==> |r| == MaxCell + 3 && r[..MaxCell] == s[..MaxCell] && r[MaxCell..] == Ellipsis
  {
    if |s| > MaxCell then s[..MaxCell] + Ellipsis else s
  }

  /** Truncating twice changes nothing more, and no cell exceeds 18
      characters. */
  lemma TruncateIdempotent(s: string)
    ensures Truncate(Truncate(s)) == Truncate(s)
    ensures |Truncate(s)| <= MaxCell + 3
  {
    if |s| > MaxCell {
      var t := Truncate(s);
      assert t[..MaxCell] + Ellipsis == t;
    }
  }

  /** The row's cells before truncation, in column order: order number,
      customer, product, quantity, total and status.  A missing text is
      'N/A'; a missing total prints as 'Rs. 0'. */
  function Cells(o: ClientOrder): (r: seq<string>)
    ensures |r| == 6
    ensures r[0] == OrElse(o.orderId, Missing) && r[1] == OrElse(o.customerName, Missing)
    ensures r[2] == OrElse(o.cylinderName, Missing) && r[5] == OrElse(o.status, Missing)
    ensures o.quantity.None? <==> r[3] == Missing
    ensures o.quantity.Some? ==> ReadsAs(r[3], o.quantity.value)
    ensures |r[4]| > 4 && r[4][..4] == "Rs. " && ReadsAs(r[4][4..], o.totalAmount.GetOr(0))
  {
    assert Missing[0] == 'N';
    IntToStringReadsAs(o.quantity.GetOr(0));
    IntToStringReadsAs(o.totalAmount.GetOr(0));
    [OrElse(o.orderId, Missing),
     OrElse(o.customerName, Missing),
     OrElse(o.cylinderName, Missing),
     if o.quantity.Some? then IntToString(o.quantity.value) else Missing,
     "Rs. " + (if o.totalAmount.Some? then IntToString(o.totalAmount.value) else "0"),
     OrElse(o.status, Missing)]
  }

  function Row(o: ClientOrder): seq<string> {
    var c := Cells(o);
    [Truncate(c[0]), Truncate(c[1]), Truncate(c[2]), Truncate(c[3]), Truncate(c[4]), Truncate(c[5])]
  }

  /** Where a row is written: page number (0 for the first) and height. */
  datatype Place = Place(page: nat, y: int)

  /** Layout constants: the header ends at 65; a row is 8 high; a page is
      full past 280; a new page starts at 20. */
  const FirstRowY := 65
  const RowHeight := 8
  const PageBottom := 280
  const NewPageY := 20

  /** The rows that fit on the first page, and on each page after it. */
  const FirstPageRows: nat := 27
  const PageRows: nat := 33

  /** Where row `i` lands, in closed form. */
  function PlaceOf(i: nat): (p: Place)
    ensures NewPageY <= p.y <= PageBottom
    ensures i < FirstPageRows <==> p.page == 0
  {
    if i < FirstPageRows then Place(0, FirstRowY + RowHeight * i)
    else
      var j := i - FirstPageRows;
      Place(1 + j / PageRows, NewPageY + RowHeight * (j % PageRows))
  }

  /** The loop's step: the row after `p` goes 8 lower, or to the top of a
      new page when that would pass 280. */
  function NextPlace(p: Place): Place {
    if p.y + RowHeight > PageBottom then Place(p.page + 1, NewPageY) else Place(p.page, p.y + RowHeight)
  }

  /** The closed form follows the loop's step. */
  lemma PlaceStep(i: nat)
    ensures PlaceOf(i + 1) == NextPlace(PlaceOf(i))
  {
    if i + 1 > FirstPageRows {
      var j := i - FirstPageRows;
      var q, r := j / PageRows, j % PageRows;
      if r == PageRows - 1 {
        ModUnique(j + 1, PageRows, q + 1, 0);
      } else {
        ModUnique(j + 1, PageRows, q, r + 1);
      }
    }
  }

  /** `(sum, order) => sum + (order.totalAmount || 0)` over the rows. */
  function ReportRevenue(orders: seq<ClientOrder>): int {
    if orders == [] then 0
    else orders[|orders| - 1].totalAmount.GetOr(0) + ReportRevenue(orders[..|orders| - 1])
  }

  function ClientView(docs: seq<OrderModel.Order>): (r: seq<ClientOrder>)
    ensures |r| == |docs| && forall i :: 0 <= i < |docs| ==> r[i] == FromServer(docs[i])
  {
    if docs == [] then [] else [FromServer(docs[0])] + ClientView(docs[1..])
  }

  /** On orders from the server, the report's revenue is the sum of their
      totals, the figure the server's statistics give for the same orders. */
  lemma {:induction false} ReportRevenueOfServer(docs: seq<OrderModel.Order>)
    ensures ReportRevenue(ClientView(docs)) == OrderQueries.Revenue(docs)
  {
    if docs != [] {
      var front, last := docs[..|docs| - 1], docs[|docs| - 1];
      assert docs == front + [last];
      ClientViewSnoc(front, last);
      var view := ClientView(front) + [FromServer(last)];
      assert view[..|view| - 1] == ClientView(front);
      ReportRevenueOfServer(front);
      RevenueSnoc(front, last);
    }
  }

  /** The browser's view of one more order is one more row. */
  lemma ClientViewSnoc(docs: seq<OrderModel.Order>, o: OrderModel.Order)
    ensures ClientView(docs + [o]) == ClientView(docs) + [FromServer(o)]
  {
    var l, r := ClientView(docs + [o]), ClientView(docs) + [FromServer(o)];
    assert |l| == |r|;
    forall i | 0 <= i < |l| ensures l[i] == r[i] {
      assert (docs + [o])[i] == if i < |docs| then docs[i] else o;
    }
  }

  lemma {:induction false} RevenueSnoc(docs: seq<OrderModel.Order>, o: OrderModel.Order)
    ensures OrderQueries.Revenue(docs + [o]) == OrderQueries.Revenue(docs) + o.totalAmount
  {
    if docs != [] {
      assert (docs + [o])[1..] == docs[1..] + [o];
      RevenueSnoc(docs[1..], o);
    }
  }

  /** A laid-out report: the rows, where each was written, the order count
      and the revenue of the summary. */
  datatype Report = Report(rows: seq<seq<string>>, places: seq<Place>, totalOrders: nat, totalRevenue: int)

  /** What a fetch for the report answered. */
  datatype ClientResponse = ClientResponse(ok: bool, success: bool, message: Option<string>, orders: seq<ClientOrder>)

  const FetchFailed := "Failed to fetch orders"

  /** `exportOrders` after its fetch: the error cases, then the row loop
      with its page breaks, then the summary. */
  method ExportOrders(resp: ClientResponse) returns (r: Outcome<Report>)
    ensures !resp.ok ==> r == Thrown(OrElse(resp.message, DefaultError))
    ensures resp.ok && !resp.success ==> r == Thrown(FetchFailed)
    ensures resp.ok && resp.success ==>
      && r.Returned?
      && |r.value.rows| == |resp.orders| == |r.value.places|
      && (forall i :: 0 <= i < |resp.orders| ==> r.value.rows[i] == Row(resp.orders[i]))
      && (forall i :: 0 <= i < |resp.orders| ==> r.value.places[i] == PlaceOf(i))
      && r.value.totalOrders == |resp.orders|
      && r.value.totalRevenue == ReportRevenue(resp.orders)
  {
    var fetched := HandleResponse(resp.ok, resp.message, resp);
    if fetched.Thrown? {
      return Thrown(fetched.error);
    }
    if !resp.success {
      return Thrown(FetchFailed);
    }
    var rows := RenderRows(resp.orders);
    var places := LayOutRows(|resp.orders|);
    var revenue := SumRevenue(resp.orders);
    r := Returned(Report(rows, places, |resp.orders|, revenue));
  }

  /** The row loop of `exportOrders` with the cell rule `render`: one row
      per order, in order. */
  method RenderEach(orders: seq<ClientOrder>, render: ClientOrder -> seq<string>) returns (rows: seq<seq<string>>)
    ensures |rows| == |orders|
    ensures forall i :: 0 <= i < |orders| ==> rows[i] == render(orders[i])
  {
    rows := [];
    var i := 0;
    while i < |orders|
      invariant 0 <= i <= |orders| && |rows| == i
      invariant forall k :: 0 <= k < i ==> rows[k] == render(orders[k])
    {
      rows := rows + [render(orders[i])];
      i := i + 1;
    }
  }

  /** The cells of the row loop of `exportOrders`. */
  method RenderRows(orders: seq<ClientOrder>) returns (rows: seq<seq<string>>)
    ensures |rows| == |orders|
    ensures forall i :: 0 <= i < |orders| ==> rows[i] == Row(orders[i])
  {
    rows := RenderEach(orders, Row);
  }

  /** The positions of the row loop of `exportOrders`: each row is written
      at the current height, after a page break when the height passed 280,
      and the height then advances by 8. */
  method LayOutRows(n: nat) returns (places: seq<Place>)
    ensures |places| == n
    ensures forall i :: 0 <= i < n ==> places[i] == PlaceOf(i)
  {
    places := [];
    var at := Place(0, 50);
    at := at.(y := at.y + 5);
    at := at.(y := at.y + 10);
    var i := 0;
    while i < n
      invariant 0 <= i <= n && |places| == i
      invariant forall k :: 0 <= k < i ==> places[k] == PlaceOf(k)
      invariant at == if i == 0 then Place(0, FirstRowY) else Place(PlaceOf(i - 1).page, PlaceOf(i - 1).y + RowHeight)
    {
      if at.y > PageBottom {
        at := Place(at.page + 1, NewPageY);
      }
      PlaceNext(i);
      places := places + [at];
      at := at.(y := at.y + RowHeight);
      i := i + 1;
    }
  }

  /** The place of row `i` from the height the previous row left. */
  lemma PlaceNext(i: nat)
    ensures var at := if i == 0 then Place(0, FirstRowY) else Place(PlaceOf(i - 1).page, PlaceOf(i - 1).y + RowHeight);
      PlaceOf(i) == if at.y > PageBottom then Place(at.page + 1, NewPageY) else at
  {
    if i > 0 {
      PlaceStep(i - 1);
    }
  }

  /** The `reduce` of the summary. */
  method SumRevenue(orders: seq<ClientOrder>) returns (revenue: int)
    ensures revenue == ReportRevenue(orders)
  {
    revenue := 0;
    var k := 0;
    while k < |orders|
      invariant 0 <= k <= |orders|
      invariant revenue == ReportRevenue(orders[..k])
    {
      assert orders[..k + 1][..k] == orders[..k];
      revenue := revenue + orders[k].totalAmount.GetOr(0);
      k := k + 1;
    }
    assert orders[..k] == orders;
  }

  /** A report of at most 27 rows fits on its first page; the dashboard's
      report, at most one page of 10 orders, always does. */
  lemma ShortReportOnePage(n: nat)
    requires n <= FirstPageRows
    ensures forall i :: 0 <= i < n ==> PlaceOf(i).page == 0
  {
  }
}
