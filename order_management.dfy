/** The admin order dashboard, `client/src/pages/OrderManagement/
    OrderManagement.jsx`: the fetch parameters, the pagination bar (range
    text, Previous/Next), the search reset, the status badge and the edit
    dialog's submitted order. */
module OrderManagement {
  import opened Wrappers
  import opened Text
  import opened OrderModel
  import opened OrderQueries
  import OrderController
  import OrderService

  /** The dashboard's fixed page size. */
  const PageSize := 10

  /** The status-filter choice that means "no filter". */
  const AllStatuses := "all"

  /** The parameters `fetchOrders` passes to the order client. */
  function FetchParams(page: int, search: string, statusFilter: string): seq<(string, OrderService.QueryValue)> {
    [("page", OrderService.Number(page)),
     ("limit", OrderService.Number(PageSize)),
     ("search", OrderService.Str(search)),
     ("status", OrderService.Str(if statusFilter == AllStatuses then "" else statusFilter))]
  }

  /** The query string of a fetch: page and limit always; the search and
      the status only when not empty, and the status never as 'all'. */
  lemma FetchQuery(page: int, search: string, statusFilter: string)
    ensures var status := if statusFilter == AllStatuses then "" else statusFilter;
      OrderService.Encode(FetchParams(page, search, statusFilter))
        == [("page", IntToString(page)), ("limit", "10")]
           + (if search != "" then [("search", search)] else [])
           + (if status != "" then [("status", status)] else [])
  {
    var p := FetchParams(page, search, statusFilter);
    assert IntToString(10) == "10" by {
      assert NatToString(10) == NatToString(1) + [DigitChar(0)];
    }
    assert p[..1][..0] == [];
    assert OrderService.Encode(p[..1]) == [("page", IntToString(page))];
    assert p[..2][..1] == p[..1];
    assert OrderService.Encode(p[..2]) == [("page", IntToString(page)), ("limit", "10")];
    assert p[..3][..2] == p[..2];
    assert p[..4][..3] == p[..3];
    assert p[..4] == p;
  }

  /** The server query a fetch amounts to: the 'all' choice filters nothing
      and an empty search searches nothing. */
  lemma FetchFilter(page: int, search: string, statusFilter: string)
    ensures var q := ListQuery(Some(page), Some(PageSize), Some(search),
                              Some(if statusFilter == AllStatuses then "" else statusFilter), None, None);
      && (statusFilter == AllStatuses ==> FilterOf(q).status.None?)
      && (search == "" ==> FilterOf(q).search.None?)
      && (statusFilter != AllStatuses && statusFilter != "" ==> FilterOf(q).status == Some(statusFilter))
  {
  }

  /** The "Showing X to Y of Z" numbers for a pagination object. */
  function ShowingRange(p: Pagination): (int, int) {
    ((p.currentPage - 1) * PageSize + 1,
     if p.currentPage * PageSize < p.totalOrders then p.currentPage * PageSize else p.totalOrders)
  }

  /** For a page the server filled, the range names exactly the positions
      of its first and last order in the whole result. */
  lemma ShowingRangeMatchesPage(matches: seq<Order>, page: int)
    requires page >= 1
    ensures var r := Paginate(matches, page, PageSize);
      var skip := (page - 1) * PageSize;
      r.Ok? && (|r.value.orders| > 0 ==>
        ShowingRange(r.value.pagination) == (skip + 1, skip + |r.value.orders|))
  {
    PaginateMeaning(matches, page, PageSize);
  }

  /** The pagination bar shows only after loading and with several pages. */
  predicate ShowPagination(loading: bool, p: Pagination) {
    !loading && p.totalPages > 1
  }

  /** Following an enabled Next or Previous from a server page lands on a
      page that exists: Next goes to at most the last page, Previous to at
      least the first, and the page Next reaches is not empty. */
  lemma SteppingStaysInRange(matches: seq<Order>, page: int)
    requires page >= 1
    ensures var p := Paginate(matches, page, PageSize).value.pagination;
      && (p.hasNext ==>
            page + 1 <= p.totalPages && |Paginate(matches, page + 1, PageSize).value.orders| > 0)
      && (p.hasPrev ==> page - 1 >= 1)
  {
    PaginateMeaning(matches, page, PageSize);
    PaginateMeaning(matches, page + 1, PageSize);
  }

  /** The parameters `downloadReport` passes to the export: no page and no
      limit. */
  function ReportParams(search: string, statusFilter: string): seq<(string, OrderService.QueryValue)> {
    [("status", OrderService.Str(if statusFilter == AllStatuses then "" else statusFilter)),
     ("search", OrderService.Str(search))]
  }

  /** The report's query carries no page or limit, so the server answers
      with its first page of at most 10 orders: with more than 10 matching
      orders, the report leaves some out. */
  lemma ReportCoversFirstPageOnly(docs: seq<Order>, search: string, statusFilter: string)
    ensures forall text :: ("page", text) !in OrderService.Encode(ReportParams(search, statusFilter))
    ensures forall text :: ("limit", text) !in OrderService.Encode(ReportParams(search, statusFilter))
    ensures var q := ListQuery(None, None, Some(search),
                              Some(if statusFilter == AllStatuses then "" else statusFilter), None, None);
      var r := ListOrders(docs, q);
      && r.Ok? && r.value.pagination.currentPage == 1
      && |r.value.orders| <= 10
      && (r.value.pagination.totalOrders > 10 ==> |r.value.orders| < r.value.pagination.totalOrders)
  {
    var params := ReportParams(search, statusFilter);
    forall text ensures ("page", text) !in OrderService.Encode(params) && ("limit", text) !in OrderService.Encode(params) {
      OrderService.EncodeMembers(params, "page", text);
      OrderService.EncodeMembers(params, "limit", text);
    }
    var q := ListQuery(None, None, Some(search),
                       Some(if statusFilter == AllStatuses then "" else statusFilter), None, None);
    var sorted := SortBy(Select(docs, FilterOf(q)), ByOrderDate, true);
    PaginateMeaning(sorted, 1, 10);
  }

  /** The dashboard's fetch-related state. */
  class OrderDashboard {
    var pagination: Pagination
    var loading: bool
    var searchTerm: string
    var statusFilter: string

    constructor()
      ensures pagination == Pagination(1, 1, 0, false, false)
      ensures loading && searchTerm == "" && statusFilter == AllStatuses
    {
      pagination := Pagination(1, 1, 0, false, false);
      loading := true;
      searchTerm := "";
      statusFilter := AllStatuses;
    }

    /** The parameters of the next fetch. */
    function CurrentFetch(): seq<(string, OrderService.QueryValue)>
      reads this
    {
      FetchParams(pagination.currentPage, searchTerm, statusFilter)
    }

    /** The end of `fetchOrders`: a successful answer replaces the
        pagination with the server's; loading ends either way. */
    method ReceiveListing(r: Reply<Listing>)
      modifies this
      ensures pagination == if r.Ok? then r.value.pagination else old(pagination)
      ensures !loading
      ensures searchTerm == old(searchTerm) && statusFilter == old(statusFilter)
    {
      if r.Ok? {
        pagination := r.value.pagination;
      }
      loading := false;
    }

    /** The Previous button: disabled without a previous page. */
    method Previous()
      modifies this
      ensures pagination == if old(pagination).hasPrev
        then old(pagination).(currentPage := old(pagination).currentPage - 1) else old(pagination)
      ensures loading == old(loading) && searchTerm == old(searchTerm) && statusFilter == old(statusFilter)
    {
      if pagination.hasPrev {
        pagination := pagination.(currentPage := pagination.currentPage - 1);
      }
    }

    /** The Next button: disabled without a next page. */
    method Next()
      modifies this
      ensures pagination == if old(pagination).hasNext
        then old(pagination).(currentPage := old(pagination).currentPage + 1) else old(pagination)
      ensures loading == old(loading) && searchTerm == old(searchTerm) && statusFilter == old(statusFilter)
    {
      if pagination.hasNext {
        pagination := pagination.(currentPage := pagination.currentPage + 1);
      }
    }

    /** The search box's text changes. */
    method SetSearch(term: string)
      modifies this
      ensures searchTerm == term
      ensures pagination == old(pagination) && loading == old(loading) && statusFilter == old(statusFilter)
    {
      searchTerm := term;
    }

    /** The debounced search effect: on page 1 it fetches at once; on
        another page it resets to page 1, whose change triggers the fetch.
        Either way the next fetch asks for page 1 of the new search. */
    method SearchSettled() returns (fetchesNow: bool)
      modifies this
      ensures fetchesNow <==> old(pagination).currentPage == 1
      ensures pagination == old(pagination).(currentPage := 1)
      ensures CurrentFetch() == FetchParams(1, searchTerm, statusFilter)
      ensures loading == old(loading) && searchTerm == old(searchTerm) && statusFilter == old(statusFilter)
    {
      if pagination.currentPage == 1 {
        fetchesNow := true;
      } else {
        pagination := pagination.(currentPage := 1);
        fetchesNow := false;
      }
    }
  }

  /** The badge classes of `getStatusColor`. */
  const Gray := "bg-gray-100 text-gray-800"

  function StatusColor(status: string): (c: string)
    ensures !IsStatus(status) <==> c == Gray
  {
    if status == Confirmed then "bg-green-100 text-green-800"
    else if status == Processing then "bg-yellow-100 text-yellow-800"
    else if status == Shipped then "bg-blue-100 text-blue-800"
    else if status == Delivered then "bg-purple-100 text-purple-800"
    else if status == Cancelled then "bg-red-100 text-red-800"
    else Gray
  }

  /** Each of the five statuses has a colour of its own. */
  lemma StatusColorsDistinct(a: string, b: string)
    requires IsStatus(a) && IsStatus(b) && a != b
    ensures StatusColor(a) != StatusColor(b)
  {
  }

  /** The status shown and edited: a missing or empty one reads
      'Processing'. */
  function DisplayStatus(status: Option<string>): (s: string)
    ensures Truthy(status) ==> s == status.value
    ensures !Truthy(status) ==> s == Processing
  {
    OrElse(status, Processing)
  }

  /** The edit dialog's form. */
  datatype EditForm = EditForm(
    customerName: string, email: string, phone: string, address: string, city: string,
    postalCode: string, deliveryDate: string, specialInstructions: string, quantity: int, status: string)

  /** The form as the dialog opens on `o`. */
  function EditPrefill(o: Order): (f: EditForm)
    ensures f.status == DisplayStatus(Some(o.status))
    ensures f.quantity == o.quantity && f.customerName == o.customerName
  {
    EditForm(o.customerName, o.email, o.phone, o.address, o.city, o.postalCode, o.deliveryDate,
             OrElse(Some(o.specialInstructions), ""), o.quantity, DisplayStatus(Some(o.status)))
  }

  /** `{ ...order, ...formData, totalAmount: price * quantity }`. */
  function EditSubmit(o: Order, f: EditForm): (u: Order)
    ensures u.totalAmount == o.cylinder.price * f.quantity
    ensures u.id == o.id && u.orderId == o.orderId && u.cylinder == o.cylinder
    ensures u.quantity == f.quantity && u.status == f.status
  {
    o.(customerName := f.customerName, email := f.email, phone := f.phone, address := f.address,
       city := f.city, postalCode := f.postalCode, deliveryDate := f.deliveryDate,
       specialInstructions := f.specialInstructions, quantity := f.quantity, status := f.status,
       totalAmount := o.cylinder.price * f.quantity)
  }

  /** The whole edited order as an update body. */
  function PatchOf(u: Order): OrderController.OrderPatch {
    OrderController.OrderPatch(Some(u.orderId), Some(u.customerName), Some(u.email), Some(u.phone),
      Some(u.address), Some(u.city), Some(u.postalCode), Some(u.deliveryDate),
      Some(u.specialInstructions), Some(u.quantity), Some(u.status), Some(u.cylinder), Some(u.totalAmount),
      Some(u.orderDate), Some(u.userId))
  }

  /** The server stores exactly what the dialog submits: its own total
      recomputation agrees with the dialog's, whatever the quantity. */
  lemma EditStoredAsSubmitted(o: Order, f: EditForm)
    ensures var u := EditSubmit(o, f);
      OrderController.ApplyPatch(o, OrderController.WithTotal(PatchOf(u))) == u
  {
  }

  /** Saving the dialog unchanged writes back the same order, up to a
      missing status shown as 'Processing' and a total set back to price
      times quantity. */
  lemma UnchangedEditKeepsOrder(o: Order)
    requires o.status != "" && o.totalAmount == o.cylinder.price * o.quantity
    ensures EditSubmit(o, EditPrefill(o)) == o
  {
  }
}
