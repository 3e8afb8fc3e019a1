/** The order collection behind `server/controllers/order.controller.js`
    and the handlers that change it or read it: create, list, list by
    account, fetch, update, update status, delete and statistics. */
module OrderController {
  import opened Wrappers
  import opened OrderModel
  import opened OrderQueries
  import OrderIds

  const MissingFields := "All required fields must be provided"
  const OrderNotFound := "Order not found"
  const InvalidStatus := "Invalid status value"

  /** The message of a schema validation error (its exact text comes from
      the database library). */
  const ValidationFailed := "Order validation failed"

  /** The message of a unique-index violation on `orderId`. */
  const DuplicateKey := "E11000 duplicate key error"

  /** The body of a create request; any field may be missing. */
  datatype CreateBody = CreateBody(
    customerName: Option<string>,
    email: Option<string>,
    phone: Option<string>,
    address: Option<string>,
    city: Option<string>,
    postalCode: Option<string>,
    deliveryDate: Option<string>,
    specialInstructions: Option<string>,
    quantity: Option<int>,
    cylinder: Option<Cylinder>,
    userId: Option<string>)

  /** The controller's own check: every required field present and truthy,
      so a quantity of 0 is refused as missing. */
  predicate HasRequiredFields(b: CreateBody) {
    && Truthy(b.customerName) && Truthy(b.email) && Truthy(b.phone)
    && Truthy(b.address) && Truthy(b.city) && Truthy(b.postalCode)
    && Truthy(b.deliveryDate) && TruthyNumber(b.quantity) && b.cylinder.Some?
  }

  /** The document `createOrder` builds: the total is the unit price times
      the quantity, the instructions default to '' and the account to null,
      the status to 'Confirmed' and the order date to now. */
  function NewOrder(b: CreateBody, id: Id, orderId: string, nowMs: int): (o: Order)
    requires HasRequiredFields(b)
    ensures o.totalAmount == o.cylinder.price * o.quantity
    ensures o.quantity == b.quantity.value && o.cylinder == b.cylinder.value
    ensures o.specialInstructions == OrElse(b.specialInstructions, "")
    ensures o.userId.Some? <==> Truthy(b.userId)
    ensures o.status == DefaultStatus && o.orderDate == nowMs
  {
    Order(id, orderId, b.customerName.value, b.email.value, b.phone.value, b.address.value,
          b.city.value, b.postalCode.value, b.deliveryDate.value, OrElse(b.specialInstructions, ""),
          b.quantity.value, DefaultStatus, b.cylinder.value, b.cylinder.value.price * b.quantity.value,
          nowMs, if Truthy(b.userId) then b.userId else None)
  }

  /** A body that passes the controller's check still fails the schema
      exactly when its quantity is negative or its cylinder lacks a name,
      weight or image. */
  lemma NewOrderValidity(b: CreateBody, id: Id, nowMs: nat, draw: nat)
    requires HasRequiredFields(b) && draw < 100
    ensures ValidOrder(NewOrder(b, id, OrderIds.GenerateOrderId(nowMs, draw), nowMs))
        <==> b.quantity.value >= 1 && ValidCylinder(b.cylinder.value)
  {
    var oid := OrderIds.GenerateOrderId(nowMs, draw);
    assert oid[..2] == OrderIds.Prefix;
  }

  /** The fields an update body may set; a missing field is left alone.
      `userId` is `Some(None)` when the body sets it to `null`. */
  datatype OrderPatch = OrderPatch(
    orderId: Option<string>,
    customerName: Option<string>,
    email: Option<string>,
    phone: Option<string>,
    address: Option<string>,
    city: Option<string>,
    postalCode: Option<string>,
    deliveryDate: Option<string>,
    specialInstructions: Option<string>,
    quantity: Option<int>,
    status: Option<string>,
    cylinder: Option<Cylinder>,
    totalAmount: Option<int>,
    orderDate: Option<int>,
    userId: Option<Option<string>>)

  /** A patch that changes nothing. */
  const EmptyPatch := OrderPatch(None, None, None, None, None, None, None, None, None, None, None, None, None, None, None)

  /** `updateOrder`'s recomputation: a truthy quantity together with a
      cylinder sets the total to price times quantity, overriding any total
      in the body; otherwise the body is used as given. */
  function WithTotal(p: OrderPatch): (q: OrderPatch)
    ensures TruthyNumber(p.quantity) && p.cylinder.Some? ==>
      q == p.(totalAmount := Some(p.cylinder.value.price * p.quantity.value))
    ensures !(TruthyNumber(p.quantity) && p.cylinder.Some?) ==> q == p
  {
    if TruthyNumber(p.quantity) && p.cylinder.Some? then
      p.(totalAmount := Some(p.cylinder.value.price * p.quantity.value))
    else p
  }

  /** The validators that run on an update: only those of the fields set;
      `totalAmount`, `orderDate` and `userId` have no validator that a
      number or an account reference can fail. */
  predicate PatchValid(p: OrderPatch) {
    && (p.orderId.Some? ==> RequiredText(p.orderId.value))
    && (p.customerName.Some? ==> RequiredText(p.customerName.value))
    && (p.email.Some? ==> RequiredText(p.email.value))
    && (p.phone.Some? ==> RequiredText(p.phone.value))
    && (p.address.Some? ==> RequiredText(p.address.value))
    && (p.city.Some? ==> RequiredText(p.city.value))
    && (p.postalCode.Some? ==> RequiredText(p.postalCode.value))
    && (p.deliveryDate.Some? ==> RequiredText(p.deliveryDate.value))
    && (p.quantity.Some? ==> p.quantity.value >= 1)
    && (p.status.Some? ==> IsStatus(p.status.value))
    && (p.cylinder.Some? ==> ValidCylinder(p.cylinder.value))
  }

  /** `$set` of the patch's fields on a stored order. */
  function ApplyPatch(o: Order, p: OrderPatch): Order {
    o.(orderId := p.orderId.GetOr(o.orderId),
       customerName := p.customerName.GetOr(o.customerName),
       email := p.email.GetOr(o.email),
       phone := p.phone.GetOr(o.phone),
       address := p.address.GetOr(o.address),
       city := p.city.GetOr(o.city),
       postalCode := p.postalCode.GetOr(o.postalCode),
       deliveryDate := p.deliveryDate.GetOr(o.deliveryDate),
       specialInstructions := p.specialInstructions.GetOr(o.specialInstructions),
       quantity := p.quantity.GetOr(o.quantity),
       status := p.status.GetOr(o.status),
       cylinder := p.cylinder.GetOr(o.cylinder),
       totalAmount := p.totalAmount.GetOr(o.totalAmount),
       orderDate := p.orderDate.GetOr(o.orderDate),
       userId := p.userId.GetOr(o.userId))
  }

  /** A valid order stays valid under a patch whose set fields pass their
      validators; its id never changes. */
  lemma PatchKeepsValid(o: Order, p: OrderPatch)
    requires ValidOrder(o) && PatchValid(p)
    ensures ValidOrder(ApplyPatch(o, p)) && ApplyPatch(o, p).id == o.id
  {
  }

  /** An update that sets `userId` moves the order from its old account's
      listing to the new one's. */
  lemma UpdateMovesBetweenAccounts(docs: seq<Order>, k: nat, from: string, to: string)
    requires UniqueIds(docs) && k < |docs| && docs[k].userId == Some(from) && from != to
    ensures var o := ApplyPatch(docs[k], EmptyPatch.(userId := Some(Some(to))));
      var after := docs[k := o];
      && o in OfUser(after, to)
      && (forall d :: d in OfUser(after, from) ==> d.id != docs[k].id)
      && docs[k] in OfUser(docs, from)
  {
    var o := ApplyPatch(docs[k], EmptyPatch.(userId := Some(Some(to))));
    var after := docs[k := o];
    assert after[k] == o;
    forall d | d in OfUser(after, from) ensures d.id != docs[k].id {
      var i :| 0 <= i < |after| && after[i] == d;
      assert i != k;
    }
  }

  /** The total is price times quantity. */
  predicate TotalConsistent(o: Order) {
    o.totalAmount == o.cylinder.price * o.quantity
  }

  /** An update keeps the total consistent when it carries a truthy
      quantity and a cylinder, or touches none of quantity, cylinder and
      total. */
  lemma UpdateKeepsTotalConsistent(o: Order, p: OrderPatch)
    requires TotalConsistent(o)
    requires (TruthyNumber(p.quantity) && p.cylinder.Some?)
      || (p.quantity.None? && p.cylinder.None? && p.totalAmount.None?)
    ensures TotalConsistent(ApplyPatch(o, WithTotal(p)))
  {
  }

  /** An update carrying a new quantity but no cylinder keeps the old total,
      which then no longer equals price times quantity. */
  lemma QuantityAloneKeepsOldTotal(o: Order)
    requires TotalConsistent(o) && o.cylinder.price != 0
    ensures var p := EmptyPatch.(quantity := Some(o.quantity + 1));
      var n := ApplyPatch(o, WithTotal(p));
      n.totalAmount == o.totalAmount && n.quantity == o.quantity + 1 && !TotalConsistent(n)
  {
  }

  /** The position of the order with database id `id`. */
  function FindId(docs: seq<Order>, id: Id): (r: Option<nat>)
    ensures r.Some? ==> r.value < |docs| && docs[r.value].id == id
    ensures r.None? ==> forall i :: 0 <= i < |docs| ==> docs[i].id != id
  {
    if docs == [] then None
    else if docs[0].id == id then Some(0)
    else match FindId(docs[1..], id)
      case None => None
      case Some(k) => Some(k + 1)
  }

  /** The position of the order with order number `orderId`. */
  function FindOrderId(docs: seq<Order>, orderId: string): (r: Option<nat>)
    ensures r.Some? ==> r.value < |docs| && docs[r.value].orderId == orderId
    ensures r.None? ==> !OrderIdTaken(docs, orderId)
  {
    if docs == [] then None
    else if docs[0].orderId == orderId then Some(0)
    else match FindOrderId(docs[1..], orderId)
      case None => (assert forall i :: 1 <= i < |docs| ==> docs[i] == docs[1..][i - 1]; None)
      case Some(k) => Some(k + 1)
  }

  /** An order other than the one at `k` uses `orderId`. */
  predicate TakenByOther(docs: seq<Order>, k: nat, orderId: string) {
    exists i :: 0 <= i < |docs| && i != k && docs[i].orderId == orderId
  }

  class OrderStore {
    /** The stored orders in natural order. */
    var docs: seq<Order>
    /** The next database id to hand out. */
    var nextId: nat

    ghost predicate Valid()
      reads this
    {
      && ValidCollection(docs)
      && forall i :: 0 <= i < |docs| ==> docs[i].id < nextId
    }

    constructor()
      ensures Valid() && docs == [] && nextId == 0
    {
      docs := [];
      nextId := 0;
    }

    /** `createOrder` at clock reading `nowMs` with random draw `draw`. */
    method CreateOrder(b: CreateBody, nowMs: nat, draw: nat) returns (r: Reply<Order>)
      requires Valid() && draw < 100
      modifies this
      ensures Valid()
      ensures !HasRequiredFields(b) ==>
        r == Fail(400, MissingFields) && docs == old(docs) && nextId == old(nextId)
      ensures HasRequiredFields(b) ==>
        var o := NewOrder(b, old(nextId), OrderIds.GenerateOrderId(nowMs, draw), nowMs);
        if ValidOrder(o) && !OrderIdTaken(old(docs), o.orderId) then
          r == Ok(201, o) && docs == old(docs) + [o] && nextId == old(nextId) + 1
        else
          r.Fail? && r.code == 500 && docs == old(docs) && nextId == old(nextId)
    {
      if !HasRequiredFields(b) {
        return Fail(400, MissingFields);
      }
      var o := NewOrder(b, nextId, OrderIds.GenerateOrderId(nowMs, draw), nowMs);
      if !ValidOrder(o) {
        return Fail(500, ValidationFailed);
      }
      if FindOrderId(docs, o.orderId).Some? {
        return Fail(500, DuplicateKey);
      }
      AppendKeepsValid(docs, o);
      docs := docs + [o];
      nextId := nextId + 1;
      r := Ok(201, o);
    }

    /** `getOrders`: builds the filter, the sort and the offset, then pages
      the matching orders. */
    method GetOrders(q: ListQuery) returns (r: Reply<Listing>)
      requires LimitOk(q)
      ensures r == ListOrders(docs, q)
    {
      var search := q.search.GetOr("");
      var status := q.status.GetOr("");
      var filter := Filter(None, None);
      if search != "" {
        filter := filter.(search := Some(search));
      }
      if status != "" {
        filter := filter.(status := Some(status));
      }
      var sortBy := q.sortBy.GetOr(ByOrderDate);
      var descending := q.sortOrder.GetOr("desc") == "desc";
      var page := q.page.GetOr(DefaultPage);
      var limit := q.limit.GetOr(DefaultLimit);
      var skip := (page - 1) * limit;
      if skip < 0 {
        return Fail(500, NegativeSkip);
      }
      assert filter == FilterOf(q);
      var matches := Select(docs, filter);
      var sorted := SortBy(matches, sortBy, descending);
      var orders := Window(sorted, skip, limit);
      var total := |matches|;
      SortByLength(matches, sortBy, descending);
      PageOfParts(sorted, total, page, limit);
      r := Ok(200, Listing(orders, Pagination(page, CeilDiv(total, limit), total, skip + |orders| < total, page > 1)));
    }

    /** `getOrdersByUser`. */
    method GetOrdersByUser(userId: string, page: Option<int>, limit: Option<int>) returns (r: Reply<Listing>)
      requires limit.GetOr(DefaultLimit) >= 1
      ensures r == ListOrdersOfUser(docs, userId, page, limit)
    {
      var p := page.GetOr(DefaultPage);
      var l := limit.GetOr(DefaultLimit);
      var skip := (p - 1) * l;
      if skip < 0 {
        return Fail(500, NegativeSkip);
      }
      var mine := OfUser(docs, userId);
      var sorted := SortBy(mine, ByOrderDate, true);
      var orders := Window(sorted, skip, l);
      var total := |mine|;
      SortByLength(mine, ByOrderDate, true);
      PageOfParts(sorted, total, p, l);
      assert ListOrdersOfUser(docs, userId, page, limit) == Paginate(sorted, p, l);
      r := Ok(200, Listing(orders, Pagination(p, CeilDiv(total, l), total, skip + |orders| < total, p > 1)));
    }

    /** `getOrderById`. */
    method GetOrderById(id: Id) returns (r: Reply<Order>)
      ensures (exists i :: 0 <= i < |docs| && docs[i].id == id) <==> r.Ok?
      ensures r.Ok? ==> r.code == 200 && r.value in docs && r.value.id == id
      ensures r.Fail? ==> r == Fail(404, OrderNotFound)
    {
      var k := FindId(docs, id);
      if k.None? {
        return Fail(404, OrderNotFound);
      }
      r := Ok(200, docs[k.value]);
    }

    /** `getOrderByOrderId`. */
    method GetOrderByOrderId(orderId: string) returns (r: Reply<Order>)
      ensures OrderIdTaken(docs, orderId) <==> r.Ok?
      ensures r.Ok? ==> r.code == 200 && r.value in docs && r.value.orderId == orderId
      ensures r.Fail? ==> r == Fail(404, OrderNotFound)
    {
      var k := FindOrderId(docs, orderId);
      if k.None? {
        return Fail(404, OrderNotFound);
      }
      r := Ok(200, docs[k.value]);
    }

    /** `updateOrder`: recompute the total, validate the fields set, find
      the order, then write the patch unless it would duplicate an order
      number. */
    method UpdateOrder(id: Id, p: OrderPatch) returns (r: Reply<Order>)
      requires Valid()
      modifies this
      ensures Valid() && nextId == old(nextId)
      ensures var q := WithTotal(p);
        if !PatchValid(q) then
          r == Fail(500, ValidationFailed) && docs == old(docs)
        else if FindId(old(docs), id).None? then
          r == Fail(404, OrderNotFound) && docs == old(docs)
        else
          var k := FindId(old(docs), id).value;
          var o := ApplyPatch(old(docs)[k], q);
          if TakenByOther(old(docs), k, o.orderId) then
            r == Fail(500, DuplicateKey) && docs == old(docs)
          else
            r == Ok(200, o) && docs == old(docs)[k := o]
    {
      var q := WithTotal(p);
      if !PatchValid(q) {
        return Fail(500, ValidationFailed);
      }
      var found := FindId(docs, id);
      if found.None? {
        return Fail(404, OrderNotFound);
      }
      var k := found.value;
      var o := ApplyPatch(docs[k], q);
      var i := 0;
      while i < |docs|
        invariant 0 <= i <= |docs|
        invariant forall j :: 0 <= j < i && j != k ==> docs[j].orderId != o.orderId
      {
        if i != k && docs[i].orderId == o.orderId {
          return Fail(500, DuplicateKey);
        }
        i := i + 1;
      }
      PatchKeepsValid(docs[k], q);
      ReplaceKeepsValid(docs, k, o);
      docs := docs[k := o];
      r := Ok(200, o);
    }

    /** `updateOrderStatus`: the enum guard, then the status alone. */
    method UpdateOrderStatus(id: Id, status: Option<string>) returns (r: Reply<Order>)
      requires Valid()
      modifies this
      ensures Valid() && nextId == old(nextId)
      ensures !(status.Some? && IsStatus(status.value)) ==>
        r == Fail(400, InvalidStatus) && docs == old(docs)
      ensures status.Some? && IsStatus(status.value) && FindId(old(docs), id).None? ==>
        r == Fail(404, OrderNotFound) && docs == old(docs)
      ensures status.Some? && IsStatus(status.value) && FindId(old(docs), id).Some? ==>
        var k := FindId(old(docs), id).value;
        r == Ok(200, old(docs)[k].(status := status.value))
        && docs == old(docs)[k := old(docs)[k].(status := status.value)]
    {
      if !(status.Some? && status.value in StatusValues) {
        return Fail(400, InvalidStatus);
      }
      var found := FindId(docs, id);
      if found.None? {
        return Fail(404, OrderNotFound);
      }
      var k := found.value;
      var o := docs[k].(status := status.value);
      ReplaceKeepsValid(docs, k, o);
      docs := docs[k := o];
      r := Ok(200, o);
    }

    /** `deleteOrder`. */
    method DeleteOrder(id: Id) returns (r: Reply<()>)
      requires Valid()
      modifies this
      ensures Valid() && nextId == old(nextId)
      ensures FindId(old(docs), id).None? ==> r == Fail(404, OrderNotFound) && docs == old(docs)
      ensures FindId(old(docs), id).Some? ==>
        var k := FindId(old(docs), id).value;
        r == Ok(200, ()) && docs == old(docs)[..k] + old(docs)[k + 1..]
    {
      var found := FindId(docs, id);
      if found.None? {
        return Fail(404, OrderNotFound);
      }
      var k := found.value;
      CutOut(docs, k, nextId);
      docs := docs[..k] + docs[k + 1..];
      r := Ok(200, ());
    }

    /** `getOrderStats`. */
    method GetOrderStats() returns (r: OrderStats)
      ensures r == Stats(docs)
    {
      r := Stats(docs);
    }
  }

  /** Deleting by id removes exactly the stored orders with that id. */
  lemma DeleteRemovesExactly(docs: seq<Order>, id: Id)
    requires UniqueIds(docs) && FindId(docs, id).Some?
    ensures var k := FindId(docs, id).value;
      forall o :: o in docs[..k] + docs[k + 1..] <==> o in docs && o.id != id
  {
    RemoveOnlyThat(docs, FindId(docs, id).value);
  }

  /** Cutting out the order at `k` keeps the store's invariant. */
  lemma CutOut(docs: seq<Order>, k: nat, nextId: nat)
    requires ValidCollection(docs) && k < |docs|
    requires forall i :: 0 <= i < |docs| ==> docs[i].id < nextId
    ensures var rest := docs[..k] + docs[k + 1..];
      && ValidCollection(rest)
      && (forall i :: 0 <= i < |rest| ==> rest[i].id < nextId)
  {
    RemoveKeepsValid(docs, k);
    RemoveAt(docs, k);
  }

  /** With unique ids, cutting out the order at `k` removes exactly the
      orders with its id. */
  lemma RemoveOnlyThat(docs: seq<Order>, k: nat)
    requires UniqueIds(docs) && k < |docs|
    ensures forall o :: o in docs[..k] + docs[k + 1..] <==> o in docs && o.id != docs[k].id
  {
    forall o | o in docs && o.id != docs[k].id
      ensures o in docs[..k] + docs[k + 1..]
    {
      var i :| 0 <= i < |docs| && docs[i] == o;
      if i < k {
        assert docs[..k][i] == o;
      } else {
        assert docs[k + 1..][i - k - 1] == o;
      }
    }
  }

  /** The first half of the walkthrough: the test order is created in an
      empty store, listed and fetched by its id. */
  method CreateListFetch(nowMs: nat, draw: nat, deliveryDate: string)
    returns (store: OrderStore, created: Reply<Order>, listed: Reply<Listing>, fetched: Reply<Order>)
    requires draw < 100 && deliveryDate != ""
    ensures fresh(store) && store.Valid()
    ensures created.Ok? && created.code == 201 && store.docs == [created.value]
    ensures created.value.totalAmount == 2964 && created.value.status == Confirmed
    ensures created.value.specialInstructions == "Please call before delivery" && created.value.userId.None?
    ensures listed.Ok? && listed.value.orders == [created.value] && listed.value.pagination.totalOrders == 1
    ensures fetched == Ok(200, created.value)
  {
    store := new OrderStore();
    var cylinder := Cylinder(1, "Litro Gas 5 kg", "5 kg", 1482, "https://via.placeholder.com/150x200/4A90E2/FFFFFF?text=Litro+5kg");
    var body := CreateBody(Some("John Doe"), Some("john.doe@example.com"), Some("1234567890"),
      Some("123 Main Street"), Some("Colombo"), Some("10000"), Some(deliveryDate),
      Some("Please call before delivery"), Some(2), Some(cylinder), None);
    created := store.CreateOrder(body, nowMs, draw);
    NewOrderValidity(body, 0, nowMs, draw);
    var o := NewOrder(body, 0, OrderIds.GenerateOrderId(nowMs, draw), nowMs);
    assert created == Ok(201, o);
    assert store.docs == [o];
    listed := store.GetOrders(ListQuery(Some(1), Some(10), None, None, None, None));
    ListOfOne(o);
    fetched := store.GetOrderById(o.id);
  }

  /** The second half: the only stored order is set to 'Processing',
      counted in the statistics, deleted and then no longer found. */
  method UpdateCountDelete(store: OrderStore, o: Order)
    returns (updated: Reply<Order>, stats: OrderStats, deleted: Reply<()>, refetched: Reply<Order>)
    requires store.Valid() && store.docs == [o]
    modifies store
    ensures updated == Ok(200, o.(status := Processing))
    ensures stats.totalOrders == 1 && stats.totalRevenue == o.totalAmount
    ensures stats.byStatus == [StatusGroup(Processing, 1, o.totalAmount)]
    ensures deleted == Ok(200, ())
    ensures refetched == Fail(404, OrderNotFound)
  {
    updated := store.UpdateOrderStatus(o.id, Some(Processing));
    var p := o.(status := Processing);
    assert store.docs == [p];
    stats := store.GetOrderStats();
    StatsOfOne(p);
    deleted := store.DeleteOrder(o.id);
    refetched := store.GetOrderById(o.id);
  }

  /** The API test script: the test order of 2 cylinders at 1482 is created,
      listed, fetched, updated, counted, deleted and then not found. */
  method OrderApiWalkthrough(nowMs: nat, draw: nat, deliveryDate: string)
    returns (created: Reply<Order>, listed: Reply<Listing>, fetched: Reply<Order>,
             updated: Reply<Order>, stats: OrderStats, deleted: Reply<()>, refetched: Reply<Order>)
    requires draw < 100 && deliveryDate != ""
    ensures created.Ok? && created.code == 201
    ensures created.value.totalAmount == 2964 && created.value.status == Confirmed
    ensures created.value.specialInstructions == "Please call before delivery" && created.value.userId.None?
    ensures listed.Ok? && listed.value.orders == [created.value] && listed.value.pagination.totalOrders == 1
    ensures fetched == Ok(200, created.value)
    ensures updated == Ok(200, created.value.(status := Processing))
    ensures stats.totalOrders == 1 && stats.totalRevenue == 2964
    ensures stats.byStatus == [StatusGroup(Processing, 1, 2964)]
    ensures deleted == Ok(200, ())
    ensures refetched == Fail(404, OrderNotFound)
  {
    var store;
    store, created, listed, fetched := CreateListFetch(nowMs, draw, deliveryDate);
    updated, stats, deleted, refetched := UpdateCountDelete(store, created.value);
  }
}
