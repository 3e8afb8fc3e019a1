/** The order document of `server/models/order.model.js`: its fields, the
    constraints the schema enforces when a document is saved or validated,
    and the collection-wide uniqueness of `orderId` and of the database id. */
module OrderModel {
  import opened Wrappers

  /** The five values of the `status` enum, in the schema's order. */
  const Confirmed := "Confirmed"
  const Processing := "Processing"
  const Shipped := "Shipped"
  const Delivered := "Delivered"
  const Cancelled := "Cancelled"
  const StatusValues: seq<string> := [Confirmed, Processing, Shipped, Delivered, Cancelled]

  /** The `status` default. */
  const DefaultStatus := Confirmed

  predicate IsStatus(s: string) {
    s in StatusValues
  }

  /** A database id (MongoDB's `_id`); the id generator is abstracted to a
      counter of the store. */
  type Id = nat

  /** The embedded snapshot of the catalog item ordered. */
  datatype Cylinder = Cylinder(id: int, name: string, weight: string, price: int, image: string)

  /** One stored order. `deliveryDate` keeps the caller's date text;
      `orderDate` is the creation time in milliseconds; `userId` is the
      optional account reference (`null` when absent). */
  datatype Order = Order(
    id: Id,
    orderId: string,
    customerName: string,
    email: string,
    phone: string,
    address: string,
    city: string,
    postalCode: string,
    deliveryDate: string,
    specialInstructions: string,
    quantity: int,
    status: string,
    cylinder: Cylinder,
    totalAmount: int,
    orderDate: int,
    userId: Option<string>)

  /** Mongoose's `required` on a string path rejects the empty string. */
  predicate RequiredText(s: string) {
    s != ""
  }

  /** The cylinder snapshot's required paths (numbers are always present
      here, so only the strings can fail). */
  predicate ValidCylinder(c: Cylinder) {
    RequiredText(c.name) && RequiredText(c.weight) && RequiredText(c.image)
  }

  /** What the schema's validators demand of one document. */
  predicate ValidOrder(o: Order) {
    && RequiredText(o.orderId)
    && RequiredText(o.customerName)
    && RequiredText(o.email)
    && RequiredText(o.phone)
    && RequiredText(o.address)
    && RequiredText(o.city)
    && RequiredText(o.postalCode)
    && RequiredText(o.deliveryDate)
    && o.quantity >= 1
    && IsStatus(o.status)
    && ValidCylinder(o.cylinder)
  }

  /** `orderId` is declared `unique`: no two stored orders share one. */
  predicate UniqueOrderIds(docs: seq<Order>) {
    forall i, j :: 0 <= i < j < |docs| ==> docs[i].orderId != docs[j].orderId
  }

  /** Database ids are unique too. */
  predicate UniqueIds(docs: seq<Order>) {
    forall i, j :: 0 <= i < j < |docs| ==> docs[i].id != docs[j].id
  }

  /** The invariant of the order collection. */
  predicate ValidCollection(docs: seq<Order>) {
    && (forall i :: 0 <= i < |docs| ==> ValidOrder(docs[i]))
    && UniqueOrderIds(docs)
    && UniqueIds(docs)
  }

  /** Some stored order already uses `orderId`. */
  predicate OrderIdTaken(docs: seq<Order>, orderId: string) {
    exists i :: 0 <= i < |docs| && docs[i].orderId == orderId
  }

  /** Appending a valid order whose `orderId` and id are new keeps the
      collection valid. */
  lemma AppendKeepsValid(docs: seq<Order>, o: Order)
    requires ValidCollection(docs) && ValidOrder(o)
    requires !OrderIdTaken(docs, o.orderId)
    requires forall i :: 0 <= i < |docs| ==> docs[i].id != o.id
    ensures ValidCollection(docs + [o])
  {
    var d := docs + [o];
    forall i, j | 0 <= i < j < |d| ensures d[i].orderId != d[j].orderId {
      if j == |docs| {
        assert d[i] == docs[i];
      }
    }
  }

  /** Replacing one order by a valid one with the same id whose `orderId`
      no other order uses keeps the collection valid. */
  lemma ReplaceKeepsValid(docs: seq<Order>, k: nat, o: Order)
    requires ValidCollection(docs) && k < |docs| && ValidOrder(o)
    requires o.id == docs[k].id
    requires forall i :: 0 <= i < |docs| && i != k ==> docs[i].orderId != o.orderId
    ensures ValidCollection(docs[k := o])
  {
  }

  /** Removing one order keeps the collection valid. */
  lemma RemoveKeepsValid(docs: seq<Order>, k: nat)
    requires ValidCollection(docs) && k < |docs|
    ensures ValidCollection(docs[..k] + docs[k + 1..])
  {
    RemoveAt(docs, k);
  }

  /** Cutting out position `k` shifts every later order down by one. */
  lemma RemoveAt(docs: seq<Order>, k: nat)
    requires k < |docs|
    ensures var d := docs[..k] + docs[k + 1..];
      |d| == |docs| - 1 && forall i :: 0 <= i < |d| ==> d[i] == docs[if i < k then i else i + 1]
  {
  }
}
