/** The inventory dashboard, `client/src/pages/InventoryManagement/
    InventoryManagement.jsx`: the counters and the stock valuation computed
    from the item list, and the contents of the downloadable report. */
module Inventory {
  import opened Wrappers
  import opened Tally

  /** An inventory item as the list endpoint returns it; prices are whole
      rupees. */
  datatype Item = Item(name: string, price: int, quantity: int, supplier: string, status: string, itemType: string)

  const Expired := "Expired"
  const PendingToExpire := "Pending to expire"

  predicate IsExpired(i: Item) { i.status == Expired }
  predicate IsPending(i: Item) { i.status == PendingToExpire }
  predicate IsActive(i: Item) { i.status != Expired }

  /** `item.Mprice * item.Mquantity`. */
  function Value(i: Item): int { i.price * i.quantity }

  /** The number of items whose type is exactly `t`. */
  function TypeCount(items: seq<Item>, t: string): nat {
    CountWhere(items, (i: Item) => i.itemType == t)
  }

  /** The dashboard's counters. */
  datatype Counts = Counts(total: nat, valuation: int, expired: nat, pending: nat,
                           twoKg: nat, fiveKg: nat, twelveHalfKg: nat, thirtySevenHalfKg: nat)

  const NoCounts := Counts(0, 0, 0, 0, 0, 0, 0, 0)

  /** The counters `fetchInventory` sets from the list `items`. */
  function CountsOf(items: seq<Item>): Counts {
    Counts(|items|, SumOf(items, Value), CountWhere(items, IsExpired), CountWhere(items, IsPending),
           TypeCount(items, "2kg"), TypeCount(items, "5kg"), TypeCount(items, "12.5kg"), TypeCount(items, "37.5kg"))
  }

  /** The four type counts together never exceed the item count: the type
      tests are exact and so no item matches two. */
  lemma {:induction false} TypeCountsWithinTotal(items: seq<Item>)
    ensures TypeCount(items, "2kg") + TypeCount(items, "5kg") + TypeCount(items, "12.5kg")
      + TypeCount(items, "37.5kg") <= |items|
  {
    if items != [] {
      TypeCountsWithinTotal(items[..|items| - 1]);
    }
  }

  /** What the counters mean: the expired and the pending items are
      different items, the type counts are exact and case-sensitive, and
      a stock without negative prices or quantities has a non-negative
      value. */
  lemma CountsMeaning(items: seq<Item>)
    ensures var c := CountsOf(items);
      && c.total == |items|
      && c.expired == |Positions(items, IsExpired)|
      && c.pending == |Positions(items, IsPending)|
      && c.expired + c.pending <= c.total
      && c.twoKg + c.fiveKg + c.twelveHalfKg + c.thirtySevenHalfKg <= c.total
      && ((forall i :: i in items ==> i.price >= 0 && i.quantity >= 0) ==> c.valuation >= 0)
  {
    CountIsPositions(items, IsExpired);
    CountIsPositions(items, IsPending);
    DisjointCounts(items, IsExpired, IsPending);
    TypeCountsWithinTotal(items);
  }

  /** A type spelt with other letter case is not counted. */
  lemma TypeMatchIsExact()
    ensures TypeCount([Item("Gas", 100, 1, "S", "Active", "2KG")], "2kg") == 0
  {
    assert [Item("Gas", 100, 1, "S", "Active", "2KG")][..0] == [];
  }

  /** The counters of two lists put together are the sums of their
      counters. */
  lemma CountsAppend(xs: seq<Item>, ys: seq<Item>)
    ensures var c := CountsOf(xs + ys);
      var a := CountsOf(xs);
      var b := CountsOf(ys);
      && c.valuation == a.valuation + b.valuation
      && c.expired == a.expired + b.expired && c.pending == a.pending + b.pending
      && c.twoKg == a.twoKg + b.twoKg && c.fiveKg == a.fiveKg + b.fiveKg
      && c.twelveHalfKg == a.twelveHalfKg + b.twelveHalfKg
      && c.thirtySevenHalfKg == a.thirtySevenHalfKg + b.thirtySevenHalfKg
  {
    SumAppend(xs, ys, Value);
    CountAppend(xs, ys, IsExpired);
    CountAppend(xs, ys, IsPending);
    CountAppend(xs, ys, (i: Item) => i.itemType == "2kg");
    CountAppend(xs, ys, (i: Item) => i.itemType == "5kg");
    CountAppend(xs, ys, (i: Item) => i.itemType == "12.5kg");
    CountAppend(xs, ys, (i: Item) => i.itemType == "37.5kg");
  }

  // ---------------------------------------------------------------------------
  // The report

  /** One row of the report's item table. */
  datatype ItemRow = ItemRow(name: string, price: int, quantity: int, supplier: string, status: string)

  /** The item table: one row per item, in order. */
  function Rows(items: seq<Item>): (rows: seq<ItemRow>)
    ensures |rows| == |items|
    ensures forall k :: 0 <= k < |items| ==>
      rows[k] == ItemRow(items[k].name, items[k].price, items[k].quantity, items[k].supplier, items[k].status)
  {
    seq(|items|, k requires 0 <= k < |items| =>
      ItemRow(items[k].name, items[k].price, items[k].quantity, items[k].supplier, items[k].status))
  }

  /** The figures the report prints. */
  datatype Report = Report(size: nat, valuation: int, rows: seq<ItemRow>, expired: int, active: int, pending: int,
                           twoKg: nat, fiveKg: nat, twelveHalfKg: nat, thirtySevenHalfKg: nat)

  /** The report for the freshly fetched `items` on a page whose counters
      are `page`: the size, value and table come from the new list, the
      status and type counts from the page's counters, and the active count
      is the new size less the page's expired count. */
  function ReportOf(page: Counts, items: seq<Item>): (r: Report)
    ensures r.size == |items| && r.rows == Rows(items) && r.valuation == SumOf(items, Value)
    ensures r.active == |items| - page.expired
    ensures r.expired == page.expired && r.pending == page.pending && r.twoKg == page.twoKg
  {
    Report(|items|, SumOf(items, Value), Rows(items), page.expired, |items| - page.expired, page.pending,
           page.twoKg, page.fiveKg, page.twelveHalfKg, page.thirtySevenHalfKg)
  }

  /** When the list has not changed since the page loaded, the report
      describes it: the active items are those not expired. */
  lemma ReportOfUnchangedList(items: seq<Item>)
    ensures var r := ReportOf(CountsOf(items), items);
      && r.active == CountWhere(items, IsActive) && r.active >= 0
      && r.expired + r.active == r.size
      && r.twoKg == TypeCount(items, "2kg") && r.thirtySevenHalfKg == TypeCount(items, "37.5kg")
  {
    CountComplement(items, IsExpired, IsActive);
  }

  /** When an item was added after the page loaded, the report's counts
      still describe the old list: a new 2 kg item is listed in the table
      but not counted. */
  lemma ReportCountsStale()
    ensures var added := Item("Gas", 100, 1, "S", "Active", "2kg");
      var r := ReportOf(CountsOf([]), [added]);
      |r.rows| == 1 && r.twoKg == 0 && TypeCount([added], "2kg") == 1
  {
    var added := Item("Gas", 100, 1, "S", "Active", "2kg");
    assert [added][..0] == [];
  }

  /** The report with every figure taken from the list it prints. */
  function FreshReport(items: seq<Item>): (r: Report)
    ensures r.size == |items| && r.rows == Rows(items)
  {
    ReportOf(CountsOf(items), items)
  }

  /** Every count of the fresh report describes the listed items. */
  lemma FreshReportDescribesItems(items: seq<Item>)
    ensures var r := FreshReport(items);
      && r.expired == CountWhere(items, IsExpired) && r.pending == CountWhere(items, IsPending)
      && r.active == CountWhere(items, IsActive)
      && r.twoKg == TypeCount(items, "2kg") && r.fiveKg == TypeCount(items, "5kg")
      && r.twelveHalfKg == TypeCount(items, "12.5kg") && r.thirtySevenHalfKg == TypeCount(items, "37.5kg")
  {
    ReportOfUnchangedList(items);
  }

  // ---------------------------------------------------------------------------
  // The page state

  class InventoryPage {
    var counts: Counts

    constructor()
      ensures counts == NoCounts
    {
      counts := NoCounts;
    }

    /** `fetchInventory`, with the list the server returned, or `None` when
        the request failed and the counters stay. */
    method FetchInventory(response: Option<seq<Item>>)
      modifies this
      ensures response.Some? ==> counts == CountsOf(response.value)
      ensures response.None? ==> counts == old(counts)
    {
      if response.Some? {
        counts := CountsOf(response.value);
      }
    }

    /** `generateReport`, with the list its own request returned: it stores
        new type counts, but the report it prints reads the counters the
        page had when the button was pressed. */
    method GenerateReport(response: Option<seq<Item>>) returns (report: Option<Report>)
      modifies this
      ensures response.None? ==> report.None? && counts == old(counts)
      ensures response.Some? ==> report == Some(ReportOf(old(counts), response.value))
      ensures response.Some? ==>
        var items := response.value;
        counts == old(counts).(twoKg := TypeCount(items, "2kg"), fiveKg := TypeCount(items, "5kg"),
                               twelveHalfKg := TypeCount(items, "12.5kg"),
                               thirtySevenHalfKg := TypeCount(items, "37.5kg"))
    {
      if response.None? {
        return None;
      }
      var items := response.value;
      var page := counts;
      counts := counts.(twoKg := TypeCount(items, "2kg"));
      counts := counts.(fiveKg := TypeCount(items, "5kg"));
      counts := counts.(twelveHalfKg := TypeCount(items, "12.5kg"));
      counts := counts.(thirtySevenHalfKg := TypeCount(items, "37.5kg"));
      report := Some(ReportOf(page, items));
    }
  }
}
