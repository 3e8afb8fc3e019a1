/** The delivery task dashboard, `client/src/pages/DeliveryManagement/
    DeliveryTaskManagement.jsx`: the task counters and the contents of the
    downloadable report. */
module Delivery {
  import opened Wrappers
  import opened Tally

  /** A delivery task as the list endpoint returns it. */
  datatype Task = Task(orderId: string, deliDate: string, assignDriv: string, deliStatus: string)

  const Delivered := "Delivered"
  const OrderConfirmed := "Order Confirmed"
  const OnTheWay := "On the way"

  predicate IsDelivered(t: Task) { t.deliStatus == Delivered }

  /** The tasks still to be delivered: confirmed or on the way. */
  predicate IsToBeDelivered(t: Task) { t.deliStatus == OrderConfirmed || t.deliStatus == OnTheWay }

  /** The dashboard's counters. */
  datatype Counts = Counts(total: nat, delivered: nat, toBeDelivered: nat)

  /** The counters `fetchTasks` sets from the list `tasks`. */
  function CountsOf(tasks: seq<Task>): Counts {
    Counts(|tasks|, CountWhere(tasks, IsDelivered), CountWhere(tasks, IsToBeDelivered))
  }

  /** What the counters mean: each counts the positions of its tasks, the
      two together never exceed the total, and tasks with any other status
      are the rest. */
  lemma CountsMeaning(tasks: seq<Task>)
    ensures var c := CountsOf(tasks);
      && c.total == |tasks|
      && c.delivered == |Positions(tasks, IsDelivered)|
      && c.toBeDelivered == |Positions(tasks, IsToBeDelivered)|
      && c.delivered + c.toBeDelivered <= c.total
      && c.total - c.delivered - c.toBeDelivered
         == CountWhere(tasks, (t: Task) => !IsDelivered(t) && !IsToBeDelivered(t))
  {
    CountIsPositions(tasks, IsDelivered);
    CountIsPositions(tasks, IsToBeDelivered);
    DisjointCounts(tasks, IsDelivered, IsToBeDelivered);
    OtherStatuses(tasks);
  }

  lemma {:induction false} OtherStatuses(tasks: seq<Task>)
    ensures CountWhere(tasks, IsDelivered) + CountWhere(tasks, IsToBeDelivered)
      + CountWhere(tasks, (t: Task) => !IsDelivered(t) && !IsToBeDelivered(t)) == |tasks|
  {
    if tasks != [] {
      OtherStatuses(tasks[..|tasks| - 1]);
    }
  }

  /** A status spelt differently is in neither count. */
  lemma StatusMatchIsExact()
    ensures CountsOf([Task("EG1", "2025-01-01", "D", "on the way")]) == Counts(1, 0, 0)
  {
    assert [Task("EG1", "2025-01-01", "D", "on the way")][..0] == [];
  }

  // ---------------------------------------------------------------------------
  // The report

  /** One row of the report's task table. */
  datatype TaskRow = TaskRow(orderId: string, date: string, driver: string, status: string)

  /** The task table: one row per task, in order, the delivery date written
      by `formatDate`. */
  function Rows(tasks: seq<Task>, formatDate: string -> string): (rows: seq<TaskRow>)
    ensures |rows| == |tasks|
    ensures forall k :: 0 <= k < |tasks| ==>
      rows[k] == TaskRow(tasks[k].orderId, formatDate(tasks[k].deliDate), tasks[k].assignDriv, tasks[k].deliStatus)
  {
    seq(|tasks|, k requires 0 <= k < |tasks| =>
      TaskRow(tasks[k].orderId, formatDate(tasks[k].deliDate), tasks[k].assignDriv, tasks[k].deliStatus))
  }

  /** The figures the report prints. */
  datatype Report = Report(size: nat, rows: seq<TaskRow>, delivered: nat, toBeDelivered: nat)

  /** The report for the freshly fetched `tasks` on a page whose counters
      are `page`: the size and the table come from the new list, the two
      counts from the page's counters. */
  function ReportOf(page: Counts, tasks: seq<Task>, formatDate: string -> string): (r: Report)
    ensures r.size == |tasks| && r.rows == Rows(tasks, formatDate)
    ensures r.delivered == page.delivered && r.toBeDelivered == page.toBeDelivered
  {
    Report(|tasks|, Rows(tasks, formatDate), page.delivered, page.toBeDelivered)
  }

  /** When a task was delivered after the page loaded, the report lists it
      as delivered but does not count it. */
  lemma ReportCountsStale(formatDate: string -> string)
    ensures var before := Task("EG1", "2025-01-01", "D", OnTheWay);
      var after := before.(deliStatus := Delivered);
      var r := ReportOf(CountsOf([before]), [after], formatDate);
      r.rows[0].status == Delivered && r.delivered == 0 && CountsOf([after]).delivered == 1
  {
    var before := Task("EG1", "2025-01-01", "D", OnTheWay);
    var after := before.(deliStatus := Delivered);
    assert [before][..0] == [] && [after][..0] == [];
  }

  /** The report with its counts taken from the list it prints. */
  function FreshReport(tasks: seq<Task>, formatDate: string -> string): (r: Report)
    ensures r.size == |tasks| && r.rows == Rows(tasks, formatDate)
  {
    ReportOf(CountsOf(tasks), tasks, formatDate)
  }

  /** Its counts describe the listed tasks and never exceed their number. */
  lemma FreshReportDescribesTasks(tasks: seq<Task>, formatDate: string -> string)
    ensures var r := FreshReport(tasks, formatDate);
      && r.delivered == CountWhere(tasks, IsDelivered)
      && r.toBeDelivered == CountWhere(tasks, IsToBeDelivered)
      && r.delivered + r.toBeDelivered <= r.size
  {
    DisjointCounts(tasks, IsDelivered, IsToBeDelivered);
  }

  // ---------------------------------------------------------------------------
  // The page state

  class DeliveryPage {
    var counts: Counts

    constructor()
      ensures counts == Counts(0, 0, 0)
    {
      counts := Counts(0, 0, 0);
    }

    /** `fetchTasks`, with the list the server returned, or `None` when the
        request failed and the counters stay. */
    method FetchTasks(response: Option<seq<Task>>)
      modifies this
      ensures response.Some? ==> counts == CountsOf(response.value)
      ensures response.None? ==> counts == old(counts)
    {
      if response.Some? {
        counts := CountsOf(response.value);
      }
    }

    /** `generateReport`, with the list its own request returned; it changes
        no counter. */
    method GenerateReport(response: Option<seq<Task>>, formatDate: string -> string) returns (report: Option<Report>)
      ensures response.None? ==> report.None?
      ensures response.Some? ==> report == Some(ReportOf(counts, response.value, formatDate))
    {
      if response.None? {
        return None;
      }
      report := Some(ReportOf(counts, response.value, formatDate));
    }
  }
}
