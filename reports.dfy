/**
 * The month report (components/Reports.tsx): the orders that entered during
 * the current month, their per-type tally and completed count, and the close
 * rate shown as a percentage.  The month bounds (`startOfMonth(now)`,
 * `endOfMonth(now)`) are parameters.
 */
module Reports {
  import opened Types
  import opened Seqs
  import Dashboard

  /** `isWithinInterval(entryDate, { start, end })`: both ends included. */
  predicate InWindow(o: Order, start: int, end: int) {
    start <= o.entryDate <= end
  }

  /** `thisMonthOrders`. */
  function MonthOrders(orders: seq<Order>, start: int, end: int): seq<Order> {
    Filter(orders, (o: Order) => InWindow(o, start, end))
  }

  /** The month subset is exactly the orders entered inside the window, each as often as before, in their original order. */
  lemma MonthOrdersSpec(orders: seq<Order>, start: int, end: int)
    ensures var m := MonthOrders(orders, start, end);
      && (forall o :: o in m <==> o in orders && start <= o.entryDate <= end)
      && (forall o: Order :: InWindow(o, start, end) ==> multiset(m)[o] == multiset(orders)[o])
      && IsSubsequence(m, orders)
  {
    var p := (o: Order) => InWindow(o, start, end);
    forall o ensures o in MonthOrders(orders, start, end) <==> o in orders && start <= o.entryDate <= end {
      FilterMembership(orders, p, o);
    }
    forall o: Order | InWindow(o, start, end) ensures multiset(MonthOrders(orders, start, end))[o] == multiset(orders)[o] {
      FilterMultiset(orders, p, o);
    }
    FilterIsSubsequence(orders, p);
  }

  datatype MonthlyStats = MonthlyStats(count: nat, repairTypes: seq<(OperationType, nat)>, completed: nat)

  /**
   * The `monthlyStats` memo (without the mocked average time): the count is
   * the size of the month subset, no more of them are completed than there
   * are, and the per-type counts add up to the count.
   */
  function ComputeMonthlyStats(orders: seq<Order>, start: int, end: int): (r: MonthlyStats)
    ensures r.count == |MonthOrders(orders, start, end)| <= |orders|
    ensures r.completed == Dashboard.CountStatus(MonthOrders(orders, start, end), Completado)
    ensures r.completed <= r.count
    ensures Dashboard.SumValues(r.repairTypes) == r.count
  {
    var month := MonthOrders(orders, start, end);
    Dashboard.OperationDataSpec(month);
    MonthlyStats(|month|, Dashboard.OperationData(month), Dashboard.CountStatus(month, Completado))
  }

  /**
   * `Math.round((completed / (count || 1)) * 100)`: the percentage rounded to
   * the nearest integer, halves rounded up.
   */
  function CloseRate(completed: nat, count: nat): (r: int)
    ensures var d := if count == 0 then 1 else count;
      2 * d * r - d <= 200 * completed < 2 * d * r + d
  {
    var d := if count == 0 then 1 else count;
    DivBounds(200 * completed + d, 2 * d);
    (200 * completed + d) / (2 * d)
  }

  lemma DivBounds(a: nat, b: nat)
    requires b > 0
    ensures b * (a / b) <= a < b * (a / b) + b
  {
  }

  /**
   * The close rate lies in 0..100 whenever no more orders are completed than
   * counted; it is 0 with nothing completed (so with no orders), and 100 when
   * every counted order is completed.
   */
  lemma CloseRateRange(completed: nat, count: nat)
    ensures completed <= count ==> 0 <= CloseRate(completed, count) <= 100
    ensures completed == 0 ==> CloseRate(completed, count) == 0
    ensures 0 < count == completed ==> CloseRate(completed, count) == 100
  {
    var d := if count == 0 then 1 else count;
    var r := CloseRate(completed, count);
    assert 2 * d * r - d <= 200 * completed < 2 * d * r + d;
    MulCancel(2 * d, -1, r);
    if completed <= count {
      MulCancel(2 * d, r, 101);
    }
    if completed == 0 {
      MulCancel(2 * d, r, 1);
    }
    if 0 < count == completed {
      MulCancel(2 * d, 99, r);
    }
  }

  /** Multiplying by a positive factor preserves a strict order, and so does dividing it out. */
  lemma MulCancel(k: int, x: int, y: int)
    requires k > 0
    ensures k * x < k * y <==> x < y
  {
  }

  /** The report's close rate is always a percentage between 0 and 100. */
  lemma MonthlyCloseRateRange(orders: seq<Order>, start: int, end: int)
    ensures var s := ComputeMonthlyStats(orders, start, end);
      0 <= CloseRate(s.completed, s.count) <= 100
  {
    var s := ComputeMonthlyStats(orders, start, end);
    CloseRateRange(s.completed, s.count);
  }
}
