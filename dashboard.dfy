/**
 * The dashboard's derived views (components/Dashboard.tsx, and the same
 * figures in the vanilla variant's `renderDashboard`): status counts, the
 * per-operation-type tally, and the five most recent orders.
 */
module Dashboard {
  import opened Types
  import opened Seqs

  /** `orders.filter(o => o.status === s).length`. */
  function CountStatus(orders: seq<Order>, s: Status): nat {
    |Filter(orders, (o: Order) => o.status == s)|
  }

  /** The number of orders of one operation type. */
  function CountOperation(orders: seq<Order>, op: OperationType): nat {
    |Filter(orders, (o: Order) => o.operationType == op)|
  }

  datatype Stats = Stats(total: nat, pending: nat, inProgress: nat, completed: nat)

  /**
   * The `stats` memo.  Every order has exactly one of the three statuses, so
   * the three counts add up to the total.
   */
  function ComputeStats(orders: seq<Order>): (r: Stats)
    ensures r.total == |orders|
    ensures r.pending + r.inProgress + r.completed == r.total
    ensures r.pending == CountStatus(orders, Pendiente)
    ensures r.inProgress == CountStatus(orders, EnProceso)
    ensures r.completed == CountStatus(orders, Completado)
  {
    StatusPartition(orders);
    Stats(|orders|, CountStatus(orders, Pendiente), CountStatus(orders, EnProceso), CountStatus(orders, Completado))
  }

  lemma {:induction false} StatusPartition(orders: seq<Order>)
    ensures CountStatus(orders, Pendiente) + CountStatus(orders, EnProceso) + CountStatus(orders, Completado) == |orders|
  {
    if orders != [] {
      StatusPartition(orders[1..]);
    }
  }

  /**
   * The accumulator object of the type-count `reduce`: its keys in insertion
   * order (the order `Object.keys` reports them) and the count per key.
   */
  datatype Tally = Tally(keys: seq<OperationType>, counts: map<OperationType, nat>)

  ghost predicate WellFormed(t: Tally) {
    Distinct(t.keys) && Elements(t.keys) == t.counts.Keys
  }

  /** One step of the fold: `acc[type] = (acc[type] || 0) + 1`. */
  function Step(t: Tally, op: OperationType): Tally {
    if op in t.counts then Tally(t.keys, t.counts[op := t.counts[op] + 1])
    else Tally(t.keys + [op], t.counts[op := 1])
  }

  /** `orders.reduce(step, {})`, folding from the first order to the last. */
  function TallyOf(orders: seq<Order>): (t: Tally)
    ensures WellFormed(t)
  {
    if orders == [] then Tally([], map[])
    else
      var t := TallyOf(orders[..|orders| - 1]);
      StepWellFormed(t, orders[|orders| - 1].operationType);
      Step(t, orders[|orders| - 1].operationType)
  }

  lemma StepWellFormed(t: Tally, op: OperationType)
    requires WellFormed(t)
    ensures WellFormed(Step(t, op))
  {
    if op !in t.counts {
      var k := t.keys + [op];
      assert Elements(k) == Elements(t.keys) + {op};
      forall i, j | 0 <= i < j < |k| ensures k[i] != k[j] {
        if j == |t.keys| {
          assert k[i] in Elements(t.keys);
        }
      }
    }
  }

  /** `Object.keys(counts).map(key => ({ name: key, value: counts[key] }))`. */
  function OperationData(orders: seq<Order>): seq<(OperationType, nat)>
  {
    var t := TallyOf(orders);
    seq(|t.keys|, i requires 0 <= i < |t.keys| => (t.keys[i], t.counts[t.keys[i]]))
  }

  /** The sum of the counts listed under `keys`. */
  function SumOver(keys: seq<OperationType>, m: map<OperationType, nat>): nat
    requires forall i :: 0 <= i < |keys| ==> keys[i] in m
  {
    if keys == [] then 0 else m[keys[0]] + SumOver(keys[1..], m)
  }

  lemma {:induction false} SumOverAppend(keys: seq<OperationType>, k: OperationType, m: map<OperationType, nat>)
    requires forall i :: 0 <= i < |keys| ==> keys[i] in m
    requires k in m
    ensures SumOver(keys + [k], m) == SumOver(keys, m) + m[k]
  {
    if keys != [] {
      assert (keys + [k])[1..] == keys[1..] + [k];
      SumOverAppend(keys[1..], k, m);
    }
  }

  /** Two maps that agree on the listed keys give the same sum. */
  lemma {:induction false} SumOverAgree(keys: seq<OperationType>, m1: map<OperationType, nat>, m2: map<OperationType, nat>)
    requires forall i :: 0 <= i < |keys| ==> keys[i] in m1 && keys[i] in m2 && m1[keys[i]] == m2[keys[i]]
    ensures SumOver(keys, m1) == SumOver(keys, m2)
  {
    if keys != [] {
      SumOverAgree(keys[1..], m1, m2);
    }
  }

  /** Incrementing one listed key of a duplicate-free key list raises the sum by one. */
  lemma {:induction false} SumOverIncrement(keys: seq<OperationType>, m: map<OperationType, nat>, k: OperationType)
    requires forall i :: 0 <= i < |keys| ==> keys[i] in m
    requires Distinct(keys) && k in keys && k in m
    ensures SumOver(keys, m[k := m[k] + 1]) == SumOver(keys, m) + 1
  {
    if keys[0] == k {
      assert k !in keys[1..];
      SumOverAgree(keys[1..], m[k := m[k] + 1], m);
    } else {
      SumOverIncrement(keys[1..], m, k);
    }
  }

  /**
   * What a fold over `orders` must hold: a type is a key exactly when some
   * order has it, its count is the number of such orders, and the counts add
   * up to the number of orders.
   */
  ghost predicate Counts(orders: seq<Order>, t: Tally)
    requires WellFormed(t)
  {
    && (forall op: OperationType :: op in t.counts <==> CountOperation(orders, op) > 0)
    && (forall op: OperationType :: op in t.counts ==> t.counts[op] == CountOperation(orders, op))
    && SumOver(t.keys, t.counts) == |orders|
  }

  lemma CountOperationAppend(prefix: seq<Order>, last: Order, op: OperationType)
    ensures CountOperation(prefix + [last], op) == CountOperation(prefix, op) + (if last.operationType == op then 1 else 0)
  {
    FilterAppend(prefix, [last], (o: Order) => o.operationType == op);
  }

  /** One fold step over one more order keeps the tally exact. */
  lemma StepCounts(prefix: seq<Order>, last: Order, t: Tally)
    requires WellFormed(t) && Counts(prefix, t)
    ensures WellFormed(Step(t, last.operationType))
    ensures Counts(prefix + [last], Step(t, last.operationType))
  {
    StepWellFormed(t, last.operationType);
    StepEntries(prefix, last, t);
    StepSum(prefix, last, t);
  }

  lemma StepEntries(prefix: seq<Order>, last: Order, t: Tally)
    requires WellFormed(t) && Counts(prefix, t)
    ensures var t' := Step(t, last.operationType);
      && (forall op: OperationType :: op in t'.counts <==> CountOperation(prefix + [last], op) > 0)
      && (forall op: OperationType :: op in t'.counts ==> t'.counts[op] == CountOperation(prefix + [last], op))
  {
    forall op: OperationType
      ensures CountOperation(prefix + [last], op) == CountOperation(prefix, op) + (if last.operationType == op then 1 else 0)
    {
      CountOperationAppend(prefix, last, op);
    }
  }

  lemma StepSum(prefix: seq<Order>, last: Order, t: Tally)
    requires WellFormed(t) && SumOver(t.keys, t.counts) == |prefix|
    ensures WellFormed(Step(t, last.operationType))
    ensures SumOver(Step(t, last.operationType).keys, Step(t, last.operationType).counts) == |prefix + [last]|
  {
    StepWellFormed(t, last.operationType);
    var op := last.operationType;
    if op in t.counts {
      assert op in Elements(t.keys);
      SumOverIncrement(t.keys, t.counts, op);
    } else {
      SumOverAgree(t.keys, t.counts[op := 1], t.counts);
      SumOverAppend(t.keys, op, t.counts[op := 1]);
    }
  }

  /** The fold over all the orders is exact. */
  lemma {:induction false} TallyOfSpec(orders: seq<Order>)
    ensures Counts(orders, TallyOf(orders))
    decreases |orders|
  {
    if orders != [] {
      var n := |orders|;
      var prefix, last := orders[..n - 1], orders[n - 1];
      assert orders == prefix + [last];
      TallyOfSpec(prefix);
      StepCounts(prefix, last, TallyOf(prefix));
    }
  }

  /** `d` lists type `op` somewhere. */
  ghost predicate Lists(d: seq<(OperationType, nat)>, op: OperationType) {
    exists i :: 0 <= i < |d| && d[i].0 == op
  }

  /**
   * The chart data lists each operation type that occurs exactly once, with
   * its number of orders (at least one), lists no type that does not occur,
   * and its values add up to the number of orders.
   */
  lemma OperationDataSpec(orders: seq<Order>)
    ensures var d := OperationData(orders);
      && (forall op :: Lists(d, op) <==> CountOperation(orders, op) > 0)
      && (forall i, j :: 0 <= i < j < |d| ==> d[i].0 != d[j].0)
      && (forall i :: 0 <= i < |d| ==> d[i].1 == CountOperation(orders, d[i].0) >= 1)
      && SumValues(d) == |orders|
  {
    TallyOfSpec(orders);
    var t := TallyOf(orders);
    DataOfTally(t, OperationData(orders));
  }

  /** Reading a well-formed tally out as a list keeps its keys, once each, with their counts. */
  lemma DataOfTally(t: Tally, d: seq<(OperationType, nat)>)
    requires WellFormed(t)
    requires d == seq(|t.keys|, i requires 0 <= i < |t.keys| => (t.keys[i], t.counts[t.keys[i]]))
    ensures forall op :: Lists(d, op) <==> op in t.counts
    ensures forall i, j :: 0 <= i < j < |d| ==> d[i].0 != d[j].0
    ensures forall i :: 0 <= i < |d| ==> d[i].0 in t.counts && d[i].1 == t.counts[d[i].0]
    ensures SumValues(d) == SumOver(t.keys, t.counts)
  {
    forall op ensures Lists(d, op) <==> op in t.counts {
      if op in t.counts {
        assert op in Elements(t.keys);
        var i :| 0 <= i < |t.keys| && t.keys[i] == op;
        assert d[i].0 == op;
      }
    }
    SumValuesIsSumOver(t.keys, t.counts, d);
  }

  /** The sum of the values of a chart-data list. */
  function SumValues(d: seq<(OperationType, nat)>): nat {
    if d == [] then 0 else d[0].1 + SumValues(d[1..])
  }

  lemma {:induction false} SumValuesIsSumOver(keys: seq<OperationType>, m: map<OperationType, nat>, d: seq<(OperationType, nat)>)
    requires forall i :: 0 <= i < |keys| ==> keys[i] in m
    requires |d| == |keys| && forall i :: 0 <= i < |keys| ==> d[i] == (keys[i], m[keys[i]])
    ensures SumValues(d) == SumOver(keys, m)
  {
    if keys != [] {
      SumValuesIsSumOver(keys[1..], m, d[1..]);
    }
  }

  /** `orders.slice(-5).reverse()`: the recent-activity list. */
  function Recent(orders: seq<Order>): seq<Order> {
    Reverse(LastN(orders, 5))
  }

  /** The recent list holds the last min(5, n) orders, the newest-inserted first. */
  lemma RecentSpec(orders: seq<Order>)
    ensures |Recent(orders)| == if |orders| < 5 then |orders| else 5
    ensures forall i :: 0 <= i < |Recent(orders)| ==> Recent(orders)[i] == orders[|orders| - 1 - i]
  {
    LastNShape(orders, 5);
  }

  /** With no orders every count is zero and the recent list is empty (the empty message is shown). */
  lemma EmptyDashboard()
    ensures ComputeStats([]) == Stats(0, 0, 0, 0)
    ensures OperationData([]) == [] && Recent([]) == []
  {
  }
}
