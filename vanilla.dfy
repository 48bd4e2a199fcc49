/**
 * The vanilla single-page variant (index.tsx): one global `state` object whose
 * `orders` array is pushed to and mutated in place, the seeding start-up, the
 * intake that builds an order from the form fields, the status "advance"
 * button, the management list and the revenue figure.
 */
module Vanilla {
  import opened Wrappers
  import opened Types
  import opened Seqs
  import opened Text
  import opened Storage
  import Dashboard

  /* ---------------- intake ---------------- */

  /** The named fields of the reception form, as `FormData` returns them. */
  datatype ReceptionFields = ReceptionFields(
    id: string, entryDate: int, opType: OperationType,
    ownerName: string, ownerId: string, ownerPhone: string, ownerEmail: string,
    plate: string, model: string, year: string, color: string, mileage: string,
    chassis: string, engine: string,
    clientReport: string, observations: string)

  /** The `newOrder` literal of the save button. */
  function NewOrderFromForm(f: ReceptionFields): Order {
    Order(
      id := f.id,
      entryDate := f.entryDate,
      completionDate := None,
      status := Pendiente,
      operationType := f.opType,
      owner := Owner(f.ownerName, f.ownerId, f.ownerPhone, f.ownerEmail),
      motorcycle := Motorcycle(f.plate, f.model, f.year, f.color, f.mileage, f.chassis, f.engine, ""),
      checklist := map[],
      clientReport := f.clientReport,
      observations := f.observations,
      technicianNotes := Some(""),
      workHours := 0,
      estimatedCost := None,
      photoVehicle := None,
      photoChassis := None,
      updates := [])
  }

  /**
   * A new order from the vanilla form starts pending, with no checklist
   * entries, no progress log and no hours, and keeps the plate exactly as
   * typed (unlike the React form, nothing is upper-cased).
   */
  lemma NewOrderFromFormSpec(f: ReceptionFields)
    ensures var o := NewOrderFromForm(f);
      && o.status == Pendiente && o.checklist == map[] && o.updates == [] && o.workHours == 0
      && o.completionDate == None && o.technicianNotes == Some("")
      && o.id == f.id && o.entryDate == f.entryDate && o.operationType == f.opType
      && o.motorcycle.plate == f.plate && o.motorcycle.displacement == ""
  {
  }

  /* ---------------- status advance ---------------- */

  /** `order.status === 'Pendiente' ? 'En Proceso' : 'Completado'`. */
  function NextStatus(s: Status): (r: Status)
    ensures r != Pendiente
  {
    if s == Pendiente then EnProceso else Completado
  }

  /** The order after a confirmed advance at time `now`. */
  function Advanced(o: Order, now: int): Order {
    var s := NextStatus(o.status);
    o.(status := s, completionDate := if s == Completado then Some(now) else o.completionDate)
  }

  /**
   * Advancing moves Pendiente to En Proceso and anything else to Completado;
   * a completion date is written (over any earlier one) exactly when the new
   * status is Completado, and no other field changes.
   */
  lemma AdvancedSpec(o: Order, now: int)
    ensures var r := Advanced(o, now);
      && (o.status == Pendiente ==> r.status == EnProceso && r.completionDate == o.completionDate)
      && (o.status != Pendiente ==> r.status == Completado && r.completionDate == Some(now))
      && r.(status := o.status, completionDate := o.completionDate) == o
  {
  }

  /** Two advances take a pending order to Completado; a completed order stays completed and is restamped. */
  lemma AdvanceTwice(o: Order, t1: int, t2: int)
    ensures Advanced(Advanced(o, t1), t2).status == Completado
    ensures Advanced(Advanced(o, t1), t2).completionDate == Some(t2)
  {
  }

  /** The index `find` stops at: the first order with the id, or -1 when there is none. */
  function FirstIndexOf(orders: seq<Order>, id: string): (k: int)
    ensures -1 <= k < |orders|
    ensures k == -1 <==> !HasId(orders, id)
    ensures 0 <= k ==> orders[k].id == id && forall j :: 0 <= j < k ==> orders[j].id != id
  {
    if orders == [] then -1
    else if orders[0].id == id then 0
    else
      var k := FirstIndexOf(orders[1..], id);
      if k == -1 then -1 else k + 1
  }

  /* ---------------- the list ---------------- */

  /** `matchSearch && matchStatus` of `renderOrdersList`: plate case-insensitively, id as typed. */
  predicate ListMatches(o: Order, term: string, f: StatusFilter) {
    (Includes(ToLower(o.motorcycle.plate), ToLower(term)) || Includes(o.id, term))
    && PassesStatus(f, o.status)
  }

  /** `state.orders.filter(…).reverse()`. */
  function ListedOrders(orders: seq<Order>, term: string, f: StatusFilter): seq<Order> {
    Reverse(Filter(orders, (o: Order) => ListMatches(o, term, f)))
  }

  /**
   * The list holds exactly the matching orders, each as often as stored, in
   * reverse insertion order (read backwards it is an in-order selection).
   */
  lemma ListedOrdersSpec(orders: seq<Order>, term: string, f: StatusFilter)
    ensures var r := ListedOrders(orders, term, f);
      && (forall o :: o in r <==> o in orders && ListMatches(o, term, f))
      && (forall o: Order :: multiset(r)[o] == if ListMatches(o, term, f) then multiset(orders)[o] else 0)
      && IsSubsequence(Reverse(r), orders)
  {
    var p := (o: Order) => ListMatches(o, term, f);
    var kept := Filter(orders, p);
    ReverseMultiset(kept);
    forall o ensures o in Reverse(kept) <==> o in orders && ListMatches(o, term, f) {
      ReverseMembership(kept, o);
      FilterMembership(orders, p, o);
    }
    forall o: Order ensures multiset(Reverse(kept))[o] == if ListMatches(o, term, f) then multiset(orders)[o] else 0 {
      FilterMultiset(orders, p, o);
    }
    ReverseReverse(kept);
    FilterIsSubsequence(orders, p);
  }

  /** Searching "abc" over the plates "ABC-123" and "XYZ-987" lists only the first order. */
  lemma SearchExample(a: Order, b: Order)
    requires a.id == "100001" && a.motorcycle.plate == "ABC-123"
    requires b.id == "100002" && b.motorcycle.plate == "XYZ-987"
    ensures ListedOrders([a, b], "abc", All) == [a]
  {
    var p := (o: Order) => ListMatches(o, "abc", All);
    PlateMatches();
    PlateMisses();
    assert p(a) && !p(b);
    FilterTwo(a, b, p);
  }

  lemma PlateMatches()
    ensures Includes(ToLower("ABC-123"), ToLower("abc"))
  {
    assert ToLower("abc") == "abc";
    assert ToLower("ABC-123") == "abc-123";
    assert "abc" <= "abc-123";
  }

  lemma PlateMisses()
    ensures !Includes(ToLower("XYZ-987"), ToLower("abc"))
    ensures !Includes("100002", "abc")
  {
    assert ToLower("abc") == "abc";
    assert ToLower("XYZ-987") == "xyz-987";
    if Includes("xyz-987", "abc") {
      IncludesFirstChar("xyz-987", "abc");
      assert false;
    }
    if Includes("100002", "abc") {
      IncludesFirstChar("100002", "abc");
      assert false;
    }
  }

  lemma FilterTwo<T>(x: T, y: T, p: T -> bool)
    requires p(x) && !p(y)
    ensures Filter([x, y], p) == [x]
  {
    assert [x, y][1..] == [y];
    assert [y][1..] == [];
  }

  /* ---------------- reports ---------------- */

  /** `orders.reduce((acc, o) => acc + (o.estimatedCost || 0), 0)`: orders without a cost add nothing. */
  function EstimatedRevenue(orders: seq<Order>): int {
    if orders == [] then 0
    else orders[0].estimatedCost.GetOr(0) + EstimatedRevenue(orders[1..])
  }

  /** The revenue of two batches is the sum of their revenues. */
  lemma {:induction false} RevenueAppend(a: seq<Order>, b: seq<Order>)
    ensures EstimatedRevenue(a + b) == EstimatedRevenue(a) + EstimatedRevenue(b)
  {
    if a == [] {
      assert a + b == b;
    } else {
      assert (a + b)[0] == a[0];
      assert (a + b)[1..] == a[1..] + b;
      RevenueAppend(a[1..], b);
    }
  }

  /** With no negative costs, the revenue never drops when an order is added. */
  lemma {:induction false} RevenueMonotone(orders: seq<Order>, o: Order)
    requires o.estimatedCost.Some? ==> o.estimatedCost.value >= 0
    ensures EstimatedRevenue(orders + [o]) >= EstimatedRevenue(orders)
  {
    RevenueAppend(orders, [o]);
  }

  /* ---------------- the dashboard ---------------- */

  /**
   * `renderDashboard`: the four counters are the React dashboard's figures
   * and so add up to the total; the recent table is the last five orders,
   * the newest-inserted first.
   */
  lemma DashboardFigures(orders: seq<Order>)
    ensures var s := Dashboard.ComputeStats(orders);
      && s.total == |orders|
      && s.pending == |Filter(orders, (o: Order) => o.status == Pendiente)|
      && s.inProgress == |Filter(orders, (o: Order) => o.status == EnProceso)|
      && s.completed == |Filter(orders, (o: Order) => o.status == Completado)|
      && s.pending + s.inProgress + s.completed == s.total
    ensures |Dashboard.Recent(orders)| == if |orders| < 5 then |orders| else 5
    ensures forall i :: 0 <= i < |Dashboard.Recent(orders)| ==> Dashboard.Recent(orders)[i] == orders[|orders| - 1 - i]
  {
    Dashboard.RecentSpec(orders);
  }

  /* ---------------- the global state ---------------- */

  /** The global `state` object and the store it is saved to. */
  class VanillaApp {
    var activeTab: string
    var orders: seq<Order>
    var search: string
    var statusFilter: StatusFilter
    const storage: LocalStorage

    ghost predicate Synced()
      reads this, storage
    {
      Loaded(storage.items) == orders
    }

    /** The initial `state`: the dashboard tab, no orders, no filters. */
    constructor (storage: LocalStorage)
      ensures this.storage == storage
      ensures activeTab == "dashboard" && orders == [] && search == "" && statusFilter == All
    {
      this.storage := storage;
      activeTab := "dashboard";
      orders := [];
      search := "";
      statusFilter := All;
    }

    /**
     * `init`: load the stored collection; when it is empty, seed the store
     * with the demo collection `seed` and load again.  `reloaded` reports
     * whether the second load happened.
     */
    method Init(seed: seq<Order>) returns (reloaded: bool)
      modifies this, storage
      ensures reloaded <==> Loaded(old(storage.items)) == []
      ensures !reloaded ==> orders == Loaded(old(storage.items)) && storage.items == old(storage.items)
      ensures reloaded ==> storage.items == Saved(old(storage.items), seed) && orders == seed
      ensures Synced()
      ensures activeTab == old(activeTab) && search == old(search) && statusFilter == old(statusFilter)
    {
      orders := GetOrders(storage);
      reloaded := |orders| == 0;
      if reloaded {
        SaveOrders(storage, seed);
        orders := GetOrders(storage);
      }
    }

    /** The save button of the reception form: push the new order, save, switch to the management tab. */
    method SubmitReception(f: ReceptionFields)
      modifies this, storage
      ensures orders == old(orders) + [NewOrderFromForm(f)]
      ensures storage.items == Saved(old(storage.items), orders) && Synced()
      ensures activeTab == "management"
      ensures search == old(search) && statusFilter == old(statusFilter)
    {
      orders := orders + [NewOrderFromForm(f)];
      SaveOrders(storage, orders);
      activeTab := "management";
    }

    /**
     * `window.updateStatus(id)`: the first order with the id is advanced in
     * place once the user confirms, and the collection is saved; every other
     * order, including later ones with the same id, is left alone.  The id
     * must be present: the order `find` returns is used unchecked.
     */
    method UpdateStatus(id: string, now: int, confirmed: bool)
      requires HasId(orders, id)
      modifies this, storage
      ensures var k := FirstIndexOf(old(orders), id);
        && |orders| == |old(orders)|
        && (confirmed ==> orders[k] == Advanced(old(orders)[k], now))
        && (confirmed ==> forall j :: 0 <= j < |orders| && j != k ==> orders[j] == old(orders)[j])
        && (confirmed ==> storage.items == Saved(old(storage.items), orders) && Synced())
        && (!confirmed ==> orders == old(orders) && storage.items == old(storage.items))
      ensures activeTab == old(activeTab) && search == old(search) && statusFilter == old(statusFilter)
    {
      var k := FirstIndexOf(orders, id);
      if confirmed {
        orders := orders[k := Advanced(orders[k], now)];
        SaveOrders(storage, orders);
      }
    }

    /** The search box. */
    method SetSearch(term: string)
      modifies this
      ensures search == term && orders == old(orders) && statusFilter == old(statusFilter)
      ensures activeTab == old(activeTab)
    {
      search := term;
    }

    /** The status selector. */
    method SetStatusFilter(f: StatusFilter)
      modifies this
      ensures statusFilter == f && orders == old(orders) && search == old(search)
      ensures activeTab == old(activeTab)
    {
      statusFilter := f;
    }

    /** `switchTab`: any id is accepted; an unknown one renders nothing. */
    method SwitchTab(tabId: string)
      modifies this
      ensures activeTab == tabId
      ensures orders == old(orders) && search == old(search) && statusFilter == old(statusFilter)
    {
      activeTab := tabId;
    }
  }
}
