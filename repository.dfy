/**
 * The React front end's order collection (App.tsx): the `orders` state and
 * the three handlers that compute a new collection, make it the state and
 * overwrite the store with it.
 */
module Repository {
  import opened Types
  import opened Seqs
  import opened Storage
  import Catalog

  /** `orders.map(order => order.id === updated.id ? updated : order)`. */
  function Replaced(orders: seq<Order>, updated: Order): (r: seq<Order>)
  {
    seq(|orders|, i requires 0 <= i < |orders| => if orders[i].id == updated.id then updated else orders[i])
  }

  /** `orders.filter(order => order.id !== id)`. */
  function Removed(orders: seq<Order>, id: string): (r: seq<Order>)
  {
    Filter(orders, (o: Order) => o.id != id)
  }

  /**
   * Update is a whole-record replace of every order carrying the argument's
   * id: the length and the ids in each position are kept, every matching
   * position holds exactly the argument (no field merge, no derived
   * completion date), and every other position is untouched.
   */
  lemma ReplacedSpec(orders: seq<Order>, updated: Order)
    ensures var r := Replaced(orders, updated);
      && |r| == |orders|
      && (forall i :: 0 <= i < |r| ==> r[i].id == orders[i].id)
      && (forall i :: 0 <= i < |r| && orders[i].id == updated.id ==> r[i] == updated)
      && (forall i :: 0 <= i < |r| && orders[i].id != updated.id ==> r[i] == orders[i])
      && (HasId(orders, updated.id) ==> updated in r)
  {
  }

  /** Updating an id that is not in the collection leaves it as it was. */
  lemma ReplacedUnknownId(orders: seq<Order>, updated: Order)
    requires !HasId(orders, updated.id)
    ensures Replaced(orders, updated) == orders
  {
  }

  /** Updating twice with the same record is updating once; a later update of the same id overrides an earlier one. */
  lemma ReplacedOverrides(orders: seq<Order>, first: Order, second: Order)
    requires first.id == second.id
    ensures Replaced(Replaced(orders, first), second) == Replaced(orders, second)
  {
  }

  /**
   * Delete keeps exactly the orders with another id, each as often as before,
   * in their original relative order.
   */
  lemma RemovedSpec(orders: seq<Order>, id: string)
    ensures var r := Removed(orders, id);
      && (forall o :: o in r <==> o in orders && o.id != id)
      && (forall o: Order :: o.id != id ==> multiset(r)[o] == multiset(orders)[o])
      && IsSubsequence(r, orders)
      && |r| == |orders| - |Filter(orders, (o: Order) => o.id == id)|
  {
    var keep := (o: Order) => o.id != id;
    forall o ensures o in Removed(orders, id) <==> o in orders && o.id != id {
      FilterMembership(orders, keep, o);
    }
    forall o: Order | o.id != id ensures multiset(Removed(orders, id))[o] == multiset(orders)[o] {
      FilterMultiset(orders, keep, o);
    }
    FilterIsSubsequence(orders, keep);
    FilterPartition(orders, keep, (o: Order) => o.id == id);
  }

  /** Deleting an id that is not in the collection leaves it as it was. */
  lemma RemovedUnknownId(orders: seq<Order>, id: string)
    requires !HasId(orders, id)
    ensures Removed(orders, id) == orders
  {
    FilterAllKept(orders, (o: Order) => o.id != id);
  }

  /** Deleting twice is deleting once. */
  lemma RemovedIdempotent(orders: seq<Order>, id: string)
    ensures Removed(Removed(orders, id), id) == Removed(orders, id)
  {
    FilterIdempotent(orders, (o: Order) => o.id != id);
  }

  /** After a delete no order carries the id. */
  lemma RemovedHasNoId(orders: seq<Order>, id: string)
    ensures !HasId(Removed(orders, id), id)
  {
    var r := Removed(orders, id);
    forall i | 0 <= i < |r| ensures r[i].id != id {
      FilterMembership(orders, (o: Order) => o.id != id, r[i]);
    }
  }

  /** The four views `renderContent` can show. */
  datatype View = DashboardView | ReceptionView | ManagementView | ReportsView

  /** `renderContent`'s switch on the active tab, with the dashboard as the default. */
  function ViewFor(tab: string): View {
    if tab == "reception" then ReceptionView
    else if tab == "management" then ManagementView
    else if tab == "reports" then ReportsView
    else DashboardView
  }

  /**
   * Each navigation entry opens its own screen, in the order of the
   * navigation bar, and any other tab id falls back to the dashboard.
   */
  lemma ViewForNavItems()
    ensures |Catalog.NavItems| == 4
    ensures ViewFor(Catalog.NavItems[0].id) == DashboardView
    ensures ViewFor(Catalog.NavItems[1].id) == ReceptionView
    ensures ViewFor(Catalog.NavItems[2].id) == ManagementView
    ensures ViewFor(Catalog.NavItems[3].id) == ReportsView
    ensures forall tab :: (forall i :: 0 <= i < |Catalog.NavItems| ==> Catalog.NavItems[i].id != tab) ==> ViewFor(tab) == DashboardView
  {
    forall tab | forall i :: 0 <= i < |Catalog.NavItems| ==> Catalog.NavItems[i].id != tab
      ensures ViewFor(tab) == DashboardView
    {
      assert Catalog.NavItems[1].id == "reception";
      assert Catalog.NavItems[2].id == "management";
      assert Catalog.NavItems[3].id == "reports";
    }
  }

  /**
   * The `App` component's state: the active tab, `orders` and the store it
   * mirrors.  `Synced` says that the store holds what the screen shows.
   */
  class OrderRepository {
    var activeTab: string
    var orders: seq<Order>
    const storage: LocalStorage

    ghost predicate Synced()
      reads this, storage
    {
      Loaded(storage.items) == orders
    }

    /** `useState<WorkshopOrder[]>([])`: the first render shows no orders. */
    constructor (storage: LocalStorage)
      ensures this.storage == storage && orders == [] && activeTab == "dashboard"
    {
      this.storage := storage;
      orders := [];
      activeTab := "dashboard";
    }

    /** The navigation bar's `setActiveTab`. */
    method SetActiveTab(tab: string)
      modifies this
      ensures activeTab == tab && orders == old(orders)
    {
      activeTab := tab;
    }

    /** The mount effect, `setOrders(getOrders())`: the state becomes whatever the store holds. */
    method Mount()
      modifies this
      ensures orders == Loaded(storage.items) && Synced()
      ensures activeTab == old(activeTab)
    {
      orders := GetOrders(storage);
    }

    /**
     * `handleSaveOrder(newOrder)`: append, overwrite the store with the new
     * collection, and switch to the management tab.
     */
    method HandleSaveOrder(newOrder: Order)
      modifies this, storage
      ensures orders == old(orders) + [newOrder]
      ensures |orders| == |old(orders)| + 1 && orders[..|old(orders)|] == old(orders)
      ensures storage.items == Saved(old(storage.items), orders) && Synced()
      ensures activeTab == "management"
    {
      var updated := orders + [newOrder];
      orders := updated;
      SaveOrders(storage, updated);
      activeTab := "management";
    }

    /**
     * The reception form's `handleSubmit`: the form state is handed to
     * `handleSaveOrder` as it stands, with no check of required fields, so
     * the stored order is exactly the form.
     */
    method SubmitReception(form: Order)
      modifies this, storage
      ensures orders == old(orders) + [form] && orders[|orders| - 1] == form
      ensures storage.items == Saved(old(storage.items), orders) && Synced()
      ensures ViewFor(activeTab) == ManagementView
    {
      HandleSaveOrder(form);
    }

    /** `handleUpdateOrder(updatedOrder)`: replace by id, then overwrite the store. */
    method HandleUpdateOrder(updatedOrder: Order)
      modifies this, storage
      ensures orders == Replaced(old(orders), updatedOrder)
      ensures storage.items == Saved(old(storage.items), orders) && Synced()
      ensures activeTab == old(activeTab)
    {
      var updated := Replaced(orders, updatedOrder);
      orders := updated;
      SaveOrders(storage, updated);
    }

    /**
     * `handleDeleteOrder(orderId)`: when the user confirms, drop every order
     * with that id and overwrite the store; when the user declines, nothing changes.
     */
    method HandleDeleteOrder(orderId: string, confirmed: bool)
      modifies this, storage
      ensures confirmed ==> orders == Removed(old(orders), orderId)
      ensures confirmed ==> storage.items == Saved(old(storage.items), orders) && Synced()
      ensures !confirmed ==> orders == old(orders) && storage.items == old(storage.items)
      ensures activeTab == old(activeTab)
    {
      if confirmed {
        var updated := Removed(orders, orderId);
        orders := updated;
        SaveOrders(storage, updated);
      }
    }
  }
}
