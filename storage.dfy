/**
 * The record store (utils/storage.ts): the whole order collection lives under
 * one `localStorage` key and is overwritten on every save; plus the 6-digit
 * order-id generator.
 */
module Storage {
  import opened Types
  import Text

  /** The one key under which the collection is stored. */
  const StorageKey: string := "motocare_orders"

  /**
   * The browser's `localStorage`, as a map from key to the collection stored
   * there (the JSON text written by `JSON.stringify` is taken to parse back to
   * the same collection).
   */
  class LocalStorage {
    var items: map<string, seq<Order>>

    constructor (initial: map<string, seq<Order>>)
      ensures items == initial
    {
      items := initial;
    }
  }

  /** The store after `setItem(StorageKey, …)`: the slot is replaced wholesale, nothing is merged. */
  function Saved(items: map<string, seq<Order>>, orders: seq<Order>): map<string, seq<Order>>
  {
    items[StorageKey := orders]
  }

  /** What `getOrders` reads: the stored collection, or `[]` when the key is absent. */
  function Loaded(items: map<string, seq<Order>>): seq<Order>
  {
    if StorageKey in items then items[StorageKey] else []
  }

  /** A store that never saw a save loads as the empty collection. */
  lemma LoadNothingStored(items: map<string, seq<Order>>)
    requires StorageKey !in items
    ensures Loaded(items) == []
  {
  }

  /** Round trip: loading right after saving `orders` yields `orders`. */
  lemma LoadAfterSave(items: map<string, seq<Order>>, orders: seq<Order>)
    ensures Loaded(Saved(items, orders)) == orders
  {
  }

  /** The last save wins: an earlier save leaves no trace once a later one happens. */
  lemma LastSaveWins(items: map<string, seq<Order>>, first: seq<Order>, second: seq<Order>)
    ensures Saved(Saved(items, first), second) == Saved(items, second)
  {
  }

  /** Saving touches the one key and no other. */
  lemma SaveKeepsOtherKeys(items: map<string, seq<Order>>, orders: seq<Order>, k: string)
    requires k != StorageKey
    ensures k in Saved(items, orders) <==> k in items
    ensures k in items ==> Saved(items, orders)[k] == items[k]
  {
  }

  /** `saveOrders(orders)`. */
  method SaveOrders(storage: LocalStorage, orders: seq<Order>)
    modifies storage
    ensures storage.items == Saved(old(storage.items), orders)
  {
    storage.items := storage.items[StorageKey := orders];
  }

  /** `getOrders()`. */
  method GetOrders(storage: LocalStorage) returns (orders: seq<Order>)
    ensures orders == Loaded(storage.items)
  {
    if StorageKey in storage.items {
      orders := storage.items[StorageKey];
    } else {
      orders := [];
    }
  }

  /** The random draw `Math.random() * 900000`, floored: an integer in [0, 900000). */
  type Draw = d: int | 0 <= d < 900000

  /**
   * `generateOrderId()`: `Math.floor(100000 + Math.random() * 900000).toString()`.
   * The id is a 6-digit decimal string with a non-zero first digit whose value
   * is 100000 plus the draw; nothing compares it with the ids already in use.
   */
  function GenerateOrderId(draw: Draw): (id: string)
    ensures |id| == 6 && id[0] != '0'
    ensures forall i :: 0 <= i < |id| ==> Text.IsDigit(id[i])
    ensures Text.ParseDecimal(id) == 100000 + draw
  {
    var n := 100000 + draw;
    SixDigits(n);
    Text.DecimalDigits(n);
    Text.ParseDecimalString(n);
    Text.DecimalString(n)
  }

  /** Every integer in [100000, 999999] prints as exactly six characters. */
  lemma SixDigits(n: nat)
    requires 100000 <= n <= 999999
    ensures |Text.DecimalString(n)| == 6
  {
    assert Text.Pow10(5) == 100000 by {
      assert Text.Pow10(1) == 10;
      assert Text.Pow10(2) == 100;
      assert Text.Pow10(3) == 1000;
      assert Text.Pow10(4) == 10000;
    }
    assert Text.Pow10(6) == 1000000;
    Text.DecimalLength(n, 6);
  }

  /** Different draws give different ids, and each id determines its draw. */
  lemma GenerateOrderIdInjective(d1: Draw, d2: Draw)
    ensures GenerateOrderId(d1) == GenerateOrderId(d2) <==> d1 == d2
  {
    if GenerateOrderId(d1) == GenerateOrderId(d2) {
      assert Text.ParseDecimal(GenerateOrderId(d1)) == Text.ParseDecimal(GenerateOrderId(d2));
    }
  }
}
