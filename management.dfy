/**
 * The order-management screen (components/OrderManagement.tsx): the searched,
 * status-filtered, newest-first list; the editor's changes to the edited copy
 * of an order (photo log, notes, status, hours); and the screen state that
 * remembers the selected order.
 */
module Management {
  import opened Wrappers
  import opened Types
  import opened Seqs
  import opened Text
  import opened Storage
  import opened Repository

  /* ---------------- the list ---------------- */

  /**
   * The `matchesSearch` test: the term occurs in the id as typed, or in the
   * lower-cased plate or owner name once the term is lower-cased too.
   */
  predicate MatchesSearch(o: Order, term: string) {
    || Includes(o.id, term)
    || Includes(ToLower(o.motorcycle.plate), ToLower(term))
    || Includes(ToLower(o.owner.name), ToLower(term))
  }

  predicate Matches(o: Order, term: string, f: StatusFilter) {
    MatchesSearch(o, term) && PassesStatus(f, o.status)
  }

  /** Newest first: entry dates never increase along the list. */
  ghost predicate NewestFirst(s: seq<Order>) {
    forall i, j :: 0 <= i < j < |s| ==> s[i].entryDate >= s[j].entryDate
  }

  /** Place `o` in front of the first order that entered strictly before it. */
  function Insert(o: Order, s: seq<Order>): (r: seq<Order>)
    ensures multiset(r) == multiset(s) + multiset{o}
  {
    if s == [] || o.entryDate >= s[0].entryDate then
      [o] + s
    else
      assert s == [s[0]] + s[1..];
      [s[0]] + Insert(o, s[1..])
  }

  /** No order in `s` entered after `d`. */
  ghost predicate NoneAfter(d: int, s: seq<Order>) {
    forall j :: 0 <= j < |s| ==> s[j].entryDate <= d
  }

  lemma {:induction false} InsertNoneAfter(o: Order, s: seq<Order>, d: int)
    requires NoneAfter(d, s) && o.entryDate <= d
    ensures NoneAfter(d, Insert(o, s))
  {
    if s != [] && o.entryDate < s[0].entryDate {
      InsertNoneAfter(o, s[1..], d);
    }
  }

  lemma ConsNewestFirst(x: Order, t: seq<Order>)
    requires NewestFirst(t) && NoneAfter(x.entryDate, t)
    ensures NewestFirst([x] + t)
  {
  }

  /** Inserting into a newest-first list keeps it newest first. */
  lemma {:induction false} InsertNewestFirst(o: Order, s: seq<Order>)
    requires NewestFirst(s)
    ensures NewestFirst(Insert(o, s))
  {
    if s == [] || o.entryDate >= s[0].entryDate {
      ConsNewestFirst(o, s);
    } else {
      InsertNewestFirst(o, s[1..]);
      InsertNoneAfter(o, s[1..], s[0].entryDate);
      ConsNewestFirst(s[0], Insert(o, s[1..]));
    }
  }

  /**
   * The sort by `b.entryDate - a.entryDate`: a newest-first rearrangement of
   * its input (the model inserts from the back, so orders that entered at the
   * same moment keep their relative order, as the built-in stable sort does).
   */
  function SortNewestFirst(s: seq<Order>): (r: seq<Order>)
    ensures multiset(r) == multiset(s)
    ensures NewestFirst(r)
  {
    if s == [] then []
    else
      assert s == [s[0]] + s[1..];
      var sorted := SortNewestFirst(s[1..]);
      InsertNewestFirst(s[0], sorted);
      Insert(s[0], sorted)
  }

  /** `filteredOrders`: the matching orders, newest first. */
  function FilteredOrders(orders: seq<Order>, term: string, f: StatusFilter): seq<Order> {
    SortNewestFirst(Filter(orders, (o: Order) => Matches(o, term, f)))
  }

  /**
   * The list shows every matching order exactly as often as the collection
   * holds it, nothing else, newest first.
   */
  lemma FilteredOrdersSpec(orders: seq<Order>, term: string, f: StatusFilter)
    ensures var r := FilteredOrders(orders, term, f);
      && NewestFirst(r)
      && (forall o: Order :: multiset(r)[o] == if Matches(o, term, f) then multiset(orders)[o] else 0)
      && (forall o :: o in r <==> o in orders && MatchesSearch(o, term) && PassesStatus(f, o.status))
  {
    var p := (o: Order) => Matches(o, term, f);
    var r := FilteredOrders(orders, term, f);
    forall o: Order ensures multiset(r)[o] == if Matches(o, term, f) then multiset(orders)[o] else 0 {
      FilterMultiset(orders, p, o);
    }
    forall o ensures o in r <==> o in orders && MatchesSearch(o, term) && PassesStatus(f, o.status) {
      assert o in r <==> o in multiset(r);
      FilterMultiset(orders, p, o);
      assert o in orders <==> o in multiset(orders);
    }
  }

  /** With an empty search and `'All'`, the list is every order, rearranged newest first. */
  lemma FilteredOrdersUnfiltered(orders: seq<Order>)
    ensures multiset(FilteredOrders(orders, "", All)) == multiset(orders)
  {
    var p := (o: Order) => Matches(o, "", All);
    forall o | o in orders ensures p(o) {
      IncludesEmpty(o.id);
    }
    FilterAllKept(orders, p);
  }

  /* ---------------- the editor ---------------- */

  const NewPhotoNote: string := "Nueva foto de avance"

  /** `addProcessUpdate` once the photo is read: log a new entry at time `now`. */
  function AddProgressUpdate(order: Order, photo: string, now: int): Order {
    order.(updates := order.updates + [ProgressUpdate(now, NewPhotoNote, photo)])
  }

  /**
   * A new photo grows the log by exactly one entry at the end, with the fixed
   * note; earlier entries and every other field are untouched.
   */
  lemma AddProgressUpdateSpec(order: Order, photo: string, now: int)
    ensures var r := AddProgressUpdate(order, photo, now);
      && |r.updates| == |order.updates| + 1
      && r.updates[..|order.updates|] == order.updates
      && r.updates[|order.updates|] == ProgressUpdate(now, "Nueva foto de avance", photo)
      && r.(updates := order.updates) == order
  {
  }

  /** The note input of entry `idx`: that entry gets the typed note. */
  function EditNote(order: Order, idx: nat, note: string): Order
    requires idx < |order.updates|
  {
    order.(updates := order.updates[idx := order.updates[idx].(note := note)])
  }

  /**
   * Editing a note changes only that entry's note: the log keeps its length,
   * the entry keeps its time and photo, and the other entries and fields stay.
   */
  lemma EditNoteSpec(order: Order, idx: nat, note: string)
    requires idx < |order.updates|
    ensures var r := EditNote(order, idx, note);
      && |r.updates| == |order.updates|
      && r.updates[idx].note == note
      && r.updates[idx].timestamp == order.updates[idx].timestamp
      && r.updates[idx].photo == order.updates[idx].photo
      && (forall i :: 0 <= i < |order.updates| && i != idx ==> r.updates[i] == order.updates[i])
      && r.(updates := order.updates) == order
  {
  }

  /** Typing the note that is already there changes nothing; the last typed note wins. */
  lemma EditNoteRoundTrip(order: Order, idx: nat, first: string, second: string)
    requires idx < |order.updates|
    ensures EditNote(order, idx, order.updates[idx].note) == order
    ensures EditNote(EditNote(order, idx, first), idx, second) == EditNote(order, idx, second)
  {
  }

  /** `updates.filter((_, i) => i !== idx)`, position by position. */
  function RemoveAt(log: seq<ProgressUpdate>, idx: int): (r: seq<ProgressUpdate>)
    ensures |r| <= |log|
  {
    if log == [] then []
    else (if idx == 0 then [] else [log[0]]) + RemoveAt(log[1..], idx - 1)
  }

  /**
   * Removing a record drops exactly entry `idx` and keeps the rest in order;
   * an index outside the log removes nothing.
   */
  lemma {:induction false} RemoveAtSpec(log: seq<ProgressUpdate>, idx: int)
    ensures 0 <= idx < |log| ==> RemoveAt(log, idx) == log[..idx] + log[idx + 1..]
    ensures !(0 <= idx < |log|) ==> RemoveAt(log, idx) == log
  {
    if log != [] {
      RemoveAtSpec(log[1..], idx - 1);
      if idx == 0 {
        assert log[1..] == log[..0] + log[1..];
      } else if 0 < idx < |log| {
        assert log[..idx] == [log[0]] + log[1..][..idx - 1];
        assert log[idx + 1..] == log[1..][idx..];
      } else {
        assert log == [log[0]] + log[1..];
      }
    }
  }

  /** The "Eliminar Registro" button of entry `idx`. */
  function RemoveUpdate(order: Order, idx: int): Order {
    order.(updates := RemoveAt(order.updates, idx))
  }

  /** Removing the entry a photo just added gives back the order as it was. */
  lemma RemoveUndoesAdd(order: Order, photo: string, now: int)
    ensures RemoveUpdate(AddProgressUpdate(order, photo, now), |order.updates|) == order
  {
    var added := AddProgressUpdate(order, photo, now);
    RemoveAtSpec(added.updates, |order.updates|);
    assert added.updates[..|order.updates|] == order.updates;
  }

  /**
   * Two photos, then removing the first entry of a log that was empty,
   * leaves only the second photo: removal is by position, not by content.
   */
  lemma TwoPhotosRemoveFirst(order: Order, p1: string, t1: int, p2: string, t2: int)
    requires order.updates == []
    ensures RemoveUpdate(AddProgressUpdate(AddProgressUpdate(order, p1, t1), p2, t2), 0).updates
      == [ProgressUpdate(t2, "Nueva foto de avance", p2)]
  {
    var two := AddProgressUpdate(AddProgressUpdate(order, p1, t1), p2, t2);
    RemoveAtSpec(two.updates, 0);
  }

  /** The status selector: only `status` changes; no completion date is stamped. */
  function SetStatus(order: Order, s: Status): (r: Order)
    ensures r.status == s && r.completionDate == order.completionDate
    ensures r.(status := order.status) == order
  {
    order.(status := s)
  }

  /** The hours input: `parseFloat(value) || 0`, with `None` for input that does not parse. */
  function SetWorkHours(order: Order, parsed: Option<int>): (r: Order)
    ensures parsed.None? ==> r.workHours == 0
    ensures parsed.Some? ==> r.workHours == parsed.value
    ensures r.(workHours := order.workHours) == order
  {
    order.(workHours := parsed.GetOr(0))
  }

  /** The technician-notes text area. */
  function SetTechnicianNotes(order: Order, notes: string): (r: Order)
    ensures r.technicianNotes == Some(notes)
    ensures r.(technicianNotes := order.technicianNotes) == order
  {
    order.(technicianNotes := Some(notes))
  }

  /** No editor change alters the order's identity, so a save replaces the order it was opened on. */
  lemma EditorKeepsId(order: Order, photo: string, now: int, idx: int, s: Status, parsed: Option<int>, notes: string)
    ensures AddProgressUpdate(order, photo, now).id == order.id
    ensures RemoveUpdate(order, idx).id == order.id
    ensures SetStatus(order, s).id == order.id
    ensures SetWorkHours(order, parsed).id == order.id
    ensures SetTechnicianNotes(order, notes).id == order.id
  {
  }

  /* ---------------- the screen ---------------- */

  /**
   * The `OrderManagement` component's state over the app's collection: the
   * search term, the status selector and the order open in the editor.
   */
  class ManagementScreen {
    var searchTerm: string
    var statusFilter: StatusFilter
    var selected: Option<Order>
    const repo: OrderRepository

    constructor (repo: OrderRepository)
      ensures this.repo == repo
      ensures searchTerm == "" && statusFilter == All && selected == None
    {
      this.repo := repo;
      searchTerm := "";
      statusFilter := All;
      selected := None;
    }

    /** The rows the screen lists. */
    function Listed(): seq<Order>
      reads this, repo
    {
      FilteredOrders(repo.orders, searchTerm, statusFilter)
    }

    method SetSearchTerm(term: string)
      modifies this
      ensures searchTerm == term && statusFilter == old(statusFilter) && selected == old(selected)
    {
      searchTerm := term;
    }

    method SetStatusFilter(f: StatusFilter)
      modifies this
      ensures statusFilter == f && searchTerm == old(searchTerm) && selected == old(selected)
    {
      statusFilter := f;
    }

    /** Clicking a listed row opens it in the editor. */
    method Select(o: Order)
      requires o in Listed()
      modifies this
      ensures selected == Some(o) && o in repo.orders
      ensures searchTerm == old(searchTerm) && statusFilter == old(statusFilter)
    {
      FilteredOrdersSpec(repo.orders, searchTerm, statusFilter);
      selected := Some(o);
    }

    /** The editor's close button. */
    method Close()
      modifies this
      ensures selected == None
      ensures searchTerm == old(searchTerm) && statusFilter == old(statusFilter)
    {
      selected := None;
    }

    /** `handleUpdate`: hand the edited copy to the app's update, then show that copy as selected. */
    method HandleUpdate(updated: Order)
      modifies this, repo, repo.storage
      ensures repo.orders == Replaced(old(repo.orders), updated)
      ensures repo.storage.items == Saved(old(repo.storage.items), repo.orders) && repo.Synced()
      ensures selected == Some(updated)
      ensures searchTerm == old(searchTerm) && statusFilter == old(statusFilter)
      ensures repo.activeTab == old(repo.activeTab)
    {
      repo.HandleUpdateOrder(updated);
      selected := Some(updated);
    }

    /**
     * The editor's `handleSave`: `onUpdate(localOrder)` and then `onClose()`.
     * The close runs after `handleUpdate`, so the editor ends closed.
     */
    method HandleSave(localOrder: Order)
      modifies this, repo, repo.storage
      ensures repo.orders == Replaced(old(repo.orders), localOrder)
      ensures repo.storage.items == Saved(old(repo.storage.items), repo.orders) && repo.Synced()
      ensures selected == None
      ensures searchTerm == old(searchTerm) && statusFilter == old(statusFilter)
      ensures repo.activeTab == old(repo.activeTab)
    {
      HandleUpdate(localOrder);
      Close();
    }
  }
}
