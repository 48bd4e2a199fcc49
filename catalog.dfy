/**
 * The fixed tables of constants.tsx: the intake checklist taxonomy, the
 * status colour and icon tables, and the navigation entries.
 */
module Catalog {
  import opened Types
  import opened Seqs

  datatype ChecklistCategory = ChecklistCategory(category: string, items: seq<string>)

  /** `CHECKLIST_DATA`: five categories of inspection items. */
  const ChecklistData: seq<ChecklistCategory> := [
    ChecklistCategory("INSPECCIÓN FÍSICA", [
      "Tanque de gasolina acoplado", "Tapa de tanque de gasolina", "Línea de combustible al carburador",
      "Posa pies funcionales", "Pedal de freno", "Tapas laterales acoplados",
      "Guarda barro delantero acoplado", "Guardabarros trasero acoplado", "Asiento acoplado",
      "Base del motor aseguradas", "Tubo de escape acoplado", "Pedal de arranque funcionado",
      "Base de la tijera ajustada con bujes colocados", "Amortiguadores ajustados",
      "Fundas de amortiguadores delanteros", "Parrilla trasera ajustada",
      "Manillas de acelerador y embrague", "Kit de arrastre (Cadena, piñón, corona)",
      "Placas (No tenerlas defectuosas)", "Posición del manurio correcta",
      "Resortes (Freno, burro, válvula de freno)"]),
    ChecklistCategory("INSPECCIÓN ELÉCTRICA", [
      "Suichera funcionando", "Luces delanteras (Alta, baja, servicio)",
      "Luces de cruce (Izquierda, derecha)", "Luz de freno (Delantero, Trasero)",
      "Luz del tablero", "Corneta", "Encendido eléctrico"]),
    ChecklistCategory("ACCESORIOS", [
      "Herramientas", "Etiquetas colocadas", "Retrovisores", "Llaves"]),
    ChecklistCategory("SISTEMAS DE FRENOS", [
      "Línea de freno por el lado derecho", "Caliper de freno ajustado y con seguros",
      "Arañas de la transmisión", "Líquido de frenos",
      "Frenos delanteros y traseros disco o campana", "Llantas - Infladas"]),
    ChecklistCategory("MOTOR", [
      "Probar cambios de velocidades (5 y Neutro)", "Nivel de aceite"])
  ]

  /** `flatMap(c => c.items)`: the categories' items, category after category. */
  function FlatItems(cats: seq<ChecklistCategory>): (r: seq<string>)
  {
    if cats == [] then [] else cats[0].items + FlatItems(cats[1..])
  }

  /** Where category `c`'s items start in the flattened list. */
  function Offset(cats: seq<ChecklistCategory>, c: nat): nat
    requires c <= |cats|
  {
    if c == 0 then 0 else Offset(cats, c - 1) + |cats[c - 1].items|
  }

  /** `CHECKLIST_ITEMS`. */
  function ChecklistItems(): seq<string> {
    FlatItems(ChecklistData)
  }

  /**
   * Flattening keeps every category's items, in order, one block per category:
   * item `j` of category `c` sits at `Offset(c) + j`, and the blocks fill the whole list.
   */
  lemma {:induction false} FlatItemsAt(cats: seq<ChecklistCategory>, c: nat, j: nat)
    requires c < |cats| && j < |cats[c].items|
    ensures |FlatItems(cats)| == Offset(cats, |cats|)
    ensures Offset(cats, c) + j < |FlatItems(cats)|
    ensures FlatItems(cats)[Offset(cats, c) + j] == cats[c].items[j]
    decreases |cats|
  {
    if c == 0 {
      FlatLength(cats);
      OffsetMonotone(cats, 1, |cats|);
    } else {
      FlatItemsAt(cats[1..], c - 1, j);
      OffsetShift(cats, c);
      OffsetShift(cats, |cats|);
    }
  }

  lemma {:induction false} FlatLength(cats: seq<ChecklistCategory>)
    ensures |FlatItems(cats)| == Offset(cats, |cats|)
    decreases |cats|
  {
    if cats != [] {
      FlatLength(cats[1..]);
      OffsetShift(cats, |cats|);
    }
  }

  /** Dropping the first category shifts every later offset by its size. */
  lemma {:induction false} OffsetShift(cats: seq<ChecklistCategory>, c: nat)
    requires 1 <= c <= |cats|
    ensures Offset(cats, c) == |cats[0].items| + Offset(cats[1..], c - 1)
    decreases c
  {
    if c > 1 {
      OffsetShift(cats, c - 1);
    }
  }

  lemma {:induction false} OffsetMonotone(cats: seq<ChecklistCategory>, a: nat, b: nat)
    requires a <= b <= |cats|
    ensures Offset(cats, a) <= Offset(cats, b)
    decreases b - a
  {
    if a < b {
      OffsetMonotone(cats, a, b - 1);
    }
  }

  /** Five categories of 21, 7, 4, 6 and 2 items: forty labels in all. */
  lemma ChecklistSizes()
    ensures |ChecklistData| == 5
    ensures |ChecklistData[0].items| == 21 && |ChecklistData[1].items| == 7
    ensures |ChecklistData[2].items| == 4 && |ChecklistData[3].items| == 6
    ensures |ChecklistData[4].items| == 2
    ensures |ChecklistItems()| == 40
  {
    FlatLength(ChecklistData);
  }

  /** Within each category no label is repeated. */
  lemma CategoryDistinct(k: nat)
    requires k < |ChecklistData|
    ensures Distinct(ChecklistData[k].items)
  {
    if k == 0 {
      PhysicalInspectionDistinct();
    }
  }

  /** The largest category, on its own: its 21 labels are pairwise different. */
  lemma PhysicalInspectionDistinct()
    ensures Distinct(ChecklistData[0].items)
  {
  }

  /** No label belongs to two categories. */
  lemma CategoriesDisjoint(k: nat, l: nat)
    requires k < l < |ChecklistData|
    ensures Disjoint(ChecklistData[k].items, ChecklistData[l].items)
  {
  }

  /** No label is repeated, across or within categories. */
  lemma ChecklistDistinct()
    ensures Distinct(ChecklistItems())
  {
    var c := ChecklistData;
    var a0, a1, a2, a3, a4 := c[0].items, c[1].items, c[2].items, c[3].items, c[4].items;
    assert ChecklistItems() == a0 + (a1 + (a2 + (a3 + a4)));
    CategoryDistinct(3); CategoryDistinct(4); CategoriesDisjoint(3, 4);
    DistinctAppend(a3, a4);
    CategoryDistinct(2); CategoriesDisjoint(2, 3); CategoriesDisjoint(2, 4);
    DisjointAppend(a2, a3, a4);
    DistinctAppend(a2, a3 + a4);
    CategoryDistinct(1); CategoriesDisjoint(1, 2); CategoriesDisjoint(1, 3); CategoriesDisjoint(1, 4);
    DisjointAppend(a1, a3, a4);
    DisjointAppend(a1, a2, a3 + a4);
    DistinctAppend(a1, a2 + (a3 + a4));
    CategoryDistinct(0); CategoriesDisjoint(0, 1); CategoriesDisjoint(0, 2); CategoriesDisjoint(0, 3); CategoriesDisjoint(0, 4);
    DisjointAppend(a0, a3, a4);
    DisjointAppend(a0, a2, a3 + a4);
    DisjointAppend(a0, a1, a2 + (a3 + a4));
    DistinctAppend(a0, a1 + (a2 + (a3 + a4)));
  }

  /** The icon components the tables refer to. */
  datatype Icon = Clock | AlertCircle | CheckCircle2 | LayoutDashboard | PlusCircle | Wrench | BarChart3

  /** `STATUS_COLORS`: the badge classes of each status. */
  const StatusColors: map<Status, string> := map[
    Pendiente := "bg-gray-100 text-gray-700",
    EnProceso := "bg-blue-100 text-blue-700",
    Completado := "bg-green-100 text-green-700"]

  /** `STATUS_ICONS`: the badge icon of each status. */
  const StatusIcons: map<Status, Icon> := map[
    Pendiente := Clock,
    EnProceso := AlertCircle,
    Completado := CheckCircle2]

  datatype NavItem = NavItem(id: string, caption: string, icon: Icon)

  /** `NAV_ITEMS`: the four screens of the navigation bar. */
  const NavItems: seq<NavItem> := [
    NavItem("dashboard", "Panel", LayoutDashboard),
    NavItem("reception", "Recepción", PlusCircle),
    NavItem("management", "Gestión", Wrench),
    NavItem("reports", "Reportes", BarChart3)]

  /** Both status tables have exactly one entry for each of the three statuses, and the icons differ. */
  lemma StatusTablesTotal()
    ensures forall s: Status :: s in StatusColors && s in StatusIcons
    ensures |StatusColors| == 3 && |StatusIcons| == 3
    ensures forall s, t: Status :: s != t ==> StatusIcons[s] != StatusIcons[t]
  {
    assert StatusColors.Keys == {Pendiente, EnProceso, Completado};
    assert StatusIcons.Keys == {Pendiente, EnProceso, Completado};
    forall s: Status ensures s in StatusColors && s in StatusIcons {
      assert s.Pendiente? || s.EnProceso? || s.Completado?;
    }
  }

  /** Four navigation entries with pairwise different ids. */
  lemma NavItemsDistinct()
    ensures |NavItems| == 4
    ensures forall i, j :: 0 <= i < j < |NavItems| ==> NavItems[i].id != NavItems[j].id
  {
  }
}
