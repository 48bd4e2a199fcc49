/**
 * The intake form (components/ReceptionForm.tsx).  Every handler computes the
 * next form state from the previous one by object spread, so each is a
 * function from form state to form state.  The form state is an `Order`
 * whose optional fields are still unset.
 */
module Reception {
  import opened Wrappers
  import opened Types
  import opened Seqs
  import Text
  import Storage
  import Catalog

  /** `reduce((acc, item) => ({ ...acc, [item]: true }), acc)`: mark every item as checked. */
  function CheckAll(acc: map<string, bool>, items: seq<string>): (m: map<string, bool>)
    decreases |items|
  {
    if items == [] then acc else CheckAll(acc[items[0] := true], items[1..])
  }

  /** The fold adds exactly the listed items, each mapped to true, and keeps the other entries. */
  lemma {:induction false} CheckAllSpec(acc: map<string, bool>, items: seq<string>)
    ensures CheckAll(acc, items).Keys == acc.Keys + Elements(items)
    ensures forall k :: k in Elements(items) ==> CheckAll(acc, items)[k]
    ensures forall k :: k in acc && k !in Elements(items) ==> CheckAll(acc, items)[k] == acc[k]
    decreases |items|
  {
    if items != [] {
      CheckAllSpec(acc[items[0] := true], items[1..]);
      assert Elements(items) == {items[0]} + Elements(items[1..]);
    }
  }

  /** The checklist the form starts with. */
  function InitialChecklist(): map<string, bool> {
    CheckAll(map[], Catalog.ChecklistItems())
  }

  /** Every label of the taxonomy is present and checked, there is no other key, and there are 40 keys. */
  lemma InitialChecklistSpec()
    ensures InitialChecklist().Keys == Elements(Catalog.ChecklistItems())
    ensures forall k :: k in InitialChecklist() ==> InitialChecklist()[k]
    ensures |InitialChecklist()| == 40
  {
    CheckAllSpec(map[], Catalog.ChecklistItems());
    Catalog.ChecklistDistinct();
    Catalog.ChecklistSizes();
    DistinctCardinality(Catalog.ChecklistItems());
    assert |InitialChecklist()| == |InitialChecklist().Keys|;
  }

  /** The initial `formData`, given the id draw and the current time. */
  function InitialForm(draw: Storage.Draw, now: int): (form: Order)
  {
    Order(
      id := Storage.GenerateOrderId(draw),
      entryDate := now,
      completionDate := None,
      status := Pendiente,
      operationType := Revision,
      owner := Owner("", "", "", ""),
      motorcycle := Motorcycle("", "", "", "", "", "", "", ""),
      checklist := InitialChecklist(),
      clientReport := "",
      observations := "",
      technicianNotes := None,
      workHours := 0,
      estimatedCost := None,
      photoVehicle := None,
      photoChassis := None,
      updates := [])
  }

  /**
   * A fresh form is a pending order with an empty photo log and no hours,
   * entered now, every checklist item checked, and a 6-digit id made from the draw.
   */
  lemma InitialFormSpec(draw: Storage.Draw, now: int)
    ensures var f := InitialForm(draw, now);
      && f.status == Pendiente && f.updates == [] && f.workHours == 0
      && f.entryDate == now && f.completionDate == None
      && |f.id| == 6 && Text.ParseDecimal(f.id) == 100000 + draw
      && |f.checklist| == 40 && (forall k :: k in f.checklist ==> f.checklist[k])
  {
    InitialChecklistSpec();
  }

  /** `toggleChecklist(item)`: negate the item, reading a missing item as unchecked. */
  function ToggleChecklist(form: Order, item: string): (r: Order)
  {
    var checked := item in form.checklist && form.checklist[item];
    form.(checklist := form.checklist[item := !checked])
  }

  /** Toggling flips the one item (a missing one becomes checked) and changes nothing else. */
  lemma ToggleChecklistSpec(form: Order, item: string)
    ensures var r := ToggleChecklist(form, item);
      && r.checklist.Keys == form.checklist.Keys + {item}
      && (item in form.checklist ==> r.checklist[item] == !form.checklist[item])
      && (item !in form.checklist ==> r.checklist[item])
      && (forall k :: k in form.checklist && k != item ==> r.checklist[k] == form.checklist[k])
      && r.(checklist := form.checklist) == form
  {
  }

  /** Toggling a present item twice restores the form. */
  lemma ToggleTwice(form: Order, item: string)
    requires item in form.checklist
    ensures ToggleChecklist(ToggleChecklist(form, item), item) == form
  {
    var r := ToggleChecklist(ToggleChecklist(form, item), item);
    assert r.checklist == form.checklist;
  }

  /** Toggling a missing item twice leaves it present and unchecked: the key is not removed again. */
  lemma ToggleTwiceMissing(form: Order, item: string)
    requires item !in form.checklist
    ensures var r := ToggleChecklist(ToggleChecklist(form, item), item);
      item in r.checklist && !r.checklist[item] && r != form
  {
  }

  datatype OwnerField = Name | IdNumber | Phone | Email

  datatype MotorcycleField = Plate | Model | Year | Color | Mileage | ChassisSerial | EngineSerial | Displacement

  function OwnerGet(o: Owner, f: OwnerField): string {
    match f
    case Name => o.name
    case IdNumber => o.idNumber
    case Phone => o.phone
    case Email => o.email
  }

  /** `{ ...owner, [field]: value }`. */
  function OwnerSet(o: Owner, f: OwnerField, v: string): (r: Owner)
    ensures OwnerGet(r, f) == v
    ensures forall g :: g != f ==> OwnerGet(r, g) == OwnerGet(o, g)
  {
    match f
    case Name => o.(name := v)
    case IdNumber => o.(idNumber := v)
    case Phone => o.(phone := v)
    case Email => o.(email := v)
  }

  function MotorcycleGet(m: Motorcycle, f: MotorcycleField): string {
    match f
    case Plate => m.plate
    case Model => m.model
    case Year => m.year
    case Color => m.color
    case Mileage => m.mileage
    case ChassisSerial => m.chassisSerial
    case EngineSerial => m.engineSerial
    case Displacement => m.displacement
  }

  /** `{ ...motorcycle, [field]: value }`. */
  function MotorcycleSet(m: Motorcycle, f: MotorcycleField, v: string): (r: Motorcycle)
    ensures MotorcycleGet(r, f) == v
    ensures forall g :: g != f ==> MotorcycleGet(r, g) == MotorcycleGet(m, g)
  {
    match f
    case Plate => m.(plate := v)
    case Model => m.(model := v)
    case Year => m.(year := v)
    case Color => m.(color := v)
    case Mileage => m.(mileage := v)
    case ChassisSerial => m.(chassisSerial := v)
    case EngineSerial => m.(engineSerial := v)
    case Displacement => m.(displacement := v)
  }

  /** The top-level text fields the form edits with section `'root'`. */
  datatype RootTextField = ClientReport | Observations

  /** One `handleInputChange(section, field, value)` call, as the form issues them. */
  datatype InputChange =
    | RootText(rootField: RootTextField, text: string)
    | RootOperation(op: OperationType)
    | OwnerInput(ownerField: OwnerField, text: string)
    | MotorcycleInput(motorcycleField: MotorcycleField, text: string)

  /** `handleInputChange`: a root change spreads one field into the form, a section change one field into that section. */
  function ApplyInput(form: Order, change: InputChange): (r: Order)
  {
    match change
    case RootText(ClientReport, t) => form.(clientReport := t)
    case RootText(Observations, t) => form.(observations := t)
    case RootOperation(op) => form.(operationType := op)
    case OwnerInput(f, t) => form.(owner := OwnerSet(form.owner, f, t))
    case MotorcycleInput(f, t) => form.(motorcycle := MotorcycleSet(form.motorcycle, f, t))
  }

  /**
   * A section change sets the one field of that section and leaves its sibling
   * fields and every other part of the form as they were; a root change sets
   * the one top-level field.
   */
  lemma ApplyInputSpec(form: Order, change: InputChange)
    ensures var r := ApplyInput(form, change);
      match change
      case OwnerInput(f, t) =>
        OwnerGet(r.owner, f) == t
        && (forall g :: g != f ==> OwnerGet(r.owner, g) == OwnerGet(form.owner, g))
        && r.(owner := form.owner) == form
      case MotorcycleInput(f, t) =>
        MotorcycleGet(r.motorcycle, f) == t
        && (forall g :: g != f ==> MotorcycleGet(r.motorcycle, g) == MotorcycleGet(form.motorcycle, g))
        && r.(motorcycle := form.motorcycle) == form
      case RootText(ClientReport, t) => r.clientReport == t && r.(clientReport := form.clientReport) == form
      case RootText(Observations, t) => r.observations == t && r.(observations := form.observations) == form
      case RootOperation(op) => r.operationType == op && r.(operationType := form.operationType) == form
  {
  }

  /** The plate input: `handleInputChange('motorcycle', 'plate', value.toUpperCase())`. */
  function PlateInput(form: Order, typed: string): (r: Order)
  {
    ApplyInput(form, MotorcycleInput(Plate, Text.ToUpper(typed)))
  }

  /** The stored plate is the typed text upper-cased, so typing the shown plate again changes nothing. */
  lemma PlateInputSpec(form: Order, typed: string)
    ensures PlateInput(form, typed).motorcycle.plate == Text.ToUpper(typed)
    ensures PlateInput(PlateInput(form, typed), PlateInput(form, typed).motorcycle.plate) == PlateInput(form, typed)
  {
    Text.ToUpperIdempotent(typed);
    ApplyInputSpec(form, MotorcycleInput(Plate, Text.ToUpper(typed)));
  }

  datatype PhotoField = PhotoVehicle | PhotoChassis

  /** `handleImageChange` once the file is read: `{ ...prev, [field]: dataUrl }`. */
  function ImageChange(form: Order, field: PhotoField, dataUrl: string): (r: Order)
  {
    match field
    case PhotoVehicle => form.(photoVehicle := Some(dataUrl))
    case PhotoChassis => form.(photoChassis := Some(dataUrl))
  }

  /** An image sets the named photo field only. */
  lemma ImageChangeSpec(form: Order, field: PhotoField, dataUrl: string)
    ensures var r := ImageChange(form, field, dataUrl);
      && (field == PhotoVehicle ==> r.photoVehicle == Some(dataUrl) && r.(photoVehicle := form.photoVehicle) == form)
      && (field == PhotoChassis ==> r.photoChassis == Some(dataUrl) && r.(photoChassis := form.photoChassis) == form)
  {
  }
}
