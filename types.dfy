/**
 * The order record of the workshop tracker (the `WorkshopOrder` shape used by
 * every screen).  Timestamps are integers (milliseconds); fields the source
 * leaves `undefined` until some screen fills them are `Option`s.
 */
module Types {
  import opened Wrappers

  /** The three lifecycle states, `'Pendiente'`, `'En Proceso'` and `'Completado'`. */
  datatype Status = Pendiente | EnProceso | Completado

  /** The three kinds of job, `'Revisión'`, `'Reparación'` and `'Garantía'`. */
  datatype OperationType = Revision | Reparacion | Garantia

  datatype Owner = Owner(name: string, idNumber: string, phone: string, email: string)

  datatype Motorcycle = Motorcycle(
    plate: string, model: string, year: string, color: string, mileage: string,
    chassisSerial: string, engineSerial: string, displacement: string)

  /** One entry of an order's photo log. */
  datatype ProgressUpdate = ProgressUpdate(timestamp: int, note: string, photo: string)

  datatype Order = Order(
    id: string,
    entryDate: int,
    completionDate: Option<int>,
    status: Status,
    operationType: OperationType,
    owner: Owner,
    motorcycle: Motorcycle,
    checklist: map<string, bool>,
    clientReport: string,
    observations: string,
    technicianNotes: Option<string>,
    workHours: int,
    estimatedCost: Option<int>,
    photoVehicle: Option<string>,
    photoChassis: Option<string>,
    updates: seq<ProgressUpdate>)

  /** The status selector of the list screens: `'All'` or one status. */
  datatype StatusFilter = All | Only(status: Status)

  predicate PassesStatus(f: StatusFilter, s: Status) {
    f.All? || f.status == s
  }

  /** Positions of the orders carrying identifier `id`. */
  ghost predicate HasId(orders: seq<Order>, id: string) {
    exists i :: 0 <= i < |orders| && orders[i].id == id
  }
}
