/** PrismaAppointmentRepository over an in-memory appointment table. The
    table is a sequence in storage order, ids are unique and assigned by the
    store from a counter; queries are functions of the table, writes are
    methods that replace it. */
module AppointmentRepository {
  import opened Errors
  import opened Seqs
  import opened ParseEnums
  import opened Tables

  /** A JavaScript Date, compared by exact equality (milliseconds). */
  type Timestamp = int

  /** A stored appointment, as `Appointment.mapFromPrisma` returns it. The
      creation and update stamps and the joined pet are not modelled. */
  datatype Appointment = Appointment(
    id: Id, date: Timestamp, hour: string, status: AppointmentStatus,
    examination: Examination, observations: string,
    vetID: Id, petID: Id, ownerID: Id)

  /** The loosely typed body a caller passes in: status and examination are
      free strings that may be absent. */
  datatype AppointmentInput = AppointmentInput(
    date: Timestamp, hour: string, status: Option<string>,
    examination: Option<string>, observations: string,
    vetID: Id, petID: Id, ownerID: Id)

  /** The record a write of `input` under `id` produces: status and
      examination coerced, the other six data fields copied. */
  function Record(id: Id, input: AppointmentInput): Appointment {
    Appointment(id, input.date, input.hour, ParseStatus(input.status),
                ParseExamination(input.examination), input.observations,
                input.vetID, input.petID, input.ownerID)
  }

  /** The key the appointment table is indexed by. */
  function AppointmentId(a: Appointment): Id { a.id }

  /** findOneByID. */
  function FindOneByID(rows: seq<Appointment>, id: Id): (r: Option<Appointment>)
    ensures r.Some? ==> r.value in rows && r.value.id == id
    ensures r.None? <==> !HasKey(rows, AppointmentId, id)
  {
    Lookup(rows, AppointmentId, id)
  }

  /** findAll: the whole table in storage order. */
  function FindAll(rows: seq<Appointment>): seq<Appointment> {
    rows
  }

  /** findAllByPetID. */
  function FindAllByPetID(rows: seq<Appointment>, petID: Id): (r: seq<Appointment>)
    ensures forall a :: a in r <==> a in rows && a.petID == petID
  {
    Filter(rows, (a: Appointment) => a.petID == petID)
  }

  predicate SameVetSlot(a: Appointment, vetID: Id, date: Timestamp, hour: string) {
    a.vetID == vetID && a.date == date && a.hour == hour
  }

  predicate SameOwnerSlot(a: Appointment, ownerID: Id, date: Timestamp, hour: string) {
    a.ownerID == ownerID && a.date == date && a.hour == hour
  }

  /** findAnyByVetAndOwnerWithDateAndHour: the first appointment of the vet in
      that exact slot, else the first of the owner in that slot. Status is
      not consulted, so cancelled appointments still occupy their slot. */
  function FindAnyByVetAndOwnerWithDateAndHour(
    rows: seq<Appointment>, vetID: Id, ownerID: Id, date: Timestamp, hour: string): (r: Option<Appointment>)
    ensures r.Some? ==> r.value in rows
    ensures (exists a :: a in rows && SameVetSlot(a, vetID, date, hour)) ==>
              r.Some? && SameVetSlot(r.value, vetID, date, hour)
    ensures (forall a :: a in rows ==> !SameVetSlot(a, vetID, date, hour)) ==>
              (r.Some? ==> SameOwnerSlot(r.value, ownerID, date, hour))
    ensures r.None? <==>
              forall a :: a in rows ==> !SameVetSlot(a, vetID, date, hour) && !SameOwnerSlot(a, ownerID, date, hour)
  {
    match Find(rows, (a: Appointment) => SameVetSlot(a, vetID, date, hour))
    case Some(a) => Some(a)
    case None => Find(rows, (a: Appointment) => SameOwnerSlot(a, ownerID, date, hour))
  }

  /** The appointment table behind the repository. */
  class AppointmentStore {
    var rows: seq<Appointment>
    var nextId: Id

    ghost predicate Valid()
      reads this
    {
      UniqueKeys(rows, AppointmentId) && KeysBelow(rows, AppointmentId, nextId)
    }

    constructor ()
      ensures Valid() && rows == [] && nextId == 0
    {
      rows, nextId := [], 0;
    }

    /** save: exactly one new record, under a fresh id, at the end of the table. */
    method Save(input: AppointmentInput) returns (r: Appointment)
      requires Valid()
      modifies this
      ensures Valid()
      ensures r == Record(old(nextId), input) && !HasKey(old(rows), AppointmentId, r.id)
      ensures rows == old(rows) + [r] && nextId == old(nextId) + 1
    {
      r := Record(nextId, input);
      rows := rows + [r];
      nextId := nextId + 1;
    }

    /** update: all eight data fields of record `id` rewritten, the others
        untouched. Prisma raises when the id is absent: None here, with the
        table unchanged. */
    method Update(id: Id, input: AppointmentInput) returns (r: Option<Appointment>)
      requires Valid()
      modifies this
      ensures Valid() && nextId == old(nextId)
      ensures r.Some? <==> HasKey(old(rows), AppointmentId, id)
      ensures r.Some? ==> r.value == Record(id, input)
      ensures rows == Overwrite(old(rows), AppointmentId, id, (a: Appointment) => Record(id, input))
    {
      if HasKey(rows, AppointmentId, id) {
        r := Some(Record(id, input));
      } else {
        r := None;
      }
      rows := Overwrite(rows, AppointmentId, id, (a: Appointment) => Record(id, input));
    }

    /** updateStatus: only the coerced status of record `id` changes. */
    method UpdateStatus(id: Id, status: string) returns (r: Option<Appointment>)
      requires Valid()
      modifies this
      ensures Valid() && nextId == old(nextId)
      ensures r.Some? <==> HasKey(old(rows), AppointmentId, id)
      ensures r.Some? ==> r.value == FindOneByID(old(rows), id).value.(status := ParseStatus(Some(status)))
      ensures rows == Overwrite(old(rows), AppointmentId, id, (a: Appointment) => a.(status := ParseStatus(Some(status))))
    {
      var found := FindOneByID(rows, id);
      r := match found
        case Some(a) => Some(a.(status := ParseStatus(Some(status))))
        case None => None;
      rows := Overwrite(rows, AppointmentId, id, (a: Appointment) => a.(status := ParseStatus(Some(status))));
    }

    /** delete: removes exactly record `id` and returns it. */
    method Delete(id: Id) returns (r: Option<Appointment>)
      requires Valid()
      modifies this
      ensures Valid() && nextId == old(nextId)
      ensures r == FindOneByID(old(rows), id)
      ensures rows == Remove(old(rows), AppointmentId, id)
      ensures r.Some? ==> |rows| == |old(rows)| - 1
    {
      r := FindOneByID(rows, id);
      if r.Some? {
        RemoveOne(rows, AppointmentId, id);
      }
      RemoveKeepsKeys(rows, AppointmentId, id, nextId);
      rows := Remove(rows, AppointmentId, id);
    }
  }
}
