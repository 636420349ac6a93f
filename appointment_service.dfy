/** AppointmentService: the guarded sequences that decide whether a create,
    update, status change or delete reaches the appointment table, and which
    error a rejected request gets.

    Each operation is specified by a function of the table and the request
    (its outcome); the service methods are proved equal to those functions,
    and the lemmas below state what the outcomes promise. `dateAccepted` is
    the answer of `validateDate` (not part of this model) for the request's
    date; `storeFails` says that the persistence library raises on every call
    of that request. */
module AppointmentService {
  import opened Errors
  import opened ParseEnums
  import opened Tables
  import opened AppointmentRepository

  /** The error classes each operation's `catch` lets through unchanged. */
  const CreateRethrows: set<ErrorKind> :=
    {OwnerNotFound, VetNotFound, PetNotFound, AppointmentAlreadyExists}
  const UpdateRethrows: set<ErrorKind> :=
    {OwnerNotFound, VetNotFound, PetNotFound, AppointmentValidation, AppointmentNotFound}
  const UpdateStatusRethrows: set<ErrorKind> := {AppointmentStatusField, AppointmentNotFound}
  const LookupRethrows: set<ErrorKind> := {AppointmentNotFound}

  /** _checkDate. */
  function CheckDate(dateAccepted: bool): Option<ErrorKind> {
    if dateAccepted then None else Some(AppointmentValidation)
  }

  /** _checkOwner, _checkVet and _checkPet, run in that order: the first
      reference that does not exist decides the error. */
  function CheckReferences(owners: set<Id>, vets: set<Id>, pets: set<Id>, input: AppointmentInput): (e: Option<ErrorKind>)
    ensures e.None? <==> input.ownerID in owners && input.vetID in vets && input.petID in pets
    ensures input.ownerID !in owners ==> e == Some(OwnerNotFound)
    ensures input.ownerID in owners && input.vetID !in vets ==> e == Some(VetNotFound)
    ensures input.ownerID in owners && input.vetID in vets && input.petID !in pets ==> e == Some(PetNotFound)
  {
    if input.ownerID !in owners then Some(OwnerNotFound)
    else if input.vetID !in vets then Some(VetNotFound)
    else if input.petID !in pets then Some(PetNotFound)
    else None
  }

  /** What `create` ends with, before its catch. */
  function CreateRaised(rows: seq<Appointment>, nextId: Id, owners: set<Id>, vets: set<Id>, pets: set<Id>,
                        dateAccepted: bool, storeFails: bool, input: AppointmentInput): Result<Appointment>
  {
    if CheckDate(dateAccepted).Some? then Err(AppointmentValidation)
    else if storeFails then Err(StoreFailure)
    else if CheckReferences(owners, vets, pets, input).Some? then Err(CheckReferences(owners, vets, pets, input).value)
    else if FindAnyByVetAndOwnerWithDateAndHour(rows, input.vetID, input.ownerID, input.date, input.hour).Some? then
      Err(AppointmentAlreadyExists)
    else Ok(Record(nextId, input))
  }

  function CreateOutcome(rows: seq<Appointment>, nextId: Id, owners: set<Id>, vets: set<Id>, pets: set<Id>,
                         dateAccepted: bool, storeFails: bool, input: AppointmentInput): Result<Appointment>
  {
    Catch(CreateRaised(rows, nextId, owners, vets, pets, dateAccepted, storeFails, input), CreateRethrows)
  }

  /** `update` checks the date before it looks the appointment up, and never
      consults the conflict lookup. */
  function UpdateOutcome(rows: seq<Appointment>, owners: set<Id>, vets: set<Id>, pets: set<Id>,
                         dateAccepted: bool, storeFails: bool, id: Id, input: AppointmentInput): Result<Appointment>
  {
    Catch(
      if CheckDate(dateAccepted).Some? then Err(AppointmentValidation)
      else if storeFails then Err(StoreFailure)
      else if !HasKey(rows, AppointmentId, id) then Err(AppointmentNotFound)
      else if CheckReferences(owners, vets, pets, input).Some? then Err(CheckReferences(owners, vets, pets, input).value)
      else Ok(Record(id, input)),
      UpdateRethrows)
  }

  /** `updateStatus` looks the appointment up first, but tests the status
      before the lookup's answer. */
  function UpdateStatusOutcome(rows: seq<Appointment>, storeFails: bool, id: Id, status: Option<string>): Result<Appointment>
  {
    Catch(
      if storeFails then Err(StoreFailure)
      else if Falsy(status) then Err(AppointmentStatusField)
      else if !HasKey(rows, AppointmentId, id) then Err(AppointmentNotFound)
      else Ok(FindOneByID(rows, id).value.(status := ParseStatus(status))),
      UpdateStatusRethrows)
  }

  /** `getOneByID` and `delete` share this outcome; delete then removes the record. */
  function LookupOutcome(rows: seq<Appointment>, storeFails: bool, id: Id): Result<Appointment>
  {
    Catch(
      if storeFails then Err(StoreFailure)
      else if !HasKey(rows, AppointmentId, id) then Err(AppointmentNotFound)
      else Ok(FindOneByID(rows, id).value),
      LookupRethrows)
  }

  function GetAllOutcome(rows: seq<Appointment>, storeFails: bool): Result<seq<Appointment>>
  {
    Catch(if storeFails then Err(StoreFailure) else Ok(FindAll(rows)), {})
  }

  class AppointmentService {
    const repository: AppointmentStore
    const ownerIDs: set<Id>
    const vetIDs: set<Id>
    const petIDs: set<Id>
    /** validateDate(date, today), not part of this model. */
    const validateDate: (Timestamp, Timestamp) -> bool

    constructor (repository: AppointmentStore, ownerIDs: set<Id>, vetIDs: set<Id>, petIDs: set<Id>,
                 validateDate: (Timestamp, Timestamp) -> bool)
      ensures this.repository == repository && this.validateDate == validateDate
      ensures this.ownerIDs == ownerIDs && this.vetIDs == vetIDs && this.petIDs == petIDs
    {
      this.repository, this.validateDate := repository, validateDate;
      this.ownerIDs, this.vetIDs, this.petIDs := ownerIDs, vetIDs, petIDs;
    }

    method GetAll(storeFails: bool) returns (r: Result<seq<Appointment>>)
      ensures r == GetAllOutcome(repository.rows, storeFails)
    {
      var raised: Result<seq<Appointment>>;
      if storeFails {
        raised := Err(StoreFailure);
      } else {
        raised := Ok(FindAll(repository.rows));
      }
      r := Catch(raised, {});
    }

    method GetOneByID(id: Id, storeFails: bool) returns (r: Result<Appointment>)
      ensures r == LookupOutcome(repository.rows, storeFails, id)
    {
      var raised: Result<Appointment>;
      if storeFails {
        raised := Err(StoreFailure);
      } else {
        var result := FindOneByID(repository.rows, id);
        if result.None? {
          raised := Err(AppointmentNotFound);
        } else {
          raised := Ok(result.value);
        }
      }
      r := Catch(raised, LookupRethrows);
    }

    method Create(input: AppointmentInput, today: Timestamp, storeFails: bool) returns (r: Result<Appointment>)
      requires repository.Valid()
      modifies repository
      ensures repository.Valid()
      ensures r == CreateOutcome(old(repository.rows), old(repository.nextId), ownerIDs, vetIDs, petIDs,
                                 validateDate(input.date, today), storeFails, input)
      ensures repository.rows == if r.Ok? then old(repository.rows) + [r.value] else old(repository.rows)
    {
      var raised: Result<Appointment>;
      var refs := CheckReferences(ownerIDs, vetIDs, petIDs, input);
      if CheckDate(validateDate(input.date, today)).Some? {
        raised := Err(AppointmentValidation);
      } else if storeFails {
        raised := Err(StoreFailure);
      } else if refs.Some? {
        raised := Err(refs.value);
      } else {
        var validation := FindAnyByVetAndOwnerWithDateAndHour(
          repository.rows, input.vetID, input.ownerID, input.date, input.hour);
        if validation.Some? {
          raised := Err(AppointmentAlreadyExists);
        } else {
          var result := repository.Save(input);
          raised := Ok(result);
        }
      }
      r := Catch(raised, CreateRethrows);
    }

    method Update(id: Id, input: AppointmentInput, today: Timestamp, storeFails: bool) returns (r: Result<Appointment>)
      requires repository.Valid()
      modifies repository
      ensures repository.Valid()
      ensures r == UpdateOutcome(old(repository.rows), ownerIDs, vetIDs, petIDs,
                                 validateDate(input.date, today), storeFails, id, input)
      ensures repository.rows ==
                if r.Ok? then Overwrite(old(repository.rows), AppointmentId, id, (a: Appointment) => Record(id, input))
                else old(repository.rows)
    {
      var raised: Result<Appointment>;
      if CheckDate(validateDate(input.date, today)).Some? {
        raised := Err(AppointmentValidation);
      } else if storeFails {
        raised := Err(StoreFailure);
      } else {
        var validation := FindOneByID(repository.rows, id);
        var refs := CheckReferences(ownerIDs, vetIDs, petIDs, input);
        if validation.None? {
          raised := Err(AppointmentNotFound);
        } else if refs.Some? {
          raised := Err(refs.value);
        } else {
          var result := repository.Update(id, input);
          raised := if result.Some? then Ok(result.value) else Err(StoreFailure);
        }
      }
      r := Catch(raised, UpdateRethrows);
    }

    method UpdateStatus(id: Id, status: Option<string>, storeFails: bool) returns (r: Result<Appointment>)
      requires repository.Valid()
      modifies repository
      ensures repository.Valid()
      ensures r == UpdateStatusOutcome(old(repository.rows), storeFails, id, status)
      ensures repository.rows ==
                if r.Ok? then Overwrite(old(repository.rows), AppointmentId, id, (a: Appointment) => a.(status := ParseStatus(status)))
                else old(repository.rows)
    {
      var raised: Result<Appointment>;
      if storeFails {
        raised := Err(StoreFailure);
      } else {
        var validation := FindOneByID(repository.rows, id);
        if Falsy(status) {
          raised := Err(AppointmentStatusField);
        } else if validation.None? {
          raised := Err(AppointmentNotFound);
        } else {
          var result := repository.UpdateStatus(id, status.value);
          raised := if result.Some? then Ok(result.value) else Err(StoreFailure);
        }
      }
      r := Catch(raised, UpdateStatusRethrows);
    }

    method Delete(id: Id, storeFails: bool) returns (r: Result<Appointment>)
      requires repository.Valid()
      modifies repository
      ensures repository.Valid()
      ensures r == LookupOutcome(old(repository.rows), storeFails, id)
      ensures repository.rows == if r.Ok? then Remove(old(repository.rows), AppointmentId, id) else old(repository.rows)
    {
      var raised: Result<Appointment>;
      if storeFails {
        raised := Err(StoreFailure);
      } else {
        var validation := FindOneByID(repository.rows, id);
        if validation.None? {
          raised := Err(AppointmentNotFound);
        } else {
          var result := repository.Delete(id);
          raised := if result.Some? then Ok(result.value) else Err(StoreFailure);
        }
      }
      r := Catch(raised, LookupRethrows);
    }
  }

  // ---------------------------------------------------------------------
  // What the outcomes promise.

  /** `create`: the first failing check wins, in the order date, owner, vet,
      pet, slot conflict; with owner, vet and pet all missing the error is
      OwnerNotFound. */
  lemma CreateCheckOrder(rows: seq<Appointment>, nextId: Id, owners: set<Id>, vets: set<Id>, pets: set<Id>,
                         input: AppointmentInput)
    requires input.ownerID !in owners && input.vetID !in vets && input.petID !in pets
    ensures CreateOutcome(rows, nextId, owners, vets, pets, true, false, input) == Err(OwnerNotFound)
    ensures CreateOutcome(rows, nextId, owners + {input.ownerID}, vets, pets, true, false, input) == Err(VetNotFound)
    ensures CreateOutcome(rows, nextId, owners + {input.ownerID}, vets + {input.vetID}, pets, true, false, input)
              == Err(PetNotFound)
  {
  }

  /** `create` does not let AppointmentValidationError through: a date that
      validateDate rejects comes out as UnknownError, whatever else holds. */
  lemma CreateRejectedDateIsUnknown(rows: seq<Appointment>, nextId: Id, owners: set<Id>, vets: set<Id>,
                                    pets: set<Id>, storeFails: bool, input: AppointmentInput)
    ensures CreateOutcome(rows, nextId, owners, vets, pets, false, storeFails, input) == Err(Unknown)
  {
  }

  /** `create` succeeds exactly when the date is accepted, the store answers,
      the three references exist and no appointment holds the slot on either
      axis; the new record is the request under the next id. */
  lemma CreateSucceedsIff(rows: seq<Appointment>, nextId: Id, owners: set<Id>, vets: set<Id>, pets: set<Id>,
                          dateAccepted: bool, storeFails: bool, input: AppointmentInput)
    ensures CreateOutcome(rows, nextId, owners, vets, pets, dateAccepted, storeFails, input).Ok? <==>
      dateAccepted && !storeFails &&
      input.ownerID in owners && input.vetID in vets && input.petID in pets &&
      (forall a :: a in rows ==>
         !SameVetSlot(a, input.vetID, input.date, input.hour) && !SameOwnerSlot(a, input.ownerID, input.date, input.hour))
    ensures CreateOutcome(rows, nextId, owners, vets, pets, dateAccepted, storeFails, input).Ok? ==>
      CreateOutcome(rows, nextId, owners, vets, pets, dateAccepted, storeFails, input).value == Record(nextId, input)
  {
  }

  /** Any appointment already holding the slot, on the vet axis or on the
      owner axis and whatever its status, makes `create` fail with
      AppointmentAlreadyExists once the earlier checks pass. */
  lemma CreateRejectsOccupiedSlot(rows: seq<Appointment>, nextId: Id, owners: set<Id>, vets: set<Id>,
                                  pets: set<Id>, input: AppointmentInput, a: Appointment)
    requires input.ownerID in owners && input.vetID in vets && input.petID in pets
    requires a in rows
    requires SameVetSlot(a, input.vetID, input.date, input.hour) || SameOwnerSlot(a, input.ownerID, input.date, input.hour)
    ensures CreateOutcome(rows, nextId, owners, vets, pets, true, false, input) == Err(AppointmentAlreadyExists)
  {
  }

  /** A cancelled appointment still occupies its slot. */
  lemma CancelledAppointmentStillBlocks(owners: set<Id>, vets: set<Id>, pets: set<Id>, input: AppointmentInput)
    requires input.ownerID in owners && input.vetID in vets && input.petID in pets
    ensures var cancelled := Record(0, input).(status := CANCELLED);
            CreateOutcome([cancelled], 1, owners, vets, pets, true, false, input) == Err(AppointmentAlreadyExists)
  {
    var cancelled := Record(0, input).(status := CANCELLED);
    assert SameVetSlot(cancelled, input.vetID, input.date, input.hour);
  }

  /** Repeating a successful create with the same request is refused. */
  lemma RepeatedCreateRejected(rows: seq<Appointment>, nextId: Id, owners: set<Id>, vets: set<Id>, pets: set<Id>,
                               input: AppointmentInput)
    requires CreateOutcome(rows, nextId, owners, vets, pets, true, false, input).Ok?
    ensures var a := CreateOutcome(rows, nextId, owners, vets, pets, true, false, input).value;
            CreateOutcome(rows + [a], nextId + 1, owners, vets, pets, true, false, input) == Err(AppointmentAlreadyExists)
  {
    var a := CreateOutcome(rows, nextId, owners, vets, pets, true, false, input).value;
    assert a in rows + [a] && SameVetSlot(a, input.vetID, input.date, input.hour);
  }

  /** No two appointments share a vet slot or an owner slot (whatever their
      statuses, since the lookup ignores them). */
  ghost predicate NoDoubleBooking(rows: seq<Appointment>) {
    forall i, j :: 0 <= i < j < |rows| ==>
      !SameVetSlot(rows[j], rows[i].vetID, rows[i].date, rows[i].hour) &&
      !SameOwnerSlot(rows[j], rows[i].ownerID, rows[i].date, rows[i].hour)
  }

  /** `create` keeps the table free of double bookings. */
  lemma CreatePreservesNoDoubleBooking(rows: seq<Appointment>, nextId: Id, owners: set<Id>, vets: set<Id>,
                                       pets: set<Id>, dateAccepted: bool, storeFails: bool, input: AppointmentInput)
    requires NoDoubleBooking(rows)
    requires CreateOutcome(rows, nextId, owners, vets, pets, dateAccepted, storeFails, input).Ok?
    ensures NoDoubleBooking(rows + [CreateOutcome(rows, nextId, owners, vets, pets, dateAccepted, storeFails, input).value])
  {
    var a := CreateOutcome(rows, nextId, owners, vets, pets, dateAccepted, storeFails, input).value;
    var rows' := rows + [a];
    forall i, j | 0 <= i < j < |rows'|
      ensures !SameVetSlot(rows'[j], rows'[i].vetID, rows'[i].date, rows'[i].hour)
      ensures !SameOwnerSlot(rows'[j], rows'[i].ownerID, rows'[i].date, rows'[i].hour)
    {
      if j == |rows| {
        assert rows'[i] in rows;
      }
    }
  }

  /** `update` checks the date before the appointment's existence: a rejected
      date is reported as AppointmentValidation even for an unknown id. */
  lemma UpdateChecksDateFirst(rows: seq<Appointment>, owners: set<Id>, vets: set<Id>, pets: set<Id>,
                              storeFails: bool, id: Id, input: AppointmentInput)
    ensures UpdateOutcome(rows, owners, vets, pets, false, storeFails, id, input) == Err(AppointmentValidation)
  {
  }

  /** Then existence, then owner, vet and pet; anything outside its list,
      here a store failure, becomes UnknownError. */
  lemma UpdateCheckOrder(rows: seq<Appointment>, owners: set<Id>, vets: set<Id>, pets: set<Id>,
                         id: Id, input: AppointmentInput)
    ensures !HasKey(rows, AppointmentId, id) ==> UpdateOutcome(rows, owners, vets, pets, true, false, id, input) == Err(AppointmentNotFound)
    ensures HasKey(rows, AppointmentId, id) && input.ownerID !in owners ==>
      UpdateOutcome(rows, owners, vets, pets, true, false, id, input) == Err(OwnerNotFound)
    ensures UpdateOutcome(rows, owners, vets, pets, true, true, id, input) == Err(Unknown)
  {
  }

  /** `update` never consults the conflict lookup: moving an appointment into
      a slot its vet already holds succeeds and leaves a double booking. */
  lemma UpdateCanDoubleBook(owners: set<Id>, vets: set<Id>, pets: set<Id>, first: AppointmentInput, second: AppointmentInput)
    requires second.ownerID in owners && second.vetID in vets && second.petID in pets
    requires first.vetID == second.vetID && first.date == second.date && first.hour == second.hour
    ensures var rows := [Record(0, first), Record(1, first.(hour := first.hour + "x", ownerID := first.ownerID + 1))];
            NoDoubleBooking(rows) &&
            UpdateOutcome(rows, owners, vets, pets, true, false, 1, second) == Ok(Record(1, second)) &&
            !NoDoubleBooking(Overwrite(rows, AppointmentId, 1, (a: Appointment) => Record(1, second)))
  {
    var rows := [Record(0, first), Record(1, first.(hour := first.hour + "x", ownerID := first.ownerID + 1))];
    assert |first.hour + "x"| != |first.hour|;
    assert HasKey(rows, AppointmentId, 1) by { assert rows[1].id == 1; }
    var rows' := Overwrite(rows, AppointmentId, 1, (a: Appointment) => Record(1, second));
    assert rows'[0] == Record(0, first) && rows'[1] == Record(1, second);
    assert SameVetSlot(rows'[1], rows'[0].vetID, rows'[0].date, rows'[0].hour);
  }

  /** `updateStatus` tests the status before the lookup's answer: an empty or
      absent status is AppointmentStatusField even for an unknown id. */
  lemma UpdateStatusChecksStatusFirst(rows: seq<Appointment>, id: Id, status: Option<string>)
    requires Falsy(status)
    ensures UpdateStatusOutcome(rows, false, id, status) == Err(AppointmentStatusField)
  {
  }

  /** No transition is forbidden: from whatever status the record has, any
      new status can be written, and only the status changes. */
  lemma UpdateStatusAnyTransition(rows: seq<Appointment>, id: Id, target: AppointmentStatus)
    requires HasKey(rows, AppointmentId, id)
    ensures UpdateStatusOutcome(rows, false, id, Some(StatusName(target))) ==
              Ok(FindOneByID(rows, id).value.(status := target))
  {
    StatusNameRoundTrip(target);
  }

  /** An unrecognised status is stored as SCHEDULED. */
  lemma UpdateStatusBogusIsScheduled(rows: seq<Appointment>, id: Id)
    requires HasKey(rows, AppointmentId, id)
    ensures UpdateStatusOutcome(rows, false, id, Some("bogus")) == Ok(FindOneByID(rows, id).value.(status := SCHEDULED))
  {
    CoercionExamples();
  }

  /** `getOneByID` and `delete` report a missing id as AppointmentNotFound,
      never as UnknownError (which only a store failure produces); `getAll`
      fails exactly when the store does. */
  lemma LookupErrors(rows: seq<Appointment>, id: Id, storeFails: bool)
    ensures LookupOutcome(rows, storeFails, id).Ok? <==> !storeFails && HasKey(rows, AppointmentId, id)
    ensures !storeFails && !HasKey(rows, AppointmentId, id) ==> LookupOutcome(rows, storeFails, id) == Err(AppointmentNotFound)
    ensures LookupOutcome(rows, storeFails, id) == Err(Unknown) <==> storeFails
    ensures GetAllOutcome(rows, storeFails) == if storeFails then Err(Unknown) else Ok(rows)
  {
  }
}
