/** PetService: the owner check and the duplicate check that guard writes to
    the pet table. Owner existence (`existsOwnerID` of the owner repository)
    is membership in `ownerIDs`. */
module PetService {
  import opened Errors
  import opened ParseEnums
  import opened Tables
  import opened PetRepository

  const CreateRethrows: set<ErrorKind> := {OwnerNotFound, PetAlreadyExists}
  const UpdateRethrows: set<ErrorKind> := {OwnerNotFound, PetNotFound}
  const LookupRethrows: set<ErrorKind> := {PetNotFound}

  /** _checkOwner. */
  function CheckOwner(ownerIDs: set<Id>, ownerID: Id): (e: Option<ErrorKind>)
    ensures e.None? <==> ownerID in ownerIDs
    ensures e.Some? ==> e.value == OwnerNotFound && Status(e.value) == 404
  {
    if ownerID in ownerIDs then None else Some(OwnerNotFound)
  }

  function GetAllOutcome(rows: seq<Pet>, storeFails: bool): Result<seq<Pet>> {
    Catch(if storeFails then Err(StoreFailure) else Ok(rows), {})
  }

  function LookupOutcome(rows: seq<Pet>, storeFails: bool, id: Id): Result<Pet> {
    Catch(
      if storeFails then Err(StoreFailure)
      else if !HasKey(rows, PetId, id) then Err(PetNotFound)
      else Ok(Lookup(rows, PetId, id).value),
      LookupRethrows)
  }

  /** `create`: the owner first, then the duplicate check, then save. */
  function CreateOutcome(rows: seq<Pet>, nextId: Id, ownerIDs: set<Id>, storeFails: bool, input: PetInput): Result<Pet> {
    Catch(
      if storeFails then Err(StoreFailure)
      else if CheckOwner(ownerIDs, input.ownerID).Some? then Err(OwnerNotFound)
      else if FindOneByOwnerWithNameAndType(rows, input.ownerID, input.name, input.petType).Some? then
        Err(PetAlreadyExists)
      else Ok(SavedPet(nextId, input)),
      CreateRethrows)
  }

  /** `update`: the pet first, then the owner, then the write, which the
      database refuses for a type text that is not an exact enum name. */
  function UpdateOutcome(rows: seq<Pet>, ownerIDs: set<Id>, storeFails: bool, input: PetInput): Result<Pet> {
    Catch(
      if storeFails then Err(StoreFailure)
      else if !HasKey(rows, PetId, input.id) then Err(PetNotFound)
      else if CheckOwner(ownerIDs, input.ownerID).Some? then Err(OwnerNotFound)
      else if !TypeWritable(input.petType) then Err(StoreFailure)
      else Ok(UpdatedPet(Lookup(rows, PetId, input.id).value, input)),
      UpdateRethrows)
  }

  class PetService {
    const repository: PetStore
    const ownerIDs: set<Id>

    constructor (repository: PetStore, ownerIDs: set<Id>)
      ensures this.repository == repository && this.ownerIDs == ownerIDs
    {
      this.repository, this.ownerIDs := repository, ownerIDs;
    }

    method GetAll(storeFails: bool) returns (r: Result<seq<Pet>>)
      ensures r == GetAllOutcome(repository.rows, storeFails)
    {
      var raised: Result<seq<Pet>> := if storeFails then Err(StoreFailure) else Ok(repository.rows);
      r := Catch(raised, {});
    }

    method GetOneByID(id: Id, storeFails: bool) returns (r: Result<Pet>)
      ensures r == LookupOutcome(repository.rows, storeFails, id)
    {
      var raised: Result<Pet>;
      if storeFails {
        raised := Err(StoreFailure);
      } else {
        var result := Lookup(repository.rows, PetId, id);
        raised := if result.None? then Err(PetNotFound) else Ok(result.value);
      }
      r := Catch(raised, LookupRethrows);
    }

    method Create(input: PetInput, storeFails: bool) returns (r: Result<Pet>)
      requires repository.Valid()
      modifies repository
      ensures repository.Valid()
      ensures r == CreateOutcome(old(repository.rows), old(repository.nextId), ownerIDs, storeFails, input)
      ensures repository.rows == if r.Ok? then old(repository.rows) + [r.value] else old(repository.rows)
    {
      var raised: Result<Pet>;
      if storeFails {
        raised := Err(StoreFailure);
      } else if CheckOwner(ownerIDs, input.ownerID).Some? {
        raised := Err(OwnerNotFound);
      } else {
        var validation := FindOneByOwnerWithNameAndType(repository.rows, input.ownerID, input.name, input.petType);
        if validation.Some? {
          raised := Err(PetAlreadyExists);
        } else {
          var result := repository.Save(input);
          raised := Ok(result);
        }
      }
      r := Catch(raised, CreateRethrows);
    }

    method Update(input: PetInput, storeFails: bool) returns (r: Result<Pet>)
      requires repository.Valid()
      modifies repository
      ensures repository.Valid()
      ensures r == UpdateOutcome(old(repository.rows), ownerIDs, storeFails, input)
      ensures repository.rows ==
                if r.Ok? then Overwrite(old(repository.rows), PetId, input.id, (p: Pet) => UpdatedPet(p, input))
                else old(repository.rows)
    {
      var raised: Result<Pet>;
      if storeFails {
        raised := Err(StoreFailure);
      } else {
        var validation := Lookup(repository.rows, PetId, input.id);
        if validation.None? {
          raised := Err(PetNotFound);
        } else if CheckOwner(ownerIDs, input.ownerID).Some? {
          raised := Err(OwnerNotFound);
        } else {
          var result := repository.Update(input.id, input);
          raised := if result.Some? then Ok(result.value) else Err(StoreFailure);
        }
      }
      r := Catch(raised, UpdateRethrows);
    }

    method Delete(id: Id, storeFails: bool) returns (r: Result<Pet>)
      requires repository.Valid()
      modifies repository
      ensures repository.Valid()
      ensures r == LookupOutcome(old(repository.rows), storeFails, id)
      ensures repository.rows == if r.Ok? then Remove(old(repository.rows), PetId, id) else old(repository.rows)
    {
      var raised: Result<Pet>;
      if storeFails {
        raised := Err(StoreFailure);
      } else {
        var validation := Lookup(repository.rows, PetId, id);
        if validation.None? {
          raised := Err(PetNotFound);
        } else {
          var result := repository.Delete(id);
          raised := if result.Some? then Ok(result.value) else Err(StoreFailure);
        }
      }
      r := Catch(raised, LookupRethrows);
    }
  }

  // ---------------------------------------------------------------------
  // What the outcomes promise.

  /** `create` checks the owner before the duplicate: an unknown owner is
      OwnerNotFound even when the same pet is already stored under that id. */
  lemma CreateChecksOwnerFirst(rows: seq<Pet>, nextId: Id, ownerIDs: set<Id>, input: PetInput)
    requires input.ownerID !in ownerIDs
    ensures CreateOutcome(rows, nextId, ownerIDs, false, input) == Err(OwnerNotFound)
  {
  }

  /** `create` succeeds exactly when the owner exists and no pet of that owner
      has the same name and coerced type; the saved pet is the request with
      its type coerced. */
  lemma CreateSucceedsIff(rows: seq<Pet>, nextId: Id, ownerIDs: set<Id>, input: PetInput)
    ensures CreateOutcome(rows, nextId, ownerIDs, false, input).Ok? <==>
      input.ownerID in ownerIDs &&
      forall p :: p in rows ==> !SameOwnerNameAndType(p, input.ownerID, input.name, input.petType)
    ensures CreateOutcome(rows, nextId, ownerIDs, false, input).Ok? ==>
      CreateOutcome(rows, nextId, ownerIDs, false, input).value == SavedPet(nextId, input)
  {
  }

  /** A pet saved as "dog" blocks a later create of the same name as "DOG". */
  lemma DuplicateIgnoresTypeCase(ownerIDs: set<Id>, input: PetInput)
    requires input.ownerID in ownerIDs && input.petType == Some("dog")
    ensures var stored := SavedPet(0, input);
            CreateOutcome([stored], 1, ownerIDs, false, input.(petType := Some("DOG"))) == Err(PetAlreadyExists)
  {
    CoercionIgnoresCase("dog");
    assert Upper("dog") == "DOG";
    var stored := SavedPet(0, input);
    assert SameOwnerNameAndType(stored, input.ownerID, input.name, Some("DOG"));
  }

  /** `update` checks the pet before the owner. */
  lemma UpdateChecksPetFirst(rows: seq<Pet>, ownerIDs: set<Id>, input: PetInput)
    requires !HasKey(rows, PetId, input.id) && input.ownerID !in ownerIDs
    ensures UpdateOutcome(rows, ownerIDs, false, input) == Err(PetNotFound)
  {
  }

  /** A lower-case type that `create` accepts makes `update` fail with
      UnknownError. */
  lemma UpdateRejectsCoercibleType(rows: seq<Pet>, ownerIDs: set<Id>, input: PetInput)
    requires HasKey(rows, PetId, input.id) && input.ownerID in ownerIDs && input.petType == Some("dog")
    ensures UpdateOutcome(rows, ownerIDs, false, input) == Err(Unknown)
  {
    SaveAndUpdateDisagreeOnType();
  }

  /** With an exact type name the update rewrites every data field. */
  lemma UpdateWithExactType(rows: seq<Pet>, ownerIDs: set<Id>, input: PetInput, t: PetType)
    requires HasKey(rows, PetId, input.id) && input.ownerID in ownerIDs && input.petType == Some(PetTypeName(t))
    ensures UpdateOutcome(rows, ownerIDs, false, input) ==
              Ok(Pet(input.id, input.name, input.breed, input.color, input.age, input.weight, t, input.ownerID))
  {
    SaveAndUpdateDisagreeOnType();
  }

  /** getOneByID and delete report a missing id as PetNotFound (404), and
      report UnknownError exactly when the store fails. */
  lemma LookupErrors(rows: seq<Pet>, storeFails: bool, id: Id)
    ensures !storeFails && !HasKey(rows, PetId, id) ==> LookupOutcome(rows, storeFails, id) == Err(PetNotFound)
    ensures LookupOutcome(rows, storeFails, id) == Err(Unknown) <==> storeFails
    ensures GetAllOutcome(rows, storeFails).Err? <==> storeFails
  {
  }
}
