/** OwnerService: owner accounts, guarded by the schema, the password hash
    and the uniqueness check against the user table. `schemaValid` stands
    for schemaOwnerValidation (a Joi schema, not modelled), whose validated
    value is taken to be its input; `hash` stands for bcrypt. */
module OwnerService {
  import opened Errors
  import opened ParseEnums
  import opened Tables
  import opened UserRepository
  import opened OwnerRepository
  import opened AccountChecks

  const CreateRethrows: set<ErrorKind> :=
    {OwnerValidation, UserPasswordField(405), OwnerAlreadyExists, VetAlreadyExists, UserAlreadyExists, OwnerNotFound}
  const UpdateRethrows: set<ErrorKind> := {OwnerValidation, UserPasswordField(405), OwnerNotFound}
  const LookupRethrows: set<ErrorKind> := {OwnerNotFound}

  /** The request with its password replaced by the hash, once _hashPassword
      has accepted it. */
  function Hashed(input: OwnerInput, hash: string -> string): OwnerInput
    requires HashPassword(input.password, hash).Ok?
  {
    input.(password := Some(HashPassword(input.password, hash).value))
  }

  function GetAllOutcome(rows: seq<Owner>, storeFails: bool): Result<seq<Owner>> {
    Catch(if storeFails then Err(StoreFailure) else Ok(rows), {})
  }

  function LookupOutcome(rows: seq<Owner>, storeFails: bool, id: Id): Result<Owner> {
    Catch(
      if storeFails then Err(StoreFailure)
      else if !HasKey(rows, OwnerId, id) then Err(OwnerNotFound)
      else Ok(Lookup(rows, OwnerId, id).value),
      LookupRethrows)
  }

  /** `create`: schema, then password, then the user-table check, then save,
      which raises when an owner already holds the email: the user-table
      check does not see owners that have no user row. */
  function CreateOutcome(rows: seq<Owner>, nextId: Id, users: seq<User>, schemaValid: bool,
                         hash: string -> string, storeFails: bool, input: OwnerInput): Result<Owner>
  {
    Catch(
      if !schemaValid then Err(OwnerValidation)
      else if HashPassword(input.password, hash).Err? then Err(HashPassword(input.password, hash).error)
      else if storeFails then Err(StoreFailure)
      else if CheckLinkedUser(FindOneByEmailOrUsername(users, input.email, input.username)).Some? then
        Err(CheckLinkedUser(FindOneByEmailOrUsername(users, input.email, input.username)).value)
      else if Held(rows, OwnerEmail, input.email) then Err(StoreFailure)
      else Ok(SavedOwner(nextId, Hashed(input, hash))),
      CreateRethrows)
  }

  /** `update`: schema, then existence, then the write, which raises when
      another owner holds the email; the password is hashed when one is
      given, but the repository does not write it. */
  function UpdateOutcome(rows: seq<Owner>, schemaValid: bool, storeFails: bool, input: OwnerInput): Result<Owner> {
    Catch(
      if !schemaValid then Err(OwnerValidation)
      else if storeFails then Err(StoreFailure)
      else if !HasKey(rows, OwnerId, input.id) then Err(OwnerNotFound)
      else if HeldByOther(rows, OwnerId, OwnerEmail, input.id, input.email) then Err(StoreFailure)
      else Ok(UpdatedOwner(Lookup(rows, OwnerId, input.id).value, input)),
      UpdateRethrows)
  }

  class OwnerService {
    const repository: OwnerStore
    const userRepository: UserStore
    const schemaValid: OwnerInput -> bool
    const hash: string -> string

    constructor (repository: OwnerStore, userRepository: UserStore, schemaValid: OwnerInput -> bool,
                 hash: string -> string)
      ensures this.repository == repository && this.userRepository == userRepository
      ensures this.schemaValid == schemaValid && this.hash == hash
    {
      this.repository, this.userRepository := repository, userRepository;
      this.schemaValid, this.hash := schemaValid, hash;
    }

    method GetAll(storeFails: bool) returns (r: Result<seq<Owner>>)
      ensures r == GetAllOutcome(repository.rows, storeFails)
    {
      var raised: Result<seq<Owner>> := if storeFails then Err(StoreFailure) else Ok(repository.rows);
      r := Catch(raised, {});
    }

    method GetOneByID(id: Id, storeFails: bool) returns (r: Result<Owner>)
      ensures r == LookupOutcome(repository.rows, storeFails, id)
    {
      var raised: Result<Owner>;
      if storeFails {
        raised := Err(StoreFailure);
      } else {
        var result := Lookup(repository.rows, OwnerId, id);
        raised := if result.None? then Err(OwnerNotFound) else Ok(result.value);
      }
      r := Catch(raised, LookupRethrows);
    }

    method Create(input: OwnerInput, storeFails: bool) returns (r: Result<Owner>)
      requires repository.Valid()
      modifies repository
      ensures repository.Valid()
      ensures r == CreateOutcome(old(repository.rows), old(repository.nextId), userRepository.rows,
                                 schemaValid(input), hash, storeFails, input)
      ensures repository.rows == if r.Ok? then old(repository.rows) + [r.value] else old(repository.rows)
    {
      var raised: Result<Owner>;
      if !schemaValid(input) {
        raised := Err(OwnerValidation);
      } else {
        var hashed := HashPassword(input.password, hash);
        if hashed.Err? {
          raised := Err(hashed.error);
        } else if storeFails {
          raised := Err(StoreFailure);
        } else {
          var taken := CheckLinkedUser(FindOneByEmailOrUsername(userRepository.rows, input.email, input.username));
          if taken.Some? {
            raised := Err(taken.value);
          } else {
            var result := repository.Save(input.(password := Some(hashed.value)));
            raised := if result.Some? then Ok(result.value) else Err(StoreFailure);
          }
        }
      }
      r := Catch(raised, CreateRethrows);
    }

    method Update(input: OwnerInput, storeFails: bool) returns (r: Result<Owner>)
      requires repository.Valid()
      modifies repository
      ensures repository.Valid()
      ensures r == UpdateOutcome(old(repository.rows), schemaValid(input), storeFails, input)
      ensures repository.rows ==
                if r.Ok? then Overwrite(old(repository.rows), OwnerId, input.id, (o: Owner) => UpdatedOwner(o, input))
                else old(repository.rows)
    {
      var raised: Result<Owner>;
      if !schemaValid(input) {
        raised := Err(OwnerValidation);
      } else if storeFails {
        raised := Err(StoreFailure);
      } else {
        var validation := Lookup(repository.rows, OwnerId, input.id);
        if validation.None? {
          raised := Err(OwnerNotFound);
        } else {
          var owner := input;
          if !Falsy(input.password) {
            owner := Hashed(input, hash);
          }
          var result := repository.Update(owner.id, owner);
          raised := if result.Some? then Ok(result.value) else Err(StoreFailure);
        }
      }
      r := Catch(raised, UpdateRethrows);
    }

    method Delete(id: Id, storeFails: bool) returns (r: Result<Owner>)
      requires repository.Valid()
      modifies repository
      ensures repository.Valid()
      ensures r == LookupOutcome(old(repository.rows), storeFails, id)
      ensures repository.rows == if r.Ok? then Remove(old(repository.rows), OwnerId, id) else old(repository.rows)
    {
      var raised: Result<Owner>;
      if storeFails {
        raised := Err(StoreFailure);
      } else {
        var validation := Lookup(repository.rows, OwnerId, id);
        if validation.None? {
          raised := Err(OwnerNotFound);
        } else {
          var result := repository.Delete(id);
          raised := if result.Some? then Ok(result.value) else Err(StoreFailure);
        }
      }
      r := Catch(raised, LookupRethrows);
    }
  }

  // ---------------------------------------------------------------------
  // What the outcomes promise.

  /** `create` runs the schema, then the password, then the user check: a
      missing password beats an already-exists error. */
  lemma CreateCheckOrder(rows: seq<Owner>, nextId: Id, users: seq<User>, hash: string -> string, input: OwnerInput)
    ensures CreateOutcome(rows, nextId, users, false, hash, false, input) == Err(OwnerValidation)
    ensures Falsy(input.password) ==> CreateOutcome(rows, nextId, users, true, hash, false, input) == Err(UserPasswordField(405))
  {
  }

  /** A user found by email or username rejects `create` with the class its
      links decide; each is a 409. */
  lemma CreateRejectsTakenAccount(rows: seq<Owner>, nextId: Id, users: seq<User>, hash: string -> string,
                                  input: OwnerInput)
    requires !Falsy(input.password)
    ensures var found := FindOneByEmailOrUsername(users, input.email, input.username);
            found.Some? ==>
              CreateOutcome(rows, nextId, users, true, hash, false, input) == Err(CheckLinkedUser(found).value) &&
              Status(CreateOutcome(rows, nextId, users, true, hash, false, input).error) == 409
  {
  }

  /** A successful `create` stores the hash, never the clear password, and
      no user and no owner held its email. */
  lemma CreateStoresHash(rows: seq<Owner>, nextId: Id, users: seq<User>, hash: string -> string, input: OwnerInput)
    requires CreateOutcome(rows, nextId, users, true, hash, false, input).Ok?
    ensures CreateOutcome(rows, nextId, users, true, hash, false, input).value.password == Some(hash(input.password.value))
    ensures forall u :: u in users ==> u.email != input.email && u.username != input.username
    ensures forall o :: o in rows ==> o.email != input.email
  {
  }

  /** `update` requires the owner to exist, and leaves its password as it
      was even when a new one is given. */
  lemma UpdateKeepsPassword(rows: seq<Owner>, input: OwnerInput)
    ensures !HasKey(rows, OwnerId, input.id) ==> UpdateOutcome(rows, true, false, input) == Err(OwnerNotFound)
    ensures HasKey(rows, OwnerId, input.id) && !HeldByOther(rows, OwnerId, OwnerEmail, input.id, input.email) ==>
              UpdateOutcome(rows, true, false, input).Ok? &&
              UpdateOutcome(rows, true, false, input).value.password == Lookup(rows, OwnerId, input.id).value.password
  {
  }

  /** Creating an owner whose email another owner holds, with no user row
      in the way, fails on the unique column: the catch makes it
      UnknownError (500). So does repeating a successful create. */
  lemma CreateTakenOwnerEmailIsUnknown(rows: seq<Owner>, nextId: Id, users: seq<User>, hash: string -> string,
                                       input: OwnerInput)
    requires !Falsy(input.password)
    requires forall u :: u in users ==> u.email != input.email && u.username != input.username
    ensures Held(rows, OwnerEmail, input.email) ==> CreateOutcome(rows, nextId, users, true, hash, false, input) == Err(Unknown)
    ensures CreateOutcome(rows, nextId, users, true, hash, false, input).Ok? ==>
              var saved := CreateOutcome(rows, nextId, users, true, hash, false, input).value;
              CreateOutcome(rows + [saved], nextId + 1, users, true, hash, false, input) == Err(Unknown)
  {
    var saved := SavedOwner(nextId, Hashed(input, hash));
    assert (rows + [saved])[|rows|] == saved;
  }

  /** `update` to an email another owner holds fails on the unique column:
      UnknownError (500), even when the owner exists. */
  lemma UpdateToHeldEmailIsUnknown(rows: seq<Owner>, input: OwnerInput)
    requires HasKey(rows, OwnerId, input.id) && HeldByOther(rows, OwnerId, OwnerEmail, input.id, input.email)
    ensures UpdateOutcome(rows, true, false, input) == Err(Unknown)
  {
  }

  /** getOneByID and delete report a missing id as OwnerNotFound (404). */
  lemma LookupErrors(rows: seq<Owner>, storeFails: bool, id: Id)
    ensures !storeFails && !HasKey(rows, OwnerId, id) ==> LookupOutcome(rows, storeFails, id) == Err(OwnerNotFound)
    ensures LookupOutcome(rows, storeFails, id) == Err(Unknown) <==> storeFails
  {
  }
}
