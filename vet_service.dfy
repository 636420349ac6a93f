/** VetService: vet accounts, guarded by the password hash and the
    uniqueness check against the user table. No schema validation runs.
    `hash` stands for bcrypt. */
module VetService {
  import opened Errors
  import opened ParseEnums
  import opened Tables
  import opened UserRepository
  import opened VetRepository
  import opened AccountChecks

  const CreateRethrows: set<ErrorKind> :=
    {UserPasswordField(405), OwnerAlreadyExists, VetAlreadyExists, UserAlreadyExists, VetNotFound}
  const UpdateRethrows: set<ErrorKind> := {UserPasswordField(405), VetNotFound}
  const LookupRethrows: set<ErrorKind> := {VetNotFound}

  function Hashed(input: VetInput, hash: string -> string): VetInput
    requires HashPassword(input.password, hash).Ok?
  {
    input.(password := Some(HashPassword(input.password, hash).value))
  }

  function GetAllOutcome(rows: seq<Vet>, storeFails: bool): Result<seq<Vet>> {
    Catch(if storeFails then Err(StoreFailure) else Ok(VetRepository.FindAll(rows)), {})
  }

  function LookupOutcome(rows: seq<Vet>, storeFails: bool, id: Id): Result<Vet> {
    Catch(
      if storeFails then Err(StoreFailure)
      else if !HasKey(rows, VetId, id) then Err(VetNotFound)
      else Ok(VetRepository.FindOneByID(rows, id).value),
      LookupRethrows)
  }

  /** `create`: the password first, then the user-table check, then save,
      whose falsy answer (a hash that is empty) becomes UnknownError, as
      does its raise on a vet already holding the email or username. */
  function CreateOutcome(rows: seq<Vet>, nextId: Id, users: seq<User>, hash: string -> string,
                         storeFails: bool, input: VetInput): Result<Vet>
  {
    Catch(
      if HashPassword(input.password, hash).Err? then Err(HashPassword(input.password, hash).error)
      else if storeFails then Err(StoreFailure)
      else if CheckLinkedUser(FindOneByEmailOrUsername(users, input.email, input.username)).Some? then
        Err(CheckLinkedUser(FindOneByEmailOrUsername(users, input.email, input.username)).value)
      else if Falsy(Hashed(input, hash).password) then Err(Unknown)
      else if Held(rows, VetEmail, input.email) || Held(rows, VetUsername, input.username) then Err(StoreFailure)
      else Ok(Stripped(SavedVet(nextId, Hashed(input, hash)))),
      CreateRethrows)
  }

  /** The body `update` writes: hashed when a password is given. */
  function UpdateBody(input: VetInput, hash: string -> string): VetInput {
    if Falsy(input.password) then input else Hashed(input, hash)
  }

  /** `update`: existence first, then the hash when a password is given,
      then the write, which raises when another vet holds the email or the
      username. */
  function UpdateOutcome(rows: seq<Vet>, hash: string -> string, storeFails: bool, input: VetInput): Result<Vet> {
    Catch(
      if storeFails then Err(StoreFailure)
      else if !HasKey(rows, VetId, input.id) then Err(VetNotFound)
      else if VetRepository.ColumnsHeldByOther(rows, input.id, input.email, input.username) then Err(StoreFailure)
      else Ok(Stripped(UpdatedVet(Lookup(rows, VetId, input.id).value, UpdateBody(input, hash)))),
      UpdateRethrows)
  }

  class VetService {
    const repository: VetStore
    const userRepository: UserStore
    const hash: string -> string

    constructor (repository: VetStore, userRepository: UserStore, hash: string -> string)
      ensures this.repository == repository && this.userRepository == userRepository && this.hash == hash
    {
      this.repository, this.userRepository, this.hash := repository, userRepository, hash;
    }

    method GetAll(storeFails: bool) returns (r: Result<seq<Vet>>)
      ensures r == GetAllOutcome(repository.rows, storeFails)
    {
      var raised: Result<seq<Vet>> := if storeFails then Err(StoreFailure) else Ok(VetRepository.FindAll(repository.rows));
      r := Catch(raised, {});
    }

    method GetOneByID(id: Id, storeFails: bool) returns (r: Result<Vet>)
      ensures r == LookupOutcome(repository.rows, storeFails, id)
    {
      var raised: Result<Vet>;
      if storeFails {
        raised := Err(StoreFailure);
      } else {
        var result := VetRepository.FindOneByID(repository.rows, id);
        raised := if result.None? then Err(VetNotFound) else Ok(result.value);
      }
      r := Catch(raised, LookupRethrows);
    }

    method Create(input: VetInput, storeFails: bool) returns (r: Result<Vet>)
      requires repository.Valid()
      modifies repository
      ensures repository.Valid()
      ensures r == CreateOutcome(old(repository.rows), old(repository.nextId), userRepository.rows, hash, storeFails, input)
      ensures repository.rows ==
                if r.Ok? then old(repository.rows) + [SavedVet(old(repository.nextId), Hashed(input, hash))]
                else old(repository.rows)
    {
      var raised: Result<Vet>;
      var hashed := HashPassword(input.password, hash);
      if hashed.Err? {
        raised := Err(hashed.error);
      } else if storeFails {
        raised := Err(StoreFailure);
      } else {
        var taken := CheckLinkedUser(FindOneByEmailOrUsername(userRepository.rows, input.email, input.username));
        if taken.Some? {
          raised := Err(taken.value);
        } else {
          var result := repository.Save(input.(password := Some(hashed.value)));
          raised := if result.Err? then Err(result.error)
                    else if result.value.None? then Err(Unknown)
                    else Ok(result.value.value);
        }
      }
      r := Catch(raised, CreateRethrows);
    }

    method Update(input: VetInput, storeFails: bool) returns (r: Result<Vet>)
      requires repository.Valid()
      modifies repository
      ensures repository.Valid()
      ensures r == UpdateOutcome(old(repository.rows), hash, storeFails, input)
      ensures repository.rows ==
                if r.Ok? then Overwrite(old(repository.rows), VetId, input.id,
                                        (v: Vet) => UpdatedVet(v, UpdateBody(input, hash)))
                else old(repository.rows)
    {
      var raised: Result<Vet>;
      if storeFails {
        raised := Err(StoreFailure);
      } else {
        var validation := VetRepository.FindOneByID(repository.rows, input.id);
        if validation.None? {
          raised := Err(VetNotFound);
        } else {
          var vet := input;
          if !Falsy(input.password) {
            vet := Hashed(input, hash);
          }
          var result := repository.Update(vet.id, vet);
          raised := if result.Some? then Ok(result.value) else Err(StoreFailure);
        }
      }
      r := Catch(raised, UpdateRethrows);
    }

    method Delete(id: Id, storeFails: bool) returns (r: Result<Vet>)
      requires repository.Valid()
      modifies repository
      ensures repository.Valid()
      ensures r == LookupOutcome(old(repository.rows), storeFails, id)
      ensures repository.rows == if r.Ok? then Remove(old(repository.rows), VetId, id) else old(repository.rows)
    {
      var raised: Result<Vet>;
      if storeFails {
        raised := Err(StoreFailure);
      } else {
        var validation := VetRepository.FindOneByID(repository.rows, id);
        if validation.None? {
          raised := Err(VetNotFound);
        } else {
          var result := repository.Delete(id);
          raised := if result.Some? then Ok(result.value) else Err(StoreFailure);
        }
      }
      r := Catch(raised, LookupRethrows);
    }
  }

  // ---------------------------------------------------------------------
  // What the outcomes promise.

  /** `create` hashes first: a missing password is reported even when the
      email is taken, and no schema check precedes it. */
  lemma CreateChecksPasswordFirst(rows: seq<Vet>, nextId: Id, users: seq<User>, hash: string -> string,
                                  storeFails: bool, input: VetInput)
    requires Falsy(input.password)
    ensures CreateOutcome(rows, nextId, users, hash, storeFails, input) == Err(UserPasswordField(405))
  {
  }

  /** `create` succeeds exactly when the password is present, its hash is
      non-empty and no user holds the email or the username. */
  lemma CreateSucceedsIff(rows: seq<Vet>, nextId: Id, users: seq<User>, hash: string -> string, input: VetInput)
    ensures CreateOutcome(rows, nextId, users, hash, false, input).Ok? <==>
      !Falsy(input.password) && hash(input.password.value) != "" &&
      (forall u :: u in users ==> u.email != input.email && u.username != input.username) &&
      (forall v :: v in rows ==> v.email != input.email && v.username != input.username)
    ensures CreateOutcome(rows, nextId, users, hash, false, input).Ok? ==>
      CreateOutcome(rows, nextId, users, hash, false, input).value.password.None?
  {
  }

  /** `update` checks existence before it looks at the password, and keeps
      the stored password when none is given. */
  lemma UpdateOrderAndPassword(rows: seq<Vet>, hash: string -> string, input: VetInput)
    ensures !HasKey(rows, VetId, input.id) ==> UpdateOutcome(rows, hash, false, input) == Err(VetNotFound)
    ensures HasKey(rows, VetId, input.id) && Falsy(input.password) ==>
              UpdatedVet(Lookup(rows, VetId, input.id).value, UpdateBody(input, hash)).password ==
              Lookup(rows, VetId, input.id).value.password
    ensures HasKey(rows, VetId, input.id) && !Falsy(input.password) && hash(input.password.value) != "" ==>
              UpdatedVet(Lookup(rows, VetId, input.id).value, UpdateBody(input, hash)).password ==
              Some(hash(input.password.value))
  {
  }

  /** `update` to an email or username another vet holds fails on the
      unique column: UnknownError (500). */
  lemma UpdateToHeldColumnIsUnknown(rows: seq<Vet>, hash: string -> string, input: VetInput, other: Vet)
    requires HasKey(rows, VetId, input.id)
    requires other in rows && other.id != input.id
    requires other.email == input.email || other.username == input.username
    ensures UpdateOutcome(rows, hash, false, input) == Err(Unknown)
  {
    var k :| 0 <= k < |rows| && rows[k] == other;
    assert VetEmail(rows[k]) == input.email || VetUsername(rows[k]) == input.username;
  }

  /** getOneByID and delete report a missing id as VetNotFound (404); no
      vet leaves the service with a password. */
  lemma LookupErrors(rows: seq<Vet>, storeFails: bool, id: Id)
    ensures !storeFails && !HasKey(rows, VetId, id) ==> LookupOutcome(rows, storeFails, id) == Err(VetNotFound)
    ensures LookupOutcome(rows, storeFails, id).Ok? ==> LookupOutcome(rows, storeFails, id).value.password.None?
    ensures GetAllOutcome(rows, storeFails).Ok? ==>
              forall v :: v in GetAllOutcome(rows, storeFails).value ==> v.password.None?
  {
  }
}
