/** UserService: account CRUD over the user table. Every user it returns has
    its password removed. `schemaValid` stands for schemaUserValidation (a
    Joi schema, not modelled) and `hash` for bcrypt. */
module UserService {
  import opened Errors
  import opened ParseEnums
  import opened Tables
  import opened UserRepository
  import opened AccountChecks

  const CreateRethrows: set<ErrorKind> :=
    {UserValidation, UserPasswordField(405), UserPasswordField(500), UserAlreadyExists}
  const UpdateRethrows: set<ErrorKind> := {UserValidation, UserNotFound}
  const LookupRethrows: set<ErrorKind> := {UserNotFound}

  /** The users of `rows`, in order, each without its password. */
  function WithoutPasswords(rows: seq<User>): (r: seq<User>)
    ensures |r| == |rows|
    ensures forall k :: 0 <= k < |rows| ==> r[k] == WithoutPassword(rows[k])
  {
    seq(|rows|, k requires 0 <= k < |rows| => WithoutPassword(rows[k]))
  }

  function GetAllOutcome(rows: seq<User>, storeFails: bool): Result<seq<User>> {
    Catch(if storeFails then Err(StoreFailure) else Ok(WithoutPasswords(rows)), {})
  }

  /** `getOneByID` and `delete` answer with the stripped record. */
  function LookupOutcome(rows: seq<User>, storeFails: bool, id: Id): Result<User> {
    Catch(
      if storeFails then Err(StoreFailure)
      else if !HasKey(rows, UserId, id) then Err(UserNotFound)
      else Ok(WithoutPassword(Lookup(rows, UserId, id).value)),
      LookupRethrows)
  }

  /** `create`: schema, then hashing, then the uniqueness check, then save;
      a falsy save is UserPasswordFieldError with status 500. */
  function CreateOutcome(rows: seq<User>, nextId: Id, schemaValid: bool, hash: string -> string,
                         storeFails: bool, input: UserInput): Result<User>
  {
    Catch(
      if !schemaValid then Err(UserValidation)
      else if HashPassword(input.password, hash).Err? then Err(HashPassword(input.password, hash).error)
      else if storeFails then Err(StoreFailure)
      else if CheckAnyUser(FindOneByEmailOrUsername(rows, input.email, input.username)).Some? then
        Err(UserAlreadyExists)
      else if hash(input.password.value) == "" then Err(UserPasswordField(500))
      else Ok(WithoutPassword(SavedUser(nextId, input.(password := Some(hash(input.password.value)))))),
      CreateRethrows)
  }

  /** `update` writes the caller's password as given: it never hashes. The
      write raises when another user holds the email or the username. */
  function UpdateOutcome(rows: seq<User>, schemaValid: bool, storeFails: bool, input: UserInput): Result<User> {
    Catch(
      if !schemaValid then Err(UserValidation)
      else if storeFails then Err(StoreFailure)
      else if !HasKey(rows, UserId, input.id) then Err(UserNotFound)
      else if ColumnsHeldByOther(rows, input.id, input.email, input.username) then Err(StoreFailure)
      else Ok(WithoutPassword(UpdatedUser(Lookup(rows, UserId, input.id).value, input))),
      UpdateRethrows)
  }

  class UserService {
    const repository: UserStore
    const schemaValid: UserInput -> bool
    const hash: string -> string

    constructor (repository: UserStore, schemaValid: UserInput -> bool, hash: string -> string)
      ensures this.repository == repository && this.schemaValid == schemaValid && this.hash == hash
    {
      this.repository, this.schemaValid, this.hash := repository, schemaValid, hash;
    }

    /** getAll: the password is deleted from each result in turn. */
    method GetAll(storeFails: bool) returns (r: Result<seq<User>>)
      ensures r == GetAllOutcome(repository.rows, storeFails)
    {
      if storeFails {
        return Catch(Err(StoreFailure), {});
      }
      var result := repository.rows;
      var i := 0;
      while i < |result|
        invariant 0 <= i <= |result| && |result| == |repository.rows|
        invariant result[..i] == WithoutPasswords(repository.rows[..i])
        invariant result[i..] == repository.rows[i..]
      {
        result := result[i := WithoutPassword(result[i])];
        i := i + 1;
      }
      assert result == result[..i];
      assert repository.rows == repository.rows[..i];
      r := Ok(result);
    }

    method GetOneByID(id: Id, storeFails: bool) returns (r: Result<User>)
      ensures r == LookupOutcome(repository.rows, storeFails, id)
    {
      var raised: Result<User>;
      if storeFails {
        raised := Err(StoreFailure);
      } else {
        var result := Lookup(repository.rows, UserId, id);
        if result.None? {
          raised := Err(UserNotFound);
        } else {
          raised := Ok(WithoutPassword(result.value));
        }
      }
      r := Catch(raised, LookupRethrows);
    }

    method Create(input: UserInput, storeFails: bool) returns (r: Result<User>)
      requires repository.Valid()
      modifies repository
      ensures repository.Valid()
      ensures r == CreateOutcome(old(repository.rows), old(repository.nextId), schemaValid(input), hash,
                                 storeFails, input)
      ensures repository.rows ==
                if r.Ok? then old(repository.rows) + [SavedUser(old(repository.nextId), input.(password := Some(hash(input.password.value))))]
                else old(repository.rows)
    {
      var raised: Result<User>;
      var hashed := HashPassword(input.password, hash);
      if !schemaValid(input) {
        raised := Err(UserValidation);
      } else if hashed.Err? {
        raised := Err(hashed.error);
      } else if storeFails {
        raised := Err(StoreFailure);
      } else if CheckAnyUser(FindOneByEmailOrUsername(repository.rows, input.email, input.username)).Some? {
        raised := Err(UserAlreadyExists);
      } else {
        var result := repository.Save(input.(password := Some(hashed.value)));
        if result.Err? {
          raised := Err(result.error);
        } else if result.value.None? {
          raised := Err(UserPasswordField(500));
        } else {
          raised := Ok(WithoutPassword(result.value.value));
        }
      }
      r := Catch(raised, CreateRethrows);
    }

    method Update(input: UserInput, storeFails: bool) returns (r: Result<User>)
      requires repository.Valid()
      modifies repository
      ensures repository.Valid()
      ensures r == UpdateOutcome(old(repository.rows), schemaValid(input), storeFails, input)
      ensures repository.rows ==
                if r.Ok? then Overwrite(old(repository.rows), UserId, input.id, (u: User) => UpdatedUser(u, input))
                else old(repository.rows)
    {
      var raised: Result<User>;
      if !schemaValid(input) {
        raised := Err(UserValidation);
      } else if storeFails {
        raised := Err(StoreFailure);
      } else {
        var validation := Lookup(repository.rows, UserId, input.id);
        if validation.None? {
          raised := Err(UserNotFound);
        } else {
          var result := repository.Update(input.id, input);
          raised := if result.Some? then Ok(WithoutPassword(result.value)) else Err(StoreFailure);
        }
      }
      r := Catch(raised, UpdateRethrows);
    }

    method Delete(id: Id, storeFails: bool) returns (r: Result<User>)
      requires repository.Valid()
      modifies repository
      ensures repository.Valid()
      ensures r == LookupOutcome(old(repository.rows), storeFails, id)
      ensures repository.rows == if r.Ok? then Remove(old(repository.rows), UserId, id) else old(repository.rows)
    {
      var raised: Result<User>;
      if storeFails {
        raised := Err(StoreFailure);
      } else {
        var validation := Lookup(repository.rows, UserId, id);
        if validation.None? {
          raised := Err(UserNotFound);
        } else {
          var result := repository.Delete(id);
          raised := if result.Some? then Ok(WithoutPassword(result.value)) else Err(StoreFailure);
        }
      }
      r := Catch(raised, LookupRethrows);
    }
  }

  // ---------------------------------------------------------------------
  // What the outcomes promise.

  /** No user leaves the service with a password. */
  lemma NoPasswordLeaves(rows: seq<User>, nextId: Id, schemaValid: bool, hash: string -> string,
                         storeFails: bool, id: Id, input: UserInput)
    ensures GetAllOutcome(rows, storeFails).Ok? ==>
              forall u :: u in GetAllOutcome(rows, storeFails).value ==> u.password.None?
    ensures LookupOutcome(rows, storeFails, id).Ok? ==> LookupOutcome(rows, storeFails, id).value.password.None?
    ensures CreateOutcome(rows, nextId, schemaValid, hash, storeFails, input).Ok? ==>
              CreateOutcome(rows, nextId, schemaValid, hash, storeFails, input).value.password.None?
    ensures UpdateOutcome(rows, schemaValid, storeFails, input).Ok? ==>
              UpdateOutcome(rows, schemaValid, storeFails, input).value.password.None?
  {
  }

  /** Apart from the password, getAll returns the table as it is. */
  lemma GetAllKeepsEverythingElse(rows: seq<User>)
    ensures forall k :: 0 <= k < |rows| ==>
              GetAllOutcome(rows, false).value[k].(password := rows[k].password) == rows[k]
  {
  }

  /** `create` runs schema validation, then hashing, then the uniqueness
      check: an invalid body beats a missing password, which beats a taken
      email or username. */
  lemma CreateCheckOrder(rows: seq<User>, nextId: Id, hash: string -> string, input: UserInput)
    ensures CreateOutcome(rows, nextId, false, hash, false, input) == Err(UserValidation)
    ensures Falsy(input.password) ==> CreateOutcome(rows, nextId, true, hash, false, input) == Err(UserPasswordField(405))
    ensures !Falsy(input.password) && (exists u :: u in rows && u.email == input.email) ==>
              CreateOutcome(rows, nextId, true, hash, false, input) == Err(UserAlreadyExists)
  {
  }

  /** Any user holding the email or the username blocks `create`, whatever
      its links; with neither taken and a password whose hash is non-empty,
      the new account is saved. */
  lemma CreateSucceedsIff(rows: seq<User>, nextId: Id, hash: string -> string, input: UserInput)
    ensures CreateOutcome(rows, nextId, true, hash, false, input).Ok? <==>
      !Falsy(input.password) && hash(input.password.value) != "" &&
      (forall u :: u in rows ==> u.email != input.email && u.username != input.username)
  {
  }

  /** A falsy save result reaches the caller as UserPasswordFieldError with
      status 500, not as UnknownError. */
  lemma EmptyHashIsPasswordError500(rows: seq<User>, nextId: Id, hash: string -> string, input: UserInput)
    requires !Falsy(input.password) && hash(input.password.value) == ""
    requires forall u :: u in rows ==> u.email != input.email && u.username != input.username
    ensures CreateOutcome(rows, nextId, true, hash, false, input) == Err(UserPasswordField(500))
    ensures Status(CreateOutcome(rows, nextId, true, hash, false, input).error) == 500
  {
  }

  /** `update` stores the password it is given verbatim: no hash is applied. */
  lemma UpdateWritesPasswordUnhashed(rows: seq<User>, input: UserInput)
    requires HasKey(rows, UserId, input.id) && !Falsy(input.password)
    requires !ColumnsHeldByOther(rows, input.id, input.email, input.username)
    ensures UpdateOutcome(rows, true, false, input).Ok?
    ensures UpdatedUser(Lookup(rows, UserId, input.id).value, input).password == input.password
  {
  }

  /** `update` to an email or username another user holds fails on the
      unique column: UnknownError (500), not UserAlreadyExists, since update
      runs no uniqueness check of its own. */
  lemma UpdateToHeldColumnIsUnknown(rows: seq<User>, input: UserInput, other: User)
    requires HasKey(rows, UserId, input.id)
    requires other in rows && other.id != input.id
    requires other.email == input.email || other.username == input.username
    ensures UpdateOutcome(rows, true, false, input) == Err(Unknown)
  {
    var k :| 0 <= k < |rows| && rows[k] == other;
    assert UserEmail(rows[k]) == input.email || UserUsername(rows[k]) == input.username;
  }

  /** A missing id is UserNotFound (404) for getOneByID, update and delete. */
  lemma MissingUserNotFound(rows: seq<User>, id: Id, input: UserInput)
    requires !HasKey(rows, UserId, id) && input.id == id
    ensures LookupOutcome(rows, false, id) == Err(UserNotFound)
    ensures UpdateOutcome(rows, true, false, input) == Err(UserNotFound)
    ensures Status(UserNotFound) == 404
  {
  }
}
