/** The older owner module: its repository over an in-memory owner table,
    and a service with no `catch`, so an exception of the persistence
    library reaches the caller unchanged. The owner email column is unique
    (the repository looks owners up by it with `findUnique`): a `create`
    that would give a second owner the same email raises. */
module LegacyOwnerService {
  import opened Errors
  import opened Seqs
  import opened Tables

  datatype Owner = Owner(id: Id, name: string, email: string, username: string)

  datatype OwnerInput = OwnerInput(id: Id, name: string, email: string, username: string)

  function OwnerId(o: Owner): Id { o.id }

  function OwnerEmail(o: Owner): string { o.email }

  /** The row `save` creates: a fresh id, whatever id the input carries. */
  function SavedOwner(id: Id, input: OwnerInput): Owner {
    Owner(id, input.name, input.email, input.username)
  }

  /** findOneByEmailAndUsername: an owner matching both, not either. */
  function FindOneByEmailAndUsername(rows: seq<Owner>, email: string, username: string): (r: Option<Owner>)
    ensures r.Some? ==> r.value in rows && r.value.email == email && r.value.username == username
    ensures r.None? <==> forall o :: o in rows ==> o.email != email || o.username != username
  {
    Find(rows, (o: Owner) => o.email == email && o.username == username)
  }

  class OwnerStore {
    var rows: seq<Owner>
    var nextId: Id

    ghost predicate Valid()
      reads this
    {
      UniqueKeys(rows, OwnerId) && KeysBelow(rows, OwnerId, nextId) && UniqueColumn(rows, OwnerEmail)
    }

    constructor ()
      ensures Valid() && rows == [] && nextId == 0
    {
      rows, nextId := [], 0;
    }

    /** save: one new row under a fresh id, unless an owner already holds
        the email, when `create` raises (None here) and nothing is written. */
    method Save(input: OwnerInput) returns (r: Option<Owner>)
      requires Valid()
      modifies this
      ensures Valid()
      ensures r.None? <==> Held(old(rows), OwnerEmail, input.email)
      ensures r.Some? ==> r.value == SavedOwner(old(nextId), input) && !HasKey(old(rows), OwnerId, r.value.id)
      ensures rows == if r.Some? then old(rows) + [r.value] else old(rows)
      ensures nextId == if r.Some? then old(nextId) + 1 else old(nextId)
    {
      if Held(rows, OwnerEmail, input.email) {
        return None;
      }
      var o := SavedOwner(nextId, input);
      AppendFreshKeepsKeys(rows, OwnerId, nextId, o);
      AppendFreshKeepsColumn(rows, OwnerEmail, o);
      rows := rows + [o];
      nextId := nextId + 1;
      r := Some(o);
    }

    method Delete(id: Id) returns (r: Option<Owner>)
      requires Valid()
      modifies this
      ensures Valid() && nextId == old(nextId)
      ensures r == Lookup(old(rows), OwnerId, id)
      ensures rows == Remove(old(rows), OwnerId, id)
      ensures r.Some? ==> |rows| == |old(rows)| - 1
    {
      r := Lookup(rows, OwnerId, id);
      if r.Some? {
        RemoveOne(rows, OwnerId, id);
      }
      RemoveKeepsKeys(rows, OwnerId, id, nextId);
      RemoveKeepsColumn(rows, OwnerId, id, OwnerEmail);
      rows := Remove(rows, OwnerId, id);
    }
  }

  function LookupOutcome(rows: seq<Owner>, storeFails: bool, id: Id): Result<Owner> {
    if storeFails then Err(StoreFailure)
    else if !HasKey(rows, OwnerId, id) then Err(OwnerNotFound)
    else Ok(Lookup(rows, OwnerId, id).value)
  }

  function CreateOutcome(rows: seq<Owner>, nextId: Id, storeFails: bool, input: OwnerInput): Result<Owner> {
    if storeFails then Err(StoreFailure)
    else if FindOneByEmailAndUsername(rows, input.email, input.username).Some? then Err(OwnerAlreadyExists)
    else if Held(rows, OwnerEmail, input.email) then Err(StoreFailure)
    else Ok(SavedOwner(nextId, input))
  }

  /** `update` looks the id up and then saves: a new row, not a rewrite,
      which raises when any owner, the updated one included, holds the
      email. */
  function UpdateOutcome(rows: seq<Owner>, nextId: Id, storeFails: bool, input: OwnerInput): Result<Owner> {
    if storeFails then Err(StoreFailure)
    else if !HasKey(rows, OwnerId, input.id) then Err(OwnerNotFound)
    else if Held(rows, OwnerEmail, input.email) then Err(StoreFailure)
    else Ok(SavedOwner(nextId, input))
  }

  class OwnerService {
    const repository: OwnerStore

    constructor (repository: OwnerStore)
      ensures this.repository == repository
    {
      this.repository := repository;
    }

    method GetOneByID(id: Id, storeFails: bool) returns (r: Result<Owner>)
      ensures r == LookupOutcome(repository.rows, storeFails, id)
    {
      if storeFails {
        return Err(StoreFailure);
      }
      var result := Lookup(repository.rows, OwnerId, id);
      r := if result.None? then Err(OwnerNotFound) else Ok(result.value);
    }

    method Create(input: OwnerInput, storeFails: bool) returns (r: Result<Owner>)
      requires repository.Valid()
      modifies repository
      ensures repository.Valid()
      ensures r == CreateOutcome(old(repository.rows), old(repository.nextId), storeFails, input)
      ensures repository.rows == if r.Ok? then old(repository.rows) + [r.value] else old(repository.rows)
    {
      if storeFails {
        return Err(StoreFailure);
      }
      var validation := FindOneByEmailAndUsername(repository.rows, input.email, input.username);
      if validation.Some? {
        return Err(OwnerAlreadyExists);
      }
      var result := repository.Save(input);
      r := if result.Some? then Ok(result.value) else Err(StoreFailure);
    }

    method Update(input: OwnerInput, storeFails: bool) returns (r: Result<Owner>)
      requires repository.Valid()
      modifies repository
      ensures repository.Valid()
      ensures r == UpdateOutcome(old(repository.rows), old(repository.nextId), storeFails, input)
      ensures repository.rows == if r.Ok? then old(repository.rows) + [r.value] else old(repository.rows)
    {
      if storeFails {
        return Err(StoreFailure);
      }
      var validation := Lookup(repository.rows, OwnerId, input.id);
      if validation.None? {
        return Err(OwnerNotFound);
      }
      var result := repository.Save(input);
      r := if result.Some? then Ok(result.value) else Err(StoreFailure);
    }

    method Delete(id: Id, storeFails: bool) returns (r: Result<Owner>)
      requires repository.Valid()
      modifies repository
      ensures repository.Valid()
      ensures r == LookupOutcome(old(repository.rows), storeFails, id)
      ensures repository.rows == if r.Ok? then Remove(old(repository.rows), OwnerId, id) else old(repository.rows)
    {
      if storeFails {
        return Err(StoreFailure);
      }
      var validation := Lookup(repository.rows, OwnerId, id);
      if validation.None? {
        return Err(OwnerNotFound);
      }
      var result := repository.Delete(id);
      r := if result.Some? then Ok(result.value) else Err(StoreFailure);
    }
  }

  // ---------------------------------------------------------------------
  // What the outcomes promise.

  /** Without a catch, a store failure is never turned into UnknownError. */
  lemma StoreFailurePropagates(rows: seq<Owner>, nextId: Id, id: Id, input: OwnerInput)
    ensures LookupOutcome(rows, true, id) == Err(StoreFailure)
    ensures CreateOutcome(rows, nextId, true, input) == Err(StoreFailure)
    ensures UpdateOutcome(rows, nextId, true, input) == Err(StoreFailure)
    ensures forall s: bool :: LookupOutcome(rows, s, id) != Err(Unknown) && CreateOutcome(rows, nextId, s, input) != Err(Unknown)
  {
  }

  /** `create` answers OwnerAlreadyExists only for an owner matching both
      email and username; the same email under another username passes
      that check and then raises on the unique column, unchanged. */
  lemma CreateNeedsBothToClash(rows: seq<Owner>, nextId: Id, input: OwnerInput)
    ensures CreateOutcome(rows, nextId, false, input) == Err(OwnerAlreadyExists) <==>
              exists o :: o in rows && o.email == input.email && o.username == input.username
    ensures (forall o :: o in rows ==> o.email != input.email) ==>
              CreateOutcome(rows, nextId, false, input) == Ok(SavedOwner(nextId, input))
    ensures (exists o :: o in rows && o.email == input.email) &&
            (forall o :: o in rows ==> o.email != input.email || o.username != input.username) ==>
              CreateOutcome(rows, nextId, false, input) == Err(StoreFailure)
  {
    if exists o :: o in rows && o.email == input.email {
      var o :| o in rows && o.email == input.email;
      var k :| 0 <= k < |rows| && rows[k] == o;
      assert OwnerEmail(rows[k]) == input.email;
    }
  }

  /** `update` of an existing owner to an email no owner holds leaves the
      old row in place and adds a copy under a fresh id. */
  lemma UpdateAddsCopy(rows: seq<Owner>, nextId: Id, input: OwnerInput)
    requires UniqueKeys(rows, OwnerId) && KeysBelow(rows, OwnerId, nextId)
    requires HasKey(rows, OwnerId, input.id)
    requires forall o :: o in rows ==> o.email != input.email
    ensures UpdateOutcome(rows, nextId, false, input).Ok?
    ensures var o := UpdateOutcome(rows, nextId, false, input).value;
            o.id != input.id && o.id == nextId && Lookup(rows, OwnerId, input.id).value in rows
  {
  }

  /** `update` that keeps the owner's email, the usual case, saves a second
      row with a held email and raises: the store failure reaches the
      caller and nothing is written. */
  lemma UpdateKeepingEmailFails(rows: seq<Owner>, nextId: Id, input: OwnerInput)
    requires HasKey(rows, OwnerId, input.id)
    requires Lookup(rows, OwnerId, input.id).value.email == input.email
    ensures UpdateOutcome(rows, nextId, false, input) == Err(StoreFailure)
  {
    var o := Lookup(rows, OwnerId, input.id).value;
    var k :| 0 <= k < |rows| && rows[k] == o;
    assert OwnerEmail(rows[k]) == input.email;
  }
}
