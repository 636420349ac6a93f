/** PrismaOwnerRepository over an in-memory owner table. `update` writes
    email, username and name only: the password column is never rewritten.
    The email column is unique (the repository looks owners up by it with
    `findUnique`): a `create` or `update` that would give a second owner
    the same email raises, which a write here answers with None and an
    unchanged table. */
module OwnerRepository {
  import opened Errors
  import opened Tables

  datatype Owner = Owner(id: Id, name: string, email: string, username: string, password: Option<string>)

  datatype OwnerInput = OwnerInput(id: Id, name: string, email: string, username: string, password: Option<string>)

  function OwnerId(o: Owner): Id { o.id }

  function OwnerEmail(o: Owner): string { o.email }

  function SavedOwner(id: Id, input: OwnerInput): Owner {
    Owner(id, input.name, input.email, input.username, input.password)
  }

  /** The row `update` leaves: the password keeps its stored value whatever
      the input carries. */
  function UpdatedOwner(o: Owner, input: OwnerInput): (r: Owner)
    ensures r.id == o.id && r.password == o.password
    ensures r.name == input.name && r.email == input.email && r.username == input.username
  {
    o.(name := input.name, email := input.email, username := input.username)
  }

  class OwnerStore {
    var rows: seq<Owner>
    var nextId: Id

    ghost predicate Valid()
      reads this
    {
      UniqueKeys(rows, OwnerId) && KeysBelow(rows, OwnerId, nextId) && UniqueColumn(rows, OwnerEmail)
    }

    constructor ()
      ensures Valid() && rows == [] && nextId == 0
    {
      rows, nextId := [], 0;
    }

    /** save: one new row under a fresh id, unless an owner already holds
        the email. */
    method Save(input: OwnerInput) returns (r: Option<Owner>)
      requires Valid()
      modifies this
      ensures Valid()
      ensures r.None? <==> Held(old(rows), OwnerEmail, input.email)
      ensures r.Some? ==> r.value == SavedOwner(old(nextId), input) && !HasKey(old(rows), OwnerId, r.value.id)
      ensures rows == if r.Some? then old(rows) + [r.value] else old(rows)
      ensures nextId == if r.Some? then old(nextId) + 1 else old(nextId)
    {
      if Held(rows, OwnerEmail, input.email) {
        return None;
      }
      var o := SavedOwner(nextId, input);
      AppendFreshKeepsKeys(rows, OwnerId, nextId, o);
      AppendFreshKeepsColumn(rows, OwnerEmail, o);
      rows := rows + [o];
      nextId := nextId + 1;
      r := Some(o);
    }

    /** update: the row `id` becomes UpdatedOwner of itself. Prisma raises
        when the id is absent or another owner holds the new email. */
    method Update(id: Id, input: OwnerInput) returns (r: Option<Owner>)
      requires Valid()
      modifies this
      ensures Valid() && nextId == old(nextId)
      ensures r.Some? <==> HasKey(old(rows), OwnerId, id) && !HeldByOther(old(rows), OwnerId, OwnerEmail, id, input.email)
      ensures r.Some? ==> r.value == UpdatedOwner(Lookup(old(rows), OwnerId, id).value, input)
      ensures rows == if r.Some? then Overwrite(old(rows), OwnerId, id, (o: Owner) => UpdatedOwner(o, input))
                      else old(rows)
    {
      r := match Lookup(rows, OwnerId, id)
        case Some(o) => Some(UpdatedOwner(o, input))
        case None => None;
      if r.None? || HeldByOther(rows, OwnerId, OwnerEmail, id, input.email) {
        return None;
      }
      OverwriteKeepsKeys(rows, OwnerId, id, (o: Owner) => UpdatedOwner(o, input), nextId);
      OverwriteKeepsColumn(rows, OwnerId, id, (o: Owner) => UpdatedOwner(o, input), OwnerEmail, input.email);
      rows := Overwrite(rows, OwnerId, id, (o: Owner) => UpdatedOwner(o, input));
    }

    method Delete(id: Id) returns (r: Option<Owner>)
      requires Valid()
      modifies this
      ensures Valid() && nextId == old(nextId)
      ensures r == Lookup(old(rows), OwnerId, id)
      ensures rows == Remove(old(rows), OwnerId, id)
      ensures r.Some? ==> |rows| == |old(rows)| - 1
    {
      r := Lookup(rows, OwnerId, id);
      if r.Some? {
        RemoveOne(rows, OwnerId, id);
      }
      RemoveKeepsKeys(rows, OwnerId, id, nextId);
      RemoveKeepsColumn(rows, OwnerId, id, OwnerEmail);
      rows := Remove(rows, OwnerId, id);
    }
  }
}
