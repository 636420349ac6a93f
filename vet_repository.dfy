/** PrismaVetRepository over an in-memory vet table. Every record it hands
    back has the password removed; `save` refuses an absent or empty
    password, and `update` only rewrites the password when a non-empty one is
    given. Vets are rows of the user table, whose email and username columns
    are unique: a write that would give a second vet the same email or
    username raises. */
module VetRepository {
  import opened Errors
  import opened ParseEnums
  import opened Tables

  datatype Vet = Vet(id: Id, name: string, username: string, email: string, password: Option<string>,
                     specialty: Specialty)

  datatype VetInput = VetInput(id: Id, name: string, username: string, email: string, password: Option<string>,
                               specialty: Option<string>)

  function VetId(v: Vet): Id { v.id }

  function VetEmail(v: Vet): string { v.email }

  function VetUsername(v: Vet): string { v.username }

  /** A write of this email and username to record `id` breaks a unique
      column. */
  predicate ColumnsHeldByOther(rows: seq<Vet>, id: Id, email: string, username: string) {
    HeldByOther(rows, VetId, VetEmail, id, email) || HeldByOther(rows, VetId, VetUsername, id, username)
  }

  function Stripped(v: Vet): (r: Vet)
    ensures r.password.None? && r.(password := v.password) == v
  {
    v.(password := None)
  }

  /** The stored row `save` creates: the specialty coerced. */
  function SavedVet(id: Id, input: VetInput): Vet {
    Vet(id, input.name, input.username, input.email, input.password, ParseSpecialty(input.specialty))
  }

  /** The stored row `update` leaves (`password || undefined`). */
  function UpdatedVet(v: Vet, input: VetInput): (r: Vet)
    ensures r.id == v.id && r.specialty == ParseSpecialty(input.specialty)
    ensures r.password == if Falsy(input.password) then v.password else input.password
  {
    v.(name := input.name, username := input.username, email := input.email,
       password := if Falsy(input.password) then v.password else input.password,
       specialty := ParseSpecialty(input.specialty))
  }

  /** findOneByID, stripped. */
  function FindOneByID(rows: seq<Vet>, id: Id): (r: Option<Vet>)
    ensures r.None? <==> !HasKey(rows, VetId, id)
    ensures r.Some? ==> r.value.password.None? && r.value.id == id
    ensures r.Some? ==> exists v :: v in rows && v.id == id && r.value == Stripped(v)
  {
    match Lookup(rows, VetId, id)
    case None => None
    case Some(v) => Some(Stripped(v))
  }

  /** findAll, stripped. */
  function FindAll(rows: seq<Vet>): (r: seq<Vet>)
    ensures |r| == |rows|
    ensures forall k :: 0 <= k < |rows| ==> r[k] == Stripped(rows[k])
  {
    seq(|rows|, k requires 0 <= k < |rows| => Stripped(rows[k]))
  }

  class VetStore {
    var rows: seq<Vet>
    var nextId: Id

    ghost predicate Valid()
      reads this
    {
      UniqueKeys(rows, VetId) && KeysBelow(rows, VetId, nextId) &&
      UniqueColumn(rows, VetEmail) && UniqueColumn(rows, VetUsername)
    }

    constructor ()
      ensures Valid() && rows == [] && nextId == 0
    {
      rows, nextId := [], 0;
    }

    /** save: undefined, and nothing written, for an absent or empty
        password; otherwise `create` raises (Err(StoreFailure), nothing
        written) when a vet holds the email or the username, and writes one
        new row, returned without its password, when none does. */
    method Save(input: VetInput) returns (r: Result<Option<Vet>>)
      requires Valid()
      modifies this
      ensures Valid()
      ensures r.Ok? && r.value.None? <==> Falsy(input.password)
      ensures r.Err? <==> !Falsy(input.password) && (Held(old(rows), VetEmail, input.email) || Held(old(rows), VetUsername, input.username))
      ensures r.Err? ==> r.error == StoreFailure
      ensures r.Ok? && r.value.Some? ==> r.value.value == Stripped(SavedVet(old(nextId), input))
      ensures rows == if r.Ok? && r.value.Some? then old(rows) + [SavedVet(old(nextId), input)] else old(rows)
      ensures nextId == if r.Ok? && r.value.Some? then old(nextId) + 1 else old(nextId)
    {
      if Falsy(input.password) {
        return Ok(None);
      }
      if Held(rows, VetEmail, input.email) || Held(rows, VetUsername, input.username) {
        return Err(StoreFailure);
      }
      var v := SavedVet(nextId, input);
      AppendFreshKeepsKeys(rows, VetId, nextId, v);
      AppendFreshKeepsColumn(rows, VetEmail, v);
      AppendFreshKeepsColumn(rows, VetUsername, v);
      rows := rows + [v];
      nextId := nextId + 1;
      r := Ok(Some(Stripped(v)));
    }

    /** update: the row `id` becomes UpdatedVet of itself. Prisma raises
        when the id is absent or another vet holds the new email or
        username: None here, with the table unchanged. */
    method Update(id: Id, input: VetInput) returns (r: Option<Vet>)
      requires Valid()
      modifies this
      ensures Valid() && nextId == old(nextId)
      ensures r.Some? <==> HasKey(old(rows), VetId, id) && !ColumnsHeldByOther(old(rows), id, input.email, input.username)
      ensures r.Some? ==> r.value == Stripped(UpdatedVet(Lookup(old(rows), VetId, id).value, input))
      ensures rows == if r.Some? then Overwrite(old(rows), VetId, id, (v: Vet) => UpdatedVet(v, input))
                      else old(rows)
    {
      r := match Lookup(rows, VetId, id)
        case Some(v) => Some(Stripped(UpdatedVet(v, input)))
        case None => None;
      if r.None? || ColumnsHeldByOther(rows, id, input.email, input.username) {
        return None;
      }
      var f := (v: Vet) => UpdatedVet(v, input);
      OverwriteKeepsKeys(rows, VetId, id, f, nextId);
      OverwriteKeepsColumn(rows, VetId, id, f, VetEmail, input.email);
      OverwriteKeepsColumn(rows, VetId, id, f, VetUsername, input.username);
      rows := Overwrite(rows, VetId, id, f);
    }

    method Delete(id: Id) returns (r: Option<Vet>)
      requires Valid()
      modifies this
      ensures Valid() && nextId == old(nextId)
      ensures r == FindOneByID(old(rows), id)
      ensures rows == Remove(old(rows), VetId, id)
      ensures r.Some? ==> |rows| == |old(rows)| - 1
    {
      r := FindOneByID(rows, id);
      if r.Some? {
        RemoveOne(rows, VetId, id);
      }
      RemoveKeepsKeys(rows, VetId, id, nextId);
      RemoveKeepsColumn(rows, VetId, id, VetEmail);
      RemoveKeepsColumn(rows, VetId, id, VetUsername);
      rows := Remove(rows, VetId, id);
    }
  }
}
