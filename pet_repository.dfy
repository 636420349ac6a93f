/** PrismaPetRepository over an in-memory pet table. `save` coerces the pet
    type and the duplicate lookup coerces the type it is asked for, but
    `update` hands the caller's type text to the database unchanged, where
    the PetType column accepts only the exact enum names. */
module PetRepository {
  import opened Errors
  import opened Seqs
  import opened ParseEnums
  import opened Tables

  /** Age and weight are JavaScript numbers, here integers. */
  datatype Pet = Pet(
    id: Id, name: string, breed: string, color: string, age: int, weight: int,
    petType: PetType, ownerID: Id)

  datatype PetInput = PetInput(
    id: Id, name: string, breed: string, color: string, age: int, weight: int,
    petType: Option<string>, ownerID: Id)

  function PetId(p: Pet): Id { p.id }

  /** The row `save` creates: the type coerced, the other fields copied. */
  function SavedPet(id: Id, input: PetInput): Pet {
    Pet(id, input.name, input.breed, input.color, input.age, input.weight,
        ParsePetType(input.petType), input.ownerID)
  }

  /** The enum value a type text denotes exactly, as the database column
      reads it: no case folding, no default. */
  function ExactPetType(s: string): (r: Option<PetType>)
    ensures r.None? <==> forall t :: PetTypeName(t) != s
    ensures r.Some? ==> PetTypeName(r.value) == s
  {
    if s == PetTypeName(PetType.DOG) then Some(PetType.DOG)
    else if s == PetTypeName(PetType.CAT) then Some(PetType.CAT)
    else if s == PetTypeName(PetType.UNKNOWN) then Some(PetType.UNKNOWN)
    else None
  }

  /** Whether the database accepts the type text of an update: an absent
      type leaves the column alone, a present one must be an exact name. */
  predicate TypeWritable(petType: Option<string>) {
    petType.None? || ExactPetType(petType.value).Some?
  }

  /** The row `update` leaves, when the database accepts the type. */
  function UpdatedPet(p: Pet, input: PetInput): Pet
    requires TypeWritable(input.petType)
  {
    p.(name := input.name, breed := input.breed, color := input.color, age := input.age,
       weight := input.weight, ownerID := input.ownerID,
       petType := if input.petType.None? then p.petType else ExactPetType(input.petType.value).value)
  }

  predicate SameOwnerNameAndType(p: Pet, ownerID: Id, name: string, petType: Option<string>) {
    p.ownerID == ownerID && p.name == name && p.petType == ParsePetType(petType)
  }

  /** findOneByOwnerWithNameAndType: the first pet of that owner with that
      name and with the coerced type. */
  function FindOneByOwnerWithNameAndType(rows: seq<Pet>, ownerID: Id, name: string, petType: Option<string>)
    : (r: Option<Pet>)
    ensures r.Some? ==> r.value in rows && SameOwnerNameAndType(r.value, ownerID, name, petType)
    ensures r.None? <==> forall p :: p in rows ==> !SameOwnerNameAndType(p, ownerID, name, petType)
  {
    Find(rows, (p: Pet) => SameOwnerNameAndType(p, ownerID, name, petType))
  }

  /** The lookup ignores the case of the type it is given. */
  lemma DuplicateLookupIgnoresTypeCase(rows: seq<Pet>, ownerID: Id, name: string, s: string)
    ensures FindOneByOwnerWithNameAndType(rows, ownerID, name, Some(s)) ==
            FindOneByOwnerWithNameAndType(rows, ownerID, name, Some(Upper(s)))
  {
    CoercionIgnoresCase(s);
  }

  /** The text `save` coerces is the text `update` refuses: "dog" is stored
      as DOG by a save, and rejected by the database in an update. */
  lemma SaveAndUpdateDisagreeOnType()
    ensures ParsePetType(Some("dog")) == PetType.DOG
    ensures !TypeWritable(Some("dog"))
    ensures forall t :: TypeWritable(Some(PetTypeName(t)))
  {
    assert Upper("dog") == "DOG";
  }

  class PetStore {
    var rows: seq<Pet>
    var nextId: Id

    ghost predicate Valid()
      reads this
    {
      UniqueKeys(rows, PetId) && KeysBelow(rows, PetId, nextId)
    }

    constructor ()
      ensures Valid() && rows == [] && nextId == 0
    {
      rows, nextId := [], 0;
    }

    /** save: one new row under a fresh id at the end of the table. */
    method Save(input: PetInput) returns (r: Pet)
      requires Valid()
      modifies this
      ensures Valid()
      ensures r == SavedPet(old(nextId), input) && !HasKey(old(rows), PetId, r.id)
      ensures rows == old(rows) + [r] && nextId == old(nextId) + 1
    {
      r := SavedPet(nextId, input);
      AppendFreshKeepsKeys(rows, PetId, nextId, r);
      rows := rows + [r];
      nextId := nextId + 1;
    }

    /** update: the row `id` becomes UpdatedPet of itself. The database
        raises, and nothing changes, when the id is absent or the type text
        is not an exact enum name. */
    method Update(id: Id, input: PetInput) returns (r: Option<Pet>)
      requires Valid()
      modifies this
      ensures Valid() && nextId == old(nextId)
      ensures r.Some? <==> HasKey(old(rows), PetId, id) && TypeWritable(input.petType)
      ensures r.Some? ==> r.value == UpdatedPet(Lookup(old(rows), PetId, id).value, input)
      ensures rows == if r.Some? then Overwrite(old(rows), PetId, id, (p: Pet) => UpdatedPet(p, input))
                      else old(rows)
    {
      if !TypeWritable(input.petType) {
        return None;
      }
      r := match Lookup(rows, PetId, id)
        case Some(p) => Some(UpdatedPet(p, input))
        case None => None;
      if r.Some? {
        rows := Overwrite(rows, PetId, id, (p: Pet) => UpdatedPet(p, input));
      }
    }

    /** delete: removes exactly the row `id` and returns it. */
    method Delete(id: Id) returns (r: Option<Pet>)
      requires Valid()
      modifies this
      ensures Valid() && nextId == old(nextId)
      ensures r == Lookup(old(rows), PetId, id)
      ensures rows == Remove(old(rows), PetId, id)
      ensures r.Some? ==> |rows| == |old(rows)| - 1
    {
      r := Lookup(rows, PetId, id);
      if r.Some? {
        RemoveOne(rows, PetId, id);
      }
      RemoveKeepsKeys(rows, PetId, id, nextId);
      rows := Remove(rows, PetId, id);
    }
  }
}
