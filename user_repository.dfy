/** PrismaUserRepository over an in-memory user table: the lookups the
    services and the authentication service consume, and the writes of the
    user service. The email and username columns are unique (the repository
    looks users up by each with `findUnique`): a write that would give a
    second user the same email or username raises. */
module UserRepository {
  import opened Errors
  import opened Seqs
  import opened ParseEnums
  import opened Tables

  /** A stored user. `name` is None when the row was written without one;
      `password` is None once a service has stripped it. */
  datatype User = User(
    id: Id, name: Option<string>, role: Role, username: string, email: string,
    password: Option<string>, vetID: Option<Id>, ownerID: Option<Id>)

  /** The body a caller passes in: role and password are loose strings. */
  datatype UserInput = UserInput(
    id: Id, name: Option<string>, role: Option<string>, username: string, email: string,
    password: Option<string>, vetID: Option<Id>, ownerID: Option<Id>)

  function UserId(u: User): Id { u.id }

  function UserEmail(u: User): string { u.email }

  function UserUsername(u: User): string { u.username }

  /** A write of this email and username to record `id` breaks a unique
      column. */
  predicate ColumnsHeldByOther(rows: seq<User>, id: Id, email: string, username: string) {
    HeldByOther(rows, UserId, UserEmail, id, email) || HeldByOther(rows, UserId, UserUsername, id, username)
  }

  /** The user as services return it: every field but the password. */
  function WithoutPassword(u: User): (r: User)
    ensures r.password.None?
    ensures r.(password := u.password) == u
  {
    u.(password := None)
  }

  /** findOneByEmail: `findUnique` on the email column. */
  function FindOneByEmail(rows: seq<User>, email: string): (r: Option<User>)
    ensures r.Some? ==> r.value in rows && r.value.email == email
    ensures r.None? <==> forall u :: u in rows ==> u.email != email
  {
    Find(rows, (u: User) => u.email == email)
  }

  /** findOneByEmailOrUsername: the user with that email if there is one,
      otherwise the user with that username. */
  function FindOneByEmailOrUsername(rows: seq<User>, email: string, username: string): (r: Option<User>)
    ensures (exists u :: u in rows && u.email == email) ==> r.Some? && r.value.email == email
    ensures (forall u :: u in rows ==> u.email != email) ==> r == Find(rows, (u: User) => u.username == username)
    ensures r.Some? ==> r.value in rows && (r.value.email == email || r.value.username == username)
    ensures r.None? <==> forall u :: u in rows ==> u.email != email && u.username != username
  {
    match FindOneByEmail(rows, email)
    case Some(u) => Some(u)
    case None => Find(rows, (u: User) => u.username == username)
  }

  /** The row `save` creates: the role is coerced, and the `name` column is
      given the caller's role text, not its name. */
  function SavedUser(id: Id, input: UserInput): User {
    User(id, input.role, ParseRole(input.role), input.username, input.email,
         input.password, input.vetID, input.ownerID)
  }

  /** The row `update` leaves: username, role and email rewritten; the
      password only when a non-empty one is given (`password || undefined`),
      and then unhashed; name and links untouched. */
  function UpdatedUser(u: User, input: UserInput): User {
    u.(username := input.username, role := ParseRole(input.role), email := input.email,
       password := if Falsy(input.password) then u.password else input.password)
  }

  /** `save` stores the role text as the name; the given name is lost. */
  lemma SaveStoresRoleAsName(id: Id, input: UserInput)
    ensures SavedUser(id, input).name == input.role
    ensures SavedUser(id, input).role == ParseRole(input.role)
    ensures input.role == Some("OWNER") ==> SavedUser(id, input).name == Some("OWNER")
  {
  }

  /** `update` never clears a password and never touches the name or the
      owner and vet links. */
  lemma UpdateKeepsPasswordUnlessGiven(u: User, input: UserInput)
    ensures Falsy(input.password) ==> UpdatedUser(u, input).password == u.password
    ensures !Falsy(input.password) ==> UpdatedUser(u, input).password == input.password
    ensures UpdatedUser(u, input).id == u.id && UpdatedUser(u, input).name == u.name
    ensures UpdatedUser(u, input).vetID == u.vetID && UpdatedUser(u, input).ownerID == u.ownerID
  {
  }

  /** The user table behind the repository. */
  class UserStore {
    var rows: seq<User>
    var nextId: Id

    ghost predicate Valid()
      reads this
    {
      UniqueKeys(rows, UserId) && KeysBelow(rows, UserId, nextId) &&
      UniqueColumn(rows, UserEmail) && UniqueColumn(rows, UserUsername)
    }

    constructor ()
      ensures Valid() && rows == [] && nextId == 0
    {
      rows, nextId := [], 0;
    }

    /** save: nothing is written and undefined comes back when the password
        is absent or empty; otherwise `create` raises (Err(StoreFailure),
        nothing written) when a user holds the email or the username, and
        writes one new row under a fresh id when none does. */
    method Save(input: UserInput) returns (r: Result<Option<User>>)
      requires Valid()
      modifies this
      ensures Valid()
      ensures r.Ok? && r.value.None? <==> Falsy(input.password)
      ensures r.Err? <==> !Falsy(input.password) && (Held(old(rows), UserEmail, input.email) || Held(old(rows), UserUsername, input.username))
      ensures r.Err? ==> r.error == StoreFailure
      ensures r.Ok? && r.value.Some? ==> r.value.value == SavedUser(old(nextId), input) && !HasKey(old(rows), UserId, r.value.value.id)
      ensures rows == if r.Ok? && r.value.Some? then old(rows) + [r.value.value] else old(rows)
      ensures nextId == if r.Ok? && r.value.Some? then old(nextId) + 1 else old(nextId)
    {
      if Falsy(input.password) {
        return Ok(None);
      }
      if Held(rows, UserEmail, input.email) || Held(rows, UserUsername, input.username) {
        return Err(StoreFailure);
      }
      var u := SavedUser(nextId, input);
      AppendFreshKeepsKeys(rows, UserId, nextId, u);
      AppendFreshKeepsColumn(rows, UserEmail, u);
      AppendFreshKeepsColumn(rows, UserUsername, u);
      rows := rows + [u];
      nextId := nextId + 1;
      r := Ok(Some(u));
    }

    /** update: the row `id` becomes UpdatedUser of itself. Prisma raises
        when the id is absent or another user holds the new email or
        username: None here, with the table unchanged. */
    method Update(id: Id, input: UserInput) returns (r: Option<User>)
      requires Valid()
      modifies this
      ensures Valid() && nextId == old(nextId)
      ensures r.Some? <==> HasKey(old(rows), UserId, id) && !ColumnsHeldByOther(old(rows), id, input.email, input.username)
      ensures r.Some? ==> r.value == UpdatedUser(Lookup(old(rows), UserId, id).value, input)
      ensures rows == if r.Some? then Overwrite(old(rows), UserId, id, (u: User) => UpdatedUser(u, input))
                      else old(rows)
    {
      r := match Lookup(rows, UserId, id)
        case Some(u) => Some(UpdatedUser(u, input))
        case None => None;
      if r.None? || ColumnsHeldByOther(rows, id, input.email, input.username) {
        return None;
      }
      var f := (u: User) => UpdatedUser(u, input);
      OverwriteKeepsKeys(rows, UserId, id, f, nextId);
      OverwriteKeepsColumn(rows, UserId, id, f, UserEmail, input.email);
      OverwriteKeepsColumn(rows, UserId, id, f, UserUsername, input.username);
      rows := Overwrite(rows, UserId, id, f);
    }

    /** delete: removes exactly the row `id` and returns it. */
    method Delete(id: Id) returns (r: Option<User>)
      requires Valid()
      modifies this
      ensures Valid() && nextId == old(nextId)
      ensures r == Lookup(old(rows), UserId, id)
      ensures rows == Remove(old(rows), UserId, id)
      ensures r.Some? ==> |rows| == |old(rows)| - 1
    {
      r := Lookup(rows, UserId, id);
      if r.Some? {
        RemoveOne(rows, UserId, id);
      }
      RemoveKeepsKeys(rows, UserId, id, nextId);
      RemoveKeepsColumn(rows, UserId, id, UserEmail);
      RemoveKeepsColumn(rows, UserId, id, UserUsername);
      rows := Remove(rows, UserId, id);
    }
  }
}
