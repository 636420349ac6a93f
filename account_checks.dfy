/** The two checks the owner, vet and user services run before they write an
    account: `_hashPassword` and `_checkValidation`. */
module AccountChecks {
  import opened Errors
  import opened ParseEnums
  import opened UserRepository

  /** _hashPassword: an absent or empty password is UserPasswordFieldError
      (405); otherwise only the password is replaced, by its bcrypt hash.
      `hash` stands for `bcrypt.hash(_, 11)`, which is not modelled. */
  function HashPassword(password: Option<string>, hash: string -> string): (r: Result<string>)
    ensures r.Err? <==> Falsy(password)
    ensures r.Err? ==> r.error == UserPasswordField(405) && Status(r.error) == 405
    ensures r.Ok? ==> password.Some? && r.value == hash(password.value)
  {
    if Falsy(password) then Err(UserPasswordField(405)) else Ok(hash(password.value))
  }

  /** _checkValidation of the owner and vet services, on the answer of
      findOneByEmailOrUsername: a match linked to an owner is
      OwnerAlreadyExists, else one linked to a vet is VetAlreadyExists, else
      any match is UserAlreadyExists; no match passes. */
  function CheckLinkedUser(user: Option<User>): (e: Option<ErrorKind>)
    ensures e.None? <==> user.None?
    ensures user.Some? && user.value.ownerID.Some? ==> e == Some(OwnerAlreadyExists)
    ensures user.Some? && user.value.ownerID.None? && user.value.vetID.Some? ==> e == Some(VetAlreadyExists)
    ensures user.Some? && user.value.ownerID.None? && user.value.vetID.None? ==> e == Some(UserAlreadyExists)
    ensures e.Some? ==> Status(e.value) == 409
  {
    match user
    case None => None
    case Some(u) =>
      if u.ownerID.Some? then Some(OwnerAlreadyExists)
      else if u.vetID.Some? then Some(VetAlreadyExists)
      else Some(UserAlreadyExists)
  }

  /** _checkValidation of the user service: any match is UserAlreadyExists. */
  function CheckAnyUser(user: Option<User>): (e: Option<ErrorKind>)
    ensures e.None? <==> user.None?
    ensures e.Some? ==> e.value == UserAlreadyExists
  {
    if user.Some? then Some(UserAlreadyExists) else None
  }

  /** Whichever of the two checks runs, a matching email or username is an
      already-exists error, and the account checks disagree only on the
      error class of a linked user. */
  lemma ChecksAgreeOnRejection(rows: seq<User>, email: string, username: string)
    ensures var user := FindOneByEmailOrUsername(rows, email, username);
            (CheckLinkedUser(user).None? <==> CheckAnyUser(user).None?) &&
            (CheckLinkedUser(user).None? <==> forall u :: u in rows ==> u.email != email && u.username != username)
  {
  }

  /** An email match wins over a username match: the class of the error is
      decided by the user holding that email. */
  lemma EmailMatchDecides(rows: seq<User>, email: string, username: string, u: User)
    requires u in rows && u.email == email && u.ownerID.Some?
    requires forall v :: v in rows && v.email == email ==> v == u
    ensures CheckLinkedUser(FindOneByEmailOrUsername(rows, email, username)) == Some(OwnerAlreadyExists)
  {
  }
}
