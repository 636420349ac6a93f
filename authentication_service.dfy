/** AuthenticationService and the module-level list of issued refresh
    tokens, here a field of the service. `compare` stands for
    `bcrypt.compare` and `sign` for signing a JWT for a user id with the
    server secret and a 31-day lifetime; neither is modelled. */
module AuthenticationService {
  import opened Errors
  import opened Seqs
  import opened ParseEnums
  import opened Tables
  import opened UserRepository

  const LoginRethrows: set<ErrorKind> := {UserNotFound, UserPasswordField(405), UserUnauthorized}
  const LogoutRethrows: set<ErrorKind> := {UserNotFound, UserUnauthorized}

  /** The lifetime every token is signed with. */
  const ExpiresIn: string := "31d"

  /** What a successful login answers. */
  datatype Session = Session(token: string, loggedUser: User, expiresIn: string)

  /** What logout answers: every field undefined. */
  datatype SignedOut = SignedOut(token: Option<string>, loggedUser: Option<User>, expiresIn: Option<string>)

  function LoginOutcome(users: seq<User>, storeFails: bool, compare: (string, string) -> bool, sign: Id -> string,
                        email: string, password: string): Result<Session>
  {
    Catch(
      if storeFails then Err(StoreFailure)
      else match FindOneByEmail(users, email)
        case None => Err(UserNotFound)
        case Some(user) =>
          if Falsy(user.password) then Err(UserPasswordField(405))
          else if !compare(password, user.password.value) then Err(UserUnauthorized)
          else Ok(Session(sign(user.id), WithoutPassword(user), ExpiresIn)),
      LoginRethrows)
  }

  /** `auth.split(' ')[1]`: the second space-separated word of the header,
      undefined when there is none. The scheme word is not checked. */
  function BearerToken(auth: string): (token: Option<string>)
    ensures token.Some? ==> ' ' !in token.value
    ensures token.None? <==> ' ' !in auth
  {
    var words := Split(auth, ' ');
    if |words| >= 2 then Some(words[1])
    else
      assert ' ' !in auth by { JoinSplit(auth, ' '); }
      None
  }

  /** The list after `refreshTokens.filter((t) => t !== token)`. */
  function Revoked(tokens: seq<string>, token: Option<string>): seq<string> {
    Filter(tokens, (t: string) => Some(t) != token)
  }

  function LogoutOutcome(users: seq<User>, storeFails: bool, email: string, auth: Option<string>): Result<SignedOut> {
    Catch(
      if storeFails then Err(StoreFailure)
      else if FindOneByEmail(users, email).None? then Err(UserNotFound)
      else if Falsy(auth) then Err(UserUnauthorized)
      else Ok(SignedOut(None, None, None)),
      LogoutRethrows)
  }

  class AuthenticationService {
    const repository: UserStore
    const compare: (string, string) -> bool
    const sign: Id -> string
    var refreshTokens: seq<string>

    constructor (repository: UserStore, compare: (string, string) -> bool, sign: Id -> string)
      ensures this.repository == repository && this.compare == compare && this.sign == sign
      ensures refreshTokens == []
    {
      this.repository, this.compare, this.sign := repository, compare, sign;
      refreshTokens := [];
    }

    /** login: exactly one token is appended on success, none otherwise. */
    method Login(email: string, password: string, storeFails: bool) returns (r: Result<Session>)
      modifies this
      ensures r == LoginOutcome(repository.rows, storeFails, compare, sign, email, password)
      ensures refreshTokens == if r.Ok? then old(refreshTokens) + [r.value.token] else old(refreshTokens)
    {
      var raised: Result<Session>;
      if storeFails {
        raised := Err(StoreFailure);
      } else {
        var user := FindOneByEmail(repository.rows, email);
        if user.None? {
          raised := Err(UserNotFound);
        } else if Falsy(user.value.password) {
          raised := Err(UserPasswordField(405));
        } else if !compare(password, user.value.password.value) {
          raised := Err(UserUnauthorized);
        } else {
          var token := sign(user.value.id);
          refreshTokens := refreshTokens + [token];
          raised := Ok(Session(token, WithoutPassword(user.value), ExpiresIn));
        }
      }
      r := Catch(raised, LoginRethrows);
    }

    /** logout: the token of the header, if any, is revoked. */
    method Logout(email: string, auth: Option<string>, storeFails: bool) returns (r: Result<SignedOut>)
      modifies this
      ensures r == LogoutOutcome(repository.rows, storeFails, email, auth)
      ensures refreshTokens == if r.Ok? then Revoked(old(refreshTokens), BearerToken(auth.value)) else old(refreshTokens)
    {
      var raised: Result<SignedOut>;
      if storeFails {
        raised := Err(StoreFailure);
      } else {
        var user := FindOneByEmail(repository.rows, email);
        if user.None? {
          raised := Err(UserNotFound);
        } else if Falsy(auth) {
          raised := Err(UserUnauthorized);
        } else {
          var token := BearerToken(auth.value);
          refreshTokens := Revoked(refreshTokens, token);
          raised := Ok(SignedOut(None, None, None));
        }
      }
      r := Catch(raised, LogoutRethrows);
    }
  }

  // ---------------------------------------------------------------------
  // What the outcomes promise.

  /** login's errors, in order: unknown email (404), then no stored password
      (405), then a mismatch (401). */
  lemma LoginErrors(users: seq<User>, compare: (string, string) -> bool, sign: Id -> string,
                    email: string, password: string)
    ensures (forall u :: u in users ==> u.email != email) ==>
              LoginOutcome(users, false, compare, sign, email, password) == Err(UserNotFound)
    ensures FindOneByEmail(users, email).Some? && Falsy(FindOneByEmail(users, email).value.password) ==>
              LoginOutcome(users, false, compare, sign, email, password) == Err(UserPasswordField(405))
    ensures FindOneByEmail(users, email).Some? && !Falsy(FindOneByEmail(users, email).value.password) &&
            !compare(password, FindOneByEmail(users, email).value.password.value) ==>
              LoginOutcome(users, false, compare, sign, email, password) == Err(UserUnauthorized)
  {
  }

  /** A successful login returns the user without its password and a token
      that lives 31 days. */
  lemma LoginSession(users: seq<User>, compare: (string, string) -> bool, sign: Id -> string,
                     email: string, password: string)
    requires LoginOutcome(users, false, compare, sign, email, password).Ok?
    ensures var s := LoginOutcome(users, false, compare, sign, email, password).value;
            s.loggedUser.password.None? && s.loggedUser.email == email && s.expiresIn == "31d" &&
            s.token == sign(s.loggedUser.id) && WithoutPassword(FindOneByEmail(users, email).value) == s.loggedUser
  {
  }

  /** logout checks the user before the header. */
  lemma LogoutErrors(users: seq<User>, email: string, auth: Option<string>)
    ensures (forall u :: u in users ==> u.email != email) ==> LogoutOutcome(users, false, email, auth) == Err(UserNotFound)
    ensures FindOneByEmail(users, email).Some? && Falsy(auth) ==> LogoutOutcome(users, false, email, auth) == Err(UserUnauthorized)
    ensures LogoutOutcome(users, false, email, auth).Ok? ==> LogoutOutcome(users, false, email, auth).value == SignedOut(None, None, None)
  {
  }

  /** Revoking removes every copy of the token and keeps every other token
      as often as before, in order. */
  lemma RevokedRemovesEveryCopy(tokens: seq<string>, token: Option<string>, other: string)
    requires Some(other) != token
    ensures token.Some? ==> token.value !in Revoked(tokens, token)
    ensures multiset(Revoked(tokens, token))[other] == multiset(tokens)[other]
  {
    FilterKeepsCount(tokens, (t: string) => Some(t) != token, other);
  }

  lemma RevokedKeepsOrder(before: seq<string>, after: seq<string>, token: Option<string>)
    ensures Revoked(before + after, token) == Revoked(before, token) + Revoked(after, token)
  {
    FilterAppend(before, after, (t: string) => Some(t) != token);
  }

  /** A header without a second word revokes nothing. */
  lemma OneWordHeaderRevokesNothing(tokens: seq<string>, auth: string)
    requires ' ' !in auth
    ensures Revoked(tokens, BearerToken(auth)) == tokens
  {
    FilterAll(tokens, (t: string) => Some(t) != BearerToken(auth));
  }

  /** Logging out with "Bearer <token>" revokes the token a login issued. */
  lemma LogoutRevokesIssuedToken(tokens: seq<string>, token: string)
    requires ' ' !in token
    ensures BearerToken("Bearer " + token) == Some(token)
    ensures token !in Revoked(tokens + [token], BearerToken("Bearer " + token))
  {
    assert Join(["Bearer", token], ' ') == "Bearer " + token by {
      assert Join([token], ' ') == token;
    }
    SplitJoin(["Bearer", token], ' ');
  }
}
