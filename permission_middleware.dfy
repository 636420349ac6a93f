/** checkPermission: the route-level authorisation rule. Building the handler
    fails without a permission list; the handler then lets ADMIN through,
    refuses ANONYMOUS, and lets any other role through exactly when one of its
    permissions is, as a whole string, a member of the route's list. */
module PermissionMiddleware {
  import opened Errors
  import opened Guards

  datatype RequestUser = RequestUser(role: string)
  datatype RequestBody = RequestBody(user: Option<RequestUser>)
  datatype Request = Request(body: Option<RequestBody>)

  /** What the handler does with a request: call `next()`, call `next(error)`,
      or throw. */
  datatype Outcome = Next | NextWithError(error: ErrorKind) | Thrown(error: ErrorKind)

  /** `user ? user.role : 'ANONYMOUS'`. */
  function UserRole(body: RequestBody): string {
    match body.user
    case Some(u) => u.role
    case None => "ANONYMOUS"
  }

  /** The role's first table entry grants a permission the route accepts. */
  ghost predicate Granted(roles: seq<RoleEntry>, role: string, valid: seq<string>) {
    exists i :: FirstNamed(roles, role, i) && exists p :: p in roles[i].permissions && p in valid
  }

  /** The function `checkPermission` returns, closed over the route's list. */
  datatype PermissionHandler = PermissionHandler(validPermissions: seq<string>) {

    function Handle(roles: seq<RoleEntry>, request: Request): (o: Outcome)
      ensures request.body.None? <==> o == Thrown(UserUnauthorized)
      ensures o == Next <==>
                (request.body.Some? &&
                 (UserRole(request.body.value) == "ADMIN" ||
                  (UserRole(request.body.value) != "ANONYMOUS" &&
                   Granted(roles, UserRole(request.body.value), validPermissions))))
      ensures o == Next || o == NextWithError(UserUnauthorized) || o == Thrown(UserUnauthorized)
    {
      if request.body.None? then Thrown(UserUnauthorized)
      else
        var role := UserRole(request.body.value);
        if role == "ADMIN" then Next
        else
          var userPermissions := NewPermissionsGuard(roles).GetPermissionsByRoleName(role);
          var hasPermission := exists p :: p in userPermissions && p in validPermissions;
          if role != "ANONYMOUS" && hasPermission then Next
          else NextWithError(UserUnauthorized)
    }
  }

  /** `checkPermission(validPermissions)`: a missing list is a configuration
      error raised when the route is built, before any request. An empty list
      is truthy in JavaScript and builds a handler. */
  function CheckPermission(validPermissions: Option<seq<string>>): (r: Result<PermissionHandler>)
    ensures validPermissions.None? <==> r == Err(PermissionConfig)
    ensures validPermissions.Some? ==> r.Ok? && r.value.validPermissions == validPermissions.value
  {
    match validPermissions
    case None => Err(PermissionConfig)
    case Some(valid) => Ok(PermissionHandler(valid))
  }

  /** ADMIN passes whatever the route requires, even an empty list. */
  lemma AdminAlwaysAllowed(valid: seq<string>, roles: seq<RoleEntry>)
    ensures PermissionHandler(valid).Handle(roles, Request(Some(RequestBody(Some(RequestUser("ADMIN")))))) == Next
  {
  }

  /** A body without a user is handled exactly as the role ANONYMOUS. */
  lemma MissingUserIsAnonymous(valid: seq<string>, roles: seq<RoleEntry>)
    ensures PermissionHandler(valid).Handle(roles, Request(Some(RequestBody(None)))) ==
      PermissionHandler(valid).Handle(roles, Request(Some(RequestBody(Some(RequestUser("ANONYMOUS"))))))
  {
  }

  /** ANONYMOUS is refused even when the table grants it every permission
      the route accepts. */
  lemma AnonymousAlwaysDenied(valid: seq<string>, roles: seq<RoleEntry>)
    requires roles == [RoleEntry("ANONYMOUS", valid)]
    ensures PermissionHandler(valid).Handle(roles, Request(Some(RequestBody(None)))) ==
      NextWithError(UserUnauthorized)
  {
  }

  /** The permissions of the route for listing owners, as the route file
      passes them: one string holding two names. */
  const OwnerListAsWritten: seq<string> := ["view_owners, all_owner"]

  /** The same permissions as two list elements. */
  const OwnerListIntended: seq<string> := ["view_owners", "all_owner"]

  /** An OWNER granted `view_owners` and `all_owner` is refused by the list
      as written, because membership is whole-string membership. */
  lemma CommaJoinedListDeniesOwner()
    ensures PermissionHandler(OwnerListAsWritten).Handle(
      [RoleEntry("OWNER", ["view_owners", "all_owner"])],
      Request(Some(RequestBody(Some(RequestUser("OWNER")))))) == NextWithError(UserUnauthorized)
  {
    var roles := [RoleEntry("OWNER", ["view_owners", "all_owner"])];
    var userPermissions := NewPermissionsGuard(roles).GetPermissionsByRoleName("OWNER");
    assert FirstNamed(roles, "OWNER", 0);
    assert userPermissions == ["view_owners", "all_owner"];
    assert "view_owners" != "view_owners, all_owner";
    assert "all_owner" != "view_owners, all_owner";
  }

  /** With the list split into its names, a non-anonymous role holding either
      permission passes. */
  lemma SplitListAllowsEitherPermission(roles: seq<RoleEntry>, role: string, i: nat, p: string)
    requires role != "ANONYMOUS"
    requires FirstNamed(roles, role, i)
    requires p in roles[i].permissions && p in ["view_owners", "all_owner"]
    ensures PermissionHandler(OwnerListIntended).Handle(roles, Request(Some(RequestBody(Some(RequestUser(role)))))) == Next
  {
  }
}
