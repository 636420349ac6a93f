/** The two read-only views of the role table (`config/roles.json`, which is
    not part of this model and is therefore a parameter): RoleGuard and
    PermissionsGuard. Both look a role up by exact, case-sensitive name and
    return the first entry in table order. */
module Guards {
  import opened Errors
  import opened Seqs

  datatype RoleEntry = RoleEntry(name: string, permissions: seq<string>)

  /** The index of the first entry whose name is exactly `name`. */
  ghost predicate FirstNamed(roles: seq<RoleEntry>, name: string, i: int) {
    0 <= i < |roles| && roles[i].name == name && forall j :: 0 <= j < i ==> roles[j].name != name
  }

  /** RoleGuard keeps the table it copied at construction; its lookups are
      functions of that copy and cannot change it. */
  datatype RoleGuard = RoleGuard(roles: seq<RoleEntry>) {

    /** `roles.find(role => role.name === name)`. */
    function GetRoleByName(name: string): (r: Option<RoleEntry>)
      ensures r.Some? ==> exists i :: FirstNamed(roles, name, i) && roles[i] == r.value
      ensures r.None? <==> forall i :: 0 <= i < |roles| ==> roles[i].name != name
    {
      Find(roles, (e: RoleEntry) => e.name == name)
    }

    function GetRoles(): seq<RoleEntry> {
      roles
    }
  }

  /** `new RoleGuard()`: the guard hands back the whole table, in order. */
  function NewRoleGuard(table: seq<RoleEntry>): (g: RoleGuard)
    ensures g.GetRoles() == table
  {
    RoleGuard(table)
  }

  /** PermissionsGuard. Its `permissions` field is set to the empty list by
      the constructor and never touched again. */
  datatype PermissionsGuard = PermissionsGuard(roles: seq<RoleEntry>, permissions: seq<string>) {

    /** The permissions of the first role named exactly `roleName`, or the
        empty list when there is none. */
    function GetPermissionsByRoleName(roleName: string): (r: seq<string>)
      ensures forall i :: FirstNamed(roles, roleName, i) ==> r == roles[i].permissions
      ensures (forall i :: 0 <= i < |roles| ==> roles[i].name != roleName) ==> r == []
    {
      match Find(roles, (e: RoleEntry) => e.name == roleName)
      case Some(role) => role.permissions
      case None => []
    }
  }

  function NewPermissionsGuard(table: seq<RoleEntry>): (g: PermissionsGuard)
    ensures g.roles == table && g.permissions == []
  {
    PermissionsGuard(table, [])
  }

  /** The two guards agree: the permissions are those of the role RoleGuard finds. */
  lemma GuardsAgree(table: seq<RoleEntry>, name: string)
    ensures NewPermissionsGuard(table).GetPermissionsByRoleName(name) ==
      match NewRoleGuard(table).GetRoleByName(name)
      case Some(role) => role.permissions
      case None => []
  {
    var r := NewRoleGuard(table).GetRoleByName(name);
    if r.Some? {
      var i :| FirstNamed(table, name, i) && table[i] == r.value;
    }
  }

  /** Names are compared exactly: "admin" does not find a role named "ADMIN". */
  lemma NamesAreCaseSensitive(perms: seq<string>)
    ensures NewPermissionsGuard([RoleEntry("ADMIN", perms)]).GetPermissionsByRoleName("admin") == []
    ensures NewRoleGuard([RoleEntry("ADMIN", perms)]).GetRoleByName("admin") == None
  {
  }

  /** With duplicate names the first entry wins. */
  lemma FirstEntryWins(name: string, first: seq<string>, second: seq<string>)
    ensures NewPermissionsGuard([RoleEntry(name, first), RoleEntry(name, second)])
      .GetPermissionsByRoleName(name) == first
  {
    assert FirstNamed([RoleEntry(name, first), RoleEntry(name, second)], name, 0);
  }
}
