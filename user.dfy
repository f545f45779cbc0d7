/**
 * The `users` row (app/Models/User.php): roles, account statuses, the role
 * and status predicates, the display name and the admin/customer scopes.
 */
module UserModel {
  import opened Common

  datatype Role = CustomerRole | AdminRole | SuperAdminRole

  datatype AccountStatus = Active | Inactive | Suspended

  /** The stored spelling of each role (the ROLE_* constants). */
  function RoleName(r: Role): string {
    match r
    case CustomerRole => "user"
    case AdminRole => "admin"
    case SuperAdminRole => "super_admin"
  }

  function ParseRole(t: string): Option<Role> {
    if t == "user" then Some(CustomerRole)
    else if t == "admin" then Some(AdminRole)
    else if t == "super_admin" then Some(SuperAdminRole)
    else None
  }

  lemma RoleNameRoundTrip(r: Role, t: string)
    ensures ParseRole(RoleName(r)) == Some(r)
    ensures ParseRole(t).Some? ==> RoleName(ParseRole(t).value) == t
  {
  }

  /** getRoles(): the three roles, each once. */
  function Roles(): (r: seq<Role>)
    ensures |r| == 3
    ensures forall i, j :: 0 <= i < j < |r| ==> RoleName(r[i]) != RoleName(r[j])
  {
    [CustomerRole, AdminRole, SuperAdminRole]
  }

  datatype User = User(
    id: nat,
    firstName: string,
    lastName: string,
    email: string,
    password: string,
    role: Role,
    status: AccountStatus,
    emailVerifiedAt: Option<int>,
    avatar: Option<string>)

  predicate IsAdmin(u: User) {
    u.role == AdminRole || u.role == SuperAdminRole
  }

  predicate IsSuperAdmin(u: User) {
    u.role == SuperAdminRole
  }

  predicate IsActive(u: User) {
    u.status == Active
  }

  predicate IsVerified(u: User) {
    u.emailVerifiedAt.Some?
  }

  /** A super admin is an admin; a customer is neither. */
  lemma RolePredicates(u: User)
    ensures IsSuperAdmin(u) ==> IsAdmin(u)
    ensures !IsAdmin(u) <==> u.role == CustomerRole
  {
  }

  /** full_name: trim(first_name . ' ' . last_name). */
  function FullName(u: User): (r: string)
    ensures r == [] || (!IsTrimChar(r[0]) && !IsTrimChar(r[|r| - 1]))
    ensures |r| <= |u.firstName| + 1 + |u.lastName|
  {
    Trim(u.firstName + " " + u.lastName)
  }

  /** Names without surrounding blanks are joined by exactly one space. */
  lemma FullNameOfTrimmedNames(u: User)
    requires u.firstName != [] && !IsTrimChar(u.firstName[0])
    requires u.lastName != [] && !IsTrimChar(u.lastName[|u.lastName| - 1])
    ensures FullName(u) == u.firstName + " " + u.lastName
  {
    var s := u.firstName + " " + u.lastName;
    assert s[0] == u.firstName[0];
    assert s[|s| - 1] == u.lastName[|u.lastName| - 1];
    TrimOfTrimmed(s);
  }

  /** Two blank names give an empty full name. */
  lemma FullNameOfBlankNames(u: User)
    requires forall i :: 0 <= i < |u.firstName| ==> IsTrimChar(u.firstName[i])
    requires forall i :: 0 <= i < |u.lastName| ==> IsTrimChar(u.lastName[i])
    ensures FullName(u) == ""
  {
    var s := u.firstName + " " + u.lastName;
    forall i | 0 <= i < |s| ensures IsTrimChar(s[i]) {
      if i < |u.firstName| {
        assert s[i] == u.firstName[i];
      } else if i > |u.firstName| {
        assert s[i] == u.lastName[i - |u.firstName| - 1];
      }
    }
  }

  /** scopeAdmins: role in (admin, super_admin). */
  function ScopeAdmins(users: map<nat, User>): (ids: set<nat>)
    ensures ids <= users.Keys
  {
    set id | id in users && (users[id].role == AdminRole || users[id].role == SuperAdminRole)
  }

  /** scopeCustomers: role = user. */
  function ScopeCustomers(users: map<nat, User>): (ids: set<nat>)
    ensures ids <= users.Keys
  {
    set id | id in users && users[id].role == CustomerRole
  }

  /** The two scopes split the users table: every user is in exactly one of them. */
  lemma ScopesPartitionUsers(users: map<nat, User>)
    ensures ScopeAdmins(users) + ScopeCustomers(users) == users.Keys
    ensures ScopeAdmins(users) * ScopeCustomers(users) == {}
    ensures forall id :: id in ScopeAdmins(users) <==> id in users && IsAdmin(users[id])
  {
    forall id | id in users ensures id in ScopeAdmins(users) + ScopeCustomers(users) {
      match users[id].role
      case CustomerRole =>
      case AdminRole =>
      case SuperAdminRole =>
    }
  }
}
