/** An account (server/models/User.js). The password is an opaque hash. */
module UserModel {
  import opened Common

  datatype User = User(
    email: string,
    passwordHash: string,
    name: string,
    phone: string,
    role: Role,
    specialty: Option<string>,
    address: string,
    isActive: bool,
    twoFactorEnabled: bool,
    twoFactorCode: Option<string>,
    twoFactorExpires: Option<int>)

  function RoleName(r: Role): string
  {
    match r
    case Parent => "parent"
    case Doctor => "doctor"
    case Admin => "admin"
  }

  /** The role enum as Mongoose casts it; any other string fails validation. */
  function ParseRole(s: string): (r: Option<Role>)
    ensures r.Some? ==> RoleName(r.value) == s
    ensures forall role :: s == RoleName(role) ==> r == Some(role)
  {
    if s == "parent" then Some(Parent)
    else if s == "doctor" then Some(Doctor)
    else if s == "admin" then Some(Admin)
    else None
  }

  predicate IsActiveDoctor(e: (Id, User))
  {
    e.1.role == Doctor && e.1.isActive
  }

  /** The active doctors, in natural order. */
  function ActiveDoctors(users: map<Id, User>, n: nat): (r: seq<(Id, User)>)
    ensures forall e :: e in r <==> e.0 in users && e.0 < n && users[e.0] == e.1 && e.1.role == Doctor && e.1.isActive
  {
    if n == 0 then []
    else ActiveDoctors(users, n - 1) + (if n - 1 in users && IsActiveDoctor((n - 1, users[n - 1])) then [(n - 1, users[n - 1])] else [])
  }
}
