/**
 * The admin's user table (client/src/pages/admin/UsersManagement.jsx): the
 * search on name and e-mail, the status and role filters, and the counts
 * above the table. Roles arrive as the server's strings.
 */
module UsersManagement {
  import opened Common
  import opened Text

  datatype UserRow = UserRow(name: string, email: string, role: string, isActive: bool)

  /** The search text, compared without case, is inside the name or the e-mail; an empty search matches everyone. */
  predicate MatchesSearch(u: UserRow, searchTerm: string)
    ensures searchTerm == "" ==> MatchesSearch(u, searchTerm)
  {
    IncludesEmpty(Lower(u.name));
    Includes(Lower(u.name), Lower(searchTerm)) || Includes(Lower(u.email), Lower(searchTerm))
  }

  /** What the filter menu adds to the search: activity, a role, or nothing for 'all' and any other value. */
  predicate PassesFilter(u: UserRow, filter: string)
    ensures filter in {"parent", "doctor", "admin"} && PassesFilter(u, filter) ==> u.role == filter
    ensures filter !in {"active", "inactive", "parent", "doctor", "admin"} ==> PassesFilter(u, filter)
  {
    if filter == "active" then u.isActive
    else if filter == "inactive" then !u.isActive
    else if filter == "parent" || filter == "doctor" || filter == "admin" then u.role == filter
    else true
  }

  /** `filteredUsers`: the users passing both, in the order received. */
  function FilteredUsers(users: seq<UserRow>, searchTerm: string, filter: string): (r: seq<UserRow>)
    ensures forall u :: u in r <==> u in users && MatchesSearch(u, searchTerm) && PassesFilter(u, filter)
    ensures IsSubsequence(r, users)
  {
    Filter(users, (u: UserRow) => MatchesSearch(u, searchTerm) && PassesFilter(u, filter))
  }

  /** An empty search with the 'all' filter lists every user. */
  lemma EmptySearchListsAll(users: seq<UserRow>)
    ensures FilteredUsers(users, "", "all") == users
  {
    forall u | u in users ensures MatchesSearch(u, "") && PassesFilter(u, "all") {
      IncludesEmpty(Lower(u.name));
    }
    FilterAll(users, (u: UserRow) => MatchesSearch(u, "") && PassesFilter(u, "all"));
  }

  /** The 'active' and 'inactive' filters split every search result between them. */
  lemma ActivityFiltersSplit(users: seq<UserRow>, searchTerm: string, u: UserRow)
    requires u in FilteredUsers(users, searchTerm, "all")
    ensures u in FilteredUsers(users, searchTerm, "active") <==> u !in FilteredUsers(users, searchTerm, "inactive")
  {
  }

  datatype UserStats = UserStats(total: nat, parents: nat, doctors: nat, admins: nat, active: nat, inactive: nat)

  function RoleCount(users: seq<UserRow>, role: string): nat
  {
    if users == [] then 0 else (if users[0].role == role then 1 else 0) + RoleCount(users[1..], role)
  }

  function ActiveCount(users: seq<UserRow>, active: bool): nat
  {
    if users == [] then 0 else (if users[0].isActive == active then 1 else 0) + ActiveCount(users[1..], active)
  }

  /** The counters above the table. */
  function StatsOf(users: seq<UserRow>): (r: UserStats)
    ensures r.total == |users|
    ensures r.parents == |Filter(users, (u: UserRow) => u.role == "parent")|
    ensures r.doctors == |Filter(users, (u: UserRow) => u.role == "doctor")|
    ensures r.admins == |Filter(users, (u: UserRow) => u.role == "admin")|
    ensures r.active == |Filter(users, (u: UserRow) => u.isActive)|
    ensures r.inactive == |Filter(users, (u: UserRow) => !u.isActive)|
    ensures r.active + r.inactive == r.total
    ensures r.parents + r.doctors + r.admins <= r.total
    ensures (forall i :: 0 <= i < |users| ==> users[i].role in {"parent", "doctor", "admin"}) ==>
      r.parents + r.doctors + r.admins == r.total
  {
    ActiveAndInactiveAreAll(users);
    RolesCoverUsers(users);
    RoleCountIsFilter(users, "parent");
    RoleCountIsFilter(users, "doctor");
    RoleCountIsFilter(users, "admin");
    ActiveCountIsFilter(users);
    UserStats(|users|, RoleCount(users, "parent"), RoleCount(users, "doctor"), RoleCount(users, "admin"),
              ActiveCount(users, true), ActiveCount(users, false))
  }

  /** A role counter is the length of `users.filter(u => u.role === role)`. */
  lemma {:induction false} RoleCountIsFilter(users: seq<UserRow>, role: string)
    ensures RoleCount(users, role) == |Filter(users, (u: UserRow) => u.role == role)|
  {
    if users != [] {
      RoleCountIsFilter(users[1..], role);
    }
  }

  /** The activity counters are the lengths of `users.filter(u => u.isActive)` and of its complement. */
  lemma {:induction false} ActiveCountIsFilter(users: seq<UserRow>)
    ensures ActiveCount(users, true) == |Filter(users, (u: UserRow) => u.isActive)|
    ensures ActiveCount(users, false) == |Filter(users, (u: UserRow) => !u.isActive)|
  {
    if users != [] {
      ActiveCountIsFilter(users[1..]);
    }
  }

  /** Active and inactive users together are all of them. */
  lemma {:induction false} ActiveAndInactiveAreAll(users: seq<UserRow>)
    ensures ActiveCount(users, true) + ActiveCount(users, false) == |users|
  {
    if users != [] {
      ActiveAndInactiveAreAll(users[1..]);
    }
  }

  /** The three role counts are all users when every role is one of the three, and never more. */
  lemma {:induction false} RolesCoverUsers(users: seq<UserRow>)
    ensures RoleCount(users, "parent") + RoleCount(users, "doctor") + RoleCount(users, "admin") <= |users|
    ensures (forall i :: 0 <= i < |users| ==> users[i].role in {"parent", "doctor", "admin"}) ==>
      RoleCount(users, "parent") + RoleCount(users, "doctor") + RoleCount(users, "admin") == |users|
  {
    if users != [] {
      RolesCoverUsers(users[1..]);
      assert forall i :: 0 <= i < |users[1..]| ==> users[1..][i] == users[i + 1];
    }
  }

  datatype BadgeClass = Primary | Success | Warning | Gray

  /** `getRoleBadge`: a badge per role of the three, gray with the raw role for anything else. */
  function RoleBadge(role: string): (r: (BadgeClass, Option<string>))
    ensures r.1.None? <==> role !in {"parent", "doctor", "admin"}
    ensures r.1.Some? ==> r.1.value == "auth." + role
    ensures r.0 == Gray <==> role !in {"parent", "doctor", "admin"}
  {
    if role == "parent" then (Primary, Some("auth." + role))
    else if role == "doctor" then (Success, Some("auth." + role))
    else if role == "admin" then (Warning, Some("auth." + role))
    else (Gray, None)
  }
}
