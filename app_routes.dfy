/**
 * The client's route table and guards (client/src/App.jsx): which page a
 * path shows, which paths need a signed-in user or a particular role, and
 * where the guards redirect. Everything is decided from the path and the
 * authentication state.
 */
module AppRoutes {
  import opened Common

  /** The authentication state the guards read: still loading, signed in, and the user's role when it is one of the three. */
  datatype Session = Session(loading: bool, authenticated: bool, role: Option<Role>)

  datatype Page =
    | LoginPage | RegisterPage | Verify2FAPage
    | AdminDashboard | DoctorDashboard | ParentDashboard
    | ChildrenList | AddChild | ChildDetail(childId: string)
    | PatientsList | AppointmentsList | NotificationsPage | ChatPage
    | DoctorSchedulePage | UsersManagement | AnnouncementsManagement | ProfilePage

  /** What a route renders: the loading overlay, a redirect, or a page inside its layout. */
  datatype Screen = Loader | Redirect(to: string) | Render(page: Page)

  /** The routes of the table; `Unmatched` is the catch-all `*`. */
  datatype Route =
    | Home | Login | Register | Verify2FA | Dashboard
    | Children | ChildrenAdd | ChildById(id: string)
    | Patients | Appointments | AppointmentsNew | Notifications | Chat
    | Schedule | AdminUsers | AdminAnnouncements | Profile | Unmatched

  const ChildrenPrefix: string := "/children/"

  /** An id segment: non-empty and without a slash; "add" names its own route. */
  predicate IsIdSegment(id: string)
  {
    id != "" && '/' !in id && id != "add"
  }

  /** The route a path matches. */
  function Match(path: string): (r: Route)
    ensures r.ChildById? ==> path == ChildrenPrefix + r.id && IsIdSegment(r.id)
  {
    if path == "/" then Home
    else if path == "/login" then Login
    else if path == "/register" then Register
    else if path == "/verify-2fa" then Verify2FA
    else if path == "/dashboard" then Dashboard
    else if path == "/children" then Children
    else if path == "/children/add" then ChildrenAdd
    else if path == "/patients" then Patients
    else if path == "/appointments" then Appointments
    else if path == "/appointments/new" then AppointmentsNew
    else if path == "/notifications" then Notifications
    else if path == "/chat" then Chat
    else if path == "/schedule" then Schedule
    else if path == "/admin/users" then AdminUsers
    else if path == "/admin/announcements" then AdminAnnouncements
    else if path == "/profile" then Profile
    else if |path| > |ChildrenPrefix| && path[..|ChildrenPrefix|] == ChildrenPrefix && IsIdSegment(path[|ChildrenPrefix|..]) then
      assert path == ChildrenPrefix + path[|ChildrenPrefix|..];
      ChildById(path[|ChildrenPrefix|..])
    else Unmatched
  }

  /** The path of a route (the catch-all has none of its own; "/404" stands for any unmatched path). */
  function PathOf(r: Route): string
  {
    match r
    case Home => "/"
    case Login => "/login"
    case Register => "/register"
    case Verify2FA => "/verify-2fa"
    case Dashboard => "/dashboard"
    case Children => "/children"
    case ChildrenAdd => "/children/add"
    case ChildById(id) => ChildrenPrefix + id
    case Patients => "/patients"
    case Appointments => "/appointments"
    case AppointmentsNew => "/appointments/new"
    case Notifications => "/notifications"
    case Chat => "/chat"
    case Schedule => "/schedule"
    case AdminUsers => "/admin/users"
    case AdminAnnouncements => "/admin/announcements"
    case Profile => "/profile"
    case Unmatched => "/404"
  }

  /** Every route is reached from its own path: no route of the table shadows another. */
  lemma MatchPathOf(r: Route)
    requires r.ChildById? ==> IsIdSegment(r.id)
    ensures Match(PathOf(r)) == r
  {
    if r.ChildById? {
      var p := PathOf(r);
      assert p[..|ChildrenPrefix|] == ChildrenPrefix;
      assert p[|ChildrenPrefix|..] == r.id;
      assert p[1] == 'c' && p[2] == 'h' && p[3] == 'i' && |p| > 10;
    }
  }

  /** `ProtectedRoute`: the loader while loading, /login when signed out, /dashboard when a role list lacks the user's role, else the page. */
  function Protected(s: Session, roles: Option<seq<Role>>, page: Page): (r: Screen)
    ensures r == Loader <==> s.loading
    ensures r == Redirect("/login") <==> !s.loading && !s.authenticated
    ensures r.Render? <==> !s.loading && s.authenticated && (roles.Some? ==> s.role.Some? && s.role.value in roles.value)
    ensures r.Render? ==> r.page == page
  {
    if s.loading then Loader
    else if !s.authenticated then Redirect("/login")
    else if roles.Some? && !(s.role.Some? && s.role.value in roles.value) then Redirect("/dashboard")
    else Render(page)
  }

  /** `PublicRoute`: the loader while loading, /dashboard when signed in, else the page. */
  function Public(s: Session, page: Page): (r: Screen)
    ensures r == Loader <==> s.loading
    ensures r.Render? <==> !s.loading && !s.authenticated
    ensures r.Render? ==> r.page == page
  {
    if s.loading then Loader
    else if s.authenticated then Redirect("/dashboard")
    else Render(page)
  }

  /** `DashboardRouter`: admins and doctors get their own dashboard, everybody else the parent one. */
  function DashboardFor(role: Option<Role>): (p: Page)
    ensures p == AdminDashboard <==> role == Some(Admin)
    ensures p == DoctorDashboard <==> role == Some(Doctor)
    ensures p == ParentDashboard <==> role != Some(Admin) && role != Some(Doctor)
  {
    if role == Some(Admin) then AdminDashboard
    else if role == Some(Doctor) then DoctorDashboard
    else ParentDashboard
  }

  /** The roles the table demands of a route; `None` where any signed-in user may enter. */
  function RolesOf(r: Route): Option<seq<Role>>
  {
    match r
    case Children => Some([Parent])
    case ChildrenAdd => Some([Parent])
    case ChildById(_) => Some([Parent, Doctor, Admin])
    case Patients => Some([Doctor, Admin])
    case AppointmentsNew => Some([Parent])
    case Chat => Some([Parent, Doctor])
    case Schedule => Some([Doctor])
    case AdminUsers => Some([Admin])
    case AdminAnnouncements => Some([Admin])
    case _ => None
  }

  /** A route behind `ProtectedRoute`. */
  predicate IsProtected(r: Route)
  {
    !(r.Home? || r.Login? || r.Register? || r.Verify2FA? || r.Unmatched?)
  }

  /** `AppRoutes`: the screen a path shows. */
  function Show(path: string, s: Session): (r: Screen)
    ensures IsProtected(Match(path)) && r.Render? ==>
      s.authenticated && (RolesOf(Match(path)).Some? ==> s.role.Some? && s.role.value in RolesOf(Match(path)).value)
  {
    match Match(path)
    case Home => if s.authenticated then Redirect("/dashboard") else Redirect("/login")
    case Login => Public(s, LoginPage)
    case Register => Public(s, RegisterPage)
    case Verify2FA => Render(Verify2FAPage)
    case Dashboard => Protected(s, None, DashboardFor(s.role))
    case Children => Protected(s, RolesOf(Children), ChildrenList)
    case ChildrenAdd => Protected(s, RolesOf(ChildrenAdd), AddChild)
    case ChildById(id) => Protected(s, RolesOf(ChildById(id)), ChildDetail(id))
    case Patients => Protected(s, RolesOf(Patients), PatientsList)
    case Appointments => Protected(s, None, AppointmentsList)
    case AppointmentsNew => Protected(s, RolesOf(AppointmentsNew), AppointmentsList)
    case Notifications => Protected(s, None, NotificationsPage)
    case Chat => Protected(s, RolesOf(Chat), ChatPage)
    case Schedule => Protected(s, RolesOf(Schedule), DoctorSchedulePage)
    case AdminUsers => Protected(s, RolesOf(AdminUsers), UsersManagement)
    case AdminAnnouncements => Protected(s, RolesOf(AdminAnnouncements), AnnouncementsManagement)
    case Profile => Protected(s, None, ProfilePage)
    case Unmatched => Redirect("/")
  }

  /** A signed-out user sees only the sign-in, registration and 2FA pages. */
  lemma SignedOutSeesOnlyPublicPages(path: string, s: Session)
    requires !s.authenticated
    ensures Show(path, s).Render? ==> Show(path, s).page in {LoginPage, RegisterPage, Verify2FAPage}
  {
  }

  /** The role table, route by route, as the guards enforce it: the parents' pages. */
  lemma ParentRoutes(s: Session)
    requires !s.loading && s.authenticated
    ensures Show("/children", s).Render? <==> s.role == Some(Parent)
    ensures Show("/children/add", s).Render? <==> s.role == Some(Parent)
    ensures Show("/chat", s).Render? <==> s.role == Some(Parent) || s.role == Some(Doctor)
  {
    assert Match("/children") == Children && Match("/children/add") == ChildrenAdd && Match("/chat") == Chat;
  }

  /** The doctors' and administrators' pages, and the dashboard every signed-in user reaches. */
  lemma StaffRoutes(s: Session)
    requires !s.loading && s.authenticated
    ensures Show("/schedule", s).Render? <==> s.role == Some(Doctor)
    ensures Show("/patients", s).Render? <==> s.role == Some(Doctor) || s.role == Some(Admin)
    ensures Show("/admin/users", s).Render? <==> s.role == Some(Admin)
    ensures Show("/admin/announcements", s).Render? <==> s.role == Some(Admin)
    ensures Show("/dashboard", s) == Render(DashboardFor(s.role))
  {
    assert Match("/schedule") == Schedule && Match("/patients") == Patients;
    assert Match("/admin/users") == AdminUsers && Match("/admin/announcements") == AdminAnnouncements;
    assert Match("/dashboard") == Dashboard;
  }

  /**
   * Once authentication has loaded, every path settles on a page after at
   * most three redirects: an unmatched path goes to /, / to /dashboard or
   * /login, and a refused role to /dashboard, which always renders for a
   * signed-in user.
   */
  lemma RedirectsSettle(path: string, s: Session)
    requires !s.loading
    ensures var r1 := Show(path, s);
      r1.Render? || (r1.Redirect? && var r2 := Show(r1.to, s);
        r2.Render? || (r2.Redirect? && var r3 := Show(r2.to, s);
          r3.Render? || (r3.Redirect? && Show(r3.to, s).Render?)))
  {
    assert Match("/") == Home;
    assert Match("/login") == Login;
    assert Match("/dashboard") == Dashboard;
  }
}
