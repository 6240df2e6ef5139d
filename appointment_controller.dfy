/**
 * Appointment requests (server/controllers/appointmentController.js): each
 * role's view, a parent's request for their own child, the field-wise update
 * with doctor auto-assignment and its notice to the parent, cancellation by
 * status, and the pending and today lists.
 */
module AppointmentController {
  import opened Common
  import opened Sorting
  import opened Time
  import opened ChildModel
  import opened AppointmentModel
  import opened NotificationModel
  import opened Store

  function StatusName(s: AppointmentStatus): string
  {
    match s
    case Pending => "pending"
    case Confirmed => "confirmed"
    case Cancelled => "cancelled"
    case Completed => "completed"
    case Rejected => "rejected"
  }

  /** The status enum as Mongoose casts it; any other string fails validation. */
  function ParseStatus(s: string): (r: Option<AppointmentStatus>)
    ensures r.Some? ==> StatusName(r.value) == s
    ensures forall st :: s == StatusName(st) ==> r == Some(st)
  {
    if s == "pending" then Some(Pending)
    else if s == "confirmed" then Some(Confirmed)
    else if s == "cancelled" then Some(Cancelled)
    else if s == "completed" then Some(Completed)
    else if s == "rejected" then Some(Rejected)
    else None
  }

  function TypeName(t: AppointmentType): string
  {
    match t
    case Vaccination => "vaccination"
    case Checkup => "checkup"
    case Consultation => "consultation"
  }

  /** The type enum; the empty string (absent) means the default, vaccination. */
  function ParseType(s: string): (r: Option<AppointmentType>)
    ensures s == "" ==> r == Some(Vaccination)
    ensures s != "" && r.Some? ==> TypeName(r.value) == s
    ensures r.Some? <==> s in {"", "vaccination", "checkup", "consultation"}
  {
    if s == "" || s == "vaccination" then Some(Vaccination)
    else if s == "checkup" then Some(Checkup)
    else if s == "consultation" then Some(Consultation)
    else None
  }

  // ---------------------------------------------------------------- listing

  /** `getAppointments`' filter: a parent's requests, a doctor's assignments, everything for an admin. */
  predicate Visible(caller: Actor, a: Appointment)
  {
    match caller.role
    case Parent => a.parent == caller.id
    case Doctor => a.doctor == Some(caller.id)
    case Admin => true
  }

  /** Newest scheduled date first. */
  predicate LaterFirst(a: (Id, Appointment), b: (Id, Appointment))
  {
    a.1.scheduledDate >= b.1.scheduledDate
  }

  /** Earliest scheduled date first. */
  predicate EarlierFirst(a: (Id, Appointment), b: (Id, Appointment))
  {
    a.1.scheduledDate <= b.1.scheduledDate
  }

  /** By the time string (`sort({ scheduledTime: 1 })`). */
  predicate TimeLe(a: (Id, Appointment), b: (Id, Appointment))
  {
    StrLe(a.1.scheduledTime, b.1.scheduledTime)
  }

  lemma TimeLeIsTotalPreorder()
    ensures TotalPreorder(TimeLe)
  {
    forall a, b ensures TimeLe(a, b) || TimeLe(b, a) {
      StrLeTotal(a.1.scheduledTime, b.1.scheduledTime);
    }
    forall a, b, c | TimeLe(a, b) && TimeLe(b, c) ensures TimeLe(a, c) {
      StrLeTransitive(a.1.scheduledTime, b.1.scheduledTime, c.1.scheduledTime);
    }
  }

  /** The stored appointments passing `p`, sorted by `le`. */
  function Listing(apps: map<Id, Appointment>, n: nat, p: Appointment -> bool, le: ((Id, Appointment), (Id, Appointment)) -> bool): (r: seq<(Id, Appointment)>)
    requires TotalPreorder(le)
    ensures forall e :: e in r <==> e.0 in apps && e.0 < n && apps[e.0] == e.1 && p(e.1)
    ensures SortedBy(r, le)
  {
    var picked: seq<(Id, Appointment)> := Filter(Entries(apps, n), (e: (Id, Appointment)) => p(e.1));
    SortBySorted(picked, le);
    assert forall e :: e in SortBy(picked, le) <==> e in picked by {
      forall e ensures e in SortBy(picked, le) <==> e in picked { SortByMembers(picked, le, e); }
    }
    SortBy(picked, le)
  }

  /** `getAppointments` (any role): the caller's view, newest first. */
  function GetAppointments(apps: map<Id, Appointment>, n: nat, caller: Actor): (r: seq<(Id, Appointment)>)
    ensures forall e :: e in r <==> e.0 in apps && e.0 < n && apps[e.0] == e.1 && Visible(caller, e.1)
    ensures SortedBy(r, LaterFirst)
  {
    Listing(apps, n, a => Visible(caller, a), LaterFirst)
  }

  /** No appointment is visible to two different parents, and an admin sees every one. */
  lemma VisibilityByRole(a: Appointment, p1: Id, p2: Id, admin: Id)
    ensures Visible(Actor(p1, Parent), a) && Visible(Actor(p2, Parent), a) ==> p1 == p2
    ensures Visible(Actor(admin, Admin), a)
    ensures Visible(Actor(p1, Doctor), a) <==> a.doctor == Some(p1)
  {
  }

  /** `getAppointment` (any role, no ownership check): the stored appointment or 404. */
  function GetAppointment(apps: map<Id, Appointment>, id: Id): (r: Result<Appointment>)
    ensures r.Ok? <==> id in apps
    ensures r.Ok? ==> r.value == apps[id]
    ensures r.Err? ==> r.error == NotFound
  {
    if id in apps then Ok(apps[id]) else Err(NotFound)
  }

  /** `getPendingAppointments` (doctor or admin): every pending request, earliest first. */
  function GetPendingAppointments(apps: map<Id, Appointment>, n: nat, caller: Actor): (r: seq<(Id, Appointment)>)
    requires caller.role == Doctor || caller.role == Admin
    ensures forall e :: e in r <==> e.0 in apps && e.0 < n && apps[e.0] == e.1 && e.1.status == Pending
    ensures SortedBy(r, EarlierFirst)
  {
    Listing(apps, n, (a: Appointment) => a.status == Pending, EarlierFirst)
  }

  /** Scheduled in `[today 00:00, tomorrow 00:00)`. */
  predicate Today(a: Appointment, now: int)
  {
    Midnight(now) <= a.scheduledDate < Midnight(now) + DayMs
  }

  /** The today window is exactly the instants of now's day. */
  lemma TodayIsSameDay(a: Appointment, now: int)
    ensures Today(a, now) <==> Midnight(a.scheduledDate) == Midnight(now)
  {
    if Today(a, now) {
      MidnightSameDay(now, a.scheduledDate);
    }
  }

  /** `getTodayAppointments` (doctor or admin): today's confirmed appointments, by time string. */
  function GetTodayAppointments(apps: map<Id, Appointment>, n: nat, caller: Actor, now: int): (r: seq<(Id, Appointment)>)
    requires caller.role == Doctor || caller.role == Admin
    ensures forall e :: e in r <==>
      e.0 in apps && e.0 < n && apps[e.0] == e.1 && e.1.status == Confirmed && Today(e.1, now)
    ensures SortedBy(r, TimeLe)
  {
    TimeLeIsTotalPreorder();
    Listing(apps, n, (a: Appointment) => a.status == Confirmed && Today(a, now), TimeLe)
  }

  // --------------------------------------------------------------- create

  /** The body of `POST /appointments`; empty strings stand for absent ones. */
  datatype AppointmentRequest = AppointmentRequest(
    childId: Id,
    scheduledDate: Option<int>,
    scheduledTime: string,
    kind: string,
    vaccines: seq<Id>,
    notes: Option<string>,
    doctorId: Option<Id>)

  /**
   * The appointment `Appointment.create` stores for a request: the caller as
   * parent, status pending, no doctor whatever the request named; or 500 when
   * the schema rejects it (no date, no time, or a type outside the enum).
   */
  function NewAppointment(parent: Id, q: AppointmentRequest): (r: Result<Appointment>)
    ensures r.Ok? <==> q.scheduledDate.Some? && q.scheduledTime != "" && ParseType(q.kind).Some?
    ensures r.Err? ==> r.error == InternalError
    ensures r.Ok? ==>
      r.value.status == Pending && r.value.doctor == None && r.value.parent == parent &&
      r.value.child == q.childId && r.value.scheduledDate == q.scheduledDate.value &&
      r.value.scheduledTime == q.scheduledTime && r.value.vaccines == q.vaccines &&
      (q.kind == "" ==> r.value.kind == Vaccination) &&
      (q.kind != "" ==> TypeName(r.value.kind) == q.kind) && r.value.rejectionReason == None &&
      (q.notes.None? ==> r.value.notes == None) &&
      (q.notes.Some? ==> r.value.notes == Some(Trim(q.notes.value)))
  {
    var kind := ParseType(q.kind);
    if q.scheduledDate.None? || q.scheduledTime == "" || kind.None? then Err(InternalError)
    else
      Ok(Appointment(q.childId, parent, None, q.scheduledDate.value, q.scheduledTime, Pending,
                     kind.value, q.vaccines, if q.notes.Some? then Some(Trim(q.notes.value)) else None, None))
  }

  /**
   * `createAppointment` (parent): 403 unless the child exists and is the
   * caller's (an unknown child included), then the new appointment or 500.
   */
  method CreateAppointment(db: Db, caller: Actor, q: AppointmentRequest) returns (r: Result<Id>)
    requires db.Valid() && caller.role == Parent
    modifies db`appointments, db`nextId
    ensures db.Valid()
    ensures !(q.childId in db.children && db.children[q.childId].parent == caller.id) ==>
      r == Err(Forbidden) && db.appointments == old(db.appointments) && db.nextId == old(db.nextId)
    ensures q.childId in db.children && db.children[q.childId].parent == caller.id ==>
      match NewAppointment(caller.id, q)
      case Err(e) => r == Err(e) && db.appointments == old(db.appointments) && db.nextId == old(db.nextId)
      case Ok(a) => r == Ok(old(db.nextId)) && db.appointments == old(db.appointments)[r.value := a] &&
                    db.nextId == old(db.nextId) + 1
  {
    if q.childId !in db.children || db.children[q.childId].parent != caller.id {
      return Err(Forbidden);
    }
    var made := NewAppointment(caller.id, q);
    if made.Err? {
      return Err(made.error);
    }
    var id := db.AddAppointment(made.value);
    r := Ok(id);
  }

  // ---------------------------------------------------------------- update

  /** The body of `PUT /appointments/:id`; empty strings stand for absent ones. */
  datatype AppointmentUpdate = AppointmentUpdate(
    status: string,
    scheduledDate: Option<int>,
    scheduledTime: string,
    rejectionReason: string,
    notes: string)

  /**
   * The appointment as saved: each field given with a truthy value replaces
   * the stored one, whatever the current status; a doctor becomes the doctor
   * of an appointment that has none. A status outside the enum fails the
   * save with 500.
   */
  function ApplyUpdate(a: Appointment, caller: Actor, u: AppointmentUpdate): (r: Result<Appointment>)
    ensures r.Err? <==> u.status != "" && ParseStatus(u.status).None?
    ensures r.Err? ==> r.error == InternalError
    ensures r.Ok? ==>
      r.value.child == a.child && r.value.parent == a.parent && r.value.kind == a.kind &&
      r.value.vaccines == a.vaccines &&
      (u.status == "" ==> r.value.status == a.status) &&
      (u.status != "" ==> StatusName(r.value.status) == u.status) &&
      (u.scheduledDate.None? ==> r.value.scheduledDate == a.scheduledDate) &&
      (u.scheduledDate.Some? ==> r.value.scheduledDate == u.scheduledDate.value) &&
      (u.scheduledTime == "" ==> r.value.scheduledTime == a.scheduledTime) &&
      (u.scheduledTime != "" ==> r.value.scheduledTime == u.scheduledTime) &&
      (u.rejectionReason == "" ==> r.value.rejectionReason == a.rejectionReason) &&
      (u.rejectionReason != "" ==> r.value.rejectionReason == Some(Trim(u.rejectionReason))) &&
      (u.notes == "" ==> r.value.notes == a.notes) &&
      (u.notes != "" ==> r.value.notes == Some(Trim(u.notes)))
    ensures r.Ok? ==> (a.doctor.Some? ==> r.value.doctor == a.doctor)
    ensures r.Ok? ==> (a.doctor.None? && caller.role == Doctor ==> r.value.doctor == Some(caller.id))
    ensures r.Ok? ==> (caller.role != Doctor ==> r.value.doctor == a.doctor)
  {
    var status := ParseStatus(u.status);
    if u.status != "" && status.None? then Err(InternalError)
    else
      Ok(a.(status := if u.status != "" then status.value else a.status,
            scheduledDate := Pick(u.scheduledDate, a.scheduledDate),
            scheduledTime := if Truthy(u.scheduledTime) then u.scheduledTime else a.scheduledTime,
            rejectionReason := if Truthy(u.rejectionReason) then Some(Trim(u.rejectionReason)) else a.rejectionReason,
            notes := if Truthy(u.notes) then Some(Trim(u.notes)) else a.notes,
            doctor := if caller.role == Doctor && a.doctor.None? then Some(caller.id) else a.doctor))
  }

  /** An update may move any status to any other, with no check on the current one. */
  lemma AnyStatusChange(a: Appointment, caller: Actor, target: AppointmentStatus)
    ensures ApplyUpdate(a, caller, AppointmentUpdate(StatusName(target), None, "", "", "")).Ok?
    ensures ApplyUpdate(a, caller, AppointmentUpdate(StatusName(target), None, "", "", "")).value.status == target
  {
  }

  /** The notice an update sends the parent: for a confirmation, a rejection or a completion only. */
  function NoticeFor(status: string): (r: Option<NotificationType>)
    ensures r.Some? <==> status == "confirmed" || status == "rejected" || status == "completed"
    ensures r == Some(Alert) <==> status == "rejected"
  {
    if status == "confirmed" then Some(Confirmation)
    else if status == "rejected" then Some(Alert)
    else if status == "completed" then Some(Confirmation)
    else None
  }

  /** Of the five statuses, exactly the three decisions notify the parent. */
  lemma NoticeForDecisions(s: AppointmentStatus)
    ensures NoticeFor(StatusName(s)).Some? <==> s == Confirmed || s == Rejected || s == Completed
  {
  }

  /**
   * `updateAppointment` (any role): 404 for an unknown id. Otherwise the
   * updated appointment is saved and, when the status given is a decision,
   * the parent is notified; building that notice reads the child, so a
   * deleted child then makes it 500 after the save.
   */
  method UpdateAppointment(db: Db, caller: Actor, id: Id, u: AppointmentUpdate, now: int) returns (r: Result<Appointment>)
    requires db.Valid()
    modifies db`appointments, db`notifications, db`nextId
    ensures db.Valid()
    ensures id !in old(db.appointments) ==>
      r == Err(NotFound) && db.appointments == old(db.appointments) &&
      db.notifications == old(db.notifications) && db.nextId == old(db.nextId)
    ensures id in old(db.appointments) && ApplyUpdate(old(db.appointments)[id], caller, u).Err? ==>
      r == Err(InternalError) && db.appointments == old(db.appointments) &&
      db.notifications == old(db.notifications) && db.nextId == old(db.nextId)
    ensures id in old(db.appointments) && ApplyUpdate(old(db.appointments)[id], caller, u).Ok? ==>
      var saved := ApplyUpdate(old(db.appointments)[id], caller, u).value;
      var notice := NoticeFor(u.status);
      db.appointments == old(db.appointments)[id := saved] &&
      (notice.None? ==>
         r == Ok(saved) && db.notifications == old(db.notifications) && db.nextId == old(db.nextId)) &&
      (notice.Some? && saved.child in db.children ==>
         r == Ok(saved) && db.nextId == old(db.nextId) + 1 &&
         db.notifications == old(db.notifications)[old(db.nextId) :=
           NewNotification(saved.parent, notice.value, Some(saved.child), Some(id), None, now)]) &&
      (notice.Some? && saved.child !in db.children ==>
         r == Err(InternalError) && db.notifications == old(db.notifications) && db.nextId == old(db.nextId))
  {
    if id !in db.appointments {
      return Err(NotFound);
    }
    var updated := ApplyUpdate(db.appointments[id], caller, u);
    if updated.Err? {
      return Err(InternalError);
    }
    var saved := updated.value;
    db.appointments := db.appointments[id := saved];
    var notice := NoticeFor(u.status);
    if notice.None? {
      return Ok(saved);
    }
    if saved.child !in db.children {
      return Err(InternalError);
    }
    var _ := db.Notify(NewNotification(saved.parent, notice.value, Some(saved.child), Some(id), None, now));
    r := Ok(saved);
  }

  // ---------------------------------------------------------------- cancel

  /**
   * `deleteAppointment` (any role): 404 for an unknown id, 403 for a parent
   * on someone else's appointment; otherwise the appointment stays stored,
   * cancelled.
   */
  method DeleteAppointment(db: Db, caller: Actor, id: Id) returns (r: Result<()>)
    requires db.Valid()
    modifies db`appointments
    ensures db.Valid()
    ensures id !in old(db.appointments) ==> r == Err(NotFound) && db.appointments == old(db.appointments)
    ensures id in old(db.appointments) && caller.role == Parent && old(db.appointments)[id].parent != caller.id ==>
      r == Err(Forbidden) && db.appointments == old(db.appointments)
    ensures id in old(db.appointments) && !(caller.role == Parent && old(db.appointments)[id].parent != caller.id) ==>
      r == Ok(()) && db.appointments == old(db.appointments)[id := old(db.appointments)[id].(status := Cancelled)]
    ensures db.appointments.Keys == old(db.appointments).Keys
  {
    if id !in db.appointments {
      return Err(NotFound);
    }
    var a := db.appointments[id];
    if caller.role == Parent && a.parent != caller.id {
      return Err(Forbidden);
    }
    db.appointments := db.appointments[id := a.(status := Cancelled)];
    r := Ok(());
  }
}
