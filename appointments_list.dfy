/**
 * The appointments page (client/src/pages/appointments/AppointmentsList.jsx):
 * the split into upcoming and past appointments, the status badges, the
 * request form and which actions each role is offered. Statuses arrive as
 * the server's strings, so an unknown one is possible.
 */
module AppointmentsList {
  import opened Common
  import AppointmentController

  /** An appointment as the page receives it. */
  datatype Item = Item(id: string, status: string, scheduledDate: int)

  predicate IsOpen(status: string)
  {
    status == "pending" || status == "confirmed"
  }

  predicate IsClosed(status: string)
  {
    status == "completed" || status == "rejected" || status == "cancelled"
  }

  predicate InUpcoming(a: Item, now: int)
  {
    IsOpen(a.status) && a.scheduledDate >= now
  }

  predicate InPast(a: Item, now: int)
  {
    IsClosed(a.status) || a.scheduledDate < now
  }

  /** `groupedAppointments.upcoming`: open appointments not yet due, in the order received. */
  function Upcoming(items: seq<Item>, now: int): (r: seq<Item>)
    ensures forall a :: a in r <==> a in items && InUpcoming(a, now)
    ensures IsSubsequence(r, items)
  {
    Filter(items, (a: Item) => InUpcoming(a, now))
  }

  /** `groupedAppointments.past`: closed or overdue appointments, in the order received. */
  function Past(items: seq<Item>, now: int): (r: seq<Item>)
    ensures forall a :: a in r <==> a in items && InPast(a, now)
    ensures IsSubsequence(r, items)
  {
    Filter(items, (a: Item) => InPast(a, now))
  }

  /** The history table shows the first ten past appointments. */
  function History(items: seq<Item>, now: int): (r: seq<Item>)
    ensures |r| == if |Past(items, now)| < 10 then |Past(items, now)| else 10
    ensures r <= Past(items, now)
  {
    Take(Past(items, now), 10)
  }

  /**
   * For the five statuses of the schema every appointment is in exactly one
   * group; an appointment with another status is past when overdue and in
   * no group otherwise.
   */
  lemma GroupsPartition(items: seq<Item>, now: int, a: Item)
    requires a in items
    ensures AppointmentController.ParseStatus(a.status).Some? ==> (a in Upcoming(items, now) <==> a !in Past(items, now))
    ensures AppointmentController.ParseStatus(a.status).None? ==> a !in Upcoming(items, now) && (a in Past(items, now) <==> a.scheduledDate < now)
  {
  }

  datatype BadgeClass = Warning | Success | Primary | Danger | Gray

  /** A badge's text: a translation key, or the raw status for one the table lacks. */
  datatype BadgeText = Key(key: string) | Raw(status: string)

  /** `getStatusBadge`. */
  function Badge(status: string): (r: (BadgeClass, BadgeText))
    ensures AppointmentController.ParseStatus(status).None? ==> r == (Gray, Raw(status))
    ensures AppointmentController.ParseStatus(status).Some? ==> r.1 == Key("appointments." + status)
    ensures r.0 == Gray <==> status == "cancelled" || AppointmentController.ParseStatus(status).None?
  {
    if status == "pending" then (Warning, Key("appointments." + status))
    else if status == "confirmed" then (Success, Key("appointments." + status))
    else if status == "completed" then (Primary, Key("appointments." + status))
    else if status == "rejected" then (Danger, Key("appointments." + status))
    else if status == "cancelled" then (Gray, Key("appointments." + status))
    else (Gray, Raw(status))
  }

  /** The request form. */
  datatype Form = Form(childId: string, doctorId: string, scheduledDate: string, scheduledTime: string,
                       vaccines: seq<string>, notes: string)

  /** The form as the page opens it: the child from the `child` query parameter, 09:00, nothing else. */
  function DefaultForm(childParam: Option<string>): (f: Form)
    ensures f.childId == (if childParam.Some? then childParam.value else "")
    ensures f.doctorId == "" && f.scheduledDate == "" && f.scheduledTime == "09:00" && f.vaccines == [] && f.notes == ""
  {
    Form(if childParam.Some? then childParam.value else "", "", "", "09:00", [], "")
  }

  /** The request body: the form without `doctorId`, whose value goes under `doctor`, or nowhere when empty. */
  datatype Request = Request(childId: string, doctor: Option<string>, scheduledDate: string, scheduledTime: string,
                             vaccines: seq<string>, notes: string)

  function SubmitData(f: Form): (r: Request)
    ensures r.doctor.None? <==> f.doctorId == ""
    ensures r.doctor.Some? ==> r.doctor.value == f.doctorId
    ensures r.childId == f.childId && r.scheduledDate == f.scheduledDate && r.scheduledTime == f.scheduledTime
    ensures r.vaccines == f.vaccines && r.notes == f.notes
  {
    Request(f.childId, if f.doctorId == "" then None else Some(f.doctorId), f.scheduledDate, f.scheduledTime, f.vaccines, f.notes)
  }

  /** After a successful request the form is back to its defaults, without the query's child. */
  function AfterSubmit(f: Form): (r: Form)
    ensures r == DefaultForm(None)
  {
    Form("", "", "", "09:00", [], "")
  }

  /** Picking a free slot fills in the doctor, the day and the slot's start; the rest of the form stays. */
  function PickSlot(f: Form, doctorId: string, date: string, startTime: string): (r: Form)
    ensures r.doctorId == doctorId && r.scheduledDate == date && r.scheduledTime == startTime
    ensures r.childId == f.childId && r.vaccines == f.vaccines && r.notes == f.notes
  {
    f.(doctorId := doctorId, scheduledDate := date, scheduledTime := startTime)
  }

  /** The statuses an upcoming card lets the viewer set. */
  function Actions(isParent: bool, isDoctor: bool, status: string): (r: set<string>)
    ensures "confirmed" in r || "rejected" in r <==> isDoctor && status == "pending"
    ensures "completed" in r <==> isDoctor && status == "confirmed"
    ensures "cancelled" in r <==> isParent && status == "pending"
    ensures r <= {"confirmed", "rejected", "completed", "cancelled"}
  {
    (if isDoctor && status == "pending" then {"confirmed", "rejected"} else {}) +
    (if isDoctor && status == "confirmed" then {"completed"} else {}) +
    (if isParent && status == "pending" then {"cancelled"} else {})
  }

  /** Closed appointments offer nobody an action. */
  lemma ClosedOffersNothing(isParent: bool, isDoctor: bool, status: string)
    requires IsClosed(status)
    ensures Actions(isParent, isDoctor, status) == {}
  {
  }
}
