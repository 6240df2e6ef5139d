/**
 * Reports of reactions after a dose (server/controllers/sideEffectController.js):
 * a parent files a report and every active doctor is alerted; a doctor
 * reviews it and the child's parent is told.
 */
module SideEffectController {
  import opened Common
  import opened Sorting
  import opened UserModel
  import opened ChildModel
  import opened NotificationModel
  import opened SideEffectModel
  import opened Store

  predicate NewestFirst(a: (Id, SideEffect), b: (Id, SideEffect))
  {
    a.1.createdAt >= b.1.createdAt
  }

  /** The stored reports `keep` selects, newest first. */
  function Selected(effects: map<Id, SideEffect>, n: nat, keep: SideEffect -> bool): (r: seq<(Id, SideEffect)>)
    ensures SortedBy(r, NewestFirst)
    ensures forall e :: e in r <==> e.0 in effects && e.0 < n && effects[e.0] == e.1 && keep(e.1)
  {
    var picked: seq<(Id, SideEffect)> := Filter(Entries(effects, n), (e: (Id, SideEffect)) => keep(e.1));
    SortBySorted(picked, NewestFirst);
    assert forall e :: e in SortBy(picked, NewestFirst) <==> e in picked by {
      forall e ensures e in SortBy(picked, NewestFirst) <==> e in picked { SortByMembers(picked, NewestFirst, e); }
    }
    SortBy(picked, NewestFirst)
  }

  /** `getSideEffectsByChild`: the child's reports, newest first, for any signed-in user. */
  function GetSideEffectsByChild(effects: map<Id, SideEffect>, n: nat, childId: Id): (r: seq<(Id, SideEffect)>)
    ensures SortedBy(r, NewestFirst)
    ensures forall e :: e in r <==> e.0 in effects && e.0 < n && effects[e.0] == e.1 && e.1.child == childId
  {
    Selected(effects, n, (s: SideEffect) => s.child == childId)
  }

  /** `getAllSideEffects`: all reports, or those with the given status, newest first. */
  function GetAllSideEffects(effects: map<Id, SideEffect>, n: nat, caller: Actor, status: Option<ReviewStatus>)
    : (r: seq<(Id, SideEffect)>)
    requires caller.role == Doctor || caller.role == Admin
    ensures SortedBy(r, NewestFirst)
    ensures forall e :: e in r <==>
      e.0 in effects && e.0 < n && effects[e.0] == e.1 && (status.Some? ==> e.1.status == status.value)
  {
    Selected(effects, n, (s: SideEffect) => status.Some? ==> s.status == status.value)
  }

  /** Without a status filter every report is listed; each filtered listing is part of it. */
  lemma FilterNarrows(effects: map<Id, SideEffect>, n: nat, caller: Actor, status: ReviewStatus)
    requires caller.role == Doctor || caller.role == Admin
    ensures forall k :: k in effects && k < n ==> (k, effects[k]) in GetAllSideEffects(effects, n, caller, None)
    ensures forall e :: e in GetAllSideEffects(effects, n, caller, Some(status)) ==>
      e in GetAllSideEffects(effects, n, caller, None) && e.1.status == status
  {
  }

  // ------------------------------------------------------------- reporting

  /** The fields of a report. */
  datatype ReportForm = ReportForm(
    childId: Id,
    vaccinationId: Id,
    vaccineId: Id,
    symptoms: seq<Symptom>,
    severity: Option<Severity>,
    description: string,
    onsetDate: int,
    duration: string)

  /** The stored report: pending, mild unless stated, filed by the caller. */
  function NewReport(f: ReportForm, reporter: Id, now: int): (r: SideEffect)
    ensures r.child == f.childId && r.vaccination == f.vaccinationId && r.vaccine == f.vaccineId
    ensures r.reportedBy == reporter && r.symptoms == f.symptoms && r.severity == Pick(f.severity, Mild)
    ensures r.description == f.description && r.onsetDate == f.onsetDate && r.duration == f.duration
    ensures r.status == ReportPending && r.doctorNotes == None && r.reviewedBy == None && r.reviewedAt == None
    ensures r.createdAt == now
  {
    SideEffect(f.childId, f.vaccinationId, f.vaccineId, reporter, f.symptoms, Pick(f.severity, Mild),
               f.description, f.onsetDate, f.duration, ReportPending, None, None, None, now)
  }

  /** The alert for a new report, to one doctor. */
  function AlertFor(doctor: Id, child: Id, now: int): (a: Notification)
    ensures a.user == doctor && a.kind == Alert && a.relatedChild == Some(child) && !a.isRead && a.createdAt == now
  {
    NewNotification(doctor, Alert, Some(child), None, None, now)
  }

  /** The alerts to `doctors`, in order, under consecutive ids from `start`. */
  function AlertsFrom(start: nat, doctors: seq<(Id, User)>, child: Id, now: int): map<Id, Notification>
  {
    if doctors == [] then map[]
    else AlertsFrom(start, doctors[..|doctors| - 1], child, now)[start + |doctors| - 1 := AlertFor(doctors[|doctors| - 1].0, child, now)]
  }

  /** The ids of the alerts are the consecutive run from `start`, and the `i`-th goes to the `i`-th doctor. */
  lemma {:induction false} AlertsFromAt(start: nat, doctors: seq<(Id, User)>, child: Id, now: int)
    ensures forall k :: k in AlertsFrom(start, doctors, child, now) <==> start <= k < start + |doctors|
    ensures forall i :: 0 <= i < |doctors| ==> AlertsFrom(start, doctors, child, now)[start + i] == AlertFor(doctors[i].0, child, now)
  {
    if doctors != [] {
      var init := doctors[..|doctors| - 1];
      AlertsFromAt(start, init, child, now);
      assert forall i :: 0 <= i < |init| ==> init[i] == doctors[i];
    }
  }

  /** The loop over the doctors: one alert each, stored under consecutive ids. */
  method AlertDoctors(db: Db, doctors: seq<(Id, User)>, child: Id, now: int)
    requires db.Valid()
    modifies db`notifications, db`nextId
    ensures db.Valid()
    ensures db.nextId == old(db.nextId) + |doctors|
    ensures db.notifications == old(db.notifications) + AlertsFrom(old(db.nextId), doctors, child, now)
  {
    ghost var start := db.nextId;
    ghost var base := db.notifications;
    for i := 0 to |doctors|
      invariant db.Valid()
      invariant db.nextId == start + i
      invariant db.notifications == base + AlertsFrom(start, doctors[..i], child, now)
    {
      var note := AlertFor(doctors[i].0, child, now);
      var id := db.Notify(note);
      assert doctors[..i + 1][..i] == doctors[..i];
      MergeUpdate(base, AlertsFrom(start, doctors[..i], child, now), start + i, note);
    }
    assert doctors[..|doctors|] == doctors;
  }

  /** The alerts a report sends when its first alert gets id `start`. */
  function Sent(users: map<Id, User>, n: nat, start: nat, child: Id, now: int): map<Id, Notification>
  {
    AlertsFrom(start, ActiveDoctors(users, n), child, now)
  }

  /** Every alert goes, unread, to an active doctor and names the child. */
  lemma AlertGoesToActiveDoctor(users: map<Id, User>, n: nat, start: nat, child: Id, now: int, k: Id)
    requires k in Sent(users, n, start, child, now)
    ensures var a := Sent(users, n, start, child, now)[k];
      a.user in users && a.user < n && users[a.user].role == Doctor && users[a.user].isActive &&
      a.kind == Alert && a.relatedChild == Some(child) && !a.isRead && a.createdAt == now
  {
    var doctors := ActiveDoctors(users, n);
    AlertsFromAt(start, doctors, child, now);
    var i := k - start;
    assert AlertsFrom(start, doctors, child, now)[start + i] == AlertFor(doctors[i].0, child, now);
    assert doctors[i] in doctors;
  }

  /** Every active doctor gets an alert. */
  lemma ActiveDoctorAlerted(users: map<Id, User>, n: nat, start: nat, child: Id, now: int, d: Id)
    requires d in users && d < n && users[d].role == Doctor && users[d].isActive
    ensures exists k :: k in Sent(users, n, start, child, now) && Sent(users, n, start, child, now)[k].user == d
  {
    var doctors := ActiveDoctors(users, n);
    assert (d, users[d]) in doctors;
    var i :| 0 <= i < |doctors| && doctors[i] == (d, users[d]);
    AlertsFromAt(start, doctors, child, now);
    assert start + i in Sent(users, n, start, child, now) && Sent(users, n, start, child, now)[start + i].user == d;
  }

  /** The success path of `reportSideEffect`: the report is stored, then the active doctors are alerted. */
  method FileReport(db: Db, report: SideEffect, now: int) returns (id: Id)
    requires db.Valid()
    modifies db`sideEffects, db`notifications, db`nextId
    ensures db.Valid()
    ensures id == old(db.nextId)
    ensures db.sideEffects == old(db.sideEffects)[id := report]
    ensures db.notifications == old(db.notifications) + Sent(old(db.users), id + 1, id + 1, report.child, now)
  {
    id := db.AddSideEffect(report);
    var doctors := ActiveDoctors(db.users, db.nextId);
    AlertDoctors(db, doctors, report.child, now);
  }

  /**
   * `reportSideEffect`: 404 for an unknown child, 403 for another parent's
   * child; otherwise the report is stored and then every active doctor is
   * alerted, in natural order.
   */
  method ReportSideEffect(db: Db, caller: Actor, f: ReportForm, now: int) returns (r: Result<Id>)
    requires db.Valid()
    requires caller.role == Parent
    modifies db`sideEffects, db`notifications, db`nextId
    ensures db.Valid()
    ensures f.childId !in old(db.children) ==> r == Err(NotFound)
    ensures f.childId in old(db.children) && !CanAccess(caller, old(db.children)[f.childId]) ==> r == Err(Forbidden)
    ensures !(f.childId in old(db.children) && CanAccess(caller, old(db.children)[f.childId])) ==>
      unchanged(db`sideEffects, db`notifications, db`nextId)
    ensures f.childId in old(db.children) && CanAccess(caller, old(db.children)[f.childId]) ==> (r == Ok(old(db.nextId)) &&
      db.sideEffects == old(db.sideEffects)[old(db.nextId) := NewReport(f, caller.id, now)] &&
      db.notifications == old(db.notifications) + Sent(old(db.users), old(db.nextId) + 1, old(db.nextId) + 1, f.childId, now))
  {
    if f.childId !in db.children {
      r := Err(NotFound);
    } else if !CanAccess(caller, db.children[f.childId]) {
      r := Err(Forbidden);
    } else {
      var id := FileReport(db, NewReport(f, caller.id, now), now);
      r := Ok(id);
    }
  }

  // ------------------------------------------------------------- review

  /**
   * `reviewSideEffect`'s edit: a given status and non-empty notes replace the
   * old ones; a status of reviewed or resolved records the reviewer and the time.
   */
  function ApplyReview(s: SideEffect, reviewer: Id, status: Option<ReviewStatus>, notes: Option<string>, now: int)
    : (r: SideEffect)
    ensures r.status == Pick(status, s.status)
    ensures r.doctorNotes == (if notes.Some? && notes.value != "" then notes else s.doctorNotes)
    ensures status == Some(ReportReviewed) || status == Some(Resolved) ==>
      r.reviewedBy == Some(reviewer) && r.reviewedAt == Some(now)
    ensures !(status == Some(ReportReviewed) || status == Some(Resolved)) ==>
      r.reviewedBy == s.reviewedBy && r.reviewedAt == s.reviewedAt
    ensures r.(status := s.status, doctorNotes := s.doctorNotes, reviewedBy := s.reviewedBy, reviewedAt := s.reviewedAt) == s
  {
    var s1 := s.(status := Pick(status, s.status),
                 doctorNotes := if notes.Some? && notes.value != "" then notes else s.doctorNotes);
    if status == Some(ReportReviewed) || status == Some(Resolved) then s1.(reviewedBy := Some(reviewer), reviewedAt := Some(now))
    else s1
  }

  /** An empty review changes nothing, and a review repeated at the same time changes nothing more. */
  lemma ReviewLaws(s: SideEffect, reviewer: Id, status: Option<ReviewStatus>, notes: Option<string>, now: int)
    ensures ApplyReview(s, reviewer, None, None, now) == s
    ensures ApplyReview(ApplyReview(s, reviewer, status, notes, now), reviewer, status, notes, now) ==
      ApplyReview(s, reviewer, status, notes, now)
  {
  }

  /**
   * `reviewSideEffect`: 404 for an unknown report; otherwise the edit is
   * saved and, when the child still exists, its parent gets a confirmation.
   */
  method ReviewSideEffect(db: Db, caller: Actor, id: Id, status: Option<ReviewStatus>, notes: Option<string>, now: int)
    returns (r: Result<SideEffect>)
    requires db.Valid()
    requires caller.role == Doctor || caller.role == Admin
    modifies db`sideEffects, db`notifications, db`nextId
    ensures db.Valid()
    ensures id !in old(db.sideEffects) <==> r == Err(NotFound)
    ensures r.Err? ==> db.sideEffects == old(db.sideEffects) && db.notifications == old(db.notifications)
    ensures r.Ok? ==> (id in old(db.sideEffects) &&
      r.value == ApplyReview(old(db.sideEffects)[id], caller.id, status, notes, now) &&
      db.sideEffects == old(db.sideEffects)[id := r.value])
    ensures r.Ok? && r.value.child in old(db.children) ==> (db.nextId == old(db.nextId) + 1 &&
      db.notifications == old(db.notifications)[old(db.nextId) :=
        NewNotification(old(db.children)[r.value.child].parent, Confirmation, Some(r.value.child), None, None, now)])
    ensures r.Ok? && r.value.child !in old(db.children) ==> db.notifications == old(db.notifications)
  {
    if id !in db.sideEffects {
      return Err(NotFound);
    }
    var reviewed := ApplyReview(db.sideEffects[id], caller.id, status, notes, now);
    db.PutSideEffect(id, reviewed);
    if reviewed.child in db.children {
      var parent := db.children[reviewed.child].parent;
      var _ := db.Notify(NewNotification(parent, Confirmation, Some(reviewed.child), None, None, now));
    }
    r := Ok(reviewed);
  }
}
