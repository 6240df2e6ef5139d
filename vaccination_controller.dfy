/**
 * Dose records after enrolment (server/controllers/vaccinationController.js):
 * a child's records, the administer/update operation, the overdue scan, the
 * upcoming window and the statistics.
 */
module VaccinationController {
  import opened Common
  import opened Sorting
  import opened Time
  import opened ChildModel
  import opened RecordModel
  import opened NotificationModel
  import opened Store

  /** Ascending `scheduledDate`, the order of every record listing. */
  predicate DateLe(a: (Id, DoseRecord), b: (Id, DoseRecord))
  {
    a.1.scheduledDate <= b.1.scheduledDate
  }

  /** Sorting entries by `le` keeps exactly the entries. */
  lemma SortedEntries(s: seq<(Id, DoseRecord)>, le: ((Id, DoseRecord), (Id, DoseRecord)) -> bool)
    requires TotalPreorder(le)
    ensures SortedBy(SortBy(s, le), le)
    ensures forall e :: e in SortBy(s, le) <==> e in s
  {
    SortBySorted(s, le);
    forall e ensures e in SortBy(s, le) <==> e in s { SortByMembers(s, le, e); }
  }

  /** `getVaccinationsByChild`: the child's records, earliest scheduled first. */
  function RecordsOfChild(records: map<Id, DoseRecord>, n: nat, child: Id): (r: seq<(Id, DoseRecord)>)
    ensures forall e :: e in r <==> e.0 in records && e.0 < n && records[e.0] == e.1 && e.1.child == child
    ensures SortedBy(r, DateLe)
  {
    var mine: seq<(Id, DoseRecord)> := Filter(Entries(records, n), (e: (Id, DoseRecord)) => e.1.child == child);
    SortedEntries(mine, DateLe);
    SortBy(mine, DateLe)
  }

  // ---------------------------------------------------------------- update

  /** The fields of a `PUT /vaccinations/:id` body; empty strings stand for absent ones. */
  datatype StatusUpdate = StatusUpdate(
    status: DoseStatus,
    administeredDate: Option<int>,
    notes: string,
    batchNumber: string)

  /** The record as saved: the requested status from any current one, the caller as doctor. */
  function ApplyStatus(rec: DoseRecord, doctor: Id, u: StatusUpdate, now: int): DoseRecord
  {
    rec.(status := u.status,
         doctor := Some(doctor),
         administeredDate := if u.status == Completed then Some(Pick(u.administeredDate, now)) else rec.administeredDate,
         notes := if Truthy(u.notes) then Some(u.notes) else rec.notes,
         batchNumber := if Truthy(u.batchNumber) then Some(u.batchNumber) else rec.batchNumber)
  }

  /**
   * Any status can be written over any other. The administered date is set,
   * to the given date or now, only on completion and is never cleared;
   * notes and batch number change only when a non-empty value is given; the
   * child, vaccine, dose number and scheduled date are kept.
   */
  lemma ApplyStatusEffect(rec: DoseRecord, doctor: Id, u: StatusUpdate, now: int)
    ensures var r := ApplyStatus(rec, doctor, u, now);
      r.status == u.status && r.doctor == Some(doctor) &&
      (u.status == Completed ==> r.administeredDate == Some(if u.administeredDate.Some? then u.administeredDate.value else now)) &&
      (u.status != Completed ==> r.administeredDate == rec.administeredDate) &&
      (rec.administeredDate.Some? ==> r.administeredDate.Some?) &&
      (r.notes != rec.notes ==> r.notes == Some(u.notes) && u.notes != "") &&
      (r.batchNumber != rec.batchNumber ==> r.batchNumber == Some(u.batchNumber) && u.batchNumber != "") &&
      r.child == rec.child && r.vaccine == rec.vaccine &&
      r.doseNumber == rec.doseNumber && r.scheduledDate == rec.scheduledDate
  {
  }

  /** The update allows every transition, a completed dose back to scheduled included. */
  lemma AnyTransition(rec: DoseRecord, doctor: Id, target: DoseStatus, now: int)
    ensures ApplyStatus(rec, doctor, StatusUpdate(target, None, "", ""), now).status == target
  {
  }

  /**
   * `updateVaccinationStatus` (doctor or admin). An unknown id gives 404 and
   * changes nothing. Otherwise the record is saved first; then, when both the
   * child and the vaccine it refers to still exist, the child's parent gets
   * one confirmation notification whatever the new status. When either is
   * gone, reading its fields throws after the save, so the answer is 500 and
   * no notification is made.
   */
  method UpdateVaccinationStatus(db: Db, caller: Actor, id: Id, u: StatusUpdate, now: int)
    returns (r: Result<DoseRecord>)
    requires db.Valid() && (caller.role == Doctor || caller.role == Admin)
    modifies db`records, db`notifications, db`nextId
    ensures db.Valid()
    ensures id !in old(db.records) ==>
      r == Err(NotFound) && db.records == old(db.records) &&
      db.notifications == old(db.notifications) && db.nextId == old(db.nextId)
    ensures id in old(db.records) ==>
      var saved := ApplyStatus(old(db.records)[id], caller.id, u, now);
      db.records == old(db.records)[id := saved] &&
      if saved.child in db.children && saved.vaccine in db.vaccines then
        r == Ok(saved) &&
        db.notifications == old(db.notifications)[old(db.nextId) :=
          NewNotification(db.children[saved.child].parent, Confirmation, Some(saved.child), None, Some(saved.vaccine), now)] &&
        db.nextId == old(db.nextId) + 1
      else
        r == Err(InternalError) && db.notifications == old(db.notifications) && db.nextId == old(db.nextId)
  {
    if id !in db.records {
      return Err(NotFound);
    }
    var saved := ApplyStatus(db.records[id], caller.id, u, now);
    db.records := db.records[id := saved];
    if saved.child !in db.children || saved.vaccine !in db.vaccines {
      return Err(InternalError);
    }
    var parent := db.children[saved.child].parent;
    var _ := db.Notify(NewNotification(parent, Confirmation, Some(saved.child), None, Some(saved.vaccine), now));
    r := Ok(saved);
  }

  // ---------------------------------------------------------- overdue scan

  /** The scan's query: still open (scheduled or delayed) and due before now. */
  predicate Overdue(r: DoseRecord, now: int)
  {
    (r.status == Scheduled || r.status == Delayed) && r.scheduledDate < now
  }

  /** The records the scan answers with, as read before its update, earliest first. */
  function OverdueList(records: map<Id, DoseRecord>, n: nat, now: int): (r: seq<(Id, DoseRecord)>)
    ensures forall e :: e in r <==> e.0 in records && e.0 < n && records[e.0] == e.1 && Overdue(e.1, now)
    ensures SortedBy(r, DateLe)
  {
    var due: seq<(Id, DoseRecord)> := Filter(Entries(records, n), (e: (Id, DoseRecord)) => Overdue(e.1, now));
    SortedEntries(due, DateLe);
    SortBy(due, DateLe)
  }

  /** One record after the scan's `updateMany`: a listed record still `scheduled` becomes `delayed`. */
  function Mark(r: DoseRecord, now: int): DoseRecord
  {
    if Overdue(r, now) && r.status == Scheduled then r.(status := Delayed) else r
  }

  /** The store after the scan. */
  function MarkDelayed(records: map<Id, DoseRecord>, now: int): (m: map<Id, DoseRecord>)
    ensures m.Keys == records.Keys
    ensures forall k :: k in m ==> m[k] == Mark(records[k], now)
  {
    map k | k in records :: Mark(records[k], now)
  }

  /**
   * The scan only moves records forward: completed, missed and cancelled
   * records are untouched, nothing becomes `scheduled`, and only the status
   * of a past-due scheduled record changes, to `delayed`.
   */
  lemma MarkOnlyForward(r: DoseRecord, now: int)
    ensures var m := Mark(r, now);
      (r.status in {Completed, Missed, Cancelled} ==> m == r) &&
      (m.status == Scheduled ==> r.status == Scheduled && now <= r.scheduledDate && m == r) &&
      (m != r ==> r.status == Scheduled && r.scheduledDate < now && m == r.(status := Delayed))
  {
  }

  /** A second scan at the same instant changes nothing. */
  lemma {:induction false} ScanIdempotent(records: map<Id, DoseRecord>, now: int)
    ensures MarkDelayed(MarkDelayed(records, now), now) == MarkDelayed(records, now)
  {
    var once := MarkDelayed(records, now);
    var twice := MarkDelayed(once, now);
    forall k | k in twice ensures twice[k] == once[k] {
      assert once[k] == Mark(records[k], now);
    }
  }

  /** After a scan, nothing open is still scheduled in the past, and a second scan lists the same records. */
  lemma {:induction false} ScanSettles(records: map<Id, DoseRecord>, n: nat, now: int, k: Id)
    requires k in records
    ensures var after := MarkDelayed(records, now);
      !(after[k].status == Scheduled && after[k].scheduledDate < now) &&
      (Overdue(after[k], now) <==> Overdue(records[k], now))
  {
  }

  /** The ids of a listing. */
  function IdsOf(listed: seq<(Id, DoseRecord)>): (ids: set<Id>)
    ensures forall k :: k in ids <==> exists e :: e in listed && e.0 == k
  {
    set e | e in listed :: e.0
  }

  /** The scan's `updateMany`: the listed records still `scheduled` become `delayed`. */
  function SetDelayed(records: map<Id, DoseRecord>, ids: set<Id>): (m: map<Id, DoseRecord>)
    ensures m.Keys == records.Keys
  {
    map k | k in records :: if k in ids && records[k].status == Scheduled then records[k].(status := Delayed) else records[k]
  }

  /** In a valid store, a record is listed by the scan exactly when it is overdue. */
  lemma {:induction false} ListedIffOverdue(records: map<Id, DoseRecord>, n: nat, now: int, k: Id)
    requires Below(records, n) && k in records
    ensures k in IdsOf(OverdueList(records, n, now)) <==> Overdue(records[k], now)
  {
    var listed := OverdueList(records, n, now);
    if Overdue(records[k], now) {
      assert (k, records[k]) in listed;
    }
  }

  /** In a valid store, updating the listed records is the same as marking every record. */
  lemma {:induction false} SetDelayedIsMark(records: map<Id, DoseRecord>, n: nat, now: int)
    requires Below(records, n)
    ensures SetDelayed(records, IdsOf(OverdueList(records, n, now))) == MarkDelayed(records, now)
  {
    var ids := IdsOf(OverdueList(records, n, now));
    var lhs := SetDelayed(records, ids);
    var rhs := MarkDelayed(records, now);
    forall k | k in records ensures lhs[k] == rhs[k] {
      ListedIffOverdue(records, n, now, k);
    }
  }

  /**
   * `getDelayedVaccinations` (doctor or admin): answers the overdue records as
   * they were, then sets every one of them still `scheduled` to `delayed`.
   */
  method GetDelayedVaccinations(db: Db, caller: Actor, now: int) returns (listed: seq<(Id, DoseRecord)>)
    requires db.Valid() && (caller.role == Doctor || caller.role == Admin)
    modifies db`records
    ensures db.Valid()
    ensures listed == OverdueList(old(db.records), db.nextId, now)
    ensures db.records == MarkDelayed(old(db.records), now)
  {
    listed := OverdueList(db.records, db.nextId, now);
    SetDelayedIsMark(db.records, db.nextId, now);
    db.records := SetDelayed(db.records, IdsOf(listed));
  }

  // -------------------------------------------------------------- upcoming

  /** The upcoming window: scheduled, between now and one month from now, both ends included. */
  predicate InWindow(r: DoseRecord, now: int)
  {
    r.status == Scheduled && now <= r.scheduledDate <= AddMonths(now, 1)
  }

  const UpcomingLimit: nat := 50

  /** The whole window, earliest first. */
  function WindowSorted(records: map<Id, DoseRecord>, n: nat, now: int): (r: seq<(Id, DoseRecord)>)
    ensures forall e :: e in r <==> e.0 in records && e.0 < n && records[e.0] == e.1 && InWindow(e.1, now)
    ensures SortedBy(r, DateLe)
  {
    var window: seq<(Id, DoseRecord)> := Filter(Entries(records, n), (e: (Id, DoseRecord)) => InWindow(e.1, now));
    SortedEntries(window, DateLe);
    SortBy(window, DateLe)
  }

  /** `getUpcomingVaccinations`: at most 50 records of the window, earliest first. */
  function Upcoming(records: map<Id, DoseRecord>, n: nat, now: int): (r: seq<(Id, DoseRecord)>)
    ensures |r| <= UpcomingLimit
    ensures forall e :: e in r ==> e.0 in records && e.0 < n && records[e.0] == e.1 && InWindow(e.1, now)
    ensures SortedBy(r, DateLe)
  {
    var sorted := WindowSorted(records, n, now);
    var r := Take(sorted, UpcomingLimit);
    assert forall e :: e in r ==> e in sorted;
    r
  }

  /**
   * The listed records are the window's earliest: a record of the window
   * left out means the limit was reached and it is due no earlier than any
   * listed one.
   */
  lemma {:induction false} UpcomingEarliest(records: map<Id, DoseRecord>, n: nat, now: int, k: Id)
    requires k in records && k < n && InWindow(records[k], now)
    requires (k, records[k]) !in Upcoming(records, n, now)
    ensures |Upcoming(records, n, now)| == UpcomingLimit
    ensures forall x :: x in Upcoming(records, n, now) ==> x.1.scheduledDate <= records[k].scheduledDate
  {
    var sorted := WindowSorted(records, n, now);
    assert (k, records[k]) in sorted;
    PrefixPrecedes(sorted, UpcomingLimit, DateLe, (k, records[k]));
  }

  // ----------------------------------------------------------------- stats

  /** Integer division by a positive divisor lies within one divisor of the dividend. */
  lemma DivBounds(x: int, d: int)
    requires d > 0
    ensures d * (x / d) <= x < d * (x / d) + d
  {
  }

  /** A positive factor keeps the sign of a product. */
  lemma PositiveFactor(d: int, y: int)
    requires d > 0 && d * y > 0
    ensures y > 0
  {
  }

  /** The quotient is determined by a decomposition with a remainder below the divisor. */
  lemma DivUnique(x: int, d: int, q: int, m: int)
    requires d > 0 && 0 <= m < d && x == d * q + m
    ensures x / d == q
  {
    DivBounds(x, d);
    PositiveFactor(d, x / d - q + 1);
    PositiveFactor(d, q - x / d + 1);
  }

  /** `Math.round(100 * c / t)` for t > 0, on integers: the nearest integer, halves rounded up. */
  function RoundPercent(c: nat, t: nat): (r: int)
    requires t > 0
    ensures 2 * t * r <= 200 * c + t < 2 * t * r + 2 * t
    ensures c <= t ==> 0 <= r <= 100
    ensures c == t ==> r == 100
  {
    var d := 2 * t;
    var x := 200 * c + t;
    var r := x / d;
    DivBounds(x, d);
    assert c <= t ==> r <= 100 by {
      if c <= t {
        assert d * (101 - r) == d * 101 - d * r;
        PositiveFactor(d, 101 - r);
      }
    }
    assert c == t ==> r == 100 by {
      if c == t { DivUnique(x, d, 100, t); }
    }
    r
  }

  /** `completionRate`: 0 without completions, else the rounded share of completed among completed, scheduled and delayed. */
  function CompletionRate(completed: nat, scheduled: nat, delayed: nat): (r: int)
    ensures 0 <= r <= 100
    ensures completed == 0 ==> r == 0
    ensures completed > 0 && scheduled + delayed == 0 ==> r == 100
  {
    if completed > 0 then RoundPercent(completed, completed + scheduled + delayed) else 0
  }

  datatype Stats = Stats(
    totalChildren: nat,
    completedThisMonth: nat,
    delayed: nat,
    scheduled: nat,
    completed: nat,
    completionRate: int)

  /** The records a caller's statistics cover: a parent's own children's, everyone's for other roles. */
  predicate InScope(children: map<Id, Child>, caller: Actor, r: DoseRecord)
  {
    caller.role == Parent ==> r.child in children && children[r.child].parent == caller.id
  }

  /** The children counted: active ones, and only the caller's own for a parent. */
  predicate CountedChild(caller: Actor, c: Child)
  {
    c.isActive && (caller.role == Parent ==> c.parent == caller.id)
  }

  /**
   * The `completedThisMonth` window as written: from the first of the month
   * to the last day of the month at 00:00, both included.
   */
  predicate CompletedInMonthAsWritten(r: DoseRecord, monthStart: int, lastDay: int)
    ensures r.administeredDate.Some? && r.administeredDate.value > lastDay ==> !CompletedInMonthAsWritten(r, monthStart, lastDay)
  {
    r.status == Completed && r.administeredDate.Some? &&
    monthStart <= r.administeredDate.value <= lastDay
  }

  /** The whole calendar month: from its first instant up to the next month's first. */
  predicate CompletedInMonth(r: DoseRecord, monthStart: int, nextMonthStart: int)
    ensures CompletedInMonth(r, monthStart, nextMonthStart) <==> CompletedInMonthAsWritten(r, monthStart, nextMonthStart - 1)
  {
    r.status == Completed && r.administeredDate.Some? &&
    monthStart <= r.administeredDate.value < nextMonthStart
  }

  /**
   * A dose completed on the last day of the month after midnight is outside
   * the window as written, though it is in that month.
   */
  lemma LastDayOfMonthMissed(monthStart: int, d: DoseRecord)
    requires d.status == Completed && d.administeredDate == Some(monthStart + MonthMs - DayMs + HourMs)
    ensures !CompletedInMonthAsWritten(d, monthStart, monthStart + MonthMs - DayMs)
    ensures CompletedInMonth(d, monthStart, monthStart + MonthMs)
  {
  }

  /** Every dose the written window counts is also in the whole-month window. */
  lemma MonthWindowContainsWritten(d: DoseRecord, monthStart: int)
    requires CompletedInMonthAsWritten(d, monthStart, monthStart + MonthMs - DayMs)
    ensures CompletedInMonth(d, monthStart, monthStart + MonthMs)
  {
  }

  function MonthStart(t: int): (r: int)
    ensures r <= t < r + MonthMs
  {
    t - t % MonthMs
  }

  /** The records a caller's statistics count, in id order. */
  function Scoped(children: map<Id, Child>, records: map<Id, DoseRecord>, n: nat, caller: Actor): (r: seq<(Id, DoseRecord)>)
    ensures forall e :: e in r <==> e in Entries(records, n) && InScope(children, caller, e.1)
  {
    Filter(Entries(records, n), (e: (Id, DoseRecord)) => InScope(children, caller, e.1))
  }

  /** `endOfMonth` as written: the last day of the current month at 00:00. */
  function LastDayAsWritten(now: int): (r: int)
    ensures MonthStart(now) <= r < MonthStart(now) + MonthMs
    ensures r + DayMs == MonthStart(now) + MonthMs
  {
    MonthStart(now) + MonthMs - DayMs
  }

  /** The completions `getVaccinationStats` counts for this month, through the window as written. */
  function ThisMonthAsWritten(scoped: seq<(Id, DoseRecord)>, now: int): nat
  {
    Count(scoped, (e: (Id, DoseRecord)) => CompletedInMonthAsWritten(e.1, MonthStart(now), LastDayAsWritten(now)))
  }

  /** The completions of the whole current month. */
  function ThisMonth(scoped: seq<(Id, DoseRecord)>, now: int): nat
  {
    Count(scoped, (e: (Id, DoseRecord)) => CompletedInMonth(e.1, MonthStart(now), MonthStart(now) + MonthMs))
  }

  /** The written window never counts more than the whole month does, and each count is at most the completions. */
  lemma ThisMonthBounds(scoped: seq<(Id, DoseRecord)>, now: int)
    ensures ThisMonthAsWritten(scoped, now) <= ThisMonth(scoped, now)
    ensures ThisMonth(scoped, now) <= Count(scoped, (e: (Id, DoseRecord)) => e.1.status == Completed)
  {
    CountMonotone(scoped, (e: (Id, DoseRecord)) => CompletedInMonthAsWritten(e.1, MonthStart(now), LastDayAsWritten(now)),
                  (e: (Id, DoseRecord)) => CompletedInMonth(e.1, MonthStart(now), MonthStart(now) + MonthMs));
    CountMonotone(scoped, (e: (Id, DoseRecord)) => CompletedInMonth(e.1, MonthStart(now), MonthStart(now) + MonthMs),
                  (e: (Id, DoseRecord)) => e.1.status == Completed);
  }

  /**
   * `getVaccinationStats`. Every count is over the records in the caller's
   * scope; `completedThisMonth` uses the window as written, up to the last
   * day of the month at 00:00.
   */
  function GetStats(children: map<Id, Child>, records: map<Id, DoseRecord>, n: nat, caller: Actor, now: int): (s: Stats)
    ensures var scoped := Scoped(children, records, n, caller);
      && s.completed == Count(scoped, (e: (Id, DoseRecord)) => e.1.status == Completed)
      && s.scheduled == Count(scoped, (e: (Id, DoseRecord)) => e.1.status == Scheduled)
      && s.delayed == Count(scoped, (e: (Id, DoseRecord)) => e.1.status == Delayed)
      && s.completedThisMonth == ThisMonthAsWritten(scoped, now)
      && s.completed + s.scheduled + s.delayed <= |scoped|
    ensures s.completionRate == CompletionRate(s.completed, s.scheduled, s.delayed)
    ensures s.totalChildren == Count(Entries(children, n), (e: (Id, Child)) => CountedChild(caller, e.1))
    ensures 0 <= s.completionRate <= 100
    ensures s.completed == 0 ==> s.completionRate == 0
    ensures s.completedThisMonth <= s.completed
  {
    var scoped := Scoped(children, records, n, caller);
    var completed := Count(scoped, (e: (Id, DoseRecord)) => e.1.status == Completed);
    var scheduled := Count(scoped, (e: (Id, DoseRecord)) => e.1.status == Scheduled);
    var delayed := Count(scoped, (e: (Id, DoseRecord)) => e.1.status == Delayed);
    StatusCounts(scoped);
    ThisMonthBounds(scoped, now);
    Stats(Count(Entries(children, n), (e: (Id, Child)) => CountedChild(caller, e.1)),
          ThisMonthAsWritten(scoped, now), delayed, scheduled, completed, CompletionRate(completed, scheduled, delayed))
  }

  /** The five statuses split a list of records: missed and cancelled ones are in none of the three counts. */
  lemma {:induction false} StatusCounts(s: seq<(Id, DoseRecord)>)
    ensures Count(s, (e: (Id, DoseRecord)) => e.1.status == Completed)
          + Count(s, (e: (Id, DoseRecord)) => e.1.status == Scheduled)
          + Count(s, (e: (Id, DoseRecord)) => e.1.status == Delayed)
          + Count(s, (e: (Id, DoseRecord)) => e.1.status == Missed || e.1.status == Cancelled) == |s|
  {
    if s != [] {
      StatusCounts(s[1..]);
    }
  }

  lemma {:induction false} CountMonotone<T(!new)>(s: seq<T>, p: T -> bool, q: T -> bool)
    requires forall x :: p(x) ==> q(x)
    ensures Count(s, p) <= Count(s, q)
  {
    if s != [] {
      CountMonotone(s[1..], p, q);
    }
  }
}
