/**
 * Children and their enrolment (server/controllers/childController.js):
 * listing, reading with the dose records, creation with the generation of the
 * vaccination calendar, update and the cascading delete.
 */
module ChildController {
  import opened Common
  import opened Sorting
  import opened Time
  import opened VaccineModel
  import opened ChildModel
  import opened RecordModel
  import opened Store
  import VaccineController
  import VaccinationController

  // ------------------------------------------------------------- schedule

  /** The record generated for dose `i` of vaccine `vid`: due `ages[i]` months after birth, delayed if already past. */
  function Dose(child: Id, vid: Id, v: Vaccine, i: nat, birth: int, now: int): (r: DoseRecord)
    requires i < |v.recommendedAges|
  {
    var date := AddMonths(birth, v.recommendedAges[i]);
    NewRecord(child, vid, i + 1, date, if date < now then Delayed else Scheduled)
  }

  /** Every generated record is one of the doses its vaccine prescribes, scheduled or delayed according to its date. */
  lemma DoseFacts(child: Id, vid: Id, v: Vaccine, i: nat, birth: int, now: int)
    requires i < |v.recommendedAges|
    ensures var r := Dose(child, vid, v, i, birth, now);
      r.child == child && r.vaccine == vid && r.doseNumber == i + 1 &&
      r.scheduledDate == AddMonths(birth, v.recommendedAges[i]) &&
      (r.status == Delayed <==> r.scheduledDate < now) &&
      (r.status == Scheduled <==> now <= r.scheduledDate) &&
      r.doctor == None && r.administeredDate == None
  {
  }

  /** The records one vaccine contributes, one per recommended age, in order. */
  function DosesOf(child: Id, e: (Id, Vaccine), birth: int, now: int): (r: seq<DoseRecord>)
    ensures |r| == |e.1.recommendedAges|
    ensures forall i :: 0 <= i < |r| ==> r[i] == Dose(child, e.0, e.1, i, birth, now)
  {
    seq(|e.1.recommendedAges|, i requires 0 <= i < |e.1.recommendedAges| => Dose(child, e.0, e.1, i, birth, now))
  }

  /** The number of doses a list of vaccines prescribes. */
  function AgesTotal(vs: seq<(Id, Vaccine)>): nat
  {
    if vs == [] then 0 else AgesTotal(vs[..|vs| - 1]) + |vs[|vs| - 1].1.recommendedAges|
  }

  lemma AgesTotalSnoc(vs: seq<(Id, Vaccine)>, j: nat)
    requires j < |vs|
    ensures AgesTotal(vs[..j + 1]) == AgesTotal(vs[..j]) + |vs[j].1.recommendedAges|
  {
    assert vs[..j + 1][..j] == vs[..j];
  }

  /** The whole calendar of a new child: the vaccines in order, each with its doses in order. */
  function Schedule(child: Id, vs: seq<(Id, Vaccine)>, birth: int, now: int): (r: seq<DoseRecord>)
    ensures |r| == AgesTotal(vs)
  {
    if vs == [] then []
    else Schedule(child, vs[..|vs| - 1], birth, now) + DosesOf(child, vs[|vs| - 1], birth, now)
  }

  lemma ScheduleSnoc(child: Id, vs: seq<(Id, Vaccine)>, j: nat, birth: int, now: int)
    requires j < |vs|
    ensures Schedule(child, vs[..j + 1], birth, now) == Schedule(child, vs[..j], birth, now) + DosesOf(child, vs[j], birth, now)
  {
    assert vs[..j + 1][..j] == vs[..j];
  }

  /** The calendar of the first vaccines is the start of the whole calendar. */
  lemma {:induction false} SchedulePrefix(child: Id, vs: seq<(Id, Vaccine)>, k: nat, birth: int, now: int)
    requires k <= |vs|
    ensures Schedule(child, vs[..k], birth, now) <= Schedule(child, vs, birth, now)
    ensures AgesTotal(vs[..k]) <= AgesTotal(vs)
    decreases |vs| - k
  {
    if k < |vs| {
      SchedulePrefix(child, vs, k + 1, birth, now);
      ScheduleSnoc(child, vs, k, birth, now);
    } else {
      assert vs[..k] == vs;
    }
  }

  /**
   * Exactly one record per (vaccine, dose index): dose `i` of the `j`-th
   * vaccine sits at position `AgesTotal(vs[..j]) + i`, and the calendar has
   * no other positions.
   */
  lemma {:induction false} ScheduleAt(child: Id, vs: seq<(Id, Vaccine)>, j: nat, i: nat, birth: int, now: int)
    requires j < |vs| && i < |vs[j].1.recommendedAges|
    ensures AgesTotal(vs[..j]) + i < |Schedule(child, vs, birth, now)|
    ensures Schedule(child, vs, birth, now)[AgesTotal(vs[..j]) + i] == Dose(child, vs[j].0, vs[j].1, i, birth, now)
  {
    SchedulePrefix(child, vs, j + 1, birth, now);
    ScheduleSnoc(child, vs, j, birth, now);
    var front := Schedule(child, vs[..j], birth, now);
    assert |front| == AgesTotal(vs[..j]);
    assert Schedule(child, vs[..j + 1], birth, now)[|front| + i] == DosesOf(child, vs[j], birth, now)[i];
  }

  /** Every generated record is dose `i` of some vaccine `j` of the list. */
  lemma {:induction false} ScheduleCovers(child: Id, vs: seq<(Id, Vaccine)>, birth: int, now: int, p: nat)
    requires p < |Schedule(child, vs, birth, now)|
    ensures exists j, i ::
              0 <= j < |vs| && 0 <= i < |vs[j].1.recommendedAges| &&
              p == AgesTotal(vs[..j]) + i && Schedule(child, vs, birth, now)[p] == Dose(child, vs[j].0, vs[j].1, i, birth, now)
  {
    var last := |vs| - 1;
    var front := vs[..last];
    assert vs[..last] == front;
    if p < AgesTotal(front) {
      ScheduleCovers(child, front, birth, now, p);
      var j, i :| 0 <= j < |front| && 0 <= i < |front[j].1.recommendedAges| &&
        p == AgesTotal(front[..j]) + i && Schedule(child, front, birth, now)[p] == Dose(child, front[j].0, front[j].1, i, birth, now);
      assert front[..j] == vs[..j];
      assert front[j] == vs[j];
    } else {
      var i := p - AgesTotal(front);
      assert Schedule(child, vs, birth, now)[p] == DosesOf(child, vs[last], birth, now)[i];
    }
  }

  /** The values of a list of entries. */
  function Values(vs: seq<(Id, Vaccine)>): (r: seq<Vaccine>)
    ensures |r| == |vs|
    ensures forall i :: 0 <= i < |vs| ==> r[i] == vs[i].1
  {
    if vs == [] then [] else Values(vs[..|vs| - 1]) + [vs[|vs| - 1].1]
  }

  lemma {:induction false} AgesTotalIsTotalAges(vs: seq<(Id, Vaccine)>)
    ensures AgesTotal(vs) == VaccineController.TotalAges(Values(vs))
  {
    if vs != [] {
      var last := |vs| - 1;
      AgesTotalIsTotalAges(vs[..last]);
      assert Values(vs) == Values(vs[..last]) + [vs[last].1];
      VaccineController.TotalAgesAppend(Values(vs[..last]), [vs[last].1]);
      assert VaccineController.TotalAges([vs[last].1]) == |vs[last].1.recommendedAges| by {
        assert [vs[last].1][1..] == [];
      }
    }
  }

  /**
   * A child enrolled right after the catalog was seeded gets the eighteen
   * doses of the national calendar.
   */
  lemma SeededEnrolment(start: nat, n: nat, child: Id, birth: int, now: int)
    requires start + 7 <= n
    ensures |Schedule(child, Entries(Numbered(start, VaccineController.NationalCatalog()), n), birth, now)| == 18
  {
    var cat := VaccineController.NationalCatalog();
    assert |cat| == 7 && VaccineController.TotalAges(cat) == 18 by {
      VaccineController.NationalCatalogFacts();
    }
    var vs := Entries(Numbered(start, cat), n);
    assert Values(vs) == cat by {
      ValuesOfNumbered(start, cat, n);
    }
    AgesTotalIsTotalAges(vs);
  }

  /** The vaccines read back from a run of inserts are the inserted ones, in order. */
  lemma ValuesOfNumbered(start: nat, s: seq<Vaccine>, n: nat)
    requires start + |s| <= n
    ensures Values(Entries(Numbered(start, s), n)) == s
  {
    var vs := Entries(Numbered(start, s), n);
    EntriesOfNumbered(start, s, n);
    var vals := Values(vs);
    forall i | 0 <= i < |s| ensures vals[i] == s[i] {
      assert vs[i] == (start + i, s[i]);
    }
  }

  // ---------------------------------------------------------------- create

  /** The fields of a `POST /children` body. */
  datatype ChildForm = ChildForm(
    name: string,
    birthDate: Option<int>,
    gender: string,
    bloodType: Option<string>,
    allergies: Option<string>,
    notes: Option<string>)

  /** A string field with `trim: true`. */
  function TrimmedField(s: Option<string>): Option<string>
  {
    if s.Some? then Some(Trim(s.value)) else None
  }

  /**
   * `Child.create` with the schema's validation: a non-blank name, a birth
   * date and a gender of the enum are required, a blood type must be one of
   * the enum; a validation error is caught and answered with 500.
   */
  function ValidateChild(form: ChildForm, parent: Id, now: int): (r: Result<Child>)
    ensures r.Ok? <==> !IsBlank(form.name) && form.birthDate.Some? && ParseGender(form.gender).Some? &&
                       (form.bloodType.Some? ==> ParseBloodType(form.bloodType.value).Some?)
    ensures r.Err? ==> r.error == InternalError
    ensures r.Ok? ==> r.value.parent == parent && r.value.isActive && r.value.name == Trim(form.name) &&
                      r.value.birthDate == form.birthDate.value && GenderName(r.value.gender) == form.gender
  {
    var gender := ParseGender(form.gender);
    var blood := if form.bloodType.Some? then ParseBloodType(form.bloodType.value) else None;
    if IsBlank(form.name) || form.birthDate.None? || gender.None? ||
       (form.bloodType.Some? && blood.None?) then
      Err(InternalError)
    else
      GenderRoundTrip(gender.value, form.gender);
      Ok(NewChild(Trim(form.name), form.birthDate.value, gender.value, parent, blood,
                  TrimmedField(form.allergies), TrimmedField(form.notes), now))
  }

  /** The number of records an enrolment makes before the insert that fails, if one does. */
  function Made(failAt: Option<nat>, total: nat): (made: nat)
    ensures made <= total
    ensures made < total <==> failAt.Some? && failAt.value < total
  {
    if failAt.Some? && failAt.value < total then failAt.value else total
  }

  /** How many of a vaccine's doses are inserted when `made` records precede them. */
  function DosesMade(failAt: Option<nat>, made: nat, count: nat): (k: nat)
    ensures k <= count
    ensures k < count <==> failAt.Some? && made <= failAt.value < made + count
  {
    if failAt.Some? && made <= failAt.value < made + count then failAt.value - made else count
  }

  /**
   * The inner loop of `createChild`: the doses of one vaccine in order, each
   * appended to the records created so far, until the insert numbered
   * `failAt` fails.
   */
  method InsertDoses(child: Id, e: (Id, Vaccine), birth: int, now: int, failAt: Option<nat>, prefix: seq<DoseRecord>)
    returns (created: seq<DoseRecord>, completed: bool)
    requires failAt.Some? ==> |prefix| <= failAt.value
    ensures var doses := DosesOf(child, e, birth, now);
      var k := DosesMade(failAt, |prefix|, |doses|);
      created == prefix + doses[..k] && (completed <==> k == |doses|)
  {
    ghost var doses := DosesOf(child, e, birth, now);
    created := prefix;
    var i := 0;
    while i < |e.1.recommendedAges|
      invariant 0 <= i <= |e.1.recommendedAges|
      invariant failAt.Some? ==> |created| <= failAt.value
      invariant created == prefix + doses[..i]
    {
      if failAt == Some(|created|) {
        return created, false;
      }
      assert doses[..i + 1] == doses[..i] + [doses[i]];
      created := created + [Dose(child, e.0, e.1, i, birth, now)];
      i := i + 1;
    }
    assert doses[..i] == doses;
    completed := true;
  }

  /** All of one vaccine's doses after the records of the vaccines before it extend the calendar prefix. */
  lemma StepCompleted(child: Id, vs: seq<(Id, Vaccine)>, j: nat, birth: int, now: int,
                      done: seq<DoseRecord>, created: seq<DoseRecord>)
    requires j < |vs| && done == Schedule(child, vs[..j], birth, now)
    requires created == done + DosesOf(child, vs[j], birth, now)
    ensures created == Schedule(child, vs[..j + 1], birth, now)
  {
    ScheduleSnoc(child, vs, j, birth, now);
  }

  /** A failure inside one vaccine's doses stops the enrolment short of the whole calendar. */
  lemma StepStopped(child: Id, vs: seq<(Id, Vaccine)>, j: nat, birth: int, now: int, failAt: nat,
                    done: seq<DoseRecord>, created: seq<DoseRecord>)
    requires j < |vs| && done == Schedule(child, vs[..j], birth, now)
    requires |done| <= failAt < |done| + |DosesOf(child, vs[j], birth, now)|
    requires created == done + DosesOf(child, vs[j], birth, now)[..failAt - |done|]
    ensures created <= Schedule(child, vs, birth, now)
    ensures |created| == failAt < |Schedule(child, vs, birth, now)|
  {
    var whole := Schedule(child, vs, birth, now);
    var upTo := Schedule(child, vs[..j + 1], birth, now);
    assert upTo <= whole by {
      SchedulePrefix(child, vs, j + 1, birth, now);
    }
    assert created <= upTo && |created| < |upTo| by {
      ScheduleSnoc(child, vs, j, birth, now);
    }
  }

  /**
   * The outer loop of `createChild`: every vaccine in order, each with its
   * doses in order. `failAt` is the insert that fails, if any; generation
   * stops there. The result lists the records created, in creation order.
   */
  method GenerateSchedule(child: Id, vs: seq<(Id, Vaccine)>, birth: int, now: int, failAt: Option<nat>)
    returns (created: seq<DoseRecord>, completed: bool)
    ensures created <= Schedule(child, vs, birth, now)
    ensures |created| == Made(failAt, |Schedule(child, vs, birth, now)|)
    ensures completed <==> |created| == |Schedule(child, vs, birth, now)|
  {
    ghost var all := Schedule(child, vs, birth, now);
    created := [];
    var j := 0;
    while j < |vs|
      invariant 0 <= j <= |vs|
      invariant failAt.Some? ==> |created| <= failAt.value
      invariant created == Schedule(child, vs[..j], birth, now)
    {
      ghost var done := created;
      var ok;
      created, ok := InsertDoses(child, vs[j], birth, now, failAt, created);
      if !ok {
        StepStopped(child, vs, j, birth, now, failAt.value, done, created);
        return created, false;
      }
      StepCompleted(child, vs, j, birth, now, done, created);
      j := j + 1;
    }
    assert vs[..j] == vs;
    completed := true;
  }

  /**
   * `createChild` (parent). The child is stored first, with the caller as
   * parent. Then every vaccine of the catalog, inactive ones included, gets
   * one record per recommended age, inserted one by one in calendar order.
   * `failAt` stands for a database failure on that insert (counting from 0):
   * the answer is then 500, and the child and the records made so far stay.
   * On success the answer carries the child's id and the number of records
   * made, which is the total number of recommended ages. `made` names the
   * records stored: the start of the calendar, up to the failing insert.
   */
  method CreateChild(db: Db, caller: Actor, form: ChildForm, now: int, failAt: Option<nat>)
    returns (r: Result<(Id, nat)>, ghost made: seq<DoseRecord>)
    requires db.Valid() && caller.role == Parent
    modifies db`children, db`records, db`nextId
    ensures db.Valid()
    ensures ValidateChild(form, caller.id, now).Err? ==>
      r == Err(InternalError) && made == [] && db.children == old(db.children) &&
      db.records == old(db.records) && db.nextId == old(db.nextId)
    ensures ValidateChild(form, caller.id, now).Ok? ==>
      var c := old(db.nextId);
      var child := ValidateChild(form, caller.id, now).value;
      var all := Schedule(c, Entries(old(db.vaccines), c), child.birthDate, now);
      made <= all && |made| == Made(failAt, |all|) &&
      db.children == old(db.children)[c := child] &&
      db.records == old(db.records) + Numbered(c + 1, made) &&
      db.nextId == c + 1 + |made| &&
      (|made| == |all| ==> r == Ok((c, |all|))) &&
      (|made| < |all| ==> r == Err(InternalError))
  {
    r, made := Admit(db, ValidateChild(form, caller.id, now), now, failAt);
  }

  /** `createChild` after validation: 500 for a rejected form, else the child and its calendar. */
  method Admit(db: Db, validated: Result<Child>, now: int, failAt: Option<nat>)
    returns (r: Result<(Id, nat)>, ghost made: seq<DoseRecord>)
    requires db.Valid()
    modifies db`children, db`records, db`nextId
    ensures db.Valid()
    ensures validated.Err? ==>
      r == Err(InternalError) && made == [] && db.children == old(db.children) &&
      db.records == old(db.records) && db.nextId == old(db.nextId)
    ensures validated.Ok? ==>
      var c := old(db.nextId);
      var all := Schedule(c, Entries(old(db.vaccines), c), validated.value.birthDate, now);
      made <= all && |made| == Made(failAt, |all|) &&
      db.children == old(db.children)[c := validated.value] &&
      db.records == old(db.records) + Numbered(c + 1, made) &&
      db.nextId == c + 1 + |made| &&
      (|made| == |all| ==> r == Ok((c, |all|))) &&
      (|made| < |all| ==> r == Err(InternalError))
  {
    if validated.Err? {
      r, made := Err(InternalError), [];
    } else {
      r, made := Enrol(db, validated.value, now, failAt);
    }
  }

  /** The body of `createChild` after validation: the child, then its calendar. */
  method Enrol(db: Db, child: Child, now: int, failAt: Option<nat>)
    returns (r: Result<(Id, nat)>, ghost made: seq<DoseRecord>)
    requires db.Valid()
    modifies db`children, db`records, db`nextId
    ensures db.Valid()
    ensures var c := old(db.nextId);
      var all := Schedule(c, Entries(old(db.vaccines), c), child.birthDate, now);
      made <= all && |made| == Made(failAt, |all|) &&
      db.children == old(db.children)[c := child] &&
      db.records == old(db.records) + Numbered(c + 1, made) &&
      db.nextId == c + 1 + |made| &&
      (|made| == |all| ==> r == Ok((c, |all|))) &&
      (|made| < |all| ==> r == Err(InternalError))
  {
    var vs := Entries(db.vaccines, db.nextId);
    var c := db.nextId;
    var created, completed := GenerateSchedule(c, vs, child.birthDate, now, failAt);
    var id := db.InsertChildWithRecords(child, created);
    if completed {
      r := Ok((c, |created|));
    } else {
      r := Err(InternalError);
    }
    made := created;
  }

  // ------------------------------------------------------------------ read

  /** `getChildren`: a parent's own children, everyone's for other roles. */
  predicate Listed(caller: Actor, e: (Id, Child))
  {
    CanAccess(caller, e.1)
  }

  /** Newest first (`sort({ createdAt: -1 })`). */
  predicate NewerFirst(a: (Id, Child), b: (Id, Child))
  {
    a.1.createdAt >= b.1.createdAt
  }

  /** `getChildren`: exactly the children the caller may see, newest first. */
  function GetChildren(children: map<Id, Child>, n: nat, caller: Actor): (r: seq<(Id, Child)>)
    ensures forall e :: e in r <==> e.0 in children && e.0 < n && children[e.0] == e.1 && CanAccess(caller, e.1)
    ensures SortedBy(r, NewerFirst)
  {
    var mine: seq<(Id, Child)> := Filter(Entries(children, n), (e: (Id, Child)) => Listed(caller, e));
    SortBySorted(mine, NewerFirst);
    forall e ensures e in SortBy(mine, NewerFirst) <==> e in mine { SortByMembers(mine, NewerFirst, e); }
    SortBy(mine, NewerFirst)
  }

  /**
   * `getChild`: 404 for an unknown id; for a parent caller, 500 when the
   * child's parent account is gone (the populated parent is null) and 403
   * when the child is someone else's; otherwise the child with its records,
   * earliest first.
   */
  function GetChild(users: set<Id>, children: map<Id, Child>, records: map<Id, DoseRecord>, n: nat, caller: Actor, id: Id)
    : (r: Result<(Child, seq<(Id, DoseRecord)>)>)
    ensures id !in children <==> r == Err(NotFound)
    ensures r.Ok? <==> id in children && CanAccess(caller, children[id]) && (caller.role == Parent ==> children[id].parent in users)
    ensures r.Err? && r.error == Forbidden <==>
      id in children && caller.role == Parent && children[id].parent in users && children[id].parent != caller.id
    ensures r.Ok? ==> r.value.0 == children[id]
    ensures r.Ok? ==> forall e :: e in r.value.1 <==> e.0 in records && e.0 < n && records[e.0] == e.1 && e.1.child == id
    ensures r.Ok? ==> SortedBy(r.value.1, VaccinationController.DateLe)
  {
    if id !in children then Err(NotFound)
    else if caller.role == Parent && children[id].parent !in users then Err(InternalError)
    else if !CanAccess(caller, children[id]) then Err(Forbidden)
    else Ok((children[id], VaccinationController.RecordsOfChild(records, n, id)))
  }

  // ---------------------------------------------------------------- update

  /** The fields a `PUT /children/:id` body may carry; any of them, the parent included. */
  datatype ChildPatch = ChildPatch(
    name: Option<string>,
    birthDate: Option<int>,
    gender: Option<string>,
    parent: Option<Id>,
    bloodType: Option<string>,
    allergies: Option<string>,
    notes: Option<string>,
    isActive: Option<bool>)

  /** `findByIdAndUpdate` with validators: the given fields replace the stored ones when they pass the schema. */
  function ApplyChildPatch(c: Child, p: ChildPatch): (r: Result<Child>)
    ensures r.Err? ==> r.error == InternalError
    ensures r.Ok? <==> (p.name.Some? ==> !IsBlank(p.name.value)) &&
                       (p.gender.Some? ==> ParseGender(p.gender.value).Some?) &&
                       (p.bloodType.Some? ==> ParseBloodType(p.bloodType.value).Some?)
    ensures r.Ok? ==>
      (p.name.None? ==> r.value.name == c.name) && (p.birthDate.None? ==> r.value.birthDate == c.birthDate) &&
      (p.gender.None? ==> r.value.gender == c.gender) && (p.parent.None? ==> r.value.parent == c.parent) &&
      (p.parent.Some? ==> r.value.parent == p.parent.value) && r.value.createdAt == c.createdAt
    ensures r.Ok? ==>
      (p.name.Some? ==> r.value.name == Trim(p.name.value)) &&
      (p.birthDate.Some? ==> r.value.birthDate == p.birthDate.value) &&
      (p.gender.Some? ==> GenderName(r.value.gender) == p.gender.value)
    ensures r.Ok? ==>
      (p.bloodType.Some? ==> r.value.bloodType.Some? && BloodTypeName(r.value.bloodType.value) == p.bloodType.value) &&
      (p.bloodType.None? ==> r.value.bloodType == c.bloodType) &&
      (p.allergies.Some? ==> r.value.allergies == Some(Trim(p.allergies.value))) &&
      (p.allergies.None? ==> r.value.allergies == c.allergies) &&
      (p.notes.Some? ==> r.value.notes == Some(Trim(p.notes.value))) &&
      (p.notes.None? ==> r.value.notes == c.notes) &&
      (p.isActive.Some? ==> r.value.isActive == p.isActive.value) &&
      (p.isActive.None? ==> r.value.isActive == c.isActive)
  {
    var gender := if p.gender.Some? then ParseGender(p.gender.value) else Some(c.gender);
    var blood := if p.bloodType.Some? then ParseBloodType(p.bloodType.value) else None;
    if (p.name.Some? && IsBlank(p.name.value)) || gender.None? || (p.bloodType.Some? && blood.None?) then
      Err(InternalError)
    else
      GenderRoundTrip(gender.value, if p.gender.Some? then p.gender.value else GenderName(c.gender));
      Ok(c.(name := if p.name.Some? then Trim(p.name.value) else c.name,
            birthDate := Pick(p.birthDate, c.birthDate),
            gender := gender.value,
            parent := Pick(p.parent, c.parent),
            bloodType := if p.bloodType.Some? then blood else c.bloodType,
            allergies := if p.allergies.Some? then TrimmedField(p.allergies) else c.allergies,
            notes := if p.notes.Some? then TrimmedField(p.notes) else c.notes,
            isActive := Pick(p.isActive, c.isActive)))
  }

  lemma EmptyChildPatchKeeps(c: Child)
    ensures ApplyChildPatch(c, ChildPatch(None, None, None, None, None, None, None, None)) == Ok(c)
  {
  }

  /**
   * `updateChild` (parent, doctor or admin): 404, then 403 for another
   * parent's child, then the patch; a body that fails validation is a 500
   * that changes nothing.
   */
  method UpdateChild(db: Db, caller: Actor, id: Id, p: ChildPatch) returns (r: Result<Child>)
    requires db.Valid()
    requires caller.role == Parent || caller.role == Doctor || caller.role == Admin
    modifies db`children
    ensures db.Valid()
    ensures id !in old(db.children) ==> r == Err(NotFound) && db.children == old(db.children)
    ensures id in old(db.children) && !CanAccess(caller, old(db.children)[id]) ==>
      r == Err(Forbidden) && db.children == old(db.children)
    ensures id in old(db.children) && CanAccess(caller, old(db.children)[id]) ==>
      r == ApplyChildPatch(old(db.children)[id], p) &&
      db.children == if r.Ok? then old(db.children)[id := r.value] else old(db.children)
  {
    if id !in db.children {
      return Err(NotFound);
    }
    if !CanAccess(caller, db.children[id]) {
      return Err(Forbidden);
    }
    r := ApplyChildPatch(db.children[id], p);
    if r.Ok? {
      db.children := db.children[id := r.value];
    }
  }

  // ---------------------------------------------------------------- delete

  /** The records left after `deleteMany({ child })`. */
  function WithoutChild(records: map<Id, DoseRecord>, child: Id): (m: map<Id, DoseRecord>)
    ensures forall k :: k in m <==> k in records && records[k].child != child
    ensures forall k :: k in m ==> m[k] == records[k]
  {
    map k | k in records && records[k].child != child :: records[k]
  }

  /**
   * `deleteChild` (parent or admin): 404, then 403 for another parent's
   * child; otherwise every record of the child, then the child, is removed.
   */
  method DeleteChild(db: Db, caller: Actor, id: Id) returns (r: Result<()>)
    requires db.Valid() && (caller.role == Parent || caller.role == Admin)
    modifies db`children, db`records
    ensures db.Valid()
    ensures id !in old(db.children) ==>
      r == Err(NotFound) && db.children == old(db.children) && db.records == old(db.records)
    ensures id in old(db.children) && !CanAccess(caller, old(db.children)[id]) ==>
      r == Err(Forbidden) && db.children == old(db.children) && db.records == old(db.records)
    ensures id in old(db.children) && CanAccess(caller, old(db.children)[id]) ==>
      r == Ok(()) && db.children == old(db.children) - {id} && db.records == WithoutChild(old(db.records), id)
  {
    if id !in db.children {
      return Err(NotFound);
    }
    if !CanAccess(caller, db.children[id]) {
      return Err(Forbidden);
    }
    db.records := WithoutChild(db.records, id);
    db.children := db.children - {id};
    r := Ok(());
  }

  /** After a delete the child is not found and no record refers to it; other children keep all their records. */
  lemma DeleteLeavesNothing(users: set<Id>, children: map<Id, Child>, records: map<Id, DoseRecord>, n: nat,
                            caller: Actor, id: Id, other: Id)
    requires other != id
    ensures GetChild(users, children - {id}, WithoutChild(records, id), n, caller, id) == Err(NotFound)
    ensures VaccinationController.RecordsOfChild(WithoutChild(records, id), n, id) == []
    ensures forall e :: e in VaccinationController.RecordsOfChild(WithoutChild(records, id), n, other) <==>
                        e in VaccinationController.RecordsOfChild(records, n, other)
  {
    var remaining := WithoutChild(records, id);
    FilterNone(Entries(remaining, n), (e: (Id, DoseRecord)) => e.1.child == id);
  }
}
