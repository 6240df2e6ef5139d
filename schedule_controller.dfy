/**
 * Doctor availability and slot booking (server/controllers/scheduleController.js):
 * a doctor's day of slots is created or replaced, extended, deleted when no
 * slot is booked; any caller books a free slot and the booker, the doctor or
 * an admin cancels it; the per-day view lists every active doctor with that
 * day's free slots.
 */
module ScheduleController {
  import opened Common
  import opened Sorting
  import opened Time
  import opened UserModel
  import opened ScheduleModel
  import opened Store

  /**
   * A slot as a request body gives it: its times and, when the body sets
   * them, `isBooked` and `bookedBy`, which the schema stores as given. The
   * slot editor sends the times only.
   */
  datatype SlotBody = SlotBody(startTime: string, endTime: string, isBooked: Option<bool>, bookedBy: Option<Id>)

  /** A body slot as the schedule editor sends it: times only. */
  predicate EditorBody(b: SlotBody)
  {
    b.isBooked.None? && b.bookedBy.None?
  }

  /** A body slot whose booked flag, defaulting to false, agrees with its booker. */
  predicate BodyConsistent(b: SlotBody)
  {
    (b.isBooked == Some(true)) <==> b.bookedBy.Some?
  }

  predicate AllBodiesConsistent(bodies: seq<SlotBody>)
  {
    forall i :: 0 <= i < |bodies| ==> BodyConsistent(bodies[i])
  }

  /** The sub-documents Mongoose casts a body's slots into, under consecutive fresh ids. */
  function MakeSlots(start: Id, bodies: seq<SlotBody>): (r: seq<Slot>)
    ensures |r| == |bodies|
    ensures forall i :: 0 <= i < |r| ==>
      r[i].id == start + i && r[i].startTime == bodies[i].startTime && r[i].endTime == bodies[i].endTime &&
      r[i].isBooked == (bodies[i].isBooked == Some(true)) && r[i].bookedBy == bodies[i].bookedBy
    ensures forall i :: 0 <= i < |r| && EditorBody(bodies[i]) ==>
      r[i] == NewSlot(start + i, bodies[i].startTime, bodies[i].endTime)
    ensures AllConsistent(r) <==> AllBodiesConsistent(bodies)
    ensures (forall i :: 0 <= i < |bodies| ==> bodies[i].isBooked != Some(true)) ==> FreeSlots(r) == r
  {
    var r := seq(|bodies|, i requires 0 <= i < |bodies| =>
      Slot(start + i, bodies[i].startTime, bodies[i].endTime, Pick(bodies[i].isBooked, false), bodies[i].bookedBy));
    AllFreeWhenUnbooked(r);
    assert AllConsistent(r) <==> AllBodiesConsistent(bodies) by {
      assert forall i :: 0 <= i < |r| ==> (Consistent(r[i]) <==> BodyConsistent(bodies[i]));
    }
    r
  }

  /**
   * A body that marks a slot booked without a booker is stored that way: the
   * slot is booked by nobody, and nobody but the doctor or an admin can
   * cancel it.
   */
  lemma BookedBodyWithoutBooker(start: Id, t0: string, t1: string)
    ensures var r := MakeSlots(start, [SlotBody(t0, t1, Some(true), None)]);
      r[0].isBooked && r[0].bookedBy.None? && !AllConsistent(r)
  {
    var r := MakeSlots(start, [SlotBody(t0, t1, Some(true), None)]);
    assert !Consistent(r[0]);
  }

  lemma AllFreeWhenUnbooked(slots: seq<Slot>)
    ensures (forall i :: 0 <= i < |slots| ==> !slots[i].isBooked) ==> FreeSlots(slots) == slots
  {
    if forall i :: 0 <= i < |slots| ==> !slots[i].isBooked {
      AllFree(slots);
    }
  }

  /** A list none of whose slots is booked is its own free list. */
  lemma {:induction false} AllFree(slots: seq<Slot>)
    requires forall i :: 0 <= i < |slots| ==> !slots[i].isBooked
    ensures FreeSlots(slots) == slots
  {
    if slots != [] {
      AllFree(slots[1..]);
    }
  }

  // ------------------------------------------------------- create or update

  /** The body of `POST /schedules`; an absent field is `None`. */
  datatype ScheduleBody = ScheduleBody(
    date: Option<int>,
    slots: Option<seq<SlotBody>>,
    isAvailable: Option<bool>,
    notes: Option<string>)

  /** The first stored schedule (in natural order) of this doctor on this date. */
  function FindDay(entries: seq<(Id, DoctorSchedule)>, doctor: Id, date: int): (r: Option<Id>)
    ensures r.Some? ==> exists e :: e in entries && e.0 == r.value && e.1.doctor == doctor && e.1.date == date
    ensures r.None? <==> forall e :: e in entries ==> !(e.1.doctor == doctor && e.1.date == date)
  {
    if entries == [] then None
    else if entries[0].1.doctor == doctor && entries[0].1.date == date then Some(entries[0].0)
    else FindDay(entries[1..], doctor, date)
  }

  /** An existing schedule after a re-post: given fields replace, absent ones are kept. */
  function Replan(d: DoctorSchedule, slots: Option<seq<Slot>>, isAvailable: Option<bool>, notes: Option<string>): (r: DoctorSchedule)
    ensures r.doctor == d.doctor && r.date == d.date
    ensures slots.None? ==> r.slots == d.slots
    ensures slots.Some? ==> r.slots == slots.value
    ensures isAvailable.None? ==> r.isAvailable == d.isAvailable
    ensures isAvailable.Some? ==> r.isAvailable == isAvailable.value
    ensures notes.None? ==> r.notes == d.notes
    ensures notes.Some? ==> r.notes == notes.value
  {
    d.(slots := Pick(slots, d.slots), isAvailable := Pick(isAvailable, d.isAvailable), notes := Pick(notes, d.notes))
  }

  /** A new schedule: the given slots or none, available unless told otherwise, notes or ''. */
  function Fresh(doctor: Id, day: int, slots: Option<seq<Slot>>, isAvailable: Option<bool>, notes: Option<string>): (r: DoctorSchedule)
    ensures r.doctor == doctor && r.date == day
    ensures r.slots == if slots.Some? then slots.value else []
    ensures r.isAvailable == (isAvailable != Some(false))
    ensures r.notes == if notes.Some? then notes.value else ""
  {
    DoctorSchedule(doctor, day, Pick(slots, []), Pick(isAvailable, true), Pick(notes, ""))
  }

  /** Re-posting a day's slots from the editor drops every booking it held; the doctor and day stay. */
  lemma RepostDropsBookings(d: DoctorSchedule, start: Id, bodies: seq<SlotBody>, isAvailable: Option<bool>, notes: Option<string>)
    requires forall i :: 0 <= i < |bodies| ==> EditorBody(bodies[i])
    ensures var r := Replan(d, Some(MakeSlots(start, bodies)), isAvailable, notes);
      r.doctor == d.doctor && r.date == d.date &&
      |r.slots| == |bodies| && FreeSlots(r.slots) == r.slots &&
      forall s :: s in r.slots ==> !s.isBooked && s.bookedBy.None?
  {
  }

  /** Re-posting with no field given changes nothing. */
  lemma EmptyRepostKeeps(d: DoctorSchedule)
    ensures Replan(d, None, None, None) == d
  {
  }

  /**
   * `createOrUpdateSchedule` (doctor): 400 without a date; otherwise the date
   * is taken to midnight and the caller's schedule for that day is updated,
   * or created when there is none, so a doctor keeps at most one schedule a
   * day. Given slots get fresh ids and are stored as the body gives them.
   */
  method CreateOrUpdateSchedule(db: Db, caller: Actor, body: ScheduleBody) returns (r: Result<Id>)
    requires db.Valid() && caller.role == Doctor
    modifies db`schedules, db`nextId
    ensures db.Valid()
    ensures old(db.SlotsOk()) && (body.slots.Some? ==> AllBodiesConsistent(body.slots.value)) ==> db.SlotsOk()
    ensures body.date.None? ==>
      r == Err(BadRequest) && db.schedules == old(db.schedules) && db.nextId == old(db.nextId)
    ensures body.date.Some? ==>
      r.Ok? && r.value in db.schedules &&
      db.schedules[r.value].doctor == caller.id && db.schedules[r.value].date == Midnight(body.date.value)
    ensures body.date.Some? ==>
      var day := Midnight(body.date.value);
      var made := if body.slots.Some? then Some(MakeSlots(old(db.nextId), body.slots.value)) else None;
      var k := if body.slots.Some? then |body.slots.value| else 0;
      if exists id :: id in old(db.schedules) && old(db.schedules)[id].doctor == caller.id && old(db.schedules)[id].date == day
      then
        r.value in old(db.schedules) &&
        db.schedules == old(db.schedules)[r.value := Replan(old(db.schedules)[r.value], made, body.isAvailable, body.notes)] &&
        db.nextId == old(db.nextId) + k
      else
        r.value == old(db.nextId) + k && db.nextId == r.value + 1 &&
        db.schedules == old(db.schedules)[r.value := Fresh(caller.id, day, made, body.isAvailable, body.notes)]
  {
    if body.date.None? {
      return Err(BadRequest);
    }
    var day := Midnight(body.date.value);
    var entries := Entries(db.schedules, db.nextId);
    var found := FindDay(entries, caller.id, day);
    var made: Option<seq<Slot>> := None;
    if body.slots.Some? {
      var start := db.Reserve(|body.slots.value|);
      made := Some(MakeSlots(start, body.slots.value));
    }
    if found.Some? {
      var id := found.value;
      db.PutSchedule(id, Replan(db.schedules[id], made, body.isAvailable, body.notes));
      r := Ok(id);
    } else {
      forall k | k in db.schedules ensures !(db.schedules[k].doctor == caller.id && db.schedules[k].date == day) {
        assert (k, db.schedules[k]) in entries;
      }
      var id := db.AddSchedule(Fresh(caller.id, day, made, body.isAvailable, body.notes));
      r := Ok(id);
    }
  }

  // ------------------------------------------------------------- add slots

  /** Appending keeps the old slots as a prefix and their free list ahead of the new ones. */
  lemma {:induction false} AppendedFree(old_: seq<Slot>, added: seq<Slot>)
    ensures FreeSlots(old_ + added) == FreeSlots(old_) + FreeSlots(added)
  {
    if old_ == [] {
      assert old_ + added == added;
    } else {
      assert (old_ + added)[0] == old_[0] && (old_ + added)[1..] == old_[1..] + added;
      AppendedFree(old_[1..], added);
    }
  }

  /**
   * `addSlots` (doctor): 404 for an unknown schedule, 403 for another
   * doctor's; a body without slots makes the spread throw (500). Otherwise
   * the new slots, as the body gives them, follow the existing ones unchanged.
   */
  method AddSlots(db: Db, caller: Actor, id: Id, slots: Option<seq<SlotBody>>) returns (r: Result<DoctorSchedule>)
    requires db.Valid() && caller.role == Doctor
    modifies db`schedules, db`nextId
    ensures db.Valid()
    ensures old(db.SlotsOk()) && (slots.Some? ==> AllBodiesConsistent(slots.value)) ==> db.SlotsOk()
    ensures id !in old(db.schedules) ==>
      r == Err(NotFound) && db.schedules == old(db.schedules) && db.nextId == old(db.nextId)
    ensures id in old(db.schedules) && old(db.schedules)[id].doctor != caller.id ==>
      r == Err(Forbidden) && db.schedules == old(db.schedules) && db.nextId == old(db.nextId)
    ensures id in old(db.schedules) && old(db.schedules)[id].doctor == caller.id && slots.None? ==>
      r == Err(InternalError) && db.schedules == old(db.schedules) && db.nextId == old(db.nextId)
    ensures id in old(db.schedules) && old(db.schedules)[id].doctor == caller.id && slots.Some? ==>
      var d := old(db.schedules)[id];
      var added := MakeSlots(old(db.nextId), slots.value);
      r == Ok(d.(slots := d.slots + added)) &&
      db.schedules == old(db.schedules)[id := r.value] &&
      db.nextId == old(db.nextId) + |slots.value|
  {
    if id !in db.schedules {
      return Err(NotFound);
    }
    var d := db.schedules[id];
    if d.doctor != caller.id {
      return Err(Forbidden);
    }
    if slots.None? {
      return Err(InternalError);
    }
    var start := db.Reserve(|slots.value|);
    var added := MakeSlots(start, slots.value);
    var e := d.(slots := d.slots + added);
    db.PutSchedule(id, e);
    r := Ok(e);
  }

  // ---------------------------------------------------------------- delete

  /** `schedule.slots.some(slot => slot.isBooked)`. */
  predicate HasBookings(slots: seq<Slot>)
  {
    exists i :: 0 <= i < |slots| && slots[i].isBooked
  }

  /** A schedule has a booking exactly when its free list is shorter than its slots. */
  lemma {:induction false} HasBookingsIffFewerFree(slots: seq<Slot>)
    ensures HasBookings(slots) <==> |FreeSlots(slots)| < |slots|
  {
    if slots != [] {
      HasBookingsIffFewerFree(slots[1..]);
      assert HasBookings(slots) <==> slots[0].isBooked || HasBookings(slots[1..]) by {
        if HasBookings(slots[1..]) {
          var i :| 0 <= i < |slots[1..]| && slots[1..][i].isBooked;
          assert slots[i + 1].isBooked;
        }
        if HasBookings(slots) && !slots[0].isBooked {
          var i :| 0 <= i < |slots| && slots[i].isBooked;
          assert slots[1..][i - 1].isBooked;
        }
      }
    }
  }

  /**
   * `deleteSchedule` (doctor or admin): 404 for an unknown schedule, 403
   * unless the caller is its doctor (so an admin is refused), 400 while any
   * slot is booked; otherwise the schedule is removed.
   */
  method DeleteSchedule(db: Db, caller: Actor, id: Id) returns (r: Result<()>)
    requires db.Valid() && (caller.role == Doctor || caller.role == Admin)
    modifies db`schedules
    ensures db.Valid()
    ensures old(db.SlotsOk()) ==> db.SlotsOk()
    ensures id !in old(db.schedules) ==> r == Err(NotFound) && db.schedules == old(db.schedules)
    ensures id in old(db.schedules) && old(db.schedules)[id].doctor != caller.id ==>
      r == Err(Forbidden) && db.schedules == old(db.schedules)
    ensures id in old(db.schedules) && old(db.schedules)[id].doctor == caller.id && HasBookings(old(db.schedules)[id].slots) ==>
      r == Err(BadRequest) && db.schedules == old(db.schedules)
    ensures id in old(db.schedules) && old(db.schedules)[id].doctor == caller.id && !HasBookings(old(db.schedules)[id].slots) ==>
      r == Ok(()) && db.schedules == old(db.schedules) - {id}
  {
    if id !in db.schedules {
      return Err(NotFound);
    }
    var d := db.schedules[id];
    if d.doctor != caller.id {
      return Err(Forbidden);
    }
    if HasBookings(d.slots) {
      return Err(BadRequest);
    }
    db.RemoveSchedule(id);
    r := Ok(());
  }

  // ------------------------------------------------------- book and cancel

  /** `slots.id(slotId)`: the position of the first slot with that id. */
  function FindSlot(slots: seq<Slot>, slotId: Id): (r: Option<nat>)
    ensures r.Some? ==> r.value < |slots| && slots[r.value].id == slotId
    ensures r.Some? ==> forall j :: 0 <= j < r.value ==> slots[j].id != slotId
    ensures r.None? <==> forall j :: 0 <= j < |slots| ==> slots[j].id != slotId
  {
    if slots == [] then None
    else if slots[0].id == slotId then Some(0)
    else
      var rest := FindSlot(slots[1..], slotId);
      assert forall j :: 1 <= j < |slots| ==> slots[j] == slots[1..][j - 1];
      if rest.None? then None else Some(rest.value + 1)
  }

  /** The slot list with slot `i` booked by `who`; no other slot changes. */
  function BookAt(slots: seq<Slot>, i: nat, who: Id): (r: seq<Slot>)
    requires i < |slots|
    ensures |r| == |slots|
    ensures forall j :: 0 <= j < |r| && j != i ==> r[j] == slots[j]
    ensures r[i].id == slots[i].id && r[i].startTime == slots[i].startTime && r[i].endTime == slots[i].endTime
    ensures r[i].isBooked && r[i].bookedBy == Some(who)
    ensures AllConsistent(slots) ==> AllConsistent(r)
  {
    slots[i := slots[i].(isBooked := true, bookedBy := Some(who))]
  }

  /** The slot list with slot `i` freed; no other slot changes. */
  function CancelAt(slots: seq<Slot>, i: nat): (r: seq<Slot>)
    requires i < |slots|
    ensures |r| == |slots|
    ensures forall j :: 0 <= j < |r| && j != i ==> r[j] == slots[j]
    ensures r[i].id == slots[i].id && r[i].startTime == slots[i].startTime && r[i].endTime == slots[i].endTime
    ensures !r[i].isBooked && r[i].bookedBy.None?
    ensures AllConsistent(slots) ==> AllConsistent(r)
  {
    slots[i := slots[i].(isBooked := false, bookedBy := None)]
  }

  /** Who may cancel: the slot's booker, the schedule's doctor, or an admin. */
  predicate CanCancel(d: DoctorSchedule, s: Slot, caller: Actor)
  {
    s.bookedBy == Some(caller.id) || d.doctor == caller.id || caller.role == Admin
  }

  /**
   * Cancelling a booking restores the free slot that was booked, and the
   * booker is always allowed to cancel it.
   */
  lemma CancelUndoesBook(d: DoctorSchedule, i: nat, who: Actor)
    requires i < |d.slots| && !d.slots[i].isBooked && Consistent(d.slots[i])
    ensures var booked := BookAt(d.slots, i, who.id);
      CanCancel(d.(slots := booked), booked[i], who) &&
      CancelAt(booked, i) == d.slots
  {
    var booked := BookAt(d.slots, i, who.id);
    assert CancelAt(booked, i)[i] == d.slots[i];
  }

  /** A parent who neither booked the slot nor owns the schedule may not cancel, booked or not. */
  lemma StrangerCannotCancel(d: DoctorSchedule, s: Slot, caller: Actor)
    requires caller.role == Parent && d.doctor != caller.id && s.bookedBy != Some(caller.id)
    ensures !CanCancel(d, s, caller)
  {
  }

  /**
   * `bookSlot` (any role): 404 for an unknown schedule or slot, 400 for a
   * booked slot; otherwise the slot is booked by the caller and nothing else
   * changes.
   */
  method BookSlot(db: Db, caller: Actor, id: Id, slotId: Id) returns (r: Result<DoctorSchedule>)
    requires db.Valid()
    modifies db`schedules
    ensures db.Valid()
    ensures old(db.SlotsOk()) ==> db.SlotsOk()
    ensures id !in old(db.schedules) ==> r == Err(NotFound) && db.schedules == old(db.schedules)
    ensures id in old(db.schedules) && FindSlot(old(db.schedules)[id].slots, slotId).None? ==>
      r == Err(NotFound) && db.schedules == old(db.schedules)
    ensures id in old(db.schedules) && FindSlot(old(db.schedules)[id].slots, slotId).Some? ==>
      var d := old(db.schedules)[id];
      var i := FindSlot(d.slots, slotId).value;
      (d.slots[i].isBooked ==> r == Err(BadRequest) && db.schedules == old(db.schedules)) &&
      (!d.slots[i].isBooked ==>
         r == Ok(d.(slots := BookAt(d.slots, i, caller.id))) && db.schedules == old(db.schedules)[id := r.value])
  {
    if id !in db.schedules {
      return Err(NotFound);
    }
    var d := db.schedules[id];
    var found := FindSlot(d.slots, slotId);
    if found.None? {
      return Err(NotFound);
    }
    var i := found.value;
    if d.slots[i].isBooked {
      return Err(BadRequest);
    }
    var e := d.(slots := BookAt(d.slots, i, caller.id));
    db.PutSchedule(id, e);
    r := Ok(e);
  }

  /**
   * `cancelBooking` (any role): 404 for an unknown schedule or slot, 403
   * unless the caller may cancel; otherwise the slot is freed, booked or not.
   */
  method CancelBooking(db: Db, caller: Actor, id: Id, slotId: Id) returns (r: Result<()>)
    requires db.Valid()
    modifies db`schedules
    ensures db.Valid()
    ensures old(db.SlotsOk()) ==> db.SlotsOk()
    ensures id !in old(db.schedules) ==> r == Err(NotFound) && db.schedules == old(db.schedules)
    ensures id in old(db.schedules) && FindSlot(old(db.schedules)[id].slots, slotId).None? ==>
      r == Err(NotFound) && db.schedules == old(db.schedules)
    ensures id in old(db.schedules) && FindSlot(old(db.schedules)[id].slots, slotId).Some? ==>
      var d := old(db.schedules)[id];
      var i := FindSlot(d.slots, slotId).value;
      (!CanCancel(d, d.slots[i], caller) ==> r == Err(Forbidden) && db.schedules == old(db.schedules)) &&
      (CanCancel(d, d.slots[i], caller) ==>
         r == Ok(()) && db.schedules == old(db.schedules)[id := d.(slots := CancelAt(d.slots, i))])
  {
    if id !in db.schedules {
      return Err(NotFound);
    }
    var d := db.schedules[id];
    var found := FindSlot(d.slots, slotId);
    if found.None? {
      return Err(NotFound);
    }
    var i := found.value;
    if !CanCancel(d, d.slots[i], caller) {
      return Err(Forbidden);
    }
    db.PutSchedule(id, d.(slots := CancelAt(d.slots, i)));
    r := Ok(());
  }

  // ------------------------------------------------------ available doctors

  /** A day's summary in the available-doctors view. */
  datatype DayView = DayView(schedule: Id, date: int, availableSlots: seq<Slot>, totalSlots: nat)

  /** One entry of the view: a doctor and that doctor's day, or null. */
  datatype DoctorDay = DoctorDay(doctor: Id, name: string, phone: string, specialty: Option<string>, day: Option<DayView>)

  /** `schedules.find(...)` over the day's available schedules: the first one of this doctor. */
  function DayOf(entries: seq<(Id, DoctorSchedule)>, doctor: Id, day: int): (r: Option<(Id, DoctorSchedule)>)
    ensures r.Some? ==> r.value in entries && r.value.1.doctor == doctor && r.value.1.date == day && r.value.1.isAvailable
    ensures r.None? <==> forall e :: e in entries ==> !(e.1.doctor == doctor && e.1.date == day && e.1.isAvailable)
  {
    if entries == [] then None
    else if entries[0].1.doctor == doctor && entries[0].1.date == day && entries[0].1.isAvailable then Some(entries[0])
    else DayOf(entries[1..], doctor, day)
  }

  function ViewOf(e: (Id, DoctorSchedule)): (v: DayView)
    ensures v.schedule == e.0 && v.date == e.1.date
    ensures v.availableSlots == FreeSlots(e.1.slots) && v.totalSlots == |e.1.slots|
    ensures |v.availableSlots| <= v.totalSlots
  {
    DayView(e.0, e.1.date, FreeSlots(e.1.slots), |e.1.slots|)
  }

  /** A doctor's entry: the doctor's first available schedule of the day, summarised, or null. */
  function EntryFor(u: (Id, User), entries: seq<(Id, DoctorSchedule)>, day: int): (r: DoctorDay)
    ensures r.doctor == u.0
    ensures r.day.None? <==> forall e :: e in entries ==> !(e.1.doctor == u.0 && e.1.date == day && e.1.isAvailable)
    ensures r.day.Some? ==>
      exists e :: e in entries && e.1.doctor == u.0 && e.1.date == day && e.1.isAvailable && r.day.value == ViewOf(e)
  {
    var found := DayOf(entries, u.0, day);
    DoctorDay(u.0, u.1.name, u.1.phone, u.1.specialty, if found.Some? then Some(ViewOf(found.value)) else None)
  }

  /**
   * `getAvailableDoctors`: one entry per active doctor, in natural order,
   * for the given day (today by default) taken to midnight. An entry's day
   * is null when the doctor has no available schedule that day; otherwise it
   * holds that schedule's free slots in stored order and its slot count.
   */
  function GetAvailableDoctors(users: map<Id, User>, schedules: map<Id, DoctorSchedule>, n: nat, date: Option<int>, now: int): (r: seq<DoctorDay>)
    ensures |r| == |ActiveDoctors(users, n)|
    ensures forall i :: 0 <= i < |r| ==>
      r[i] == EntryFor(ActiveDoctors(users, n)[i], Entries(schedules, n), Midnight(Pick(date, now)))
  {
    var day := Midnight(Pick(date, now));
    var doctors := ActiveDoctors(users, n);
    var entries := Entries(schedules, n);
    seq(|doctors|, i requires 0 <= i < |doctors| => EntryFor(doctors[i], entries, day))
  }

  /** Every active doctor, and nobody else, has an entry in the view. */
  lemma AvailableDoctorsListed(users: map<Id, User>, schedules: map<Id, DoctorSchedule>, n: nat, date: Option<int>, now: int, d: Id)
    ensures var r := GetAvailableDoctors(users, schedules, n, date, now);
      (exists i :: 0 <= i < |r| && r[i].doctor == d) <==>
      d in users && d < n && users[d].role == Doctor && users[d].isActive
  {
    var r := GetAvailableDoctors(users, schedules, n, date, now);
    var doctors := ActiveDoctors(users, n);
    if d in users && d < n && users[d].role == Doctor && users[d].isActive {
      assert (d, users[d]) in doctors;
      var i :| 0 <= i < |doctors| && doctors[i] == (d, users[d]);
      assert r[i].doctor == d;
    }
    if i :| 0 <= i < |r| && r[i].doctor == d {
      assert doctors[i] in doctors;
    }
  }

  /**
   * A doctor's entry is null exactly when that doctor has no available
   * schedule stored for the day; otherwise it summarises one such schedule:
   * its free slots in stored order and its number of slots.
   */
  lemma AvailableDoctorDay(users: map<Id, User>, schedules: map<Id, DoctorSchedule>, n: nat, date: Option<int>, now: int, i: nat)
    requires i < |GetAvailableDoctors(users, schedules, n, date, now)|
    ensures var r := GetAvailableDoctors(users, schedules, n, date, now);
      var day := Midnight(Pick(date, now));
      (r[i].day.None? <==>
         forall k :: k in schedules && k < n ==>
           !(schedules[k].doctor == r[i].doctor && schedules[k].date == day && schedules[k].isAvailable)) &&
      (r[i].day.Some? ==>
         var k := r[i].day.value.schedule;
         k in schedules && k < n && schedules[k].doctor == r[i].doctor &&
         schedules[k].date == day && schedules[k].isAvailable &&
         r[i].day.value.availableSlots == FreeSlots(schedules[k].slots) &&
         r[i].day.value.totalSlots == |schedules[k].slots|)
  {
    var r := GetAvailableDoctors(users, schedules, n, date, now);
    var day := Midnight(Pick(date, now));
    var entries := Entries(schedules, n);
    if r[i].day.None? {
      forall k | k in schedules && k < n
        ensures !(schedules[k].doctor == r[i].doctor && schedules[k].date == day && schedules[k].isAvailable)
      {
        assert (k, schedules[k]) in entries;
      }
    }
  }

  /** With unique days, the day shown for a doctor is that doctor's only schedule of the day. */
  lemma AvailableDayIsTheDay(users: map<Id, User>, schedules: map<Id, DoctorSchedule>, n: nat, date: Option<int>, now: int, i: nat, k: Id)
    requires UniqueDays(schedules)
    requires var r := GetAvailableDoctors(users, schedules, n, date, now);
      i < |r| && k in schedules && k < n && schedules[k].doctor == r[i].doctor &&
      schedules[k].date == Midnight(Pick(date, now)) && schedules[k].isAvailable
    ensures var r := GetAvailableDoctors(users, schedules, n, date, now);
      r[i].day.Some? && r[i].day.value.schedule == k &&
      r[i].day.value.availableSlots == FreeSlots(schedules[k].slots)
  {
    AvailableDoctorDay(users, schedules, n, date, now, i);
  }

  // ------------------------------------------------------ schedule listings

  /** A date range; an absent bound does not restrict. */
  datatype DateRange = DateRange(from: Option<int>, to: Option<int>)

  predicate InRange(t: int, range: DateRange)
  {
    (range.from.Some? ==> range.from.value <= t) && (range.to.Some? ==> t <= range.to.value)
  }

  /** `getDoctorSchedule`'s range: both bounds, the start alone, or none; an end alone is ignored. */
  function DoctorRange(startDate: Option<int>, endDate: Option<int>): (r: DateRange)
    ensures startDate.Some? && endDate.Some? ==> r == DateRange(startDate, endDate)
    ensures startDate.Some? && endDate.None? ==> r == DateRange(startDate, None)
    ensures startDate.None? ==> r == DateRange(None, None)
  {
    if startDate.Some? && endDate.Some? then DateRange(startDate, endDate)
    else if startDate.Some? then DateRange(startDate, None)
    else DateRange(None, None)
  }

  /** `getMySchedule`'s range: both bounds, or else from today's midnight on. */
  function MyRange(startDate: Option<int>, endDate: Option<int>, now: int): (r: DateRange)
    ensures startDate.Some? && endDate.Some? ==> r == DateRange(startDate, endDate)
    ensures !(startDate.Some? && endDate.Some?) ==> r == DateRange(Some(Midnight(now)), None)
  {
    if startDate.Some? && endDate.Some? then DateRange(startDate, endDate)
    else DateRange(Some(Midnight(now)), None)
  }

  predicate ScheduleDateLe(a: (Id, DoctorSchedule), b: (Id, DoctorSchedule))
  {
    a.1.date <= b.1.date
  }

  /** A doctor's schedules within a range, earliest day first. */
  function SchedulesIn(schedules: map<Id, DoctorSchedule>, n: nat, doctor: Id, range: DateRange): (r: seq<(Id, DoctorSchedule)>)
    ensures forall e :: e in r <==>
      e.0 in schedules && e.0 < n && schedules[e.0] == e.1 && e.1.doctor == doctor && InRange(e.1.date, range)
    ensures SortedBy(r, ScheduleDateLe)
  {
    var mine: seq<(Id, DoctorSchedule)> :=
      Filter(Entries(schedules, n), (e: (Id, DoctorSchedule)) => e.1.doctor == doctor && InRange(e.1.date, range));
    SortBySorted(mine, ScheduleDateLe);
    assert forall e :: e in SortBy(mine, ScheduleDateLe) <==> e in mine by {
      forall e ensures e in SortBy(mine, ScheduleDateLe) <==> e in mine { SortByMembers(mine, ScheduleDateLe, e); }
    }
    SortBy(mine, ScheduleDateLe)
  }

  /** `getDoctorSchedule` (any role). */
  function GetDoctorSchedule(schedules: map<Id, DoctorSchedule>, n: nat, doctor: Id, startDate: Option<int>, endDate: Option<int>): (r: seq<(Id, DoctorSchedule)>)
    ensures forall e :: e in r <==>
      e.0 in schedules && e.0 < n && schedules[e.0] == e.1 && e.1.doctor == doctor &&
      (startDate.Some? ==> startDate.value <= e.1.date) &&
      (startDate.Some? && endDate.Some? ==> e.1.date <= endDate.value)
    ensures SortedBy(r, ScheduleDateLe)
  {
    SchedulesIn(schedules, n, doctor, DoctorRange(startDate, endDate))
  }

  /** `getMySchedule` (doctor): from today on unless both bounds are given. */
  function GetMySchedule(schedules: map<Id, DoctorSchedule>, n: nat, caller: Actor, startDate: Option<int>, endDate: Option<int>, now: int): (r: seq<(Id, DoctorSchedule)>)
    requires caller.role == Doctor
    ensures forall e :: e in r <==>
      e.0 in schedules && e.0 < n && schedules[e.0] == e.1 && e.1.doctor == caller.id &&
      (startDate.Some? && endDate.Some? ==> startDate.value <= e.1.date <= endDate.value) &&
      (!(startDate.Some? && endDate.Some?) ==> Midnight(now) <= e.1.date)
    ensures SortedBy(r, ScheduleDateLe)
  {
    SchedulesIn(schedules, n, caller.id, MyRange(startDate, endDate, now))
  }
}
