/** A doctor's day of consultation slots (server/models/DoctorSchedule.js). */
module ScheduleModel {
  import opened Common
  import Time

  /** A time slot; `id` is the sub-document id that `slots.id(...)` looks up. */
  datatype Slot = Slot(id: Id, startTime: string, endTime: string, isBooked: bool, bookedBy: Option<Id>)

  /** A slot as the schema creates it: not booked, by nobody. */
  function NewSlot(id: Id, startTime: string, endTime: string): (s: Slot)
    ensures s.id == id && s.startTime == startTime && s.endTime == endTime
    ensures !s.isBooked && s.bookedBy == None
    ensures Consistent(s)
  {
    Slot(id, startTime, endTime, false, None)
  }

  /** A slot is booked exactly when it names who booked it. */
  predicate Consistent(s: Slot)
  {
    s.isBooked <==> s.bookedBy.Some?
  }

  predicate AllConsistent(slots: seq<Slot>)
  {
    forall i :: 0 <= i < |slots| ==> Consistent(slots[i])
  }

  datatype DoctorSchedule = DoctorSchedule(
    doctor: Id,
    date: int,
    slots: seq<Slot>,
    isAvailable: bool,
    notes: string)

  /** A schedule with the schema's default availability. */
  function NewSchedule(doctor: Id, date: int, slots: seq<Slot>, notes: string): (d: DoctorSchedule)
    ensures d.isAvailable && d.doctor == doctor && d.date == date && d.slots == slots
  {
    DoctorSchedule(doctor, date, slots, true, notes)
  }

  predicate Free(s: Slot)
  {
    !s.isBooked
  }

  /** The unbooked slots, in stored order. */
  function FreeSlots(slots: seq<Slot>): (r: seq<Slot>)
    ensures forall s :: s in r <==> s in slots && !s.isBooked
    ensures IsSubsequence(r, slots)
  {
    Filter(slots, Free)
  }

  /** The unique index: no two stored schedules share a doctor and a date. */
  ghost predicate UniqueDays(schedules: map<Id, DoctorSchedule>)
  {
    forall a, b :: a in schedules && b in schedules && a != b ==>
      schedules[a].doctor != schedules[b].doctor || schedules[a].date != schedules[b].date
  }

  /** Every slot of every stored schedule is consistent. */
  ghost predicate SlotsConsistent(schedules: map<Id, DoctorSchedule>)
  {
    forall id :: id in schedules ==> AllConsistent(schedules[id].slots)
  }

  /** Storing a schedule for a day nobody else holds keeps the index unique. */
  lemma UniqueDaysInsert(schedules: map<Id, DoctorSchedule>, id: Id, d: DoctorSchedule)
    requires UniqueDays(schedules) && id !in schedules
    requires forall k :: k in schedules ==> !(schedules[k].doctor == d.doctor && schedules[k].date == d.date)
    ensures UniqueDays(schedules[id := d])
  {
  }

  /** Rewriting a schedule without moving it to another doctor or day keeps the index unique. */
  lemma UniqueDaysReplace(schedules: map<Id, DoctorSchedule>, id: Id, d: DoctorSchedule)
    requires UniqueDays(schedules) && id in schedules
    requires d.doctor == schedules[id].doctor && d.date == schedules[id].date
    ensures UniqueDays(schedules[id := d])
  {
  }

  /** The entry is an available schedule of this doctor on this day. */
  predicate AvailableOn(e: (Id, DoctorSchedule), doctor: Id, date: int)
  {
    e.1.doctor == doctor && e.1.date == date && e.1.isAvailable
  }

  /** The first schedule (in natural order) with this doctor and date that is available. */
  function FindAvailable(entries: seq<(Id, DoctorSchedule)>, doctor: Id, date: int): (r: Option<DoctorSchedule>)
    ensures r.Some? ==> (exists e :: e in entries && e.1 == r.value)
    ensures r.Some? ==> exists i :: 0 <= i < |entries| && entries[i].1 == r.value &&
                          forall j :: 0 <= j < i ==> !AvailableOn(entries[j], doctor, date)
    ensures r.Some? ==> r.value.doctor == doctor && r.value.date == date && r.value.isAvailable
    ensures r.None? ==> forall e :: e in entries ==>
      !(e.1.doctor == doctor && e.1.date == date && e.1.isAvailable)
  {
    if entries == [] then None
    else if entries[0].1.doctor == doctor && entries[0].1.date == date && entries[0].1.isAvailable then Some(entries[0].1)
    else FindAvailable(entries[1..], doctor, date)
  }

  /**
   * With the unique index, the day's available schedule is the only
   * candidate: `getAvailableSlots` gives exactly its unbooked slots, in order.
   */
  lemma AvailableSlotsOfTheDay(entries: seq<(Id, DoctorSchedule)>, doctor: Id, date: int, e: (Id, DoctorSchedule))
    requires e in entries && AvailableOn(e, doctor, Time.Midnight(date))
    requires forall i, j :: 0 <= i < j < |entries| ==>
      entries[i].1.doctor != entries[j].1.doctor || entries[i].1.date != entries[j].1.date
    ensures GetAvailableSlots(entries, doctor, date) == Filter(e.1.slots, Free)
    ensures forall s :: s in e.1.slots && !s.isBooked ==> s in GetAvailableSlots(entries, doctor, date)
  {
    var d := FindAvailable(entries, doctor, Time.Midnight(date));
    var k :| 0 <= k < |entries| && entries[k] == e;
    assert d.Some?;
    var i :| 0 <= i < |entries| && entries[i].1 == d.value &&
             forall j :: 0 <= j < i ==> !AvailableOn(entries[j], doctor, Time.Midnight(date));
    if i != k {
      assert i < k;
    }
    assert d.value == e.1;
  }

  /** The `getAvailableSlots` static: the free slots of the doctor's available schedule on that day, or none. */
  function GetAvailableSlots(entries: seq<(Id, DoctorSchedule)>, doctor: Id, date: int): (r: seq<Slot>)
    ensures (forall e :: e in entries ==>
               !(e.1.doctor == doctor && e.1.date == Time.Midnight(date) && e.1.isAvailable)) ==> r == []
    ensures forall s :: s in r ==> !s.isBooked
    ensures forall s :: s in r ==> exists e :: e in entries && e.1.doctor == doctor && s in e.1.slots
    ensures var d := FindAvailable(entries, doctor, Time.Midnight(date));
      d.Some? ==> r == Filter(d.value.slots, Free)
  {
    match FindAvailable(entries, doctor, Time.Midnight(date))
    case None => []
    case Some(d) => FreeSlots(d.slots)
  }
}
