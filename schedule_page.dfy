/**
 * The doctor's schedule page (client/src/pages/schedule/DoctorSchedulePage.jsx):
 * the grid of selectable times, the editor of the slots about to be posted
 * for a day with its presets, and the per-schedule slot counts.
 */
module SchedulePage {
  import opened Common
  import opened Sorting
  import ScheduleModel
  import ScheduleController

  /** The "HH:MM" rendering of a number of minutes after midnight. */
  function Clock(minutes: nat): (r: string)
    requires minutes < 24 * 60
    ensures |r| == 5 && r[2] == ':'
  {
    Pad2(minutes / 60) + ":" + Pad2(minutes % 60)
  }

  /** Later times render later: zero-padded "HH:MM" strings compare as the times they show. */
  lemma ClockOrder(m1: nat, m2: nat)
    requires m1 < m2 < 24 * 60
    ensures StrLe(Clock(m1), Clock(m2)) && Clock(m1) != Clock(m2)
  {
    var a, b := Clock(m1), Clock(m2);
    var h1, h2, n1, n2 := m1 / 60, m2 / 60, m1 % 60, m2 % 60;
    assert h1 < h2 || (h1 == h2 && n1 < n2);
    assert a[0] as int - '0' as int == h1 / 10 && a[1] as int - '0' as int == h1 % 10;
    assert b[0] as int - '0' as int == h2 / 10 && b[1] as int - '0' as int == h2 % 10;
    assert a[3] as int - '0' as int == n1 / 10 && a[4] as int - '0' as int == n1 % 10;
    assert b[3] as int - '0' as int == n2 / 10 && b[4] as int - '0' as int == n2 % 10;
    if a[0] != b[0] {
      assert a[0] < b[0];
    } else if a[1] != b[1] {
      assert a[1] < b[1];
      assert StrLe(a[1..], b[1..]);
    } else {
      assert h1 == h2;
      assert a[3] < b[3] || (a[3] == b[3] && a[4] < b[4]);
      if a[3] != b[3] {
        assert StrLe(a[3..], b[3..]);
      } else {
        assert StrLe(a[4..], b[4..]);
        assert StrLe(a[3..], b[3..]);
      }
      assert StrLe(a[2..], b[2..]);
      assert StrLe(a[1..], b[1..]);
    }
  }

  /** The first option of the time grid is 08:00, the last 18:30. */
  const FirstOption: nat := 8 * 60
  const OptionCount: nat := 22

  /**
   * `generateTimeOptions`: every half hour from 08:00 to 18:30, built by an
   * hour loop with a half-hour loop inside.
   */
  method GenerateTimeOptions() returns (options: seq<string>)
    ensures |options| == OptionCount
    ensures forall i :: 0 <= i < |options| ==> options[i] == Clock(FirstOption + 30 * i)
  {
    options := [];
    var h := 8;
    while h <= 18
      invariant 8 <= h <= 19
      invariant |options| == 2 * (h - 8)
      invariant forall i :: 0 <= i < |options| ==> options[i] == Clock(FirstOption + 30 * i)
    {
      var m := 0;
      while m < 60
        invariant m == 0 || m == 30 || m == 60
        invariant |options| == 2 * (h - 8) + m / 30
        invariant forall i :: 0 <= i < |options| ==> options[i] == Clock(FirstOption + 30 * i)
      {
        GridStep(h, m, |options|);
        options := options + [Pad2(h) + ":" + Pad2(m)];
        m := m + 30;
      }
      h := h + 1;
    }
  }

  /** The grid is strictly increasing, so no time is offered twice. */
  lemma GridIncreasing(i: nat, j: nat)
    requires i < j < OptionCount
    ensures StrLe(Clock(FirstOption + 30 * i), Clock(FirstOption + 30 * j))
    ensures Clock(FirstOption + 30 * i) != Clock(FirstOption + 30 * j)
  {
    ClockOrder(FirstOption + 30 * i, FirstOption + 30 * j);
  }

  /** The grid's `k`-th time is hour `h`, minute `m`, when `k` counts the half hours since 08:00. */
  lemma {:induction false} GridStep(h: nat, m: nat, k: nat)
    requires 8 <= h <= 18 && (m == 0 || m == 30) && k == 2 * (h - 8) + m / 30
    ensures Clock(FirstOption + 30 * k) == Pad2(h) + ":" + Pad2(m)
  {
    assert FirstOption + 30 * k == h * 60 + m;
    assert (h * 60 + m) / 60 == h && (h * 60 + m) % 60 == m;
  }

  /** A slot being edited: its start and end as "HH:MM". */
  datatype Draft = Draft(startTime: string, endTime: string)

  datatype Field = StartTime | EndTime

  /** Each slot ends where the next begins. */
  predicate Contiguous(s: seq<Draft>)
  {
    forall i :: 0 <= i < |s| - 1 ==> s[i].endTime == s[i + 1].startTime
  }

  /** The morning preset. */
  function Morning(): (r: seq<Draft>)
    ensures |r| == 6 && r[0].startTime == "09:00" && r[5].endTime == "12:00"
  {
    [Draft("09:00", "09:30"), Draft("09:30", "10:00"), Draft("10:00", "10:30"),
     Draft("10:30", "11:00"), Draft("11:00", "11:30"), Draft("11:30", "12:00")]
  }

  /** The afternoon preset. */
  function Afternoon(): (r: seq<Draft>)
    ensures |r| == 6 && r[0].startTime == "14:00" && r[5].endTime == "17:00"
  {
    [Draft("14:00", "14:30"), Draft("14:30", "15:00"), Draft("15:00", "15:30"),
     Draft("15:30", "16:00"), Draft("16:00", "16:30"), Draft("16:30", "17:00")]
  }

  /** The full-day preset: the morning followed by the afternoon. */
  function FullDay(): (r: seq<Draft>)
    ensures r == Morning() + Afternoon()
  {
    [Draft("09:00", "09:30"), Draft("09:30", "10:00"), Draft("10:00", "10:30"),
     Draft("10:30", "11:00"), Draft("11:00", "11:30"), Draft("11:30", "12:00"),
     Draft("14:00", "14:30"), Draft("14:30", "15:00"), Draft("15:00", "15:30"),
     Draft("15:30", "16:00"), Draft("16:00", "16:30"), Draft("16:30", "17:00")]
  }

  /** The minutes after midnight an "HH:MM" string denotes. */
  function Minutes(t: string): int
    requires |t| == 5
  {
    (t[0] as int - '0' as int) * 600 + (t[1] as int - '0' as int) * 60 + (t[3] as int - '0' as int) * 10 + (t[4] as int - '0' as int)
  }

  /** Reading a rendered time gives the time back. */
  lemma MinutesOfClock(m: nat)
    requires m < 24 * 60
    ensures Minutes(Clock(m)) == m
  {
    var h, n := m / 60, m % 60;
    assert (h / 10) * 600 + (h % 10) * 60 == h * 60;
    assert (n / 10) * 10 + n % 10 == n;
  }

  predicate HalfHour(d: Draft)
  {
    |d.startTime| == 5 && |d.endTime| == 5 && Minutes(d.endTime) == Minutes(d.startTime) + 30
  }

  /** Slots of "HH:MM" times, each thirty minutes long and ending where the next begins. */
  predicate HalfHourly(s: seq<Draft>)
  {
    (forall i :: 0 <= i < |s| ==> HalfHour(s[i])) && Contiguous(s)
  }

  /** The morning is contiguous half hours. */
  lemma MorningIsHalfHourly()
    ensures HalfHourly(Morning())
  {
    var s := Morning();
    assert HalfHour(s[0]) && HalfHour(s[1]) && HalfHour(s[2]);
    assert HalfHour(s[3]) && HalfHour(s[4]) && HalfHour(s[5]);
  }

  /** The afternoon is contiguous half hours. */
  lemma AfternoonIsHalfHourly()
    ensures HalfHourly(Afternoon())
  {
    var s := Afternoon();
    assert HalfHour(s[0]) && HalfHour(s[1]) && HalfHour(s[2]);
    assert HalfHour(s[3]) && HalfHour(s[4]) && HalfHour(s[5]);
  }

  /** `filter((_, i) => i !== index)`: the slot at `index` goes, the others keep their order. */
  function Without(s: seq<Draft>, index: int): (r: seq<Draft>)
    ensures 0 <= index < |s| ==> |r| == |s| - 1
    ensures 0 <= index < |s| ==> forall i :: 0 <= i < index ==> r[i] == s[i]
    ensures 0 <= index < |s| ==> forall i :: index <= i < |r| ==> r[i] == s[i + 1]
    ensures !(0 <= index < |s|) ==> r == s
  {
    if 0 <= index < |s| then s[..index] + s[index + 1..] else s
  }

  /** The slots of a day about to be posted. */
  /** A draft slot as the request carries it: its two times and no booking fields. */
  function SlotBodyOf(d: Draft): (b: ScheduleController.SlotBody)
    ensures ScheduleController.EditorBody(b)
    ensures b.startTime == d.startTime && b.endTime == d.endTime
  {
    ScheduleController.SlotBody(d.startTime, d.endTime, None, None)
  }

  /** The body `handleSaveSchedule` posts: the day, the drafts, and the day marked available. */
  function SaveBody(date: int, drafts: seq<Draft>): (b: ScheduleController.ScheduleBody)
    ensures b.date == Some(date) && b.isAvailable == Some(true) && b.notes.None?
    ensures b.slots.Some? && |b.slots.value| == |drafts|
    ensures forall i :: 0 <= i < |drafts| ==> b.slots.value[i] == SlotBodyOf(drafts[i])
  {
    ScheduleController.ScheduleBody(Some(date), Some(seq(|drafts|, i requires 0 <= i < |drafts| => SlotBodyOf(drafts[i]))), Some(true), None)
  }

  /**
   * Saving from the page always re-opens the day: whether the server
   * re-plans the doctor's existing schedule of that day or creates one, the
   * result is available, holds exactly the drafts as free slots, and keeps
   * (or defaults) the notes.
   */
  lemma {:induction false} SaveReopensDay(date: int, drafts: seq<Draft>, start: Id, d: ScheduleModel.DoctorSchedule, doctor: Id)
    ensures var b := SaveBody(date, drafts);
      var made := ScheduleController.MakeSlots(start, b.slots.value);
      var replanned := ScheduleController.Replan(d, Some(made), b.isAvailable, b.notes);
      var created := ScheduleController.Fresh(doctor, d.date, Some(made), b.isAvailable, b.notes);
      replanned.isAvailable && replanned.notes == d.notes && replanned.slots == made &&
      created.isAvailable && created.notes == "" && created.slots == made &&
      ScheduleModel.FreeSlots(made) == made &&
      |made| == |drafts| &&
      forall i :: 0 <= i < |drafts| ==> made[i] == ScheduleModel.NewSlot(start + i, drafts[i].startTime, drafts[i].endTime)
  {
    var b := SaveBody(date, drafts);
    var made := ScheduleController.MakeSlots(start, b.slots.value);
    assert forall i :: 0 <= i < |b.slots.value| ==> b.slots.value[i].isBooked != Some(true);
    assert forall i :: 0 <= i < |drafts| ==> ScheduleController.EditorBody(b.slots.value[i]);
  }

  class SlotEditor {
    var drafts: seq<Draft>
    var open: bool

    constructor()
      ensures drafts == [] && !open
    {
      drafts := [];
      open := false;
    }

    /** `handleAddSlot`: a 09:00-09:30 slot is appended. */
    method AddSlot()
      modifies this`drafts
      ensures drafts == old(drafts) + [Draft("09:00", "09:30")]
    {
      drafts := drafts + [Draft("09:00", "09:30")];
    }

    /** `handleRemoveSlot`. */
    method RemoveSlot(index: int)
      modifies this`drafts
      ensures drafts == Without(old(drafts), index)
    {
      drafts := Without(drafts, index);
    }

    /** `handleSlotChange`: only the given field of the given slot changes. */
    method ChangeSlot(index: nat, field: Field, value: string)
      requires index < |drafts|
      modifies this`drafts
      ensures |drafts| == |old(drafts)|
      ensures forall i :: 0 <= i < |drafts| && i != index ==> drafts[i] == old(drafts)[i]
      ensures field == StartTime ==> drafts[index] == old(drafts)[index].(startTime := value)
      ensures field == EndTime ==> drafts[index] == old(drafts)[index].(endTime := value)
    {
      var updated := drafts;
      var slot := updated[index];
      updated := updated[index := if field == StartTime then slot.(startTime := value) else slot.(endTime := value)];
      drafts := updated;
    }

    /** A preset replaces the slots. */
    method UsePreset(preset: seq<Draft>)
      modifies this`drafts
      ensures drafts == preset
    {
      drafts := preset;
    }

    /**
     * `handleSaveSchedule`: an empty list is refused; otherwise the request
     * body is the selected date, the slots, and `isAvailable: true`.
     */
    method Save(date: int) returns (sent: Option<ScheduleController.ScheduleBody>)
      ensures sent.None? <==> drafts == []
      ensures sent.Some? ==> sent.value == SaveBody(date, drafts)
    {
      if |drafts| == 0 {
        return None;
      }
      sent := Some(SaveBody(date, drafts));
    }

    /** A successful save, or the cancel button, closes and empties the editor. */
    method Close()
      modifies this`drafts, this`open
      ensures drafts == [] && !open
    {
      drafts := [];
      open := false;
    }
  }

  /** The schedule card's counts: free and booked slots together are all of them. */
  function AvailableCount(slots: seq<ScheduleModel.Slot>): nat
  {
    Count(slots, (s: ScheduleModel.Slot) => !s.isBooked)
  }

  function BookedCount(slots: seq<ScheduleModel.Slot>): nat
  {
    Count(slots, (s: ScheduleModel.Slot) => s.isBooked)
  }

  lemma {:induction false} CountsCoverSlots(slots: seq<ScheduleModel.Slot>)
    ensures AvailableCount(slots) + BookedCount(slots) == |slots|
  {
    if slots != [] {
      CountsCoverSlots(slots[1..]);
    }
  }
}
