/**
 * The database: one collection per model, each a map from document id to
 * document, and the next id to hand out. Ids grow with every insertion, so
 * ascending id order is a collection's natural (insertion) order.
 */
module Store {
  import opened Common
  import opened UserModel
  import opened VaccineModel
  import opened ChildModel
  import opened RecordModel
  import opened NotificationModel
  import opened ScheduleModel
  import opened AppointmentModel
  import opened ChatModel
  import opened AnnouncementModel
  import opened NoteModel
  import opened LabResultModel
  import opened SideEffectModel

  ghost predicate Below<T>(m: map<Id, T>, n: nat)
  {
    forall k :: k in m ==> k < n
  }

  /** The values of `s` under consecutive ids from `start` (a run of inserts). */
  function Numbered<T>(start: nat, s: seq<T>): map<Id, T>
  {
    if s == [] then map[]
    else Numbered(start, s[..|s| - 1])[start + |s| - 1 := s[|s| - 1]]
  }

  /** The run's keys are exactly `start` up to `start + |s|`, and key `start + i` holds `s[i]`. */
  lemma {:induction false} NumberedAt<T>(start: nat, s: seq<T>)
    ensures forall k :: k in Numbered(start, s) <==> start <= k < start + |s|
    ensures forall i :: 0 <= i < |s| ==> Numbered(start, s)[start + i] == s[i]
  {
    if s != [] {
      NumberedAt(start, s[..|s| - 1]);
    }
  }

  lemma NumberedSnoc<T>(start: nat, s: seq<T>, x: T)
    ensures Numbered(start, s + [x]) == Numbered(start, s)[start + |s| := x]
  {
    assert (s + [x])[..|s|] == s;
  }

  /** One more insert after a run of inserts extends the run. */
  lemma NumberedExtend<T>(base: map<Id, T>, start: nat, s: seq<T>, x: T)
    ensures (base + Numbered(start, s))[start + |s| := x] == base + Numbered(start, s + [x])
  {
    NumberedSnoc(start, s, x);
  }

  /** The ids `start`, `start + 1`, ..., `start + k - 1`. */
  function Range(start: nat, k: nat): (r: seq<nat>)
    ensures |r| == k
    ensures forall i :: 0 <= i < k ==> r[i] == start + i
  {
    if k == 0 then [] else Range(start, k - 1) + [start + k - 1]
  }

  /** A map with no key below `n` has no keys below `n` to list. */
  lemma {:induction false} KeysBelowNone<T>(m: map<Id, T>, n: nat)
    requires forall key :: key in m ==> key >= n
    ensures KeysBelow(m, n) == []
  {
    if n > 0 {
      KeysBelowNone(m, n - 1);
    }
  }

  /** Inside a run of consecutive keys from `start`, the keys below `n` are the ids from `start` up to `n`. */
  lemma {:induction false} KeysBelowInRun<T>(m: map<Id, T>, start: nat, len: nat, n: nat)
    requires forall key :: key in m <==> start <= key < start + len
    requires start <= n <= start + len
    ensures KeysBelow(m, n) == Range(start, n - start)
  {
    if n == start {
      KeysBelowNone(m, start);
    } else {
      KeysBelowInRun(m, start, len, n - 1);
      assert n - 1 in m;
      KeysBelowSnoc(m, n - 1);
    }
  }

  /** Past the end of the run, raising the bound adds no key. */
  lemma {:induction false} KeysBelowPastRun<T>(m: map<Id, T>, end: nat, n: nat)
    requires forall key :: key in m ==> key < end
    requires end <= n
    ensures KeysBelow(m, n) == KeysBelow(m, end)
  {
    if n > end {
      KeysBelowPastRun(m, end, n - 1);
      KeysBelowSnoc(m, n - 1);
    }
  }

  lemma KeysBelowSnoc<T>(m: map<Id, T>, n: nat)
    ensures n in m ==> KeysBelow(m, n + 1) == KeysBelow(m, n) + [n]
    ensures n !in m ==> KeysBelow(m, n + 1) == KeysBelow(m, n)
  {
  }

  /** The keys below any bound past a run of inserts are the run's ids in order. */
  lemma KeysOfNumbered<T>(start: nat, s: seq<T>, n: nat)
    requires start + |s| <= n
    ensures KeysBelow(Numbered(start, s), n) == Range(start, |s|)
  {
    NumberedAt(start, s);
    KeysBelowInRun(Numbered(start, s), start, |s|, start + |s|);
    KeysBelowPastRun(Numbered(start, s), start + |s|, n);
  }

  /** Reading back a run of inserts gives the inserted values in order. */
  lemma EntriesOfNumbered<T(!new)>(start: nat, s: seq<T>, n: nat)
    requires start + |s| <= n
    ensures |Entries(Numbered(start, s), n)| == |s|
    ensures forall i :: 0 <= i < |s| ==> Entries(Numbered(start, s), n)[i] == (start + i, s[i])
  {
    KeysOfNumbered(start, s, n);
    EntriesKeys(Numbered(start, s), n);
    forall i | 0 <= i < |s| ensures Entries(Numbered(start, s), n)[i] == (start + i, s[i]) {
      EntryOfNumbered(start, s, n, i);
    }
  }

  lemma EntryOfNumbered<T(!new)>(start: nat, s: seq<T>, n: nat, i: nat)
    requires start + |s| <= n && i < |s|
    ensures i < |Entries(Numbered(start, s), n)|
    ensures Entries(Numbered(start, s), n)[i] == (start + i, s[i])
  {
    var m := Numbered(start, s);
    var es := Entries(m, n);
    assert i < |es| && es[i].0 == start + i by {
      KeysOfNumbered(start, s, n);
      EntriesKeys(m, n);
    }
    assert es[i].1 == s[i] by {
      NumberedAt(start, s);
      assert es[i] in es;
    }
  }

  class Db {
    var users: map<Id, User>
    var vaccines: map<Id, Vaccine>
    var children: map<Id, Child>
    var records: map<Id, DoseRecord>
    var notifications: map<Id, Notification>
    var schedules: map<Id, DoctorSchedule>
    var appointments: map<Id, Appointment>
    var conversations: map<Id, Conversation>
    var messages: map<Id, Message>
    var announcements: map<Id, Announcement>
    var notes: map<Id, DoctorNote>
    var labResults: map<Id, LabResult>
    var sideEffects: map<Id, SideEffect>
    var nextId: Id

    /** Every stored id was handed out and the schedule index is unique. */
    ghost predicate Valid()
      reads this
    {
      Issued() && UniqueDays(schedules)
    }

    /**
     * Every stored slot is booked exactly when it names its booker. Booking
     * and cancelling keep this; a request body that sets the two fields
     * against each other breaks it, since bodies are stored as given.
     */
    ghost predicate SlotsOk()
      reads this
    {
      SlotsConsistent(schedules)
    }

    /** Every stored id is below the next one to hand out. */
    ghost predicate Issued()
      reads this
    {
      Below(users, nextId) && Below(vaccines, nextId) && Below(children, nextId) &&
      Below(records, nextId) && Below(notifications, nextId) && Below(schedules, nextId) &&
      Below(appointments, nextId) && Below(conversations, nextId) && Below(messages, nextId) &&
      Below(announcements, nextId) && Below(notes, nextId) && Below(labResults, nextId) &&
      Below(sideEffects, nextId)
    }

    constructor ()
      ensures Valid() && nextId == 0
      ensures users == map[] && vaccines == map[] && children == map[] && records == map[]
      ensures notifications == map[] && schedules == map[] && appointments == map[]
      ensures conversations == map[] && messages == map[] && announcements == map[]
      ensures notes == map[] && labResults == map[] && sideEffects == map[]
    {
      users, vaccines, children, records := map[], map[], map[], map[];
      notifications, schedules, appointments := map[], map[], map[];
      conversations, messages, announcements := map[], map[], map[];
      notes, labResults, sideEffects := map[], map[], map[];
      nextId := 0;
    }

    /** Hands out a fresh id. */
    method NewId() returns (id: Id)
      modifies this`nextId
      ensures id == old(nextId) && nextId == id + 1
    {
      id := nextId;
      nextId := nextId + 1;
    }

    /** Hands out `k` consecutive fresh ids, starting at the returned one. */
    method Reserve(k: nat) returns (start: Id)
      requires Valid()
      modifies this`nextId
      ensures Valid()
      ensures start == old(nextId) && nextId == start + k
    {
      start := nextId;
      nextId := nextId + k;
    }

    /** Stores a schedule for a (doctor, day) that has none yet, under a fresh id. */
    method AddSchedule(d: DoctorSchedule) returns (id: Id)
      requires Valid()
      requires forall k :: k in schedules ==> !(schedules[k].doctor == d.doctor && schedules[k].date == d.date)
      modifies this`schedules, this`nextId
      ensures Valid()
      ensures old(SlotsOk()) && AllConsistent(d.slots) ==> SlotsOk()
      ensures id == old(nextId) && nextId == id + 1 && id !in old(schedules)
      ensures schedules == old(schedules)[id := d]
    {
      id := NewId();
      UniqueDaysInsert(schedules, id, d);
      schedules := schedules[id := d];
    }

    /** Rewrites a stored schedule in place, on the same doctor and day. */
    method PutSchedule(id: Id, d: DoctorSchedule)
      requires Valid() && id in schedules
      requires d.doctor == schedules[id].doctor && d.date == schedules[id].date
      modifies this`schedules
      ensures Valid()
      ensures old(SlotsOk()) && AllConsistent(d.slots) ==> SlotsOk()
      ensures schedules == old(schedules)[id := d]
    {
      UniqueDaysReplace(schedules, id, d);
      schedules := schedules[id := d];
    }

    /** Removes a stored schedule. */
    method RemoveSchedule(id: Id)
      requires Valid()
      modifies this`schedules
      ensures Valid()
      ensures old(SlotsOk()) ==> SlotsOk()
      ensures schedules == old(schedules) - {id}
    {
      schedules := schedules - {id};
    }

    /** Stores an appointment under a fresh id. */
    method AddAppointment(a: Appointment) returns (id: Id)
      requires Valid()
      modifies this`appointments, this`nextId
      ensures Valid()
      ensures id == old(nextId) && nextId == id + 1 && id !in old(appointments)
      ensures appointments == old(appointments)[id := a]
    {
      id := NewId();
      appointments := appointments[id := a];
    }

    /** Rewrites a stored notification. */
    method PutNotification(id: Id, n: Notification)
      requires Valid() && id in notifications
      modifies this`notifications
      ensures Valid()
      ensures notifications == old(notifications)[id := n]
    {
      notifications := notifications[id := n];
    }

    /** Rewrites stored notifications in place, adding and removing none. */
    method SetNotifications(m: map<Id, Notification>)
      requires Valid() && m.Keys == notifications.Keys
      modifies this`notifications
      ensures Valid()
      ensures notifications == m
    {
      notifications := m;
    }

    /** Removes a stored notification. */
    method RemoveNotification(id: Id)
      requires Valid()
      modifies this`notifications
      ensures Valid()
      ensures notifications == old(notifications) - {id}
    {
      notifications := notifications - {id};
    }

    /** Stores a doctor's note under a fresh id. */
    method AddDoctorNote(d: DoctorNote) returns (id: Id)
      requires Valid()
      modifies this`notes, this`nextId
      ensures Valid()
      ensures id == old(nextId) && nextId == id + 1 && id !in old(notes)
      ensures notes == old(notes)[id := d]
    {
      id := NewId();
      notes := notes[id := d];
    }

    /** Rewrites a stored doctor's note. */
    method PutDoctorNote(id: Id, d: DoctorNote)
      requires Valid() && id in notes
      modifies this`notes
      ensures Valid()
      ensures notes == old(notes)[id := d]
    {
      notes := notes[id := d];
    }

    /** Removes a stored doctor's note. */
    method RemoveDoctorNote(id: Id)
      requires Valid()
      modifies this`notes
      ensures Valid()
      ensures notes == old(notes) - {id}
    {
      notes := notes - {id};
    }

    /** Stores a lab result under a fresh id. */
    method AddLabResult(l: LabResult) returns (id: Id)
      requires Valid()
      modifies this`labResults, this`nextId
      ensures Valid()
      ensures id == old(nextId) && nextId == id + 1 && id !in old(labResults)
      ensures labResults == old(labResults)[id := l]
    {
      id := NewId();
      labResults := labResults[id := l];
    }

    /** Rewrites a stored lab result. */
    method PutLabResult(id: Id, l: LabResult)
      requires Valid() && id in labResults
      modifies this`labResults
      ensures Valid()
      ensures labResults == old(labResults)[id := l]
    {
      labResults := labResults[id := l];
    }

    /** Removes a stored lab result. */
    method RemoveLabResult(id: Id)
      requires Valid()
      modifies this`labResults
      ensures Valid()
      ensures labResults == old(labResults) - {id}
    {
      labResults := labResults - {id};
    }

    /** Stores a side-effect report under a fresh id. */
    method AddSideEffect(e: SideEffect) returns (id: Id)
      requires Valid()
      modifies this`sideEffects, this`nextId
      ensures Valid()
      ensures id == old(nextId) && nextId == id + 1 && id !in old(sideEffects)
      ensures sideEffects == old(sideEffects)[id := e]
    {
      id := NewId();
      sideEffects := sideEffects[id := e];
    }

    /** Rewrites a stored side-effect report. */
    method PutSideEffect(id: Id, e: SideEffect)
      requires Valid() && id in sideEffects
      modifies this`sideEffects
      ensures Valid()
      ensures sideEffects == old(sideEffects)[id := e]
    {
      sideEffects := sideEffects[id := e];
    }

    /** Stores an announcement under a fresh id. */
    method AddAnnouncement(a: Announcement) returns (id: Id)
      requires Valid()
      modifies this`announcements, this`nextId
      ensures Valid()
      ensures id == old(nextId) && nextId == id + 1 && id !in old(announcements)
      ensures announcements == old(announcements)[id := a]
    {
      id := NewId();
      announcements := announcements[id := a];
    }

    /** Rewrites a stored announcement. */
    method PutAnnouncement(id: Id, a: Announcement)
      requires Valid() && id in announcements
      modifies this`announcements
      ensures Valid()
      ensures announcements == old(announcements)[id := a]
    {
      announcements := announcements[id := a];
    }

    /** Removes a stored announcement. */
    method RemoveAnnouncement(id: Id)
      requires Valid()
      modifies this`announcements
      ensures Valid()
      ensures announcements == old(announcements) - {id}
    {
      announcements := announcements - {id};
    }

    /** Stores an account under a fresh id. */
    method AddUser(u: User) returns (id: Id)
      requires Valid()
      modifies this`users, this`nextId
      ensures Valid()
      ensures id == old(nextId) && nextId == id + 1 && id !in old(users)
      ensures users == old(users)[id := u]
    {
      id := NewId();
      users := users[id := u];
    }

    /** Rewrites a stored account. */
    method PutUser(id: Id, u: User)
      requires Valid() && id in users
      modifies this`users
      ensures Valid()
      ensures users == old(users)[id := u]
    {
      users := users[id := u];
    }

    /** Stores a conversation under a fresh id. */
    method AddConversation(c: Conversation) returns (id: Id)
      requires Valid()
      modifies this`conversations, this`nextId
      ensures Valid()
      ensures id == old(nextId) && nextId == id + 1 && id !in old(conversations)
      ensures conversations == old(conversations)[id := c]
    {
      id := NewId();
      conversations := conversations[id := c];
    }

    /** Rewrites a stored conversation. */
    method PutConversation(id: Id, c: Conversation)
      requires Valid() && id in conversations
      modifies this`conversations
      ensures Valid()
      ensures conversations == old(conversations)[id := c]
    {
      conversations := conversations[id := c];
    }

    /** Stores a message under a fresh id. */
    method AddMessage(m: Message) returns (id: Id)
      requires Valid()
      modifies this`messages, this`nextId
      ensures Valid()
      ensures id == old(nextId) && nextId == id + 1 && id !in old(messages)
      ensures messages == old(messages)[id := m]
    {
      id := NewId();
      messages := messages[id := m];
    }

    /** Rewrites stored messages in place, adding and removing none. */
    method SetMessages(m: map<Id, Message>)
      requires Valid() && m.Keys == messages.Keys
      modifies this`messages
      ensures Valid()
      ensures messages == m
    {
      messages := m;
    }

    /** Empties the vaccine collection, then stores `s` under consecutive fresh ids, in order. */
    method ReplaceVaccines(s: seq<Vaccine>)
      requires Valid()
      modifies this`vaccines, this`nextId
      ensures Valid()
      ensures vaccines == Numbered(old(nextId), s)
      ensures nextId == old(nextId) + |s|
    {
      NumberedAt(nextId, s);
      vaccines := Numbered(nextId, s);
      nextId := nextId + |s|;
    }

    /**
     * Stores a child under a fresh id, then a run of its dose records under
     * the consecutive ids after it, in order.
     */
    method InsertChildWithRecords(c: Child, s: seq<DoseRecord>) returns (id: Id)
      requires Valid()
      modifies this`children, this`records, this`nextId
      ensures Valid()
      ensures id == old(nextId) && nextId == id + 1 + |s|
      ensures children == old(children)[id := c]
      ensures records == old(records) + Numbered(id + 1, s)
    {
      id := nextId;
      var inserted := Numbered(id + 1, s);
      assert Below(records + inserted, id + 1 + |s|) by {
        NumberedAt(id + 1, s);
      }
      children := children[id := c];
      records := records + inserted;
      nextId := id + 1 + |s|;
    }

    /** Stores a notification under a fresh id; the notification is the only new document. */
    method Notify(n: Notification) returns (id: Id)
      requires Valid()
      modifies this`notifications, this`nextId
      ensures Valid()
      ensures id == old(nextId) && nextId == id + 1
      ensures notifications == old(notifications)[id := n]
    {
      id := NewId();
      notifications := notifications[id := n];
    }
  }
}
