/**
 * Announcements (server/controllers/announcementController.js): the list
 * every signed-in user sees, filtered by liveness and audience and ordered
 * pinned first, then by priority as a string, then newest; and the admin's
 * listing, creation, update, deletion and on/off toggle.
 */
module AnnouncementController {
  import opened Common
  import opened Sorting
  import opened AnnouncementModel
  import opened Store

  // ------------------------------------------------------------ visibility

  /** Active, and without an expiry or expiring strictly after `now`. */
  predicate Live(a: Announcement, now: int)
  {
    a.isActive && (a.expiresAt.None? || a.expiresAt.value > now)
  }

  /** Parents see all/parents, doctors all/doctors, admins every audience. */
  predicate ForRole(a: Announcement, role: Role)
  {
    match role
    case Parent => a.targetAudience == All || a.targetAudience == Parents
    case Doctor => a.targetAudience == All || a.targetAudience == Doctors
    case Admin => true
  }

  /**
   * The list filter and the `isExpired` virtual agree except at the instant
   * of expiry: then the announcement is not yet expired, yet already left
   * out of the list.
   */
  lemma LiveVersusExpired(a: Announcement, now: int)
    ensures Live(a, now) ==> !IsExpired(a, now)
    ensures a.isActive && !IsExpired(a, now) && !Live(a, now) <==> a.isActive && a.expiresAt == Some(now)
  {
  }

  // ---------------------------------------------------------------- order

  /** The stored priority string. */
  function PriorityName(p: Priority): string
  {
    match p
    case Low => "low"
    case Medium => "medium"
    case High => "high"
    case Urgent => "urgent"
  }

  /** Where a priority falls in string order: high < low < medium < urgent. */
  function StringRank(p: Priority): nat
  {
    match p
    case High => 0
    case Low => 1
    case Medium => 2
    case Urgent => 3
  }

  /** Sorting the priority strings orders them by `StringRank`, not by urgency. */
  lemma PriorityStringOrder(p: Priority, q: Priority)
    ensures StrLe(PriorityName(p), PriorityName(q)) <==> StringRank(p) <= StringRank(q)
  {
    var a, b := PriorityName(p), PriorityName(q);
    if p == q {
      StrLeTotal(a, a);
    } else {
      assert a[0] != b[0];
      assert StrLe(a, b) <==> a[0] < b[0];
    }
  }

  /** `.sort({ isPinned: -1, priority: -1, createdAt: -1 })`. */
  predicate Precedes(a: (Id, Announcement), b: (Id, Announcement))
  {
    if a.1.isPinned != b.1.isPinned then a.1.isPinned
    else if a.1.priority != b.1.priority then StrLe(PriorityName(b.1.priority), PriorityName(a.1.priority))
    else a.1.createdAt >= b.1.createdAt
  }

  /** `Precedes` as the lexicographic order on (pinned, string rank, creation), each descending. */
  lemma PrecedesByRank(a: (Id, Announcement), b: (Id, Announcement))
    ensures Precedes(a, b) <==>
      (a.1.isPinned && !b.1.isPinned) ||
      (a.1.isPinned == b.1.isPinned && StringRank(a.1.priority) > StringRank(b.1.priority)) ||
      (a.1.isPinned == b.1.isPinned && a.1.priority == b.1.priority && a.1.createdAt >= b.1.createdAt)
  {
    PriorityStringOrder(b.1.priority, a.1.priority);
    PriorityStringOrder(a.1.priority, b.1.priority);
  }

  lemma PrecedesIsTotalPreorder()
    ensures TotalPreorder(Precedes)
  {
    forall a, b ensures Precedes(a, b) || Precedes(b, a) {
      PrecedesByRank(a, b);
      PrecedesByRank(b, a);
    }
    forall a, b, c | Precedes(a, b) && Precedes(b, c) ensures Precedes(a, c) {
      PrecedesByRank(a, b);
      PrecedesByRank(b, c);
      PrecedesByRank(a, c);
    }
  }

  /** In the sorted list pinned announcements come first, and among equally pinned ones urgent, medium, low, high. */
  lemma ActiveOrder(r: seq<(Id, Announcement)>, i: nat, j: nat)
    requires SortedBy(r, Precedes) && i < j < |r|
    ensures r[j].1.isPinned ==> r[i].1.isPinned
    ensures r[i].1.isPinned == r[j].1.isPinned ==> StringRank(r[i].1.priority) >= StringRank(r[j].1.priority)
  {
    PrecedesByRank(r[i], r[j]);
  }

  // -------------------------------------------------------------- listing

  /** `getActiveAnnouncements`: the live announcements for the caller's audience, in `Precedes` order. */
  function GetActiveAnnouncements(anns: map<Id, Announcement>, n: nat, caller: Actor, now: int): (r: seq<(Id, Announcement)>)
    ensures forall e :: e in r <==>
      e.0 in anns && e.0 < n && anns[e.0] == e.1 && Live(e.1, now) && ForRole(e.1, caller.role)
    ensures SortedBy(r, Precedes)
  {
    var shown: seq<(Id, Announcement)> :=
      Filter(Entries(anns, n), (e: (Id, Announcement)) => Live(e.1, now) && ForRole(e.1, caller.role));
    PrecedesIsTotalPreorder();
    SortBySorted(shown, Precedes);
    assert forall e :: e in SortBy(shown, Precedes) <==> e in shown by {
      forall e ensures e in SortBy(shown, Precedes) <==> e in shown { SortByMembers(shown, Precedes, e); }
    }
    SortBy(shown, Precedes)
  }

  predicate NewestFirst(a: (Id, Announcement), b: (Id, Announcement))
  {
    a.1.createdAt >= b.1.createdAt
  }

  /** `getAllAnnouncements` (admin): every announcement, newest first. */
  function GetAllAnnouncements(anns: map<Id, Announcement>, n: nat, caller: Actor): (r: seq<(Id, Announcement)>)
    requires caller.role == Admin
    ensures forall e :: e in r <==> e.0 in anns && e.0 < n && anns[e.0] == e.1
    ensures SortedBy(r, NewestFirst)
  {
    var all := Entries(anns, n);
    SortBySorted(all, NewestFirst);
    assert forall e :: e in SortBy(all, NewestFirst) <==> e in all by {
      forall e ensures e in SortBy(all, NewestFirst) <==> e in all { SortByMembers(all, NewestFirst, e); }
    }
    SortBy(all, NewestFirst)
  }

  // --------------------------------------------------------------- create

  /** The body of `POST /announcements`; absent fields are `None`, an absent pin false. */
  datatype AnnouncementBody = AnnouncementBody(
    title: string,
    message: string,
    kind: Option<AnnouncementType>,
    priority: Option<Priority>,
    targetAudience: Option<Audience>,
    expiresAt: Option<int>,
    isPinned: bool)

  /**
   * The announcement `createAnnouncement` stores: the given fields, and
   * the schema default for each one left out; it is active and its author
   * is the caller.
   */
  function NewAnnouncement(b: AnnouncementBody, author: Id, now: int): (r: Announcement)
    ensures r.kind == (if b.kind.Some? then b.kind.value else Info)
    ensures r.priority == (if b.priority.Some? then b.priority.value else Medium)
    ensures r.targetAudience == (if b.targetAudience.Some? then b.targetAudience.value else All)
    ensures r.expiresAt == b.expiresAt && r.isPinned == b.isPinned
    ensures r.(kind := Info, priority := Medium, targetAudience := All, expiresAt := None, isPinned := false) ==
      DefaultAnnouncement(b.title, b.message, author, now)
  {
    Announcement(b.title, b.message, Pick(b.kind, Info), Pick(b.priority, Medium), true, b.isPinned,
                 Pick(b.targetAudience, All), b.expiresAt, author, now)
  }

  /** A new announcement with no expiry and the default audience is shown to every role, at any time. */
  lemma NewWithoutExpiryIsShown(b: AnnouncementBody, author: Id, now: int, later: int, role: Role)
    requires b.expiresAt.None? && b.targetAudience.None?
    ensures Live(NewAnnouncement(b, author, now), later) && ForRole(NewAnnouncement(b, author, now), role)
  {
  }

  /** `createAnnouncement` (admin). */
  method CreateAnnouncement(db: Db, caller: Actor, b: AnnouncementBody, now: int) returns (id: Id)
    requires db.Valid() && caller.role == Admin
    modifies db`announcements, db`nextId
    ensures db.Valid()
    ensures id == old(db.nextId) && db.nextId == id + 1 && id !in old(db.announcements)
    ensures db.announcements == old(db.announcements)[id := NewAnnouncement(b, caller.id, now)]
  {
    id := db.AddAnnouncement(NewAnnouncement(b, caller.id, now));
  }

  // ------------------------------------------------ update, toggle, delete

  /** The body of `PUT /announcements/:id`: each field present is replaced. */
  datatype AnnouncementPatch = AnnouncementPatch(
    title: Option<string>,
    message: Option<string>,
    kind: Option<AnnouncementType>,
    priority: Option<Priority>,
    isActive: Option<bool>,
    isPinned: Option<bool>,
    targetAudience: Option<Audience>,
    expiresAt: Option<Option<int>>,
    author: Option<Id>)

  /**
   * `findByIdAndUpdate(id, updates)`: every field present is replaced, the
   * author included, since the whole body is passed on; the creation time is
   * the schema's immutable timestamp and is kept.
   */
  function ApplyPatch(a: Announcement, p: AnnouncementPatch): (r: Announcement)
    ensures r.title == (if p.title.Some? then p.title.value else a.title)
    ensures r.message == (if p.message.Some? then p.message.value else a.message)
    ensures r.kind == (if p.kind.Some? then p.kind.value else a.kind)
    ensures r.priority == (if p.priority.Some? then p.priority.value else a.priority)
    ensures r.isActive == (if p.isActive.Some? then p.isActive.value else a.isActive)
    ensures r.isPinned == (if p.isPinned.Some? then p.isPinned.value else a.isPinned)
    ensures r.targetAudience == (if p.targetAudience.Some? then p.targetAudience.value else a.targetAudience)
    ensures r.expiresAt == (if p.expiresAt.Some? then p.expiresAt.value else a.expiresAt)
    ensures r.author == (if p.author.Some? then p.author.value else a.author)
    ensures r.createdAt == a.createdAt
  {
    Announcement(Pick(p.title, a.title), Pick(p.message, a.message), Pick(p.kind, a.kind), Pick(p.priority, a.priority),
                 Pick(p.isActive, a.isActive), Pick(p.isPinned, a.isPinned), Pick(p.targetAudience, a.targetAudience),
                 Pick(p.expiresAt, a.expiresAt), Pick(p.author, a.author), a.createdAt)
  }

  /** An empty update leaves the announcement as it was, and applying one twice is applying it once. */
  lemma PatchLaws(a: Announcement, p: AnnouncementPatch)
    ensures ApplyPatch(a, AnnouncementPatch(None, None, None, None, None, None, None, None, None)) == a
    ensures ApplyPatch(ApplyPatch(a, p), p) == ApplyPatch(a, p)
  {
  }

  /** `updateAnnouncement` (admin): 404 for an unknown id. */
  method UpdateAnnouncement(db: Db, caller: Actor, id: Id, p: AnnouncementPatch) returns (r: Result<Id>)
    requires db.Valid() && caller.role == Admin
    modifies db`announcements
    ensures db.Valid()
    ensures id !in old(db.announcements) ==> r == Err(NotFound) && db.announcements == old(db.announcements)
    ensures id in old(db.announcements) ==>
      r == Ok(id) && db.announcements == old(db.announcements)[id := ApplyPatch(old(db.announcements)[id], p)]
  {
    if id !in db.announcements {
      return Err(NotFound);
    }
    db.PutAnnouncement(id, ApplyPatch(db.announcements[id], p));
    r := Ok(id);
  }

  /** `toggleAnnouncement` (admin): 404 for an unknown id, else only `isActive` flips. */
  method ToggleAnnouncement(db: Db, caller: Actor, id: Id) returns (r: Result<bool>)
    requires db.Valid() && caller.role == Admin
    modifies db`announcements
    ensures db.Valid()
    ensures id !in old(db.announcements) ==> r == Err(NotFound) && db.announcements == old(db.announcements)
    ensures id in old(db.announcements) ==>
      r == Ok(!old(db.announcements)[id].isActive) &&
      db.announcements == old(db.announcements)[id := old(db.announcements)[id].(isActive := !old(db.announcements)[id].isActive)]
  {
    if id !in db.announcements {
      return Err(NotFound);
    }
    var a := db.announcements[id];
    db.PutAnnouncement(id, a.(isActive := !a.isActive));
    r := Ok(!a.isActive);
  }

  /** `deleteAnnouncement` (admin): 404 for an unknown id, else only that announcement goes. */
  method DeleteAnnouncement(db: Db, caller: Actor, id: Id) returns (r: Result<Id>)
    requires db.Valid() && caller.role == Admin
    modifies db`announcements
    ensures db.Valid()
    ensures id !in old(db.announcements) ==> r == Err(NotFound) && db.announcements == old(db.announcements)
    ensures id in old(db.announcements) ==> r == Ok(id) && db.announcements == old(db.announcements) - {id}
  {
    if id !in db.announcements {
      return Err(NotFound);
    }
    db.RemoveAnnouncement(id);
    r := Ok(id);
  }
}
