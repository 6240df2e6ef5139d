/**
 * A user's notifications (server/controllers/notificationController.js):
 * the fifty newest with the count of all unread ones, marking one or all
 * as read, and deleting one. Every route acts for the signed-in user only.
 */
module NotificationController {
  import opened Common
  import opened Sorting
  import opened NotificationModel
  import opened Store

  /** The page size of the listing. */
  const ListLimit: nat := 50

  predicate NewestFirst(a: (Id, Notification), b: (Id, Notification))
  {
    a.1.createdAt >= b.1.createdAt
  }

  /** `Notification.find({ user })` sorted newest first. */
  function Own(ns: map<Id, Notification>, n: nat, user: Id): (r: seq<(Id, Notification)>)
    ensures forall e :: e in r <==> e.0 in ns && e.0 < n && ns[e.0] == e.1 && e.1.user == user
    ensures SortedBy(r, NewestFirst)
  {
    var mine: seq<(Id, Notification)> := Filter(Entries(ns, n), (e: (Id, Notification)) => e.1.user == user);
    SortBySorted(mine, NewestFirst);
    assert forall e :: e in SortBy(mine, NewestFirst) <==> e in mine by {
      forall e ensures e in SortBy(mine, NewestFirst) <==> e in mine { SortByMembers(mine, NewestFirst, e); }
    }
    SortBy(mine, NewestFirst)
  }

  /** `countDocuments({ user, isRead: false })`. */
  function UnreadCount(ns: map<Id, Notification>, n: nat, user: Id): nat
  {
    Count(Entries(ns, n), (e: (Id, Notification)) => e.1.user == user && !e.1.isRead)
  }

  datatype Listing = Listing(notifications: seq<(Id, Notification)>, unreadCount: nat)

  /**
   * `getNotifications`: at most fifty of the caller's notifications, newest
   * first, none older than one left out, with the unread count over all of
   * them.
   */
  function GetNotifications(ns: map<Id, Notification>, n: nat, caller: Actor): (r: Listing)
    ensures |r.notifications| == if |Own(ns, n, caller.id)| < ListLimit then |Own(ns, n, caller.id)| else ListLimit
    ensures r.notifications <= Own(ns, n, caller.id)
    ensures SortedBy(r.notifications, NewestFirst)
    ensures forall e :: e in r.notifications ==> e.0 in ns && e.0 < n && ns[e.0] == e.1 && e.1.user == caller.id
    ensures |Own(ns, n, caller.id)| <= ListLimit ==> r.notifications == Own(ns, n, caller.id)
    ensures forall e, x :: e in Own(ns, n, caller.id) && e !in r.notifications && x in r.notifications ==>
      x.1.createdAt >= e.1.createdAt
    ensures r.unreadCount == UnreadCount(ns, n, caller.id)
  {
    var own := Own(ns, n, caller.id);
    TakeOfSorted(own, ListLimit, NewestFirst);
    Listing(Take(own, ListLimit), UnreadCount(ns, n, caller.id))
  }

  /**
   * `markAsRead`: 404 for an unknown notification, 403 for someone else's;
   * otherwise it is read. Repeating it changes nothing.
   */
  method MarkAsRead(db: Db, caller: Actor, id: Id) returns (r: Result<Id>)
    requires db.Valid()
    modifies db`notifications
    ensures db.Valid()
    ensures id !in old(db.notifications) ==> r == Err(NotFound)
    ensures id in old(db.notifications) && old(db.notifications)[id].user != caller.id ==> r == Err(Forbidden)
    ensures r.Err? ==> db.notifications == old(db.notifications)
    ensures r.Ok? ==> r.value == id && id in old(db.notifications) && old(db.notifications)[id].user == caller.id
    ensures r.Ok? ==> db.notifications == old(db.notifications)[id := old(db.notifications)[id].(isRead := true)]
  {
    if id !in db.notifications {
      return Err(NotFound);
    }
    var note := db.notifications[id];
    if note.user != caller.id {
      return Err(Forbidden);
    }
    db.PutNotification(id, note.(isRead := true));
    r := Ok(id);
  }

  /** `updateMany({ user, isRead: false }, { isRead: true })`. */
  function MarkAllRead(ns: map<Id, Notification>, user: Id): (r: map<Id, Notification>)
    ensures r.Keys == ns.Keys
    ensures forall k :: k in r && ns[k].user == user ==> r[k] == ns[k].(isRead := true)
    ensures forall k :: k in r && ns[k].user != user ==> r[k] == ns[k]
  {
    map k | k in ns :: if ns[k].user == user && !ns[k].isRead then ns[k].(isRead := true) else ns[k]
  }

  /** After marking all, the listing reports nothing unread, and marking again changes nothing. */
  lemma MarkAllLeavesNoneUnread(ns: map<Id, Notification>, n: nat, user: Id)
    ensures UnreadCount(MarkAllRead(ns, user), n, user) == 0
    ensures MarkAllRead(MarkAllRead(ns, user), user) == MarkAllRead(ns, user)
  {
    var after := MarkAllRead(ns, user);
    FilterNone(Entries(after, n), (e: (Id, Notification)) => e.1.user == user && !e.1.isRead);
  }

  /** `markAllAsRead`: every unread notification of the caller is read; nobody else's moves. */
  method MarkAllAsRead(db: Db, caller: Actor)
    requires db.Valid()
    modifies db`notifications
    ensures db.Valid()
    ensures db.notifications == MarkAllRead(old(db.notifications), caller.id)
  {
    db.SetNotifications(MarkAllRead(db.notifications, caller.id));
  }

  /** `deleteNotification`: 404 or 403 as for `markAsRead`; otherwise only that notification goes. */
  method DeleteNotification(db: Db, caller: Actor, id: Id) returns (r: Result<Id>)
    requires db.Valid()
    modifies db`notifications
    ensures db.Valid()
    ensures id !in old(db.notifications) ==> r == Err(NotFound)
    ensures id in old(db.notifications) && old(db.notifications)[id].user != caller.id ==> r == Err(Forbidden)
    ensures r.Err? ==> db.notifications == old(db.notifications)
    ensures r.Ok? ==> r.value == id && id in old(db.notifications) && old(db.notifications)[id].user == caller.id
    ensures r.Ok? ==> db.notifications == old(db.notifications) - {id}
  {
    if id !in db.notifications {
      return Err(NotFound);
    }
    if db.notifications[id].user != caller.id {
      return Err(Forbidden);
    }
    db.RemoveNotification(id);
    r := Ok(id);
  }
}
