/** A broadcast message (server/models/Announcement.js). */
module AnnouncementModel {
  import opened Common

  datatype AnnouncementType = Info | Warning | Alert | Success

  datatype Priority = Low | Medium | High | Urgent

  datatype Audience = All | Parents | Doctors

  datatype Announcement = Announcement(
    title: string,
    message: string,
    kind: AnnouncementType,
    priority: Priority,
    isActive: bool,
    isPinned: bool,
    targetAudience: Audience,
    expiresAt: Option<int>,
    author: Id,
    createdAt: int)

  /** An announcement with every defaulted field at its schema default. */
  function DefaultAnnouncement(title: string, message: string, author: Id, now: int): (a: Announcement)
    ensures a.kind == Info && a.priority == Medium && a.isActive && !a.isPinned
    ensures a.targetAudience == All && a.expiresAt == None && a.author == author
  {
    Announcement(title, message, Info, Medium, true, false, All, None, author, now)
  }

  /** The `isExpired` virtual. */
  function IsExpired(a: Announcement, now: int): bool
  {
    match a.expiresAt
    case None => false
    case Some(t) => now > t
  }

  /** Without an expiry date an announcement never expires; with one it has expired once now is past it. */
  lemma ExpiryCases(a: Announcement, now: int)
    ensures a.expiresAt == None ==> !IsExpired(a, now)
    ensures a.expiresAt.Some? ==> (IsExpired(a, now) <==> a.expiresAt.value < now)
  {
  }
}
