/** A message to one user (server/models/Notification.js). The title and text are not modelled. */
module NotificationModel {
  import opened Common

  datatype NotificationType = Reminder | DelayNotice | Confirmation | CancellationNotice | Info | Alert

  datatype Notification = Notification(
    user: Id,
    kind: NotificationType,
    isRead: bool,
    relatedChild: Option<Id>,
    relatedAppointment: Option<Id>,
    relatedVaccine: Option<Id>,
    createdAt: int)

  /** A notification as created: unread. */
  function NewNotification(user: Id, kind: NotificationType, child: Option<Id>,
                           appointment: Option<Id>, vaccine: Option<Id>, now: int): (n: Notification)
    ensures n.user == user && n.kind == kind && !n.isRead && n.createdAt == now
  {
    Notification(user, kind, false, child, appointment, vaccine, now)
  }
}
