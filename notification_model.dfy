/** The Notification record: its type enumeration and the unread-on-creation default. */
module NotificationModel {

  datatype NotificationType = StatusChange | CommentPosted | Assignment

  /** `type` is named `kind` here, since `type` is a Dafny keyword. */
  datatype Notification = Notification(
    id: nat,
    user_id: string,
    issue_id: nat,
    kind: NotificationType,
    message: string,
    read: bool,
    created_at: nat)

  function NotificationKey(n: Notification): nat { n.id }

  /** The schema's `required: true` string fields are non-empty. */
  predicate HasRequiredFields(n: Notification) {
    n.user_id != "" && n.message != ""
  }

  /** A new document: unread and created now. */
  function NewNotification(id: nat, user_id: string, issue_id: nat, kind: NotificationType,
                           message: string, now: nat): (r: Notification)
    ensures !r.read && r.created_at == now
  {
    Notification(id, user_id, issue_id, kind, message, false, now)
  }
}
