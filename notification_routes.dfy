/** The pure parts of the notification handlers: the inbox listing and the effect of
    marking every unread notification of one user as read. */
module NotificationRoutes {
  import opened NotificationModel
  import Seqs

  function CreatedKeyDescending(n: Notification): int { 0 - n.created_at as int }

  /** GET /notifications: the caller's notifications, newest first. */
  function ListNotifications(ns: seq<Notification>, userId: string): (r: seq<Notification>)
    ensures forall n :: multiset(r)[n] == if n.user_id == userId then multiset(ns)[n] else 0
    ensures forall n :: n in r <==> n in ns && n.user_id == userId
    ensures forall a, b :: 0 <= a < b < |r| ==> r[a].created_at >= r[b].created_at
  {
    var selected := Seqs.Filter(ns, (n: Notification) => n.user_id == userId);
    var r := Seqs.SortBy(selected, CreatedKeyDescending);
    Seqs.SameMembers(r, selected);
    r
  }

  /** The update-many of PATCH /notifications/read-all on one record: it matches the
      user's unread notifications and sets `read`. */
  predicate MatchedByReadAll(n: Notification, userId: string) {
    n.user_id == userId && !n.read
  }

  /** The collection after PATCH /notifications/read-all: the same records in the same
      places, none of the user's left unread, everyone else's untouched, and no field
      but `read` changed. */
  function AllReadFor(ns: seq<Notification>, userId: string): (r: seq<Notification>)
    ensures |r| == |ns|
    ensures forall k :: 0 <= k < |r| ==> r[k] == ns[k].(read := r[k].read)
    ensures forall k :: 0 <= k < |r| && ns[k].user_id == userId ==> r[k].read
    ensures forall k :: 0 <= k < |r| && ns[k].user_id != userId ==> r[k] == ns[k]
  {
    seq(|ns|, k requires 0 <= k < |ns| =>
      if MatchedByReadAll(ns[k], userId) then ns[k].(read := true) else ns[k])
  }

  /** Marking everything read twice is the same as once: the second update matches nothing. */
  lemma AllReadIdempotent(ns: seq<Notification>, userId: string)
    ensures AllReadFor(AllReadFor(ns, userId), userId) == AllReadFor(ns, userId)
    ensures forall n :: n in AllReadFor(ns, userId) ==> !MatchedByReadAll(n, userId)
  {
  }

  /** After marking everything read, the caller's inbox holds no unread notification. */
  lemma InboxReadAfterAllRead(ns: seq<Notification>, userId: string)
    ensures forall n :: n in ListNotifications(AllReadFor(ns, userId), userId) ==> n.read
  {
  }
}
