/** The in-memory document store behind the routes and the handlers that change it.
    Each collection keeps the store's natural (insertion) order; ids come from one
    counter, so every id is fresh. */
module Workflow {
  import opened Common
  import opened IssueModel
  import opened CommentModel
  import opened NotificationModel
  import Seqs
  import IssueRoutes
  import CommentRoutes
  import NotificationRoutes

  class Store {
    var issues: seq<Issue>
    var comments: seq<Comment>
    var notifications: seq<Notification>
    var nextId: nat

    /** Each collection is keyed by id, every id was handed out by the counter, and every
        stored record has its required fields. */
    ghost predicate Valid()
      reads this
    {
      && Seqs.DistinctKeys(issues, IssueKey) && Seqs.KeysBelow(issues, IssueKey, nextId)
      && Seqs.DistinctKeys(comments, CommentKey) && Seqs.KeysBelow(comments, CommentKey, nextId)
      && Seqs.DistinctKeys(notifications, NotificationKey)
      && Seqs.KeysBelow(notifications, NotificationKey, nextId)
      && (forall k :: 0 <= k < |issues| ==> IssueModel.HasRequiredFields(issues[k]))
      && (forall k :: 0 <= k < |comments| ==> CommentModel.HasRequiredFields(comments[k]))
      && (forall k :: 0 <= k < |notifications| ==> NotificationModel.HasRequiredFields(notifications[k]))
    }

    constructor ()
      ensures Valid()
      ensures issues == [] && comments == [] && notifications == [] && nextId == 0
    {
      issues, comments, notifications, nextId := [], [], [], 0;
    }

    /** Issue.save(): the pre-save hook stamps updated_at, then the document is inserted,
        or replaces the stored one with the same id. */
    method SaveIssue(issue: Issue, now: nat) returns (saved: Issue)
      requires Valid() && IssueModel.HasRequiredFields(issue) && issue.id < nextId
      modifies this`issues
      ensures Valid()
      ensures saved == issue.(updated_at := now)
      ensures var k := Seqs.IndexOf(old(issues), IssueKey, issue.id);
        issues == if k.Some? then old(issues)[k.value := saved] else old(issues) + [saved]
    {
      saved := issue.(updated_at := now);
      var k := Seqs.IndexOf(issues, IssueKey, issue.id);
      if k.Some? {
        issues := issues[k.value := saved];
      } else {
        issues := issues + [saved];
      }
    }

    /** Comment.save() of a new comment under the next fresh id. */
    method InsertComment(c: Comment)
      requires Valid() && CommentModel.HasRequiredFields(c) && c.id == nextId
      modifies this`comments, this`nextId
      ensures Valid()
      ensures comments == old(comments) + [c] && nextId == old(nextId) + 1
    {
      Seqs.AppendFresh(comments, CommentKey, nextId, c);
      comments := comments + [c];
      nextId := nextId + 1;
    }

    /** Notification.save() of a new notification under the next fresh id. */
    method InsertNotification(n: Notification)
      requires Valid() && NotificationModel.HasRequiredFields(n) && n.id == nextId
      modifies this`notifications, this`nextId
      ensures Valid()
      ensures notifications == old(notifications) + [n] && nextId == old(nextId) + 1
    {
      Seqs.AppendFresh(notifications, NotificationKey, nextId, n);
      notifications := notifications + [n];
      nextId := nextId + 1;
    }

    /** POST /issues: validate, then store a new open issue reported by the caller.
        No notification is sent. */
    method CreateIssue(who: Identity, p: IssueRoutes.IssuePayload, isUrl: string -> bool, now: nat)
      returns (r: Result<Issue>)
      requires Valid() && WellFormed(who)
      modifies this
      ensures Valid()
      ensures comments == old(comments) && notifications == old(notifications)
      ensures r.Ok? <==> IssueRoutes.ValidateIssue(p, isUrl).Ok?
      ensures r.Err? ==> r.error == ValidationError && issues == old(issues) && nextId == old(nextId)
      ensures r.Ok? ==>
        && r.value == IssueRoutes.CreatedIssue(IssueRoutes.ValidateIssue(p, isUrl).value, who, p.user_name, old(nextId), now)
        && issues == old(issues) + [r.value]
        && nextId == old(nextId) + 1
    {
      var data := IssueRoutes.ValidateIssue(p, isUrl);
      if data.Err? {
        return Err(ValidationError);
      }
      var issue := IssueRoutes.CreatedIssue(data.value, who, p.user_name, nextId, now);
      nextId := nextId + 1;
      var saved := SaveIssue(issue, now);
      r := Ok(saved);
    }

    /** PATCH /issues/:id/status (admin only): assign the status, stamp resolved_at on the
        first resolution, save, then notify the reporter. */
    method UpdateIssueStatus(who: Identity, id: nat, rawStatus: string, now: nat) returns (r: Result<Issue>)
      requires Valid()
      modifies this
      ensures Valid()
      ensures comments == old(comments)
      ensures who.role != Admin ==> r == Err(Forbidden)
      ensures who.role == Admin && ParseStatus(rawStatus).None? ==> r == Err(ValidationError)
      ensures who.role == Admin && ParseStatus(rawStatus).Some? && IssueRoutes.GetIssue(old(issues), id).Err?
        ==> r == Err(NotFound)
      ensures r.Err? ==> issues == old(issues) && notifications == old(notifications) && nextId == old(nextId)
      ensures r.Ok? <==>
        who.role == Admin && ParseStatus(rawStatus).Some? && IssueRoutes.GetIssue(old(issues), id).Ok?
      ensures r.Ok? ==>
        var before := IssueRoutes.GetIssue(old(issues), id).value;
        && r.value == IssueRoutes.ApplyStatus(before, ParseStatus(rawStatus).value, now)
        && |issues| == |old(issues)|
        && (forall k :: 0 <= k < |issues| ==>
              issues[k] == if old(issues)[k].id == id then r.value else old(issues)[k])
        && notifications == old(notifications)
             + [IssueRoutes.StatusChangeNotification(old(nextId), r.value, before.status, now)]
        && nextId == old(nextId) + 1
    {
      if who.role != Admin {
        return Err(Forbidden);
      }
      var parsed := ParseStatus(rawStatus);
      if parsed.None? {
        return Err(ValidationError);
      }
      var status := parsed.value;
      var found := Seqs.IndexOf(issues, IssueKey, id);
      if found.None? {
        return Err(NotFound);
      }
      var issue := issues[found.value];
      var oldStatus := issue.status;
      issue := issue.(status := status);
      issue := issue.(updated_at := now);
      if status == Resolved && issue.resolved_at.None? {
        issue := issue.(resolved_at := Some(now));
      }
      issue := SaveIssue(issue, now);
      forall k | 0 <= k < |issues| ensures issues[k] == if old(issues)[k].id == id then issue else old(issues)[k] {
        Seqs.IndexOfUnique(old(issues), IssueKey, id, k);
      }
      var n := IssueRoutes.StatusChangeNotification(nextId, issue, oldStatus, now);
      InsertNotification(n);
      r := Ok(issue);
    }

    /** DELETE /issues/:id (admin only): remove that one issue; its comments and
        notifications stay. */
    method DeleteIssue(who: Identity, id: nat) returns (r: Outcome)
      requires Valid()
      modifies this
      ensures Valid()
      ensures comments == old(comments) && notifications == old(notifications) && nextId == old(nextId)
      ensures who.role != Admin ==> r == Failed(Forbidden)
      ensures who.role == Admin && IssueRoutes.GetIssue(old(issues), id).Err? ==> r == Failed(NotFound)
      ensures r.Failed? ==> issues == old(issues)
      ensures r.Done? <==> who.role == Admin && IssueRoutes.GetIssue(old(issues), id).Ok?
      ensures r.Done? ==>
        && (forall x :: x in issues <==> x in old(issues) && x.id != id)
        && |issues| == |old(issues)| - 1
        && var k := Seqs.IndexOf(old(issues), IssueKey, id).value;
           issues == old(issues)[..k] + old(issues)[k + 1..]
    {
      if who.role != Admin {
        return Failed(Forbidden);
      }
      var found := Seqs.IndexOf(issues, IssueKey, id);
      if found.None? {
        return Failed(NotFound);
      }
      var k := found.value;
      Seqs.RemoveAt(issues, IssueKey, nextId, k);
      issues := issues[..k] + issues[k + 1..];
      r := Done;
    }

    /** POST /comments/issue/:issueId: validate the content, check that the issue exists,
        store the comment, and notify the reporter unless the reporter is the commenter. */
    method AddComment(who: Identity, issueId: nat, content: string, userName: string, now: nat)
      returns (r: Result<Comment>)
      requires Valid() && WellFormed(who)
      modifies this
      ensures Valid()
      ensures issues == old(issues)
      ensures |content| < CommentRoutes.MinContentLength ==> r == Err(ValidationError)
      ensures |content| >= CommentRoutes.MinContentLength && IssueRoutes.GetIssue(old(issues), issueId).Err?
        ==> r == Err(NotFound)
      ensures r.Err? ==> comments == old(comments) && notifications == old(notifications) && nextId == old(nextId)
      ensures r.Ok? <==> |content| >= CommentRoutes.MinContentLength && IssueRoutes.GetIssue(old(issues), issueId).Ok?
      ensures r.Ok? ==>
        var issue := IssueRoutes.GetIssue(old(issues), issueId).value;
        && r.value == CommentRoutes.NewComment(old(nextId), issueId, who, userName, content, now)
        && comments == old(comments) + [r.value]
        && (CommentRoutes.NotifiesReporter(issue, who) ==>
              && notifications == old(notifications)
                   + [CommentRoutes.CommentNotification(old(nextId) + 1, issue, r.value, now)]
              && nextId == old(nextId) + 2)
        && (!CommentRoutes.NotifiesReporter(issue, who) ==>
              notifications == old(notifications) && nextId == old(nextId) + 1)
    {
      var checked := CommentRoutes.ValidateContent(content);
      if checked.Err? {
        return Err(ValidationError);
      }
      var found := Seqs.IndexOf(issues, IssueKey, issueId);
      if found.None? {
        return Err(NotFound);
      }
      var issue := issues[found.value];
      var comment := CommentRoutes.NewComment(nextId, issueId, who, userName, checked.value, now);
      InsertComment(comment);
      if issue.user_id != who.id {
        var n := CommentRoutes.CommentNotification(nextId, issue, comment, now);
        InsertNotification(n);
      }
      r := Ok(comment);
    }

    /** PATCH /notifications/:id/read: find the notification by id AND owner; one that
        belongs to someone else is reported as not found, not as forbidden. */
    method MarkRead(who: Identity, id: nat) returns (r: Result<Notification>)
      requires Valid()
      modifies this
      ensures Valid()
      ensures issues == old(issues) && comments == old(comments) && nextId == old(nextId)
      ensures |notifications| == |old(notifications)|
      ensures r.Ok? <==> exists n :: n in old(notifications) && n.id == id && n.user_id == who.id
      ensures (exists n :: n in old(notifications) && n.id == id && n.user_id != who.id) ==> r == Err(NotFound)
      ensures r.Err? ==> r.error == NotFound && notifications == old(notifications)
      ensures r.Ok? ==> r.value.id == id && r.value.user_id == who.id && r.value.read
      ensures r.Ok? ==> forall k :: 0 <= k < |notifications| ==>
        notifications[k] == if old(notifications)[k].id == id then old(notifications)[k].(read := true)
                            else old(notifications)[k]
      ensures r.Ok? ==> exists n :: n in old(notifications) && n.id == id && r.value == n.(read := true)
      ensures r.Ok? ==> r.value in notifications
    {
      var i := 0;
      while i < |notifications| && !(notifications[i].id == id && notifications[i].user_id == who.id)
        invariant 0 <= i <= |notifications|
        invariant forall j :: 0 <= j < i ==> !(notifications[j].id == id && notifications[j].user_id == who.id)
      {
        i := i + 1;
      }
      if i == |notifications| {
        return Err(NotFound);
      }
      var updated := notifications[i].(read := true);
      notifications := notifications[i := updated];
      r := Ok(updated);
    }

    /** PATCH /notifications/read-all: set `read` on each of the caller's unread
        notifications, one record at a time. */
    method MarkAllRead(who: Identity)
      requires Valid()
      modifies this
      ensures Valid()
      ensures issues == old(issues) && comments == old(comments) && nextId == old(nextId)
      ensures notifications == NotificationRoutes.AllReadFor(old(notifications), who.id)
    {
      var i := 0;
      while i < |notifications|
        invariant 0 <= i <= |notifications| == |old(notifications)|
        invariant issues == old(issues) && comments == old(comments) && nextId == old(nextId)
        invariant forall j :: 0 <= j < i ==>
          notifications[j] == NotificationRoutes.AllReadFor(old(notifications), who.id)[j]
        invariant forall j :: i <= j < |notifications| ==> notifications[j] == old(notifications)[j]
      {
        if NotificationRoutes.MatchedByReadAll(notifications[i], who.id) {
          notifications := notifications[i := notifications[i].(read := true)];
        }
        i := i + 1;
      }
    }
  }
}
