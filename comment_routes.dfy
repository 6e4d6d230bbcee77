/** The pure parts of the comment handlers: the thread listing, the content check and
    the records that POST /comments/issue/:issueId creates. */
module CommentRoutes {
  import opened Common
  import opened IssueModel
  import opened CommentModel
  import opened NotificationModel
  import Seqs

  const MinContentLength := 1

  /** The create-comment schema: content of at least one character. */
  function ValidateContent(content: string): (r: Result<string>)
    ensures r.Ok? <==> |content| >= MinContentLength
    ensures r.Ok? ==> r.value == content
    ensures r.Err? ==> r.error == ValidationError
  {
    if |content| < MinContentLength then Err(ValidationError) else Ok(content)
  }

  function CreatedKey(c: Comment): int { c.created_at }

  /** GET /comments/issue/:issueId: the issue's thread, oldest first. */
  function ListComments(comments: seq<Comment>, issueId: nat): (r: seq<Comment>)
    ensures forall c :: multiset(r)[c] == if c.issue_id == issueId then multiset(comments)[c] else 0
    ensures forall c :: c in r <==> c in comments && c.issue_id == issueId
    ensures forall a, b :: 0 <= a < b < |r| ==> r[a].created_at <= r[b].created_at
  {
    var selected := Seqs.Filter(comments, (c: Comment) => c.issue_id == issueId);
    var r := Seqs.SortBy(selected, CreatedKey);
    Seqs.SameMembers(r, selected);
    r
  }

  /** The comment stored: official exactly when an admin posts it, authored by the caller,
      signed with the payload's display name or else the caller's email. */
  function NewComment(id: nat, issueId: nat, who: Identity, userName: string, content: string,
                      now: nat): (r: Comment)
    requires WellFormed(who) && |content| >= MinContentLength
    ensures r.is_official <==> who.role == Admin
    ensures r.user_id == who.id && r.issue_id == issueId && r.content == content
    ensures userName != "" ==> r.user_name == userName
    ensures userName == "" ==> r.user_name == who.email
    ensures r.created_at == now && r.id == id
    ensures CommentModel.HasRequiredFields(r)
  {
    Comment(id, issueId, who.id, OrElse(userName, who.email), content, who.role == Admin, now)
  }

  function CommentMessage(commenter: string, title: string): string {
    commenter + " commented on your issue \"" + title + "\""
  }

  /** Whether a comment by `who` on `i` notifies the reporter: only when someone else comments. */
  predicate NotifiesReporter(i: Issue, who: Identity) {
    i.user_id != who.id
  }

  /** The notification a comment by someone other than the reporter sends to the reporter. */
  function CommentNotification(id: nat, i: Issue, c: Comment, now: nat): (n: Notification)
    requires IssueModel.HasRequiredFields(i)
    ensures n.kind == CommentPosted && n.user_id == i.user_id && n.issue_id == i.id
    ensures n.message == CommentMessage(c.user_name, i.title)
    ensures !n.read && n.created_at == now && n.id == id
    ensures NotificationModel.HasRequiredFields(n)
  {
    NewNotification(id, i.user_id, i.id, CommentPosted, CommentMessage(c.user_name, i.title), now)
  }
}
