/** Clients of the store: a sample walk-through of one issue's life, in several
    parts, each proved from the handlers' contracts alone. */
module Scenario {
  import opened Common
  import opened IssueModel
  import opened NotificationModel
  import IssueRoutes
  import NotificationRoutes
  import Workflow

  const Reporter := Identity("citizen-a", "a@example.com", Citizen)
  const Neighbour := Identity("citizen-b", "b@example.com", Citizen)

  const Streetlight := IssueRoutes.IssuePayload("Broken streetlight on Elm St",
    "Light has been out for two weeks", "infrastructure", "Elm St & 3rd", None, None, "")

  /** A store holding the reporter's streetlight issue and nothing else. */
  method ReportStreetlight() returns (store: Workflow.Store, issue: Issue)
    ensures fresh(store) && store.Valid()
    ensures store.issues == [issue] && store.comments == [] && store.notifications == []
    ensures issue.user_id == Reporter.id && issue.status == Open && issue.resolved_at == None
  {
    store := new Workflow.Store();
    var created := store.CreateIssue(Reporter, Streetlight, u => false, 1);
    assert created.Ok?;
    issue := created.value;
    assert issue.status == Open && issue.resolved_at == None;
    assert issue.priority == Medium && issue.user_name == Reporter.email;
  }

  method NotificationFanOut() {
    var store, issue := ReportStreetlight();

    // The admin starts work: the reporter is told.
    var moved := store.UpdateIssueStatus(AdminIdentity, issue.id, "in_progress", 2);
    assert moved.Ok? && moved.value.status == InProgress;
    assert |store.notifications| == 1;
    assert store.notifications[0].user_id == Reporter.id && store.notifications[0].kind == StatusChange;

    // Another citizen comments: the reporter is told.
    var comment := store.AddComment(Neighbour, issue.id, "I see this too", "", 3);
    assert comment.Ok? && !comment.value.is_official;
    assert |store.notifications| == 2 && store.notifications[1].kind == CommentPosted;

    // The reporter comments on their own issue: nobody is told.
    var own := store.AddComment(Reporter, issue.id, "Still broken", "", 4);
    assert own.Ok? && |store.notifications| == 2;
  }

  method ResolutionIsStampedOnce() {
    var store, issue := ReportStreetlight();

    // Resolve, close, resolve again: resolved_at keeps the first resolution.
    var resolved := store.UpdateIssueStatus(AdminIdentity, issue.id, "resolved", 5);
    assert resolved.Ok? && resolved.value.resolved_at == Some(5);
    var closed := store.UpdateIssueStatus(AdminIdentity, issue.id, "closed", 6);
    assert closed.Ok? && closed.value.resolved_at == Some(5);
    var again := store.UpdateIssueStatus(AdminIdentity, issue.id, "resolved", 7);
    assert again.Ok? && again.value.resolved_at == Some(5);
    assert |store.notifications| == 3;
  }

  method StatusChangeNeedsAdmin() {
    var store, issue := ReportStreetlight();

    // A citizen may not change a status, nor may anyone name an unknown one.
    var refused := store.UpdateIssueStatus(Neighbour, issue.id, "closed", 8);
    assert refused == Err(Forbidden);
    var unknown := store.UpdateIssueStatus(AdminIdentity, issue.id, "done", 8);
    assert unknown == Err(ValidationError);
  }

  method ReadingNotifications() {
    var store, issue := ReportStreetlight();
    var moved := store.UpdateIssueStatus(AdminIdentity, issue.id, "in_progress", 2);
    assert moved.Ok? && |store.notifications| == 1;

    // Someone else's notification is not found, not forbidden.
    var first := store.notifications[0];
    var stolen := store.MarkRead(Neighbour, first.id);
    assert stolen == Err(NotFound);

    // Mark everything read, twice: the second call changes nothing.
    ghost var before := store.notifications;
    store.MarkAllRead(Reporter);
    assert forall n :: n in store.notifications && n.user_id == Reporter.id ==> n.read;
    ghost var once := store.notifications;
    store.MarkAllRead(Reporter);
    NotificationRoutes.AllReadIdempotent(before, Reporter.id);
    assert store.notifications == once;
  }
}
