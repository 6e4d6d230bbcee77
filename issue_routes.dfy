/** The pure parts of the issue handlers: payload validation, the listing query,
    the single-issue lookup and the status transition with its notification. */
module IssueRoutes {
  import opened Common
  import opened IssueModel
  import opened NotificationModel
  import Seqs
  import Text

  const MinTitleLength := 5
  const MinDescriptionLength := 10
  const MinLocationLength := 3

  /** The request body of POST /issues. A required field that is missing is
      represented by a value that fails its check (an empty string). An optional
      field that is missing is None; `user_name` is "" when absent. */
  datatype IssuePayload = IssuePayload(
    title: string,
    description: string,
    category: string,
    location: string,
    priority: Option<string>,
    photo_urls: Option<seq<string>>,
    user_name: string)

  /** The payload once validated, with the defaults filled in. */
  datatype IssueData = IssueData(
    title: string,
    description: string,
    category: Category,
    location: string,
    priority: Priority,
    photo_urls: seq<string>)

  /** The shape check of the create schema; `isUrl` stands for the URL validator of the
      schema library, which is not part of this model. */
  function ValidateIssue(p: IssuePayload, isUrl: string -> bool): (r: Result<IssueData>)
    ensures r.Ok? <==>
      && |p.title| >= MinTitleLength
      && |p.description| >= MinDescriptionLength
      && |p.location| >= MinLocationLength
      && ParseCategory(p.category).Some?
      && (p.priority.Some? ==> ParsePriority(p.priority.value).Some?)
      && (p.photo_urls.Some? ==> forall u :: u in p.photo_urls.value ==> isUrl(u))
    ensures r.Err? ==> r.error == ValidationError
    ensures r.Ok? ==>
      && r.value.title == p.title && r.value.description == p.description
      && r.value.location == p.location
      && CategoryName(r.value.category) == p.category
      && (p.priority.None? ==> r.value.priority == Medium)
      && (p.priority.Some? ==> PriorityName(r.value.priority) == p.priority.value)
      && (p.photo_urls.None? ==> r.value.photo_urls == [])
      && (p.photo_urls.Some? ==> r.value.photo_urls == p.photo_urls.value)
  {
    if |p.title| < MinTitleLength || |p.description| < MinDescriptionLength
       || |p.location| < MinLocationLength then
      Err(ValidationError)
    else
      match ParseCategory(p.category)
      case None => Err(ValidationError)
      case Some(category) =>
        var priority := if p.priority.None? then Some(DefaultPriority) else ParsePriority(p.priority.value);
        if priority.None? then Err(ValidationError)
        else
          var urls := if p.photo_urls.None? then [] else p.photo_urls.value;
          if exists u :: u in urls && !isUrl(u) then Err(ValidationError)
          else Ok(IssueData(p.title, p.description, category, p.location, priority.value, urls))
  }

  /** The issue POST /issues stores: the validated fields, the caller as reporter, the
      payload's display name or else the caller's email, status open. */
  function CreatedIssue(d: IssueData, who: Identity, userName: string, id: nat, now: nat): (r: Issue)
    requires WellFormed(who)
    requires |d.title| >= MinTitleLength && |d.description| >= MinDescriptionLength
    requires |d.location| >= MinLocationLength
    ensures r.status == Open && r.resolved_at == None
    ensures r.id == id && r.created_at == now && r.updated_at == now
    ensures r.user_id == who.id
    ensures userName != "" ==> r.user_name == userName
    ensures userName == "" ==> r.user_name == who.email
    ensures r.title == d.title && r.description == d.description && r.location == d.location
    ensures r.category == d.category && r.priority == d.priority && r.photo_urls == d.photo_urls
    ensures IssueModel.HasRequiredFields(r)
  {
    NewIssue(id, who.id, OrElse(userName, who.email), d.title, d.description, d.category,
             d.location, d.priority, d.photo_urls, now)
  }

  /** Query parameters of GET /issues; "" means the parameter is absent. The values are
      compared as raw strings: a value outside the enumeration matches nothing. */
  datatype IssueFilter = IssueFilter(category: string, status: string, priority: string, search: string)

  const NoFilter := IssueFilter("", "", "", "")

  predicate MatchesSearch(i: Issue, search: string) {
    || Text.ContainsIgnoringCase(i.title, search)
    || Text.ContainsIgnoringCase(i.description, search)
    || Text.ContainsIgnoringCase(i.location, search)
  }

  /** Every present exact-match parameter agrees, and so does the search if present. */
  predicate Matches(i: Issue, f: IssueFilter) {
    && (f.category == "" || CategoryName(i.category) == f.category)
    && (f.status == "" || StatusName(i.status) == f.status)
    && (f.priority == "" || PriorityName(i.priority) == f.priority)
    && (f.search == "" || MatchesSearch(i, f.search))
  }

  /** The `find(filter)` step of GET /issues: the matching issues in store order. */
  function Selected(issues: seq<Issue>, f: IssueFilter): (r: seq<Issue>)
    ensures forall x :: multiset(r)[x] == if Matches(x, f) then multiset(issues)[x] else 0
    ensures forall x :: x in r <==> x in issues && Matches(x, f)
  {
    Seqs.Filter(issues, i => Matches(i, f))
  }

  /** With no parameter given, the filter object is empty and matches every issue. */
  lemma NoFilterSelectsAll(issues: seq<Issue>)
    ensures Selected(issues, NoFilter) == issues
  {
    Seqs.FilterAll(issues, i => Matches(i, NoFilter));
  }

  function CreatedKeyDescending(i: Issue): int { 0 - i.created_at as int }

  /** GET /issues: the matching issues, newest first. */
  function ListIssues(issues: seq<Issue>, f: IssueFilter): (r: seq<Issue>)
    ensures forall x :: multiset(r)[x] == if Matches(x, f) then multiset(issues)[x] else 0
    ensures forall x :: x in r <==> x in issues && Matches(x, f)
    ensures forall a, b :: 0 <= a < b < |r| ==> r[a].created_at >= r[b].created_at
  {
    var selected := Selected(issues, f);
    var r := Seqs.SortBy(selected, CreatedKeyDescending);
    Seqs.SameMembers(r, selected);
    r
  }

  /** With no parameter given, the listing holds every issue exactly once. */
  lemma ListAllIsPermutation(issues: seq<Issue>)
    ensures multiset(ListIssues(issues, NoFilter)) == multiset(issues)
  {
  }

  /** Adding a search to a filter keeps exactly the issues that also match the search. */
  lemma SearchNarrowsListing(issues: seq<Issue>, f: IssueFilter, search: string)
    requires f.search == "" && search != ""
    ensures forall x :: x in ListIssues(issues, f.(search := search)) <==>
      x in ListIssues(issues, f) && MatchesSearch(x, search)
  {
  }

  /** GET /issues/:id. */
  function GetIssue(issues: seq<Issue>, id: nat): (r: Result<Issue>)
    ensures r.Ok? ==> r.value in issues && r.value.id == id
    ensures r.Err? <==> forall k :: 0 <= k < |issues| ==> issues[k].id != id
    ensures r.Err? ==> r.error == NotFound
  {
    match Seqs.IndexOf(issues, IssueKey, id)
    case Some(k) => Ok(issues[k])
    case None => Err(NotFound)
  }

  /** The status assignment of PATCH /issues/:id/status: any status may follow any other
      (there is no transition graph); resolved_at is stamped only the first time. */
  function ApplyStatus(i: Issue, s: Status, now: nat): (r: Issue)
    ensures r.status == s && r.updated_at == now
    ensures i.resolved_at.Some? ==> r.resolved_at == i.resolved_at
    ensures i.resolved_at.None? && s == Resolved ==> r.resolved_at == Some(now)
    ensures i.resolved_at.None? && s != Resolved ==> r.resolved_at == None
    ensures r == i.(status := s, updated_at := now, resolved_at := r.resolved_at)
  {
    var stamped := if s == Resolved && i.resolved_at.None? then Some(now) else i.resolved_at;
    i.(status := s, updated_at := now, resolved_at := stamped)
  }

  /** Status assignments applied in order, each with its own clock reading. */
  function ApplyAll(i: Issue, steps: seq<(Status, nat)>): Issue
    decreases |steps|
  {
    if steps == [] then i else ApplyAll(ApplyStatus(i, steps[0].0, steps[0].1), steps[1..])
  }

  /** The clock reading of the first step that resolves the issue. */
  function FirstResolution(steps: seq<(Status, nat)>): Option<nat>
    decreases |steps|
  {
    if steps == [] then None
    else if steps[0].0 == Resolved then Some(steps[0].1)
    else FirstResolution(steps[1..])
  }

  /** resolved_at records the first resolution and is never changed or cleared afterwards,
      whatever statuses follow (including resolved, closed, resolved again). */
  lemma {:induction false} ResolvedAtIsFirstResolution(i: Issue, steps: seq<(Status, nat)>)
    ensures i.resolved_at.Some? ==> ApplyAll(i, steps).resolved_at == i.resolved_at
    ensures i.resolved_at.None? ==> ApplyAll(i, steps).resolved_at == FirstResolution(steps)
    decreases |steps|
  {
    if steps != [] {
      ResolvedAtIsFirstResolution(ApplyStatus(i, steps[0].0, steps[0].1), steps[1..]);
    }
  }

  /** Status assignments change nothing but status, updated_at and resolved_at. */
  lemma {:induction false} ApplyAllKeepsContent(i: Issue, steps: seq<(Status, nat)>)
    ensures var r := ApplyAll(i, steps);
      r == i.(status := r.status, updated_at := r.updated_at, resolved_at := r.resolved_at)
    decreases |steps|
  {
    if steps != [] {
      ApplyAllKeepsContent(ApplyStatus(i, steps[0].0, steps[0].1), steps[1..]);
    }
  }

  function StatusChangeMessage(title: string, from: Status, to: Status): string {
    "Issue \"" + title + "\" status changed from " + StatusName(from) + " to " + StatusName(to)
  }

  /** The notification every status change sends to the reporter, with no exception for
      an unchanged status or for a reporter who is the admin making the change. */
  function StatusChangeNotification(id: nat, i: Issue, from: Status, now: nat): (n: Notification)
    requires IssueModel.HasRequiredFields(i)
    ensures n.kind == StatusChange && n.user_id == i.user_id && n.issue_id == i.id
    ensures n.message == StatusChangeMessage(i.title, from, i.status)
    ensures !n.read && n.created_at == now && n.id == id
    ensures NotificationModel.HasRequiredFields(n)
  {
    NewNotification(id, i.user_id, i.id, StatusChange, StatusChangeMessage(i.title, from, i.status), now)
  }
}
