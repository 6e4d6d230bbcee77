/** The Issue record: its enumerations, their wire names and the schema defaults. */
module IssueModel {
  import opened Common

  datatype Category =
    Infrastructure | Sanitation | Safety | Environment | Utilities | Transportation | Other

  datatype Status = Open | InProgress | Resolved | Closed

  datatype Priority = Low | Medium | High | Urgent

  function CategoryName(c: Category): string {
    match c
    case Infrastructure => "infrastructure"
    case Sanitation => "sanitation"
    case Safety => "safety"
    case Environment => "environment"
    case Utilities => "utilities"
    case Transportation => "transportation"
    case Other => "other"
  }

  function StatusName(s: Status): string {
    match s
    case Open => "open"
    case InProgress => "in_progress"
    case Resolved => "resolved"
    case Closed => "closed"
  }

  function PriorityName(p: Priority): string {
    match p
    case Low => "low"
    case Medium => "medium"
    case High => "high"
    case Urgent => "urgent"
  }

  /** Accepts exactly the seven category names. */
  function ParseCategory(s: string): (r: Option<Category>)
    ensures forall c :: r == Some(c) <==> s == CategoryName(c)
  {
    if s == "infrastructure" then Some(Infrastructure)
    else if s == "sanitation" then Some(Sanitation)
    else if s == "safety" then Some(Safety)
    else if s == "environment" then Some(Environment)
    else if s == "utilities" then Some(Utilities)
    else if s == "transportation" then Some(Transportation)
    else if s == "other" then Some(Other)
    else None
  }

  /** Accepts exactly the four status names. */
  function ParseStatus(s: string): (r: Option<Status>)
    ensures forall st :: r == Some(st) <==> s == StatusName(st)
  {
    if s == "open" then Some(Open)
    else if s == "in_progress" then Some(InProgress)
    else if s == "resolved" then Some(Resolved)
    else if s == "closed" then Some(Closed)
    else None
  }

  /** Accepts exactly the four priority names. */
  function ParsePriority(s: string): (r: Option<Priority>)
    ensures forall p :: r == Some(p) <==> s == PriorityName(p)
  {
    if s == "low" then Some(Low)
    else if s == "medium" then Some(Medium)
    else if s == "high" then Some(High)
    else if s == "urgent" then Some(Urgent)
    else None
  }

  const DefaultStatus: Status := Open
  const DefaultPriority: Priority := Medium

  /** Times are instants of an abstract clock; `resolved_at` is absent until the first resolution. */
  datatype Issue = Issue(
    id: nat,
    user_id: string,
    user_name: string,
    title: string,
    description: string,
    category: Category,
    location: string,
    status: Status,
    priority: Priority,
    photo_urls: seq<string>,
    created_at: nat,
    updated_at: nat,
    resolved_at: Option<nat>)

  function IssueKey(i: Issue): nat { i.id }

  /** The schema's `required: true` string fields are non-empty. */
  predicate HasRequiredFields(i: Issue) {
    i.user_id != "" && i.user_name != "" && i.title != "" && i.description != "" && i.location != ""
  }

  /** A new document: status open, created and updated now, never resolved. */
  function NewIssue(id: nat, user_id: string, user_name: string, title: string, description: string,
                    category: Category, location: string, priority: Priority, photo_urls: seq<string>,
                    now: nat): (r: Issue)
    ensures r.status == DefaultStatus && r.resolved_at == None
    ensures r.created_at == now && r.updated_at == now
  {
    Issue(id, user_id, user_name, title, description, category, location, DefaultStatus, priority,
          photo_urls, now, now, None)
  }
}
