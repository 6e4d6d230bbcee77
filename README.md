# Civic issue workflow: a Dafny model

This project models the workflow core of a civic-issue reporting server. Citizens report
issues, administrators change their status or delete them, anyone signed in comments, and
both kinds of action leave notifications for the issue's reporter, who later marks them
read. The model is an in-memory store of three collections (issues, comments,
notifications) with one fresh-id counter. The store's handlers mirror the server's routes.

- `common.dfy` (`Common`): `Option`, the handler results (`Result`, `Outcome`, `ApiError`
  = ValidationError | Forbidden | NotFound), and the caller `Identity` (id, email, role).
- `seqs.dfy` (`Seqs`): selection, ordering and lookup by key over a collection. These are
  the `find`, `sort` and `findById` of the document store.
- `text.dfy` (`Text`): the case-insensitive substring test behind the listing's `search`.
- `issue_model.dfy`, `notification_model.dfy`, `comment_model.dfy`: the records, their
  enumerations with wire names and parsers, and the schema defaults.
- `issue_routes.dfy`, `comment_routes.dfy`, `notification_routes.dfy`: the pure parts of
  each route file. This covers body validation, the listings (GET handlers are functions
  over a collection), the status transition and the notification records.
- `store.dfy` (`Workflow.Store`): a class whose fields are the three collections and the
  counter. Its methods are the POST, PATCH and DELETE handlers. Each method states the
  whole new state in terms of the old one, and each preserves `Valid()`: ids are
  distinct, all ids come from the counter and required fields are non-empty.
- `scenario.dfy`: client methods that replay a sample walk-through of one issue's life
  and check it against the handlers' contracts.

Conventions:

- Time is a `now: nat` argument.
- The authenticated caller is an `Identity` argument. The admin-only middleware becomes
  an explicit `Forbidden` result.
- A request field that is missing is a value that fails its check. An absent query
  parameter or display name is `""`, because the server tests them for JavaScript
  truthiness.

Points where the server's behaviour is easy to misread:

- The `category`, `status` and `priority` query parameters are not validated. They go to
  the store as raw strings, so an unknown value matches no issue; it is not rejected.
- The display-name fallback is the caller's email, not a full name.
- PATCH `/issues/:id/status` checks the admin role before it validates the body, because
  the middleware runs first. A citizen sending an invalid status gets Forbidden.
- PATCH `/notifications/read-all` returns no count. It answers with a fixed message, so
  `MarkAllRead` returns nothing.

## Model

| member | source | states |
|---|---|---|
| Common.OrElse | server/src/routes/issues.ts:69 | the display name is non-empty whenever the payload's value or the fallback (the caller's email) is, so the schema's required `user_name` is always present |
| Seqs.Filter | server/src/routes/issues.ts:39 | a selection keeps exactly the matching elements, each as often as in the collection, and nothing else |
| Seqs.FilterAll | server/src/routes/issues.ts:27 | a filter that every document satisfies selects the whole collection, in order |
| Seqs.SortBy | server/src/routes/issues.ts:39 | sorting yields the same elements (a permutation) in non-decreasing key order |
| Seqs.IndexOf | server/src/routes/issues.ts:89-92 | lookup by id finds a position holding that id, or reports that no element has it |
| Seqs.RemoveAt | server/src/routes/issues.ts:126 | removing one document by id drops exactly the elements with that id, keeps the rest in order and keeps the collection keyed |
| Text.LowerChar | server/src/routes/issues.ts:33-35 | ASCII upper-case letters map to lower case, everything else is unchanged, and no upper-case letter remains |
| Text.Lower | server/src/routes/issues.ts:33-35 | lower-cased text keeps its length, has no ASCII upper-case letter, and keeps every character that was not one |
| Text.LowerIdempotent | server/src/routes/issues.ts:33-35 | lower-casing twice is the same as lower-casing once |
| Text.ContainsIgnoringCase | server/src/routes/issues.ts:33-35 | the `$options: 'i'` match: the lower-cased query occurs in the lower-cased field |
| Text.Contains | server/src/routes/issues.ts:33-35 | the substring test holds exactly when the query occurs at some position of the text |
| Text.ExactOccurrenceFound | server/src/routes/issues.ts:33-35 | a literal occurrence of the query is always found by the case-insensitive search |
| IssueModel.ParseCategory | server/src/models/Issue.ts:35-39 | exactly the seven category names are accepted, each as its own category |
| IssueModel.ParseStatus | server/src/routes/issues.ts:18-20 | exactly the four status names are accepted, each as its own status |
| IssueModel.ParsePriority | server/src/routes/issues.ts:14 | exactly the four priority names are accepted, each as its own priority |
| IssueModel.NewIssue | server/src/models/Issue.ts:44-68 | a new issue is open, created and updated now, and has no resolved_at |
| NotificationModel.NewNotification | server/src/models/Notification.ts:31-38 | a new notification is unread and created now |
| IssueRoutes.ValidateIssue | server/src/routes/issues.ts:9-16 | a payload is accepted exactly when title >= 5, description >= 10 and location >= 3 characters, category and priority (when given) are enumerated names and every photo URL passes the URL check; accepted fields are kept, priority defaults to medium and photo_urls to empty |
| IssueRoutes.CreatedIssue | server/src/routes/issues.ts:66-71 | the stored issue is open and unresolved, reported by the caller's id, named by the payload's user_name or else the caller's email, carries the validated fields and has all required fields |
| IssueRoutes.MatchesSearch | server/src/routes/issues.ts:31-37 | the `$or` of the search: title, description or location contains the query, ignoring case |
| IssueRoutes.Matches | server/src/routes/issues.ts:27-37 | the filter object: each present parameter (category, status, priority) equals the issue's field name, and a present search matches, all ANDed; an absent parameter imposes nothing |
| IssueRoutes.Selected | server/src/routes/issues.ts:39 | `find(filter)` keeps exactly the matching issues, each as often as stored, and nothing else |
| IssueRoutes.NoFilterSelectsAll | server/src/routes/issues.ts:27-30 | with no parameter the filter object is empty and selects every issue, in store order |
| IssueRoutes.ListIssues | server/src/routes/issues.ts:23-40 | the listing holds exactly the issues matching every present exact filter and, if present, the search on title, description or location, each once per stored copy, newest first |
| IssueRoutes.ListAllIsPermutation | server/src/routes/issues.ts:27-30 | with no parameter the listing is a permutation of all issues |
| IssueRoutes.SearchNarrowsListing | server/src/routes/issues.ts:31-37 | adding a search to a filter keeps exactly the previously listed issues that also match the search (AND with the exact filters) |
| IssueRoutes.GetIssue | server/src/routes/issues.ts:48-59 | an issue with the id is returned when one exists; otherwise NotFound |
| IssueRoutes.ApplyStatus | server/src/routes/issues.ts:94-100 | any status may follow any other; resolved_at is set to now only when resolving an issue that has none, an existing one is kept; only status, updated_at and resolved_at change |
| IssueRoutes.ResolvedAtIsFirstResolution | server/src/routes/issues.ts:98-100 | over any sequence of status changes, resolved_at is the time of the first resolution and is never changed or cleared afterwards |
| IssueRoutes.ApplyAllKeepsContent | server/src/routes/issues.ts:94-100 | any sequence of status changes leaves every field but status, updated_at and resolved_at as it was |
| IssueRoutes.StatusChangeNotification | server/src/routes/issues.ts:104-111 | the status notification is an unread status_change for the reporter about the issue, with the message `Issue "{title}" status changed from {old} to {new}` |
| CommentRoutes.ListComments | server/src/routes/comments.ts:15-23 | the thread holds exactly the comments of the issue, oldest first |
| CommentRoutes.NewComment | server/src/routes/comments.ts:35-41 | a comment is official exactly when an admin posts it, is authored by the caller and named by the payload's user_name or else the caller's email |
| CommentRoutes.NotifiesReporter | server/src/routes/comments.ts:46 | a comment notifies the reporter exactly when the reporter's id differs from the commenter's |
| CommentRoutes.CommentNotification | server/src/routes/comments.ts:46-54 | the comment notification is an unread comment-type notification for the reporter with the message `{user_name} commented on your issue "{title}"` |
| NotificationRoutes.ListNotifications | server/src/routes/notifications.ts:8-17 | the inbox holds exactly the caller's notifications, newest first |
| NotificationRoutes.MatchedByReadAll | server/src/routes/notifications.ts:43 | read-all's update matches a notification exactly when it belongs to the caller and is unread |
| NotificationRoutes.AllReadFor | server/src/routes/notifications.ts:41-50 | after read-all the caller has no unread notification, other users' notifications are unchanged, no record is added, removed or moved, and only `read` changes |
| NotificationRoutes.AllReadIdempotent | server/src/routes/notifications.ts:43 | a second read-all changes nothing and matches no record |
| NotificationRoutes.InboxReadAfterAllRead | server/src/routes/notifications.ts:43 | after read-all every notification in the caller's inbox is read |
| Workflow.Store.SaveIssue | server/src/models/Issue.ts:71-74 | saving stamps updated_at with now, then replaces the stored issue with that id or appends a new one |
| Workflow.Store.InsertComment | server/src/routes/comments.ts:43 | saving a comment appends exactly that comment under a fresh id |
| Workflow.Store.InsertNotification | server/src/routes/issues.ts:105-111 | saving a notification appends exactly that notification under a fresh id |
| Workflow.Store.CreateIssue | server/src/routes/issues.ts:62-82 | an invalid payload changes nothing; a valid one appends exactly the created issue; no comment or notification is added |
| Workflow.Store.UpdateIssueStatus | server/src/routes/issues.ts:85-121 | non-admins get Forbidden, an unknown status ValidationError, a missing issue NotFound, each with nothing changed; otherwise only that issue changes (by ApplyStatus) and exactly one status_change notification is appended, even for an unchanged status or a reporter who is the admin |
| Workflow.Store.DeleteIssue | server/src/routes/issues.ts:124-135 | non-admins get Forbidden, a missing issue NotFound; otherwise exactly that issue is removed and comments and notifications stay |
| Workflow.Store.AddComment | server/src/routes/comments.ts:26-64 | empty content gives ValidationError and a missing issue NotFound, each with nothing changed; otherwise exactly one comment is appended, plus exactly one comment notification when the commenter is not the reporter and none when they are |
| Workflow.Store.MarkRead | server/src/routes/notifications.ts:20-38 | succeeds exactly when a notification with that id belongs to the caller; another user's id gives NotFound; on success only that record's `read` becomes true and the updated record is returned |
| Workflow.Store.MarkAllRead | server/src/routes/notifications.ts:41-50 | the collection becomes AllReadFor of the old one; issues and comments are unchanged |

## Left out

- HTTP routing, middleware wiring, status codes and JSON bodies are not modelled. Handlers return `Result`/`Outcome` values; the route files' 500 branches are not modelled.
- Token verification and the admin-role middleware are not modelled. The caller is an `Identity` input. Methods that store the caller's id or email require it to be well formed (non-empty id and email), as a token issued by the server always is.
- Registration, login, password hashing and token signing (`server/src/routes/auth.ts`) and environment parsing (`server/src/config/env.ts`) are foreign libraries or configuration. The fixed administrator is the constant `Common.AdminIdentity`.
- The React client is out of scope: UI state, fetch and local storage.
- The store's failures are not modelled: an unavailable store, and a failure between the primary write and the notification write, where the server would keep the first write and lose the notification. So are malformed ids, which make the store throw a cast error (500). Ids are natural numbers from one counter.
- The schema library's URL check is not part of this model. `ValidateIssue` and `CreateIssue` take it as a parameter `isUrl`.
- Store-side validators (`required: true`) never fire in the model. They cannot fail, because the checked payloads and well-formed identities give non-empty values. `Valid()` records that every stored record has its required fields.
- IssueRoutes.MatchesSearch: the search is a literal substring test with ASCII lower-casing. The server hands the raw query to a case-insensitive regular expression, so regex metacharacters (and the errors they can raise) and Unicode case folding are not modelled.
- IssueRoutes.ValidateIssue: string lengths count Unicode scalar values, while the schema library counts UTF-16 code units. The two differ only for characters outside the Basic Multilingual Plane.
- A `user_name` field is modelled as a string. Other truthy JSON values, which the server would store as they are, are not modelled. Query parameters repeated into arrays are not modelled either.
- Each handler reads the clock once. The server calls `new Date()` separately for updated_at, resolved_at and the pre-save hook; those readings may differ by milliseconds.
- IssueRoutes.ListIssues: the order of issues with equal created_at is left open, as it is in the store. The same holds for `ListComments` and `ListNotifications`.
- The `assignment` notification type exists in the schema but no handler creates one.
- The validation library's error details are reduced to the single `ValidationError` value.
- `server/src/models/User.ts` contributes only the role enumeration; `server/src/models/Comment.ts` only its field list.
- Concurrency between requests is not modelled; every handler runs to completion alone.
