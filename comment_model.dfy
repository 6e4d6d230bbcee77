/** The Comment record (fields only; comments are never changed after creation). */
module CommentModel {

  datatype Comment = Comment(
    id: nat,
    issue_id: nat,
    user_id: string,
    user_name: string,
    content: string,
    is_official: bool,
    created_at: nat)

  function CommentKey(c: Comment): nat { c.id }

  /** The schema's `required: true` string fields are non-empty. */
  predicate HasRequiredFields(c: Comment) {
    c.user_id != "" && c.user_name != "" && c.content != ""
  }
}
