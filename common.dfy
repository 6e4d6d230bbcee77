/** Shared vocabulary of the workflow: optional values, handler results and the
    identity that the authentication middleware attaches to a request. */
module Common {

  datatype Option<+T> = None | Some(value: T)

  /** The error responses a handler of the core can produce (HTTP 400, 403, 404). */
  datatype ApiError = ValidationError | Forbidden | NotFound

  datatype Result<+T> = Ok(value: T) | Err(error: ApiError)

  /** The result of a handler whose success carries no record (DELETE). */
  datatype Outcome = Done | Failed(error: ApiError)

  datatype Role = Citizen | Admin

  /** The claims of a verified bearer token: id, email and role. */
  datatype Identity = Identity(id: string, email: string, role: Role)

  /** What a token issued by the server always carries: a non-empty id and email. */
  predicate WellFormed(who: Identity) {
    who.id != "" && who.email != ""
  }

  /** The identity of the fixed-credential administrator, which has no user record. */
  const AdminIdentity := Identity("admin", "admin@civic.com", Admin)

  /** `a || b` on strings in JavaScript: the first operand unless it is empty. */
  function OrElse(a: string, b: string): (r: string)
    ensures a != "" ==> r == a
    ensures a == "" ==> r == b
    ensures r != "" <==> a != "" || b != ""
  {
    if a != "" then a else b
  }
}
