/** What a route handler sees of the signed-in user, and what it answers. */
module Http {
  import opened Wrappers
  import opened Types

  /** `session?.user?.email` and `session?.user?.id`; no session at all is `Session(None, None)`. */
  datatype Session = Session(email: Option<string>, id: Option<string>)

  /** A JSON response: a value with its status, or a `{ message }` body with an error status. */
  datatype Response<T> = Ok(status: int, value: T) | Fail(status: int, message: string)

  const Unauthorized: string := "Unauthorized"

  /** The answer to a request without the required session fields. */
  function Denied<T>(): (r: Response<T>)
    ensures r.Fail? && r.status == 401
  {
    Fail(401, Unauthorized)
  }

  /** `!session?.user?.email`. */
  predicate SignedIn(s: Session) {
    Truthy(s.email)
  }
}
