/** Failure-compatible result type shared by the token modules, and the
    failures the session-token lifecycle surfaces to its callers. */
module Results {

  /** One constructor per failure the model distinguishes. */
  datatype Error =
    | EmployeeNotFound   // Optional.get() on an empty employee lookup
    | WeakKey            // Keys.hmacShaKeyFor given a key shorter than 256 bits
    | InvalidSignature   // parseClaimsJws of a token not signed with the configured key
    | ExpiredToken       // parseClaimsJws of a token whose exp lies in the past
    | MalformedSubject   // ObjectMapper.readValue of a sub claim that is not a Subject
    | BadCredentials     // renewToken's own guard: no registry entry, or not a refresh token

  datatype Result<+T> = Ok(value: T) | Err(error: Error) {
    predicate IsFailure() { Err? }

    function PropagateFailure<U>(): Result<U>
      requires Err?
    {
      Err(error)
    }

    function Extract(): T
      requires Ok?
    {
      value
    }
  }

  datatype Option<+T> = None | Some(value: T)
}
