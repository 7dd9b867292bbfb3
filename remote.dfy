/** Outcomes of calls into the hosted data, auth and storage service.
    The service itself is not modelled: every handler receives the outcome
    of each call it may make as a parameter and consults it only when the
    call is actually made. */
module Remote {

  datatype Option<T> = None | Some(value: T)

  /** Outcome of a call that carries no payload the caller uses. */
  datatype Status = Done | Failed(message: string)

  /** Outcome of a call whose payload the caller uses. */
  datatype Outcome<T> = Ok(value: T) | Err(message: string)

  /** An authenticated session, as handed out by the auth service. */
  datatype Session = Session(userId: string)

  /** `x || fallback` on a string in the browser: the fallback replaces the empty string. */
  function OrElse(s: string, fallback: string): (r: string)
    ensures s != "" ==> r == s
    ensures s == "" ==> r == fallback
  {
    if s != "" then s else fallback
  }
}
