/** Values, errors and outcomes shared by the whole model.

    A Java call either returns a value or throws; an `Outcome` records which.
    `null` references become `Option.None`.
 */
module Outcomes {

  /** A Java reference that may be `null`. */
  datatype Option<+T> = None | Some(value: T)

  /** The values the model lets operations and handlers return: `null`, a
      string, or an argument array (`Object[]`). */
  datatype Value = Null | Str(s: string) | Args(items: seq<Value>)

  /** The exceptions the lock client can raise or pass on. */
  datatype Error =
    /** Unknown custom handler name (`IllegalArgumentException`). */
    | IllegalArgument(message: string)
    /** `releaseLock` found no registry entry under the call's key
        (the `NullPointerException` about a modified lock key). */
    | KeyModified(key: string)
    /** A registry entry is marked acquired but holds no lock handle
        (a `NullPointerException` on `getLock().release()`). */
    | NullLockHandle
    /** The FAIL_FAST lock-timeout strategy gave up on acquisition. */
    | AcquireTimeout
    /** The FAIL_FAST release-timeout strategy reports a failed release. */
    | ReleaseTimeout
    /** Anything thrown by code outside the model (the protected operation,
        a handler body, a named strategy). */
    | Raised(kind: string)

  /** Normal completion with a value, or an exception. */
  datatype Outcome<+T> = Ok(value: T) | Err(error: Error)

  /** A call made for its effect only: its value is discarded, an exception
      it throws is kept. */
  function Discard<T>(o: Outcome<T>): (r: Outcome<()>)
    ensures r.Ok? <==> o.Ok?
    ensures o.Err? ==> r.error == o.error
  {
    match o
    case Ok(_) => Ok(())
    case Err(e) => Err(e)
  }

  /** Java `try { body } finally { cleanup }`: an exception thrown by the
      cleanup replaces whatever the body returned or threw; a cleanup that
      completes normally leaves the body's outcome in place. */
  function Finally<T>(body: Outcome<T>, cleanup: Outcome<()>): (r: Outcome<T>)
    ensures cleanup.Err? ==> r == Err(cleanup.error)
    ensures cleanup.Ok? ==> r == body
  {
    if cleanup.Err? then Err(cleanup.error) else body
  }
}
