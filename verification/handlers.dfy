/** `LockHandler`: a zero-argument callback that returns a value or throws.

    Handlers are first-order data here. A handler written directly by a
    caller is a `Lambda` whose outcome is an input of the model. A handler
    built from an annotation names a method of the intercepted object; the
    reflective lookup of that method becomes a partial map from method names
    to the outcome of invoking that method with the intercepted call's
    arguments.
 */
module Handlers {
  import opened Outcomes

  /** The intercepted call: the receiver's methods that take the same
      parameter types as the intercepted method, and the call's arguments. */
  datatype Target = Target(methods: map<string, Outcome<Value>>, args: seq<Value>)

  datatype Handler =
    /** A callback supplied directly by the caller. */
    | Lambda(result: Outcome<Value>)
    /** The closure `get` builds for `customLockTimeoutStrategy`. */
    | CustomLockTimeout(methodName: string, target: Target)
    /** The closure `get` builds for `customReleaseTimeoutStrategy`. */
    | CustomReleaseTimeout(methodName: string, target: Target)

  const LOCK_HANDLER_LOOKUP_FAILURE := "Illegal annotation param customLockTimeoutStrategy"
  const RELEASE_HANDLER_LOOKUP_FAILURE := "Illegal annotation param customReleaseTimeoutStrategy"

  /** `handler.handle()`.

      The annotation-built closures look the named method up only now, when
      they are invoked: an unknown name throws `IllegalArgumentException`.
      The lock-timeout closure returns what the method returns; the
      release-timeout closure returns the call's arguments instead. An
      exception thrown by the method itself is passed on unchanged. */
  function Invoke(h: Handler): (r: Outcome<Value>)
    ensures !h.Lambda? && h.methodName !in h.target.methods ==>
      r.Err? && r.error.IllegalArgument?
    ensures h.CustomLockTimeout? && h.methodName in h.target.methods ==>
      r == h.target.methods[h.methodName]
    ensures h.CustomReleaseTimeout? && h.methodName in h.target.methods ==>
      (r.Ok? <==> h.target.methods[h.methodName].Ok?)
    ensures h.CustomReleaseTimeout? && r.Ok? ==> r.value == Args(h.target.args)
    ensures h.CustomReleaseTimeout? && h.methodName in h.target.methods
            && h.target.methods[h.methodName].Err?
      ==> r == h.target.methods[h.methodName]
    ensures h.Lambda? ==> r == h.result
  {
    match h
    case Lambda(result) => result
    case CustomLockTimeout(name, target) =>
      if name !in target.methods then Err(IllegalArgument(LOCK_HANDLER_LOOKUP_FAILURE))
      else target.methods[name]
    case CustomReleaseTimeout(name, target) =>
      if name !in target.methods then Err(IllegalArgument(RELEASE_HANDLER_LOOKUP_FAILURE))
      else match target.methods[name]
        case Ok(_) => Ok(Args(target.args))
        case Err(e) => Err(e)
  }
}
