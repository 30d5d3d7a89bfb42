/** `RedisLockClient`: acquire the named lock, run the protected operation,
    release the lock in a `finally` block, and keep per-call state in a
    registry keyed by thread id and lock name.

    Everything the client cannot see is an input: whether `acquire()` and
    `release()` succeed, what a named timeout strategy does, and what the
    protected operation returns. A protected operation may itself be a
    `lock` call on the same thread, so re-entrant nesting is expressible.
    Every collaborator call is recorded as an event tagged with the nesting
    depth of the `lock` call that made it.
 */
module RedisLockClient {
  import opened Outcomes
  import opened Decimal
  import opened Handlers
  import opened LockInfoModel

  /** What `LockFactory.getLock` hands out for a descriptor. */
  datatype LockHandle = LockHandle(lockName: Option<string>, lockType: LockType)

  /** `LockRes`: the registry entry of one call. `lock` stays `None` until
      acquisition; `res` says whether the finally block must release. */
  datatype LockRes = LockRes(info: LockInfo, lock: Option<LockHandle>, res: bool)

  /** `currentThreadLock`. */
  type Registry = map<string, LockRes>

  /** The answers of the collaborators during one `lock` call. */
  datatype CallEnv = CallEnv(
    acquired: bool,
    released: bool,
    namedLockStrategy: Outcome<()>,
    namedReleaseStrategy: Outcome<()>)

  /** The protected operation: a plain outcome, or a nested `lock` call on
      the same thread with its own descriptor, answers and operation. */
  datatype Operation =
    | Leaf(outcome: Outcome<Value>)
    | Nested(info: LockInfo, env: CallEnv, body: Operation)

  datatype Action =
    | AcquireCalled
    | LockHandlerCalled
    | LockStrategyCalled
    | OperationInvoked
    | ReleaseCalled
    | ReleaseHandlerCalled
    | ReleaseStrategyCalled
    | EntryRemoved

  datatype Event = Event(depth: nat, action: Action)

  /** The registry after the call, the call's outcome, and what it did. */
  datatype Run = Run(registry: Registry, outcome: Outcome<Value>, events: seq<Event>)

  /** The result of the release step of the finally block. */
  datatype Phase = Phase(registry: Registry, status: Outcome<()>, events: seq<Event>)

  /** How the acquire step ends: go on to the protected operation, or
      return (or throw) without running it. */
  datatype Gate =
    | Proceed(events: seq<Event>)
    | Fallback(outcome: Outcome<Value>, events: seq<Event>)

  /** How many times `e` occurs in `events`. */
  function Count(events: seq<Event>, e: Event): nat {
    multiset(events)[e]
  }

  /** Java's `String` rendering of a possibly-null lock name. */
  function NameText(name: Option<string>): (text: string)
    ensures name.None? ==> text == "null"
    ensures name.Some? ==> text == name.value
  {
    match name
    case None => "null"
    case Some(n) => n
  }

  /** `getCurrentLockId`: the thread id in decimal, then the lock name,
      with nothing in between. */
  function CurrentLockId(thread: nat, info: LockInfo): (key: string)
    ensures |key| > |NameText(info.lockName)|
    ensures key[|key| - |NameText(info.lockName)|..] == NameText(info.lockName)
    ensures var digits := key[..|key| - |NameText(info.lockName)|];
      && AllDigits(digits) && ParseDecimal(digits) == thread
      && (|digits| > 1 ==> digits[0] != '0')
  {
    ParseToDecimal(thread);
    var key := ToDecimal(thread) + NameText(info.lockName);
    assert key[..|ToDecimal(thread)|] == ToDecimal(thread);
    key
  }

  /** `lockFactory.getLock(lockInfo)`. */
  function GetLock(info: LockInfo): (h: LockHandle)
    ensures h.lockName == info.lockName && h.lockType == info.lockType
  {
    LockHandle(info.lockName, info.lockType)
  }

  /** What a lock-timeout strategy does: FAIL_FAST throws, a named strategy
      does what the environment says. */
  function LockStrategyOutcome(s: LockTimeoutStrategy, env: CallEnv): (r: Outcome<()>)
    ensures s.LockFailFast? ==> r == Err(AcquireTimeout)
    ensures s.NamedLockStrategy? ==> r == env.namedLockStrategy
  {
    match s
    case LockFailFast => Err(AcquireTimeout)
    case NamedLockStrategy(_) => env.namedLockStrategy
  }

  /** What a release-timeout strategy does. */
  function ReleaseStrategyOutcome(s: ReleaseTimeoutStrategy, env: CallEnv): (r: Outcome<()>)
    ensures s.ReleaseFailFast? ==> r == Err(ReleaseTimeout)
    ensures s.NamedReleaseStrategy? ==> r == env.namedReleaseStrategy
  {
    match s
    case ReleaseFailFast => Err(ReleaseTimeout)
    case NamedReleaseStrategy(_) => env.namedReleaseStrategy
  }

  /** The acquire step: `acquire()`, and on failure either the custom
      handler (whose outcome is returned at once) or the named strategy
      (which ends the call only if it throws). */
  function AcquireGate(info: LockInfo, env: CallEnv, depth: nat): (g: Gate)
    ensures forall e | e in g.events ::
      e.depth == depth && e.action in {AcquireCalled, LockHandlerCalled, LockStrategyCalled}
    ensures g.Proceed? <==>
      env.acquired || (info.customLockTimeoutHandler.None?
                       && LockStrategyOutcome(info.lockTimeoutStrategy, env).Ok?)
    ensures !env.acquired && info.customLockTimeoutHandler.Some? ==>
      g.outcome == Invoke(info.customLockTimeoutHandler.value)
    ensures !env.acquired && info.customLockTimeoutHandler.None? && g.Fallback? ==>
      g.outcome == Err(LockStrategyOutcome(info.lockTimeoutStrategy, env).error)
  {
    var acquire := [Event(depth, AcquireCalled)];
    if env.acquired then Proceed(acquire)
    else match info.customLockTimeoutHandler
      case Some(h) => Fallback(Invoke(h), acquire + [Event(depth, LockHandlerCalled)])
      case None =>
        var s := LockStrategyOutcome(info.lockTimeoutStrategy, env);
        var events := acquire + [Event(depth, LockStrategyCalled)];
        if s.Err? then Fallback(Err(s.error), events) else Proceed(events)
  }

  /** `handleReleaseTimeout`: the custom release handler if the descriptor
      has one, else the named strategy. The handler's value is dropped. */
  function HandleReleaseTimeout(info: LockInfo, env: CallEnv, depth: nat): (p: (Outcome<()>, Event))
    ensures p.1.depth == depth && p.1.action != ReleaseCalled
    ensures info.customReleaseTimeoutHandler.Some? ==>
      p.0 == Discard(Invoke(info.customReleaseTimeoutHandler.value))
    ensures info.customReleaseTimeoutHandler.None? ==>
      p.0 == ReleaseStrategyOutcome(info.releaseTimeoutStrategy, env)
  {
    match info.customReleaseTimeoutHandler
    case Some(h) => (Discard(Invoke(h)), Event(depth, ReleaseHandlerCalled))
    case None => (ReleaseStrategyOutcome(info.releaseTimeoutStrategy, env), Event(depth, ReleaseStrategyCalled))
  }

  /** `releaseLock`: look the entry up (throwing if it is gone), and if it
      is marked acquired, release once, clear the mark, and handle a failed
      release. Only the entry under `key` changes, and only its mark. */
  function ReleaseLock(reg: Registry, key: string, env: CallEnv, depth: nat): (p: Phase)
    ensures key !in reg ==> p.status == Err(KeyModified(key))
    ensures p.registry.Keys == reg.Keys
    ensures p.registry - {key} == reg - {key}
    ensures key in reg ==> p.registry[key] == reg[key].(res := false) || p.registry[key] == reg[key]
    ensures key in reg && !reg[key].res ==> p == Phase(reg, Ok(()), [])
    ensures forall e | e in p.events ::
      e.depth == depth && e.action in {ReleaseCalled, ReleaseHandlerCalled, ReleaseStrategyCalled}
    ensures Count(p.events, Event(depth, ReleaseCalled)) ==
      (if key in reg && reg[key].res && reg[key].lock.Some? then 1 else 0)
  {
    if key !in reg then Phase(reg, Err(KeyModified(key)), [])
    else
      var entry := reg[key];
      if !entry.res then Phase(reg, Ok(()), [])
      else match entry.lock
        case None => Phase(reg, Err(NullLockHandle), [])
        case Some(_) =>
          var cleared := reg[key := entry.(res := false)];
          var released := [Event(depth, ReleaseCalled)];
          if env.released then Phase(cleared, Ok(()), released)
          else
            var (status, event) := HandleReleaseTimeout(entry.info, env, depth);
            Phase(cleared, status, released + [event])
  }

  /** `cleanUpThreadLocal`. */
  function CleanUpThreadLocal(reg: Registry, key: string): (r: Registry)
    ensures key !in r
    ensures r.Keys == reg.Keys - {key}
    ensures r - {key} == reg - {key}
  {
    reg - {key}
  }

  /** Marks the call's entry acquired and stores the lock handle in it
      (`setLock`, `setRes(true)`). */
  function MarkAcquired(reg: Registry, key: string, info: LockInfo): (r: Registry)
    requires key in reg
    ensures r.Keys == reg.Keys
    ensures r[key].res && r[key].lock == Some(GetLock(info))
    ensures r[key].info == reg[key].info
    ensures r - {key} == reg - {key}
  {
    reg[key := reg[key].(lock := Some(GetLock(info)), res := true)]
  }

  /** The try block after the lock handle is obtained. On `Fallback` the
      call returns without running the operation; on `Proceed` the entry
      has been marked acquired and the protected operation ran as `body`
      (a plain outcome, or the nested call's run). */
  function Attempt(gate: Gate, registered: Registry, body: Run, depth: nat): (r: Run)
    requires forall e | e in gate.events ::
      e.depth == depth && e.action in {AcquireCalled, LockHandlerCalled, LockStrategyCalled}
    requires forall e | e in body.events :: e.depth > depth
    ensures forall e | e in r.events :: e.depth >= depth
    ensures Count(r.events, Event(depth, ReleaseCalled)) == 0
    ensures Count(r.events, Event(depth, OperationInvoked)) == (if gate.Proceed? then 1 else 0)
    ensures forall e: Event | e.depth != depth ::
      Count(r.events, e) == (if gate.Proceed? then Count(body.events, e) else 0)
    ensures r.registry == (if gate.Proceed? then body.registry else registered)
    ensures r.outcome == (if gate.Proceed? then body.outcome else gate.outcome)
  {
    match gate
    case Fallback(outcome, events) =>
      assert Event(depth, OperationInvoked) !in events;
      Run(registered, outcome, events)
    case Proceed(events) =>
      assert Event(depth, OperationInvoked) !in events;
      assert Event(depth, OperationInvoked) !in body.events;
      Run(body.registry, body.outcome, events + [Event(depth, OperationInvoked)] + body.events)
  }

  /** The finally block: `releaseLock`, then `cleanUpThreadLocal` only if
      `releaseLock` completed normally; an exception from `releaseLock`
      replaces the outcome of the try block. */
  function Finish(attempt: Run, key: string, env: CallEnv, depth: nat): (r: Run)
    ensures forall e | e in r.events && e !in attempt.events :: e.depth == depth
    ensures Count(r.events, Event(depth, ReleaseCalled)) <= Count(attempt.events, Event(depth, ReleaseCalled)) + 1
    ensures Count(r.events, Event(depth, OperationInvoked)) == Count(attempt.events, Event(depth, OperationInvoked))
    ensures forall e: Event | e.depth != depth :: Count(r.events, e) == Count(attempt.events, e)
    ensures r.registry - {key} == attempt.registry - {key}
  {
    var release := ReleaseLock(attempt.registry, key, env, depth);
    var outcome := Finally(attempt.outcome, release.status);
    if release.status.Err? then
      AppendAtDepth(attempt.events, release.events, depth);
      Run(release.registry, outcome, attempt.events + release.events)
    else
      var tail := release.events + [Event(depth, EntryRemoved)];
      AppendAtDepth(attempt.events, tail, depth);
      Run(CleanUpThreadLocal(release.registry, key), outcome, attempt.events + tail)
  }

  /** Appending the events of a finally block, all at one depth and with
      at most one release, leaves the counts at every other depth as they
      were and adds no operation run. */
  lemma AppendAtDepth(events: seq<Event>, tail: seq<Event>, depth: nat)
    requires forall e | e in tail ::
      e.depth == depth && e.action in {ReleaseCalled, ReleaseHandlerCalled, ReleaseStrategyCalled, EntryRemoved}
    requires Count(tail, Event(depth, ReleaseCalled)) <= 1
    ensures forall e | e in events + tail && e !in events :: e.depth == depth
    ensures Count(events + tail, Event(depth, ReleaseCalled)) <= Count(events, Event(depth, ReleaseCalled)) + 1
    ensures Count(events + tail, Event(depth, OperationInvoked)) == Count(events, Event(depth, OperationInvoked))
    ensures forall e: Event | e.depth != depth :: Count(events + tail, e) == Count(events, e)
  {
    assert Event(depth, OperationInvoked) !in tail;
    forall e: Event | e.depth != depth
      ensures Count(events + tail, e) == Count(events, e)
    {
      assert e !in tail;
    }
  }

  /** `lock(handler, lockInfo)` on thread `thread`, at nesting depth
      `depth`, starting from registry `reg`.

      The nested call of a `Nested` operation is evaluated from the
      registry as the acquire step leaves it; it is part of the result only
      when the acquire step lets the operation run.

      Every event the call records belongs to it or to a call nested in
      it, and the call itself releases at most once and runs the protected
      operation at most once. */
  function Lock(reg: Registry, thread: nat, depth: nat, info: LockInfo, env: CallEnv, op: Operation): (r: Run)
    ensures forall e | e in r.events :: e.depth >= depth
    ensures Count(r.events, Event(depth, ReleaseCalled)) <= 1
    ensures Count(r.events, Event(depth, OperationInvoked)) <= 1
    decreases op
  {
    var key := CurrentLockId(thread, info);
    var registered := reg[key := LockRes(info, None, false)];
    var acquired := MarkAcquired(registered, key, info);
    var body :=
      match op
      case Leaf(outcome) => Run(acquired, outcome, [])
      case Nested(inner, innerEnv, innerOp) => Lock(acquired, thread, depth + 1, inner, innerEnv, innerOp);
    var attempt := Attempt(AcquireGate(info, env, depth), registered, body, depth);
    Finish(attempt, key, env, depth)
  }
}
