/** The two descriptors the sample service builds by hand for `getParams`,
    and what the client does with each. */
module ServiceScenarios {
  import opened Outcomes
  import opened Handlers
  import opened LockInfoModel
  import opened RedisLockClient
  import opened ClientProperties

  /** The protected operation returns "success". */
  const SUCCESS := Ok(Str("success"))

  /** `new LockInfo(Reentrant, param, 1, () -> lockParams(param), 6,
      () -> releaseParams(param))`. */
  function HandlerInfo(d: Defaults, param: string): (i: LockInfo)
    ensures i.lockName == Some(param) && i.lockType == Reentrant
    ensures i.waitTime == 1 && i.leaseTime == 6
    ensures i.customLockTimeoutHandler == Some(Lambda(Ok(Str("lockParams"))))
    ensures i.customReleaseTimeoutHandler == Some(Lambda(Ok(Str("releaseParams"))))
    ensures i.lockTimeoutStrategy == LockFailFast && i.releaseTimeoutStrategy == ReleaseFailFast
  {
    NewLockInfoWithHandlers(d, Some(Reentrant), Some(param), 1,
                            Some(Lambda(Ok(Str("lockParams")))), 6,
                            Some(Lambda(Ok(Str("releaseParams")))))
  }

  /** `new LockInfo(Reentrant, param, 1, 6)`: the descriptor `getParams`
      actually locks with. */
  function TimedInfo(d: Defaults, param: string): (i: LockInfo)
    ensures i.lockName == Some(param) && i.lockType == Reentrant
    ensures i.waitTime == 1 && i.leaseTime == 6
    ensures i.customLockTimeoutHandler.None? && i.customReleaseTimeoutHandler.None?
    ensures i.lockTimeoutStrategy == LockFailFast && i.releaseTimeoutStrategy == ReleaseFailFast
  {
    NewTimedLockInfo(d, Some(Reentrant), Some(param), 1, 6)
  }

  /** `getParams` when the lock is taken by someone else: the timed
      descriptor has no handler and fails fast, so the caller gets the
      acquire timeout and "success" is never computed. */
  lemma GetParamsTimesOut(d: Defaults, param: string, reg: Registry, thread: nat, env: CallEnv)
    requires !env.acquired
    ensures var r := Lock(reg, thread, 0, TimedInfo(d, param), env, Leaf(SUCCESS));
      && r.outcome == Err(AcquireTimeout)
      && Event(0, OperationInvoked) !in r.events
  {
    ThrowingStrategySkipsOperation(reg, thread, 0, TimedInfo(d, param), env, Leaf(SUCCESS));
  }

  /** `getParams` when acquiring and releasing both succeed returns
      "success" and leaves no entry behind. */
  lemma GetParamsSucceeds(d: Defaults, param: string, reg: Registry, thread: nat, env: CallEnv)
    requires env.acquired && env.released
    ensures var r := Lock(reg, thread, 0, TimedInfo(d, param), env, Leaf(SUCCESS));
      && r.outcome == SUCCESS
      && r.registry == reg - {CurrentLockId(thread, TimedInfo(d, param))}
  {
    AcquiredCallRunsOnceReleasesOnce(reg, thread, 0, TimedInfo(d, param), env, SUCCESS);
  }

  /** With the handler descriptor, a lock held elsewhere yields
      "lockParams" in place of the operation's result. The sample service
      builds this descriptor but locks `getParams` with the timed one, so
      this is a run the sample never makes. */
  lemma HandlerInfoAnswersLockParams(d: Defaults, param: string, reg: Registry, thread: nat, env: CallEnv)
    requires !env.acquired
    ensures var r := Lock(reg, thread, 0, HandlerInfo(d, param), env, Leaf(SUCCESS));
      && r.outcome == Ok(Str("lockParams"))
      && Event(0, OperationInvoked) !in r.events
  {
    CustomHandlerSkipsOperation(reg, thread, 0, HandlerInfo(d, param), env, Leaf(SUCCESS));
  }

  /** With the handler descriptor, a failed release still returns
      "success": the release handler's "releaseParams" is dropped. Like the
      lemma above, this is a run the sample service never makes. */
  lemma HandlerInfoKeepsResultOnFailedRelease(d: Defaults, param: string, reg: Registry, thread: nat,
                                              env: CallEnv)
    requires env.acquired && !env.released
    ensures var r := Lock(reg, thread, 0, HandlerInfo(d, param), env, Leaf(SUCCESS));
      && r.outcome == SUCCESS
      && Event(0, ReleaseHandlerCalled) in r.events
  {
    ReleaseHandlerOutcome(reg, thread, 0, HandlerInfo(d, param), env, SUCCESS);
  }
}
