/** `LockInfoProvider`: builds the descriptor for an intercepted call from
    its `@Klock` annotation, the configured defaults and the business key.

    The business key (derived elsewhere from the call's arguments) and the
    configured defaults are inputs. The lock-name expression is the only
    lever on lock granularity.
 */
module LockInfoProvider {
  import opened Outcomes
  import opened Handlers
  import opened LockInfoModel

  const LOCK_NAME_PREFIX := "lock"
  const LOCK_NAME_SEPARATOR := "."

  /** The attributes of a `@Klock` annotation that the provider reads, plus
      the two named strategies it does not read. */
  datatype Klock = Klock(
    name: string,
    lockType: LockType,
    waitTime: Long,
    leaseTime: Long,
    lockTimeoutStrategy: LockTimeoutStrategy,
    releaseTimeoutStrategy: ReleaseTimeoutStrategy,
    customLockTimeoutStrategy: string,
    customReleaseTimeoutStrategy: string)

  /** The intercepted method's signature. */
  datatype Signature = Signature(declaringTypeName: string, methodName: string)

  /** The intercepted call. */
  datatype JoinPoint = JoinPoint(signature: Signature, target: Target)

  /** A built descriptor, and whether the no-expiry warning was logged. */
  datatype Built = Built(info: LockInfo, noExpiryWarning: bool)

  /** The name part between the prefix and the business key: the
      annotation's name when it has one, else `<declaring type>.<method>`. */
  function GetLockName(annotationName: string, signature: Signature): (r: string)
    ensures |annotationName| > 0 ==> r == annotationName
    ensures |annotationName| == 0 ==>
      r == signature.declaringTypeName + "." + signature.methodName
  {
    if |annotationName| == 0 then signature.declaringTypeName + "." + signature.methodName
    else annotationName
  }

  /** The annotation's wait time, or the configured one for the sentinel. */
  function GetWaitTime(klock: Klock, config: Defaults): (r: Long)
    ensures klock.waitTime == LONG_MIN ==> r == config.waitTime
    ensures klock.waitTime != LONG_MIN ==> r == klock.waitTime
  {
    if klock.waitTime == LONG_MIN then config.waitTime else klock.waitTime
  }

  /** The annotation's lease time, or the configured one for the sentinel. */
  function GetLeaseTime(klock: Klock, config: Defaults): (r: Long)
    ensures klock.leaseTime == LONG_MIN ==> r == config.leaseTime
    ensures klock.leaseTime != LONG_MIN ==> r == klock.leaseTime
  {
    if klock.leaseTime == LONG_MIN then config.leaseTime else klock.leaseTime
  }

  /** `getLockInfo`: warns about a lease of -1 (no expiry) and builds the
      descriptor with the six-argument constructor either way. */
  function GetLockInfo(classDefaults: Defaults, lockType: LockType, lockName: string, waitTime: Long,
                       customLockTimeoutHandler: Option<Handler>, leaseTime: Long,
                       customReleaseTimeoutHandler: Option<Handler>): (r: Built)
    ensures r.noExpiryWarning <==> leaseTime == -1
    ensures r.noExpiryWarning ==> r.info.leaseTime == -1
    ensures r.info.lockName == Some(lockName)
    ensures r.info.lockType == lockType
    ensures r.info.customLockTimeoutHandler == customLockTimeoutHandler
    ensures r.info.customReleaseTimeoutHandler == customReleaseTimeoutHandler
    ensures r.info.waitTime == (if waitTime == LONG_MIN then classDefaults.waitTime else waitTime)
    ensures r.info.leaseTime == (if leaseTime == LONG_MIN then classDefaults.leaseTime else leaseTime)
    ensures r.info.lockTimeoutStrategy == LockFailFast && r.info.releaseTimeoutStrategy == ReleaseFailFast
  {
    Built(NewLockInfoWithHandlers(classDefaults, Some(lockType), Some(lockName), waitTime,
                                  customLockTimeoutHandler, leaseTime, customReleaseTimeoutHandler),
          leaseTime == -1)
  }

  /** The whole lock name: prefix, separator, name part, business key. */
  function FullLockName(klock: Klock, signature: Signature, businessKey: string): (r: string)
    ensures |r| >= 5 && r[..5] == "lock."
    ensures r[5..] == GetLockName(klock.name, signature) + businessKey
  {
    LOCK_NAME_PREFIX + LOCK_NAME_SEPARATOR + GetLockName(klock.name, signature) + businessKey
  }

  /** `get`: the descriptor for one intercepted call. */
  function Get(classDefaults: Defaults, config: Defaults, joinPoint: JoinPoint, klock: Klock,
               businessKey: string): (r: Built)
    // the name: "lock." + name part + business key
    ensures r.info.lockName.Some?
    ensures var n := r.info.lockName.value;
      && |n| >= 5 && n[..5] == "lock."
      && n[5..] == GetLockName(klock.name, joinPoint.signature) + businessKey
    ensures r.info.lockType == klock.lockType
    // times: annotation, else configured default, else field default
    ensures r.info.waitTime ==
      if klock.waitTime != LONG_MIN then klock.waitTime
      else if config.waitTime != LONG_MIN then config.waitTime
      else classDefaults.waitTime
    ensures r.info.leaseTime ==
      if klock.leaseTime != LONG_MIN then klock.leaseTime
      else if config.leaseTime != LONG_MIN then config.leaseTime
      else classDefaults.leaseTime
    // a handler slot is filled exactly when its strategy name is non-empty
    ensures r.info.customLockTimeoutHandler.Some? <==> |klock.customLockTimeoutStrategy| > 0
    ensures r.info.customLockTimeoutHandler.Some? ==>
      r.info.customLockTimeoutHandler.value == CustomLockTimeout(klock.customLockTimeoutStrategy, joinPoint.target)
    ensures r.info.customReleaseTimeoutHandler.Some? <==> |klock.customReleaseTimeoutStrategy| > 0
    ensures r.info.customReleaseTimeoutHandler.Some? ==>
      r.info.customReleaseTimeoutHandler.value == CustomReleaseTimeout(klock.customReleaseTimeoutStrategy, joinPoint.target)
    // the annotation's named strategies never reach the descriptor
    ensures r.info.lockTimeoutStrategy == LockFailFast
    ensures r.info.releaseTimeoutStrategy == ReleaseFailFast
    // the warning tracks the resolved lease time, before field defaulting
    ensures r.noExpiryWarning <==> GetLeaseTime(klock, config) == -1
    ensures r.noExpiryWarning ==> r.info.leaseTime == -1
  {
    var lockName := FullLockName(klock, joinPoint.signature, businessKey);
    var waitTime := GetWaitTime(klock, config);
    var leaseTime := GetLeaseTime(klock, config);
    var lockHandler :=
      if |klock.customLockTimeoutStrategy| > 0
      then Some(CustomLockTimeout(klock.customLockTimeoutStrategy, joinPoint.target))
      else None;
    var releaseHandler :=
      if |klock.customReleaseTimeoutStrategy| > 0
      then Some(CustomReleaseTimeout(klock.customReleaseTimeoutStrategy, joinPoint.target))
      else None;
    GetLockInfo(classDefaults, klock.lockType, lockName, waitTime, lockHandler, leaseTime, releaseHandler)
  }

  /** Building never fails, even for a handler name the receiver lacks; the
      failure surfaces only when the handler is invoked. */
  lemma UnknownHandlerFailsOnInvoke(classDefaults: Defaults, config: Defaults, joinPoint: JoinPoint,
                                    klock: Klock, businessKey: string)
    requires |klock.customLockTimeoutStrategy| > 0
    requires klock.customLockTimeoutStrategy !in joinPoint.target.methods
    ensures var h := Get(classDefaults, config, joinPoint, klock, businessKey).info.customLockTimeoutHandler;
      h.Some? && Invoke(h.value) == Err(IllegalArgument(LOCK_HANDLER_LOOKUP_FAILURE))
  {
  }

  /** Likewise for the release handler. */
  lemma UnknownReleaseHandlerFailsOnInvoke(classDefaults: Defaults, config: Defaults, joinPoint: JoinPoint,
                                           klock: Klock, businessKey: string)
    requires |klock.customReleaseTimeoutStrategy| > 0
    requires klock.customReleaseTimeoutStrategy !in joinPoint.target.methods
    ensures var h := Get(classDefaults, config, joinPoint, klock, businessKey).info.customReleaseTimeoutHandler;
      h.Some? && Invoke(h.value) == Err(IllegalArgument(RELEASE_HANDLER_LOOKUP_FAILURE))
  {
  }

  /** The release-timeout handler built by `get` answers with the call's
      arguments, whatever the named method returns. */
  lemma ReleaseHandlerReturnsArguments(classDefaults: Defaults, config: Defaults, joinPoint: JoinPoint,
                                       klock: Klock, businessKey: string, v: Value)
    requires |klock.customReleaseTimeoutStrategy| > 0
    requires klock.customReleaseTimeoutStrategy in joinPoint.target.methods
    requires joinPoint.target.methods[klock.customReleaseTimeoutStrategy] == Ok(v)
    ensures var h := Get(classDefaults, config, joinPoint, klock, businessKey).info.customReleaseTimeoutHandler;
      h.Some? && Invoke(h.value) == Ok(Args(joinPoint.target.args))
  {
  }

  /** Without a business key the name does not depend on the call at all:
      every call of one method contends for one lock. */
  lemma NoBusinessKeyMeansOneLockPerMethod(classDefaults: Defaults, config: Defaults, klock: Klock,
                                           jp1: JoinPoint, jp2: JoinPoint)
    requires jp1.signature == jp2.signature
    ensures Get(classDefaults, config, jp1, klock, "").info.lockName
         == Get(classDefaults, config, jp2, klock, "").info.lockName
  {
  }

  /** An explicit name spelled `<type>.<method>` shares its lock with that
      method's unnamed lock. */
  lemma ExplicitNameCanAliasDerivedName(classDefaults: Defaults, config: Defaults, k1: Klock, k2: Klock,
                                        jp1: JoinPoint, jp2: JoinPoint, businessKey: string)
    requires |k2.name| == 0
    requires k1.name == jp2.signature.declaringTypeName + "." + jp2.signature.methodName
    ensures Get(classDefaults, config, jp1, k1, businessKey).info.lockName
         == Get(classDefaults, config, jp2, k2, businessKey).info.lockName
  {
  }
}
