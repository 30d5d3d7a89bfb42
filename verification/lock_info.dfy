/** `LockInfo`: the descriptor of one lock request, and the rules
    by which each of its constructors fills a field with a default when the
    caller passes the field's sentinel. The Java class has setters, but the
    lock client never calls them, so the descriptor is an immutable value
    here. */
module LockInfoModel {
  import opened Outcomes
  import opened Handlers

  const LONG_MIN: int := -0x8000_0000_0000_0000
  const LONG_MAX: int := 0x7FFF_FFFF_FFFF_FFFF

  /** Java `long`. */
  type Long = x: int | LONG_MIN <= x <= LONG_MAX

  /** The lock kinds a lock provider can hand out. */
  datatype LockType = Reentrant | Fair | Read | Write

  /** What to do when acquisition times out: the built-in FAIL_FAST, or a
      strategy known by its name only. */
  datatype LockTimeoutStrategy = LockFailFast | NamedLockStrategy(name: string)

  /** What to do when a release reports failure. */
  datatype ReleaseTimeoutStrategy = ReleaseFailFast | NamedReleaseStrategy(name: string)

  /** The wait and lease times `KlockConfig` declares as the descriptor's
      field defaults (`DEFAULT_WAIT_TIME`, `DEFAULT_LEASE_TIME`). */
  datatype Defaults = Defaults(waitTime: Long, leaseTime: Long)

  datatype LockInfo = LockInfo(
    lockName: Option<string>,
    lockType: LockType,
    waitTime: Long,
    leaseTime: Long,
    lockTimeoutStrategy: LockTimeoutStrategy,
    releaseTimeoutStrategy: ReleaseTimeoutStrategy,
    customLockTimeoutHandler: Option<Handler>,
    customReleaseTimeoutHandler: Option<Handler>)

  /** The descriptor as the field initializers leave it, before any
      constructor body runs. */
  function Declared(d: Defaults): (r: LockInfo)
    ensures r.lockName.None? && r.lockType == Reentrant
    ensures r.waitTime == d.waitTime && r.leaseTime == d.leaseTime
    ensures r.lockTimeoutStrategy == LockFailFast && r.releaseTimeoutStrategy == ReleaseFailFast
    ensures r.customLockTimeoutHandler.None? && r.customReleaseTimeoutHandler.None?
  {
    LockInfo(None, Reentrant, d.waitTime, d.leaseTime, LockFailFast, ReleaseFailFast, None, None)
  }

  /** The eight-argument constructor: every argument other than its
      sentinel (`null`, or `Long.MIN_VALUE` for the two times) overwrites
      the declared default. */
  function NewLockInfo(
    d: Defaults,
    lockType: Option<LockType>,
    lockName: Option<string>,
    waitTime: Long,
    lockTimeoutStrategy: Option<LockTimeoutStrategy>,
    leaseTime: Long,
    releaseTimeoutStrategy: Option<ReleaseTimeoutStrategy>,
    lockTimeoutHandler: Option<Handler>,
    releaseTimeoutHandler: Option<Handler>): (r: LockInfo)
    ensures lockType.None? ==> r.lockType == Reentrant
    ensures lockType.Some? ==> r.lockType == lockType.value
    ensures r.lockName == lockName
    ensures waitTime == LONG_MIN ==> r.waitTime == d.waitTime
    ensures waitTime != LONG_MIN ==> r.waitTime == waitTime
    ensures leaseTime == LONG_MIN ==> r.leaseTime == d.leaseTime
    ensures leaseTime != LONG_MIN ==> r.leaseTime == leaseTime
    ensures lockTimeoutStrategy.None? ==> r.lockTimeoutStrategy == LockFailFast
    ensures lockTimeoutStrategy.Some? ==> r.lockTimeoutStrategy == lockTimeoutStrategy.value
    ensures releaseTimeoutStrategy.None? ==> r.releaseTimeoutStrategy == ReleaseFailFast
    ensures releaseTimeoutStrategy.Some? ==> r.releaseTimeoutStrategy == releaseTimeoutStrategy.value
    ensures r.customLockTimeoutHandler == lockTimeoutHandler
    ensures r.customReleaseTimeoutHandler == releaseTimeoutHandler
  {
    var i := Declared(d);
    LockInfo(
      lockName := if lockName.Some? then lockName else i.lockName,
      lockType := if lockType.Some? then lockType.value else i.lockType,
      waitTime := if waitTime != LONG_MIN then waitTime else i.waitTime,
      leaseTime := if leaseTime != LONG_MIN then leaseTime else i.leaseTime,
      lockTimeoutStrategy := if lockTimeoutStrategy.Some? then lockTimeoutStrategy.value else i.lockTimeoutStrategy,
      releaseTimeoutStrategy :=
        if releaseTimeoutStrategy.Some? then releaseTimeoutStrategy.value else i.releaseTimeoutStrategy,
      customLockTimeoutHandler := if lockTimeoutHandler.Some? then lockTimeoutHandler else i.customLockTimeoutHandler,
      customReleaseTimeoutHandler :=
        if releaseTimeoutHandler.Some? then releaseTimeoutHandler else i.customReleaseTimeoutHandler)
  }

  /** The four-argument constructor: times only, no handlers, FAIL_FAST for
      both timeouts. */
  function NewTimedLockInfo(d: Defaults, lockType: Option<LockType>, lockName: Option<string>,
                            waitTime: Long, leaseTime: Long): (r: LockInfo)
    ensures r.customLockTimeoutHandler.None? && r.customReleaseTimeoutHandler.None?
    ensures r.lockTimeoutStrategy == LockFailFast && r.releaseTimeoutStrategy == ReleaseFailFast
    ensures r.lockName == lockName
    ensures r.lockType == (if lockType.Some? then lockType.value else Reentrant)
    ensures r.waitTime == (if waitTime == LONG_MIN then d.waitTime else waitTime)
    ensures r.leaseTime == (if leaseTime == LONG_MIN then d.leaseTime else leaseTime)
  {
    NewLockInfo(d, lockType, lockName, waitTime, None, leaseTime, None, None, None)
  }

  /** The six-argument constructor: custom handlers, FAIL_FAST as the named
      strategies. */
  function NewLockInfoWithHandlers(d: Defaults, lockType: Option<LockType>, lockName: Option<string>,
                                   waitTime: Long, lockTimeoutHandler: Option<Handler>,
                                   leaseTime: Long, releaseTimeoutHandler: Option<Handler>): (r: LockInfo)
    ensures r.customLockTimeoutHandler == lockTimeoutHandler
    ensures r.customReleaseTimeoutHandler == releaseTimeoutHandler
    ensures r.lockTimeoutStrategy == LockFailFast && r.releaseTimeoutStrategy == ReleaseFailFast
    ensures r.lockName == lockName
    ensures r.lockType == (if lockType.Some? then lockType.value else Reentrant)
    ensures r.waitTime == (if waitTime == LONG_MIN then d.waitTime else waitTime)
    ensures r.leaseTime == (if leaseTime == LONG_MIN then d.leaseTime else leaseTime)
  {
    NewLockInfo(d, lockType, lockName, waitTime, None, leaseTime, None, lockTimeoutHandler, releaseTimeoutHandler)
  }

  /** The name-only constructor: every other field keeps its declared
      default. */
  function NewNamedLockInfo(d: Defaults, lockName: Option<string>): (r: LockInfo)
    ensures r.lockName == lockName
    ensures r.lockType == Reentrant
    ensures r.waitTime == d.waitTime && r.leaseTime == d.leaseTime
    ensures r.lockTimeoutStrategy == LockFailFast && r.releaseTimeoutStrategy == ReleaseFailFast
    ensures r.customLockTimeoutHandler.None? && r.customReleaseTimeoutHandler.None?
  {
    Declared(d).(lockName := lockName)
  }

  /** Passing every sentinel to the full constructor builds exactly what
      the name-only constructor builds. */
  lemma SentinelsMeanDefaults(d: Defaults, lockName: Option<string>)
    ensures NewLockInfo(d, None, lockName, LONG_MIN, None, LONG_MIN, None, None, None)
         == NewNamedLockInfo(d, lockName)
  {
  }

  /** Rebuilding a descriptor from its own fields gives it back, as long as
      neither stored time is the sentinel itself. */
  lemma RebuildFromFields(d: Defaults, i: LockInfo)
    requires i.waitTime != LONG_MIN && i.leaseTime != LONG_MIN
    ensures NewLockInfo(d, Some(i.lockType), i.lockName, i.waitTime, Some(i.lockTimeoutStrategy),
                        i.leaseTime, Some(i.releaseTimeoutStrategy),
                        i.customLockTimeoutHandler, i.customReleaseTimeoutHandler) == i
  {
  }

  /** A stored time is the sentinel only when the sentinel was passed and
      the declared default is itself the sentinel. */
  lemma SentinelSurvivesOnlyThroughDefault(d: Defaults, lockType: Option<LockType>, lockName: Option<string>,
                                           waitTime: Long, leaseTime: Long)
    ensures NewTimedLockInfo(d, lockType, lockName, waitTime, leaseTime).waitTime == LONG_MIN
        <==> waitTime == LONG_MIN && d.waitTime == LONG_MIN
    ensures NewTimedLockInfo(d, lockType, lockName, waitTime, leaseTime).leaseTime == LONG_MIN
        <==> leaseTime == LONG_MIN && d.leaseTime == LONG_MIN
  {
  }
}
