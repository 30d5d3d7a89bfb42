# klock lock client, modelled in Dafny

This project models the core of klock (`redis-lock`), a Spring Boot starter
that runs a method under a distributed lock. The core has three parts:

- `LockInfo`: the descriptor of one lock request. The class has Lombok
  setters, but the core never calls them, so the model treats a descriptor
  as an immutable value. Its three
  multi-argument constructors replace a sentinel argument with a declared
  default: `null` for the object fields, `Long.MIN_VALUE` for the wait and
  lease times. The name-only constructor sets the name and leaves every
  other field at its declared default.
- `LockInfoProvider`: builds a descriptor from a `@Klock` annotation. It
  derives the name `"lock." + (explicit name or <type>.<method>) + business
  key`, falls back to the configured times, turns the custom strategy names
  into handler closures, and warns about a lease of -1 (no expiry).
- `RedisLockClient.lock`: the acquire, run, release state machine. Per-call
  state lives in a registry map keyed by thread id followed by lock name. The
  `finally` block releases only when the entry is marked acquired. It hands a
  failed release to the custom release handler or to the release strategy,
  and removes the entry afterwards.

The modules:

| file | module | models |
|---|---|---|
| `outcomes.dfy` | `Outcomes` | `null`, returned values, exceptions, Java `try`/`finally` |
| `decimal.dfy` | `Decimal` | the decimal rendering of a thread id in `long + String` |
| `handlers.dfy` | `Handlers` | `LockHandler` closures and the reflective handler lookup |
| `lock_info.dfy` | `LockInfoModel` | `LockInfo` and its constructors |
| `lock_info_provider.dfy` | `LockInfoProvider` | `LockInfoProvider` |
| `redis_lock_client.dfy` | `RedisLockClient` | `RedisLockClient` and its `LockRes` entry |
| `client_properties.dfy` | `ClientProperties` | what `lock` guarantees, and where it goes wrong |
| `service_scenarios.dfy` | `ServiceScenarios` | the two hand-built descriptors of the sample service |

Everything the client cannot see is an input of the model:

- whether `acquire()` and `release()` succeed;
- what a named timeout strategy does;
- what the protected operation returns;
- the receiver's methods, as a partial map from name to outcome;
- the business key and the configured defaults.

`lock` is a pure function, `Lock(reg, thread, depth, info, env, op)`. It
returns the registry afterwards, the call's outcome (`Ok(value)` or
`Err(exception)`) and a trace of collaborator calls. Each trace event is
tagged with the nesting depth of the call that made it. The protected
operation is either a plain outcome or a nested `lock` call on the same
thread, so same-thread nesting can be expressed.

Three behaviours of the code, with the code's own comments where it has them:

- **An exception in the `finally` block wins.** The release strategy, the
  release handler and the missing-entry check in `releaseLock`
  (RedisLockClient.java:83-88) all throw from inside `finally`. Whatever
  they throw replaces the operation's result, even when the operation
  succeeded (`FailFastReleaseOverridesResult`, `NestedSameNameLosesOuterEntry`).
- **A throwing `releaseLock` skips the cleanup.** `cleanUpThreadLocal` exists
  "to avoid memory leak" (RedisLockClient.java:103). It follows
  `releaseLock` in the `finally` block (:70-71), so it is skipped whenever
  `releaseLock` throws. The entry then stays behind, unmarked, as long as
  `release()` itself returns (`EntryRemovedUnlessFinallyThrows`). The mark is
  cleared at :94 "to avoid release lock twice" (:93).
- **A lock strategy that returns still runs the operation.** The comment at
  RedisLockClient.java:54 says a missing strategy means "do nothing". A
  strategy that returns normally falls through to :60-65. The operation runs
  although `acquire()` returned false, the entry is marked acquired, and the
  `finally` block calls `release()` once
  (`PassingStrategyStillRunsAndReleases`).

Two consequences of the registry key are proved as lemmas:

- **The key has no separator.** Thread 1 locking `"23"` and thread 12
  locking `"3"` share a key (`ThreadIdAndNameCanCollide`). Names built by the
  provider all start with `"lock."`, so their keys are injective
  (`ProviderKeysInjective`).
- **Same-thread nesting under one name is broken.** Such a nested call
  overwrites the outer entry, so the outer call never releases its own lock.
  Once the outer operation has run, the outer call always ends in an
  exception (`NestedSameNameNeverReleasesOuter`). When the inner call
  releases successfully, it also deletes the shared entry, and that
  exception is the "key modified" error (`NestedSameNameLosesOuterEntry`).
  When the inner call's `finally` block throws, its unmarked entry stays
  behind, and the outer call ends with the inner call's exception.

## Model

| member | source | states |
|---|---|---|
| `Outcomes.Finally` | src/main/java/org/springframework/boot/autoconfigure/klock/core/RedisLockClient.java:41-72 | Java `try`/`finally`: an exception from the `finally` block replaces the body's outcome; a `finally` block that completes leaves the body's outcome, value or exception, in place |
| `Outcomes.Discard` | src/main/java/org/springframework/boot/autoconfigure/klock/core/RedisLockClient.java:128 | a handler called for its effect: its value is dropped, and it fails exactly when the handler throws, with the same exception |
| `RedisLockClient.NameText` | src/main/java/org/springframework/boot/autoconfigure/klock/core/RedisLockClient.java:116 | string concatenation renders a missing lock name as `"null"` and a present one verbatim; `NullNameCollidesWithNullString` is the consequence |
| `RedisLockClient.GetLock` | src/main/java/org/springframework/boot/autoconfigure/klock/core/RedisLockClient.java:42 | the lock handle is made for the descriptor's name and type |
| `RedisLockClient.LockStrategyOutcome` | src/main/java/org/springframework/boot/autoconfigure/klock/core/RedisLockClient.java:55 | FAIL_FAST throws the acquire-timeout error; any other strategy does what the environment says |
| `RedisLockClient.ReleaseStrategyOutcome` | src/main/java/org/springframework/boot/autoconfigure/klock/core/RedisLockClient.java:131 | FAIL_FAST throws the release-timeout error; any other strategy does what the environment says |
| `LockInfoModel.Declared` | src/main/java/org/springframework/boot/autoconfigure/klock/model/LockInfo.java:15-46 | the field initialisers: no name, `Reentrant`, the declared default times, FAIL_FAST for both strategies, no handlers; `SentinelsMeanDefaults` shows the sentinels lead back to it |
| `LockInfoProvider.FullLockName` | src/main/java/org/springframework/boot/autoconfigure/klock/core/LockInfoProvider.java:37-38 | the name starts with `"lock."`, followed by the name part and then the business key |
| `LockInfoModel.NewLockInfo` | src/main/java/org/springframework/boot/autoconfigure/klock/model/LockInfo.java:15-77 | every field takes its argument unless the argument is the field's sentinel (`null`, or `Long.MIN_VALUE` for the two times); then the declared default stays: `Reentrant`, the declared default times, FAIL_FAST for both strategies, no handlers |
| `LockInfoModel.NewTimedLockInfo` | src/main/java/org/springframework/boot/autoconfigure/klock/model/LockInfo.java:79-81 | the four-argument constructor gives no handlers and FAIL_FAST for both strategies, and applies the sentinel rules to type and times |
| `LockInfoModel.NewLockInfoWithHandlers` | src/main/java/org/springframework/boot/autoconfigure/klock/model/LockInfo.java:83-88 | the six-argument constructor keeps the given handlers and gives FAIL_FAST for both strategies |
| `LockInfoModel.NewNamedLockInfo` | src/main/java/org/springframework/boot/autoconfigure/klock/model/LockInfo.java:90-92 | the name-only constructor sets only the name; every other field keeps its declared default |
| `LockInfoModel.SentinelsMeanDefaults` | src/main/java/org/springframework/boot/autoconfigure/klock/model/LockInfo.java:48-92 | passing every sentinel to the full constructor builds exactly what the name-only constructor builds |
| `LockInfoModel.RebuildFromFields` | src/main/java/org/springframework/boot/autoconfigure/klock/model/LockInfo.java:48-77 | rebuilding a descriptor from its own fields gives it back, provided neither stored time is `Long.MIN_VALUE` |
| `LockInfoModel.SentinelSurvivesOnlyThroughDefault` | src/main/java/org/springframework/boot/autoconfigure/klock/model/LockInfo.java:59-64 | a stored time is `Long.MIN_VALUE` exactly when that sentinel was passed and the declared default is itself `Long.MIN_VALUE` |
| `Handlers.Invoke` | src/main/java/org/springframework/boot/autoconfigure/klock/core/LockInfoProvider.java:64-122 | a caller-supplied handler has its own outcome; a handler built from an unknown method name throws `IllegalArgumentException` when invoked; the lock-timeout closure returns the method's outcome; the release-timeout closure returns the call's arguments when the method returns, and passes on exactly the exception the method throws |
| `LockInfoProvider.GetLockName` | src/main/java/org/springframework/boot/autoconfigure/klock/core/LockInfoProvider.java:146-153 | the annotation's name verbatim when it is non-empty, otherwise `<declaring type>.<method>` |
| `LockInfoProvider.GetWaitTime` | src/main/java/org/springframework/boot/autoconfigure/klock/core/LockInfoProvider.java:156-159 | the configured wait time exactly when the annotation's is `Long.MIN_VALUE`, otherwise the annotation's |
| `LockInfoProvider.GetLeaseTime` | src/main/java/org/springframework/boot/autoconfigure/klock/core/LockInfoProvider.java:161-164 | the configured lease time exactly when the annotation's is `Long.MIN_VALUE`, otherwise the annotation's |
| `LockInfoProvider.GetLockInfo` | src/main/java/org/springframework/boot/autoconfigure/klock/core/LockInfoProvider.java:125-137 | the no-expiry warning is raised exactly when the lease time is -1, and the descriptor is built with the given name, type and handlers either way; each time is the given one unless it is `Long.MIN_VALUE`, when the declared default stays; both strategies are FAIL_FAST |
| `LockInfoProvider.Get` | src/main/java/org/springframework/boot/autoconfigure/klock/core/LockInfoProvider.java:32-59 | the name is `"lock."`, then the name part, then the business key; each time falls back from the annotation to the configured value to the declared default; a handler slot is filled exactly when its strategy name is non-empty, with a closure over that name and the call; both strategies are FAIL_FAST; the warning tracks the resolved lease time |
| `LockInfoProvider.UnknownHandlerFailsOnInvoke` | src/main/java/org/springframework/boot/autoconfigure/klock/core/LockInfoProvider.java:44-77 | building succeeds for a lock-timeout handler name the receiver lacks; the failure appears only when the handler is invoked |
| `LockInfoProvider.UnknownReleaseHandlerFailsOnInvoke` | src/main/java/org/springframework/boot/autoconfigure/klock/core/LockInfoProvider.java:97-110 | the same for the release-timeout handler |
| `LockInfoProvider.ReleaseHandlerReturnsArguments` | src/main/java/org/springframework/boot/autoconfigure/klock/core/LockInfoProvider.java:111-121 | the release-timeout handler answers with the call's arguments, whatever the named method returned |
| `LockInfoProvider.NoBusinessKeyMeansOneLockPerMethod` | src/main/java/org/springframework/boot/autoconfigure/klock/core/LockInfoProvider.java:35-38 | with an empty business key, every call of one method gets the same lock name |
| `LockInfoProvider.ExplicitNameCanAliasDerivedName` | src/main/java/org/springframework/boot/autoconfigure/klock/core/LockInfoProvider.java:37-38 | an explicit name spelled `<type>.<method>` shares its lock with that method's unnamed lock |
| `Decimal.ToDecimal` | src/main/java/org/springframework/boot/autoconfigure/klock/core/RedisLockClient.java:115-117 | a thread id renders as a non-empty run of digits without a leading zero |
| `Decimal.ParseToDecimal` | src/main/java/org/springframework/boot/autoconfigure/klock/core/RedisLockClient.java:115-117 | reading the rendered digits back gives the thread id |
| `Decimal.ToDecimalInjective` | src/main/java/org/springframework/boot/autoconfigure/klock/core/RedisLockClient.java:115-117 | different thread ids render differently |
| `Decimal.DigitPrefixUnique` | src/main/java/org/springframework/boot/autoconfigure/klock/core/RedisLockClient.java:115-117 | a rendered id followed by text that starts with a non-digit splits back into id and text in one way only |
| `RedisLockClient.CurrentLockId` | src/main/java/org/springframework/boot/autoconfigure/klock/core/RedisLockClient.java:115-117 | the key ends with the rendered lock name (`"null"` when there is none), and what comes before it is the thread id in decimal, with no leading zero |
| `RedisLockClient.AcquireGate` | src/main/java/org/springframework/boot/autoconfigure/klock/core/RedisLockClient.java:42-57 | the operation is reached exactly when acquisition succeeds, or fails with no custom handler and a strategy that returns normally; otherwise the call returns the handler's outcome or throws the strategy's exception |
| `RedisLockClient.HandleReleaseTimeout` | src/main/java/org/springframework/boot/autoconfigure/klock/core/RedisLockClient.java:122-135 | the custom release handler runs when present, with its value dropped and its exception kept; otherwise the release strategy runs |
| `RedisLockClient.ReleaseLock` | src/main/java/org/springframework/boot/autoconfigure/klock/core/RedisLockClient.java:78-101 | a missing entry throws the "key modified" error; `release()` is called once exactly when the entry is marked and holds a lock; only this entry's mark can change, and no key is added or removed |
| `RedisLockClient.CleanUpThreadLocal` | src/main/java/org/springframework/boot/autoconfigure/klock/core/RedisLockClient.java:104-107 | the entry under the key is gone and every other entry is untouched |
| `RedisLockClient.MarkAcquired` | src/main/java/org/springframework/boot/autoconfigure/klock/core/RedisLockClient.java:59-62 | the call's entry is marked acquired and holds the lock handle, and keeps its descriptor for the later release handling; nothing else changes |
| `RedisLockClient.Attempt` | src/main/java/org/springframework/boot/autoconfigure/klock/core/RedisLockClient.java:41-67 | the try block runs the operation once when the acquire step proceeds and not at all otherwise; it never releases; a skipped operation leaves no events from deeper calls |
| `RedisLockClient.Finish` | src/main/java/org/springframework/boot/autoconfigure/klock/core/RedisLockClient.java:68-72 | the finally block adds at most one release for this call, adds events only at this call's depth, and changes no registry entry but this call's |
| `RedisLockClient.Lock` | src/main/java/org/springframework/boot/autoconfigure/klock/core/RedisLockClient.java:32-73 | every event belongs to this call or to a call nested in it; this call releases at most once and runs its operation at most once |
| `ClientProperties.FinishReleases` | src/main/java/org/springframework/boot/autoconfigure/klock/core/RedisLockClient.java:68-101 | for a marked entry, the finally block releases once, clears the mark, handles a failed release, and removes the entry unless that handling throws, in which case its exception is the outcome |
| `ClientProperties.FinishSkipsRelease` | src/main/java/org/springframework/boot/autoconfigure/klock/core/RedisLockClient.java:68-107 | for an unmarked entry, the finally block does not release, keeps the outcome and removes the entry |
| `ClientProperties.FinishMissingEntry` | src/main/java/org/springframework/boot/autoconfigure/klock/core/RedisLockClient.java:80-88 | when the entry has vanished, the "key modified" error replaces the outcome and nothing is removed |
| `ClientProperties.SkippedCallLeavesNoTrace` | src/main/java/org/springframework/boot/autoconfigure/klock/core/RedisLockClient.java:39-57 | a call the acquire step stops returns the gate's outcome, never runs the operation, never releases, and leaves the registry without its key |
| `ClientProperties.CustomHandlerSkipsOperation` | src/main/java/org/springframework/boot/autoconfigure/klock/core/RedisLockClient.java:46-50 | a failed acquisition with a custom handler returns the handler's outcome without running the operation or releasing |
| `ClientProperties.ThrowingStrategySkipsOperation` | src/main/java/org/springframework/boot/autoconfigure/klock/core/RedisLockClient.java:52-56 | a throwing lock-timeout strategy ends the call with its exception, before the operation and without a release |
| `ClientProperties.FailFastTimesOut` | src/main/java/org/springframework/boot/autoconfigure/klock/core/RedisLockClient.java:55 | with no handler and FAIL_FAST, a failed acquisition ends in the acquire-timeout error |
| `ClientProperties.RunningLeafReleasesOnce` | src/main/java/org/springframework/boot/autoconfigure/klock/core/RedisLockClient.java:59-101 | an operation that runs is followed by exactly one release; a successful release returns the operation's outcome and removes the entry |
| `ClientProperties.PassingStrategyStillRunsAndReleases` | src/main/java/org/springframework/boot/autoconfigure/klock/core/RedisLockClient.java:55-65 | a lock-timeout strategy that returns normally lets the operation run, and `release()` is still called once |
| `ClientProperties.AcquiredCallRunsOnceReleasesOnce` | src/main/java/org/springframework/boot/autoconfigure/klock/core/RedisLockClient.java:42-72 | an acquired call runs its operation once and releases once; a successful release returns the operation's outcome and leaves no entry |
| `ClientProperties.ReleaseHandlerOutcome` | src/main/java/org/springframework/boot/autoconfigure/klock/core/RedisLockClient.java:90-135 | a failed release calls the custom handler; if the handler returns, its value is dropped, the operation's outcome stands and the entry is removed; if it throws, its exception is the outcome and the entry stays, unmarked (`release()` is modelled as returning) |
| `ClientProperties.FailFastReleaseOverridesResult` | src/main/java/org/springframework/boot/autoconfigure/klock/core/RedisLockClient.java:95-131 | without a handler, FAIL_FAST on a failed release replaces the operation's result with the release-timeout error, and the entry is not removed |
| `ClientProperties.EntryRemovedUnlessFinallyThrows` | src/main/java/org/springframework/boot/autoconfigure/klock/core/RedisLockClient.java:68-71 | after a plain call the entry is gone exactly when the removal ran; an entry left behind means the call threw, and that entry is unmarked |
| `ClientProperties.RunningLeafRemovesUnlessThrows` | src/main/java/org/springframework/boot/autoconfigure/klock/core/RedisLockClient.java:59-107 | the same, for a call whose operation ran |
| `ClientProperties.FinishRemovesUnlessThrows` | src/main/java/org/springframework/boot/autoconfigure/klock/core/RedisLockClient.java:68-107 | the finally block removes the entry exactly when it records the removal; otherwise the outcome is an exception and the entry is unmarked |
| `ClientProperties.RegistryFrame` | src/main/java/org/springframework/boot/autoconfigure/klock/core/RedisLockClient.java:32-107 | a call, nested calls included, changes no entry except under its own key and its nested calls' keys |
| `ClientProperties.AtMostOncePerCall` | src/main/java/org/springframework/boot/autoconfigure/klock/core/RedisLockClient.java:90-94 | at every nesting depth, a call releases at most once and runs its operation at most once |
| `ClientProperties.NestedSameNameLosesOuterEntry` | src/main/java/org/springframework/boot/autoconfigure/klock/core/RedisLockClient.java:39-88 | when both calls acquire and the inner `release()` succeeds, a nested call on the same thread under the same name deletes the outer entry: the outer call never releases and ends in the "key modified" error, though the inner call released once; the inner call's failed release is covered by `NestedSameNameNeverReleasesOuter` |
| `ClientProperties.NestedSameNameNeverReleasesOuter` | src/main/java/org/springframework/boot/autoconfigure/klock/core/RedisLockClient.java:39-106 | for every outcome of the inner call, a nested call under the same name leaves the outer call without a release, and once the outer operation has run the outer call ends in an exception |
| `ClientProperties.NestedDistinctNamesRelease` | src/main/java/org/springframework/boot/autoconfigure/klock/core/RedisLockClient.java:32-73 | a nested call under another name keeps to its own entry: both calls release once, the operation's outcome is returned, and neither entry remains |
| `ClientProperties.KeyInjective` | src/main/java/org/springframework/boot/autoconfigure/klock/core/RedisLockClient.java:115-117 | for names that are non-empty and start with a non-digit, two keys are equal exactly when thread and rendered name are |
| `ClientProperties.ProviderNamesAreUnambiguous` | src/main/java/org/springframework/boot/autoconfigure/klock/core/LockInfoProvider.java:37-38 | every name the provider builds is non-empty and starts with "l", never a digit |
| `ClientProperties.ProviderKeysInjective` | src/main/java/org/springframework/boot/autoconfigure/klock/core/RedisLockClient.java:115-117 | provider-built descriptors share a key exactly when they run on the same thread under the same name |
| `ClientProperties.ThreadIdAndNameCanCollide` | src/main/java/org/springframework/boot/autoconfigure/klock/core/RedisLockClient.java:115-117 | thread 1 with name "23" and thread 12 with name "3" get the same key |
| `ClientProperties.NullNameCollidesWithNullString` | src/main/java/org/springframework/boot/autoconfigure/klock/core/RedisLockClient.java:115-117 | a descriptor without a name and one named "null" get the same key on one thread |
| `ClientProperties.FinishKeepsWellFormed` | src/main/java/org/springframework/boot/autoconfigure/klock/core/RedisLockClient.java:68-101 | the finally block keeps every marked entry holding a lock handle |
| `ClientProperties.LockKeepsRegistryWellFormed` | src/main/java/org/springframework/boot/autoconfigure/klock/core/RedisLockClient.java:59-62 | calls, nested ones included, keep every marked entry holding a lock handle |
| `ClientProperties.MarkedEntryIsReleased` | src/main/java/org/springframework/boot/autoconfigure/klock/core/RedisLockClient.java:90-94 | in such a registry a marked entry is released exactly once and its mark cleared; the null-handle path never happens |
| `ServiceScenarios.HandlerInfo` | src/test/java/org/springframework/boot/autoconfigure/klock/test/TestService.java:38-40 | the handler descriptor has wait 1, lease 6, both handlers, and FAIL_FAST for both strategies |
| `ServiceScenarios.TimedInfo` | src/test/java/org/springframework/boot/autoconfigure/klock/test/TestService.java:42-43 | the timed descriptor has wait 1, lease 6, no handlers, and FAIL_FAST for both strategies |
| `ServiceScenarios.GetParamsTimesOut` | src/test/java/org/springframework/boot/autoconfigure/klock/test/TestService.java:42-51 | when the lock is held elsewhere, `getParams` fails with the acquire timeout and never computes "success" |
| `ServiceScenarios.GetParamsSucceeds` | src/test/java/org/springframework/boot/autoconfigure/klock/test/TestService.java:46-51 | when acquire and release succeed, `getParams` returns "success" and leaves no entry |
| `ServiceScenarios.HandlerInfoAnswersLockParams` | src/test/java/org/springframework/boot/autoconfigure/klock/test/TestService.java:38-57 | with the handler descriptor, a lock held elsewhere yields "lockParams" without running the operation; the sample builds this descriptor but never locks with it |
| `ServiceScenarios.HandlerInfoKeepsResultOnFailedRelease` | src/test/java/org/springframework/boot/autoconfigure/klock/test/TestService.java:38-62 | with the handler descriptor, a failed release still returns "success"; the sample never locks with this descriptor |

## Left out

- The Redis lock implementations behind `LockFactory` and `Lock`, and lease and watchdog timing, are not modelled. `acquire()` and `release()` are boolean inputs. `getLock` returns a handle that records the name and type.
- Exceptions thrown by `getLock`, `acquire()` or `release()` themselves are not modelled; these calls always return. The code would handle them differently from an exception of the operation:
  - `getLock` and `acquire()` (RedisLockClient.java:42-43) throw before the entry is marked at :60-62. `release()` is then not called, and the entry is removed.
  - `release()` (:92) throws before `setRes(false)` at :94. The cleanup at :71 is skipped, so the entry stays behind still marked. The statements that a left-behind entry is unmarked hold only as long as `release()` returns.
- `DistributedLock.close` is not modelled. It only delegates to `release()`.
- The AspectJ interception in `KlockAspectHandler` is not part of this model. `lock` is called directly with a descriptor.
- The mechanics of reflection are not modelled: `getDeclaredMethod` over parameter types, `setAccessible`, and the unwrapping of `InvocationTargetException`. The receiver's methods are a map from name to the outcome of invoking that method.
- Handlers.Invoke: does not produce `KlockInvocationException` for an `IllegalAccessException`, because accessibility is part of the reflection left out above.
- `BusinessKeyProvider` (SpEL over the call's arguments) is not part of this model. The business key is an input string.
- `KlockConfig` is not part of this model. Its declared defaults (`DEFAULT_WAIT_TIME`, `DEFAULT_LEASE_TIME`) and its configured times are `Defaults` inputs.
- The definitions of the enums `LockType`, `LockTimeoutStrategy` and `ReleaseTimeoutStrategy` are not in the source, so the shapes in `LockInfoModel` are assumed:
  - FAIL_FAST is taken to throw a timeout error.
  - Every other strategy is known only by its name. What it does is an input.
- LockInfoProvider.GetLockInfo: the warning is a returned flag. It ignores `log.isWarnEnabled()`, because logging configuration is outside the model.
- Logging (`log.trace`) and JSON serialisation are not modelled.
- Concurrency is not modelled: `ConcurrentHashMap` and real threads. The registry is a sequential map, a thread id is a natural number, and one call runs at a time.
- Handlers are deterministic: a `Lambda` handler always has the same outcome.
- RedisLockClient.Lock: a nested call's run is computed whenever the operation is a nested call, and is used only when the acquire step proceeds. This makes no difference to the result.
- `handleCustomReleaseTimeout` in the client (lines 140-142) is never called, so it is not modelled.
- The other `getValue` methods of the sample service only sleep and return "success". Their annotations are covered by `LockInfoProvider.Get`.
