/** What the lock client guarantees, and what it does not, stated over
    every input the collaborators could supply. */
module ClientProperties {
  import opened Outcomes
  import opened Decimal
  import opened Handlers
  import opened LockInfoModel
  import opened LockInfoProvider
  import opened RedisLockClient

  /** The entry `lock` put under `key`, with its mark cleared. */
  function Unmarked(info: LockInfo): LockRes {
    LockRes(info, Some(GetLock(info)), false)
  }

  /** The registry with the call's entry marked acquired. */
  function Marked(reg: Registry, key: string, info: LockInfo): Registry {
    reg[key := LockRes(info, Some(GetLock(info)), true)]
  }

  lemma RemoveAfterUpdate<K, V>(m: map<K, V>, k: K, v: V)
    ensures m[k := v] - {k} == m - {k}
  {
  }

  lemma UpdateTwice<K, V>(m: map<K, V>, k: K, v: V, w: V)
    ensures m[k := v][k := w] == m[k := w]
  {
  }

  /** Marking the entry `lock` has just registered gives `Marked`. */
  lemma MarkRegistered(reg: Registry, key: string, info: LockInfo)
    ensures MarkAcquired(reg[key := LockRes(info, None, false)], key, info) == Marked(reg, key, info)
  {
    UpdateTwice(reg, key, LockRes(info, None, false), LockRes(info, Some(GetLock(info)), true));
  }

  /** A plain operation that the acquire step lets run: the try block
      leaves the entry marked and the operation's outcome in place. */
  lemma LeafRuns(reg: Registry, thread: nat, depth: nat, info: LockInfo, env: CallEnv, o: Outcome<Value>)
    requires AcquireGate(info, env, depth).Proceed?
    ensures var key := CurrentLockId(thread, info);
      Lock(reg, thread, depth, info, env, Leaf(o))
      == Finish(Run(Marked(reg, key, info), o, AcquireGate(info, env, depth).events + [Event(depth, OperationInvoked)]),
                key, env, depth)
  {
    var key := CurrentLockId(thread, info);
    var registered := reg[key := LockRes(info, None, false)];
    var acquired := MarkAcquired(registered, key, info);
    var gate := AcquireGate(info, env, depth);
    var attempt := Attempt(gate, registered, Run(acquired, o, []), depth);
    assert Lock(reg, thread, depth, info, env, Leaf(o)) == Finish(attempt, key, env, depth);
    assert attempt == Run(acquired, o, gate.events + [Event(depth, OperationInvoked)]);
    MarkRegistered(reg, key, info);
  }

  /** The finally block of a call whose entry is marked: one release, the
      failure handling when it fails, and removal unless that throws. */
  lemma FinishReleases(attempt: Run, key: string, env: CallEnv, depth: nat)
    requires key in attempt.registry && attempt.registry[key].res && attempt.registry[key].lock.Some?
    ensures var entry := attempt.registry[key];
      var unmarked := attempt.registry[key := entry.(res := false)];
      var handled := HandleReleaseTimeout(entry.info, env, depth);
      var status := if env.released then Ok(()) else handled.0;
      var tail := [Event(depth, ReleaseCalled)] + (if env.released then [] else [handled.1]);
      Finish(attempt, key, env, depth)
      == if status.Err? then Run(unmarked, Err(status.error), attempt.events + tail)
         else Run(unmarked - {key}, attempt.outcome, attempt.events + tail + [Event(depth, EntryRemoved)])
  {
  }

  /** The finally block of a call whose entry is not marked: no release,
      and the entry is removed. */
  lemma FinishSkipsRelease(attempt: Run, key: string, env: CallEnv, depth: nat)
    requires key in attempt.registry && !attempt.registry[key].res
    ensures Finish(attempt, key, env, depth)
         == Run(attempt.registry - {key}, attempt.outcome, attempt.events + [Event(depth, EntryRemoved)])
  {
  }

  /** A call whose acquire step does not let the operation run: the try
      block returns the gate's outcome with the entry still unmarked. */
  lemma SkippedRuns(reg: Registry, thread: nat, depth: nat, info: LockInfo, env: CallEnv, op: Operation)
    requires AcquireGate(info, env, depth).Fallback?
    ensures var key := CurrentLockId(thread, info);
      var gate := AcquireGate(info, env, depth);
      Lock(reg, thread, depth, info, env, op)
      == Finish(Run(reg[key := LockRes(info, None, false)], gate.outcome, gate.events), key, env, depth)
  {
  }

  // ---------------------------------------------------------------------
  // Acquisition fails

  /** A call the acquire step stops returns the gate's outcome without
      running the operation or releasing, and removes its entry. */
  lemma SkippedCallLeavesNoTrace(reg: Registry, thread: nat, depth: nat, info: LockInfo,
                                 env: CallEnv, op: Operation)
    requires AcquireGate(info, env, depth).Fallback?
    ensures var r := Lock(reg, thread, depth, info, env, op);
      && r.outcome == AcquireGate(info, env, depth).outcome
      && Event(depth, OperationInvoked) !in r.events
      && (forall e | e in r.events :: e.action != ReleaseCalled)
      && r.registry == reg - {CurrentLockId(thread, info)}
      && Event(depth, EntryRemoved) in r.events
  {
    var key := CurrentLockId(thread, info);
    var gate := AcquireGate(info, env, depth);
    var registered := reg[key := LockRes(info, None, false)];
    SkippedRuns(reg, thread, depth, info, env, op);
    FinishSkipsRelease(Run(registered, gate.outcome, gate.events), key, env, depth);
    RemoveAfterUpdate(reg, key, LockRes(info, None, false));
    var events := gate.events + [Event(depth, EntryRemoved)];
    assert Lock(reg, thread, depth, info, env, op) == Run(reg - {key}, gate.outcome, events);
    forall e | e in events
      ensures e.action != ReleaseCalled && e != Event(depth, OperationInvoked)
    {
      if e !in gate.events {
        assert e == Event(depth, EntryRemoved);
      }
    }
    assert events[|events| - 1] == Event(depth, EntryRemoved);
  }

  /** With a custom acquire handler, a failed acquisition returns the
      handler's outcome: the protected operation never runs, nothing is
      released, and the entry is removed. */
  lemma CustomHandlerSkipsOperation(reg: Registry, thread: nat, depth: nat, info: LockInfo,
                                    env: CallEnv, op: Operation)
    requires !env.acquired && info.customLockTimeoutHandler.Some?
    ensures var r := Lock(reg, thread, depth, info, env, op);
      && r.outcome == Invoke(info.customLockTimeoutHandler.value)
      && Event(depth, OperationInvoked) !in r.events
      && (forall e | e in r.events :: e.action != ReleaseCalled)
      && r.registry == reg - {CurrentLockId(thread, info)}
  {
    SkippedCallLeavesNoTrace(reg, thread, depth, info, env, op);
  }

  /** Without one, a lock-timeout strategy that throws ends the call with
      its exception, before the operation and without a release. */
  lemma ThrowingStrategySkipsOperation(reg: Registry, thread: nat, depth: nat, info: LockInfo,
                                       env: CallEnv, op: Operation)
    requires !env.acquired && info.customLockTimeoutHandler.None?
    requires LockStrategyOutcome(info.lockTimeoutStrategy, env).Err?
    ensures var r := Lock(reg, thread, depth, info, env, op);
      && r.outcome == Err(LockStrategyOutcome(info.lockTimeoutStrategy, env).error)
      && Event(depth, OperationInvoked) !in r.events
      && (forall e | e in r.events :: e.action != ReleaseCalled)
      && r.registry == reg - {CurrentLockId(thread, info)}
  {
    SkippedCallLeavesNoTrace(reg, thread, depth, info, env, op);
  }

  /** The default descriptor (FAIL_FAST, no handler) turns a failed
      acquisition into `AcquireTimeout`. */
  lemma FailFastTimesOut(reg: Registry, thread: nat, depth: nat, info: LockInfo, env: CallEnv, op: Operation)
    requires !env.acquired && info.customLockTimeoutHandler.None?
    requires info.lockTimeoutStrategy == LockFailFast
    ensures Lock(reg, thread, depth, info, env, op).outcome == Err(AcquireTimeout)
  {
    ThrowingStrategySkipsOperation(reg, thread, depth, info, env, op);
  }

  // ---------------------------------------------------------------------
  // The operation runs

  /** The entry after a release clears the mark is gone once removed. */
  lemma UnmarkThenRemove(reg: Registry, key: string, info: LockInfo)
    ensures Marked(reg, key, info)[key := Unmarked(info)] - {key} == reg - {key}
    ensures Marked(reg, key, info)[key := Marked(reg, key, info)[key].(res := false)] == reg[key := Unmarked(info)]
  {
    RemoveAfterUpdate(reg, key, Unmarked(info));
  }

  /** A plain operation that runs is followed by exactly one release, and
      a successful release returns the operation's outcome and leaves no
      entry behind. */
  lemma RunningLeafReleasesOnce(reg: Registry, thread: nat, depth: nat, info: LockInfo,
                                env: CallEnv, o: Outcome<Value>)
    requires AcquireGate(info, env, depth).Proceed?
    ensures var r := Lock(reg, thread, depth, info, env, Leaf(o));
      && Count(r.events, Event(depth, OperationInvoked)) == 1
      && Count(r.events, Event(depth, ReleaseCalled)) == 1
      && (env.released ==> r.outcome == o && r.registry == reg - {CurrentLockId(thread, info)})
  {
    var key := CurrentLockId(thread, info);
    var gate := AcquireGate(info, env, depth);
    LeafRuns(reg, thread, depth, info, env, o);
    FinishReleases(Run(Marked(reg, key, info), o, gate.events + [Event(depth, OperationInvoked)]), key, env, depth);
    UnmarkThenRemove(reg, key, info);
    assert Event(depth, OperationInvoked) !in gate.events;
    assert Event(depth, ReleaseCalled) !in gate.events;
  }

  /** A lock-timeout strategy that returns normally lets the operation run
      even though `acquire()` returned false; the entry is marked all the
      same, so the finally block calls `release()` once. */
  lemma PassingStrategyStillRunsAndReleases(reg: Registry, thread: nat, depth: nat, info: LockInfo,
                                            env: CallEnv, o: Outcome<Value>)
    requires !env.acquired && info.customLockTimeoutHandler.None?
    requires LockStrategyOutcome(info.lockTimeoutStrategy, env).Ok?
    ensures var r := Lock(reg, thread, depth, info, env, Leaf(o));
      && Count(r.events, Event(depth, OperationInvoked)) == 1
      && Count(r.events, Event(depth, ReleaseCalled)) == 1
      && (env.released ==> r.outcome == o && r.registry == reg - {CurrentLockId(thread, info)})
  {
    RunningLeafReleasesOnce(reg, thread, depth, info, env, o);
  }

  // ---------------------------------------------------------------------
  // Acquisition succeeds

  /** An acquired call runs its operation once and releases once; when the
      release succeeds it returns the operation's outcome and leaves no
      entry behind. */
  lemma AcquiredCallRunsOnceReleasesOnce(reg: Registry, thread: nat, depth: nat, info: LockInfo,
                                         env: CallEnv, o: Outcome<Value>)
    requires env.acquired
    ensures var r := Lock(reg, thread, depth, info, env, Leaf(o));
      && Count(r.events, Event(depth, OperationInvoked)) == 1
      && Count(r.events, Event(depth, ReleaseCalled)) == 1
      && (env.released ==> r.outcome == o && r.registry == reg - {CurrentLockId(thread, info)})
  {
    RunningLeafReleasesOnce(reg, thread, depth, info, env, o);
  }

  /** A failed release goes to the custom release handler when there is
      one. A handler that returns normally leaves the operation's outcome
      in place (its value is dropped) and the entry is removed; a handler
      that throws replaces the outcome, and the entry stays, unmarked. */
  lemma ReleaseHandlerOutcome(reg: Registry, thread: nat, depth: nat, info: LockInfo,
                              env: CallEnv, o: Outcome<Value>)
    requires env.acquired && !env.released
    requires info.customReleaseTimeoutHandler.Some?
    ensures var r := Lock(reg, thread, depth, info, env, Leaf(o));
      var h := Invoke(info.customReleaseTimeoutHandler.value);
      var key := CurrentLockId(thread, info);
      && Event(depth, ReleaseHandlerCalled) in r.events
      && (h.Ok? ==> r.outcome == o && r.registry == reg - {key})
      && (h.Err? ==> r.outcome == Err(h.error) && r.registry == reg[key := Unmarked(info)])
  {
    var key := CurrentLockId(thread, info);
    var gate := AcquireGate(info, env, depth);
    LeafRuns(reg, thread, depth, info, env, o);
    FinishReleases(Run(Marked(reg, key, info), o, gate.events + [Event(depth, OperationInvoked)]), key, env, depth);
    UnmarkThenRemove(reg, key, info);
  }

  /** Without a handler the release-timeout strategy runs; FAIL_FAST throws
      `ReleaseTimeout`, which replaces even an operation result that was
      already computed, and the entry is not removed. */
  lemma FailFastReleaseOverridesResult(reg: Registry, thread: nat, depth: nat, info: LockInfo,
                                       env: CallEnv, o: Outcome<Value>)
    requires env.acquired && !env.released
    requires info.customReleaseTimeoutHandler.None? && info.releaseTimeoutStrategy == ReleaseFailFast
    ensures var r := Lock(reg, thread, depth, info, env, Leaf(o));
      && r.outcome == Err(ReleaseTimeout)
      && r.registry == reg[CurrentLockId(thread, info) := Unmarked(info)]
      && Event(depth, EntryRemoved) !in r.events
  {
    var key := CurrentLockId(thread, info);
    var gate := AcquireGate(info, env, depth);
    LeafRuns(reg, thread, depth, info, env, o);
    FinishReleases(Run(Marked(reg, key, info), o, gate.events + [Event(depth, OperationInvoked)]), key, env, depth);
    UnmarkThenRemove(reg, key, info);
  }

  /** For a plain operation, the entry is gone after the call exactly when
      `cleanUpThreadLocal` ran; when it did not, the call threw and the
      entry left behind is unmarked. The model's `release()` reports success
      or failure and never throws; under that assumption no later release
      can follow the entry. */
  lemma EntryRemovedUnlessFinallyThrows(reg: Registry, thread: nat, depth: nat, info: LockInfo,
                                        env: CallEnv, o: Outcome<Value>)
    ensures var r := Lock(reg, thread, depth, info, env, Leaf(o));
      var key := CurrentLockId(thread, info);
      && (key !in r.registry <==> Event(depth, EntryRemoved) in r.events)
      && (key in r.registry ==> r.outcome.Err? && !r.registry[key].res)
  {
    if AcquireGate(info, env, depth).Fallback? {
      SkippedCallLeavesNoTrace(reg, thread, depth, info, env, Leaf(o));
    } else {
      RunningLeafRemovesUnlessThrows(reg, thread, depth, info, env, o);
    }
  }

  /** The operation-ran half of `EntryRemovedUnlessFinallyThrows`. */
  lemma RunningLeafRemovesUnlessThrows(reg: Registry, thread: nat, depth: nat, info: LockInfo,
                                       env: CallEnv, o: Outcome<Value>)
    requires AcquireGate(info, env, depth).Proceed?
    ensures var r := Lock(reg, thread, depth, info, env, Leaf(o));
      var key := CurrentLockId(thread, info);
      && (key !in r.registry <==> Event(depth, EntryRemoved) in r.events)
      && (key in r.registry ==> r.outcome.Err? && !r.registry[key].res)
  {
    var key := CurrentLockId(thread, info);
    var gate := AcquireGate(info, env, depth);
    LeafRuns(reg, thread, depth, info, env, o);
    assert Event(depth, EntryRemoved) !in gate.events;
    FinishRemovesUnlessThrows(Run(Marked(reg, key, info), o, gate.events + [Event(depth, OperationInvoked)]), key, env, depth);
  }

  /** The finally block removes the entry exactly when it records the
      removal, and what it leaves behind is unmarked. */
  lemma FinishRemovesUnlessThrows(attempt: Run, key: string, env: CallEnv, depth: nat)
    requires key in attempt.registry
    requires attempt.registry[key].res ==> attempt.registry[key].lock.Some?
    requires Event(depth, EntryRemoved) !in attempt.events
    ensures var r := Finish(attempt, key, env, depth);
      && (key !in r.registry <==> Event(depth, EntryRemoved) in r.events)
      && (key in r.registry ==> r.outcome.Err? && !r.registry[key].res)
  {
    var release := ReleaseLock(attempt.registry, key, env, depth);
    assert Event(depth, EntryRemoved) !in release.events;
  }

  // ---------------------------------------------------------------------
  // Every call, nested or not

  /** The keys a call and the calls nested in it register under. */
  function CallKeys(thread: nat, info: LockInfo, op: Operation): set<string>
    decreases op
  {
    {CurrentLockId(thread, info)} +
      match op
      case Leaf(_) => {}
      case Nested(inner, _, body) => CallKeys(thread, inner, body)
  }

  /** Two registries that agree away from `key` agree on any other key. */
  lemma AgreeOutside(m1: Registry, m2: Registry, key: string, k: string)
    requires m1 - {key} == m2 - {key}
    requires k != key
    ensures k in m1 <==> k in m2
    ensures k in m1 ==> m1[k] == m2[k]
  {
    assert k in m1 <==> k in m1 - {key};
    assert k in m2 <==> k in m2 - {key};
    if k in m1 {
      assert m1[k] == (m1 - {key})[k];
      assert m2[k] == (m2 - {key})[k];
    }
  }

  /** A call touches no registry entry but its own and its nested calls'. */
  lemma {:induction false} RegistryFrame(reg: Registry, thread: nat, depth: nat, info: LockInfo,
                                         env: CallEnv, op: Operation, k: string)
    requires k !in CallKeys(thread, info, op)
    ensures var r := Lock(reg, thread, depth, info, env, op);
      && (k in r.registry <==> k in reg)
      && (k in reg ==> r.registry[k] == reg[k])
    decreases op
  {
    var key := CurrentLockId(thread, info);
    var registered := reg[key := LockRes(info, None, false)];
    var acquired := MarkAcquired(registered, key, info);
    var body :=
      match op
      case Leaf(o) => Run(acquired, o, [])
      case Nested(inner, innerEnv, innerOp) => Lock(acquired, thread, depth + 1, inner, innerEnv, innerOp);
    RemoveAfterUpdate(reg, key, LockRes(info, None, false));
    AgreeOutside(registered, reg, key, k);
    AgreeOutside(acquired, registered, key, k);
    match op {
      case Leaf(_) =>
      case Nested(inner, innerEnv, innerOp) =>
        RegistryFrame(acquired, thread, depth + 1, inner, innerEnv, innerOp, k);
    }
    var attempt := Attempt(AcquireGate(info, env, depth), registered, body, depth);
    var r := Finish(attempt, key, env, depth);
    assert Lock(reg, thread, depth, info, env, op) == r;
    AgreeOutside(r.registry, attempt.registry, key, k);
  }

  /** The try block of a call whose operation is `op`, before the finally
      block: the plain outcome, or the nested call's run. */
  function Body(reg: Registry, thread: nat, depth: nat, info: LockInfo, op: Operation): (r: Run)
    ensures forall e | e in r.events :: e.depth > depth
    ensures op.Leaf? ==> r.events == []
  {
    var key := CurrentLockId(thread, info);
    var acquired := MarkAcquired(reg[key := LockRes(info, None, false)], key, info);
    match op
    case Leaf(outcome) => Run(acquired, outcome, [])
    case Nested(inner, innerEnv, innerOp) => Lock(acquired, thread, depth + 1, inner, innerEnv, innerOp)
  }

  /** Below its own depth, a call records exactly the events of its try
      block, and only when the acquire step lets the operation run. */
  lemma DeeperCounts(reg: Registry, thread: nat, depth: nat, info: LockInfo, env: CallEnv, op: Operation,
                     e: Event)
    requires e.depth != depth
    ensures Count(Lock(reg, thread, depth, info, env, op).events, e)
         == (if AcquireGate(info, env, depth).Proceed? then Count(Body(reg, thread, depth, info, op).events, e)
             else 0)
  {
  }

  /** Every `lock` call, at any nesting depth, calls `release()` at most
      once and runs its protected operation at most once. */
  lemma {:induction false} AtMostOncePerCall(reg: Registry, thread: nat, depth: nat, info: LockInfo,
                                             env: CallEnv, op: Operation, d: nat)
    ensures var r := Lock(reg, thread, depth, info, env, op);
      && Count(r.events, Event(d, ReleaseCalled)) <= 1
      && Count(r.events, Event(d, OperationInvoked)) <= 1
    decreases op
  {
    var r := Lock(reg, thread, depth, info, env, op);
    if d < depth {
      assert Event(d, ReleaseCalled) !in r.events;
      assert Event(d, OperationInvoked) !in r.events;
    } else if d > depth {
      DeeperCounts(reg, thread, depth, info, env, op, Event(d, ReleaseCalled));
      DeeperCounts(reg, thread, depth, info, env, op, Event(d, OperationInvoked));
      match op
      case Leaf(_) =>
      case Nested(inner, innerEnv, body) =>
        var key := CurrentLockId(thread, info);
        var acquired := MarkAcquired(reg[key := LockRes(info, None, false)], key, info);
        AtMostOncePerCall(acquired, thread, depth + 1, inner, innerEnv, body, d);
    }
  }


  // ---------------------------------------------------------------------
  // Nested calls on one thread

  /** A nested call that the acquire step lets run: the inner call starts
      from the registry with the outer entry marked, and its run becomes
      the outer try block. */
  lemma NestedRuns(reg: Registry, thread: nat, depth: nat, info: LockInfo, env: CallEnv,
                   inner: LockInfo, innerEnv: CallEnv, innerOp: Operation)
    requires AcquireGate(info, env, depth).Proceed?
    ensures var key := CurrentLockId(thread, info);
      var gate := AcquireGate(info, env, depth);
      var innerRun := Lock(Marked(reg, key, info), thread, depth + 1, inner, innerEnv, innerOp);
      Lock(reg, thread, depth, info, env, Nested(inner, innerEnv, innerOp))
      == Finish(Run(innerRun.registry, innerRun.outcome,
                    gate.events + [Event(depth, OperationInvoked)] + innerRun.events), key, env, depth)
  {
    MarkRegistered(reg, CurrentLockId(thread, info), info);
  }

  /** The finally block of a call whose entry has vanished: `releaseLock`
      throws, so its exception becomes the outcome and nothing is removed. */
  lemma FinishMissingEntry(attempt: Run, key: string, env: CallEnv, depth: nat)
    requires key !in attempt.registry
    ensures Finish(attempt, key, env, depth) == Run(attempt.registry, Err(KeyModified(key)), attempt.events)
  {
  }

  /** An acquired call around an acquired and released plain call: the
      inner run, and the outer try block it becomes. */
  lemma NestedAcquiredLeaf(reg: Registry, thread: nat, depth: nat, info: LockInfo, env: CallEnv,
                           inner: LockInfo, innerEnv: CallEnv, o: Outcome<Value>)
    requires env.acquired && innerEnv.acquired && innerEnv.released
    ensures var key := CurrentLockId(thread, info);
      var innerRun := Lock(Marked(reg, key, info), thread, depth + 1, inner, innerEnv, Leaf(o));
      && innerRun.outcome == o
      && innerRun.registry == Marked(reg, key, info) - {CurrentLockId(thread, inner)}
      && Count(innerRun.events, Event(depth + 1, ReleaseCalled)) == 1
      && Event(depth, ReleaseCalled) !in innerRun.events
      && Lock(reg, thread, depth, info, env, Nested(inner, innerEnv, Leaf(o)))
         == Finish(Run(innerRun.registry, o,
                       [Event(depth, AcquireCalled)] + [Event(depth, OperationInvoked)] + innerRun.events),
                   key, env, depth)
  {
    var key := CurrentLockId(thread, info);
    AcquiredCallRunsOnceReleasesOnce(Marked(reg, key, info), thread, depth + 1, inner, innerEnv, o);
    AcquiredGateProceeds(info, env, depth);
    NestedRuns(reg, thread, depth, info, env, inner, innerEnv, Leaf(o));
  }

  /** An acquired call's acquire step records only the `acquire()` call. */
  lemma AcquiredGateProceeds(info: LockInfo, env: CallEnv, depth: nat)
    requires env.acquired
    ensures AcquireGate(info, env, depth) == Proceed([Event(depth, AcquireCalled)])
  {
  }

  /** Marking one entry, removing another and then clearing and removing the
      first leaves the registry without both. */
  lemma MarkRemoveUnmarkRemove(reg: Registry, key: string, innerKey: string, info: LockInfo)
    requires key != innerKey
    ensures var m := Marked(reg, key, info) - {innerKey};
      && key in m && m[key] == LockRes(info, Some(GetLock(info)), true)
      && m[key := Unmarked(info)] - {key} == reg - {key, innerKey}
  {
    var m := Marked(reg, key, info) - {innerKey};
    assert m[key := Unmarked(info)] - {key} == reg - {key, innerKey} by {
      forall k | k in reg - {key, innerKey}
        ensures k in m[key := Unmarked(info)] - {key}
      {
      }
    }
  }

  /** Counting in the outer call's events before its finally block. */
  lemma OuterCounts(depth: nat, innerEvents: seq<Event>)
    requires Count(innerEvents, Event(depth + 1, ReleaseCalled)) == 1
    requires Event(depth, ReleaseCalled) !in innerEvents
    ensures var events := [Event(depth, AcquireCalled)] + [Event(depth, OperationInvoked)] + innerEvents;
      Count(events, Event(depth, ReleaseCalled)) == 0 && Count(events, Event(depth + 1, ReleaseCalled)) == 1
  {
  }

  /** A call nested in another on the same thread under the same lock name
      shares its registry key. When both acquire and the inner release
      succeeds, the inner call's clean-up deletes the outer entry, so the
      outer `releaseLock` finds nothing: the outer call never calls
      `release()`, and whatever the operation returned is replaced by the
      "key modified" error. */
  lemma NestedSameNameLosesOuterEntry(reg: Registry, thread: nat, depth: nat, info: LockInfo, env: CallEnv,
                                      inner: LockInfo, innerEnv: CallEnv, o: Outcome<Value>)
    requires env.acquired && innerEnv.acquired && innerEnv.released
    requires inner.lockName == info.lockName
    ensures var r := Lock(reg, thread, depth, info, env, Nested(inner, innerEnv, Leaf(o)));
      var key := CurrentLockId(thread, info);
      && r.outcome == Err(KeyModified(key))
      && Count(r.events, Event(depth, ReleaseCalled)) == 0
      && Count(r.events, Event(depth + 1, ReleaseCalled)) == 1
      && r.registry == reg - {key}
  {
    var key := CurrentLockId(thread, info);
    var innerRun := Lock(Marked(reg, key, info), thread, depth + 1, inner, innerEnv, Leaf(o));
    NestedAcquiredLeaf(reg, thread, depth, info, env, inner, innerEnv, o);
    RemoveAfterUpdate(reg, key, LockRes(info, Some(GetLock(info)), true));
    OuterCounts(depth, innerRun.events);
    FinishMissingEntry(Run(innerRun.registry, o,
                           [Event(depth, AcquireCalled)] + [Event(depth, OperationInvoked)] + innerRun.events),
                       key, env, depth);
  }

  /** The finally block of a call whose entry is gone or unmarked: no
      release, and an exception when the entry is still there but the try
      block already threw. */
  lemma FinishWithoutMark(attempt: Run, key: string, env: CallEnv, depth: nat)
    requires key in attempt.registry ==> !attempt.registry[key].res && attempt.outcome.Err?
    requires Event(depth, ReleaseCalled) !in attempt.events
    ensures var r := Finish(attempt, key, env, depth);
      && Count(r.events, Event(depth, ReleaseCalled)) == 0
      && r.outcome.Err?
  {
    if key in attempt.registry {
      FinishSkipsRelease(attempt, key, env, depth);
    } else {
      FinishMissingEntry(attempt, key, env, depth);
    }
  }

  /** The outer try block around a nested call records no release of the
      outer call. */
  lemma NoOuterReleaseBeforeFinally(gate: Gate, depth: nat, innerEvents: seq<Event>)
    requires forall e | e in gate.events ::
      e.depth == depth && e.action in {AcquireCalled, LockHandlerCalled, LockStrategyCalled}
    requires forall e | e in innerEvents :: e.depth >= depth + 1
    ensures Event(depth, ReleaseCalled) !in gate.events + [Event(depth, OperationInvoked)] + innerEvents
  {
  }

  /** Whatever the inner call does, a call nested under the same name on
      the same thread leaves the shared entry either gone or unmarked. So
      the outer call never calls `release()`, and once its operation has
      run it ends in an exception: the "key modified" error, or the inner
      call's own exception from its finally block. */
  lemma NestedSameNameNeverReleasesOuter(reg: Registry, thread: nat, depth: nat, info: LockInfo, env: CallEnv,
                                         inner: LockInfo, innerEnv: CallEnv, o: Outcome<Value>)
    requires inner.lockName == info.lockName
    ensures var r := Lock(reg, thread, depth, info, env, Nested(inner, innerEnv, Leaf(o)));
      && Count(r.events, Event(depth, ReleaseCalled)) == 0
      && (AcquireGate(info, env, depth).Proceed? ==> r.outcome.Err?)
  {
    var key := CurrentLockId(thread, info);
    assert CurrentLockId(thread, inner) == key;
    var gate := AcquireGate(info, env, depth);
    if gate.Fallback? {
      SkippedCallLeavesNoTrace(reg, thread, depth, info, env, Nested(inner, innerEnv, Leaf(o)));
    } else {
      var innerRun := Lock(Marked(reg, key, info), thread, depth + 1, inner, innerEnv, Leaf(o));
      NestedRuns(reg, thread, depth, info, env, inner, innerEnv, Leaf(o));
      EntryRemovedUnlessFinallyThrows(Marked(reg, key, info), thread, depth + 1, inner, innerEnv, o);
      NoOuterReleaseBeforeFinally(gate, depth, innerRun.events);
      FinishWithoutMark(Run(innerRun.registry, innerRun.outcome,
                            gate.events + [Event(depth, OperationInvoked)] + innerRun.events), key, env, depth);
    }
  }

  /** A call nested under a different lock name keeps to its own entry:
      when both acquire and release succeed, the outer call returns the
      operation's outcome, each call releases once, and neither entry is
      left behind. */
  lemma NestedDistinctNamesRelease(reg: Registry, thread: nat, depth: nat, info: LockInfo, env: CallEnv,
                                   inner: LockInfo, innerEnv: CallEnv, o: Outcome<Value>)
    requires env.acquired && env.released && innerEnv.acquired && innerEnv.released
    requires CurrentLockId(thread, inner) != CurrentLockId(thread, info)
    ensures var r := Lock(reg, thread, depth, info, env, Nested(inner, innerEnv, Leaf(o)));
      && r.outcome == o
      && Count(r.events, Event(depth, ReleaseCalled)) == 1
      && Count(r.events, Event(depth + 1, ReleaseCalled)) == 1
      && r.registry == reg - {CurrentLockId(thread, info), CurrentLockId(thread, inner)}
  {
    var key := CurrentLockId(thread, info);
    var innerKey := CurrentLockId(thread, inner);
    var innerRun := Lock(Marked(reg, key, info), thread, depth + 1, inner, innerEnv, Leaf(o));
    NestedAcquiredLeaf(reg, thread, depth, info, env, inner, innerEnv, o);
    OuterCounts(depth, innerRun.events);
    MarkRemoveUnmarkRemove(reg, key, innerKey, info);
    FinishReleases(Run(innerRun.registry, o,
                       [Event(depth, AcquireCalled)] + [Event(depth, OperationInvoked)] + innerRun.events),
                   key, env, depth);
  }

  // ---------------------------------------------------------------------
  // Registry keys

  /** A lock name whose rendering cannot be confused with the tail of a
      thread id: it is non-empty and does not start with a digit. */
  predicate Unambiguous(name: Option<string>) {
    var text := NameText(name);
    |text| > 0 && !IsDigit(text[0])
  }

  /** With such names, two calls share a registry key exactly when they run
      on the same thread under the same rendered name. */
  lemma KeyInjective(t1: nat, i1: LockInfo, t2: nat, i2: LockInfo)
    requires Unambiguous(i1.lockName) && Unambiguous(i2.lockName)
    ensures CurrentLockId(t1, i1) == CurrentLockId(t2, i2)
        <==> t1 == t2 && NameText(i1.lockName) == NameText(i2.lockName)
  {
    if CurrentLockId(t1, i1) == CurrentLockId(t2, i2) {
      DigitPrefixUnique(t1, NameText(i1.lockName), t2, NameText(i2.lockName));
    }
  }

  /** Every name `get` builds starts with the "lock." prefix, so the keys of
      provider-built descriptors never collide across threads. */
  lemma ProviderNamesAreUnambiguous(classDefaults: Defaults, config: Defaults, joinPoint: JoinPoint,
                                    klock: Klock, businessKey: string)
    ensures Unambiguous(Get(classDefaults, config, joinPoint, klock, businessKey).info.lockName)
  {
    var n := Get(classDefaults, config, joinPoint, klock, businessKey).info.lockName.value;
    assert n[0] == n[..5][0] == 'l';
  }

  /** Keys of provider-built descriptors: same key, same thread and same
      lock name. */
  lemma ProviderKeysInjective(t1: nat, b1: Built, t2: nat, b2: Built,
                              classDefaults: Defaults, config: Defaults,
                              jp1: JoinPoint, k1: Klock, key1: string, jp2: JoinPoint, k2: Klock, key2: string)
    requires b1 == Get(classDefaults, config, jp1, k1, key1)
    requires b2 == Get(classDefaults, config, jp2, k2, key2)
    ensures CurrentLockId(t1, b1.info) == CurrentLockId(t2, b2.info)
        <==> t1 == t2 && b1.info.lockName == b2.info.lockName
  {
    ProviderNamesAreUnambiguous(classDefaults, config, jp1, k1, key1);
    ProviderNamesAreUnambiguous(classDefaults, config, jp2, k2, key2);
    KeyInjective(t1, b1.info, t2, b2.info);
  }

  /** Without a separator, thread 1 locking "23" and thread 12 locking "3"
      use the same key, so one thread's clean-up can delete the other's
      entry. */
  lemma ThreadIdAndNameCanCollide(i1: LockInfo, i2: LockInfo)
    requires i1.lockName == Some("23") && i2.lockName == Some("3")
    ensures CurrentLockId(1, i1) == CurrentLockId(12, i2)
  {
    assert ToDecimal(1) == "1";
    assert ToDecimal(12) == ToDecimal(1) + [DigitChar(2)] == "12";
  }

  /** A descriptor without a name and one named "null" share a key on the
      same thread. */
  lemma NullNameCollidesWithNullString(thread: nat, i1: LockInfo, i2: LockInfo)
    requires i1.lockName.None? && i2.lockName == Some("null")
    ensures CurrentLockId(thread, i1) == CurrentLockId(thread, i2)
  {
  }

  /** A registry entry marked acquired always holds a lock handle. */
  ghost predicate WellFormed(reg: Registry) {
    forall k | k in reg :: reg[k].res ==> reg[k].lock.Some?
  }

  /** Storing an entry that is unmarked or holds a lock keeps the
      registry well formed. */
  lemma StoreKeepsWellFormed(reg: Registry, key: string, entry: LockRes)
    requires WellFormed(reg)
    requires entry.res ==> entry.lock.Some?
    ensures WellFormed(reg[key := entry])
  {
  }

  /** The finally block keeps the registry well formed. */
  lemma FinishKeepsWellFormed(attempt: Run, key: string, env: CallEnv, depth: nat)
    requires WellFormed(attempt.registry)
    ensures WellFormed(Finish(attempt, key, env, depth).registry)
  {
    var release := ReleaseLock(attempt.registry, key, env, depth);
    if key in attempt.registry {
      StoreKeepsWellFormed(attempt.registry, key, attempt.registry[key].(res := false));
    }
    assert WellFormed(release.registry);
  }

  /** Calls keep the registry well formed. */
  lemma {:induction false} LockKeepsRegistryWellFormed(reg: Registry, thread: nat, depth: nat,
                                                       info: LockInfo, env: CallEnv, op: Operation)
    requires WellFormed(reg)
    ensures WellFormed(Lock(reg, thread, depth, info, env, op).registry)
    decreases op
  {
    var key := CurrentLockId(thread, info);
    var registered := reg[key := LockRes(info, None, false)];
    var acquired := MarkAcquired(registered, key, info);
    StoreKeepsWellFormed(reg, key, LockRes(info, None, false));
    StoreKeepsWellFormed(registered, key, LockRes(info, Some(GetLock(info)), true));
    assert acquired == registered[key := LockRes(info, Some(GetLock(info)), true)];
    var body :=
      match op
      case Leaf(o) => Run(acquired, o, [])
      case Nested(inner, innerEnv, innerOp) => Lock(acquired, thread, depth + 1, inner, innerEnv, innerOp);
    match op {
      case Leaf(_) =>
      case Nested(inner, innerEnv, innerOp) =>
        LockKeepsRegistryWellFormed(acquired, thread, depth + 1, inner, innerEnv, innerOp);
    }
    var attempt := Attempt(AcquireGate(info, env, depth), registered, body, depth);
    FinishKeepsWellFormed(attempt, key, env, depth);
  }

  /** In a well-formed registry a marked entry is always released: the
      `NullLockHandle` path of `releaseLock` is never taken. */
  lemma MarkedEntryIsReleased(reg: Registry, key: string, env: CallEnv, depth: nat)
    requires WellFormed(reg)
    requires key in reg && reg[key].res
    ensures var p := ReleaseLock(reg, key, env, depth);
      && Count(p.events, Event(depth, ReleaseCalled)) == 1
      && key in p.registry && !p.registry[key].res
  {
  }
}
