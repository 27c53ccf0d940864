/** Capacity decreases: what a requested decrease blocks, and exactly when it is applied. */
module Decreases {
  import opened Wrappers
  import opened Limits
  import opened Limiter
  import opened LimiterFacts
  import opened LimiterRuns
  import opened LedgerRefinement
  import R = RollingSpec
  import C = ConcurrencySpec

  /** The step applies the pending decrease of `key` or overrides it with a definition no smaller. */
  ghost predicate Lifts(b: Backend, step: Step, key: string) {
    match step
    case Defining(def) => def.key == key && (key in b.defs ==> def.capacity >= b.defs[key].capacity)
    case Decreasing(k, now) => k == key && TryApplyDecrease(b, key, now).1.Some?
    case _ => false
  }

  /** The step asks for a new lease on `key`. */
  predicate AsksFor(b: Backend, step: Step, key: string) {
    && step.Reserving? && step.req.leaseID !in b.leases
    && exists i :: 0 <= i < |step.req.requirements| && step.req.requirements[i].key == key
  }

  /** A new lease on a decreasing limit is refused outright, and nothing changes. */
  lemma DecreasingRefuses(b: Backend, step: Step, key: string)
    requires IsDecreasing(b.states, key) && AsksFor(b, step, key)
    ensures Next(b, step) == b
    ensures Answer(b, step).Replied? && !Answer(b, step).reply.allowed
    ensures step.req.leaseID != "" ==>
              exists k :: IsDecreasing(b.states, k) &&
                  Answer(b, step).reply == Refused(DECREASE_RETRY_MS, "limit_decreasing:" + k)
  {
    var reqs := step.req.requirements;
    var i :| 0 <= i < |reqs| && reqs[i].key == key;
    var j := FirstDecreasing(b.states, reqs, 0);
    assert j <= i;
    assert IsDecreasing(b.states, reqs[j].key);
  }

  lemma ReserveKeepsStates(b: Backend, req: ReserveRequest, now: int)
    ensures Reserve(b, req, now).0.states == b.states && Reserve(b, req, now).0.defs == b.defs
  {
    hide PurgeAll, CommitAll, EarlyReply, MaxRetry, IndexByKey;
    var n := |req.requirements|;
    PurgeAllOutside(b, req.requirements, now, n);
    CommitAllOutside(PurgeAll(b, req.requirements, now, n), req.leaseID, req.requirements, now, n);
  }

  lemma {:induction false} ReconcileAllKeepsStates(b: Backend, id: string, reserved: map<string, nat>,
          actuals: seq<Actual>, n: nat)
    requires n <= |actuals|
    ensures ReconcileAll(b, id, reserved, actuals, n).states == b.states
    ensures ReconcileAll(b, id, reserved, actuals, n).defs == b.defs
  {
    if n > 0 {
      ReconcileAllKeepsStates(b, id, reserved, actuals, n - 1);
    }
  }

  lemma CompleteKeepsStates(b: Backend, done: CompleteRequest)
    ensures Complete(b, done).states == b.states && Complete(b, done).defs == b.defs
  {
    hide ReleaseAll, ReconcileAll;
    if done.leaseID in b.leases {
      var lease := b.leases[done.leaseID];
      ReleaseAllOutside(b, done.leaseID, lease.requirements, |lease.requirements|);
      ReconcileAllKeepsStates(ReleaseAll(b, done.leaseID, lease.requirements, |lease.requirements|),
                              done.leaseID, lease.reservedAmounts, done.actuals, |done.actuals|);
    }
  }

  lemma DecreaseTouchesOneState(b: Backend, key: string, now: int)
    ensures var d := TryApplyDecrease(b, key, now);
            && (d.1.None? ==> d.0.states == b.states && d.0.defs == b.defs)
            && (d.1.Some? ==>
                  && key in b.states && d.0.states == b.states[key := d.1.value]
                  && d.0.defs == b.defs[key := d.1.value.definition]
                  && d.1.value.definition == b.states[key].definition.(capacity := b.states[key].pendingDecreaseTo)
                  && d.1.value.status == Active && d.1.value.pendingDecreaseTo == 0
                  && b.states[key].status.Decreasing?
                  && 0 < b.states[key].pendingDecreaseTo < b.states[key].definition.capacity)
  {
    hide PurgeKey, AvailableCapacity, UpdateCapacity;
    PurgeKeyAt(b, key, now);
    if PendingDecrease(b.states, key).Some? {
      var state := LimitState(b.states[key].definition.(capacity := b.states[key].pendingDecreaseTo), Active, 0);
      UpdateCapacityAt(PurgeKey(b, key, now).(states := b.states[key := state],
          defs := b.defs[key := state.definition]), state.definition);
    }
  }

  /** Only being applied or overridden ends a decrease. */
  lemma DecreasingPersists(b: Backend, step: Step, key: string)
    requires StatesMatch(b.defs, b.states) && IsDecreasing(b.states, key) && !Lifts(b, step, key)
    ensures IsDecreasing(Next(b, step).states, key) && StatesMatch(Next(b, step).defs, Next(b, step).states)
  {
    hide Reserve, Complete, TryApplyDecrease;
    match step
    case Reserving(req, now) => ReserveKeepsStates(b, req, now);
    case Completing(done) => CompleteKeepsStates(b, done);
    case Defining(def) => DefinitionStates(b, def);
    case Decreasing(k, now) => DecreaseTouchesOneState(b, k, now);
  }

  lemma DefinitionStates(b: Backend, def: Definition)
    ensures var d := ApplyDefinition(b, def);
            if def.key !in b.defs || def.capacity >= b.defs[def.key].capacity then
              d.states == b.states[def.key := LimitState(def, Active, 0)] && d.defs == b.defs[def.key := def]
            else
              && d.states == b.states[def.key := LimitState(b.defs[def.key], Status.Decreasing, def.capacity)]
              && d.defs == b.defs
  {
    hide UpdateCapacity, EnsureStores;
    var c := b.(defs := b.defs[def.key := def], states := b.states[def.key := LimitState(def, Active, 0)]);
    EnsureStoresAt(c, def);
    UpdateCapacityAt(EnsureStores(c, def), def);
  }

  ghost predicate NeverLifted(b: Backend, steps: seq<Step>, key: string)
    decreases |steps|
  {
    steps != [] ==> !Lifts(b, steps[0], key) && NeverLifted(Next(b, steps[0]), steps[1..], key)
  }

  ghost predicate AllRefused(b: Backend, steps: seq<Step>, key: string)
    decreases |steps|
  {
    steps != [] ==>
      && (AsksFor(b, steps[0], key) ==> Answer(b, steps[0]).Replied? && !Answer(b, steps[0]).reply.allowed)
      && AllRefused(Next(b, steps[0]), steps[1..], key)
  }

  /** From a requested decrease on, every new lease on the limit is refused until the decrease is
      applied or overridden upward. */
  lemma {:induction false} DecreaseBlocks(b: Backend, steps: seq<Step>, key: string)
    requires StatesMatch(b.defs, b.states) && IsDecreasing(b.states, key) && NeverLifted(b, steps, key)
    ensures AllRefused(b, steps, key)
    decreases |steps|
  {
    hide Next, Answer, Lifts, AsksFor, StatesMatch;
    if steps != [] {
      if AsksFor(b, steps[0], key) {
        DecreasingRefuses(b, steps[0], key);
      }
      DecreasingPersists(b, steps[0], key);
      DecreaseBlocks(Next(b, steps[0]), steps[1..], key);
    }
  }

  /** A step that is no new definition leaves a decrease to zero as it is. */
  lemma ZeroStays(b: Backend, step: Step, key: string)
    requires StatesMatch(b.defs, b.states) && IsDecreasing(b.states, key) && b.states[key].pendingDecreaseTo == 0
    requires step.Defining? ==> step.def.key != key
    ensures !Lifts(b, step, key) && key in Next(b, step).states && Next(b, step).states[key] == b.states[key]
  {
    hide Reserve, Complete, ApplyDefinition, TryApplyDecrease;
    match step
    case Reserving(req, now) => ReserveKeepsStates(b, req, now);
    case Completing(done) => CompleteKeepsStates(b, done);
    case Defining(def) => DefinitionStates(b, def);
    case Decreasing(k, now) => DecreaseTouchesOneState(b, k, now);
  }

  /** A pending decrease to zero is never applied, and refuses every new lease on its limit for as long as
      the limit is not defined anew. */
  lemma {:induction false} ZeroBlocks(b: Backend, steps: seq<Step>, key: string)
    requires StatesMatch(b.defs, b.states) && IsDecreasing(b.states, key) && b.states[key].pendingDecreaseTo == 0
    requires forall i :: 0 <= i < |steps| && steps[i].Defining? ==> steps[i].def.key != key
    ensures NeverLifted(b, steps, key) && AllRefused(b, steps, key)
    ensures key in Run(b, steps).states && Run(b, steps).states[key] == b.states[key]
    decreases |steps|
  {
    hide Next, StatesMatch, Lifts, AsksFor;
    if steps != [] {
      ZeroStays(b, steps[0], key);
      DecreasingPersists(b, steps[0], key);
      ZeroBlocks(Next(b, steps[0]), steps[1..], key);
    }
    DecreaseBlocks(b, steps, key);
  }

  /** The admin interface refuses a capacity of zero, but a state loaded from a file is taken as it is. */
  lemma LoadedZeroBlocks(b: Backend, def: Definition, steps: seq<Step>, now: int)
    requires WellStored(b) && forall i :: 0 <= i < |steps| && steps[i].Defining? ==> steps[i].def.key != def.key
    ensures var z := ApplyState(b, LimitState(def, Status.Decreasing, 0));
            AllRefused(z, steps, def.key) && TryApplyDecrease(Run(z, steps), def.key, now).1.None?
  {
    hide EnsureStores, UpdateCapacity;
    var state := LimitState(def, Status.Decreasing, 0);
    InstallWellStored(b, state);
    InstalledState(b, state);
    var z := ApplyState(b, state);
    ZeroBlocks(z, steps, def.key);
    hide TryApplyDecrease;
    DecreaseTouchesOneState(Run(z, steps), def.key, now);
  }

  lemma InstalledState(b: Backend, state: LimitState)
    ensures state.definition.key in Install(b, state).states && Install(b, state).states[state.definition.key] == state
  {
    hide UpdateCapacity, EnsureStores;
    var c := b.(defs := b.defs[state.definition.key := state.definition],
        states := b.states[state.definition.key := state]);
    EnsureStoresAt(c, state.definition);
    UpdateCapacityAt(EnsureStores(c, state.definition), state.definition);
  }

  /** What the limit still holds at `now`: its live reservations, or its live holds. */
  ghost function LiveUsage(b: Backend, key: string, now: int): nat
    requires key in b.defs
  {
    if key in b.roll && b.defs[key].kind.Rolling? then R.Used(R.Purge(b.roll[key], now))
    else if key in b.conc && b.defs[key].kind.Concurrency? then |C.Purge(b.conc[key], now).holds|
    else 0
  }

  /** A pending decrease is applied exactly when its target is positive and below the current
      capacity and what the limit still holds fits it; then the target is the limit's capacity. */
  lemma DecreaseAppliesExactly(b: Backend, key: string, now: int)
    requires WithinLimits(b) && IsDecreasing(b.states, key)
    ensures key in b.defs
    ensures var target, d := b.states[key].pendingDecreaseTo, TryApplyDecrease(b, key, now);
            && (d.1.Some? <==>
                  0 < target < b.defs[key].capacity && !b.defs[key].kind.OtherKind? && LiveUsage(b, key, now) <= target)
            && (d.1.Some? ==>
                  && key in d.0.states && key in d.0.defs
                  && d.1.value == d.0.states[key] == LimitState(b.defs[key].(capacity := target), Active, 0)
                  && d.0.defs[key].capacity == target)
  {
    hide WithinLimits, PurgeKey, DecreaseApplied, R.Purge, C.Purge, R.Sum;
    DefinedHere(b, key);
    PurgeKeyAt(b, key, now);
    StoresInPlace(b);
    DecreaseTouchesOneState(b, key, now);
    PurgedCapacity(b, key, now);
  }

  lemma PurgedCapacity(b: Backend, key: string, now: int)
    ensures key in b.roll ==> R.Purge(b.roll[key], now).cap == b.roll[key].cap
    ensures key in b.conc ==> C.Purge(b.conc[key], now).cap == b.conc[key].cap
  {
  }

  lemma {:induction false} NothingIsZero(entries: map<nat, R.Entry>, n: nat)
    requires forall s :: s in entries ==> false
    ensures R.Sum(entries, n) == 0
  {
    if n > 0 {
      NothingIsZero(entries, n - 1);
    }
  }

  /** Once everything the limit holds has expired, one call applies any target strictly between zero
      and the current capacity. */
  lemma ExpiredDecreaseApplies(b: Backend, key: string, now: int)
    requires WithinLimits(b) && IsDecreasing(b.states, key) && key in b.defs && !b.defs[key].kind.OtherKind?
    requires 0 < b.states[key].pendingDecreaseTo < b.defs[key].capacity
    requires key in b.roll ==> forall s :: s in b.roll[key].entries ==> b.roll[key].entries[s].expiresAt <= now
    requires key in b.conc ==> forall id :: id in b.conc[key].holds ==> b.conc[key].holds[id] <= now
    ensures TryApplyDecrease(b, key, now).1 ==
              Some(LimitState(b.defs[key].(capacity := b.states[key].pendingDecreaseTo), Active, 0))
  {
    hide TryApplyDecrease;
    DecreaseAppliesExactly(b, key, now);
    if key in b.roll {
      NothingIsZero(R.Purge(b.roll[key], now).entries, b.roll[key].next);
    }
    if key in b.conc {
      assert ConcWithin(b, key);
      forall id | id in b.conc[key].holds
        ensures C.DueId(b.conc[key], id, now)
      {
        var s :| s in b.conc[key].entries && b.conc[key].entries[s] == C.Entry(id, b.conc[key].holds[id]);
      }
      assert C.Purge(b.conc[key], now).holds == map[];
    }
  }
}
