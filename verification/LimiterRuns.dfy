/** Whole runs of the backend: every reachable state is within every capacity. */
module LimiterRuns {
  import opened Limits
  import opened Limiter
  import opened LimiterFacts
  import R = RollingSpec
  import C = ConcurrencySpec

  datatype Step =
    | Reserving(req: ReserveRequest, now: int)
    | Completing(done: CompleteRequest)
    | Defining(def: Definition)
    | Decreasing(key: string, now: int)

  ghost function Next(b: Backend, step: Step): Backend {
    match step
    case Reserving(req, now) => Reserve(b, req, now).0
    case Completing(done) => Complete(b, done)
    case Defining(def) => ApplyDefinition(b, def)
    case Decreasing(key, now) => TryApplyDecrease(b, key, now).0
  }

  /** Requests name each limit at most once, and a limit keeps its kind when it is raised. */
  ghost predicate Legal(b: Backend, step: Step) {
    match step
    case Reserving(req, now) => DistinctKeys(req.requirements)
    case Completing(done) => true
    case Defining(def) =>
      def.key in b.defs && def.capacity >= b.defs[def.key].capacity ==> def.kind == b.defs[def.key].kind
    case Decreasing(key, now) => true
  }

  ghost predicate RollFits(st: R.Store, def: Definition) {
    def.kind.Rolling? && R.WellFormed(st) && R.Used(st) <= st.cap == def.capacity
  }

  ghost predicate RollWithin(b: Backend, k: string) {
    k in b.roll && k in b.defs && RollFits(b.roll[k], b.defs[k])
  }

  /** Every hold is backed by a heap entry with its id and expiry. */
  ghost predicate Backed(st: C.Store) {
    forall id :: id in st.holds ==> exists s :: s in st.entries && st.entries[s] == C.Entry(id, st.holds[id])
  }

  ghost predicate ConcFits(st: C.Store, def: Definition) {
    def.kind.Concurrency? && C.WellFormed(st) && Backed(st) && |st.holds| <= st.cap == def.capacity
  }

  ghost predicate ConcWithin(b: Backend, k: string) {
    k in b.conc && k in b.defs && ConcFits(b.conc[k], b.defs[k])
  }

  ghost predicate WithinLimits(b: Backend) {
    && StatesMatch(b.defs, b.states) && StoresExist(b.defs, b.roll, b.conc)
    && (forall k :: k in b.roll ==> RollWithin(b, k))
    && (forall k :: k in b.conc ==> ConcWithin(b, k))
  }

  lemma SubmapSize(a: map<string, int>, b: map<string, int>)
    requires a.Keys <= b.Keys
    ensures |a| <= |b|
  {
    SubsetSize(a.Keys, b.Keys);
  }

  lemma {:induction false} SubsetSize(a: set<string>, b: set<string>)
    requires a <= b
    ensures |a| <= |b|
  {
    if a != {} {
      var x :| x in a;
      SubsetSize(a - {x}, b - {x});
    }
  }

  lemma ConcurrencyPurgeKeeps(st: C.Store, now: int)
    requires C.WellFormed(st) && Backed(st)
    ensures C.WellFormed(C.Purge(st, now)) && Backed(C.Purge(st, now))
    ensures |C.Purge(st, now).holds| <= |st.holds|
  {
    var p := C.Purge(st, now);
    SubmapSize(p.holds, st.holds);
    forall id | id in p.holds
      ensures exists s :: s in p.entries && p.entries[s] == C.Entry(id, p.holds[id])
    {
      var s :| s in st.entries && st.entries[s] == C.Entry(id, st.holds[id]);
      assert s in p.entries;
    }
  }

  lemma ConcurrencyAddKeeps(st: C.Store, id: string, expiresAt: int)
    requires C.WellFormed(st) && Backed(st)
    ensures C.WellFormed(C.Add(st, id, expiresAt)) && Backed(C.Add(st, id, expiresAt))
    ensures |C.Add(st, id, expiresAt).holds| <= |st.holds| + 1
  {
    var a := C.Add(st, id, expiresAt);
    forall x | x in a.holds
      ensures exists s :: s in a.entries && a.entries[s] == C.Entry(x, a.holds[x])
    {
      if x == id {
        assert st.next in a.entries;
      } else {
        var s :| s in st.entries && st.entries[s] == C.Entry(x, st.holds[x]);
        assert s in a.entries;
      }
    }
  }

  lemma ConcurrencyReleaseKeeps(st: C.Store, id: string)
    requires C.WellFormed(st) && Backed(st)
    ensures C.WellFormed(C.Release(st, id)) && Backed(C.Release(st, id))
    ensures |C.Release(st, id).holds| <= |st.holds|
  {
    SubmapSize(C.Release(st, id).holds, st.holds);
  }

  lemma ReleaseFits(st: C.Store, id: string, def: Definition)
    requires ConcFits(st, def)
    ensures ConcFits(C.Release(st, id), def)
  {
    hide C.WellFormed, Backed;
    ConcurrencyReleaseKeeps(st, id);
  }

  // ---- Reserve ----

  lemma RollFitsPurge(st: R.Store, def: Definition, now: int)
    requires RollFits(st, def)
    ensures RollFits(R.Purge(st, now), def)
  {
    R.PurgeWellFormed(st, now);
  }

  lemma ConcFitsPurge(st: C.Store, def: Definition, now: int)
    requires ConcFits(st, def)
    ensures ConcFits(C.Purge(st, now), def)
  {
    ConcurrencyPurgeKeeps(st, now);
  }

  lemma PurgeAllKeeps(b: Backend, reqs: seq<Requirement>, now: int, n: nat)
    requires n <= |reqs| && WithinLimits(b)
    ensures WithinLimits(PurgeAll(b, reqs, now, n))
  {
    hide StatesMatch, RollFits, ConcFits, R.Purge, C.Purge, PurgeAll;
    var p := PurgeAll(b, reqs, now, n);
    PurgeAllOutside(b, reqs, now, n);
    forall k | k in p.roll
      ensures RollWithin(p, k)
    {
      assert RollWithin(b, k);
      PurgeAllAtRolling(b, reqs, now, n, k);
      RollFitsPurge(b.roll[k], b.defs[k], now);
    }
    forall k | k in p.conc
      ensures ConcWithin(p, k)
    {
      assert ConcWithin(b, k);
      PurgeAllAtConcurrency(b, reqs, now, n, k);
      ConcFitsPurge(b.conc[k], b.defs[k], now);
    }
  }

  lemma RollFitsAdd(st: R.Store, def: Definition, id: string, amount: nat, expiresAt: int)
    requires RollFits(st, def) && R.Used(st) + amount <= st.cap
    ensures RollFits(R.Add(st, id, amount, expiresAt), def)
  {
    R.AddWellFormed(st, id, amount, expiresAt);
  }

  lemma ConcFitsAdd(st: C.Store, def: Definition, id: string, expiresAt: int)
    requires ConcFits(st, def) && |st.holds| + 1 <= st.cap
    ensures ConcFits(C.Add(st, id, expiresAt), def)
  {
    ConcurrencyAddKeeps(st, id, expiresAt);
  }

  lemma CommitAllKeepsRolling(b: Backend, leaseID: string, reqs: seq<Requirement>, now: int, k: string)
    requires RollWithin(b, k) && DistinctKeys(reqs)
    requires forall i :: 0 <= i < |reqs| ==> !Full(b, reqs[i])
    ensures RollWithin(CommitAll(b, leaseID, reqs, now, |reqs|), k)
  {
    hide CommitAll, R.Add, R.Sum, R.WellFormed;
    var n := |reqs|;
    CommitAllOutside(b, leaseID, reqs, now, n);
    if Mentions(reqs, n, k) {
      var i :| 0 <= i < n && reqs[i].key == k;
      CommitAllAtRolling(b, leaseID, reqs, now, n, i);
      assert !Full(b, reqs[i]);
      RollFitsAdd(b.roll[k], b.defs[k], leaseID, reqs[i].amount, now + b.defs[k].windowSeconds * SECOND);
    } else {
      CommitAllUnmentioned(b, leaseID, reqs, now, n, k);
    }
  }

  lemma CommitAllKeepsConcurrency(b: Backend, leaseID: string, reqs: seq<Requirement>, now: int, k: string)
    requires ConcWithin(b, k) && DistinctKeys(reqs)
    requires forall i :: 0 <= i < |reqs| ==> !Full(b, reqs[i])
    ensures ConcWithin(CommitAll(b, leaseID, reqs, now, |reqs|), k)
  {
    hide CommitAll, C.Add, C.WellFormed, Backed;
    var n := |reqs|;
    CommitAllOutside(b, leaseID, reqs, now, n);
    if Mentions(reqs, n, k) {
      var i :| 0 <= i < n && reqs[i].key == k;
      CommitAllAtConcurrency(b, leaseID, reqs, now, n, i);
      assert !Full(b, reqs[i]);
      ConcFitsAdd(b.conc[k], b.defs[k], leaseID, now + b.defs[k].timeoutSeconds * SECOND);
    } else {
      CommitAllUnmentioned(b, leaseID, reqs, now, n, k);
    }
  }

  /** A request no limit is too full for keeps every limit within its capacity. */
  lemma CommitAllKeeps(b: Backend, leaseID: string, reqs: seq<Requirement>, now: int)
    requires WithinLimits(b) && DistinctKeys(reqs)
    requires forall i :: 0 <= i < |reqs| ==> !Full(b, reqs[i])
    ensures WithinLimits(CommitAll(b, leaseID, reqs, now, |reqs|))
  {
    hide StatesMatch, RollWithin, ConcWithin, CommitAll, Full;
    CommitAllOutside(b, leaseID, reqs, now, |reqs|);
    forall k | k in b.roll
      ensures RollWithin(CommitAll(b, leaseID, reqs, now, |reqs|), k)
    {
      CommitAllKeepsRolling(b, leaseID, reqs, now, k);
    }
    forall k | k in b.conc
      ensures ConcWithin(CommitAll(b, leaseID, reqs, now, |reqs|), k)
    {
      CommitAllKeepsConcurrency(b, leaseID, reqs, now, k);
    }
  }

  lemma ReserveKeeps(b: Backend, req: ReserveRequest, now: int)
    requires WithinLimits(b) && DistinctKeys(req.requirements)
    ensures WithinLimits(Reserve(b, req, now).0)
  {
    hide PurgeAll, CommitAll, Full, IndexByKey;
    if EarlyReply(b.defs, b.states, b.leases, req).None? {
      var reqs := req.requirements;
      var p := PurgeAll(b, reqs, now, |reqs|);
      PurgeAllKeeps(b, reqs, now, |reqs|);
      if MaxRetry(p, reqs, |reqs|) == 0 {
        CommitAllKeeps(p, req.leaseID, reqs, now);
      }
    }
  }

  // ---- Complete ----

  lemma ReleaseAllKeeps(b: Backend, leaseID: string, reqs: seq<Requirement>)
    requires WithinLimits(b)
    ensures WithinLimits(ReleaseAll(b, leaseID, reqs, |reqs|))
  {
    hide StatesMatch, ReleaseAll, RollFits, ConcFits;
    var r := ReleaseAll(b, leaseID, reqs, |reqs|);
    ReleaseAllOutside(b, leaseID, reqs, |reqs|);
    forall k | k in r.roll
      ensures RollWithin(r, k)
    {
      assert RollWithin(b, k);
    }
    forall k | k in r.conc
      ensures ConcWithin(r, k)
    {
      assert ConcWithin(b, k);
      ReleaseAllAt(b, leaseID, reqs, |reqs|, k);
      ReleaseFits(b.conc[k], leaseID, b.defs[k]);
    }
  }

  lemma ReconcileOneKeeps(b: Backend, leaseID: string, reserved: map<string, nat>, a: Actual)
    requires WithinLimits(b)
    ensures WithinLimits(ReconcileOne(b, leaseID, reserved, a))
  {
    hide StatesMatch, R.Sum, R.Reduce, R.WellFormed;
    var r := ReconcileOne(b, leaseID, reserved, a);
    forall k | k in r.roll
      ensures RollWithin(r, k)
    {
      assert RollWithin(b, k);
      ReduceKeepsCapacity(b.roll[k], leaseID, a.actualAmount);
    }
    forall k | k in r.conc
      ensures ConcWithin(r, k)
    {
      assert ConcWithin(b, k);
    }
  }

  lemma ReduceKeepsCapacity(st: R.Store, id: string, amount: nat)
    requires R.WellFormed(st)
    ensures R.WellFormed(R.Reduce(st, id, amount))
    ensures R.Reduce(st, id, amount).cap == st.cap && R.Reduce(st, id, amount).next == st.next
    ensures R.Used(R.Reduce(st, id, amount)) <= R.Used(st)
  {
    R.ReduceUsed(st, id, amount);
  }

  lemma {:induction false} ReconcileAllKeeps(b: Backend, leaseID: string, reserved: map<string, nat>,
          actuals: seq<Actual>, n: nat)
    requires n <= |actuals| && WithinLimits(b)
    ensures WithinLimits(ReconcileAll(b, leaseID, reserved, actuals, n))
  {
    hide WithinLimits, ReconcileOne;
    if n > 0 {
      ReconcileAllKeeps(b, leaseID, reserved, actuals, n - 1);
      ReconcileOneKeeps(ReconcileAll(b, leaseID, reserved, actuals, n - 1), leaseID, reserved, actuals[n - 1]);
    }
  }

  lemma CompleteKeeps(b: Backend, req: CompleteRequest)
    requires WithinLimits(b)
    ensures WithinLimits(Complete(b, req))
  {
    hide ReleaseAll, ReconcileAll;
    if req.leaseID in b.leases {
      var lease := b.leases[req.leaseID];
      ReleaseAllKeeps(b, req.leaseID, lease.requirements);
      var r := ReleaseAll(b, req.leaseID, lease.requirements, |lease.requirements|);
      ReconcileAllKeeps(r, req.leaseID, lease.reservedAmounts, req.actuals, |req.actuals|);
      var c := ReconcileAll(r, req.leaseID, lease.reservedAmounts, req.actuals, |req.actuals|);
      LeasesDoNotMatter(c, c.leases - {req.leaseID});
    }
  }

  lemma LeasesDoNotMatter(b: Backend, leases: map<string, Lease>)
    requires WithinLimits(b)
    ensures WithinLimits(b.(leases := leases))
  {
    hide StatesMatch, StoresExist, R.WellFormed, C.WellFormed, Backed;
    var c := b.(leases := leases);
    forall k | k in c.roll
      ensures RollWithin(c, k)
    {
      assert RollWithin(b, k);
    }
    forall k | k in c.conc
      ensures ConcWithin(c, k)
    {
      assert ConcWithin(b, k);
    }
  }

  // ---- Definitions ----

  /** Installing a state makes its store if it is new, and then sets the capacity. */
  lemma InstallIsTwoSteps(b: Backend, state: LimitState)
    ensures var def, i := state.definition, Install(b, state);
            var roll := if def.kind.Rolling? && def.key !in b.roll then b.roll[def.key := R.Empty(def.capacity)]
                        else b.roll;
            var conc := if def.kind.Concurrency? && def.key !in b.conc then b.conc[def.key := C.Empty(def.capacity)]
                        else b.conc;
            && i.defs == b.defs[def.key := def] && i.states == b.states[def.key := state]
            && i.debt == b.debt && i.leases == b.leases
            && i.roll == (if def.kind.Rolling? then roll[def.key := roll[def.key].(cap := def.capacity)] else roll)
            && i.conc == (if def.kind.Concurrency? then conc[def.key := conc[def.key].(cap := def.capacity)] else conc)
  {
    hide EnsureStores, R.Empty, C.Empty;
    var def := state.definition;
    EnsureStoresAt(b.(defs := b.defs[def.key := def], states := b.states[def.key := state]), def);
    match def.kind
    case Rolling =>
    case Concurrency =>
    case OtherKind =>
  }

  /** What installing a state leaves of one rolling store. */
  lemma InstalledRolling(b: Backend, state: LimitState, k: string)
    requires k in Install(b, state).roll
    ensures var def, i := state.definition, Install(b, state);
            && i.defs == b.defs[def.key := def]
            && if k == def.key && def.kind.Rolling? then
                 i.roll[k] == (if k in b.roll then b.roll[k] else R.Empty(def.capacity)).(cap := def.capacity)
               else k in b.roll && i.roll[k] == b.roll[k]
  {
    hide Install, R.Empty, C.Empty;
    InstallIsTwoSteps(b, state);
  }

  lemma InstallKeepsRolling(b: Backend, state: LimitState, k: string)
    requires k in b.roll ==> RollWithin(b, k)
    requires k == state.definition.key && k in b.roll ==>
               state.definition.kind.Rolling? && state.definition.capacity >= b.defs[k].capacity
    requires k in Install(b, state).roll
    ensures RollWithin(Install(b, state), k)
  {
    hide Install, R.WellFormed, R.Used;
    var capacity := state.definition.capacity;
    InstalledRolling(b, state, k);
    CapacityKeepsRollStore(if k in b.roll then b.roll[k] else R.Empty(capacity), capacity);
  }

  lemma CapacityKeepsRollStore(st: R.Store, capacity: nat)
    ensures R.WellFormed(st) <==> R.WellFormed(st.(cap := capacity))
    ensures R.WellFormed(R.Empty(capacity)) && R.Used(R.Empty(capacity)) == 0
    ensures R.Used(st.(cap := capacity)) == R.Used(st)
  {
  }

  /** What installing a state leaves of one concurrency store. */
  lemma InstalledConcurrency(b: Backend, state: LimitState, k: string)
    requires k in Install(b, state).conc
    ensures var def, i := state.definition, Install(b, state);
            && i.defs == b.defs[def.key := def]
            && if k == def.key && def.kind.Concurrency? then
                 i.conc[k] == (if k in b.conc then b.conc[k] else C.Empty(def.capacity)).(cap := def.capacity)
               else k in b.conc && i.conc[k] == b.conc[k]
  {
    hide Install, R.Empty, C.Empty;
    InstallIsTwoSteps(b, state);
  }

  lemma InstallKeepsConcurrency(b: Backend, state: LimitState, k: string)
    requires k in b.conc ==> ConcWithin(b, k)
    requires k == state.definition.key && k in b.conc ==>
               state.definition.kind.Concurrency? && state.definition.capacity >= b.defs[k].capacity
    requires k in Install(b, state).conc
    ensures ConcWithin(Install(b, state), k)
  {
    hide Install, Backed, C.WellFormed;
    var capacity := state.definition.capacity;
    InstalledConcurrency(b, state, k);
    CapacityKeepsConcStore(if k in b.conc then b.conc[k] else C.Empty(capacity), capacity);
    CapacityDoesNotBack(if k in b.conc then b.conc[k] else C.Empty(capacity), capacity);
    EmptyIsBacked(capacity);
  }

  lemma CapacityKeepsConcStore(st: C.Store, capacity: nat)
    ensures C.WellFormed(st) <==> C.WellFormed(st.(cap := capacity))
    ensures C.WellFormed(C.Empty(capacity))
  {
  }

  lemma CapacityDoesNotBack(st: C.Store, capacity: nat)
    ensures Backed(st) <==> Backed(st.(cap := capacity))
  {
  }

  /** A new limit starts empty, and a raised one keeps what it holds. */
  lemma InstallKeeps(b: Backend, state: LimitState)
    requires WithinLimits(b)
    requires state.definition.key in b.defs ==>
               && state.definition.kind == b.defs[state.definition.key].kind
               && state.definition.capacity >= b.defs[state.definition.key].capacity
    ensures WithinLimits(Install(b, state))
  {
    hide StatesMatch, StoresExist, Install, RollFits, ConcFits;
    InstallWellStored(b, state);
    KindsInPlace(b);
    forall k | k in Install(b, state).roll
      ensures RollWithin(Install(b, state), k)
    {
      InstallKeepsRolling(b, state, k);
    }
    forall k | k in Install(b, state).conc
      ensures ConcWithin(Install(b, state), k)
    {
      InstallKeepsConcurrency(b, state, k);
    }
  }

  lemma KindsInPlace(b: Backend)
    requires WithinLimits(b)
    ensures forall k :: k in b.roll ==> k in b.defs && b.defs[k].kind.Rolling?
    ensures forall k :: k in b.conc ==> k in b.defs && b.defs[k].kind.Concurrency?
  {
    assert forall k :: k in b.roll ==> RollWithin(b, k);
    assert forall k :: k in b.conc ==> ConcWithin(b, k);
  }

  lemma EmptyIsBacked(capacity: nat)
    ensures Backed(C.Empty(capacity))
  {
  }

  lemma ApplyDefinitionKeeps(b: Backend, def: Definition)
    requires WithinLimits(b) && Legal(b, Defining(def))
    ensures WithinLimits(ApplyDefinition(b, def))
  {
    hide Install;
    if def.key !in b.defs || def.capacity >= b.defs[def.key].capacity {
      InstallKeeps(b, LimitState(def, Active, 0));
    } else {
      StatesDoNotMatter(b, b.states[def.key := LimitState(b.defs[def.key], Status.Decreasing, def.capacity)]);
    }
  }

  lemma StatesDoNotMatter(b: Backend, states: map<string, LimitState>)
    requires WithinLimits(b) && StatesMatch(b.defs, states)
    ensures WithinLimits(b.(states := states))
  {
    hide StatesMatch, StoresExist, R.WellFormed, C.WellFormed, Backed;
    var c := b.(states := states);
    forall k | k in c.roll
      ensures RollWithin(c, k)
    {
      assert RollWithin(b, k);
    }
    forall k | k in c.conc
      ensures ConcWithin(c, k)
    {
      assert ConcWithin(b, k);
    }
  }

  lemma PurgeKeyIsPurgeAll(b: Backend, key: string, now: int)
    ensures PurgeKey(b, key, now) == PurgeAll(b, [Requirement(key, 0)], now, 1)
  {
    hide PurgeKey;
    assert PurgeAll(b, [Requirement(key, 0)], now, 0) == b;
  }

  /** A decrease is applied only when what the limit holds fits the new capacity. */
  lemma TryApplyDecreaseKeeps(b: Backend, key: string, now: int)
    requires WithinLimits(b)
    ensures WithinLimits(TryApplyDecrease(b, key, now).0)
  {
    hide PurgeKey, DecreaseApplied, AvailableCapacity, StatesMatch, StoresExist, RollWithin, ConcWithin;
    if PendingDecrease(b.states, key).Some? {
      var p := PurgeKey(b, key, now);
      PurgeKeyIsPurgeAll(b, key, now);
      PurgeAllKeeps(b, [Requirement(key, 0)], now, 1);
      PurgeKeyAt(b, key, now);
      if AvailableCapacity(p, key,
          p.states[key].definition) >= p.states[key].definition.capacity - p.states[key].pendingDecreaseTo {
        DecreaseAppliedKeeps(p, key);
      }
    }
  }

  lemma DecreaseAppliedKeeps(b: Backend, key: string)
    requires WithinLimits(b) && key in b.states
    requires 0 < b.states[key].pendingDecreaseTo < b.states[key].definition.capacity
    requires AvailableCapacity(b, key, b.states[key].definition) >=
               b.states[key].definition.capacity - b.states[key].pendingDecreaseTo
    ensures WithinLimits(DecreaseApplied(b, key))
  {
    hide StoresExist, RollFits, ConcFits, Backed, R.Sum;
    var c := DecreaseApplied(b, key);
    DecreaseWellStored(b, key);
    forall k | k in c.roll
      ensures RollWithin(c, k)
    {
      assert RollWithin(b, k);
      if k == key {
        RollFitsDecrease(b.roll[k], b.defs[k], b.states[key].pendingDecreaseTo);
      }
    }
    forall k | k in c.conc
      ensures ConcWithin(c, k)
    {
      assert ConcWithin(b, k);
      if k == key {
        ConcFitsDecrease(b.conc[k], b.defs[k], b.states[key].pendingDecreaseTo);
      }
    }
  }

  lemma RollFitsDecrease(st: R.Store, def: Definition, target: nat)
    requires RollFits(st, def)
    ensures def.kind.Rolling? && st.cap == def.capacity
    ensures R.Used(st) <= target ==> RollFits(st.(cap := target), def.(capacity := target))
  {
  }

  lemma ConcFitsDecrease(st: C.Store, def: Definition, target: nat)
    requires ConcFits(st, def)
    ensures def.kind.Concurrency? && st.cap == def.capacity
    ensures |st.holds| <= target ==> ConcFits(st.(cap := target), def.(capacity := target))
  {
    CapacityDoesNotBack(st, target);
  }

  // ---- Runs ----

  lemma NextKeeps(b: Backend, step: Step)
    requires WithinLimits(b) && Legal(b, step)
    ensures WithinLimits(Next(b, step))
  {
    hide WithinLimits;
    match step
    case Reserving(req, now) => ReserveKeeps(b, req, now);
    case Completing(done) => CompleteKeeps(b, done);
    case Defining(def) => ApplyDefinitionKeeps(b, def);
    case Decreasing(key, now) => TryApplyDecreaseKeeps(b, key, now);
  }

  ghost function Run(b: Backend, steps: seq<Step>): Backend
    decreases |steps|
  {
    if steps == [] then b else Run(Next(b, steps[0]), steps[1..])
  }

  ghost predicate LegalRun(b: Backend, steps: seq<Step>)
    decreases |steps|
  {
    steps != [] ==> Legal(b, steps[0]) && LegalRun(Next(b, steps[0]), steps[1..])
  }

  /** However a run mixes grants, completions, raises and decreases, what each limit holds never
      exceeds its capacity, which is the capacity of its definition. */
  lemma {:induction false} RunKeeps(b: Backend, steps: seq<Step>)
    requires WithinLimits(b) && LegalRun(b, steps)
    ensures WithinLimits(Run(b, steps))
    decreases |steps|
  {
    hide WithinLimits, Legal, Next;
    if steps != [] {
      NextKeeps(b, steps[0]);
      RunKeeps(Next(b, steps[0]), steps[1..]);
    }
  }

  lemma EmptyIsWithin()
    ensures WithinLimits(EMPTY)
  {
  }
}
