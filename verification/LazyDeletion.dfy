/** Releasing a hold leaves its heap entry behind; what that can and cannot do. */
module LazyDeletion {
  import opened LimiterRuns
  import opened LedgerRefinement
  import opened LedgerStores
  import opened Decreases
  import opened Limits
  import opened Limiter
  import opened LimiterFacts
  import G = Ledger
  import R = RollingSpec
  import C = ConcurrencySpec

  /** No expired hold survives a purge. */
  lemma NoExpiredHoldSurvives(st: C.Store, now: int)
    requires Backed(st)
    ensures forall id :: id in C.Purge(st, now).holds ==> st.holds[id] > now
  {
  }

  /** While lease ids are granted once, a purge drops exactly the holds that have expired: entries
      left behind by released holds never evict a live one. */
  lemma PurgeDropsExactlyTheExpired(st: C.Store, hs: seq<G.Hold>, clock: int, now: int, id: string)
    requires ConcRel(st, hs, clock) && id in st.holds
    ensures id in C.Purge(st, now).holds <==> st.holds[id] > now
  {
    var s :| s in st.entries && hs[s].lease == id && !hs[s].released && hs[s].expiresAt == st.holds[id];
    if st.holds[id] > now {
      NotDue(st, hs, clock, now, s);
    } else {
      assert st.entries[s].id == id && st.entries[s].expiresAt <= now;
    }
  }

  // ---- What grants and completions do to a store ----

  /** The hold of `id` outlives every purge in the time given. */
  ghost predicate Survives(st: C.Store, id: string, from: int, until: int) {
    forall now :: from <= now < until ==> id in C.Purge(st, now).holds
  }

  /** In a store, a new hold survives every purge before its expiry exactly when no entry that an earlier
      grant of its id left behind expires before it. */
  lemma RegrantSurvivesExactly(st: C.Store, id: string, purgedAt: int, expiresAt: int)
    requires C.WellFormed(st) && forall s :: s in st.entries ==> st.entries[s].expiresAt > purgedAt
    ensures Survives(C.Add(st, id, expiresAt), id, purgedAt, expiresAt) <==>
            forall s :: s in st.entries && st.entries[s].id == id ==> st.entries[s].expiresAt >= expiresAt
  {
    var again := C.Add(st, id, expiresAt);
    if s :| s in st.entries && st.entries[s].id == id && st.entries[s].expiresAt < expiresAt {
      var now := st.entries[s].expiresAt;
      assert s in again.entries && again.entries[s] == st.entries[s];
      assert id !in C.Purge(again, now).holds;
    } else {
      forall now | purgedAt <= now < expiresAt
        ensures !C.DueId(again, id, now)
      {
      }
    }
  }

  predicate Names(reqs: seq<Requirement>, key: string) {
    Mentions(reqs, |reqs|, key)
  }

  lemma StoreHere(b: Backend, key: string)
    requires WithinLimits(b) && key in b.defs && b.defs[key].kind.Concurrency?
    ensures key in b.conc
  {
  }

  /** A granted request purges the concurrency limits it names and adds a hold to each. */
  lemma GrantAt(b: Backend, req: ReserveRequest, now: int, key: string)
    requires WithinLimits(b) && DistinctKeys(req.requirements) && Names(req.requirements, key)
    requires key in b.defs && b.defs[key].kind.Concurrency?
    requires req.leaseID !in b.leases && Reserve(b, req, now).1.allowed
    ensures var g := Reserve(b, req, now).0;
            && WithinLimits(g) && g.defs == b.defs && key in b.conc && key in g.conc
            && req.leaseID in g.leases && g.leases[req.leaseID].requirements == req.requirements
            && g.conc[key] == C.Add(C.Purge(b.conc[key], now), req.leaseID, now + b.defs[key].timeoutSeconds * SECOND)
  {
    hide WithinLimits, PurgeAll, CommitAll, MaxRetry, FirstDecreasing, FirstUnknown, IndexByKey, C.Purge, C.Add;
    StoreHere(b, key);
    var reqs, n := req.requirements, |req.requirements|;
    var i :| 0 <= i < n && reqs[i].key == key;
    ReserveKeeps(b, req, now);
    PurgeAllOutside(b, reqs, now, n);
    PurgeAllAtConcurrency(b, reqs, now, n, key);
    CommitAllOutside(PurgeAll(b, reqs, now, n), req.leaseID, reqs, now, n);
    CommitAllAtConcurrency(PurgeAll(b, reqs, now, n), req.leaseID, reqs, now, n, i);
  }

  /** Its completion only releases the hold. */
  lemma CompletionAt(b: Backend, done: CompleteRequest, key: string)
    requires WithinLimits(b) && done.leaseID in b.leases && Names(b.leases[done.leaseID].requirements, key)
    requires key in b.defs && b.defs[key].kind.Concurrency?
    ensures var c := Complete(b, done);
            && WithinLimits(c) && c.defs == b.defs && done.leaseID !in c.leases
            && key in b.conc && key in c.conc && c.conc[key] == C.Release(b.conc[key], done.leaseID)
  {
    hide ReleaseAll, ReconcileAll, RollFits, ConcFits, C.Release, StatesMatch;
    var lease := b.leases[done.leaseID];
    CompleteKeeps(b, done);
    ReleaseAllOutside(b, done.leaseID, lease.requirements, |lease.requirements|);
    ReleaseAllAt(b, done.leaseID, lease.requirements, |lease.requirements|, key);
    ReconcileLeavesHolds(ReleaseAll(b, done.leaseID, lease.requirements, |lease.requirements|), done.leaseID,
        lease.reservedAmounts, done.actuals, |done.actuals|);
  }

  lemma {:induction false} ReconcileLeavesHolds(b: Backend, id: string, reserved: map<string, nat>,
          actuals: seq<Actual>, n: nat)
    requires n <= |actuals|
    ensures ReconcileAll(b, id, reserved, actuals, n).conc == b.conc
    ensures ReconcileAll(b, id, reserved, actuals, n).defs == b.defs
  {
    if n > 0 {
      ReconcileLeavesHolds(b, id, reserved, actuals, n - 1);
    }
  }

  lemma StoreIsWellFormed(b: Backend, key: string)
    requires WithinLimits(b) && key in b.conc
    ensures C.WellFormed(b.conc[key])
  {
    assert ConcWithin(b, key);
  }

  // ---- The entry a grant leaves behind ----

  /** The only entry of `id` expires at `e`, and it is there unless it was due by the clock. */
  ghost predicate Tracks(st: C.Store, id: string, e: int, clock: int) {
    && (forall s :: s in st.entries && st.entries[s].id == id ==> st.entries[s].expiresAt == e)
    && (e > clock ==> exists s :: s in st.entries && st.entries[s] == C.Entry(id, e))
  }

  lemma PurgeTracks(st: C.Store, id: string, e: int, clock: int, now: int)
    requires Tracks(st, id, e, clock) && clock <= now
    ensures Tracks(C.Purge(st, now), id, e, now) && Tracks(st, id, e, now)
  {
    if e > now {
      var s :| s in st.entries && st.entries[s] == C.Entry(id, e);
      assert s in C.Purge(st, now).entries;
    }
  }

  lemma AddTracks(st: C.Store, id: string, e: int, clock: int, other: string, expiresAt: int)
    requires C.WellFormed(st)
    ensures Tracks(st, id, e, clock) && other != id ==> Tracks(C.Add(st, other, expiresAt), id, e, clock)
    ensures (forall s :: s in st.entries ==> st.entries[s].id != other) ==>
            Tracks(C.Add(st, other, expiresAt), other, expiresAt, clock)
  {
    var a := C.Add(st, other, expiresAt);
    assert a.entries[st.next] == C.Entry(other, expiresAt);
    forall s | s in st.entries
      ensures s in a.entries && a.entries[s] == st.entries[s]
    {
    }
  }

  /** The limit is still a concurrency limit, and the entry is still there. */
  ghost predicate Tracked(b: Backend, key: string, id: string, e: int, clock: int) {
    && key in b.defs && b.defs[key].kind.Concurrency? && key in b.conc && Tracks(b.conc[key], id, e, clock)
  }

  /** Requests of other leases, and this one's retries while it is open. */
  ghost predicate Quiet(b: Backend, clock: int, step: Step, id: string) {
    && Legal(b, step) && clock <= ClockAfter(clock, step)
    && (step.Reserving? && step.req.leaseID == id ==> id in b.leases)
  }

  lemma PurgeAllTracks(b: Backend, clock: int, reqs: seq<Requirement>, now: int, key: string, id: string, e: int)
    requires Tracked(b, key, id, e, clock) && clock <= now
    ensures Tracked(PurgeAll(b, reqs, now, |reqs|), key, id, e, now) && Tracked(b, key, id, e, now)
  {
    hide PurgeAll, C.Purge, Tracks;
    PurgeAllOutside(b, reqs, now, |reqs|);
    PurgeAllAtConcurrency(b, reqs, now, |reqs|, key);
    PurgeTracks(b.conc[key], id, e, clock, now);
  }

  lemma CommitTracks(b: Backend, req: ReserveRequest, now: int, key: string, id: string, e: int)
    requires WithinLimits(b) && DistinctKeys(req.requirements) && req.leaseID != id
    requires Tracked(b, key, id, e, now)
    ensures Tracked(Commit(b, req, now), key, id, e, now)
  {
    hide WithinLimits, CommitAll, IndexByKey, C.Add, Tracks;
    var reqs, n := req.requirements, |req.requirements|;
    StoreIsWellFormed(b, key);
    CommitAllOutside(b, req.leaseID, reqs, now, n);
    if i :| 0 <= i < n && reqs[i].key == key {
      CommitAllAtConcurrency(b, req.leaseID, reqs, now, n, i);
      AddTracks(b.conc[key], id, e, now, req.leaseID, now + b.defs[key].timeoutSeconds * SECOND);
    } else {
      CommitAllUnmentioned(b, req.leaseID, reqs, now, n, key);
    }
  }

  lemma ReserveTracks(b: Backend, clock: int, req: ReserveRequest, now: int, key: string, id: string, e: int)
    requires WithinLimits(b) && Tracked(b, key, id, e, clock) && Quiet(b, clock, Reserving(req, now), id)
    ensures Tracked(Reserve(b, req, now).0, key, id, e, now)
  {
    hide WithinLimits, PurgeAll, Commit, MaxRetry, RequirementsEqual, FirstDecreasing, FirstUnknown, Tracked;
    var reqs := req.requirements;
    PurgeAllTracks(b, clock, reqs, now, key, id, e);
    PurgeAllKeeps(b, reqs, now, |reqs|);
    if req.leaseID != id {
      CommitTracks(PurgeAll(b, reqs, now, |reqs|), req, now, key, id, e);
    }
  }

  lemma CompleteTracks(b: Backend, clock: int, done: CompleteRequest, key: string, id: string, e: int)
    requires Tracked(b, key, id, e, clock)
    ensures Tracked(Complete(b, done), key, id, e, clock)
  {
    hide ReleaseAll, ReconcileAll;
    if done.leaseID in b.leases {
      var lease := b.leases[done.leaseID];
      var r := ReleaseAll(b, done.leaseID, lease.requirements, |lease.requirements|);
      ReleaseAllOutside(b, done.leaseID, lease.requirements, |lease.requirements|);
      ReleaseAllAt(b, done.leaseID, lease.requirements, |lease.requirements|, key);
      ReconcileLeavesHolds(r, done.leaseID, lease.reservedAmounts, done.actuals, |done.actuals|);
    }
  }

  lemma DefineTracks(b: Backend, clock: int, def: Definition, key: string, id: string, e: int)
    requires Tracked(b, key, id, e, clock) && Legal(b, Defining(def))
    ensures Tracked(ApplyDefinition(b, def), key, id, e, clock)
  {
    hide Install, Tracks;
    if def.key !in b.defs || def.capacity >= b.defs[def.key].capacity {
      InstalledKeepsStores(b, LimitState(def, Active, 0), key);
      InstalledConcurrency(b, LimitState(def, Active, 0), key);
      CapacityTracks(b.conc[key], id, e, clock, def.capacity);
    }
  }

  lemma InstalledKeepsStores(b: Backend, state: LimitState, key: string)
    requires key in b.conc
    ensures key in Install(b, state).conc
  {
    hide R.Empty, C.Empty;
  }

  lemma CapacityTracks(st: C.Store, id: string, e: int, clock: int, capacity: nat)
    ensures Tracks(st.(cap := capacity), id, e, clock) <==> Tracks(st, id, e, clock)
  {
  }

  lemma DecreaseTracks(b: Backend, clock: int, k: string, now: int, key: string, id: string, e: int)
    requires StatesMatch(b.defs, b.states) && Tracked(b, key, id, e, clock) && clock <= now
    ensures Tracked(TryApplyDecrease(b, k, now).0, key, id, e, now)
  {
    hide PurgeKey, AvailableCapacity, UpdateCapacity, Tracks;
    var p := PurgeKey(b, k, now);
    PurgeKeyAt(b, k, now);
    PurgeTracks(b.conc[key], id, e, clock, now);
    if PendingDecrease(b.states, k).Some? {
      var state := LimitState(b.states[k].definition.(capacity := b.states[k].pendingDecreaseTo), Active, 0);
      var d := p.(states := b.states[k := state], defs := b.defs[k := state.definition]);
      UpdateCapacityAt(d, state.definition);
      CapacityTracks(p.conc[key], id, e, now, UpdateCapacity(d, state.definition).conc[key].cap);
    }
  }

  lemma StepTracks(b: Backend, clock: int, step: Step, key: string, id: string, e: int)
    requires WithinLimits(b) && Tracked(b, key, id, e, clock) && Quiet(b, clock, step, id)
    ensures WithinLimits(Next(b, step)) && Tracked(Next(b, step), key, id, e, ClockAfter(clock, step))
  {
    NextKeeps(b, step);
    StatesOf(b);
    hide WithinLimits, Tracked, Reserve, Complete, ApplyDefinition, TryApplyDecrease;
    match step
    case Reserving(req, now) => ReserveTracks(b, clock, req, now, key, id, e);
    case Completing(done) => CompleteTracks(b, clock, done, key, id, e);
    case Defining(def) => DefineTracks(b, clock, def, key, id, e);
    case Decreasing(k, now) => DecreaseTracks(b, clock, k, now, key, id, e);
  }

  lemma StatesOf(b: Backend)
    requires WithinLimits(b)
    ensures StatesMatch(b.defs, b.states)
  {
  }

  ghost predicate QuietRun(b: Backend, clock: int, steps: seq<Step>, id: string)
    decreases |steps|
  {
    steps != [] ==>
      Quiet(b, clock, steps[0], id) && QuietRun(Next(b, steps[0]), ClockAfter(clock, steps[0]), steps[1..], id)
  }

  lemma {:induction false} RunTracks(b: Backend, clock: int, steps: seq<Step>, key: string, id: string, e: int)
    requires WithinLimits(b) && Tracked(b, key, id, e, clock) && QuietRun(b, clock, steps, id)
    ensures WithinLimits(Run(b, steps)) && Tracked(Run(b, steps), key, id, e, ClockAtEnd(clock, steps))
    decreases |steps|
  {
    hide WithinLimits, Tracked, Quiet, Next, ClockAfter;
    if steps != [] {
      StepTracks(b, clock, steps[0], key, id, e);
      RunTracks(Next(b, steps[0]), ClockAfter(clock, steps[0]), steps[1..], key, id, e);
    }
  }

  // ---- A lease id granted again ----

  /** A lease is granted, and after any run that closes it, granted again under the same id.  The second
      hold survives every purge before it expires exactly when the first had expired by then, or expires
      no sooner. */
  lemma ReusedLeaseKeepsItsHoldExactly(b: Backend, first: ReserveRequest, at: int, steps: seq<Step>,
          second: ReserveRequest, later: int, key: string)
    requires WithinLimits(b) && key in b.defs && b.defs[key].kind.Concurrency? && key in b.conc
    requires first.leaseID == second.leaseID && first.leaseID !in b.leases
    requires forall s :: s in b.conc[key].entries ==> b.conc[key].entries[s].id != first.leaseID
    requires DistinctKeys(first.requirements) && Names(first.requirements, key) && Reserve(b, first, at).1.allowed
    requires QuietRun(Reserve(b, first, at).0, at, steps, first.leaseID) && ClockAtEnd(at, steps) <= later
    requires var c := Run(Reserve(b, first, at).0, steps);
             && second.leaseID !in c.leases && Reserve(c, second, later).1.allowed
             && DistinctKeys(second.requirements) && Names(second.requirements, key)
    ensures var id, c := first.leaseID, Run(Reserve(b, first, at).0, steps);
            var r := Reserve(c, second, later).0;
            && key in c.defs && key in r.conc && id in r.conc[key].holds
            && var e1, e2 := at + b.defs[key].timeoutSeconds * SECOND, later + c.defs[key].timeoutSeconds * SECOND;
               && r.conc[key].holds[id] == e2
               && (Survives(r.conc[key], id, later, e2) <==> e1 <= later || e2 <= e1)
  {
    hide WithinLimits, Reserve, Names, Survives, C.Purge, C.Add, Tracks;
    var id, e1 := first.leaseID, at + b.defs[key].timeoutSeconds * SECOND;
    var one := Reserve(b, first, at).0;
    GrantAt(b, first, at, key);
    StoreIsWellFormed(b, key);
    FirstTracks(b.conc[key], id, at, e1);
    RunTracks(one, at, steps, key, id, e1);
    var c := Run(one, steps);
    GrantAt(c, second, later, key);
    StoreIsWellFormed(c, key);
    StoreAgain(c.conc[key], id, ClockAtEnd(at, steps), e1, later, later + c.defs[key].timeoutSeconds * SECOND);
  }

  lemma FirstTracks(st: C.Store, id: string, at: int, e: int)
    requires C.WellFormed(st) && forall s :: s in st.entries ==> st.entries[s].id != id
    ensures Tracks(C.Add(C.Purge(st, at), id, e), id, e, at)
  {
    AddTracks(C.Purge(st, at), id, e, at, id, e);
  }

  lemma StoreAgain(st: C.Store, id: string, clock: int, e1: int, later: int, e2: int)
    requires C.WellFormed(st) && Tracks(st, id, e1, clock) && clock <= later
    ensures var r := C.Add(C.Purge(st, later), id, e2);
            && id in r.holds && r.holds[id] == e2
            && (Survives(r, id, later, e2) <==> e1 <= later || e2 <= e1)
  {
    hide Survives, C.DueId;
    var left := C.Purge(st, later);
    PurgeTracks(st, id, e1, clock, later);
    RegrantSurvivesExactly(left, id, later, e2);
  }

  /** A request for one concurrency limit with room is granted. */
  lemma RoomIsGranted(b: Backend, id: string, key: string, now: int)
    requires WithinLimits(b) && id != "" && id !in b.leases
    requires key in b.defs && key in b.conc && b.defs[key].kind.Concurrency? && !IsDecreasing(b.states, key)
    requires |C.Purge(b.conc[key], now).holds| + 1 <= b.defs[key].capacity
    ensures Reserve(b, ReserveRequest(id, "", [Requirement(key, 1)]), now).1.allowed
  {
    hide C.Purge, RollFits, PurgeAll, CommitAll;
    var reqs := [Requirement(key, 1)];
    assert FirstDecreasing(b.states, reqs, 0) == 1 && FirstUnknown(b.defs, reqs, 0) == 1;
    PurgeAllOutside(b, reqs, now, 1);
    PurgeAllAtConcurrency(b, reqs, now, 1, key);
    assert reqs[0].key == key;
    assert ConcWithin(b, key);
    PurgeCap(b.conc[key], now);
    assert !Full(PurgeAll(b, reqs, now, 1), reqs[0]);
  }

  lemma PurgeCap(st: C.Store, now: int)
    ensures C.Purge(st, now).cap == st.cap
  {
  }

  /** For instance a hold of ten seconds, given back and taken again after five, is lost after ten. */
  lemma ReusedLeaseLosesItsHold(key: string, id: string)
    requires id != ""
    ensures var def := Definition(key, Concurrency, 1, 0, 10, "", "", Deny);
            var req := ReserveRequest(id, "", [Requirement(key, 1)]);
            var b := Reserve(ApplyDefinition(EMPTY, def), req, 0);
            var c := Reserve(Complete(b.0, CompleteRequest(id, "", [])), req, 5 * SECOND);
            && b.1.allowed && c.1.allowed && key in c.0.conc && id in c.0.conc[key].holds
            && c.0.conc[key].holds[id] == 15 * SECOND
            && !Survives(c.0.conc[key], id, 5 * SECOND, 15 * SECOND)
  {
    hide WithinLimits, Reserve, Complete, C.Purge, Survives;
    var def, req := Definition(key, Concurrency, 1, 0, 10, "", "", Deny), ReserveRequest(id, "", [Requirement(key, 1)]);
    var e := ApplyDefinition(EMPTY, def);
    EmptyIsWithin();
    ApplyDefinitionKeeps(EMPTY, def);
    assert req.requirements[0].key == key;
    C.PurgeNothing(C.Empty(1), 0);
    RoomIsGranted(e, id, key, 0);
    GrantAt(e, req, 0, key);
    var b, done := Reserve(e, req, 0).0, CompleteRequest(id, "", []);
    CompletionAt(b, done, key);
    var c := Complete(b, done);
    ReserveKeepsStates(e, req, 0);
    CompleteKeepsStates(b, done);
    PurgeEmpty(c.conc[key], 5 * SECOND);
    RoomIsGranted(c, id, key, 5 * SECOND);
    var steps := [Completing(done)];
    assert steps[1..] == [] && Run(b, steps) == c;
    ReusedLeaseKeepsItsHoldExactly(e, req, 0, steps, req, 5 * SECOND, key);
  }

  lemma PurgeEmpty(st: C.Store, now: int)
    requires st.holds == map[]
    ensures C.Purge(st, now).holds == map[]
  {
  }
}
