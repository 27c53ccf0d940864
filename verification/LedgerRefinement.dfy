/** The heaps, the running counters, the index and the lazily deleted holds answer every request, in
    every run, exactly as the plain ledger does. */
module LedgerRefinement {
  import opened Wrappers
  import opened Limits
  import opened LimiterRuns
  import opened LimiterFacts
  import opened LedgerStores
  import L = Limiter
  import G = Ledger
  import R = RollingSpec
  import C = ConcurrencySpec

  ghost predicate Rel(b: L.Backend, l: G.Ledger, clock: int) {
    && WithinLimits(b)
    && b.defs == l.defs && b.states == l.states && b.debt == l.debt && b.leases == l.leases
    && b.roll.Keys == l.grants.Keys && b.conc.Keys == l.holds.Keys
    && (forall k :: k in b.roll ==> RollRel(b.roll[k], l.grants[k], clock))
    && (forall k :: k in b.conc ==> ConcRel(b.conc[k], l.holds[k], clock))
  }

  /** No grant was ever made under this lease id. */
  ghost predicate NeverGranted(l: G.Ledger, id: string) {
    && (forall k, i :: k in l.grants && 0 <= i < |l.grants[k]| ==> l.grants[k][i].lease != id)
    && (forall k, i :: k in l.holds && 0 <= i < |l.holds[k]| ==> l.holds[k][i].lease != id)
  }

  // ---- Reserve ----

  lemma PurgeAllRel(b: L.Backend, l: G.Ledger, clock: int, reqs: seq<Requirement>, now: int, n: nat)
    requires n <= |reqs| && Rel(b, l, clock) && clock <= now
    ensures Rel(L.PurgeAll(b, reqs, now, n), l, now)
    ensures forall i :: 0 <= i < n && reqs[i].key in b.defs ==>
              && (b.defs[reqs[i].key].kind.Rolling? ==>
                    reqs[i].key in L.PurgeAll(b, reqs, now, n).roll
                    && R.Used(L.PurgeAll(b, reqs, now, n).roll[reqs[i].key]) == G.Live(l.grants[reqs[i].key], now))
              && (b.defs[reqs[i].key].kind.Concurrency? ==>
                    reqs[i].key in L.PurgeAll(b, reqs, now, n).conc
                    && |L.PurgeAll(b, reqs, now, n).conc[reqs[i].key].holds| == G.HeldCount(l.holds[reqs[i].key], now))
  {
    hide WithinLimits, RollRel, ConcRel, R.Purge, C.Purge, L.PurgeAll, R.Sum;
    var p := L.PurgeAll(b, reqs, now, n);
    PurgeAllKeeps(b, reqs, now, n);
    PurgeAllOutside(b, reqs, now, n);
    forall k | k in p.roll
      ensures RollRel(p.roll[k], l.grants[k], now)
    {
      PurgeAllAtRolling(b, reqs, now, n, k);
      RollRelPurge(b.roll[k], l.grants[k], clock, now);
      RollRelLater(b.roll[k], l.grants[k], clock, now);
    }
    forall k | k in p.conc
      ensures ConcRel(p.conc[k], l.holds[k], now)
    {
      PurgeAllAtConcurrency(b, reqs, now, n, k);
      ConcRelPurge(b.conc[k], l.holds[k], clock, now);
      ConcRelLater(b.conc[k], l.holds[k], clock, now);
    }
    StoresInPlace(b);
    forall i | 0 <= i < n && reqs[i].key in b.defs
      ensures b.defs[reqs[i].key].kind.Rolling? ==>
                reqs[i].key in p.roll && R.Used(p.roll[reqs[i].key]) == G.Live(l.grants[reqs[i].key], now)
      ensures b.defs[reqs[i].key].kind.Concurrency? ==>
                reqs[i].key in p.conc && |p.conc[reqs[i].key].holds| == G.HeldCount(l.holds[reqs[i].key], now)
    {
      var k := reqs[i].key;
      assert Mentions(reqs, n, k);
      if k in b.roll {
        PurgeAllAtRolling(b, reqs, now, n, k);
        RollRelPurge(b.roll[k], l.grants[k], clock, now);
      }
      if k in b.conc {
        PurgeAllAtConcurrency(b, reqs, now, n, k);
        ConcRelPurge(b.conc[k], l.holds[k], clock, now);
      }
    }
  }

  lemma StoresInPlace(b: L.Backend)
    requires WithinLimits(b)
    ensures forall k :: k in b.defs && b.defs[k].kind.Rolling? ==> k in b.roll && b.roll[k].cap == b.defs[k].capacity
    ensures forall k :: k in b.defs && b.defs[k].kind.Concurrency? ==>
            k in b.conc && b.conc[k].cap == b.defs[k].capacity
    ensures forall k :: k in b.roll ==> k in b.defs && b.defs[k].kind.Rolling?
    ensures forall k :: k in b.conc ==> k in b.defs && b.defs[k].kind.Concurrency?
  {
    hide RollFits, ConcFits;
    assert forall k :: k in b.roll ==> RollWithin(b, k);
    assert forall k :: k in b.conc ==> ConcWithin(b, k);
    forall k | k in b.roll
      ensures b.defs[k].kind.Rolling? && b.roll[k].cap == b.defs[k].capacity
    {
      RollFitsDecrease(b.roll[k], b.defs[k], 0);
    }
    forall k | k in b.conc
      ensures b.defs[k].kind.Concurrency? && b.conc[k].cap == b.defs[k].capacity
    {
      ConcFitsDecrease(b.conc[k], b.defs[k], 0);
    }
  }

  /** After its purge the backend finds full exactly the limits the ledger finds full. */
  lemma {:induction false} MaxRetryAgrees(p: L.Backend, l: G.Ledger, reqs: seq<Requirement>, now: int, n: nat)
    requires n <= |reqs|
    requires forall i :: 0 <= i < n ==> (L.Full(p, reqs[i]) <==> G.Full(l, reqs[i], now))
    requires p.defs == l.defs
    ensures L.MaxRetry(p, reqs, n) == G.MaxRetry(l, reqs, now, n)
  {
    hide L.Full, G.Full, L.RetryAfter;
    if n > 0 {
      MaxRetryAgrees(p, l, reqs, now, n - 1);
      FullIsDefined(p, reqs[n - 1]);
    }
  }

  lemma FullIsDefined(b: L.Backend, r: Requirement)
    ensures L.Full(b, r) ==> r.key in b.defs
  {
  }

  lemma {:induction false} IndexByKeyFinds(reqs: seq<Requirement>, i: nat)
    requires DistinctKeys(reqs) && i < |reqs|
    ensures reqs[i].key in L.IndexByKey(reqs) && L.IndexByKey(reqs)[reqs[i].key] == reqs[i].amount
  {
    var n := |reqs| - 1;
    if i < n {
      IndexByKeyFinds(reqs[..n], i);
      assert reqs[..n][i] == reqs[i];
    }
  }

  lemma CommitGrants(l: G.Ledger, req: ReserveRequest, now: int, k: string)
    ensures G.Commit(l, req, now).grants.Keys == l.grants.Keys
    ensures k in l.grants ==>
              G.Commit(l, req, now).grants[k] ==
              if k in L.IndexByKey(req.requirements) && k in l.defs && l.defs[k].kind.Rolling? then
                l.grants[k]
                + [G.Grant(req.leaseID, now, L.IndexByKey(req.requirements)[k], now + l.defs[k].windowSeconds * SECOND)]
              else l.grants[k]
  {
    hide L.IndexByKey;
  }

  lemma CommitHolds(l: G.Ledger, req: ReserveRequest, now: int, k: string)
    ensures G.Commit(l, req, now).holds.Keys == l.holds.Keys
    ensures k in l.holds ==>
              G.Commit(l, req, now).holds[k] ==
              if k in L.IndexByKey(req.requirements) && k in l.defs && l.defs[k].kind.Concurrency? then
                l.holds[k] + [G.Hold(req.leaseID, now + l.defs[k].timeoutSeconds * SECOND, false)]
              else l.holds[k]
  {
    hide L.IndexByKey;
  }

  lemma CommitStores(b: L.Backend, req: ReserveRequest, now: int)
    ensures L.Commit(b, req, now).roll == L.CommitAll(b, req.leaseID, req.requirements, now, |req.requirements|).roll
    ensures L.Commit(b, req, now).conc == L.CommitAll(b, req.leaseID, req.requirements, now, |req.requirements|).conc
  {
  }

  lemma CommitRelRolling(b: L.Backend, l: G.Ledger, now: int, req: ReserveRequest, k: string)
    requires DistinctKeys(req.requirements) && k in b.roll && k in l.grants && b.defs == l.defs
    requires NeverGranted(l, req.leaseID)
    requires RollRel(b.roll[k], l.grants[k], now)
    ensures k in L.Commit(b, req, now).roll
    ensures RollRel(L.Commit(b, req, now).roll[k], G.Commit(l, req, now).grants[k], now)
  {
    hide RollRel, L.CommitAll, L.IndexByKey, R.Add, L.Commit, G.Commit;
    CommitGrants(l, req, now, k);
    CommitStores(b, req, now);
    var reqs := req.requirements;
    CommitAllOutside(b, req.leaseID, reqs, now, |reqs|);
    assert Mentions(reqs, |reqs|, k) <==> k in L.IndexByKey(reqs);
    if Mentions(reqs, |reqs|, k) {
      var i :| 0 <= i < |reqs| && reqs[i].key == k;
      CommitAllAtRolling(b, req.leaseID, reqs, now, |reqs|, i);
      IndexByKeyFinds(reqs, i);
      if k in b.defs {
        RollRelAdd(b.roll[k], l.grants[k], now, req.leaseID, now, reqs[i].amount,
            now + b.defs[k].windowSeconds * SECOND);
      }
    } else {
      CommitAllUnmentioned(b, req.leaseID, reqs, now, |reqs|, k);
    }
  }

  lemma CommitRelConcurrency(b: L.Backend, l: G.Ledger, now: int, req: ReserveRequest, k: string)
    requires DistinctKeys(req.requirements) && k in b.conc && k in l.holds && b.defs == l.defs
    requires NeverGranted(l, req.leaseID)
    requires ConcRel(b.conc[k], l.holds[k], now)
    ensures k in L.Commit(b, req, now).conc
    ensures ConcRel(L.Commit(b, req, now).conc[k], G.Commit(l, req, now).holds[k], now)
  {
    hide ConcRel, L.CommitAll, L.IndexByKey, C.Add, L.Commit, G.Commit;
    CommitHolds(l, req, now, k);
    CommitStores(b, req, now);
    var reqs := req.requirements;
    CommitAllOutside(b, req.leaseID, reqs, now, |reqs|);
    assert Mentions(reqs, |reqs|, k) <==> k in L.IndexByKey(reqs);
    if Mentions(reqs, |reqs|, k) {
      var i :| 0 <= i < |reqs| && reqs[i].key == k;
      CommitAllAtConcurrency(b, req.leaseID, reqs, now, |reqs|, i);
      if k in b.defs {
        ConcRelAdd(b.conc[k], l.holds[k], now, req.leaseID, now + b.defs[k].timeoutSeconds * SECOND);
      }
    } else {
      CommitAllUnmentioned(b, req.leaseID, reqs, now, |reqs|, k);
    }
  }

  lemma CommitRel(b: L.Backend, l: G.Ledger, now: int, req: ReserveRequest)
    requires Rel(b, l, now) && DistinctKeys(req.requirements) && NeverGranted(l, req.leaseID)
    requires WithinLimits(L.Commit(b, req, now))
    ensures Rel(L.Commit(b, req, now), G.Commit(l, req, now), now)
  {
    hide WithinLimits, RollRel, ConcRel, L.CommitAll, L.IndexByKey, NeverGranted;
    CommitAllOutside(b, req.leaseID, req.requirements, now, |req.requirements|);
    var c, m := L.Commit(b, req, now), G.Commit(l, req, now);
    assert c.roll.Keys == m.grants.Keys && c.conc.Keys == m.holds.Keys;
    forall k | k in c.roll
      ensures RollRel(c.roll[k], m.grants[k], now)
    {
      CommitRelRolling(b, l, now, req, k);
    }
    forall k | k in c.conc
      ensures ConcRel(c.conc[k], m.holds[k], now)
    {
      CommitRelConcurrency(b, l, now, req, k);
    }
  }

  /** Reserve answers as the ledger does, and a denial changes nothing the ledger can see. */
  lemma ReserveRefines(b: L.Backend, l: G.Ledger, clock: int, req: ReserveRequest, now: int)
    requires Rel(b, l, clock) && clock <= now && DistinctKeys(req.requirements)
    requires req.leaseID in l.leases || NeverGranted(l, req.leaseID)
    ensures L.Reserve(b, req, now).1 == G.Reserve(l, req, now).1
    ensures Rel(L.Reserve(b, req, now).0, G.Reserve(l, req, now).0, now)
  {
    hide L.PurgeAll, RollRel, ConcRel, NeverGranted, L.Commit, G.Commit, WithinLimits, L.Full, G.Full, G.MaxRetry,
        L.MaxRetry;
    var reqs := req.requirements;
    var n := |reqs|;
    var early := L.EarlyReply(b.defs, b.states, b.leases, req);
    if early.Some? {
      RelLater(b, l, clock, now);
    } else {
      PurgeAllRel(b, l, clock, reqs, now, n);
      var p := L.PurgeAll(b, reqs, now, n);
      PurgeAllOutside(b, reqs, now, n);
      forall i | 0 <= i < n
        ensures L.Full(p, reqs[i]) <==> G.Full(l, reqs[i], now)
      {
        FullAgrees(p, l, reqs[i], now);
      }
      MaxRetryAgrees(p, l, reqs, now, n);
      if L.MaxRetry(p, reqs, n) == 0 {
        ReserveKeeps(b, req, now);
        CommitRel(p, l, now, req);
      }
    }
  }

  lemma FullAgrees(p: L.Backend, l: G.Ledger, r: Requirement, now: int)
    requires WithinLimits(p) && p.defs == l.defs && p.roll.Keys == l.grants.Keys && p.conc.Keys == l.holds.Keys
    requires r.key in p.defs && p.defs[r.key].kind.Rolling? ==>
               r.key in p.roll && R.Used(p.roll[r.key]) == G.Live(l.grants[r.key], now)
    requires r.key in p.defs && p.defs[r.key].kind.Concurrency? ==>
               r.key in p.conc && |p.conc[r.key].holds| == G.HeldCount(l.holds[r.key], now)
    ensures L.Full(p, r) <==> G.Full(l, r, now)
  {
    hide WithinLimits, R.Sum;
    StoresInPlace(p);
  }

  lemma RelLater(b: L.Backend, l: G.Ledger, clock: int, now: int)
    requires Rel(b, l, clock) && clock <= now
    ensures Rel(b, l, now)
  {
    hide WithinLimits, RollRel, ConcRel;
    forall k | k in b.roll
      ensures RollRel(b.roll[k], l.grants[k], now)
    {
      RollRelLater(b.roll[k], l.grants[k], clock, now);
    }
    forall k | k in b.conc
      ensures ConcRel(b.conc[k], l.holds[k], now)
    {
      ConcRelLater(b.conc[k], l.holds[k], clock, now);
    }
  }

  // ---- Complete ----

  lemma ReleaseAllRel(b: L.Backend, l: G.Ledger, clock: int, leaseID: string, reqs: seq<Requirement>)
    requires Rel(b, l, clock)
    ensures Rel(L.ReleaseAll(b, leaseID, reqs, |reqs|), G.ReleaseAll(l, leaseID, reqs), clock)
  {
    hide WithinLimits, RollRel, ConcRel, L.ReleaseAll, C.Release, G.ReleaseHolds;
    var r, m := L.ReleaseAll(b, leaseID, reqs, |reqs|), G.ReleaseAll(l, leaseID, reqs);
    ReleaseAllKeeps(b, leaseID, reqs);
    ReleaseAllOutside(b, leaseID, reqs, |reqs|);
    forall k | k in r.conc
      ensures ConcRel(r.conc[k], m.holds[k], clock)
    {
      ReleaseAllAt(b, leaseID, reqs, |reqs|, k);
      ConcRelRelease(b.conc[k], l.holds[k], clock, leaseID);
    }
  }

  lemma LoweredRel(b: L.Backend, l: G.Ledger, clock: int, leaseID: string, key: string, amount: nat)
    requires Rel(b, l, clock) && key in b.roll
    requires WithinLimits(b.(roll := b.roll[key := R.Reduce(b.roll[key], leaseID, amount)]))
    ensures key in l.grants
    ensures Rel(b.(roll := b.roll[key := R.Reduce(b.roll[key], leaseID, amount)]),
                l.(grants := l.grants[key := G.LowerGrants(l.grants[key], leaseID, amount)]), clock)
  {
    hide WithinLimits, RollRel, ConcRel, R.Reduce, G.LowerGrants;
    RollRelReduce(b.roll[key], l.grants[key], clock, leaseID, amount);
  }

  lemma OwedRel(b: L.Backend, l: G.Ledger, clock: int, debt: map<string, nat>)
    requires Rel(b, l, clock) && WithinLimits(b.(debt := debt))
    ensures Rel(b.(debt := debt), l.(debt := debt), clock)
  {
    hide WithinLimits, RollRel, ConcRel;
  }

  lemma SameShape(b: L.Backend, l: G.Ledger, clock: int)
    requires Rel(b, l, clock)
    ensures WithinLimits(b) && b.roll.Keys == l.grants.Keys && b.conc.Keys == l.holds.Keys
    ensures b.defs == l.defs && b.states == l.states && b.debt == l.debt && b.leases == l.leases
  {
  }

  lemma ReconcileOneRel(b: L.Backend, l: G.Ledger, clock: int, leaseID: string, reserved: map<string, nat>, a: Actual)
    requires Rel(b, l, clock)
    ensures Rel(L.ReconcileOne(b, leaseID, reserved, a), G.ReconcileOne(l, leaseID, reserved, a), clock)
  {
    hide Rel, WithinLimits, R.Reduce, G.LowerGrants;
    SameShape(b, l, clock);
    ReconcileOneKeeps(b, leaseID, reserved, a);
    var held := L.ReservedFor(reserved, a.key);
    if a.key in b.defs && b.defs[a.key].kind.Rolling? {
      if a.actualAmount < held {
        if a.key in b.roll {
          LoweredRel(b, l, clock, leaseID, a.key, a.actualAmount);
        }
      } else if a.actualAmount > held && b.defs[a.key].overage.Debt? {
        OwedRel(b, l, clock, b.debt[a.key := L.DebtOf(b.debt, a.key) + (a.actualAmount - held)]);
      }
    }
  }

  lemma {:induction false} ReconcileAllRel(b: L.Backend, l: G.Ledger, clock: int, leaseID: string,
          reserved: map<string, nat>, actuals: seq<Actual>, n: nat)
    requires n <= |actuals| && Rel(b, l, clock)
    ensures Rel(L.ReconcileAll(b, leaseID, reserved, actuals, n), G.ReconcileAll(l, leaseID, reserved, actuals, n),
        clock)
  {
    hide Rel, L.ReconcileOne, G.ReconcileOne;
    if n > 0 {
      ReconcileAllRel(b, l, clock, leaseID, reserved, actuals, n - 1);
      var c := L.ReconcileAll(b, leaseID, reserved, actuals, n - 1);
      var m := G.ReconcileAll(l, leaseID, reserved, actuals, n - 1);
      ReconcileOneRel(c, m, clock, leaseID, reserved, actuals[n - 1]);
    }
  }

  lemma CompleteRefines(b: L.Backend, l: G.Ledger, clock: int, req: CompleteRequest)
    requires Rel(b, l, clock)
    ensures Rel(L.Complete(b, req), G.Complete(l, req), clock)
  {
    hide WithinLimits, RollRel, ConcRel, L.ReleaseAll, G.ReleaseAll, L.ReconcileAll, G.ReconcileAll;
    CompleteKeeps(b, req);
    if req.leaseID in b.leases {
      var lease := b.leases[req.leaseID];
      ReleaseAllRel(b, l, clock, req.leaseID, lease.requirements);
      ReconcileAllRel(L.ReleaseAll(b, req.leaseID, lease.requirements, |lease.requirements|),
                      G.ReleaseAll(l, req.leaseID, lease.requirements),
                      clock, req.leaseID, lease.reservedAmounts, req.actuals, |req.actuals|);
    }
  }

  // ---- Definitions ----

  lemma InstallRel(b: L.Backend, l: G.Ledger, clock: int, state: LimitState)
    requires Rel(b, l, clock) && WithinLimits(L.Install(b, state))
    ensures Rel(L.Install(b, state), G.Install(l, state), clock)
  {
    hide WithinLimits, RollRel, ConcRel, L.Install, R.Empty, C.Empty;
    InstallIsTwoSteps(b, state);
    EmptyRel(state.definition.capacity, clock);
    var c, m := L.Install(b, state), G.Install(l, state);
    forall k | k in c.roll
      ensures k in m.grants && RollRel(c.roll[k], m.grants[k], clock)
    {
      InstalledRolling(b, state, k);
      RollRelCapacity(if k in b.roll then b.roll[k] else R.Empty(state.definition.capacity), m.grants[k], clock,
          c.roll[k].cap);
    }
    forall k | k in c.conc
      ensures k in m.holds && ConcRel(c.conc[k], m.holds[k], clock)
    {
      InstalledConcurrency(b, state, k);
      ConcRelCapacity(if k in b.conc then b.conc[k] else C.Empty(state.definition.capacity), m.holds[k], clock,
          c.conc[k].cap);
    }
  }

  lemma EmptyRel(capacity: nat, clock: int)
    ensures RollRel(R.Empty(capacity), [], clock) && ConcRel(C.Empty(capacity), [], clock)
  {
  }

  lemma RollRelCapacity(st: R.Store, gs: seq<G.Grant>, clock: int, capacity: nat)
    requires RollRel(st, gs, clock)
    ensures RollRel(st.(cap := capacity), gs, clock)
  {
  }

  lemma ConcRelCapacity(st: C.Store, hs: seq<G.Hold>, clock: int, capacity: nat)
    requires ConcRel(st, hs, clock)
    ensures ConcRel(st.(cap := capacity), hs, clock)
  {
  }

  lemma ApplyDefinitionRefines(b: L.Backend, l: G.Ledger, clock: int, def: Definition)
    requires Rel(b, l, clock) && Legal(b, Defining(def))
    ensures Rel(L.ApplyDefinition(b, def), G.ApplyDefinition(l, def), clock)
  {
    hide WithinLimits, RollRel, ConcRel, L.Install, G.Install;
    ApplyDefinitionKeeps(b, def);
    if def.key !in b.defs || def.capacity >= b.defs[def.key].capacity {
      InstallRel(b, l, clock, LimitState(def, Active, 0));
    }
  }

  lemma PurgeKeyRel(b: L.Backend, l: G.Ledger, clock: int, key: string, now: int)
    requires Rel(b, l, clock) && clock <= now && key in b.defs
    ensures Rel(L.PurgeKey(b, key, now), l, now)
    ensures var p := L.PurgeKey(b, key, now);
            && (b.defs[key].kind.Rolling? ==>
                key in p.roll && key in l.grants && R.Used(p.roll[key]) == G.Usage(l, key, now))
            && (b.defs[key].kind.Concurrency? ==>
                key in p.conc && key in l.holds && key !in l.grants && |p.conc[key].holds| == G.Usage(l, key, now))
  {
    hide WithinLimits, RollRel, ConcRel, L.PurgeAll, L.PurgeKey, R.Sum;
    var reqs := [Requirement(key, 0)];
    PurgeKeyIsPurgeAll(b, key, now);
    PurgeAllRel(b, l, clock, reqs, now, 1);
    StoresInPlace(b);
    assert reqs[0].key == key;
  }

  lemma TryApplyDecreaseRefines(b: L.Backend, l: G.Ledger, clock: int, key: string, now: int)
    requires Rel(b, l, clock) && clock <= now
    ensures L.TryApplyDecrease(b, key, now).1 == G.TryApplyDecrease(l, key, now).1
    ensures Rel(L.TryApplyDecrease(b, key, now).0, G.TryApplyDecrease(l, key, now).0, now)
  {
    hide WithinLimits, RollRel, ConcRel, L.PurgeKey, L.DecreaseApplied, R.Sum;
    TryApplyDecreaseKeeps(b, key, now);
    if L.PendingDecrease(b.states, key).None? {
      RelLater(b, l, clock, now);
    } else {
      var p := L.PurgeKey(b, key, now);
      PurgeKeyAt(b, key, now);
      DefinedHere(b, key);
      PurgeKeyRel(b, l, clock, key, now);
      StoresInPlace(p);
      if L.AvailableCapacity(p, key, b.states[key].definition) >= L.PendingDecrease(b.states, key).value {
        DecreaseAppliedRel(p, l, now, key);
      }
    }
  }

  lemma DefinedHere(b: L.Backend, key: string)
    requires WithinLimits(b) && key in b.states
    ensures key in b.defs && b.states[key].definition == b.defs[key] && b.defs[key].key == key
  {
  }

  lemma DecreaseAppliedRel(b: L.Backend, l: G.Ledger, clock: int, key: string)
    requires Rel(b, l, clock) && key in b.states && WithinLimits(L.DecreaseApplied(b, key))
    ensures key in L.DecreaseApplied(b, key).states
    ensures var state := LimitState(l.states[key].definition.(capacity := l.states[key].pendingDecreaseTo), Active, 0);
            && L.DecreaseApplied(b, key).states[key] == state
            && Rel(L.DecreaseApplied(b, key),
                l.(states := l.states[key := state], defs := l.defs[key := state.definition]), clock)
  {
    hide WithinLimits, RollRel, ConcRel, L.UpdateCapacity;
    DefinedHere(b, key);
    var state := LimitState(b.states[key].definition.(capacity := b.states[key].pendingDecreaseTo), Active, 0);
    UpdateCapacityAt(b.(states := b.states[key := state], defs := b.defs[key := state.definition]), state.definition);
    var c := L.DecreaseApplied(b, key);
    forall k | k in c.roll
      ensures RollRel(c.roll[k], l.grants[k], clock)
    {
      RollRelCapacity(b.roll[k], l.grants[k], clock, c.roll[k].cap);
    }
    forall k | k in c.conc
      ensures ConcRel(c.conc[k], l.holds[k], clock)
    {
      ConcRelCapacity(b.conc[k], l.holds[k], clock, c.conc[k].cap);
    }
  }

  // ---- Runs ----

  datatype Output =
    | Replied(reply: ReserveResponse)
    | Done
    | Tried(applied: Option<LimitState>)

  ghost function Answer(b: L.Backend, step: Step): Output {
    match step
    case Reserving(req, now) => Replied(L.Reserve(b, req, now).1)
    case Completing(done) => Done
    case Defining(def) => Done
    case Decreasing(key, now) => Tried(L.TryApplyDecrease(b, key, now).1)
  }

  ghost function LedgerNext(l: G.Ledger, step: Step): G.Ledger {
    match step
    case Reserving(req, now) => G.Reserve(l, req, now).0
    case Completing(done) => G.Complete(l, done)
    case Defining(def) => G.ApplyDefinition(l, def)
    case Decreasing(key, now) => G.TryApplyDecrease(l, key, now).0
  }

  ghost function LedgerAnswer(l: G.Ledger, step: Step): Output {
    match step
    case Reserving(req, now) => Replied(G.Reserve(l, req, now).1)
    case Completing(done) => Done
    case Defining(def) => Done
    case Decreasing(key, now) => Tried(G.TryApplyDecrease(l, key, now).1)
  }

  function ClockAfter(clock: int, step: Step): int {
    match step
    case Reserving(req, now) => now
    case Decreasing(key, now) => now
    case _ => clock
  }

  /** Time does not go back, requests name each limit once, a lease id is granted at most once, and a
      limit keeps its kind. */
  ghost predicate LedgerLegal(l: G.Ledger, clock: int, step: Step) {
    && clock <= ClockAfter(clock, step)
    && match step
       case Reserving(req, now) =>
         DistinctKeys(req.requirements) && (req.leaseID in l.leases || NeverGranted(l, req.leaseID))
       case Defining(def) =>
         def.key in l.defs && def.capacity >= l.defs[def.key].capacity ==> def.kind == l.defs[def.key].kind
       case _ => true
  }

  lemma StepRefines(b: L.Backend, l: G.Ledger, clock: int, step: Step)
    requires Rel(b, l, clock) && LedgerLegal(l, clock, step)
    ensures Answer(b, step) == LedgerAnswer(l, step)
    ensures Rel(Next(b, step), LedgerNext(l, step), ClockAfter(clock, step))
    ensures Legal(b, step)
  {
    hide L.Reserve, G.Reserve, L.Complete, G.Complete, L.TryApplyDecrease, G.TryApplyDecrease, NeverGranted;
    match step
    case Reserving(req, now) => ReserveRefines(b, l, clock, req, now);
    case Completing(done) => CompleteRefines(b, l, clock, done);
    case Defining(def) => ApplyDefinitionRefines(b, l, clock, def);
    case Decreasing(key, now) => TryApplyDecreaseRefines(b, l, clock, key, now);
  }

  ghost function Answers(b: L.Backend, steps: seq<Step>): seq<Output>
    decreases |steps|
  {
    if steps == [] then [] else [Answer(b, steps[0])] + Answers(Next(b, steps[0]), steps[1..])
  }

  ghost function LedgerAnswers(l: G.Ledger, steps: seq<Step>): seq<Output>
    decreases |steps|
  {
    if steps == [] then [] else [LedgerAnswer(l, steps[0])] + LedgerAnswers(LedgerNext(l, steps[0]), steps[1..])
  }

  ghost predicate LedgerLegalRun(l: G.Ledger, clock: int, steps: seq<Step>)
    decreases |steps|
  {
    steps != [] ==>
      && LedgerLegal(l, clock, steps[0])
      && LedgerLegalRun(LedgerNext(l, steps[0]), ClockAfter(clock, steps[0]), steps[1..])
  }

  ghost function LedgerRun(l: G.Ledger, steps: seq<Step>): G.Ledger
    decreases |steps|
  {
    if steps == [] then l else LedgerRun(LedgerNext(l, steps[0]), steps[1..])
  }

  function ClockAtEnd(clock: int, steps: seq<Step>): int
    decreases |steps|
  {
    if steps == [] then clock else ClockAtEnd(ClockAfter(clock, steps[0]), steps[1..])
  }

  /** In every run the backend gives exactly the answers the plain ledger gives, and what it stores
      at the end is what the ledger lists, less lines that are due. */
  lemma {:induction false} BackendRefinesLedger(b: L.Backend, l: G.Ledger, clock: int, steps: seq<Step>)
    requires Rel(b, l, clock) && LedgerLegalRun(l, clock, steps)
    ensures Answers(b, steps) == LedgerAnswers(l, steps)
    ensures Rel(Run(b, steps), LedgerRun(l, steps), ClockAtEnd(clock, steps)) && LegalRun(b, steps)
    decreases |steps|
  {
    hide Rel, LedgerLegal, Legal, Next, LedgerNext, Answer, LedgerAnswer;
    if steps != [] {
      StepRefines(b, l, clock, steps[0]);
      BackendRefinesLedger(Next(b, steps[0]), LedgerNext(l, steps[0]), ClockAfter(clock, steps[0]), steps[1..]);
    }
  }

  /** The runs of a new backend are such runs. */
  lemma EmptyIsRelated(clock: int)
    ensures Rel(L.EMPTY, G.EMPTY, clock)
  {
  }
}
