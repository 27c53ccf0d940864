/** What the folds of `Limiter` do to each key, read off key by key. */
module LimiterFacts {
  import opened Limits
  import opened Limiter
  import R = RollingSpec
  import C = ConcurrencySpec

  predicate Mentions(reqs: seq<Requirement>, n: nat, key: string)
    requires n <= |reqs|
  {
    exists i :: 0 <= i < n && reqs[i].key == key
  }

  lemma RollingPurgeIdempotent(st: R.Store, now: int)
    ensures R.Purge(R.Purge(st, now), now) == R.Purge(st, now)
  {
    R.PurgeNothing(R.Purge(st, now), now);
  }

  lemma ConcurrencyPurgeIdempotent(st: C.Store, now: int)
    ensures C.Purge(C.Purge(st, now), now) == C.Purge(st, now)
  {
    C.PurgeNothing(C.Purge(st, now), now);
  }

  /** Apart from its stores, `b` is like `a`; and it has the same stores. */
  ghost predicate SameOutside(a: Backend, b: Backend) {
    && b.defs == a.defs && b.states == a.states && b.debt == a.debt && b.leases == a.leases
    && b.roll.Keys == a.roll.Keys && b.conc.Keys == a.conc.Keys
  }

  /** The store of this key once the first `n` requirements have been purged. */
  ghost function RollPurged(b: Backend, reqs: seq<Requirement>, now: int, n: nat, key: string): R.Store
    requires n <= |reqs| && key in b.roll
  {
    if Mentions(reqs, n, key) && key in b.defs && b.defs[key].kind.Rolling? then
      R.Purge(b.roll[key], now)
    else b.roll[key]
  }

  ghost function ConcPurged(b: Backend, reqs: seq<Requirement>, now: int, n: nat, key: string): C.Store
    requires n <= |reqs| && key in b.conc
  {
    if Mentions(reqs, n, key) && key in b.defs && b.defs[key].kind.Concurrency? then
      C.Purge(b.conc[key], now)
    else b.conc[key]
  }

  /** One purge touches one store. */
  lemma PurgeKeyAt(b: Backend, key: string, now: int)
    ensures SameOutside(b, PurgeKey(b, key, now))
    ensures forall k :: k in b.roll ==>
              PurgeKey(b, key, now).roll[k] ==
              if k == key && k in b.defs && b.defs[k].kind.Rolling? then R.Purge(b.roll[k], now) else b.roll[k]
    ensures forall k :: k in b.conc ==>
              PurgeKey(b, key, now).conc[k] ==
              if k == key && k in b.defs && b.defs[k].kind.Concurrency? then C.Purge(b.conc[k], now) else b.conc[k]
  {
    hide R.Purge, C.Purge;
  }

  lemma {:induction false} PurgeAllOutside(b: Backend, reqs: seq<Requirement>, now: int, n: nat)
    requires n <= |reqs|
    ensures SameOutside(b, PurgeAll(b, reqs, now, n))
  {
    hide PurgeKey;
    if n > 0 {
      PurgeAllOutside(b, reqs, now, n - 1);
      PurgeKeyAt(PurgeAll(b, reqs, now, n - 1), reqs[n - 1].key, now);
    }
  }

  /** Purging for a request purges exactly the stores the request mentions, however often. */
  lemma {:induction false} PurgeAllAtRolling(b: Backend, reqs: seq<Requirement>, now: int, n: nat, k: string)
    requires n <= |reqs| && k in b.roll
    ensures k in PurgeAll(b, reqs, now, n).roll && PurgeAll(b, reqs, now, n).roll[k] == RollPurged(b, reqs, now, n, k)
  {
    hide R.Purge, C.Purge, PurgeKey;
    if n > 0 {
      PurgeAllAtRolling(b, reqs, now, n - 1, k);
      PurgeAllOutside(b, reqs, now, n - 1);
      PurgeKeyAt(PurgeAll(b, reqs, now, n - 1), reqs[n - 1].key, now);
      RollingPurgeIdempotent(b.roll[k], now);
      assert Mentions(reqs, n, k) <==> Mentions(reqs, n - 1, k) || reqs[n - 1].key == k;
    }
  }

  lemma {:induction false} PurgeAllAtConcurrency(b: Backend, reqs: seq<Requirement>, now: int, n: nat, k: string)
    requires n <= |reqs| && k in b.conc
    ensures k in PurgeAll(b, reqs, now, n).conc && PurgeAll(b, reqs, now, n).conc[k] == ConcPurged(b, reqs, now, n, k)
  {
    hide R.Purge, C.Purge, PurgeKey;
    if n > 0 {
      PurgeAllAtConcurrency(b, reqs, now, n - 1, k);
      PurgeAllOutside(b, reqs, now, n - 1);
      PurgeKeyAt(PurgeAll(b, reqs, now, n - 1), reqs[n - 1].key, now);
      ConcurrencyPurgeIdempotent(b.conc[k], now);
      assert Mentions(reqs, n, k) <==> Mentions(reqs, n - 1, k) || reqs[n - 1].key == k;
    }
  }

  lemma CommitOneAt(b: Backend, leaseID: string, r: Requirement, now: int)
    ensures SameOutside(b, CommitOne(b, leaseID, r, now))
    ensures forall k :: k in b.roll ==>
              CommitOne(b, leaseID, r, now).roll[k] ==
              if k == r.key && k in b.defs && b.defs[k].kind.Rolling? then
                R.Add(b.roll[k], leaseID, r.amount, now + b.defs[k].windowSeconds * SECOND)
              else b.roll[k]
    ensures forall k :: k in b.conc ==>
              CommitOne(b, leaseID, r, now).conc[k] ==
              if k == r.key && k in b.defs && b.defs[k].kind.Concurrency? then
                C.Add(b.conc[k], leaseID, now + b.defs[k].timeoutSeconds * SECOND)
              else b.conc[k]
  {
    hide R.Add, C.Add;
  }

  lemma {:induction false} CommitAllOutside(b: Backend, leaseID: string, reqs: seq<Requirement>, now: int, n: nat)
    requires n <= |reqs|
    ensures SameOutside(b, CommitAll(b, leaseID, reqs, now, n))
  {
    hide CommitOne;
    if n > 0 {
      CommitAllOutside(b, leaseID, reqs, now, n - 1);
      CommitOneAt(CommitAll(b, leaseID, reqs, now, n - 1), leaseID, reqs[n - 1], now);
    }
  }

  /** A store the first `n` requirements do not mention is left alone. */
  lemma {:induction false} CommitAllUnmentioned(b: Backend, leaseID: string, reqs: seq<Requirement>, now: int, n: nat,
          k: string)
    requires n <= |reqs| && !Mentions(reqs, n, k)
    ensures k in b.roll ==>
            k in CommitAll(b, leaseID, reqs, now, n).roll && CommitAll(b, leaseID, reqs, now, n).roll[k] == b.roll[k]
    ensures k in b.conc ==>
            k in CommitAll(b, leaseID, reqs, now, n).conc && CommitAll(b, leaseID, reqs, now, n).conc[k] == b.conc[k]
  {
    hide CommitOne, R.Add, C.Add;
    if n > 0 {
      assert reqs[n - 1].key != k;
      assert !Mentions(reqs, n - 1, k);
      CommitAllUnmentioned(b, leaseID, reqs, now, n - 1, k);
      CommitAllOutside(b, leaseID, reqs, now, n - 1);
      CommitOneAt(CommitAll(b, leaseID, reqs, now, n - 1), leaseID, reqs[n - 1], now);
    }
  }

  /** A duplicate-free request adds exactly one entry, of the requested amount, to each store it
      mentions. */
  lemma {:induction false} CommitAllAtRolling(b: Backend, leaseID: string, reqs: seq<Requirement>, now: int, n: nat,
          i: nat)
    requires i < n <= |reqs| && DistinctKeys(reqs) && reqs[i].key in b.roll
    ensures var k, c := reqs[i].key, CommitAll(b, leaseID, reqs, now, n);
            && k in c.roll
            && c.roll[k] ==
               if k in b.defs && b.defs[k].kind.Rolling? then
                 R.Add(b.roll[k], leaseID, reqs[i].amount, now + b.defs[k].windowSeconds * SECOND)
               else b.roll[k]
  {
    hide CommitOne, R.Add, C.Add;
    CommitAllOutside(b, leaseID, reqs, now, n - 1);
    CommitOneAt(CommitAll(b, leaseID, reqs, now, n - 1), leaseID, reqs[n - 1], now);
    if i < n - 1 {
      CommitAllAtRolling(b, leaseID, reqs, now, n - 1, i);
    } else {
      CommitAllUnmentioned(b, leaseID, reqs, now, n - 1, reqs[i].key);
    }
  }

  lemma {:induction false} CommitAllAtConcurrency(b: Backend, leaseID: string, reqs: seq<Requirement>, now: int, n: nat,
          i: nat)
    requires i < n <= |reqs| && DistinctKeys(reqs) && reqs[i].key in b.conc
    ensures var k, c := reqs[i].key, CommitAll(b, leaseID, reqs, now, n);
            && k in c.conc
            && c.conc[k] ==
               if k in b.defs && b.defs[k].kind.Concurrency? then
                 C.Add(b.conc[k], leaseID, now + b.defs[k].timeoutSeconds * SECOND)
               else b.conc[k]
  {
    hide CommitOne, R.Add, C.Add;
    CommitAllOutside(b, leaseID, reqs, now, n - 1);
    CommitOneAt(CommitAll(b, leaseID, reqs, now, n - 1), leaseID, reqs[n - 1], now);
    if i < n - 1 {
      CommitAllAtConcurrency(b, leaseID, reqs, now, n - 1, i);
    } else {
      CommitAllUnmentioned(b, leaseID, reqs, now, n - 1, reqs[i].key);
    }
  }

  lemma ReleaseOneAt(b: Backend, leaseID: string, key: string)
    ensures SameOutside(b, ReleaseOne(b, leaseID, key)) && ReleaseOne(b, leaseID, key).roll == b.roll
    ensures forall k :: k in b.conc ==>
              ReleaseOne(b, leaseID, key).conc[k] ==
              if k == key && k in b.defs && b.defs[k].kind.Concurrency? then
                C.Release(b.conc[k], leaseID)
              else b.conc[k]
  {
    hide C.Release;
  }

  /** Releasing a lease touches exactly the concurrency stores it reserved. */
  lemma {:induction false} ReleaseAllOutside(b: Backend, leaseID: string, reqs: seq<Requirement>, n: nat)
    requires n <= |reqs|
    ensures SameOutside(b, ReleaseAll(b, leaseID, reqs, n)) && ReleaseAll(b, leaseID, reqs, n).roll == b.roll
  {
    hide ReleaseOne;
    if n > 0 {
      ReleaseAllOutside(b, leaseID, reqs, n - 1);
      ReleaseOneAt(ReleaseAll(b, leaseID, reqs, n - 1), leaseID, reqs[n - 1].key);
    }
  }

  lemma {:induction false} ReleaseAllAt(b: Backend, leaseID: string, reqs: seq<Requirement>, n: nat, k: string)
    requires n <= |reqs| && k in b.conc
    ensures k in ReleaseAll(b, leaseID, reqs, n).conc
    ensures ReleaseAll(b, leaseID, reqs, n).conc[k] ==
            if Mentions(reqs, n, k) && k in b.defs && b.defs[k].kind.Concurrency? then
              C.Release(b.conc[k], leaseID)
            else b.conc[k]
  {
    hide ReleaseOne;
    if n > 0 {
      ReleaseAllAt(b, leaseID, reqs, n - 1, k);
      ReleaseAllOutside(b, leaseID, reqs, n - 1);
      ReleaseOneAt(ReleaseAll(b, leaseID, reqs, n - 1), leaseID, reqs[n - 1].key);
      assert C.Release(C.Release(b.conc[k], leaseID), leaseID) == C.Release(b.conc[k], leaseID);
      assert Mentions(reqs, n, k) <==> Mentions(reqs, n - 1, k) || reqs[n - 1].key == k;
    }
  }

  /** Moving a capacity moves nothing else. */
  lemma UpdateCapacityAt(b: Backend, def: Definition)
    ensures SameOutside(b, UpdateCapacity(b, def))
    ensures forall k :: k in b.roll ==>
            UpdateCapacity(b, def).roll[k] == b.roll[k].(cap := UpdateCapacity(b, def).roll[k].cap)
    ensures forall k :: k in b.conc ==>
            UpdateCapacity(b, def).conc[k] == b.conc[k].(cap := UpdateCapacity(b, def).conc[k].cap)
  {
    UpdateCapacityOutside(b, def);
    var u := UpdateCapacity(b, def);
    forall k | k in b.roll
      ensures u.roll[k] == b.roll[k].(cap := u.roll[k].cap)
    {
    }
    forall k | k in b.conc
      ensures u.conc[k] == b.conc[k].(cap := u.conc[k].cap)
    {
    }
  }

  lemma UpdateCapacityOutside(b: Backend, def: Definition)
    ensures SameOutside(b, UpdateCapacity(b, def))
  {
  }

  lemma EnsureStoresAt(b: Backend, def: Definition)
    ensures var e := EnsureStores(b, def);
            && e.defs == b.defs && e.states == b.states && e.debt == b.debt && e.leases == b.leases
            && e.roll == (if def.kind.Rolling? && def.key !in b.roll then
                            b.roll[def.key := R.Empty(def.capacity)]
                          else b.roll)
            && e.conc == (if def.kind.Concurrency? && def.key !in b.conc then
                            b.conc[def.key := C.Empty(def.capacity)]
                          else b.conc)
  {
    hide R.Empty, C.Empty;
    match def.kind {
      case Rolling =>
      case Concurrency =>
      case OtherKind =>
    }
  }
}
