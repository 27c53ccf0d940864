/** What the limiter answers and writes down, said by what the caller sent and by the lines the ledger
    lists, without the functions that compute it. */
module Admission {
  import opened Limits
  import opened LimiterRuns
  import opened LimiterFacts
  import opened LedgerRefinement
  import opened LedgerStores
  import opened LedgerSafety
  import opened Requirements
  import L = Limiter
  import G = Ledger

  // ---- Answers given before any usage is looked at ----

  lemma MalformedIsRefused(b: L.Backend, req: ReserveRequest, now: int)
    requires req.leaseID == "" || req.requirements == []
    ensures L.Reserve(b, req, now) == (b, ReserveResponse(false, 0, 0, "invalid_request"))
  {
  }

  /** A lease on record is answered as it was exactly when it asks for the same requirements, in whatever
      order; otherwise the request is invalid.  Nothing is reserved either way. */
  lemma RecordedLeaseExactly(b: L.Backend, req: ReserveRequest, now: int)
    requires req.leaseID != "" && req.requirements != [] && req.leaseID in b.leases
    requires DistinctKeys(req.requirements) && DistinctKeys(b.leases[req.leaseID].requirements)
    ensures var (c, reply) := L.Reserve(b, req, now);
            var lease := b.leases[req.leaseID];
            && c == b
            && (reply.allowed <==> Elements(req.requirements) == Elements(lease.requirements))
            && reply == (if reply.allowed then ReserveResponse(true, 0, lease.reservedAtUnix, "")
                         else ReserveResponse(false, 0, 0, "invalid_request"))
  {
    hide L.RequirementsEqual, L.PurgeAll, L.MaxRetry, L.Commit;
    RequirementsEqualIsSetEquality(b.leases[req.leaseID].requirements, req.requirements);
  }

  predicate IsDecreasing(states: map<string, LimitState>, key: string) {
    key in states && states[key].status == Status.Decreasing
  }

  /** A new lease is refused for the first of its limits that is being decreased. */
  lemma DecreasingIsNamed(b: L.Backend, req: ReserveRequest, now: int, i: nat)
    requires req.leaseID != "" && req.leaseID !in b.leases && i < |req.requirements|
    requires IsDecreasing(b.states, req.requirements[i].key)
    requires forall j :: 0 <= j < i ==> !IsDecreasing(b.states, req.requirements[j].key)
    ensures L.Reserve(b, req, now) ==
            (b, ReserveResponse(false, 10000, 0, "limit_decreasing:" + req.requirements[i].key))
  {
    hide L.PurgeAll, L.MaxRetry, L.Commit;
    var d := L.FirstDecreasing(b.states, req.requirements, 0);
    hide L.FirstDecreasing, L.FirstUnknown;
    assert d == i;
  }

  /** With none of them, it is refused for the first that is not defined. */
  lemma UnknownIsNamed(b: L.Backend, req: ReserveRequest, now: int, i: nat)
    requires req.leaseID != "" && req.leaseID !in b.leases && i < |req.requirements|
    requires forall j :: 0 <= j < |req.requirements| ==> !IsDecreasing(b.states, req.requirements[j].key)
    requires req.requirements[i].key !in b.defs && forall j :: 0 <= j < i ==> req.requirements[j].key in b.defs
    ensures L.Reserve(b, req, now) ==
            (b, ReserveResponse(false, 0, 0, "unknown_limit_key:" + req.requirements[i].key))
  {
    hide L.PurgeAll, L.MaxRetry, L.Commit;
    var u := L.FirstUnknown(b.defs, req.requirements, 0);
    hide L.FirstDecreasing, L.FirstUnknown;
    assert u == i;
  }

  // ---- Room ----

  /** What the grants that expire after `now` add up to. */
  ghost function Taken(gs: seq<G.Grant>, now: int): nat {
    if gs == [] then 0 else (if now < gs[0].expiresAt then gs[0].amount else 0) + Taken(gs[1..], now)
  }

  /** The lines of leases not given back and not expired. */
  ghost function InHand(hs: seq<G.Hold>, now: int): set<int> {
    set i | 0 <= i < |hs| && !hs[i].released && now < hs[i].expiresAt
  }

  lemma {:induction false} TakenIsLive(gs: seq<G.Grant>, now: int)
    ensures Taken(gs, now) == G.Live(gs, now)
  {
    if gs != [] {
      var n := |gs| - 1;
      TakenIsLive(gs[..n], now);
      LivePrefix(gs[..n], gs[n], n, now);
      assert gs[..n] + [gs[n]] == gs;
      TakenSnoc(gs[..n], gs[n], now);
    }
  }

  lemma {:induction false} TakenSnoc(gs: seq<G.Grant>, g: G.Grant, now: int)
    ensures Taken(gs + [g], now) == Taken(gs, now) + if now < g.expiresAt then g.amount else 0
  {
    if gs == [] {
      assert (gs + [g])[1..] == [];
    } else {
      TakenSnoc(gs[1..], g, now);
      assert (gs + [g])[1..] == gs[1..] + [g];
    }
  }

  lemma {:induction false} InHandIsHeld(hs: seq<G.Hold>, now: int)
    ensures |InHand(hs, now)| == G.HeldCount(hs, now)
  {
    if hs == [] {
      assert InHand(hs, now) == {};
    } else {
      var n := |hs| - 1;
      InHandIsHeld(hs[..n], now);
      HeldPrefix(hs, n, now);
      assert InHand(hs, now) == InHand(hs[..n], now) + if G.Held(hs[n], now) then {n} else {};
    }
  }

  lemma {:induction false} HeldPrefix(hs: seq<G.Hold>, n: nat, now: int)
    requires n < |hs|
    ensures G.HeldFirst(hs[..|hs| - 1], n, now) == G.HeldFirst(hs, n, now)
  {
    if n > 0 {
      HeldPrefix(hs, n - 1, now);
    }
  }

  /** The limit can take this requirement at `now` on top of what it lists. */
  ghost predicate HasRoom(l: G.Ledger, r: Requirement, now: int) {
    r.key in l.defs &&
    match l.defs[r.key].kind
    case Rolling => r.key in l.grants && Taken(l.grants[r.key], now) + r.amount <= l.defs[r.key].capacity
    case Concurrency => r.key in l.holds && |InHand(l.holds[r.key], now)| < l.defs[r.key].capacity
    case OtherKind => true
  }

  lemma RoomIsNotFull(b: L.Backend, l: G.Ledger, clock: int, r: Requirement, now: int)
    requires Rel(b, l, clock) && r.key in b.defs
    ensures HasRoom(l, r, now) <==> !G.Full(l, r, now)
  {
    hide WithinLimits, RollRel, ConcRel, G.Live, G.HeldCount, Taken, InHand;
    StoresInPlace(b);
    if r.key in l.grants {
      TakenIsLive(l.grants[r.key], now);
    }
    if r.key in l.holds {
      InHandIsHeld(l.holds[r.key], now);
    }
  }

  /** The wait is asked for by a full limit, and no full limit asks for more. */
  ghost predicate IsLongestWait(l: G.Ledger, reqs: seq<Requirement>, now: int, wait: int) {
    && (exists i :: 0 <= i < |reqs| && reqs[i].key in l.defs && !HasRoom(l, reqs[i], now)
                    && wait == L.RetryAfter(l.defs[reqs[i].key]))
    && forall i :: 0 <= i < |reqs| && reqs[i].key in l.defs && !HasRoom(l, reqs[i], now) ==>
         L.RetryAfter(l.defs[reqs[i].key]) <= wait
  }

  lemma {:induction false} MaxRetryExactly(l: G.Ledger, reqs: seq<Requirement>, now: int, n: nat)
    requires n <= |reqs|
    ensures var wait := G.MaxRetry(l, reqs, now, n);
            && wait >= 0
            && (wait == 0 <==> forall i :: 0 <= i < n ==> !G.Full(l, reqs[i], now))
            && (wait > 0 ==> exists i :: 0 <= i < n && G.Full(l, reqs[i], now)
                                         && wait == L.RetryAfter(l.defs[reqs[i].key]))
            && forall i :: 0 <= i < n && G.Full(l, reqs[i], now) ==> L.RetryAfter(l.defs[reqs[i].key]) <= wait
  {
    hide L.RetryAfter;
    if n > 0 {
      MaxRetryExactly(l, reqs, now, n - 1);
      if G.Full(l, reqs[n - 1], now) {
        WaitIsPositive(l.defs[reqs[n - 1].key]);
      }
    }
  }

  lemma WaitIsPositive(def: Definition)
    ensures L.RetryAfter(def) > 0
  {
  }

  /** A new lease is granted exactly when every limit it names has room; otherwise it is told the longest
      wait of the full ones, and nothing is written. */
  lemma AdmissionIsExact(b: L.Backend, l: G.Ledger, clock: int, req: ReserveRequest, now: int)
    requires Rel(b, l, clock) && clock <= now && DistinctKeys(req.requirements)
    requires req.leaseID != "" && req.requirements != [] && NeverGranted(l, req.leaseID) && req.leaseID !in b.leases
    requires forall i :: 0 <= i < |req.requirements| ==>
               req.requirements[i].key in b.defs && !IsDecreasing(b.states, req.requirements[i].key)
    ensures var reply := L.Reserve(b, req, now).1;
            && (reply.allowed <==> forall i :: 0 <= i < |req.requirements| ==> HasRoom(l, req.requirements[i], now))
            && (reply.allowed ==> reply == ReserveResponse(true, 0, now / 1_000_000, ""))
            && (!reply.allowed ==>
                  && reply == ReserveResponse(false, reply.retryAfterMs, 0, "")
                  && IsLongestWait(l, req.requirements, now, reply.retryAfterMs)
                  && G.Reserve(l, req, now).0 == l)
  {
    hide Rel, L.Reserve, G.Commit, HasRoom, G.Full, NeverGranted, L.RetryAfter, G.MaxRetry, L.RequirementsEqual,
        WithinLimits;
    ReserveRefines(b, l, clock, req, now);
    SameShape(b, l, clock);
    MaxRetryExactly(l, req.requirements, now, |req.requirements|);
    forall i | 0 <= i < |req.requirements|
      ensures HasRoom(l, req.requirements[i], now) <==> !G.Full(l, req.requirements[i], now)
    {
      RoomIsNotFull(b, l, clock, req.requirements[i], now);
    }
  }

  // ---- Completions ----

  /** What the actuals name for a limit beyond what was reserved for it. */
  ghost function Excess(actuals: seq<Actual>, key: string, reserved: nat): nat {
    if actuals == [] then 0
    else
      var n := |actuals| - 1;
      Excess(actuals[..n], key, reserved)
      + if actuals[n].key == key && actuals[n].actualAmount > reserved then actuals[n].actualAmount - reserved else 0
  }

  /** `h` is `g` lowered to the least of the actuals that are below the reservation, if there are any. */
  ghost predicate Lowered(g: G.Grant, h: G.Grant, actuals: seq<Actual>, key: string, reserved: nat) {
    && h == g.(amount := h.amount) && h.amount <= g.amount
    && (forall i :: 0 <= i < |actuals| && actuals[i].key == key && actuals[i].actualAmount < reserved ==>
          h.amount <= actuals[i].actualAmount)
    && (h.amount == g.amount
        || exists i :: && 0 <= i < |actuals| && actuals[i].key == key
                       && h.amount == actuals[i].actualAmount < reserved)
  }

  /** What reconciling leaves of one rolling limit. */
  ghost predicate Reconciled(l: G.Ledger, r: G.Ledger, id: string, actuals: seq<Actual>, key: string, reserved: nat) {
    && r.defs == l.defs && r.states == l.states && r.leases == l.leases && r.holds == l.holds
    && key in l.defs && key in l.grants && key in r.grants && |r.grants[key]| == |l.grants[key]|
    && (forall i :: 0 <= i < |l.grants[key]| ==>
          if l.grants[key][i].lease == id then
            Lowered(l.grants[key][i], r.grants[key][i], actuals, key, reserved)
          else r.grants[key][i] == l.grants[key][i])
    && L.DebtOf(r.debt, key) ==
       L.DebtOf(l.debt, key) + if l.defs[key].overage.Debt? then Excess(actuals, key, reserved) else 0
  }

  lemma {:induction false} ReconcilesExactly(l: G.Ledger, id: string, reserved: map<string, nat>, actuals: seq<Actual>,
          n: nat, key: string)
    requires n <= |actuals| && key in l.grants && key in l.defs && l.defs[key].kind.Rolling?
    ensures Reconciled(l, G.ReconcileAll(l, id, reserved, actuals, n), id, actuals[..n], key,
        L.ReservedFor(reserved, key))
  {
    hide G.ReconcileOne, Lowered;
    var r := L.ReservedFor(reserved, key);
    if n == 0 {
      UnchangedIsLowered(l.grants[key], actuals[..0], key, r);
    } else {
      ReconcilesExactly(l, id, reserved, actuals, n - 1, key);
      assert actuals[..n] == actuals[..n - 1] + [actuals[n - 1]];
      var m := G.ReconcileAll(l, id, reserved, actuals, n - 1);
      OneReconciles(l, m, id, reserved, actuals[..n - 1], actuals[n - 1], key);
    }
  }

  lemma UnchangedIsLowered(gs: seq<G.Grant>, actuals: seq<Actual>, key: string, reserved: nat)
    requires actuals == []
    ensures forall i :: 0 <= i < |gs| ==> Lowered(gs[i], gs[i], actuals, key, reserved)
    ensures Excess(actuals, key, reserved) == 0
  {
  }

  lemma OneActual(l: G.Ledger, id: string, reserved: map<string, nat>, a: Actual, key: string)
    requires key in l.defs && l.defs[key].kind.Rolling? && key in l.grants
    ensures var o, r := G.ReconcileOne(l, id, reserved, a), L.ReservedFor(reserved, key);
            && o.defs == l.defs && o.states == l.states && o.leases == l.leases && o.holds == l.holds && key in o.grants
            && o.grants[key] == (if a.key == key && a.actualAmount < r then
                                   G.LowerGrants(l.grants[key], id, a.actualAmount)
                                 else l.grants[key])
            && L.DebtOf(o.debt, key) ==
               L.DebtOf(l.debt, key)
               + if l.defs[key].overage.Debt? && a.key == key && a.actualAmount > r then a.actualAmount - r else 0
  {
    hide G.LowerGrants, L.DebtOf;
    ActualKeepsHolds(l, id, reserved, a);
    if a.key != key {
      ReconcileOneOther(l, id, reserved, a, key);
      hide G.ReconcileOne;
    } else {
      var more := a.actualAmount - L.ReservedFor(reserved, key);
      if more > 0 {
        DebtIsAdded(l.debt, key, L.DebtOf(l.debt, key) + more);
      }
    }
  }

  lemma ActualKeepsHolds(l: G.Ledger, id: string, reserved: map<string, nat>, a: Actual)
    ensures G.ReconcileOne(l, id, reserved, a).holds == l.holds
  {
    hide G.LowerGrants;
  }

  lemma DebtIsAdded(debt: map<string, nat>, key: string, n: nat)
    ensures L.DebtOf(debt[key := n], key) == n
  {
  }

  lemma OneReconciles(l: G.Ledger, m: G.Ledger, id: string, reserved: map<string, nat>, actuals: seq<Actual>, a: Actual,
          key: string)
    requires key in l.defs && l.defs[key].kind.Rolling?
    requires Reconciled(l, m, id, actuals, key, L.ReservedFor(reserved, key))
    ensures Reconciled(l, G.ReconcileOne(m, id, reserved, a), id, actuals + [a], key, L.ReservedFor(reserved, key))
  {
    hide Lowered, G.LowerGrants, G.ReconcileOne, Excess, L.DebtOf, L.ReservedFor;
    var r, o := L.ReservedFor(reserved, key), G.ReconcileOne(m, id, reserved, a);
    OneMoreExcess(actuals, a, key, r);
    OneActual(m, id, reserved, a, key);
    LowerGrantsAt(m.grants[key], id, a.actualAmount);
    forall i | 0 <= i < |l.grants[key]| && l.grants[key][i].lease == id
      ensures Lowered(l.grants[key][i], o.grants[key][i], actuals + [a], key, r)
    {
      LoweredKeepsLease(l.grants[key][i], m.grants[key][i], actuals, key, r);
      OneMoreLowered(l.grants[key][i], m.grants[key][i], actuals, a, key, r);
    }
  }

  lemma LoweredKeepsLease(g: G.Grant, h: G.Grant, actuals: seq<Actual>, key: string, reserved: nat)
    requires Lowered(g, h, actuals, key, reserved)
    ensures h.lease == g.lease && h.at == g.at && h.expiresAt == g.expiresAt && h.amount <= g.amount
  {
  }

  lemma OneMoreExcess(actuals: seq<Actual>, a: Actual, key: string, reserved: nat)
    ensures Excess(actuals + [a], key, reserved) ==
            Excess(actuals, key, reserved)
            + if a.key == key && a.actualAmount > reserved then a.actualAmount - reserved else 0
  {
    assert (actuals + [a])[..|actuals|] == actuals;
  }

  lemma OneMoreLowered(g: G.Grant, h: G.Grant, actuals: seq<Actual>, a: Actual, key: string, reserved: nat)
    requires Lowered(g, h, actuals, key, reserved)
    ensures Lowered(g,
                if a.key == key && a.actualAmount < reserved && a.actualAmount < h.amount then
                  h.(amount := a.actualAmount)
                else h, actuals + [a], key, reserved)
  {
    var more := actuals + [a];
    assert more[|actuals|] == a;
    if h.amount != g.amount {
      var i :| 0 <= i < |actuals| && actuals[i].key == key && h.amount == actuals[i].actualAmount < reserved;
      assert more[i] == actuals[i];
    }
  }

  /** Completing a lease on record gives back its holds and lowers its grants to what was used, and no others;
      what was used beyond the reservation is owed where the limit allows it; and the lease is forgotten. */
  lemma CompletionIsExact(l: G.Ledger, done: CompleteRequest, key: string)
    requires done.leaseID in l.leases && key in l.defs
    ensures var c, lease := G.Complete(l, done), l.leases[done.leaseID];
            && c.defs == l.defs && c.states == l.states && c.leases == l.leases - {done.leaseID}
            && (l.defs[key].kind.Rolling? && key in l.grants ==>
                  Reconciled(l.(leases := c.leases, holds := c.holds), c, done.leaseID, done.actuals, key,
                      L.ReservedFor(lease.reservedAmounts, key)))
            && (l.defs[key].kind.Concurrency? && key in l.holds ==>
                  var named := Mentions(lease.requirements, |lease.requirements|, key);
                  && key in c.holds && |c.holds[key]| == |l.holds[key]|
                  && forall i :: 0 <= i < |l.holds[key]| ==>
                       c.holds[key][i] ==
                       if named && l.holds[key][i].lease == done.leaseID then l.holds[key][i].(released := true)
                       else l.holds[key][i])
  {
    hide G.ReconcileAll, Lowered;
    var lease := l.leases[done.leaseID];
    var r := G.ReleaseAll(l, done.leaseID, lease.requirements);
    ReleaseKeeps(l, done.leaseID, lease.requirements);
    CompleteKeepsUnknown(l, key, done);
    ReconcileAllHolds(r, done.leaseID, lease.reservedAmounts, done.actuals, |done.actuals|);
    assert done.actuals[..|done.actuals|] == done.actuals;
    if l.defs[key].kind.Rolling? && key in l.grants {
      ReconcilesExactly(r, done.leaseID, lease.reservedAmounts, done.actuals, |done.actuals|, key);
    }
  }

  lemma UnknownLeaseChangesNothing(b: L.Backend, done: CompleteRequest)
    requires done.leaseID !in b.leases
    ensures L.Complete(b, done) == b
  {
  }

  // ---- Definitions ----

  /** What the limit holds at `now` fits `target`. */
  ghost predicate FitsInto(l: G.Ledger, key: string, now: int, target: nat)
    requires key in l.defs
  {
    match l.defs[key].kind
    case Rolling => key in l.grants && Taken(l.grants[key], now) <= target
    case Concurrency => key in l.holds && |InHand(l.holds[key], now)| <= target
    case OtherKind => false
  }

  lemma UsageFits(b: L.Backend, l: G.Ledger, clock: int, key: string, now: int, target: nat)
    requires Rel(b, l, clock) && key in l.defs && !l.defs[key].kind.OtherKind?
    ensures G.Usage(l, key, now) <= target <==> FitsInto(l, key, now, target)
  {
    hide WithinLimits, RollRel, ConcRel, G.Live, G.HeldCount, Taken, InHand;
    StoresInPlace(b);
    if key in l.grants {
      TakenIsLive(l.grants[key], now);
    }
    if key in l.holds {
      InHandIsHeld(l.holds[key], now);
    }
  }

  /** A pending decrease is applied exactly when its target is positive and below the capacity and what the
      limit lists as live fits it; then the target is its capacity, and else nothing happens. */
  lemma DecreaseIsExact(b: L.Backend, l: G.Ledger, clock: int, key: string, now: int)
    requires Rel(b, l, clock) && clock <= now
    ensures var (c, applied) := L.TryApplyDecrease(b, key, now);
            && (applied.Some? <==>
                  && IsDecreasing(b.states, key) && key in b.defs
                  && 0 < b.states[key].pendingDecreaseTo < b.defs[key].capacity
                  && FitsInto(l, key, now, b.states[key].pendingDecreaseTo))
            && (applied.None? ==> c.defs == b.defs && c.states == b.states)
            && (applied.Some? ==>
                  var def := b.defs[key].(capacity := b.states[key].pendingDecreaseTo);
                  && applied.value == LimitState(def, Active, 0)
                  && c.defs == b.defs[key := def] && c.states == b.states[key := applied.value])
  {
    hide Rel, L.TryApplyDecrease, FitsInto, G.Usage, WithinLimits;
    TryApplyDecreaseRefines(b, l, clock, key, now);
    SameShape(b, l, clock);
    SameShape(L.TryApplyDecrease(b, key, now).0, G.TryApplyDecrease(l, key, now).0, now);
    if key in b.states {
      DefinedHere(b, key);
      if !b.defs[key].kind.OtherKind? {
        UsageFits(b, l, clock, key, now, b.states[key].pendingDecreaseTo);
      } else {
        NothingFits(l, key, now, b.states[key].pendingDecreaseTo);
      }
    }
  }

  lemma NothingFits(l: G.Ledger, key: string, now: int, target: nat)
    requires key in l.defs && l.defs[key].kind.OtherKind?
    ensures !FitsInto(l, key, now, target)
  {
  }
}
