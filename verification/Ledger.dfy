/** The rate limiter as a plain ledger: every grant ever made is listed once, nothing is ever purged,
    and a request is decided by adding up what is live at its time. */
module Ledger {
  import opened Wrappers
  import opened Limits
  import L = Limiter

  datatype Grant = Grant(lease: string, at: int, amount: nat, expiresAt: int)

  datatype Hold = Hold(lease: string, expiresAt: int, released: bool)

  datatype Ledger = Ledger(
    defs: map<string, Definition>,
    states: map<string, LimitState>,
    grants: map<string, seq<Grant>>,
    holds: map<string, seq<Hold>>,
    debt: map<string, nat>,
    leases: map<string, Lease>)

  const EMPTY := Ledger(map[], map[], map[], map[], map[], map[])

  /** Total of the first `n` grants that are live at `now`. */
  function LiveFirst(gs: seq<Grant>, n: nat, now: int): nat
    requires n <= |gs|
  {
    if n == 0 then 0
    else LiveFirst(gs, n - 1, now) + if gs[n - 1].expiresAt > now then gs[n - 1].amount else 0
  }

  function Live(gs: seq<Grant>, now: int): nat {
    LiveFirst(gs, |gs|, now)
  }

  predicate Held(h: Hold, now: int) {
    !h.released && h.expiresAt > now
  }

  function HeldFirst(hs: seq<Hold>, n: nat, now: int): nat
    requires n <= |hs|
  {
    if n == 0 then 0 else HeldFirst(hs, n - 1, now) + if Held(hs[n - 1], now) then 1 else 0
  }

  function HeldCount(hs: seq<Hold>, now: int): nat {
    HeldFirst(hs, |hs|, now)
  }

  /** The limit of this requirement has no room for it at `now`. */
  predicate Full(l: Ledger, r: Requirement, now: int) {
    r.key in l.defs &&
    match l.defs[r.key].kind
    case Rolling => r.key in l.grants && Live(l.grants[r.key], now) + r.amount > l.defs[r.key].capacity
    case Concurrency => r.key in l.holds && HeldCount(l.holds[r.key], now) + 1 > l.defs[r.key].capacity
    case OtherKind => false
  }

  /** The longest wait any full limit asks for, 0 when none is full. */
  function MaxRetry(l: Ledger, reqs: seq<Requirement>, now: int, n: nat): int
    requires n <= |reqs|
  {
    if n == 0 then 0
    else if Full(l, reqs[n - 1], now) then L.Max(MaxRetry(l, reqs, now, n - 1), L.RetryAfter(l.defs[reqs[n - 1].key]))
    else MaxRetry(l, reqs, now, n - 1)
  }

  /** Every limit the request names gets one more line. */
  function Commit(l: Ledger, req: ReserveRequest, now: int): Ledger {
    var amounts := L.IndexByKey(req.requirements);
    l.(grants := map k | k in l.grants ::
                   if k in amounts && k in l.defs && l.defs[k].kind.Rolling? then
                     l.grants[k] + [Grant(req.leaseID, now, amounts[k], now + l.defs[k].windowSeconds * SECOND)]
                   else l.grants[k],
       holds := map k | k in l.holds ::
                  if k in amounts && k in l.defs && l.defs[k].kind.Concurrency? then
                    l.holds[k] + [Hold(req.leaseID, now + l.defs[k].timeoutSeconds * SECOND, false)]
                  else l.holds[k],
       leases := l.leases[req.leaseID := Lease(UnixMilli(now), req.requirements, amounts)])
  }

  function Reserve(l: Ledger, req: ReserveRequest, now: int): (Ledger, ReserveResponse) {
    var early := L.EarlyReply(l.defs, l.states, l.leases, req);
    var wait := MaxRetry(l, req.requirements, now, |req.requirements|);
    if early.Some? then (l, early.value)
    else if wait > 0 then (l, L.Refused(wait, ""))
    else (Commit(l, req, now), L.Granted(now))
  }

  function ReleaseHolds(hs: seq<Hold>, id: string): seq<Hold> {
    seq(|hs|, i requires 0 <= i < |hs| => if hs[i].lease == id then hs[i].(released := true) else hs[i])
  }

  function LowerGrants(gs: seq<Grant>, id: string, amount: nat): seq<Grant> {
    seq(|gs|, i requires 0 <= i < |gs| =>
      if gs[i].lease == id && amount < gs[i].amount then gs[i].(amount := amount) else gs[i])
  }

  function ReconcileOne(l: Ledger, leaseID: string, reserved: map<string, nat>, a: Actual): Ledger {
    if a.key !in l.defs || !l.defs[a.key].kind.Rolling? then l
    else if a.actualAmount < L.ReservedFor(reserved, a.key) then
      if a.key in l.grants then l.(grants := l.grants[a.key := LowerGrants(l.grants[a.key], leaseID, a.actualAmount)])
          else l
    else if a.actualAmount > L.ReservedFor(reserved, a.key) && l.defs[a.key].overage.Debt? then
      l.(debt := l.debt[a.key := L.DebtOf(l.debt, a.key) + (a.actualAmount - L.ReservedFor(reserved, a.key))])
    else l
  }

  function ReconcileAll(l: Ledger, leaseID: string, reserved: map<string, nat>, actuals: seq<Actual>, n: nat): Ledger
    requires n <= |actuals|
  {
    if n == 0 then l
    else ReconcileOne(ReconcileAll(l, leaseID, reserved, actuals, n - 1), leaseID, reserved, actuals[n - 1])
  }

  function ReleaseAll(l: Ledger, leaseID: string, reqs: seq<Requirement>): Ledger {
    l.(holds := map k | k in l.holds ::
                  if k in l.defs && l.defs[k].kind.Concurrency? && exists i :: 0 <= i < |reqs| && reqs[i].key == k then
                    ReleaseHolds(l.holds[k], leaseID)
                  else l.holds[k])
  }

  function Complete(l: Ledger, req: CompleteRequest): Ledger {
    if req.leaseID !in l.leases then l
    else
      var lease := l.leases[req.leaseID];
      var r := ReleaseAll(l, req.leaseID, lease.requirements);
      var c := ReconcileAll(r, req.leaseID, lease.reservedAmounts, req.actuals, |req.actuals|);
      c.(leases := c.leases - {req.leaseID})
  }

  function Install(l: Ledger, state: LimitState): Ledger {
    var def := state.definition;
    l.(defs := l.defs[def.key := def],
       states := l.states[def.key := state],
       grants := if def.kind.Rolling? && def.key !in l.grants then l.grants[def.key := []] else l.grants,
       holds := if def.kind.Concurrency? && def.key !in l.holds then l.holds[def.key := []] else l.holds)
  }

  function ApplyDefinition(l: Ledger, def: Definition): Ledger {
    if def.key !in l.defs || def.capacity >= l.defs[def.key].capacity then
      Install(l, LimitState(def, Active, 0))
    else
      l.(states := l.states[def.key := LimitState(l.defs[def.key], Decreasing, def.capacity)])
  }

  /** What the limit holds at `now`. */
  function Usage(l: Ledger, key: string, now: int): nat {
    if key in l.grants then Live(l.grants[key], now)
    else if key in l.holds then HeldCount(l.holds[key], now)
    else 0
  }

  /** A pending decrease is applied exactly when what the limit holds at `now` fits the target. */
  function TryApplyDecrease(l: Ledger, key: string, now: int): (Ledger, Option<LimitState>) {
    if L.PendingDecrease(l.states, key).Some? && !l.states[key].definition.kind.OtherKind?
       && Usage(l, key, now) <= l.states[key].pendingDecreaseTo then
      var state := LimitState(l.states[key].definition.(capacity := l.states[key].pendingDecreaseTo), Active, 0);
      (l.(states := l.states[key := state], defs := l.defs[key := state.definition]), Some(state))
    else (l, None)
  }
}
