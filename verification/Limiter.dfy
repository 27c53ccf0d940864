/** The in-memory rate limiter as one pure step per operation, over stores without heaps. */
module Limiter {
  import opened Wrappers
  import opened Limits
  import R = RollingSpec
  import C = ConcurrencySpec

  datatype Backend = Backend(
    defs: map<string, Definition>,
    states: map<string, LimitState>,
    roll: map<string, R.Store>,
    conc: map<string, C.Store>,
    debt: map<string, nat>,
    leases: map<string, Lease>)

  const EMPTY := Backend(map[], map[], map[], map[], map[], map[])

  const INVALID_REQUEST := "invalid_request"
  const DECREASE_RETRY_MS := 10000

  /** Every defined limit has the store its kind needs. */
  ghost predicate StoresExist(defs: map<string, Definition>, roll: map<string, R.Store>, conc: map<string, C.Store>) {
    forall k :: k in defs ==>
      && (defs[k].kind.Rolling? ==> k in roll)
      && (defs[k].kind.Concurrency? ==> k in conc)
  }

  /** Definitions and states describe the same limits, each filed under its own key. */
  ghost predicate StatesMatch(defs: map<string, Definition>, states: map<string, LimitState>) {
    && (forall k :: k in defs <==> k in states)
    && (forall k :: k in defs ==> defs[k].key == k && states[k].definition == defs[k])
  }

  ghost predicate WellStored(b: Backend) {
    StatesMatch(b.defs, b.states) && StoresExist(b.defs, b.roll, b.conc)
  }

  function RetryAfter(def: Definition): (ms: int)
    ensures 0 < ms <= 5000 && (def.kind.Rolling? ==> ms >= 100) && (def.kind.Concurrency? ==> ms == 50)
    ensures def.kind.Rolling? && 1 <= def.windowSeconds <= 50 ==> 10 * ms == 1000 * def.windowSeconds
    ensures def.kind.Rolling? && def.windowSeconds > 50 ==> ms == 5000
    ensures def.kind.Rolling? && def.windowSeconds < 1 ==> ms == 100
  {
    match def.kind
    case Concurrency =>
      var capMs := if def.timeoutSeconds > 0 && def.timeoutSeconds * 1000 < 2000 then
                     def.timeoutSeconds * 1000
                   else 2000;
      if capMs < 50 then capMs else 50
    case Rolling =>
      var base := def.windowSeconds * 100;
      var base := if base < 100 then 100 else base;
      if base > 5000 then 5000 else base
    case OtherKind => 100
  }

  function IndexByKey(reqs: seq<Requirement>): (m: map<string, nat>)
    ensures forall k :: k in m <==> exists i :: 0 <= i < |reqs| && reqs[i].key == k
  {
    if reqs == [] then
      map[]
    else
      var last := reqs[|reqs| - 1];
      assert reqs == reqs[..|reqs| - 1] + [last];
      IndexByKey(reqs[..|reqs| - 1])[last.key := last.amount]
  }

  predicate RequirementsEqual(a: seq<Requirement>, b: seq<Requirement>) {
    && |a| == |b|
    && var lookup := IndexByKey(a);
       forall i :: 0 <= i < |b| ==> b[i].key in lookup && lookup[b[i].key] == b[i].amount
  }

  // ---- Reserve ----

  predicate IsDecreasing(states: map<string, LimitState>, key: string) {
    key in states && states[key].status.Decreasing?
  }

  /** The first of the requirements from `i` on whose limit is being decreased, or their number. */
  function FirstDecreasing(states: map<string, LimitState>, reqs: seq<Requirement>, i: nat): (j: nat)
    requires i <= |reqs|
    ensures i <= j <= |reqs|
    ensures forall n :: i <= n < j ==> !IsDecreasing(states, reqs[n].key)
    ensures j < |reqs| ==> IsDecreasing(states, reqs[j].key)
    decreases |reqs| - i
  {
    if i == |reqs| || IsDecreasing(states, reqs[i].key) then i else FirstDecreasing(states, reqs, i + 1)
  }

  function FirstUnknown(defs: map<string, Definition>, reqs: seq<Requirement>, i: nat): (j: nat)
    requires i <= |reqs|
    ensures i <= j <= |reqs|
    ensures forall n :: i <= n < j ==> reqs[n].key in defs
    ensures j < |reqs| ==> reqs[j].key !in defs
    decreases |reqs| - i
  {
    if i == |reqs| || reqs[i].key !in defs then i else FirstUnknown(defs, reqs, i + 1)
  }

  ghost function PurgeKey(b: Backend, key: string, now: int): Backend {
    if key !in b.defs then b
    else if b.defs[key].kind.Rolling? && key in b.roll then
      b.(roll := b.roll[key := R.Purge(b.roll[key], now)])
    else if b.defs[key].kind.Concurrency? && key in b.conc then
      b.(conc := b.conc[key := C.Purge(b.conc[key], now)])
    else b
  }

  ghost function PurgeAll(b: Backend, reqs: seq<Requirement>, now: int, n: nat): Backend
    requires n <= |reqs|
  {
    if n == 0 then b else PurgeKey(PurgeAll(b, reqs, now, n - 1), reqs[n - 1].key, now)
  }

  /** The limit of this requirement has no room for it. */
  predicate Full(b: Backend, r: Requirement) {
    r.key in b.defs &&
    match b.defs[r.key].kind
    case Rolling => r.key in b.roll && R.Used(b.roll[r.key]) + r.amount > b.roll[r.key].cap
    case Concurrency => r.key in b.conc && |b.conc[r.key].holds| + 1 > b.conc[r.key].cap
    case OtherKind => false
  }

  function Max(a: int, b: int): int {
    if a > b then a else b
  }

  /** The denial flag of Reserve: the longest wait any full limit asks for, 0 when none is full. */
  function MaxRetry(b: Backend, reqs: seq<Requirement>, n: nat): (ms: int)
    requires n <= |reqs|
    ensures ms >= 0
    ensures ms > 0 <==> exists i :: 0 <= i < n && Full(b, reqs[i])
  {
    if n == 0 then 0
    else if Full(b, reqs[n - 1]) then Max(MaxRetry(b, reqs, n - 1), RetryAfter(b.defs[reqs[n - 1].key]))
    else MaxRetry(b, reqs, n - 1)
  }

  function CommitOne(b: Backend, leaseID: string, r: Requirement, now: int): Backend {
    if r.key !in b.defs then b
    else
      var def := b.defs[r.key];
      if def.kind.Rolling? && r.key in b.roll then
        b.(roll := b.roll[r.key := R.Add(b.roll[r.key], leaseID, r.amount, now + def.windowSeconds * SECOND)])
      else if def.kind.Concurrency? && r.key in b.conc then
        b.(conc := b.conc[r.key := C.Add(b.conc[r.key], leaseID, now + def.timeoutSeconds * SECOND)])
      else b
  }

  function CommitAll(b: Backend, leaseID: string, reqs: seq<Requirement>, now: int, n: nat): Backend
    requires n <= |reqs|
  {
    if n == 0 then b else CommitOne(CommitAll(b, leaseID, reqs, now, n - 1), leaseID, reqs[n - 1], now)
  }

  function Refused(retryAfterMs: int, error: string): ReserveResponse {
    ReserveResponse(false, retryAfterMs, 0, error)
  }

  function Granted(now: int): ReserveResponse {
    ReserveResponse(true, 0, UnixMilli(now), "")
  }

  /** What the request gets before any store is looked at, if anything. */
  function EarlyReply(defs: map<string, Definition>, states: map<string, LimitState>, leases: map<string, Lease>,
          req: ReserveRequest): Option<ReserveResponse>
  {
    var reqs := req.requirements;
    if req.leaseID == "" || reqs == [] then Some(Refused(0, INVALID_REQUEST))
    else if req.leaseID in leases then
      var lease := leases[req.leaseID];
      if RequirementsEqual(lease.requirements, reqs) then Some(ReserveResponse(true, 0, lease.reservedAtUnix, ""))
      else Some(Refused(0, INVALID_REQUEST))
    else if FirstDecreasing(states, reqs, 0) < |reqs| then
      Some(Refused(DECREASE_RETRY_MS, "limit_decreasing:" + reqs[FirstDecreasing(states, reqs, 0)].key))
    else if FirstUnknown(defs, reqs, 0) < |reqs| then
      Some(Refused(0, "unknown_limit_key:" + reqs[FirstUnknown(defs, reqs, 0)].key))
    else None
  }

  ghost function Commit(b: Backend, req: ReserveRequest, now: int): Backend {
    var c := CommitAll(b, req.leaseID, req.requirements, now, |req.requirements|);
    c.(leases := c.leases[req.leaseID := Lease(UnixMilli(now), req.requirements, IndexByKey(req.requirements))])
  }

  ghost function Reserve(b: Backend, req: ReserveRequest, now: int): (Backend, ReserveResponse) {
    var early := EarlyReply(b.defs, b.states, b.leases, req);
    if early.Some? then (b, early.value)
    else
      var p := PurgeAll(b, req.requirements, now, |req.requirements|);
      var wait := MaxRetry(p, req.requirements, |req.requirements|);
      if wait > 0 then (p, Refused(wait, "")) else (Commit(p, req, now), Granted(now))
  }

  // ---- Complete ----

  function ReleaseOne(b: Backend, leaseID: string, key: string): Backend {
    if key in b.defs && b.defs[key].kind.Concurrency? && key in b.conc then
      b.(conc := b.conc[key := C.Release(b.conc[key], leaseID)])
    else b
  }

  function ReleaseAll(b: Backend, leaseID: string, reqs: seq<Requirement>, n: nat): Backend
    requires n <= |reqs|
  {
    if n == 0 then b else ReleaseOne(ReleaseAll(b, leaseID, reqs, n - 1), leaseID, reqs[n - 1].key)
  }

  function ReservedFor(reserved: map<string, nat>, key: string): nat {
    if key in reserved then reserved[key] else 0
  }

  function DebtOf(debt: map<string, nat>, key: string): nat {
    if key in debt then debt[key] else 0
  }

  function ReconcileOne(b: Backend, leaseID: string, reserved: map<string, nat>, a: Actual): Backend {
    if a.key !in b.defs || !b.defs[a.key].kind.Rolling? then b
    else if a.actualAmount < ReservedFor(reserved, a.key) then
      if a.key in b.roll then b.(roll := b.roll[a.key := R.Reduce(b.roll[a.key], leaseID, a.actualAmount)]) else b
    else if a.actualAmount > ReservedFor(reserved, a.key) && b.defs[a.key].overage.Debt? then
      b.(debt := b.debt[a.key := DebtOf(b.debt, a.key) + (a.actualAmount - ReservedFor(reserved, a.key))])
    else b
  }

  function ReconcileAll(b: Backend, leaseID: string, reserved: map<string, nat>, actuals: seq<Actual>, n: nat): Backend
    requires n <= |actuals|
  {
    if n == 0 then b
    else ReconcileOne(ReconcileAll(b, leaseID, reserved, actuals, n - 1), leaseID, reserved, actuals[n - 1])
  }

  function Complete(b: Backend, req: CompleteRequest): Backend {
    if req.leaseID !in b.leases then b
    else
      var lease := b.leases[req.leaseID];
      var r := ReleaseAll(b, req.leaseID, lease.requirements, |lease.requirements|);
      var c := ReconcileAll(r, req.leaseID, lease.reservedAmounts, req.actuals, |req.actuals|);
      c.(leases := c.leases - {req.leaseID})
  }

  // ---- Definitions ----

  function EnsureStores(b: Backend, def: Definition): Backend {
    if def.kind.Rolling? && def.key !in b.roll then b.(roll := b.roll[def.key := R.Empty(def.capacity)])
    else if def.kind.Concurrency? && def.key !in b.conc then b.(conc := b.conc[def.key := C.Empty(def.capacity)])
    else b
  }

  function UpdateCapacity(b: Backend, def: Definition): Backend {
    if def.kind.Rolling? && def.key in b.roll then
      b.(roll := b.roll[def.key := b.roll[def.key].(cap := def.capacity)])
    else if def.kind.Concurrency? && def.key in b.conc then
      b.(conc := b.conc[def.key := b.conc[def.key].(cap := def.capacity)])
    else b
  }

  function Install(b: Backend, state: LimitState): Backend {
    var def := state.definition;
    UpdateCapacity(EnsureStores(b.(defs := b.defs[def.key := def], states := b.states[def.key := state]), def), def)
  }

  function ApplyDefinition(b: Backend, def: Definition): Backend {
    if def.key !in b.defs || def.capacity >= b.defs[def.key].capacity then
      Install(b, LimitState(def, Active, 0))
    else
      b.(states := b.states[def.key := LimitState(b.defs[def.key], Decreasing, def.capacity)])
  }

  lemma InstallWellStored(b: Backend, state: LimitState)
    requires WellStored(b)
    ensures WellStored(Install(b, state))
  {
    hide StatesMatch, StoresExist, EnsureStores, UpdateCapacity;
    var def := state.definition;
    var d := b.(defs := b.defs[def.key := def], states := b.states[def.key := state]);
    FiledUnderItsKey(b.defs, b.states, state);
    EnsureStoresExist(d, def, b.defs);
    UpdateCapacityKeepsStores(EnsureStores(d, def), def);
  }

  lemma FiledUnderItsKey(defs: map<string, Definition>, states: map<string, LimitState>, state: LimitState)
    requires StatesMatch(defs, states)
    ensures StatesMatch(defs[state.definition.key := state.definition], states[state.definition.key := state])
  {
  }

  lemma EnsureStoresExist(b: Backend, def: Definition, before: map<string, Definition>)
    requires StoresExist(before, b.roll, b.conc) && b.defs == before[def.key := def]
    ensures var e := EnsureStores(b, def);
            StoresExist(b.defs, e.roll, e.conc) && e.defs == b.defs && e.states == b.states
  {
    hide R.Empty, C.Empty;
    match def.kind
    case Rolling =>
    case Concurrency =>
    case OtherKind =>
  }

  lemma UpdateCapacityKeepsStores(b: Backend, def: Definition)
    ensures var u := UpdateCapacity(b, def);
            && u.defs == b.defs && u.states == b.states
            && (StoresExist(b.defs, b.roll, b.conc) ==> StoresExist(b.defs, u.roll, u.conc))
  {
    match def.kind
    case Rolling =>
    case Concurrency =>
    case OtherKind =>
  }

  function ApplyState(b: Backend, state: LimitState): Backend {
    Install(b, state)
  }

  function AvailableCapacity(b: Backend, key: string, def: Definition): nat {
    if def.kind.Rolling? && key in b.roll then
      if R.Used(b.roll[key]) >= b.roll[key].cap then 0 else b.roll[key].cap - R.Used(b.roll[key])
    else if def.kind.Concurrency? && key in b.conc then
      if |b.conc[key].holds| >= b.conc[key].cap then 0 else b.conc[key].cap - |b.conc[key].holds|
    else 0
  }

  function DecreaseApplied(b: Backend, key: string): Backend
    requires key in b.states
  {
    var state := b.states[key];
    var def := state.definition.(capacity := state.pendingDecreaseTo);
    UpdateCapacity(b.(states := b.states[key := LimitState(def, Active, 0)], defs := b.defs[key := def]), def)
  }

  lemma DecreaseWellStored(b: Backend, key: string)
    requires WellStored(b) && key in b.states
    ensures WellStored(DecreaseApplied(b, key)) && key in DecreaseApplied(b, key).states
  {
    var state := b.states[key];
    var def := state.definition.(capacity := state.pendingDecreaseTo);
    hide UpdateCapacity, StoresExist;
    var d := b.(states := b.states[key := LimitState(def, Active, 0)], defs := b.defs[key := def]);
    SameKindsSameStores(b.defs, d.defs, b.roll, b.conc);
    UpdateCapacityKeepsStores(d, def);
  }

  lemma SameKindsSameStores(defs: map<string, Definition>, now: map<string, Definition>, roll: map<string, R.Store>,
          conc: map<string, C.Store>)
    requires StoresExist(defs, roll, conc)
    requires forall k :: k in now ==> k in defs && defs[k].kind == now[k].kind
    ensures StoresExist(now, roll, conc)
  {
  }

  /** The pending decrease that could be applied if usage allows, by how much. */
  function PendingDecrease(states: map<string, LimitState>, key: string): Option<nat> {
    if !IsDecreasing(states, key) then None
    else
      var current, target := states[key].definition.capacity, states[key].pendingDecreaseTo;
      if target == 0 || target >= current then None else Some(current - target)
  }

  /** The new state and, when the decrease was applied, the limit state to record in the registry. */
  ghost function TryApplyDecrease(b: Backend, key: string, now: int): (Backend, Option<LimitState>) {
    var drop := PendingDecrease(b.states, key);
    if drop.None? then (b, None)
    else
      var p := PurgeKey(b, key, now);
      if AvailableCapacity(p, key, b.states[key].definition) < drop.value then (p, None)
      else (DecreaseApplied(p, key), Some(DecreaseApplied(p, key).states[key]))
  }
}
