/** The in-memory backend as the program keeps it: maps of limit objects, updated in place.  Every
    operation is one atomic step (the program holds one mutex throughout) and is proved to do to the
    stored data exactly what the corresponding step of `Limiter` does. */
module MemoryBackend {
  import opened Wrappers
  import opened Limits
  import Rolling
  import Concurrency
  import L = Limiter
  import R = RollingSpec
  import C = ConcurrencySpec

  /** `limit` is the store of `key`, holds `st`, and keeps its heap entries to itself. */
  ghost predicate RollOk(limit: Rolling.RollingLimit, key: string, st: R.Store)
    reads limit, limit.slots
  {
    && (forall s :: s in limit.slots ==> s.owner == limit)
    && limit.key == key && limit.Valid() && limit.model == st
  }

  lemma RollOkIsValid(limit: Rolling.RollingLimit, key: string, st: R.Store)
    requires RollOk(limit, key, st)
    ensures limit.Valid() && limit.model == st && limit.key == key
  {
  }

  lemma RollIsOk(limit: Rolling.RollingLimit, key: string, st: R.Store)
    requires limit.key == key && limit.Valid() && limit.model == st
    ensures RollOk(limit, key, st)
  {
  }

  /** `limit` is the store of `key`, holds `st`, and keeps its heap entries to itself. */
  ghost predicate ConcOk(limit: Concurrency.ConcLimit, key: string, st: C.Store)
    reads limit, limit.slots
  {
    && (forall s :: s in limit.slots ==> s.owner == limit)
    && limit.key == key && limit.Valid() && limit.model == st
  }

  lemma ConcOkIsValid(limit: Concurrency.ConcLimit, key: string, st: C.Store)
    requires ConcOk(limit, key, st)
    ensures limit.Valid() && limit.model == st && limit.key == key
  {
  }

  lemma ConcIsOk(limit: Concurrency.ConcLimit, key: string, st: C.Store)
    requires limit.key == key && limit.Valid() && limit.model == st
    ensures ConcOk(limit, key, st)
  {
  }

  method IndexByKey(reqs: seq<Requirement>) returns (out: map<string, nat>)
    ensures out == L.IndexByKey(reqs)
  {
    out := map[];
    for i := 0 to |reqs|
      invariant out == L.IndexByKey(reqs[..i])
    {
      assert reqs[..i + 1][..i] == reqs[..i];
      out := out[reqs[i].key := reqs[i].amount];
    }
    assert reqs[..|reqs|] == reqs;
  }

  method RequirementsEqual(a: seq<Requirement>, b: seq<Requirement>) returns (equal: bool)
    ensures equal == L.RequirementsEqual(a, b)
  {
    if |a| != |b| {
      return false;
    }
    var lookup := IndexByKey(a);
    for i := 0 to |b|
      invariant forall j :: 0 <= j < i ==> b[j].key in lookup && lookup[b[j].key] == b[j].amount
    {
      if b[i].key !in lookup || lookup[b[i].key] != b[i].amount {
        return false;
      }
    }
    return true;
  }

  class Backend {
    var defs: map<string, Definition>
    var states: map<string, LimitState>
    var roll: map<string, Rolling.RollingLimit>
    var conc: map<string, Concurrency.ConcLimit>
    var debt: map<string, nat>
    var leases: map<string, Lease>
    ghost var rollModel: map<string, R.Store>
    ghost var concModel: map<string, C.Store>
    ghost var rollRepr: set<object>
    ghost var concRepr: set<object>

    ghost predicate RollValid()
      reads `roll, `rollModel, `rollRepr, rollRepr
    {
      && (forall k :: k in roll <==> k in rollModel)
      && (forall k :: k in roll ==>
            roll[k] in rollRepr && roll[k].slots <= rollRepr && RollOk(roll[k], k, rollModel[k]))
    }

    ghost predicate ConcValid()
      reads `conc, `concModel, `concRepr, concRepr
    {
      && (forall k :: k in conc <==> k in concModel)
      && (forall k :: k in conc ==>
            conc[k] in concRepr && conc[k].slots <= concRepr && ConcOk(conc[k], k, concModel[k]))
    }

    ghost predicate Valid()
      reads this, rollRepr, concRepr
    {
      && StoresValid()
      && L.StatesMatch(defs, states)
      && L.StoresExist(defs, rollModel, concModel)
    }

    /** What the backend stores. */
    ghost function Model(): L.Backend
      reads this
    {
      L.Backend(defs, states, rollModel, concModel, debt, leases)
    }

    constructor ()
      ensures Valid() && fresh(rollRepr) && fresh(concRepr) && Model() == L.EMPTY
    {
      defs, states, debt, leases := map[], map[], map[], map[];
      roll, conc := map[], map[];
      rollModel, concModel := map[], map[];
      rollRepr, concRepr := {}, {};
    }

    /** The stores of different keys share nothing. */
    lemma RollApart(key: string)
      requires RollValid() && key in roll
      ensures forall k :: k in roll && k != key ==> roll[k] != roll[key] && roll[k].slots !! roll[key].slots
    {
    }

    /** The stores of different keys share nothing. */
    lemma ConcApart(key: string)
      requires ConcValid() && key in conc
      ensures forall k :: k in conc && k != key ==> conc[k] != conc[key] && conc[k].slots !! conc[key].slots
    {
    }

    /** Only the store of `key` has changed, and `st` says so. */
    ghost method SettleRolling(key: string, st: R.Store)
      requires this !in rollRepr && key in roll && roll[key] in rollRepr && roll[key].slots <= rollRepr
      requires roll[key].key == key && roll[key].Valid() && roll[key].model == st
      requires forall k :: k in roll <==> k in rollModel
      requires forall k :: k in roll && k != key ==>
               roll[k] in rollRepr && roll[k].slots <= rollRepr && RollOk(roll[k], k, rollModel[k])
      modifies `rollModel
      ensures RollValid() && rollModel == old(rollModel)[key := st]
    {
      hide Rolling.RollingLimit.Valid, RollOk;
      RollIsOk(roll[key], key, st);
      rollModel := rollModel[key := st];
    }

    method PurgeRolling(key: string, now: int)
      requires this !in rollRepr && RollValid() && key in roll
      modifies `rollModel, rollRepr
      ensures RollValid() && rollModel == old(rollModel)[key := R.Purge(old(rollModel)[key], now)]
    {
      hide Rolling.RollingLimit.Valid, RollOk, R.Purge;
      RollApart(key);
      RollOkIsValid(roll[key], key, rollModel[key]);
      roll[key].Cleanup(now);
      SettleRolling(key, R.Purge(rollModel[key], now));
    }

    method AddRolling(key: string, leaseID: string, amount: nat, expiresAt: int)
      requires this !in rollRepr && RollValid() && key in roll
      modifies `rollModel, `rollRepr, rollRepr
      ensures RollValid() && rollModel == old(rollModel)[key := R.Add(old(rollModel)[key], leaseID, amount, expiresAt)]
      ensures fresh(rollRepr - old(rollRepr))
    {
      hide Rolling.RollingLimit.Valid, RollOk, R.Add;
      RollApart(key);
      RollOkIsValid(roll[key], key, rollModel[key]);
      roll[key].AddReservation(leaseID, amount, expiresAt);
      rollRepr := rollRepr + roll[key].slots;
      SettleRolling(key, R.Add(rollModel[key], leaseID, amount, expiresAt));
    }

    method ReduceRolling(key: string, leaseID: string, amount: nat)
      requires this !in rollRepr && RollValid() && key in roll
      modifies `rollModel, rollRepr
      ensures RollValid() && rollModel == old(rollModel)[key := R.Reduce(old(rollModel)[key], leaseID, amount)]
    {
      hide Rolling.RollingLimit.Valid, RollOk, R.Reduce;
      RollApart(key);
      RollOkIsValid(roll[key], key, rollModel[key]);
      roll[key].ReduceReservation(leaseID, amount);
      SettleRolling(key, R.Reduce(rollModel[key], leaseID, amount));
    }

    method SetRollingCapacity(key: string, capacity: nat)
      requires this !in rollRepr && RollValid() && key in roll
      modifies `rollModel, rollRepr
      ensures RollValid() && rollModel == old(rollModel)[key := old(rollModel)[key].(cap := capacity)]
    {
      hide Rolling.RollingLimit.Valid, RollOk, R.Purge;
      RollApart(key);
      RollOkIsValid(roll[key], key, rollModel[key]);
      roll[key].SetCapacity(capacity);
      SettleRolling(key, rollModel[key].(cap := capacity));
    }

    /** Only the store of `key` has changed, and `st` says so. */
    ghost method SettleConcurrency(key: string, st: C.Store)
      requires this !in concRepr && key in conc && conc[key] in concRepr && conc[key].slots <= concRepr
      requires conc[key].key == key && conc[key].Valid() && conc[key].model == st
      requires forall k :: k in conc <==> k in concModel
      requires forall k :: k in conc && k != key ==>
               conc[k] in concRepr && conc[k].slots <= concRepr && ConcOk(conc[k], k, concModel[k])
      modifies `concModel
      ensures ConcValid() && concModel == old(concModel)[key := st]
    {
      hide Concurrency.ConcLimit.Valid, ConcOk;
      ConcIsOk(conc[key], key, st);
      concModel := concModel[key := st];
    }

    method PurgeConcurrency(key: string, now: int)
      requires this !in concRepr && ConcValid() && key in conc
      modifies `concModel, concRepr
      ensures ConcValid() && concModel == old(concModel)[key := C.Purge(old(concModel)[key], now)]
    {
      hide Concurrency.ConcLimit.Valid, ConcOk, C.Purge;
      ConcApart(key);
      ConcOkIsValid(conc[key], key, concModel[key]);
      conc[key].Cleanup(now);
      SettleConcurrency(key, C.Purge(concModel[key], now));
    }

    method AddConcurrency(key: string, leaseID: string, expiresAt: int)
      requires this !in concRepr && ConcValid() && key in conc
      modifies `concModel, `concRepr, concRepr
      ensures ConcValid() && concModel == old(concModel)[key := C.Add(old(concModel)[key], leaseID, expiresAt)]
      ensures fresh(concRepr - old(concRepr))
    {
      hide Concurrency.ConcLimit.Valid, ConcOk, C.Add;
      ConcApart(key);
      ConcOkIsValid(conc[key], key, concModel[key]);
      conc[key].AddHold(leaseID, expiresAt);
      concRepr := concRepr + conc[key].slots;
      SettleConcurrency(key, C.Add(concModel[key], leaseID, expiresAt));
    }

    method ReleaseConcurrency(key: string, leaseID: string)
      requires this !in concRepr && ConcValid() && key in conc
      modifies `concModel, concRepr
      ensures ConcValid() && concModel == old(concModel)[key := C.Release(old(concModel)[key], leaseID)]
    {
      hide Concurrency.ConcLimit.Valid, ConcOk, C.Release;
      ConcApart(key);
      ConcOkIsValid(conc[key], key, concModel[key]);
      conc[key].ReleaseHold(leaseID);
      SettleConcurrency(key, C.Release(concModel[key], leaseID));
    }

    method SetConcurrencyCapacity(key: string, capacity: nat)
      requires this !in concRepr && ConcValid() && key in conc
      modifies `concModel, concRepr
      ensures ConcValid() && concModel == old(concModel)[key := old(concModel)[key].(cap := capacity)]
    {
      hide Concurrency.ConcLimit.Valid, ConcOk, C.Purge;
      ConcApart(key);
      ConcOkIsValid(conc[key], key, concModel[key]);
      conc[key].SetCapacity(capacity);
      SettleConcurrency(key, concModel[key].(cap := capacity));
    }

    method PurgeKey(key: string, now: int)
      requires Valid() && key in defs
      modifies `rollModel, `concModel, rollRepr, concRepr
      ensures Valid() && Model() == L.PurgeKey(old(Model()), key, now)
    {
      hide RollValid, ConcValid, R.Purge, C.Purge;
      StoreAt(key);
      match defs[key].kind
      case Rolling => PurgeRolling(key, now);
      case Concurrency => PurgeConcurrency(key, now);
      case OtherKind =>
    }

    lemma StoreAt(key: string)
      requires Valid() && key in defs
      ensures defs[key].kind.Rolling? ==> key in roll && key in rollModel
      ensures defs[key].kind.Concurrency? ==> key in conc && key in concModel
    {
    }

    method CommitOne(leaseID: string, r: Requirement, now: int)
      requires Valid() && r.key in defs
      modifies `rollModel, `concModel, `rollRepr, `concRepr, rollRepr, concRepr
      ensures Valid() && Model() == L.CommitOne(old(Model()), leaseID, r, now)
      ensures fresh(rollRepr - old(rollRepr)) && fresh(concRepr - old(concRepr))
    {
      hide RollValid, ConcValid, R.Add, C.Add;
      StoreAt(r.key);
      var def := defs[r.key];
      match def.kind
      case Rolling => AddRolling(r.key, leaseID, r.amount, now + def.windowSeconds * SECOND);
      case Concurrency => AddConcurrency(r.key, leaseID, now + def.timeoutSeconds * SECOND);
      case OtherKind =>
    }

    lemma StoreReads(key: string)
      requires Valid()
      ensures key in roll ==>
                key in rollModel && roll[key].used == R.Used(rollModel[key]) && roll[key].cap == rollModel[key].cap
      ensures key in conc ==>
                key in concModel && conc[key].holds == concModel[key].holds && conc[key].cap == concModel[key].cap
    {
    }

    method IsFull(r: Requirement) returns (full: bool)
      requires Valid() && r.key in defs
      ensures full == L.Full(Model(), r)
    {
      hide RollValid, ConcValid;
      StoreAt(r.key);
      StoreReads(r.key);
      match defs[r.key].kind
      case Rolling => full := roll[r.key].used + r.amount > roll[r.key].cap;
      case Concurrency => full := |conc[r.key].holds| + 1 > conc[r.key].cap;
      case OtherKind => full := false;
    }

    /** The replies that need no store: malformed request, replay, decreasing or unknown limit. */
    method Precheck(req: ReserveRequest) returns (reply: Option<ReserveResponse>)
      ensures reply == L.EarlyReply(defs, states, leases, req)
    {
      var reqs := req.requirements;
      if req.leaseID == "" || |reqs| == 0 {
        return Some(L.Refused(0, L.INVALID_REQUEST));
      }
      if req.leaseID in leases {
        var lease := leases[req.leaseID];
        var same := RequirementsEqual(lease.requirements, reqs);
        if same {
          return Some(ReserveResponse(true, 0, lease.reservedAtUnix, ""));
        }
        return Some(L.Refused(0, L.INVALID_REQUEST));
      }
      for i := 0 to |reqs|
        invariant L.FirstDecreasing(states, reqs, 0) == L.FirstDecreasing(states, reqs, i)
      {
        if reqs[i].key in states && states[reqs[i].key].status.Decreasing? {
          return Some(L.Refused(L.DECREASE_RETRY_MS, "limit_decreasing:" + reqs[i].key));
        }
      }
      for i := 0 to |reqs|
        invariant L.FirstUnknown(defs, reqs, 0) == L.FirstUnknown(defs, reqs, i)
      {
        if reqs[i].key !in defs {
          return Some(L.Refused(0, "unknown_limit_key:" + reqs[i].key));
        }
      }
      return None;
    }

    method PurgeAll(reqs: seq<Requirement>, now: int)
      requires Valid() && forall i :: 0 <= i < |reqs| ==> reqs[i].key in defs
      modifies `rollModel, `concModel, rollRepr, concRepr
      ensures Valid() && Model() == L.PurgeAll(old(Model()), reqs, now, |reqs|)
    {
      hide RollValid, ConcValid, L.StatesMatch, L.StoresExist, L.PurgeKey;
      ghost var b0 := Model();
      for i := 0 to |reqs|
        invariant Valid() && Model() == L.PurgeAll(b0, reqs, now, i)
      {
        PurgeKey(reqs[i].key, now);
      }
    }

    method MaxRetry(reqs: seq<Requirement>) returns (maxRetry: int)
      requires Valid() && forall i :: 0 <= i < |reqs| ==> reqs[i].key in defs
      ensures maxRetry == L.MaxRetry(Model(), reqs, |reqs|)
    {
      hide L.Full;
      maxRetry := 0;
      for i := 0 to |reqs|
        invariant maxRetry == L.MaxRetry(Model(), reqs, i)
      {
        var full := IsFull(reqs[i]);
        if full {
          maxRetry := L.Max(maxRetry, L.RetryAfter(defs[reqs[i].key]));
        }
      }
    }

    method CommitAll(leaseID: string, reqs: seq<Requirement>, now: int)
      requires Valid() && forall i :: 0 <= i < |reqs| ==> reqs[i].key in defs
      modifies `rollModel, `concModel, `rollRepr, `concRepr, rollRepr, concRepr
      ensures Valid() && fresh(rollRepr - old(rollRepr)) && fresh(concRepr - old(concRepr))
      ensures Model() == L.CommitAll(old(Model()), leaseID, reqs, now, |reqs|)
    {
      hide RollValid, ConcValid, L.StatesMatch, L.StoresExist, L.CommitOne;
      ghost var b0 := Model();
      for i := 0 to |reqs|
        invariant Valid() && fresh(rollRepr - old(rollRepr)) && fresh(concRepr - old(concRepr))
        invariant Model() == L.CommitAll(b0, leaseID, reqs, now, i)
      {
        CommitOne(leaseID, reqs[i], now);
      }
    }

    /** Reserves every requirement of a lease or none; a zero time stands for the backend's clock. */
    method Reserve(req: ReserveRequest, at: Option<int>, clock: int) returns (res: ReserveResponse)
      requires Valid()
      modifies this, rollRepr, concRepr
      ensures Valid() && fresh(rollRepr - old(rollRepr)) && fresh(concRepr - old(concRepr))
      ensures (Model(), res) == L.Reserve(old(Model()), req, if at.Some? then at.value else clock)
    {
      hide RollValid, ConcValid, L.StatesMatch, L.StoresExist, L.PurgeAll, L.CommitAll, L.MaxRetry, L.IndexByKey,
          L.RequirementsEqual, L.FirstDecreasing, L.FirstUnknown;
      var early := Precheck(req);
      if early.Some? {
        return early.value;
      }
      var reqs := req.requirements;
      var now := if at.Some? then at.value else clock;
      PurgeAll(reqs, now);
      var maxRetry := MaxRetry(reqs);
      if maxRetry > 0 {
        return L.Refused(maxRetry, "");
      }
      CommitAll(req.leaseID, reqs, now);
      var amounts := IndexByKey(reqs);
      leases := leases[req.leaseID := Lease(UnixMilli(now), reqs, amounts)];
      res := L.Granted(now);
    }

    method ReleaseOne(leaseID: string, key: string)
      requires Valid()
      modifies `concModel, concRepr
      ensures Valid() && Model() == L.ReleaseOne(old(Model()), leaseID, key)
    {
      hide RollValid, ConcValid;
      StoreReads(key);
      if key in defs && defs[key].kind.Concurrency? {
        StoreAt(key);
        ReleaseConcurrency(key, leaseID);
      }
    }

    method ReconcileOne(leaseID: string, reserved: map<string, nat>, actual: Actual)
      requires Valid()
      modifies `rollModel, `debt, rollRepr
      ensures Valid() && Model() == L.ReconcileOne(old(Model()), leaseID, reserved, actual)
    {
      hide RollValid, ConcValid, R.Reduce;
      var key := actual.key;
      if key !in defs || !defs[key].kind.Rolling? {
        return;
      }
      StoreAt(key);
      var amount := if key in reserved then reserved[key] else 0;
      if actual.actualAmount < amount {
        ReduceRolling(key, leaseID, actual.actualAmount);
        return;
      }
      if actual.actualAmount > amount && defs[key].overage.Debt? {
        var owed := if key in debt then debt[key] else 0;
        debt := debt[key := owed + (actual.actualAmount - amount)];
      }
    }

    /** Releases a lease's holds, reconciles its rolling reservations and forgets it. */
    method Complete(req: CompleteRequest) returns (res: CompleteResponse)
      requires Valid()
      modifies `rollModel, `concModel, `debt, `leases, rollRepr, concRepr
      ensures Valid() && Model() == L.Complete(old(Model()), req) && res == CompleteResponse(true, "")
    {
      hide RollValid, ConcValid, L.StatesMatch, L.StoresExist, L.ReleaseOne, L.ReconcileOne;
      res := CompleteResponse(true, "");
      if req.leaseID !in leases {
        return;
      }
      var lease := leases[req.leaseID];
      ghost var b0 := Model();
      for i := 0 to |lease.requirements|
        invariant Valid() && leases == b0.leases
        invariant Model() == L.ReleaseAll(b0, req.leaseID, lease.requirements, i)
      {
        ReleaseOne(req.leaseID, lease.requirements[i].key);
      }
      ghost var r := Model();
      for i := 0 to |req.actuals|
        invariant Valid() && leases == b0.leases
        invariant Model() == L.ReconcileAll(r, req.leaseID, lease.reservedAmounts, req.actuals, i)
      {
        ReconcileOne(req.leaseID, lease.reservedAmounts, req.actuals[i]);
      }
      leases := leases - {req.leaseID};
    }

    method EnsureRolling(key: string, capacity: nat)
      requires this !in rollRepr && RollValid()
      modifies `roll, `rollModel, `rollRepr
      ensures RollValid() && fresh(rollRepr - old(rollRepr))
      ensures rollModel == if key in old(rollModel) then old(rollModel) else old(rollModel)[key := R.Empty(capacity)]
    {
      hide Rolling.RollingLimit.Valid, RollOk;
      if key !in roll {
        var limit := new Rolling.RollingLimit(key, capacity);
        RollIsOk(limit, key, limit.model);
        roll := roll[key := limit];
        rollModel := rollModel[key := limit.model];
        rollRepr := rollRepr + {limit};
      }
    }

    method EnsureConcurrency(key: string, capacity: nat)
      requires this !in concRepr && ConcValid()
      modifies `conc, `concModel, `concRepr
      ensures ConcValid() && fresh(concRepr - old(concRepr))
      ensures concModel == if key in old(concModel) then old(concModel) else old(concModel)[key := C.Empty(capacity)]
    {
      hide Concurrency.ConcLimit.Valid, ConcOk;
      if key !in conc {
        var limit := new Concurrency.ConcLimit(key, capacity);
        ConcIsOk(limit, key, limit.model);
        conc := conc[key := limit];
        concModel := concModel[key := limit.model];
        concRepr := concRepr + {limit};
      }
    }

    /** The stores are sound, whatever the definitions say. */
    ghost predicate StoresValid()
      reads `roll, `rollModel, `rollRepr, rollRepr, `conc, `concModel, `concRepr, concRepr
    {
      this !in rollRepr && this !in concRepr && rollRepr !! concRepr && RollValid() && ConcValid()
    }

    method EnsureStores(def: Definition)
      requires StoresValid()
      modifies `roll, `conc, `rollModel, `concModel, `rollRepr, `concRepr
      ensures StoresValid() && fresh(rollRepr - old(rollRepr)) && fresh(concRepr - old(concRepr))
      ensures Model() == L.EnsureStores(old(Model()), def)
    {
      hide RollValid, ConcValid;
      match def.kind
      case Rolling => EnsureRolling(def.key, def.capacity);
      case Concurrency => EnsureConcurrency(def.key, def.capacity);
      case OtherKind =>
    }

    lemma SameKeys()
      requires StoresValid()
      ensures forall k :: k in roll <==> k in rollModel
      ensures forall k :: k in conc <==> k in concModel
    {
    }

    method UpdateCapacity(def: Definition)
      requires StoresValid()
      modifies `rollModel, `concModel, rollRepr, concRepr
      ensures StoresValid() && Model() == L.UpdateCapacity(old(Model()), def)
    {
      hide RollValid, ConcValid;
      SameKeys();
      match def.kind
      case Rolling =>
        if def.key in roll {
          SetRollingCapacity(def.key, def.capacity);
        }
      case Concurrency =>
        if def.key in conc {
          SetConcurrencyCapacity(def.key, def.capacity);
        }
      case OtherKind =>
    }

    method Install(state: LimitState)
      requires Valid()
      modifies this, rollRepr, concRepr
      ensures Valid() && fresh(rollRepr - old(rollRepr)) && fresh(concRepr - old(concRepr))
      ensures Model() == L.Install(old(Model()), state)
    {
      hide RollValid, ConcValid, L.StatesMatch, L.StoresExist, L.EnsureStores, L.UpdateCapacity;
      L.InstallWellStored(Model(), state);
      var def := state.definition;
      defs := defs[def.key := def];
      states := states[def.key := state];
      EnsureStores(def);
      UpdateCapacity(def);
    }

    /** Creates a limit, raises it at once, or records the requested decrease. */
    method ApplyDefinition(def: Definition)
      requires Valid()
      modifies this, rollRepr, concRepr
      ensures Valid() && fresh(rollRepr - old(rollRepr)) && fresh(concRepr - old(concRepr))
      ensures Model() == L.ApplyDefinition(old(Model()), def)
    {
      hide RollValid, ConcValid, L.StoresExist;
      if def.key !in defs || def.capacity >= defs[def.key].capacity {
        Install(LimitState(def, Active, 0));
        return;
      }
      states := states[def.key := LimitState(defs[def.key], Decreasing, def.capacity)];
    }

    method ApplyState(state: LimitState)
      requires Valid()
      modifies this, rollRepr, concRepr
      ensures Valid() && fresh(rollRepr - old(rollRepr)) && fresh(concRepr - old(concRepr))
      ensures Model() == L.ApplyState(old(Model()), state)
    {
      Install(state);
    }

    method AvailableCapacity(key: string, def: Definition) returns (available: nat)
      requires Valid()
      ensures available == L.AvailableCapacity(Model(), key, def)
    {
      SameKeys();
      StoreReads(key);
      available := 0;
      match def.kind
      case Rolling =>
        if key in roll {
          return if roll[key].used >= roll[key].cap then 0 else roll[key].cap - roll[key].used;
        }
      case Concurrency =>
        if key in conc {
          var used := |conc[key].holds|;
          return if used >= conc[key].cap then 0 else conc[key].cap - used;
        }
      case OtherKind =>
    }

    /** Applies a pending decrease when usage allows, returning the state to put in the registry. */
    method TryApplyDecrease(key: string, clock: int) returns (applied: Option<LimitState>)
      requires Valid()
      modifies `defs, `states, `rollModel, `concModel, rollRepr, concRepr
      ensures Valid() && (Model(), applied) == L.TryApplyDecrease(old(Model()), key, clock)
      ensures rollRepr == old(rollRepr) && concRepr == old(concRepr)
    {
      hide RollValid, ConcValid, L.StoresExist, L.PurgeKey, L.AvailableCapacity, L.DecreaseApplied;
      applied := None;
      if key !in states || !states[key].status.Decreasing? {
        return;
      }
      var state := states[key];
      var current, target := state.definition.capacity, state.pendingDecreaseTo;
      if target == 0 || target >= current {
        return;
      }
      PurgeKey(key, clock);
      var available := AvailableCapacity(key, state.definition);
      if available < current - target {
        return;
      }
      state := CommitDecrease(key);
      applied := Some(state);
    }

    method CommitDecrease(key: string) returns (state: LimitState)
      requires Valid() && key in states
      modifies `defs, `states, `rollModel, `concModel, rollRepr, concRepr
      ensures Valid() && Model() == L.DecreaseApplied(old(Model()), key) && state == Model().states[key]
    {
      hide RollValid, ConcValid, L.StatesMatch, L.StoresExist, L.UpdateCapacity;
      L.DecreaseWellStored(Model(), key);
      state := LimitState(states[key].definition.(capacity := states[key].pendingDecreaseTo), Active, 0);
      states := states[key := state];
      defs := defs[key := state.definition];
      UpdateCapacity(state.definition);
    }
  }
}
