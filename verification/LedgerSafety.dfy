/** What every run of the ledger, and so of the backend, guarantees: the sliding window is never
    overfull, and every reported token is either settled or owed. */
module LedgerSafety {
  import opened Limits
  import opened Ledger
  import opened LimiterRuns
  import opened LedgerRefinement
  import L = Limiter

  // ---- Sliding window ----

  /** Total amount, as reconciled so far, of the grants made after `from`. */
  function GrantedSince(gs: seq<Grant>, n: nat, from: int): nat
    requires n <= |gs|
  {
    if n == 0 then 0 else GrantedSince(gs, n - 1, from) + if gs[n - 1].at > from then gs[n - 1].amount else 0
  }

  /** `key` is a rolling limit over `window` nanoseconds that is within its capacity at `clock`. */
  ghost predicate WindowKept(l: Ledger, key: string, window: int, clock: int) {
    && L.StatesMatch(l.defs, l.states)
    && key in l.defs && l.defs[key].kind.Rolling? && l.defs[key].windowSeconds * SECOND == window
    && key in l.grants
    && (forall i :: 0 <= i < |l.grants[key]| ==> l.grants[key][i].expiresAt == l.grants[key][i].at + window)
    && Live(l.grants[key], clock) <= l.defs[key].capacity
  }

  lemma {:induction false} LiveIsGrantedSince(gs: seq<Grant>, n: nat, window: int, t: int)
    requires n <= |gs| && forall i :: 0 <= i < |gs| ==> gs[i].expiresAt == gs[i].at + window
    ensures LiveFirst(gs, n, t) == GrantedSince(gs, n, t - window)
  {
    if n > 0 {
      LiveIsGrantedSince(gs, n - 1, window, t);
    }
  }

  /** Less is live later, and when amounts are lowered. */
  lemma {:induction false} LiveShrinks(gs: seq<Grant>, hs: seq<Grant>, n: nat, now: int, later: int)
    requires n <= |gs| && |hs| == |gs| && now <= later
    requires forall i :: 0 <= i < |gs| ==> hs[i].expiresAt == gs[i].expiresAt && hs[i].amount <= gs[i].amount
    ensures LiveFirst(hs, n, later) <= LiveFirst(gs, n, now)
  {
    if n > 0 {
      LiveShrinks(gs, hs, n - 1, now, later);
    }
  }

  lemma {:induction false} LivePrefix(gs: seq<Grant>, g: Grant, n: nat, now: int)
    requires n <= |gs|
    ensures LiveFirst(gs + [g], n, now) == LiveFirst(gs, n, now)
  {
    if n > 0 {
      LivePrefix(gs, g, n - 1, now);
    }
  }

  lemma {:induction false} NoRetryNoneFull(l: Ledger, reqs: seq<Requirement>, now: int, n: nat, i: nat)
    requires i < n <= |reqs| && MaxRetry(l, reqs, now, n) <= 0
    ensures !Full(l, reqs[i], now)
  {
    hide Full;
    if i < n - 1 {
      assert MaxRetry(l, reqs, now, n - 1) <= 0;
      NoRetryNoneFull(l, reqs, now, n - 1, i);
    }
  }

  lemma ReserveKeepsWindow(l: Ledger, key: string, window: int, clock: int, req: ReserveRequest, now: int)
    requires WindowKept(l, key, window, clock) && clock <= now && DistinctKeys(req.requirements)
    ensures WindowKept(Reserve(l, req, now).0, key, window, now)
  {
    hide Commit, L.EarlyReply, L.IndexByKey, MaxRetry;
    var reqs, gs := req.requirements, l.grants[key];
    LiveShrinks(gs, gs, |gs|, clock, now);
    if L.EarlyReply(l.defs, l.states, l.leases, req).None? && MaxRetry(l, reqs, now, |reqs|) <= 0 {
      CommitGrants(l, req, now, key);
      CommitKeepsDefinitions(l, req, now);
      if key in L.IndexByKey(reqs) {
        var i :| 0 <= i < |reqs| && reqs[i].key == key;
        IndexByKeyFinds(reqs, i);
        NoRetryNoneFull(l, reqs, now, |reqs|, i);
        LivePrefix(gs, Grant(req.leaseID, now, reqs[i].amount, now + window), |gs|, now);
      }
    }
  }

  /** What Reserve does to the leases: it opens the one asked for, or leaves the ledger as it is. */
  lemma ReserveOutcome(l: Ledger, req: ReserveRequest, now: int)
    ensures var r := Reserve(l, req, now);
            if r.1.allowed && req.leaseID !in l.leases then
              && req.leaseID != "" && r.0 == Commit(l, req, now)
              && forall i :: 0 <= i < |req.requirements| ==> req.requirements[i].key in l.defs
            else r.0 == l
  {
    hide Commit, MaxRetry, L.RequirementsEqual;
  }

  lemma CommitKeepsDefinitions(l: Ledger, req: ReserveRequest, now: int)
    ensures Commit(l, req, now).defs == l.defs && Commit(l, req, now).states == l.states
    ensures Commit(l, req, now).debt == l.debt
    ensures Commit(l, req, now).leases ==
            l.leases[req.leaseID := Lease(UnixMilli(now), req.requirements, L.IndexByKey(req.requirements))]
  {
    hide L.IndexByKey;
  }

  lemma ReconcileOneKeepsWindow(l: Ledger, key: string, window: int, clock: int, id: string, reserved: map<string, nat>,
          a: Actual)
    requires WindowKept(l, key, window, clock)
    ensures WindowKept(ReconcileOne(l, id, reserved, a), key, window, clock)
  {
    LiveShrinks(l.grants[key], LowerGrants(l.grants[key], id, a.actualAmount), |l.grants[key]|, clock, clock);
    hide Live;
  }

  lemma {:induction false} ReconcileAllKeepsWindow(l: Ledger, key: string, window: int, clock: int, id: string,
          reserved: map<string, nat>, actuals: seq<Actual>, n: nat)
    requires n <= |actuals| && WindowKept(l, key, window, clock)
    ensures WindowKept(ReconcileAll(l, id, reserved, actuals, n), key, window, clock)
  {
    hide WindowKept, ReconcileOne;
    if n > 0 {
      ReconcileAllKeepsWindow(l, key, window, clock, id, reserved, actuals, n - 1);
      ReconcileOneKeepsWindow(ReconcileAll(l, id, reserved, actuals, n - 1), key, window, clock, id, reserved,
          actuals[n - 1]);
    }
  }

  lemma CompleteKeepsWindow(l: Ledger, key: string, window: int, clock: int, done: CompleteRequest)
    requires WindowKept(l, key, window, clock)
    ensures WindowKept(Complete(l, done), key, window, clock)
  {
    hide ReconcileAll;
    if done.leaseID in l.leases {
      var lease := l.leases[done.leaseID];
      var r := ReleaseAll(l, done.leaseID, lease.requirements);
      ReconcileAllKeepsWindow(r, key, window, clock, done.leaseID, lease.reservedAmounts, done.actuals, |done.actuals|);
    }
  }

  /** Every definition of `key` in the run is a rolling limit over the same window. */
  ghost predicate WindowFixed(steps: seq<Step>, key: string, window: int) {
    forall i :: 0 <= i < |steps| && steps[i].Defining? && steps[i].def.key == key ==>
      steps[i].def.kind.Rolling? && steps[i].def.windowSeconds * SECOND == window
  }

  /** From its first definition on, `key` is kept within its window. */
  ghost predicate WindowOk(l: Ledger, key: string, window: int, clock: int) {
    && L.StatesMatch(l.defs, l.states)
    && if key in l.defs then WindowKept(l, key, window, clock) else key !in l.grants
  }

  lemma StepKeepsWindow(l: Ledger, key: string, window: int, clock: int, step: Step)
    requires WindowOk(l, key, window, clock) && LedgerLegal(l, clock, step) && WindowFixed([step], key, window)
    ensures WindowOk(LedgerNext(l, step), key, window, ClockAfter(clock, step))
  {
    hide Reserve, Complete, ApplyDefinition, TryApplyDecrease, NeverGranted, WindowOk;
    assert [step][0] == step;
    if key !in l.defs {
      StepKeepsUnknown(l, key, window, clock, step);
    } else {
      OkIsKept(l, key, window, clock);
      match step {
        case Reserving(req, now) => ReserveKeepsWindow(l, key, window, clock, req, now);
        case Completing(done) => CompleteKeepsWindow(l, key, window, clock, done);
        case Defining(def) => DefinitionKeepsWindow(l, key, window, clock, def);
        case Decreasing(k, now) => DecreaseKeepsWindow(l, key, window, clock, k, now);
      }
      OkIsKept(LedgerNext(l, step), key, window, ClockAfter(clock, step));
    }
  }

  lemma OkIsKept(l: Ledger, key: string, window: int, clock: int)
    ensures WindowKept(l, key, window, clock) ==> WindowOk(l, key, window, clock)
    ensures WindowOk(l, key, window, clock) && key in l.defs ==> WindowKept(l, key, window, clock)
  {
  }

  lemma StepKeepsUnknown(l: Ledger, key: string, window: int, clock: int, step: Step)
    requires WindowOk(l, key, window, clock) && key !in l.defs
    requires step.Defining? && step.def.key == key ==>
             step.def.kind.Rolling? && step.def.windowSeconds * SECOND == window
    ensures WindowOk(LedgerNext(l, step), key, window, ClockAfter(clock, step))
  {
    hide Reserve, ApplyDefinition, TryApplyDecrease, Complete, NeverGranted;
    match step
    case Reserving(req, now) => ReserveKeepsUnknown(l, key, req, now);
    case Completing(done) => CompleteKeepsUnknown(l, key, done);
    case Defining(def) => DefinitionMakesWindow(l, key, window, clock, def);
    case Decreasing(k, now) => DecreaseKeepsUnknown(l, key, k, now);
  }

  lemma ReserveKeepsUnknown(l: Ledger, key: string, req: ReserveRequest, now: int)
    requires key !in l.defs && key !in l.grants
    ensures var r := Reserve(l, req, now).0; r.defs == l.defs && r.states == l.states && key !in r.grants
  {
    hide Commit, MaxRetry, L.EarlyReply;
    CommitGrants(l, req, now, key);
    CommitKeepsDefinitions(l, req, now);
  }

  lemma DecreaseKeepsUnknown(l: Ledger, key: string, k: string, now: int)
    requires L.StatesMatch(l.defs, l.states) && key !in l.defs && key !in l.grants
    ensures var r := TryApplyDecrease(l, k, now).0;
            L.StatesMatch(r.defs, r.states) && key !in r.defs && key !in r.grants
  {
    hide Usage;
  }

  lemma DefinitionMakesWindow(l: Ledger, key: string, window: int, clock: int, def: Definition)
    requires WindowOk(l, key, window, clock) && key !in l.defs
    requires def.key == key ==> def.kind.Rolling? && def.windowSeconds * SECOND == window
    ensures WindowOk(ApplyDefinition(l, def), key, window, clock)
  {
    hide Live, ApplyDefinition;
    DefinitionAt(l, def);
    NothingIsLive(clock);
  }

  lemma CompleteKeepsUnknown(l: Ledger, key: string, done: CompleteRequest)
    ensures var c := Complete(l, done);
            && c.defs == l.defs && c.states == l.states && c.grants.Keys == l.grants.Keys
            && c.leases == l.leases - {done.leaseID}
            && (key !in l.defs && key !in l.debt ==> key !in c.debt)
  {
    hide ReconcileAll, ReleaseAll;
    if done.leaseID in l.leases {
      var lease := l.leases[done.leaseID];
      ReleaseKeeps(l, done.leaseID, lease.requirements);
      var r := ReleaseAll(l, done.leaseID, lease.requirements);
      ReconcileAllKeepsUnknown(r, key, done.leaseID, lease.reservedAmounts, done.actuals, |done.actuals|);
    }
  }

  lemma {:induction false} ReconcileAllHolds(l: Ledger, id: string, reserved: map<string, nat>, actuals: seq<Actual>,
          n: nat)
    requires n <= |actuals|
    ensures ReconcileAll(l, id, reserved, actuals, n).holds == l.holds
    ensures forall k :: k in l.grants ==>
              k in ReconcileAll(l, id, reserved, actuals, n).grants
              && |ReconcileAll(l, id, reserved, actuals, n).grants[k]| == |l.grants[k]|
              && forall i :: 0 <= i < |l.grants[k]| ==>
                  ReconcileAll(l, id, reserved, actuals, n).grants[k][i].lease == l.grants[k][i].lease
  {
    if n > 0 {
      ReconcileAllHolds(l, id, reserved, actuals, n - 1);
    }
  }

  /** Completing a lease moves only its own lines. */
  lemma CompleteHolds(l: Ledger, done: CompleteRequest)
    ensures var c := Complete(l, done);
            && c.holds.Keys == l.holds.Keys
            && (forall k :: k in l.holds ==> |c.holds[k]| == |l.holds[k]|)
            && (forall k, i :: k in l.holds && 0 <= i < |l.holds[k]| ==>
                  && c.holds[k][i].lease == l.holds[k][i].lease
                  && (l.holds[k][i].lease != done.leaseID ==> c.holds[k][i] == l.holds[k][i]))
            && (forall k :: k in l.grants ==> k in c.grants && |c.grants[k]| == |l.grants[k]|)
            && (forall k, i :: k in l.grants && 0 <= i < |l.grants[k]| ==> c.grants[k][i].lease == l.grants[k][i].lease)
  {
    hide ReconcileAll;
    if done.leaseID in l.leases {
      var lease := l.leases[done.leaseID];
      ReconcileAllHolds(ReleaseAll(l, done.leaseID, lease.requirements), done.leaseID, lease.reservedAmounts,
          done.actuals, |done.actuals|);
    }
  }

  /** Reconciling leaves the definitions, and everything about an undefined limit, alone. */
  lemma {:induction false} ReconcileAllKeepsUnknown(l: Ledger, key: string, id: string, reserved: map<string, nat>,
          actuals: seq<Actual>, n: nat)
    requires n <= |actuals|
    ensures var r := ReconcileAll(l, id, reserved, actuals, n);
            && r.defs == l.defs && r.states == l.states && r.leases == l.leases && r.grants.Keys == l.grants.Keys
            && (key !in l.defs && key !in l.debt ==> key !in r.debt)
  {
    hide LowerGrants;
    if n > 0 {
      ReconcileAllKeepsUnknown(l, key, id, reserved, actuals, n - 1);
    }
  }

  /** What a definition does to the ledger, in short. */
  lemma DefinitionAt(l: Ledger, def: Definition)
    requires L.StatesMatch(l.defs, l.states)
    ensures var r := ApplyDefinition(l, def);
            && L.StatesMatch(r.defs, r.states)
            && (r.defs == l.defs
                || (r.defs == l.defs[def.key := def]
                    && (def.key in l.defs ==> def.capacity >= l.defs[def.key].capacity)))
            && (def.key !in l.defs ==> r.defs == l.defs[def.key := def])
            && (r.grants == l.grants || (def.key !in l.grants && r.grants == l.grants[def.key := []]))
            && (def.key !in l.defs && def.kind.Rolling? ==> def.key in r.grants)
            && r.leases == l.leases && r.debt == l.debt
  {
    DefinitionKeepsStates(l, def);
    hide L.StatesMatch;
  }

  lemma DefinitionKeepsStates(l: Ledger, def: Definition)
    requires L.StatesMatch(l.defs, l.states)
    ensures var r := ApplyDefinition(l, def); L.StatesMatch(r.defs, r.states)
  {
    var state := ApplyDefinition(l, def).states[def.key];
    OneMoreState(l.defs, l.states, state);
    assert def.key in l.defs ==> l.defs[def.key := l.defs[def.key]] == l.defs;
  }

  lemma OneMoreState(defs: map<string, Definition>, states: map<string, LimitState>, state: LimitState)
    requires L.StatesMatch(defs, states)
    ensures L.StatesMatch(defs[state.definition.key := state.definition], states[state.definition.key := state])
  {
  }

  lemma NothingIsLive(now: int)
    ensures Live([], now) == 0
  {
  }

  lemma DefinitionKeepsWindow(l: Ledger, key: string, window: int, clock: int, def: Definition)
    requires WindowKept(l, key, window, clock)
    requires def.key == key ==> def.kind.Rolling? && def.windowSeconds * SECOND == window
    ensures WindowKept(ApplyDefinition(l, def), key, window, clock)
  {
    hide Live, ApplyDefinition;
    DefinitionAt(l, def);
  }

  lemma DecreaseKeepsWindow(l: Ledger, key: string, window: int, clock: int, k: string, now: int)
    requires WindowKept(l, key, window, clock) && clock <= now
    ensures WindowKept(TryApplyDecrease(l, k, now).0, key, window, now)
  {
    LiveShrinks(l.grants[key], l.grants[key], |l.grants[key]|, clock, now);
  }

  lemma {:induction false} RunKeepsWindow(l: Ledger, key: string, window: int, clock: int, steps: seq<Step>)
    requires WindowOk(l, key, window, clock) && LedgerLegalRun(l, clock, steps) && WindowFixed(steps, key, window)
    ensures WindowOk(LedgerRun(l, steps), key, window, ClockAtEnd(clock, steps))
    decreases |steps|
  {
    hide WindowOk, LedgerLegal, LedgerNext;
    if steps != [] {
      assert [steps[0]][0] == steps[0];
      StepKeepsWindow(l, key, window, clock, steps[0]);
      RunKeepsWindow(LedgerNext(l, steps[0]), key, window, ClockAfter(clock, steps[0]), steps[1..]);
    }
  }

  /** In every run of a new backend, at every instant `t` from its last step on, all grants the
      backend made for `key` in the window that ends at `t` add up to at most its capacity. */
  lemma SlidingWindow(clock: int, steps: seq<Step>, key: string, window: int, t: int)
    requires LedgerLegalRun(EMPTY, clock, steps) && WindowFixed(steps, key, window) && ClockAtEnd(clock, steps) <= t
    requires key in Run(L.EMPTY, steps).defs
    ensures var e, b := LedgerRun(EMPTY, steps), Run(L.EMPTY, steps);
            && Answers(L.EMPTY, steps) == LedgerAnswers(EMPTY, steps)
            && key in e.grants
            && GrantedSince(e.grants[key], |e.grants[key]|, t - window) <= b.defs[key].capacity
  {
    hide LedgerNext, Next, LedgerLegal, Answer, LedgerAnswer;
    EmptyIsRelated(clock);
    BackendRefinesLedger(L.EMPTY, EMPTY, clock, steps);
    RunKeepsWindow(EMPTY, key, window, clock, steps);
    var gs := LedgerRun(EMPTY, steps).grants[key];
    LiveShrinks(gs, gs, |gs|, ClockAtEnd(clock, steps), t);
    LiveIsGrantedSince(gs, |gs|, window, t);
  }

  // ---- Token conservation ----

  /** Total of the grants on the first `n` lines whose lease has been completed. */
  ghost function Settled(gs: seq<Grant>, leases: map<string, Lease>, n: nat): nat
    requires n <= |gs|
  {
    if n == 0 then 0 else Settled(gs, leases, n - 1) + if gs[n - 1].lease !in leases then gs[n - 1].amount else 0
  }

  /** Every open lease that reserved `key` has its one line there with the reserved amount, and every
      line of an open lease is such a line. */
  ghost predicate Booked(l: Ledger, key: string) {
    && L.StatesMatch(l.defs, l.states)
    && key in l.defs && l.defs[key].kind.Rolling? && l.defs[key].overage.Debt? && key in l.grants
    && (forall i, j :: 0 <= i < j < |l.grants[key]| ==> l.grants[key][i].lease != l.grants[key][j].lease)
    && (forall i :: 0 <= i < |l.grants[key]| && l.grants[key][i].lease in l.leases ==>
          var reserved := l.leases[l.grants[key][i].lease].reservedAmounts;
          key in reserved && reserved[key] == l.grants[key][i].amount)
    && (forall id :: id in l.leases && key in l.leases[id].reservedAmounts ==>
          exists i :: 0 <= i < |l.grants[key]| && l.grants[key][i].lease == id)
  }

  /** Settled amounts plus debt equal what has been reported. */
  ghost predicate Conserved(l: Ledger, key: string, reported: int) {
    Booked(l, key) && Settled(l.grants[key], l.leases, |l.grants[key]|) + L.DebtOf(l.debt, key) == reported
  }

  ghost predicate DistinctActuals(actuals: seq<Actual>) {
    forall i, j :: 0 <= i < j < |actuals| ==> actuals[i].key != actuals[j].key
  }

  function ReportedFor(actuals: seq<Actual>, n: nat, key: string): nat
    requires n <= |actuals|
  {
    if n == 0 then 0
    else
      var last := actuals[n - 1];
      ReportedFor(actuals, n - 1, key) + if last.key == key then last.actualAmount else 0
  }

  /** What a step reports for the limit `key`: the actuals of a completion the backend knows. */
  ghost function ReportedBy(l: Ledger, step: Step, key: string): nat {
    if key in l.defs && step.Completing? && step.done.leaseID in l.leases then
      ReportedFor(step.done.actuals, |step.done.actuals|, key)
    else 0
  }

  /** A completion reports each limit once, and `key` if the lease reserved it. */
  ghost predicate Reports(l: Ledger, step: Step, key: string) {
    step.Completing? && step.done.leaseID in l.leases ==>
      && DistinctActuals(step.done.actuals)
      && (key in l.leases[step.done.leaseID].reservedAmounts ==>
            exists i :: 0 <= i < |step.done.actuals| && step.done.actuals[i].key == key)
  }

  lemma {:induction false} SettledAgrees(gs: seq<Grant>, hs: seq<Grant>, before: map<string, Lease>,
          after: map<string, Lease>, n: nat)
    requires n <= |gs| && n <= |hs|
    requires forall i :: 0 <= i < n ==> gs[i].lease == hs[i].lease && (gs[i].lease in before <==> gs[i].lease in after)
    requires forall i :: 0 <= i < n && gs[i].lease !in before ==> gs[i].amount == hs[i].amount
    ensures Settled(gs, before, n) == Settled(hs, after, n)
  {
    if n > 0 {
      SettledAgrees(gs, hs, before, after, n - 1);
    }
  }

  /** Closing one lease settles its one line. */
  lemma {:induction false} SettledGains(gs: seq<Grant>, hs: seq<Grant>, before: map<string, Lease>, id: string, i: nat,
          n: nat)
    requires n <= |gs| == |hs| && i < n && gs[i].lease == id && id in before
    requires forall j :: 0 <= j < |gs| ==>
             gs[j].lease == hs[j].lease && (j != i ==> gs[j] == hs[j] && gs[j].lease != id)
    ensures Settled(hs, before - {id}, n) == Settled(gs, before, n) + hs[i].amount
  {
    if i == n - 1 {
      SettledAgrees(gs, hs, before, before - {id}, n - 1);
    } else {
      SettledGains(gs, hs, before, id, i, n - 1);
    }
  }

  /** Definitions and leases stay, and so does the column and the debt of `key`. */
  ghost predicate SameFor(l: Ledger, r: Ledger, key: string) {
    && r.defs == l.defs && r.states == l.states && r.leases == l.leases
    && L.DebtOf(r.debt, key) == L.DebtOf(l.debt, key)
    && (key in l.grants <==> key in r.grants) && (key in l.grants ==> r.grants[key] == l.grants[key])
  }

  lemma ReconcileOneOther(l: Ledger, id: string, reserved: map<string, nat>, a: Actual, key: string)
    requires a.key != key
    ensures SameFor(l, ReconcileOne(l, id, reserved, a), key)
  {
    hide LowerGrants;
  }

  lemma ReconcileOneSame(l: Ledger, m: Ledger, id: string, reserved: map<string, nat>, a: Actual)
    requires SameFor(l, m, a.key)
    ensures SameFor(ReconcileOne(l, id, reserved, a), ReconcileOne(m, id, reserved, a), a.key)
  {
    hide LowerGrants;
  }

  lemma {:induction false} ReconcileOthers(l: Ledger, id: string, reserved: map<string, nat>, actuals: seq<Actual>,
          n: nat, key: string)
    requires n <= |actuals| && forall i :: 0 <= i < n ==> actuals[i].key != key
    ensures SameFor(l, ReconcileAll(l, id, reserved, actuals, n), key)
    ensures ReportedFor(actuals, n, key) == 0
  {
    hide ReconcileOne;
    if n > 0 {
      ReconcileOthers(l, id, reserved, actuals, n - 1, key);
      ReconcileOneOther(ReconcileAll(l, id, reserved, actuals, n - 1), id, reserved, actuals[n - 1], key);
    }
  }

  /** With one actual per key, the completion does to `key` what that one actual does. */
  lemma {:induction false} ReconcileAt(l: Ledger, id: string, reserved: map<string, nat>, actuals: seq<Actual>, n: nat,
          i: nat)
    requires i < n <= |actuals| && DistinctActuals(actuals)
    ensures SameFor(ReconcileOne(l, id, reserved, actuals[i]), ReconcileAll(l, id, reserved, actuals, n),
        actuals[i].key)
    ensures ReportedFor(actuals, n, actuals[i].key) == actuals[i].actualAmount
  {
    hide ReconcileOne;
    if i == n - 1 {
      ReconcileOthers(l, id, reserved, actuals, n - 1, actuals[i].key);
      ReconcileOneSame(l, ReconcileAll(l, id, reserved, actuals, n - 1), id, reserved, actuals[i]);
    } else {
      ReconcileAt(l, id, reserved, actuals, n - 1, i);
      ReconcileOneOther(ReconcileAll(l, id, reserved, actuals, n - 1), id, reserved, actuals[n - 1], actuals[i].key);
    }
  }

  lemma ReleaseKeeps(l: Ledger, id: string, reqs: seq<Requirement>)
    ensures var r := ReleaseAll(l, id, reqs);
            r.defs == l.defs && r.states == l.states && r.leases == l.leases && r.debt == l.debt && r.grants == l.grants
  {
  }

  /** `hs` is `gs` with at most the amount of lease `id` lowered. */
  ghost predicate OnlyLowers(gs: seq<Grant>, hs: seq<Grant>, id: string) {
    && |hs| == |gs|
    && forall j :: 0 <= j < |gs| ==> hs[j].lease == gs[j].lease && (gs[j].lease != id ==> hs[j] == gs[j])
  }

  lemma LowerGrantsAt(gs: seq<Grant>, id: string, amount: nat)
    ensures var hs := LowerGrants(gs, id, amount);
            && OnlyLowers(gs, hs, id)
            && forall i :: 0 <= i < |gs| && gs[i].lease == id ==>
                 hs[i] == if amount < gs[i].amount then gs[i].(amount := amount) else gs[i]
  {
  }

  /** One actual, whatever its size, is accounted for to the token. */
  lemma SettleOne(l: Ledger, r: Ledger, key: string, id: string, a: Actual)
    requires Booked(l, key) && id in l.leases && a.key == key
    requires r.defs == l.defs && r.grants == l.grants && r.debt == l.debt
    ensures var o := ReconcileOne(r, id, l.leases[id].reservedAmounts, a);
            && key in o.grants && OnlyLowers(l.grants[key], o.grants[key], id)
            && Settled(o.grants[key], l.leases - {id}, |o.grants[key]|) + L.DebtOf(o.debt, key)
               == Settled(l.grants[key], l.leases, |l.grants[key]|) + L.DebtOf(l.debt, key) + a.actualAmount
  {
    assert key in l.grants;
    hide LowerGrants, Booked, Settled, ReconcileOne;
    var gs, reserved := l.grants[key], l.leases[id].reservedAmounts;
    LowerGrantsAt(gs, id, a.actualAmount);
    ReconcileHere(l, r, key, id, a);
    SettleLine(l, key, id, a.actualAmount);
  }

  /** The reserved part of an actual lowers the line, the rest is debt. */
  lemma ReconcileHere(l: Ledger, r: Ledger, key: string, id: string, a: Actual)
    requires Booked(l, key) && id in l.leases && a.key == key
    requires r.defs == l.defs && r.grants == l.grants && r.debt == l.debt
    ensures var reserved := L.ReservedFor(l.leases[id].reservedAmounts, key);
            var o := ReconcileOne(r, id, l.leases[id].reservedAmounts, a);
            && key in o.grants
            && o.grants[key] == (if a.actualAmount < reserved then
                                   LowerGrants(l.grants[key], id, a.actualAmount)
                                 else l.grants[key])
            && L.DebtOf(o.debt, key) ==
               L.DebtOf(l.debt, key) + if a.actualAmount > reserved then a.actualAmount - reserved else 0
  {
    hide LowerGrants;
  }

  lemma SettleLine(l: Ledger, key: string, id: string, amount: nat)
    requires Booked(l, key) && id in l.leases
    ensures var reserved := L.ReservedFor(l.leases[id].reservedAmounts, key);
            var gs := l.grants[key];
            var hs := if amount < reserved then LowerGrants(gs, id, amount) else gs;
            Settled(hs, l.leases - {id}, |gs|) == Settled(gs, l.leases, |gs|) + if amount < reserved then amount
                else reserved
  {
    hide LowerGrants, Settled;
    var gs, reserved := l.grants[key], l.leases[id].reservedAmounts;
    var hs := if amount < L.ReservedFor(reserved, key) then LowerGrants(gs, id, amount) else gs;
    LowerGrantsAt(gs, id, amount);
    if key in reserved {
      var i :| 0 <= i < |gs| && gs[i].lease == id;
      SettledGains(gs, hs, l.leases, id, i, |gs|);
    } else {
      SettledAgrees(gs, hs, l.leases, l.leases - {id}, |gs|);
    }
  }

  lemma ClosedIsBooked(l: Ledger, c: Ledger, key: string, id: string)
    requires Booked(l, key) && c.defs == l.defs && c.states == l.states && c.leases == l.leases - {id}
    requires key in c.grants && OnlyLowers(l.grants[key], c.grants[key], id)
    ensures Booked(c, key)
  {
    var gs, hs := l.grants[key], c.grants[key];
    forall x | x in c.leases && key in c.leases[x].reservedAmounts
      ensures exists i :: 0 <= i < |hs| && hs[i].lease == x
    {
      var i :| 0 <= i < |gs| && gs[i].lease == x;
      assert hs[i].lease == x;
    }
  }

  lemma CompleteConserves(l: Ledger, key: string, reported: int, done: CompleteRequest)
    requires Conserved(l, key, reported) && Reports(l, Completing(done), key)
    ensures Conserved(Complete(l, done), key, reported + ReportedBy(l, Completing(done), key))
  {
    var id := done.leaseID;
    if id in l.leases {
      hide ReconcileAll, ReconcileOne, ReleaseAll, ReportedFor, Booked, Settled, L.StatesMatch;
      var lease, acts := l.leases[id], done.actuals;
      var r := ReleaseAll(l, id, lease.requirements);
      ReleaseKeeps(l, id, lease.requirements);
      BookedHere(l, key);
      var c := Complete(l, done);
      if i :| 0 <= i < |acts| && acts[i].key == key {
        ReconcileAt(r, id, lease.reservedAmounts, acts, |acts|, i);
        SettleOne(l, r, key, id, acts[i]);
        ReconcileOneKeeps(r, id, lease.reservedAmounts, acts[i]);
      } else {
        ReconcileOthers(r, id, lease.reservedAmounts, acts, |acts|, key);
        var gs := l.grants[key];
        UnreservedUnlisted(l, key, id);
        SettledAgrees(gs, gs, l.leases, l.leases - {id}, |gs|);
      }
      ClosedIsBooked(l, c, key, id);
    }
  }

  lemma BookedHere(l: Ledger, key: string)
    requires Booked(l, key)
    ensures key in l.grants
  {
  }

  lemma UnreservedUnlisted(l: Ledger, key: string, id: string)
    requires Booked(l, key) && id in l.leases && key !in l.leases[id].reservedAmounts
    ensures forall i :: 0 <= i < |l.grants[key]| ==> l.grants[key][i].lease != id
  {
  }

  lemma ReconcileOneKeeps(l: Ledger, id: string, reserved: map<string, nat>, a: Actual)
    ensures var o := ReconcileOne(l, id, reserved, a);
            o.defs == l.defs && o.states == l.states && o.leases == l.leases
  {
    hide LowerGrants;
  }

  lemma CommitIsBooked(l: Ledger, key: string, req: ReserveRequest, now: int)
    requires Booked(l, key) && DistinctKeys(req.requirements) && NeverGranted(l, req.leaseID)
    ensures Booked(Commit(l, req, now), key)
  {
    hide Commit, L.IndexByKey, L.StatesMatch;
    CommitGrants(l, req, now, key);
    CommitKeepsDefinitions(l, req, now);
    var m := Commit(l, req, now);
    var gs, hs := l.grants[key], m.grants[key];
    forall id | id in m.leases && key in m.leases[id].reservedAmounts
      ensures exists i :: 0 <= i < |hs| && hs[i].lease == id
    {
      if id == req.leaseID {
        assert hs[|gs|].lease == id;
      } else {
        var i :| 0 <= i < |gs| && gs[i].lease == id;
        assert hs[i].lease == id;
      }
    }
  }

  lemma ReserveConserves(l: Ledger, key: string, reported: int, req: ReserveRequest, now: int)
    requires Conserved(l, key, reported) && DistinctKeys(req.requirements)
    requires req.leaseID in l.leases || NeverGranted(l, req.leaseID)
    ensures Conserved(Reserve(l, req, now).0, key, reported)
  {
    hide Commit, L.IndexByKey, MaxRetry, L.RequirementsEqual, Booked;
    BookedHere(l, key);
    var m := Reserve(l, req, now).0;
    if m != l {
      CommitGrants(l, req, now, key);
      CommitKeepsDefinitions(l, req, now);
      CommitIsBooked(l, key, req, now);
      SettledAgrees(l.grants[key], m.grants[key], l.leases, m.leases, |l.grants[key]|);
    }
  }

  /** Before its first definition nothing mentions `key`. */
  ghost predicate Unborn(l: Ledger, key: string) {
    && L.StatesMatch(l.defs, l.states)
    && key !in l.defs && key !in l.grants && key !in l.debt
    && forall id :: id in l.leases ==> key !in l.leases[id].reservedAmounts
  }

  ghost predicate Balanced(l: Ledger, key: string, reported: int) {
    Conserved(l, key, reported) || (Unborn(l, key) && reported == 0)
  }

  lemma UnbornReserve(l: Ledger, key: string, req: ReserveRequest, now: int)
    requires Unborn(l, key)
    ensures Unborn(Reserve(l, req, now).0, key)
  {
    hide MaxRetry, L.RequirementsEqual, L.StatesMatch;
    if L.EarlyReply(l.defs, l.states, l.leases, req).None? {
      assert key !in L.IndexByKey(req.requirements);
    }
  }

  lemma UnbornComplete(l: Ledger, key: string, done: CompleteRequest)
    requires Unborn(l, key)
    ensures Unborn(Complete(l, done), key)
  {
    hide Complete, L.StatesMatch;
    CompleteKeepsUnknown(l, key, done);
  }

  lemma UnbornDefinition(l: Ledger, key: string, def: Definition)
    requires Unborn(l, key) && (def.key == key ==> def.kind.Rolling? && def.overage.Debt?)
    ensures Balanced(ApplyDefinition(l, def), key, 0)
  {
    DefinitionAt(l, def);
    hide ApplyDefinition;
  }

  lemma UnbornDecrease(l: Ledger, key: string, k: string, now: int)
    requires Unborn(l, key)
    ensures Unborn(TryApplyDecrease(l, k, now).0, key)
  {
    hide Usage;
  }

  lemma StepBalances(l: Ledger, key: string, reported: int, clock: int, step: Step)
    requires Balanced(l, key, reported) && LedgerLegal(l, clock, step) && Reports(l, step, key)
    requires step.Defining? && step.def.key == key ==> step.def.kind.Rolling? && step.def.overage.Debt?
    ensures Balanced(LedgerNext(l, step), key, reported + ReportedBy(l, step, key))
  {
    hide Complete, Reserve, NeverGranted, Reports, ApplyDefinition, TryApplyDecrease, Conserved, ReportedFor, Unborn;
    if Conserved(l, key, reported) {
      ConservedIsDefined(l, key, reported);
      match step
      case Reserving(req, now) => ReserveConserves(l, key, reported, req, now);
      case Completing(done) => CompleteConserves(l, key, reported, done);
      case Defining(def) => DefinitionConserves(l, key, reported, def);
      case Decreasing(k, now) => DecreaseConserves(l, key, reported, k, now);
    } else {
      UnbornIsUndefined(l, key);
      match step
      case Reserving(req, now) => UnbornReserve(l, key, req, now);
      case Completing(done) => UnbornComplete(l, key, done);
      case Defining(def) => UnbornDefinition(l, key, def);
      case Decreasing(k, now) => UnbornDecrease(l, key, k, now);
    }
  }

  lemma ConservedIsDefined(l: Ledger, key: string, reported: int)
    requires Conserved(l, key, reported)
    ensures key in l.defs
  {
  }

  lemma UnbornIsUndefined(l: Ledger, key: string)
    requires Unborn(l, key)
    ensures key !in l.defs
  {
  }

  lemma DefinitionConserves(l: Ledger, key: string, reported: int, def: Definition)
    requires Conserved(l, key, reported) && (def.key == key ==> def.kind.Rolling? && def.overage.Debt?)
    ensures Conserved(ApplyDefinition(l, def), key, reported)
  {
    hide Settled, ApplyDefinition;
    DefinitionAt(l, def);
  }

  lemma DecreaseConserves(l: Ledger, key: string, reported: int, k: string, now: int)
    requires Conserved(l, key, reported)
    ensures Conserved(TryApplyDecrease(l, k, now).0, key, reported)
  {
    hide Settled, Usage;
  }

  /** Every completion of the run reports as it should, and `key` is always a rolling limit that
      records debt. */
  ghost predicate ReportingRun(l: Ledger, steps: seq<Step>, key: string)
    decreases |steps|
  {
    steps != [] ==>
      && Reports(l, steps[0], key)
      && (steps[0].Defining? && steps[0].def.key == key ==> steps[0].def.kind.Rolling? && steps[0].def.overage.Debt?)
      && ReportingRun(LedgerNext(l, steps[0]), steps[1..], key)
  }

  ghost function Reported(l: Ledger, steps: seq<Step>, key: string): nat
    decreases |steps|
  {
    if steps == [] then 0 else ReportedBy(l, steps[0], key) + Reported(LedgerNext(l, steps[0]), steps[1..], key)
  }

  lemma {:induction false} RunBalances(l: Ledger, key: string, reported: int, clock: int, steps: seq<Step>)
    requires Balanced(l, key, reported) && LedgerLegalRun(l, clock, steps) && ReportingRun(l, steps, key)
    ensures Balanced(LedgerRun(l, steps), key, reported + Reported(l, steps, key))
    decreases |steps|
  {
    hide Balanced, LedgerLegal, LedgerNext, ReportedBy, Reports;
    if steps != [] {
      StepBalances(l, key, reported, clock, steps[0]);
      RunBalances(LedgerNext(l, steps[0]), key, reported + ReportedBy(l, steps[0], key), ClockAfter(clock, steps[0]),
          steps[1..]);
    }
  }

  /** In every run of a new backend, the tokens reported for a debt-policy limit are exactly the
      tokens settled on its completed leases plus the debt the backend has recorded. */
  lemma TokensConserved(clock: int, steps: seq<Step>, key: string)
    requires LedgerLegalRun(EMPTY, clock, steps) && ReportingRun(EMPTY, steps, key)
    requires key in Run(L.EMPTY, steps).defs
    ensures var e, b := LedgerRun(EMPTY, steps), Run(L.EMPTY, steps);
            && key in e.grants
            && Reported(EMPTY, steps, key) == Settled(e.grants[key], b.leases, |e.grants[key]|) + L.DebtOf(b.debt, key)
  {
    hide LedgerNext, Next, LedgerLegal, Settled, ReportedBy, Reports;
    EmptyIsRelated(clock);
    BackendRefinesLedger(L.EMPTY, EMPTY, clock, steps);
    RunBalances(EMPTY, key, 0, clock, steps);
  }
}
