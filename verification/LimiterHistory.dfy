/** What a run of the limiter writes down: one line for every grant it answered, and nothing else. */
module LimiterHistory {
  import opened Limits
  import opened LimiterRuns
  import opened LimiterFacts
  import opened LedgerRefinement
  import opened LedgerSafety
  import opened Admission
  import L = Limiter
  import G = Ledger

  /** The amount first asked for a limit. */
  function AmountFor(reqs: seq<Requirement>, key: string): nat {
    if reqs == [] then 0 else if reqs[0].key == key then reqs[0].amount else AmountFor(reqs[1..], key)
  }

  lemma {:induction false} AmountForFinds(reqs: seq<Requirement>, i: nat)
    requires DistinctKeys(reqs) && i < |reqs|
    ensures AmountFor(reqs, reqs[i].key) == reqs[i].amount
  {
    if i > 0 {
      AmountForFinds(reqs[1..], i - 1);
    }
  }

  /** The step grants a new lease that asks for `key`. */
  ghost predicate GrantsNew(b: L.Backend, step: Step, key: string) {
    && step.Reserving? && step.req.leaseID !in b.leases && L.Reserve(b, step.req, step.now).1.allowed
    && key in b.defs && exists i :: 0 <= i < |step.req.requirements| && step.req.requirements[i].key == key
  }

  /** The grant a step makes for `key`, good for one window. */
  ghost function GrantMade(b: L.Backend, step: Step, key: string): seq<G.Grant> {
    if GrantsNew(b, step, key) && b.defs[key].kind.Rolling? then
      [G.Grant(step.req.leaseID, step.now, AmountFor(step.req.requirements, key),
         step.now + b.defs[key].windowSeconds * 1_000_000_000)]
    else []
  }

  /** The hold a step makes for `key`, good for one timeout. */
  ghost function HoldMade(b: L.Backend, step: Step, key: string): seq<G.Hold> {
    if GrantsNew(b, step, key) && b.defs[key].kind.Concurrency? then
      [G.Hold(step.req.leaseID, step.now + b.defs[key].timeoutSeconds * 1_000_000_000, false)]
    else []
  }

  ghost function GrantsMade(b: L.Backend, steps: seq<Step>, key: string): seq<G.Grant>
    decreases |steps|
  {
    if steps == [] then [] else GrantMade(b, steps[0], key) + GrantsMade(Next(b, steps[0]), steps[1..], key)
  }

  ghost function HoldsMade(b: L.Backend, steps: seq<Step>, key: string): seq<G.Hold>
    decreases |steps|
  {
    if steps == [] then [] else HoldMade(b, steps[0], key) + HoldsMade(Next(b, steps[0]), steps[1..], key)
  }

  /** `h` is the line of the grant `g`: of an open lease in full, of a closed one perhaps lowered. */
  ghost predicate IsLine(g: G.Grant, h: G.Grant, leases: map<string, Lease>) {
    && h.lease == g.lease && h.at == g.at && h.expiresAt == g.expiresAt
    && h.amount <= g.amount && (h.lease in leases ==> h.amount == g.amount)
  }

  ghost predicate ListsGrants(l: G.Ledger, gs: seq<G.Grant>, key: string) {
    if key !in l.grants then gs == []
    else |l.grants[key]| == |gs| && forall i :: 0 <= i < |gs| ==> IsLine(gs[i], l.grants[key][i], l.leases)
  }

  /** `h` is the line of the hold `g`: given back exactly when the lease is closed. */
  ghost predicate IsHold(g: G.Hold, h: G.Hold, leases: map<string, Lease>, key: string) {
    && h == g.(released := h.lease !in leases)
    && (h.lease in leases ==> Mentions(leases[h.lease].requirements, |leases[h.lease].requirements|, key))
  }

  ghost predicate ListsHolds(l: G.Ledger, hs: seq<G.Hold>, key: string) {
    if key !in l.holds then hs == []
    else |l.holds[key]| == |hs| && forall i :: 0 <= i < |hs| ==> IsHold(hs[i], l.holds[key][i], l.leases, key)
  }

  lemma OldLinesStay(gs: seq<G.Grant>, lines: seq<G.Grant>, leases: map<string, Lease>, id: string, lease: Lease)
    requires |lines| == |gs| && forall i :: 0 <= i < |gs| ==> IsLine(gs[i], lines[i], leases) && lines[i].lease != id
    ensures forall i :: 0 <= i < |gs| ==> IsLine(gs[i], lines[i], leases[id := lease])
  {
  }

  lemma OldHoldsStay(hs: seq<G.Hold>, lines: seq<G.Hold>, leases: map<string, Lease>, key: string, id: string,
          lease: Lease)
    requires |lines| == |hs|
    requires forall i :: 0 <= i < |hs| ==> IsHold(hs[i], lines[i], leases, key) && lines[i].lease != id
    ensures forall i :: 0 <= i < |hs| ==> IsHold(hs[i], lines[i], leases[id := lease], key)
  {
  }

  lemma CommitListsGrant(l: G.Ledger, req: ReserveRequest, now: int, gs: seq<G.Grant>, key: string)
    requires DistinctKeys(req.requirements) && NeverGranted(l, req.leaseID) && ListsGrants(l, gs, key)
    requires key in l.grants && key in l.defs && l.defs[key].kind.Rolling?
    ensures var amount, window := AmountFor(req.requirements, key), l.defs[key].windowSeconds * 1_000_000_000;
            var made := if Mentions(req.requirements, |req.requirements|, key) then
                          [G.Grant(req.leaseID, now, amount, now + window)]
                        else [];
            ListsGrants(G.Commit(l, req, now), gs + made, key)
  {
    hide G.Commit, L.IndexByKey, IsLine;
    CommitGrants(l, req, now, key);
    CommitKeepsDefinitions(l, req, now);
    var m := G.Commit(l, req, now);
    OldLinesStay(gs, l.grants[key], l.leases, req.leaseID, m.leases[req.leaseID]);
    if i :| 0 <= i < |req.requirements| && req.requirements[i].key == key {
      AmountForFinds(req.requirements, i);
      IndexByKeyFinds(req.requirements, i);
      NewLine(m.grants[key][|gs|], m.leases);
    }
  }

  lemma NewLine(g: G.Grant, leases: map<string, Lease>)
    ensures IsLine(g, g, leases)
  {
  }

  lemma CommitListsHold(l: G.Ledger, req: ReserveRequest, now: int, hs: seq<G.Hold>, key: string)
    requires NeverGranted(l, req.leaseID) && ListsHolds(l, hs, key)
    requires key in l.holds && key in l.defs && l.defs[key].kind.Concurrency?
    ensures var timeout := l.defs[key].timeoutSeconds * 1_000_000_000;
            var made := if Mentions(req.requirements, |req.requirements|, key) then
                          [G.Hold(req.leaseID, now + timeout, false)]
                        else [];
            ListsHolds(G.Commit(l, req, now), hs + made, key)
  {
    hide G.Commit, L.IndexByKey, IsHold;
    CommitHolds(l, req, now, key);
    CommitKeepsDefinitions(l, req, now);
    var m := G.Commit(l, req, now);
    OldHoldsStay(hs, l.holds[key], l.leases, key, req.leaseID, m.leases[req.leaseID]);
    if Mentions(req.requirements, |req.requirements|, key) {
      NewHold(m.holds[key][|hs|], m.leases, key);
    }
  }

  lemma NewHold(h: G.Hold, leases: map<string, Lease>, key: string)
    requires h.lease in leases && !h.released
    requires Mentions(leases[h.lease].requirements, |leases[h.lease].requirements|, key)
    ensures IsHold(h, h, leases, key)
  {
  }

  lemma ReserveListsGrants(b: L.Backend, l: G.Ledger, clock: int, req: ReserveRequest, now: int, gs: seq<G.Grant>,
          key: string)
    requires Rel(b, l, clock) && LedgerLegal(l, clock, Reserving(req, now)) && ListsGrants(l, gs, key)
    ensures ListsGrants(G.Reserve(l, req, now).0, gs + GrantMade(b, Reserving(req, now), key), key)
  {
    hide Rel, WithinLimits, L.Reserve, G.Commit, G.Reserve, NeverGranted, L.IndexByKey, ListsGrants, AmountFor;
    ReserveRefines(b, l, clock, req, now);
    ReserveOutcome(l, req, now);
    SameShape(b, l, clock);
    StoresInPlace(b);
    assert gs + [] == gs;
    if G.Reserve(l, req, now).1.allowed && req.leaseID !in l.leases {
      CommitGrants(l, req, now, key);
      if key in l.grants {
        CommitListsGrant(l, req, now, gs, key);
      } else {
        NoGrants(l, G.Commit(l, req, now), gs, key);
      }
    }
  }

  lemma ReserveListsHolds(b: L.Backend, l: G.Ledger, clock: int, req: ReserveRequest, now: int, hs: seq<G.Hold>,
          key: string)
    requires Rel(b, l, clock) && LedgerLegal(l, clock, Reserving(req, now)) && ListsHolds(l, hs, key)
    ensures ListsHolds(G.Reserve(l, req, now).0, hs + HoldMade(b, Reserving(req, now), key), key)
  {
    hide Rel, WithinLimits, L.Reserve, G.Commit, G.Reserve, NeverGranted, L.IndexByKey, ListsHolds, AmountFor;
    ReserveRefines(b, l, clock, req, now);
    ReserveOutcome(l, req, now);
    SameShape(b, l, clock);
    StoresInPlace(b);
    assert hs + [] == hs;
    if G.Reserve(l, req, now).1.allowed && req.leaseID !in l.leases {
      CommitHolds(l, req, now, key);
      if key in l.holds {
        CommitListsHold(l, req, now, hs, key);
      } else {
        NoHolds(l, G.Commit(l, req, now), hs, key);
      }
    }
  }

  lemma NoGrants(l: G.Ledger, m: G.Ledger, gs: seq<G.Grant>, key: string)
    requires key !in l.grants && key !in m.grants
    ensures ListsGrants(l, gs, key) ==> gs == [] && ListsGrants(m, gs, key)
  {
  }

  lemma NoHolds(l: G.Ledger, m: G.Ledger, hs: seq<G.Hold>, key: string)
    requires key !in l.holds && key !in m.holds
    ensures ListsHolds(l, hs, key) ==> hs == [] && ListsHolds(m, hs, key)
  {
  }

  /** Whatever else a step does, it leaves the lines and the leases. */
  ghost predicate SameLines(l: G.Ledger, m: G.Ledger) {
    && m.leases == l.leases
    && (forall k :: k in l.grants ==> k in m.grants && m.grants[k] == l.grants[k])
    && (forall k :: k in m.grants && k !in l.grants ==> m.grants[k] == [])
    && (forall k :: k in l.holds ==> k in m.holds && m.holds[k] == l.holds[k])
    && (forall k :: k in m.holds && k !in l.holds ==> m.holds[k] == [])
  }

  lemma SameLinesList(l: G.Ledger, m: G.Ledger, gs: seq<G.Grant>, hs: seq<G.Hold>, key: string)
    requires SameLines(l, m) && ListsGrants(l, gs, key) && ListsHolds(l, hs, key)
    ensures ListsGrants(m, gs, key) && ListsHolds(m, hs, key)
  {
  }

  /** Defining a limit, or lowering it, moves no line. */
  lemma DefinitionKeepsLines(l: G.Ledger, def: Definition)
    ensures SameLines(l, G.ApplyDefinition(l, def))
  {
  }

  lemma DecreaseKeepsLines(l: G.Ledger, key: string, now: int)
    ensures SameLines(l, G.TryApplyDecrease(l, key, now).0)
  {
    hide G.Usage;
  }

  lemma CompleteLists(b: L.Backend, l: G.Ledger, clock: int, done: CompleteRequest, gs: seq<G.Grant>, hs: seq<G.Hold>,
          key: string)
    requires Rel(b, l, clock) && ListsGrants(l, gs, key) && ListsHolds(l, hs, key)
    ensures ListsGrants(G.Complete(l, done), gs, key) && ListsHolds(G.Complete(l, done), hs, key)
  {
    hide Rel, WithinLimits, G.Complete, Reconciled, IsLine, IsHold;
    SameShape(b, l, clock);
    StoresInPlace(b);
    CompleteKeepsUnknown(l, key, done);
    CompleteHolds(l, done);
    var c := G.Complete(l, done);
    if done.leaseID !in l.leases {
      UnknownIsNothing(l, done);
    } else if key in l.defs {
      CompletionIsExact(l, done, key);
      if key in l.grants {
        ClosedLines(l, c, done, gs, key);
      }
      if key in l.holds {
        ClosedHolds(l, c, done, hs, key);
      }
    }
  }

  lemma UnknownIsNothing(l: G.Ledger, done: CompleteRequest)
    requires done.leaseID !in l.leases
    ensures G.Complete(l, done) == l
  {
  }

  lemma ClosedLines(l: G.Ledger, c: G.Ledger, done: CompleteRequest, gs: seq<G.Grant>, key: string)
    requires key in l.grants && ListsGrants(l, gs, key) && c.leases == l.leases - {done.leaseID}
    requires done.leaseID in l.leases
    requires Reconciled(l.(leases := c.leases, holds := c.holds), c, done.leaseID, done.actuals, key,
                 L.ReservedFor(l.leases[done.leaseID].reservedAmounts, key))
    ensures ListsGrants(c, gs, key)
  {
    forall i | 0 <= i < |gs|
      ensures IsLine(gs[i], c.grants[key][i], c.leases)
    {
      assert IsLine(gs[i], l.grants[key][i], l.leases);
    }
  }

  lemma ClosedHolds(l: G.Ledger, c: G.Ledger, done: CompleteRequest, hs: seq<G.Hold>, key: string)
    requires key in l.holds && ListsHolds(l, hs, key) && c.leases == l.leases - {done.leaseID}
    requires done.leaseID in l.leases && key in c.holds && |c.holds[key]| == |l.holds[key]|
    requires var reqs := l.leases[done.leaseID].requirements;
             forall i :: 0 <= i < |l.holds[key]| ==>
               c.holds[key][i] ==
               if l.holds[key][i].lease == done.leaseID && Mentions(reqs, |reqs|, key) then
                 l.holds[key][i].(released := true)
               else l.holds[key][i]
    ensures ListsHolds(c, hs, key)
  {
    forall i | 0 <= i < |hs|
      ensures IsHold(hs[i], c.holds[key][i], c.leases, key)
    {
      assert IsHold(hs[i], l.holds[key][i], l.leases, key);
    }
  }

  lemma StepLists(b: L.Backend, l: G.Ledger, clock: int, step: Step, gs: seq<G.Grant>, hs: seq<G.Hold>, key: string)
    requires Rel(b, l, clock) && LedgerLegal(l, clock, step) && ListsGrants(l, gs, key) && ListsHolds(l, hs, key)
    ensures ListsGrants(LedgerNext(l, step), gs + GrantMade(b, step, key), key)
    ensures ListsHolds(LedgerNext(l, step), hs + HoldMade(b, step, key), key)
  {
    hide Rel, G.Reserve, L.Reserve, G.Complete, G.ApplyDefinition, G.TryApplyDecrease, ListsGrants, ListsHolds;
    assert gs + [] == gs && hs + [] == hs;
    match step
    case Reserving(req, now) =>
      ReserveListsGrants(b, l, clock, req, now, gs, key);
      ReserveListsHolds(b, l, clock, req, now, hs, key);
    case Completing(done) => CompleteLists(b, l, clock, done, gs, hs, key);
    case Defining(def) =>
      DefinitionKeepsLines(l, def);
      SameLinesList(l, G.ApplyDefinition(l, def), gs, hs, key);
    case Decreasing(k, now) =>
      DecreaseKeepsLines(l, k, now);
      SameLinesList(l, G.TryApplyDecrease(l, k, now).0, gs, hs, key);
  }

  lemma {:induction false} RunLists(b: L.Backend, l: G.Ledger, clock: int, steps: seq<Step>, gs: seq<G.Grant>,
          hs: seq<G.Hold>, key: string)
    requires Rel(b, l, clock) && LedgerLegalRun(l, clock, steps) && ListsGrants(l, gs, key) && ListsHolds(l, hs, key)
    ensures ListsGrants(LedgerRun(l, steps), gs + GrantsMade(b, steps, key), key)
    ensures ListsHolds(LedgerRun(l, steps), hs + HoldsMade(b, steps, key), key)
    decreases |steps|
  {
    hide Rel, LedgerLegal, LedgerNext, Next, Legal, ListsGrants, ListsHolds, GrantMade, HoldMade;
    if steps == [] {
      assert gs + [] == gs && hs + [] == hs;
    } else {
      var g, h := GrantMade(b, steps[0], key), HoldMade(b, steps[0], key);
      StepLists(b, l, clock, steps[0], gs, hs, key);
      StepRefines(b, l, clock, steps[0]);
      var c := Next(b, steps[0]);
      RunLists(c, LedgerNext(l, steps[0]), ClockAfter(clock, steps[0]), steps[1..], gs + g, hs + h, key);
      assert gs + (g + GrantsMade(c, steps[1..], key)) == gs + g + GrantsMade(c, steps[1..], key);
      assert hs + (h + HoldsMade(c, steps[1..], key)) == hs + h + HoldsMade(c, steps[1..], key);
    }
  }

  /** After any run of a new backend the ledger lists, for every limit, exactly the grants the backend
      answered, in order, each with its time, its amount and its one window or timeout; the amount is lowered
      only once the lease is closed, and a hold is given back exactly when it is. */
  lemma LinesAreTheGrants(clock: int, steps: seq<Step>, key: string)
    requires LedgerLegalRun(G.EMPTY, clock, steps)
    ensures var e := LedgerRun(G.EMPTY, steps);
            && ListsGrants(e, GrantsMade(L.EMPTY, steps, key), key)
            && ListsHolds(e, HoldsMade(L.EMPTY, steps, key), key)
  {
    hide LedgerRun, GrantsMade, HoldsMade, LedgerLegalRun, Rel;
    EmptyIsRelated(clock);
    RunLists(L.EMPTY, G.EMPTY, clock, steps, [], [], key);
    assert [] + GrantsMade(L.EMPTY, steps, key) == GrantsMade(L.EMPTY, steps, key);
    assert [] + HoldsMade(L.EMPTY, steps, key) == HoldsMade(L.EMPTY, steps, key);
  }
}
