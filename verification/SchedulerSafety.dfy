/** What every interleaving of the scheduler keeps. */
module SchedulerSafety {
  import opened Limits
  import opened LimiterRuns
  import opened LedgerRefinement
  import opened LedgerStores
  import opened LedgerSafety
  import opened SchedulerSystem
  import S = SchedulerSpec
  import L = Limiter
  import G = Ledger
  import R = RollingSpec
  import Requirements

  // ---- The ledger's leases ----

  ghost predicate Unreleased(hs: seq<G.Hold>, x: string) {
    exists i :: 0 <= i < |hs| && hs[i].lease == x && !hs[i].released
  }

  /** Every open lease holds an unreleased line in each concurrency limit it reserved. */
  ghost predicate LeasesOk(l: G.Ledger) {
    forall x :: x in l.leases ==>
      && l.leases[x].reservedAmounts == L.IndexByKey(l.leases[x].requirements)
      && forall k :: k in l.leases[x].reservedAmounts ==> k in l.defs && (k in l.holds ==> Unreleased(l.holds[k], x))
  }

  /** Only lease ids handed out so far occur in the ledger. */
  ghost predicate OnlyIssued(l: G.Ledger, issued: set<string>) {
    && (forall x :: x in l.leases ==> x in issued)
    && (forall k, i :: k in l.grants && 0 <= i < |l.grants[k]| ==> l.grants[k][i].lease in issued)
    && (forall k, i :: k in l.holds && 0 <= i < |l.holds[k]| ==> l.holds[k][i].lease in issued)
  }

  lemma CommitKeepsLeases(l: G.Ledger, req: ReserveRequest, now: int)
    requires LeasesOk(l) && forall i :: 0 <= i < |req.requirements| ==> req.requirements[i].key in l.defs
    requires forall k :: k in l.holds ==> k in l.defs && l.defs[k].kind.Concurrency?
    ensures LeasesOk(G.Commit(l, req, now))
  {
    hide G.Commit, L.IndexByKey, Unreleased;
    CommitKeepsDefinitions(l, req, now);
    Requirements.KeysOf(req.requirements);
    var m := G.Commit(l, req, now);
    forall x, k | x in m.leases && k in m.leases[x].reservedAmounts
      ensures k in m.defs && (k in m.holds ==> Unreleased(m.holds[k], x))
    {
      CommitHolds(l, req, now, k);
      if k in m.holds {
        OneMoreHold(l.holds[k], G.Hold(req.leaseID, now + l.defs[k].timeoutSeconds * SECOND, false), x);
      }
    }
  }

  lemma OneMoreHold(hs: seq<G.Hold>, h: G.Hold, x: string)
    ensures !h.released && (h.lease == x || Unreleased(hs, x)) ==> Unreleased(hs + [h], x)
  {
    if Unreleased(hs, x) {
      var i :| 0 <= i < |hs| && hs[i].lease == x && !hs[i].released;
      assert (hs + [h])[i] == hs[i];
    }
    assert (hs + [h])[|hs|] == h;
  }

  lemma CompleteKeepsLeases(l: G.Ledger, done: CompleteRequest)
    requires LeasesOk(l)
    ensures LeasesOk(G.Complete(l, done))
  {
    hide G.Complete, L.IndexByKey;
    CompleteHolds(l, done);
    CompleteKeepsUnknown(l, "", done);
    var c := G.Complete(l, done);
    forall x, k | x in c.leases && k in c.leases[x].reservedAmounts
      ensures k in c.defs && (k in c.holds ==> Unreleased(c.holds[k], x))
    {
      if k in c.holds {
        var i :| 0 <= i < |l.holds[k]| && l.holds[k][i].lease == x && !l.holds[k][i].released;
        assert c.holds[k][i] == l.holds[k][i];
      }
    }
  }

  /** A retry of a granted lease with the same requirements is always allowed. */
  lemma RetryIsAllowed(l: G.Ledger, req: ReserveRequest, now: int)
    requires req.leaseID in l.leases && l.leases[req.leaseID].requirements == req.requirements
    requires req.leaseID != "" && req.requirements != [] && DistinctKeys(req.requirements)
    ensures G.Reserve(l, req, now).1.allowed && G.Reserve(l, req, now).0 == l
  {
    hide G.Commit, G.MaxRetry, L.RequirementsEqual;
    Requirements.RequirementsEqualIsSetEquality(req.requirements, req.requirements);
  }

  /** The lease a step is about. */
  function LeaseOf(step: Step): string {
    match step
    case Reserving(req, now) => req.leaseID
    case Completing(done) => done.leaseID
    case _ => ""
  }

  /** A step leaves the other leases alone. */
  lemma OthersUntouched(l: G.Ledger, clock: int, step: Step, x: string)
    requires LedgerLegal(l, clock, step) && x != "" && x != LeaseOf(step)
    ensures NeverGranted(l, x) ==> NeverGranted(LedgerNext(l, step), x)
    ensures x in l.leases <==> x in LedgerNext(l, step).leases
    ensures x in l.leases ==> LedgerNext(l, step).leases[x] == l.leases[x]
  {
    hide L.IndexByKey, G.ReconcileAll, G.Usage;
    match step
    case Reserving(req, now) =>
      hide G.Commit, G.Reserve;
      ReserveOutcome(l, req, now);
      CommitKeepsDefinitions(l, req, now);
      if NeverGranted(l, x) {
        CommitNeverGranted(l, req, now, x);
      }
    case Completing(done) =>
      hide G.Complete;
      CompleteHolds(l, done);
      CompleteKeepsUnknown(l, "", done);
    case Defining(def) =>
    case Decreasing(k, now) =>
  }

  lemma CommitNeverGranted(l: G.Ledger, req: ReserveRequest, now: int, x: string)
    requires NeverGranted(l, x) && x != req.leaseID
    ensures NeverGranted(G.Commit(l, req, now), x)
  {
    hide G.Commit, L.IndexByKey;
    var m := G.Commit(l, req, now);
    forall k, i | k in m.grants && 0 <= i < |m.grants[k]|
      ensures m.grants[k][i].lease != x
    {
      CommitGrants(l, req, now, k);
    }
    forall k, i | k in m.holds && 0 <= i < |m.holds[k]|
      ensures m.holds[k][i].lease != x
    {
      CommitHolds(l, req, now, k);
    }
  }

  lemma CommitOnlyIssued(l: G.Ledger, req: ReserveRequest, now: int, issued: set<string>)
    requires OnlyIssued(l, issued) && req.leaseID in issued
    ensures OnlyIssued(G.Commit(l, req, now), issued)
  {
    hide G.Commit, L.IndexByKey;
    var m := G.Commit(l, req, now);
    CommitKeepsDefinitions(l, req, now);
    forall k, i | k in m.grants && 0 <= i < |m.grants[k]|
      ensures m.grants[k][i].lease in issued
    {
      CommitGrants(l, req, now, k);
    }
    forall k, i | k in m.holds && 0 <= i < |m.holds[k]|
      ensures m.holds[k][i].lease in issued
    {
      CommitHolds(l, req, now, k);
    }
  }

  lemma HoldsAreConcurrency(b: L.Backend, l: G.Ledger, clock: int)
    requires Rel(b, l, clock)
    ensures forall k :: k in l.holds ==> k in l.defs && l.defs[k].kind.Concurrency?
    ensures forall k :: k in l.defs && l.defs[k].kind.Concurrency? ==> k in l.holds
  {
    hide WithinLimits, RollRel, ConcRel;
    StoresInPlace(b);
  }

  lemma LedgerStepKeeps(b: L.Backend, l: G.Ledger, clock: int, step: Step, issued: set<string>)
    requires Rel(b, l, clock) && LedgerLegal(l, clock, step) && LeasesOk(l) && OnlyIssued(l, issued)
    requires step.Reserving? ==> step.req.leaseID in issued
    ensures LeasesOk(LedgerNext(l, step)) && OnlyIssued(LedgerNext(l, step), issued)
    ensures Rel(Next(b, step), LedgerNext(l, step), ClockAfter(clock, step))
  {
    hide Rel;
    StepRefines(b, l, clock, step);
    HoldsAreConcurrency(b, l, clock);
    match step
    case Reserving(req, now) =>
      hide G.Reserve, G.Commit, NeverGranted, LeasesOk, OnlyIssued;
      ReserveOutcome(l, req, now);
      if G.Reserve(l, req, now).1.allowed && req.leaseID !in l.leases {
        CommitKeepsLeases(l, req, now);
        CommitOnlyIssued(l, req, now, issued);
      }
    case Completing(done) =>
      hide G.Complete, LeasesOk;
      CompleteKeepsLeases(l, done);
      CompleteHolds(l, done);
      CompleteKeepsUnknown(l, "", done);
    case Defining(def) => DefinitionKeepsLeases(l, def, issued);
    case Decreasing(k, now) => DecreaseKeepsLeases(l, k, now, issued);
  }

  lemma DefinitionKeepsLeases(l: G.Ledger, def: Definition, issued: set<string>)
    requires LeasesOk(l) && OnlyIssued(l, issued)
    requires forall k :: k in l.defs && l.defs[k].kind.Concurrency? ==> k in l.holds
    requires def.key in l.defs && def.capacity >= l.defs[def.key].capacity ==> def.kind == l.defs[def.key].kind
    ensures LeasesOk(G.ApplyDefinition(l, def)) && OnlyIssued(G.ApplyDefinition(l, def), issued)
  {
    hide L.IndexByKey, Unreleased;
  }

  lemma DecreaseKeepsLeases(l: G.Ledger, k: string, now: int, issued: set<string>)
    requires LeasesOk(l) && OnlyIssued(l, issued)
    ensures LeasesOk(G.TryApplyDecrease(l, k, now).0) && OnlyIssued(G.TryApplyDecrease(l, k, now).0, issued)
  {
    hide L.IndexByKey, Unreleased, G.Usage;
  }

  // ---- Jobs ----

  ghost predicate HasTicket(m: multiset<Job>, t: nat) {
    exists j :: j in m && j.ticket == t
  }

  /** Every submitted ticket is that of exactly one job, counted once. */
  ghost predicate Identified(m: multiset<Job>, submitted: nat) {
    && (forall j :: j in m ==> j.ticket < submitted && m[j] == 1)
    && (forall j, k :: j in m && k in m && j.ticket == k.ticket ==> j == k)
    && (forall t :: 0 <= t < submitted ==> HasTicket(m, t))
  }

  /** No two jobs have the same lease. */
  ghost predicate Separate(m: multiset<Job>) {
    forall j, k :: j in m && k in m && j.leaseID == k.leaseID != "" ==> j == k
  }

  lemma ReplaceJob(m: multiset<Job>, n: multiset<Job>, j: Job, k: Job, submitted: nat)
    requires Identified(m, submitted) && Separate(m)
    requires j in m && n + multiset{j} == m + multiset{k} && k.ticket == j.ticket
    requires k.leaseID == "" || forall i :: i in m && i != j ==> i.leaseID != k.leaseID
    ensures Identified(n, submitted) && Separate(n)
    ensures forall i :: i in n <==> i == k || (i in m && i != j)
  {
    forall i
      ensures i in n <==> i == k || (i in m && i != j)
      ensures i in n ==> n[i] == 1
    {
      assert (n + multiset{j})[i] == (m + multiset{k})[i];
    }
    forall t | 0 <= t < submitted
      ensures HasTicket(n, t)
    {
      assert HasTicket(m, t);
      var i :| i in m && i.ticket == t;
      assert (if i == j then k else i) in n;
    }
  }

  lemma AddJob(m: multiset<Job>, j: Job, submitted: nat)
    requires Identified(m, submitted) && Separate(m) && j.ticket == submitted
    requires j.leaseID == "" || forall i :: i in m ==> i.leaseID != j.leaseID
    ensures Identified(m + multiset{j}, submitted + 1) && Separate(m + multiset{j})
  {
    forall t | 0 <= t < submitted + 1
      ensures HasTicket(m + multiset{j}, t)
    {
      if t == submitted {
        assert j in m + multiset{j};
      } else {
        assert HasTicket(m, t);
        var i :| i in m && i.ticket == t;
        assert i in m + multiset{j};
      }
    }
  }

  // ---- The log ----

  ghost predicate Before(log: seq<Event>, a: Event, b: Event) {
    forall j :: 0 <= j < |log| && log[j] == b ==> exists i :: 0 <= i < j && log[i] == a
  }

  /** No event repeats; a lease is started only once granted, and completed only once started. */
  ghost predicate LogOk(log: seq<Event>, issued: set<string>) {
    && (forall i, j :: 0 <= i < j < |log| ==> log[i] != log[j])
    && (forall x :: Before(log, Granted(x), Started(x)) && Before(log, Started(x), Completed(x)))
    && (forall e :: e in log ==> e.lease in issued)
  }

  lemma AppendEvent(log: seq<Event>, e: Event, issued: set<string>)
    requires LogOk(log, issued) && e !in log && e.lease in issued
    requires e.Started? ==> Granted(e.lease) in log
    requires e.Completed? ==> Started(e.lease) in log
    ensures LogOk(log + [e], issued)
  {
    var after := log + [e];
    forall x
      ensures Before(after, Granted(x), Started(x)) && Before(after, Started(x), Completed(x))
    {
      StillBefore(log, e, Granted(x), Started(x));
      StillBefore(log, e, Started(x), Completed(x));
    }
  }

  lemma StillBefore(log: seq<Event>, e: Event, a: Event, b: Event)
    requires Before(log, a, b) && (e == b ==> a in log)
    ensures Before(log + [e], a, b)
  {
    var after := log + [e];
    forall j | 0 <= j < |after| && after[j] == b
      ensures exists i :: 0 <= i < j && after[i] == a
    {
      if j < |log| {
        var i :| 0 <= i < j && log[i] == a;
        assert after[i] == a;
      } else {
        var i :| 0 <= i < |log| && log[i] == a;
        assert after[i] == a;
      }
    }
  }

  lemma MoreIssued(log: seq<Event>, l: G.Ledger, issued: set<string>, more: set<string>)
    requires LogOk(log, issued) && OnlyIssued(l, issued) && issued <= more
    ensures LogOk(log, more) && OnlyIssued(l, more)
  {
    hide Before;
  }

  // ---- The invariant ----

  /** Where the lease of a job stands: unused, or granted with this job's requirements and open until
      completed. */
  ghost predicate LeaseStanding(l: G.Ledger, log: seq<Event>, issued: set<string>, j: Job) {
    var x := j.leaseID;
    x != "" ==>
      && x in issued
      && (Granted(x) !in log ==> NeverGranted(l, x) && x !in l.leases && Started(x) !in log && Completed(x) !in log)
      && (Granted(x) in log && Completed(x) !in log ==>
            x in l.leases && l.leases[x].requirements == RequestOf(j).requirements)
  }

  /** Every job is in one place, and its lease stands as its place says: not started while it waits,
      started and open while a worker has it in hand, completed once it is finished. */
  ghost predicate Placed(waiting: multiset<Job>, busy: multiset<Job>, finished: multiset<Job>, submitted: nat,
          l: G.Ledger, log: seq<Event>, issued: set<string>)
  {
    && Identified(waiting + busy + finished, submitted) && Separate(waiting + busy + finished)
    && (forall j :: j in waiting || j in busy || j in finished ==> LeaseStanding(l, log, issued, j))
    && (forall j :: j in waiting ==> Started(j.leaseID) !in log)
    && (forall j :: j in busy ==>
        j.leaseID != "" && Granted(j.leaseID) in log && Started(j.leaseID) in log && Completed(j.leaseID) !in log)
    && (forall j :: j in finished ==> j.leaseID != "" && Completed(j.leaseID) in log)
  }

  ghost predicate Shared(b: L.Backend, l: G.Ledger, clock: int, log: seq<Event>, issued: set<string>) {
    Rel(b, l, clock) && LeasesOk(l) && OnlyIssued(l, issued) && "" !in issued && LogOk(log, issued)
  }

  ghost predicate Inv(s: System) {
    && S.Valid(s.sched)
    && Shared(s.backend, s.ledger, s.clock, s.log, s.issued)
    && Placed(Waiting(s), Busy(s), multiset(s.finished), s.submitted, s.ledger, s.log, s.issued)
  }

  /** Nothing in use, no jobs, a new backend. */
  ghost predicate Init(s: System) {
    && s.backend == L.EMPTY && s.ledger == G.EMPTY && s.sched == S.EMPTY
    && s.submitCh == [] && s.workCh == [] && s.requeueCh == [] && s.finished == []
    && (forall w :: 0 <= w < |s.workers| ==> s.workers[w].Idle?)
    && s.submitted == 0 && s.issued == {} && s.log == []
  }

  lemma {:induction false} AllEmpty(ms: seq<multiset<Job>>)
    requires forall i :: 0 <= i < |ms| ==> ms[i] == multiset{}
    ensures Flatten(ms) == multiset{}
  {
    if ms != [] {
      AllEmpty(ms[..|ms| - 1]);
    }
  }

  lemma InitHolds(s: System)
    requires Init(s)
    ensures Inv(s)
  {
    hide Rel, Flatten;
    EmptyIsRelated(s.clock);
    AllEmpty(WorkersWaiting(s.workers));
    AllEmpty(WorkersBusy(s.workers));
    AllEmpty(Queued(s.sched));
    assert Waiting(s) == multiset{} && Busy(s) == multiset{};
  }

  // ---- What moving, adding and renaming jobs keeps ----

  /** A lease id never handed out before is unused. */
  lemma NewLeaseStands(l: G.Ledger, log: seq<Event>, issued: set<string>, more: set<string>, j: Job)
    requires OnlyIssued(l, issued) && LogOk(log, issued) && "" !in issued
    requires j.leaseID == "" || (j.leaseID !in issued && j.leaseID in more)
    ensures LeaseStanding(l, log, more, j) && Started(j.leaseID) !in log
  {
    hide Before;
    var x := j.leaseID;
    assert Granted(x).lease == x && Started(x).lease == x && Completed(x).lease == x;
  }

  lemma JobArrives(w: multiset<Job>, b: multiset<Job>, f: multiset<Job>, submitted: nat, l: G.Ledger, log: seq<Event>,
          issued: set<string>, more: set<string>, j: Job)
    requires Placed(w, b, f, submitted, l, log, issued) && OnlyIssued(l, issued) && LogOk(log, issued) && "" !in issued
    requires j.ticket == submitted && issued <= more && (j.leaseID == "" || (j.leaseID !in issued && j.leaseID in more))
    ensures Placed(w + multiset{j}, b, f, submitted + 1, l, log, more)
  {
    hide NeverGranted, Identified, Separate, OnlyIssued, LogOk;
    assert w + multiset{j} + b + f == (w + b + f) + multiset{j};
    LeasesIssued(w, b, f, submitted, l, log, issued);
    AddJob(w + b + f, j, submitted);
    NewLeaseStands(l, log, issued, more, j);
  }

  /** A waiting job takes a new, unused lease. */
  lemma JobRenamed(w: multiset<Job>, b: multiset<Job>, f: multiset<Job>, submitted: nat, l: G.Ledger, log: seq<Event>,
          issued: set<string>, j: Job, k: Job)
    requires Placed(w, b, f, submitted, l, log, issued) && OnlyIssued(l, issued) && LogOk(log, issued) && "" !in issued
    requires j in w && k == j.(leaseID := k.leaseID) && k.leaseID != "" && k.leaseID !in issued
    ensures Placed(w - multiset{j} + multiset{k}, b, f, submitted, l, log, issued + {k.leaseID})
  {
    hide NeverGranted, Identified, Separate, OnlyIssued, LogOk;
    Swapped(w, b, f, j, k);
    LeasesIssued(w, b, f, submitted, l, log, issued);
    ReplaceJob(w + b + f, (w - multiset{j} + multiset{k}) + b + f, j, k, submitted);
    NewLeaseStands(l, log, issued, issued + {k.leaseID}, k);
  }

  lemma Swapped(w: multiset<Job>, b: multiset<Job>, f: multiset<Job>, j: Job, k: Job)
    requires j in w
    ensures ((w - multiset{j} + multiset{k}) + b + f) + multiset{j} == (w + b + f) + multiset{k}
    ensures j in w + b + f
    ensures forall i :: i in w - multiset{j} + multiset{k} ==> i in w || i == k
  {
  }

  lemma LeasesIssued(w: multiset<Job>, b: multiset<Job>, f: multiset<Job>, submitted: nat, l: G.Ledger, log: seq<Event>,
          issued: set<string>)
    requires Placed(w, b, f, submitted, l, log, issued)
    ensures forall i :: i in w + b + f ==> i.leaseID == "" || i.leaseID in issued
  {
  }

  /** A step that only moves jobs between waiting places. */
  lemma MoveKeeps(s: System, t: System)
    requires Inv(s) && S.Valid(t.sched) && s.clock <= t.clock
    requires Waiting(t) == Waiting(s) && Busy(t) == Busy(s) && t.finished == s.finished
    requires t.backend == s.backend && t.ledger == s.ledger && t.log == s.log && t.issued == s.issued
    requires t.submitted == s.submitted
    ensures Inv(t)
  {
    hide Rel, Waiting, Busy, LeasesOk, OnlyIssued, LogOk, Placed, S.Valid;
    RelLater(s.backend, s.ledger, s.clock, t.clock);
  }

  lemma SchedIsValid(s: System)
    requires Inv(s)
    ensures S.Valid(s.sched) && Shared(s.backend, s.ledger, s.clock, s.log, s.issued)
    ensures Placed(Waiting(s), Busy(s), multiset(s.finished), s.submitted, s.ledger, s.log, s.issued)
  {
  }

  lemma HeadAndTail<T>(xs: seq<T>)
    requires xs != []
    ensures multiset(xs) == multiset{xs[0]} + multiset(xs[1..])
  {
    assert xs == [xs[0]] + xs[1..];
  }

  lemma Appended<T>(xs: seq<T>, x: T)
    ensures multiset(xs + [x]) == multiset(xs) + multiset{x}
  {
  }

  lemma TakeSubmittedKeeps(s: System)
    requires Inv(s) && Enabled(s, TakeSubmitted)
    ensures Inv(Do(s, TakeSubmitted))
  {
    hide Inv, Placed, Shared, Flatten, Queued, S.EnqueueReady, S.Valid;
    var t := Do(s, TakeSubmitted);
    SchedIsValid(s);
    EnqueueReadyJobs(s.sched, s.submitCh[0]);
    S.EnqueueReadyKeeps(s.sched, s.submitCh[0]);
    HeadAndTail(s.submitCh);
    assert Waiting(t) == Waiting(s);
    MoveKeeps(s, t);
  }

  lemma FirstRequeued(items: seq<S.Blocked>)
    requires items != []
    ensures multiset(S.JobsOf(items)) == multiset{items[0].job} + multiset(S.JobsOf(items[1..]))
  {
    assert S.JobsOf(items) == [items[0].job] + S.JobsOf(items[1..]);
  }

  lemma TakeRequeuedKeeps(s: System)
    requires Inv(s) && Enabled(s, TakeRequeued)
    ensures Inv(Do(s, TakeRequeued))
  {
    hide Inv, Placed, Shared, Flatten, Queued, S.EnqueueBlocked, S.Valid, S.JobsOf, WorkersWaiting, WorkersBusy;
    var t, item := Do(s, TakeRequeued), s.requeueCh[0];
    SchedIsValid(s);
    EnqueueBlockedJobs(s.sched, item.job, item.notBefore);
    S.EnqueueBlockedKeeps(s.sched, item.job, item.notBefore);
    FirstRequeued(s.requeueCh);
    assert Waiting(t) == Waiting(s);
    MoveKeeps(s, t);
  }

  lemma PromoteKeeps(s: System, now: int)
    requires Inv(s) && Enabled(s, Promote(now))
    ensures Inv(Do(s, Promote(now)))
  {
    hide Inv, Placed, Shared, Flatten, Queued, S.PromoteReady, S.Valid;
    var t := Do(s, Promote(now));
    SchedIsValid(s);
    PromoteJobs(s.sched, now);
    S.PromoteReadyKeeps(s.sched, now);
    MoveKeeps(s, t);
  }

  lemma DispatchKeeps(s: System)
    requires Inv(s) && Enabled(s, Dispatch)
    ensures Inv(Do(s, Dispatch))
  {
    hide Inv, Placed, Shared, Flatten, Queued, S.NextReady, S.Valid;
    var t := Do(s, Dispatch);
    NextReadyJobs(s.sched);
    S.NextReadyKeeps(s.sched);
    S.CursorBound(s.sched);
    Appended(s.workCh, S.NextReady(s.sched).1.value);
    assert Waiting(t) == Waiting(s);
    MoveKeeps(s, t);
  }

  lemma RequeueKeeps(s: System, w: nat)
    requires Inv(s) && Enabled(s, Requeue(w))
    ensures Inv(Do(s, Requeue(w)))
  {
    hide Inv, Placed, Shared, Waiting, Busy;
    var t := Do(s, Requeue(w));
    SchedIsValid(s);
    RequeueMoves(s, t, w);
    MoveKeeps(s, t);
  }

  lemma RequeueMoves(s: System, t: System, w: nat)
    requires w < |s.workers| && s.workers[w].Returning? && t.workers == s.workers[w := Idle]
    requires t.submitCh == s.submitCh && t.sched == s.sched && t.workCh == s.workCh
    requires t.requeueCh == s.requeueCh + [S.Blocked(s.workers[w].job, s.workers[w].notBefore)]
    ensures Waiting(t) == Waiting(s) && Busy(t) == Busy(s)
  {
    hide Flatten, Queued, WorkersWaiting, WorkersBusy, S.JobsOf;
    SetWorkerJobs(s.workers, w, Idle);
    RequeuedJobs(s.requeueCh, S.Blocked(s.workers[w].job, s.workers[w].notBefore));
    PassOn(multiset(s.submitCh) + Flatten(Queued(s.sched)) + multiset(s.workCh), Flatten(WorkersWaiting(s.workers)),
           multiset(S.JobsOf(s.requeueCh)), s.workers[w].job);
  }

  lemma RequeuedJobs(items: seq<S.Blocked>, item: S.Blocked)
    ensures multiset(S.JobsOf(items + [item])) == multiset(S.JobsOf(items)) + multiset{item.job}
  {
    JobsOfConcat(items, [item]);
    assert S.JobsOf([item]) == [item.job];
  }

  lemma PassOn(a: multiset<Job>, b: multiset<Job>, c: multiset<Job>, j: Job)
    requires multiset{j} <= b
    ensures a + (b - multiset{j} + multiset{}) + (c + multiset{j}) == a + b + c
  {
  }

  lemma ExecuteKeeps(s: System, w: nat, tokens: nat)
    requires Inv(s) && Enabled(s, Execute(w, tokens))
    ensures Inv(Do(s, Execute(w, tokens)))
  {
    hide Inv, Placed, Shared, Waiting, Busy, ActualsOf;
    var t := Do(s, Execute(w, tokens));
    var job := s.workers[w].job;
    SchedIsValid(s);
    FinishRunning(s.workers, w, Finishing(job, ActualsOf(job, tokens)));
    SameWorkerJobs(s, t);
    MoveKeeps(s, t);
  }

  lemma FinishRunning(ws: seq<Worker>, w: nat, worker: Worker)
    requires w < |ws| && ws[w].Running? && worker.Finishing? && worker.job == ws[w].job
    ensures Flatten(WorkersWaiting(ws[w := worker])) == Flatten(WorkersWaiting(ws))
    ensures Flatten(WorkersBusy(ws[w := worker])) == Flatten(WorkersBusy(ws))
  {
    hide Flatten, WorkersWaiting, WorkersBusy;
    SetWorkerJobs(ws, w, worker);
  }

  lemma SameWorkerJobs(s: System, t: System)
    requires t.submitCh == s.submitCh && t.sched == s.sched && t.workCh == s.workCh && t.requeueCh == s.requeueCh
    requires Flatten(WorkersWaiting(t.workers)) == Flatten(WorkersWaiting(s.workers))
    requires Flatten(WorkersBusy(t.workers)) == Flatten(WorkersBusy(s.workers))
    ensures Waiting(t) == Waiting(s) && Busy(t) == Busy(s)
  {
  }

  // ---- Steps that change jobs, leases or the backend ----

  lemma SubmitKeeps(s: System, job: Job)
    requires Inv(s) && Enabled(s, Submit(job))
    ensures Inv(Do(s, Submit(job)))
  {
    hide Placed, Flatten, Queued, Rel, LeasesOk, OnlyIssued, LogOk, S.JobsOf;
    var t := Do(s, Submit(job));
    Appended(s.submitCh, job);
    assert Waiting(t) == Waiting(s) + multiset{job};
    JobArrives(Waiting(s), Busy(s), multiset(s.finished), s.submitted, s.ledger, s.log, s.issued, t.issued, job);
    MoreIssued(s.log, s.ledger, s.issued, t.issued);
  }

  lemma TakeMovesJob(s: System, w: nat, newLease: string)
    requires Enabled(s, Take(w, newLease))
    ensures var t, job := Do(s, Take(w, newLease)), s.workCh[0];
            var named := if job.leaseID == "" then job.(leaseID := newLease) else job;
            && job in Waiting(s) && Waiting(t) == Waiting(s) - multiset{job} + multiset{named}
            && Busy(t) == Busy(s) && t.finished == s.finished
  {
    hide Flatten, Queued, WorkersWaiting, WorkersBusy, S.JobsOf;
    var t, job := Do(s, Take(w, newLease)), s.workCh[0];
    HeadAndTail(s.workCh);
    var named := if job.leaseID == "" then job.(leaseID := newLease) else job;
    HandOver(s.workers, w, Holding(named));
    var before, held, rest := multiset(s.submitCh) + Flatten(Queued(s.sched)), Flatten(WorkersWaiting(s.workers)),
        multiset(S.JobsOf(s.requeueCh));
    assert Waiting(s) == before + (multiset{job} + multiset(s.workCh[1..])) + held + rest;
    assert Waiting(t) == before + multiset(s.workCh[1..]) + (held + multiset{named}) + rest;
    TakenJobs(before, multiset(s.workCh[1..]), held, rest, job, named);
  }

  lemma HandOver(ws: seq<Worker>, w: nat, worker: Worker)
    requires w < |ws| && ws[w].Idle? && worker.Holding?
    ensures Flatten(WorkersWaiting(ws[w := worker])) == Flatten(WorkersWaiting(ws)) + multiset{worker.job}
    ensures Flatten(WorkersBusy(ws[w := worker])) == Flatten(WorkersBusy(ws))
  {
    hide Flatten, WorkersWaiting, WorkersBusy;
    SetWorkerJobs(ws, w, worker);
  }

  lemma TakeKeeps(s: System, w: nat, newLease: string)
    requires Inv(s) && Enabled(s, Take(w, newLease))
    ensures Inv(Do(s, Take(w, newLease)))
  {
    hide Inv, Placed, Waiting, Busy, Rel, LeasesOk, OnlyIssued, LogOk, S.Valid;
    var t, job := Do(s, Take(w, newLease)), s.workCh[0];
    SchedIsValid(s);
    TakeMovesJob(s, w, newLease);
    assert t.sched == s.sched && t.backend == s.backend && t.ledger == s.ledger && t.clock == s.clock && t.log == s.log;
    if job.leaseID == "" {
      JobRenamed(Waiting(s), Busy(s), multiset(s.finished), s.submitted, s.ledger, s.log, s.issued, job,
          job.(leaseID := newLease));
      MoreIssued(s.log, s.ledger, s.issued, t.issued);
      Assemble(t);
    } else {
      assert Waiting(s) - multiset{job} + multiset{job} == Waiting(s);
      MoveKeeps(s, t);
    }
  }

  lemma TakenJobs(a: multiset<Job>, b: multiset<Job>, c: multiset<Job>, d: multiset<Job>, j: Job, k: Job)
    ensures j in a + (multiset{j} + b) + c + d
    ensures a + b + (c + multiset{k}) + d == (a + (multiset{j} + b) + c + d) - multiset{j} + multiset{k}
  {
  }

  lemma Assemble(t: System)
    requires S.Valid(t.sched) && Shared(t.backend, t.ledger, t.clock, t.log, t.issued)
    requires Placed(Waiting(t), Busy(t), multiset(t.finished), t.submitted, t.ledger, t.log, t.issued)
    ensures Inv(t)
  {
  }

  /** A ledger step leaves the standing of every other lease as it was. */
  lemma StandingCarries(l: G.Ledger, clock: int, step: Step, log: seq<Event>, issued: set<string>, j: Job)
    requires LedgerLegal(l, clock, step) && LeaseStanding(l, log, issued, j)
    requires j.leaseID == "" || j.leaseID != LeaseOf(step)
    ensures LeaseStanding(LedgerNext(l, step), log, issued, j)
  {
    hide NeverGranted, LedgerNext, LedgerLegal, RequestOf;
    if j.leaseID != "" {
      OthersUntouched(l, clock, step, j.leaseID);
    }
  }

  lemma LedgerMoves(w: multiset<Job>, b: multiset<Job>, f: multiset<Job>, submitted: nat, l: G.Ledger, clock: int,
          step: Step, log: seq<Event>, issued: set<string>)
    requires Placed(w, b, f, submitted, l, log, issued) && LedgerLegal(l, clock, step) && LeaseOf(step) == ""
    ensures Placed(w, b, f, submitted, LedgerNext(l, step), log, issued)
  {
    hide LeaseStanding, Identified, Separate, LedgerNext, LedgerLegal;
    forall j | j in w || j in b || j in f
      ensures LeaseStanding(LedgerNext(l, step), log, issued, j)
    {
      StandingCarries(l, clock, step, log, issued, j);
    }
  }

  /** The jobs are read off five fields. */
  lemma SameJobs(s: System, t: System)
    requires t.submitCh == s.submitCh && t.sched == s.sched && t.workCh == s.workCh && t.workers == s.workers
    requires t.requeueCh == s.requeueCh
    ensures Waiting(t) == Waiting(s) && Busy(t) == Busy(s)
  {
  }

  lemma AdminKeeps(s: System, step: Step)
    requires Inv(s) && Enabled(s, Admin(step))
    ensures Inv(Do(s, Admin(step)))
  {
    hide Placed, Waiting, Busy, Rel, LeasesOk, OnlyIssued, LogOk, S.Valid, LedgerLegal, Next, LedgerNext;
    var t := Do(s, Admin(step));
    LedgerStepKeeps(s.backend, s.ledger, s.clock, step, s.issued);
    SameJobs(s, t);
    LedgerMoves(Waiting(s), Busy(s), multiset(s.finished), s.submitted, s.ledger, s.clock, step, s.log, s.issued);
  }

  lemma WorkerHasJob(s: System, w: nat)
    requires w < |s.workers|
    ensures s.workers[w].Holding? || s.workers[w].Returning? ==> s.workers[w].job in Waiting(s)
    ensures s.workers[w].Running? || s.workers[w].Finishing? ==> s.workers[w].job in Busy(s)
  {
    hide Flatten, Queued;
    SetWorkerJobs(s.workers, w, Idle);
  }

  lemma RequestIsDistinct(job: Job)
    ensures DistinctKeys(RequestOf(job).requirements) && RequestOf(job).requirements != []
    ensures RequestOf(job).leaseID == job.leaseID
    ensures Requirements.ConcurrencyKey(job.provider, job.model) in L.IndexByKey(RequestOf(job).requirements)
  {
    hide L.IndexByKey;
    Requirements.BuildIsDistinct(job.tenantID, job.provider, job.model, job.promptBytes, job.maxOutputTokens,
        job.wantDailyBudget);
    IndexByKeyFinds(RequestOf(job).requirements, 2);
  }

  lemma NotStartedNotCompleted(log: seq<Event>, issued: set<string>, x: string)
    requires LogOk(log, issued) && Started(x) !in log
    ensures Completed(x) !in log
  {
    assert Before(log, Started(x), Completed(x));
  }

  lemma UnissuedNeverGranted(l: G.Ledger, issued: set<string>, x: string)
    requires OnlyIssued(l, issued) && x !in issued
    ensures NeverGranted(l, x) && x !in l.leases
  {
  }

  /** The lease a waiting job asks for is open with its requirements, or was never granted; so its
      request is a legal step. */
  lemma RequestIsLegal(s: System, w: nat, now: int)
    requires Inv(s) && w < |s.workers| && s.workers[w].Holding? && s.clock <= now
    ensures var j := s.workers[w].job;
            && LedgerLegal(s.ledger, s.clock, Reserving(RequestOf(j), now))
            && j in Waiting(s) && (j.leaseID == "" || j.leaseID in s.issued)
            && (j.leaseID != "" ==>
                  && (j.leaseID in s.ledger.leases <==> Granted(j.leaseID) in s.log)
                  && (j.leaseID in s.ledger.leases ==>
                      s.ledger.leases[j.leaseID].requirements == RequestOf(j).requirements))
  {
    hide Rel, Waiting, Busy, LeasesOk, OnlyIssued, Identified, Separate, S.Valid, NeverGranted, RequestOf;
    var j := s.workers[w].job;
    WorkerHasJob(s, w);
    RequestIsDistinct(j);
    NotStartedNotCompleted(s.log, s.issued, j.leaseID);
    if j.leaseID == "" {
      UnissuedNeverGranted(s.ledger, s.issued, "");
    }
  }

  /** Granting a waiting job's lease. */
  lemma JobGranted(w: multiset<Job>, b: multiset<Job>, f: multiset<Job>, submitted: nat, l: G.Ledger, clock: int,
          now: int, log: seq<Event>, issued: set<string>, j: Job)
    requires Placed(w, b, f, submitted, l, log, issued) && j in w && j.leaseID != "" && j.leaseID !in l.leases
    requires LedgerLegal(l, clock, Reserving(RequestOf(j), now)) && G.Reserve(l, RequestOf(j), now).1.allowed
    ensures Placed(w, b, f, submitted, G.Reserve(l, RequestOf(j), now).0, log + [Granted(j.leaseID)], issued)
  {
    hide Identified, Separate, G.Reserve, G.Commit, NeverGranted, LedgerLegal;
    var r := G.Reserve(l, RequestOf(j), now).0;
    ReserveOutcome(l, RequestOf(j), now);
    CommitKeepsDefinitions(l, RequestOf(j), now);
    forall i | i in w || i in b || i in f
      ensures LeaseStanding(r, log + [Granted(j.leaseID)], issued, i)
    {
      if i != j {
        Apart(w, b, f, i, j);
        StandingCarries(l, clock, Reserving(RequestOf(j), now), log, issued, i);
      }
    }
  }

  lemma Apart(w: multiset<Job>, b: multiset<Job>, f: multiset<Job>, i: Job, j: Job)
    requires Separate(w + b + f) && (i in w || i in b || i in f) && (j in w || j in b || j in f) && i != j
    ensures i.leaseID == "" || i.leaseID != j.leaseID
  {
    assert i in w + b + f && j in w + b + f;
  }

  lemma OncePlaced(w: multiset<Job>, b: multiset<Job>, f: multiset<Job>, submitted: nat, j: Job)
    requires Identified(w + b + f, submitted)
    ensures w[j] + b[j] + f[j] <= 1
  {
    assert (w + b + f)[j] == w[j] + b[j] + f[j];
  }

  /** A granted waiting job is started: it moves into a worker's hands. */
  lemma JobStarted(w: multiset<Job>, b: multiset<Job>, f: multiset<Job>, submitted: nat, l: G.Ledger, log: seq<Event>,
          issued: set<string>, j: Job)
    requires Placed(w, b, f, submitted, l, log, issued) && LogOk(log, issued)
    requires j in w && j.leaseID != "" && Granted(j.leaseID) in log
    ensures Placed(w - multiset{j}, b + multiset{j}, f, submitted, l, log + [Started(j.leaseID)], issued)
  {
    hide Identified, Separate, NeverGranted, LogOk, RequestOf;
    OncePlaced(w, b, f, submitted, j);
    NotStartedNotCompleted(log, issued, j.leaseID);
    assert (w - multiset{j}) + (b + multiset{j}) + f == w + b + f;
    forall i | i in w || i in b || i in f
      ensures i != j ==> i.leaseID == "" || i.leaseID != j.leaseID
    {
      if i != j {
        Apart(w, b, f, i, j);
      }
    }
  }

  /** A started job is completed: it is finished, whatever becomes of its lease. */
  lemma JobFinished(w: multiset<Job>, b: multiset<Job>, f: multiset<Job>, submitted: nat, l: G.Ledger, m: G.Ledger,
          log: seq<Event>, issued: set<string>, j: Job)
    requires Placed(w, b, f, submitted, l, log, issued) && j in b
    requires forall i :: (i in w || i in b || i in f) && i != j ==> LeaseStanding(m, log, issued, i)
    ensures Placed(w, b - multiset{j}, f + multiset{j}, submitted, m, log + [Completed(j.leaseID)], issued)
  {
    hide Identified, Separate, NeverGranted, RequestOf;
    OncePlaced(w, b, f, submitted, j);
    assert w + (b - multiset{j}) + (f + multiset{j}) == w + b + f;
    forall i | i in w || i in b || i in f
      ensures i != j ==> i.leaseID == "" || i.leaseID != j.leaseID
    {
      if i != j {
        Apart(w, b, f, i, j);
      }
    }
  }

  lemma WorkerMoves(s: System, t: System, w: nat)
    requires w < |s.workers| == |t.workers| && t.workers == s.workers[w := t.workers[w]]
    requires t.submitCh == s.submitCh && t.sched == s.sched && t.workCh == s.workCh && t.requeueCh == s.requeueCh
    ensures Waiting(t) == Waiting(s) - WaitingJob(s.workers[w]) + WaitingJob(t.workers[w])
    ensures Busy(t) == Busy(s) - BusyJob(s.workers[w]) + BusyJob(t.workers[w])
  {
    hide Flatten, Queued, WorkersWaiting, WorkersBusy, S.JobsOf, WaitingJob, BusyJob;
    SetWorkerJobs(s.workers, w, t.workers[w]);
    Inside(multiset(s.submitCh) + Flatten(Queued(s.sched)) + multiset(s.workCh), Flatten(WorkersWaiting(s.workers)),
           multiset(S.JobsOf(s.requeueCh)), WaitingJob(s.workers[w]), WaitingJob(t.workers[w]));
  }

  lemma Inside(a: multiset<Job>, b: multiset<Job>, c: multiset<Job>, x: multiset<Job>, y: multiset<Job>)
    requires x <= b
    ensures a + (b - x + y) + c == (a + b + c) - x + y
  {
  }

  lemma PutBack(a: multiset<Job>, x: multiset<Job>)
    requires x <= a
    ensures a - x + x == a && a - multiset{} + multiset{} == a
  {
  }

  /** The reply the worker sees is the ledger's, and a denial or a replay leaves the ledger alone. */
  lemma ReplyOf(s: System, w: nat, now: int)
    requires Inv(s) && w < |s.workers| && s.workers[w].Holding? && s.clock <= now
    ensures var j := s.workers[w].job;
            var reply, r := L.Reserve(s.backend, RequestOf(j), now).1, G.Reserve(s.ledger, RequestOf(j), now);
            && reply == r.1 && s.backend.leases == s.ledger.leases
            && (reply.allowed ==> j.leaseID != "")
            && (!(reply.allowed && j.leaseID !in s.ledger.leases) ==> r.0 == s.ledger)
  {
    hide Placed, Waiting, LeasesOk, OnlyIssued, LogOk, S.Valid, L.Reserve, G.Commit, G.MaxRetry, L.RequirementsEqual,
        RequestOf, RollRel, ConcRel, WithinLimits;
    var j := s.workers[w].job;
    RequestIsLegal(s, w, now);
    RequestIsDistinct(j);
    StepRefines(s.backend, s.ledger, s.clock, Reserving(RequestOf(j), now));
    ReserveOutcome(s.ledger, RequestOf(j), now);
  }

  lemma GrantLogs(log: seq<Event>, issued: set<string>, x: string)
    requires LogOk(log, issued) && x in issued && Granted(x) !in log
    ensures LogOk(log + [Granted(x)], issued)
  {
    hide LogOk;
    AppendEvent(log, Granted(x), issued);
  }

  /** After the backend has had a waiting job's request, whether or not the worker learns of it. */
  lemma RequestKeeps(s: System, w: nat, now: int)
    requires Inv(s) && w < |s.workers| && s.workers[w].Holding? && s.clock <= now
    ensures var j := s.workers[w].job;
            var step := Reserving(RequestOf(j), now);
            var grants := L.Reserve(s.backend, RequestOf(j), now).1.allowed && j.leaseID !in s.backend.leases;
            var log := if grants then s.log + [Granted(j.leaseID)] else s.log;
            && Shared(Next(s.backend, step), LedgerNext(s.ledger, step), now, log, s.issued)
            && Placed(Waiting(s), Busy(s), multiset(s.finished), s.submitted, LedgerNext(s.ledger, step), log, s.issued)
            && (L.Reserve(s.backend, RequestOf(j), now).1.allowed ==>
                Granted(j.leaseID) in log && j.leaseID in s.issued)
  {
    hide Placed, Waiting, Busy, LeasesOk, OnlyIssued, LogOk, S.Valid, L.Reserve, G.Reserve, RequestOf, Rel, LedgerLegal;
    var j := s.workers[w].job;
    SchedIsValid(s);
    RequestIsLegal(s, w, now);
    RequestIsDistinct(j);
    ReplyOf(s, w, now);
    var step := Reserving(RequestOf(j), now);
    if j.leaseID == "" {
      UnnamedKeeps(s, step, j);
    } else {
      LedgerStepKeeps(s.backend, s.ledger, s.clock, step, s.issued);
      if G.Reserve(s.ledger, RequestOf(j), now).1.allowed && j.leaseID !in s.ledger.leases {
        JobGranted(Waiting(s), Busy(s), multiset(s.finished), s.submitted, s.ledger, s.clock, now, s.log, s.issued, j);
        GrantLogs(s.log, s.issued, j.leaseID);
      }
    }
  }

  lemma UnnamedKeeps(s: System, step: Step, j: Job)
    requires Inv(s) && step.Reserving? && step.req == RequestOf(j) && j.leaseID == "" && s.clock <= step.now
    requires LedgerLegal(s.ledger, s.clock, step)
    ensures LedgerNext(s.ledger, step) == s.ledger
    ensures Shared(Next(s.backend, step), s.ledger, step.now, s.log, s.issued)
  {
    hide Placed, LeasesOk, OnlyIssued, LogOk, S.Valid, RequestOf, Rel, LedgerLegal, L.Reserve, G.Reserve;
    StepRefines(s.backend, s.ledger, s.clock, step);
    RequestIsDistinct(j);
    ReserveOutcome(s.ledger, step.req, step.now);
  }

  lemma LostKeeps(s: System, w: nat, now: int, delivery: Delivery, wait: nat, newLease: string)
    requires w < |s.workers| && s.workers[w].Holding? && s.clock <= now && delivery != Delivered && Inv(s)
    ensures Inv(ReserveStep(s, w, now, delivery, wait, newLease))
  {
    hide Inv, Placed, Waiting, Busy, Shared, S.Valid, L.Reserve, G.Reserve, RequestOf, Next, LedgerNext;
    var t := ReserveStep(s, w, now, delivery, wait, newLease);
    SchedIsValid(s);
    ReturnedJobs(s, t, w);
    if delivery == LostRequest {
      MoveKeeps(s, t);
    } else {
      RequestKeeps(s, w, now);
      Assemble(t);
    }
  }

  lemma ReturnedJobs(s: System, t: System, w: nat)
    requires w < |s.workers| == |t.workers| && t.workers == s.workers[w := t.workers[w]]
    requires s.workers[w].Holding? && t.workers[w].Returning? && t.workers[w].job == s.workers[w].job
    requires t.submitCh == s.submitCh && t.sched == s.sched && t.workCh == s.workCh && t.requeueCh == s.requeueCh
    ensures Waiting(t) == Waiting(s) && Busy(t) == Busy(s)
  {
    hide Waiting, Busy;
    WorkerMoves(s, t, w);
    WorkerHasJob(s, w);
    PutBack(Waiting(s), multiset{s.workers[w].job});
    PutBack(Busy(s), multiset{});
  }

  lemma DeliveredKeeps(s: System, w: nat, now: int, wait: nat, newLease: string)
    requires w < |s.workers| && s.workers[w].Holding? && s.clock <= now && Fresh(s, newLease) && Inv(s)
    ensures Inv(ReserveStep(s, w, now, Delivered, wait, newLease))
  {
    hide Inv, Placed, Waiting, Busy, Shared, S.Valid, L.Reserve, G.Reserve, RequestOf, Next, LedgerNext;
    var t := ReserveStep(s, w, now, Delivered, wait, newLease);
    var j := s.workers[w].job;
    WorkerMoves(s, t, w);
    if L.Reserve(s.backend, RequestOf(j), now).1.allowed {
      StartKeeps(s, t, w, now);
    } else {
      SchedIsValid(s);
      WorkerHasJob(s, w);
      RequestKeeps(s, w, now);
      RenameAfterDenial(s, t, j, newLease, now);
    }
  }

  lemma ReserveKeepsInv(s: System, w: nat, now: int, delivery: Delivery, wait: nat, newLease: string)
    requires Inv(s) && Enabled(s, Reserve(w, now, delivery, wait, newLease))
    ensures Inv(Do(s, Reserve(w, now, delivery, wait, newLease)))
  {
    hide Inv, ReserveStep;
    if delivery == Delivered {
      DeliveredKeeps(s, w, now, wait, newLease);
    } else {
      LostKeeps(s, w, now, delivery, wait, newLease);
    }
  }

  lemma StartKeeps(s: System, t: System, w: nat, now: int)
    requires Inv(s) && w < |s.workers| && s.workers[w].Holding? && s.clock <= now
    requires L.Reserve(s.backend, RequestOf(s.workers[w].job), now).1.allowed
    requires t == ReserveStep(s, w, now, Delivered, 0, "")
    requires Waiting(t) == Waiting(s) - multiset{s.workers[w].job} + multiset{}
    requires Busy(t) == Busy(s) - multiset{} + multiset{s.workers[w].job}
    ensures Inv(t)
  {
    hide Inv, Placed, Waiting, Busy, S.Valid, L.Reserve, G.Reserve, RequestOf, Next, LedgerNext, Rel, LeasesOk,
        OnlyIssued, LogOk;
    var j := s.workers[w].job;
    SchedIsValid(s);
    RequestKeeps(s, w, now);
    ReplyOf(s, w, now);
    WorkerHasJob(s, w);
    var grants := L.Reserve(s.backend, RequestOf(j), now).1.allowed && j.leaseID !in s.backend.leases;
    var log := if grants then s.log + [Granted(j.leaseID)] else s.log;
    var step := Reserving(RequestOf(j), now);
    assert Busy(s) - multiset{} + multiset{j} == Busy(s) + multiset{j};
    assert Waiting(s) - multiset{j} + multiset{} == Waiting(s) - multiset{j};
    JobStarted(Waiting(s), Busy(s), multiset(s.finished), s.submitted, LedgerNext(s.ledger, step), log, s.issued, j);
    NotYetStarted(s, w, log);
    AppendEvent(log, Started(j.leaseID), s.issued);
    Assemble(t);
  }

  lemma NotYetStarted(s: System, w: nat, log: seq<Event>)
    requires Inv(s) && w < |s.workers| && s.workers[w].Holding?
    requires log == s.log || log == s.log + [Granted(s.workers[w].job.leaseID)]
    ensures Started(s.workers[w].job.leaseID) !in log
  {
    hide Waiting, Busy, Shared, S.Valid, Identified, Separate, LeaseStanding;
    WorkerHasJob(s, w);
  }

  lemma RenameAfterDenial(s: System, t: System, j: Job, newLease: string, now: int)
    requires Inv(s) && Fresh(s, newLease) && j in Waiting(s)
    requires Shared(t.backend, t.ledger, t.clock, s.log, s.issued) && t.log == s.log
    requires Placed(Waiting(s), Busy(s), multiset(s.finished), s.submitted, t.ledger, s.log, s.issued)
    requires t.sched == s.sched && t.finished == s.finished && t.submitted == s.submitted
    requires t.issued == s.issued + {newLease}
    requires Waiting(t) == Waiting(s) - multiset{j} + multiset{j.(leaseID := newLease)}
    requires Busy(t) == Busy(s) - multiset{} + multiset{}
    ensures Inv(t)
  {
    hide Inv, Placed, Waiting, Busy, S.Valid, Rel, LeasesOk, OnlyIssued, LogOk;
    SchedIsValid(s);
    PutBack(Busy(s), multiset{});
    JobRenamed(Waiting(s), Busy(s), multiset(s.finished), s.submitted, t.ledger, s.log, s.issued, j,
        j.(leaseID := newLease));
    MoreIssued(s.log, t.ledger, s.issued, t.issued);
    Assemble(t);
  }

  // ---- Complete ----

  lemma CompleteKeepsInv(s: System, w: nat, delivered: bool)
    requires Inv(s) && Enabled(s, Complete(w, delivered))
    ensures Inv(Do(s, Complete(w, delivered)))
  {
    hide Inv, Placed, Waiting, Busy, S.Valid, Next, LedgerNext, Rel, LeasesOk, OnlyIssued, LogOk;
    var t := Do(s, Complete(w, delivered));
    var j := s.workers[w].job;
    SchedIsValid(s);
    JobIsFinished(s, t, w);
    var step := Step.Completing(CompleteRequest(j.leaseID, j.jobID, s.workers[w].actuals));
    if delivered {
      LedgerStepKeeps(s.backend, s.ledger, s.clock, step, s.issued);
    }
    OthersStand(s, t.ledger, step, j);
    JobFinished(Waiting(s), Busy(s), multiset(s.finished), s.submitted, s.ledger, t.ledger, s.log, s.issued, j);
    CompletedLogs(s, j);
    hide Do, Enabled;
    Assemble(t);
  }

  lemma JobIsFinished(s: System, t: System, w: nat)
    requires w < |s.workers| && s.workers[w].Finishing? && t.workers == s.workers[w := Idle]
    requires t.submitCh == s.submitCh && t.sched == s.sched && t.workCh == s.workCh && t.requeueCh == s.requeueCh
    requires t.finished == s.finished + [s.workers[w].job]
    ensures var j := s.workers[w].job;
            && j in Busy(s) && Waiting(t) == Waiting(s) && Busy(t) == Busy(s) - multiset{j}
            && multiset(t.finished) == multiset(s.finished) + multiset{j}
  {
    hide Waiting, Busy;
    WorkerMoves(s, t, w);
    WorkerHasJob(s, w);
    PutBack(Waiting(s), multiset{});
    Appended(s.finished, s.workers[w].job);
  }

  lemma OthersStand(s: System, m: G.Ledger, step: Step, j: Job)
    requires Inv(s) && step.Completing? && step.done.leaseID == j.leaseID && j in Busy(s)
    requires m == s.ledger || m == LedgerNext(s.ledger, step)
    ensures forall i :: (i in Waiting(s) || i in Busy(s) || i in s.finished) && i != j ==>
            LeaseStanding(m, s.log, s.issued, i)
  {
    hide Waiting, Busy, Shared, S.Valid, LedgerNext, Identified, Separate, LeaseStanding;
    forall i | (i in Waiting(s) || i in Busy(s) || i in multiset(s.finished)) && i != j
      ensures LeaseStanding(m, s.log, s.issued, i)
    {
      Apart(Waiting(s), Busy(s), multiset(s.finished), i, j);
      StandingCarries(s.ledger, s.clock, step, s.log, s.issued, i);
    }
  }

  lemma CompletedLogs(s: System, j: Job)
    requires Inv(s) && j in Busy(s)
    ensures LogOk(s.log + [Completed(j.leaseID)], s.issued)
  {
    hide Waiting, Busy, Rel, LeasesOk, OnlyIssued, S.Valid, Identified, Separate, LogOk;
    AppendEvent(s.log, Completed(j.leaseID), s.issued);
  }

  // ---- Runs ----

  lemma DoKeeps(s: System, a: Action)
    requires Inv(s) && Enabled(s, a)
    ensures Inv(Do(s, a))
  {
    hide Inv, Do, Enabled;
    match a
    case Submit(job) => SubmitKeeps(s, job);
    case TakeSubmitted => TakeSubmittedKeeps(s);
    case TakeRequeued => TakeRequeuedKeeps(s);
    case Promote(now) => PromoteKeeps(s, now);
    case Dispatch => DispatchKeeps(s);
    case Take(w, newLease) => TakeKeeps(s, w, newLease);
    case Reserve(w, now, delivery, wait, newLease) => ReserveKeepsInv(s, w, now, delivery, wait, newLease);
    case Execute(w, tokens) => ExecuteKeeps(s, w, tokens);
    case Complete(w, delivered) => CompleteKeepsInv(s, w, delivered);
    case Requeue(w) => RequeueKeeps(s, w);
    case Admin(step) => AdminKeeps(s, step);
  }

  /** The states some interleaving reaches: each is the first, or one enabled step from another. */
  ghost predicate IsRun(states: seq<System>, actions: seq<Action>) {
    && |states| == |actions| + 1 && Init(states[0])
    && forall i :: 0 <= i < |actions| ==> Enabled(states[i], actions[i]) && states[i + 1] == Do(states[i], actions[i])
  }

  lemma {:induction false} RunHolds(states: seq<System>, actions: seq<Action>, n: nat)
    requires IsRun(states, actions) && n < |states|
    ensures Inv(states[n])
  {
    hide Inv, Do, Enabled, Init;
    if n == 0 {
      InitHolds(states[0]);
    } else {
      RunHolds(states, actions, n - 1);
      DoKeeps(states[n - 1], actions[n - 1]);
    }
  }

  // ---- Concurrency ----

  /** The line a lease was granted in a concurrency limit, still to expire. */
  ghost predicate UnexpiredLine(l: G.Ledger, key: string, lease: string, now: int) {
    && key in l.holds
    && exists i :: 0 <= i < |l.holds[key]| && l.holds[key][i].lease == lease && l.holds[key][i].expiresAt > now
  }

  /** The jobs of one concurrency limit that are inside Execute, or not yet reported complete, and
      whose hold has not expired. */
  ghost function InsideExecute(s: System, key: string): set<Job> {
    set j | j in Busy(s) && Requirements.ConcurrencyKey(j.provider, j.model) == key &&
        UnexpiredLine(s.ledger, key, j.leaseID, s.clock)
  }

  lemma BusyIsHeld(s: System, key: string, j: Job)
    requires Inv(s) && j in InsideExecute(s, key)
    ensures key in s.ledger.holds && j.leaseID in HeldLeases(s.ledger.holds[key], |s.ledger.holds[key]|, s.clock)
  {
    hide Waiting, Busy, S.Valid, RequestOf, Identified, Separate, LogOk, OnlyIssued, NeverGranted, WithinLimits,
        RollRel;
    RequestIsDistinct(j);
    var l, hs := s.ledger, s.ledger.holds[key];
    assert j.leaseID in l.leases && Unreleased(hs, j.leaseID);
    var i :| 0 <= i < |hs| && hs[i].lease == j.leaseID && hs[i].expiresAt > s.clock;
    var k :| 0 <= k < |hs| && hs[k].lease == j.leaseID && !hs[k].released;
    assert ConcRel(s.backend.conc[key], hs, s.clock);
    assert i == k;
    assert G.Held(hs[i], s.clock);
  }

  lemma {:induction false} JobsCountedByLease(jobs: set<Job>, leases: set<string>)
    requires forall j :: j in jobs ==> j.leaseID in leases
    requires forall j, k :: j in jobs && k in jobs && j.leaseID == k.leaseID ==> j == k
    ensures |jobs| <= |leases|
  {
    if jobs != {} {
      var j :| j in jobs;
      JobsCountedByLease(jobs - {j}, leases - {j.leaseID});
    }
  }

  lemma BusyLeasesDiffer(s: System, j: Job, k: Job)
    requires Inv(s) && j in Busy(s) && k in Busy(s) && j.leaseID == k.leaseID
    ensures j == k
  {
    hide Waiting, Busy, Shared, S.Valid, LeaseStanding, Identified;
    assert j in Waiting(s) + Busy(s) + multiset(s.finished) && k in Waiting(s) + Busy(s) + multiset(s.finished);
  }

  lemma HeldWithinCapacity(b: L.Backend, l: G.Ledger, clock: int, key: string)
    requires Rel(b, l, clock) && key in l.holds
    ensures key in b.defs && G.HeldCount(l.holds[key], clock) <= b.defs[key].capacity
  {
    hide RollRel, L.StatesMatch, RollFits, ConcRel;
    assert ConcWithin(b, key);
    ConcRelPurge(b.conc[key], l.holds[key], clock, clock);
    ConcurrencyPurgeKeeps(b.conc[key], clock);
  }

  /** However the workers interleave, whatever replies are lost and whatever limits are redefined, the
      jobs of one provider and model inside Execute with an unexpired hold never outnumber the
      capacity of their concurrency limit. */
  lemma ConcurrencyIsBounded(states: seq<System>, actions: seq<Action>, n: nat, provider: string, model: string)
    requires IsRun(states, actions) && n < |states|
    ensures var s, key := states[n], Requirements.ConcurrencyKey(provider, model);
            InsideExecute(s, key) != {} ==>
                key in s.backend.defs && |InsideExecute(s, key)| <= s.backend.defs[key].capacity
  {
    hide Inv, IsRun, Busy;
    RunHolds(states, actions, n);
    var s, key := states[n], Requirements.ConcurrencyKey(provider, model);
    var inside := InsideExecute(s, key);
    if inside != {} {
      var j :| j in inside;
      BusyIsHeld(s, key, j);
      forall j | j in inside
        ensures j.leaseID in HeldLeases(s.ledger.holds[key], |s.ledger.holds[key]|, s.clock)
      {
        BusyIsHeld(s, key, j);
      }
      forall j, k | j in inside && k in inside && j.leaseID == k.leaseID
        ensures j == k
      {
        BusyLeasesDiffer(s, j, k);
      }
      RelOf(s);
      JobsCountedByLease(inside, HeldLeases(s.ledger.holds[key], |s.ledger.holds[key]|, s.clock));
      LinesCount(s.backend, s.ledger, s.clock, key);
      HeldWithinCapacity(s.backend, s.ledger, s.clock, key);
    }
  }

  lemma LinesCount(b: L.Backend, l: G.Ledger, clock: int, key: string)
    requires Rel(b, l, clock) && key in l.holds
    ensures |HeldLeases(l.holds[key], |l.holds[key]|, clock)| == G.HeldCount(l.holds[key], clock)
  {
    hide WithinLimits, RollRel;
    assert ConcRel(b.conc[key], l.holds[key], clock);
    HeldLeasesCount(l.holds[key], |l.holds[key]|, clock);
  }

  lemma RelOf(s: System)
    requires Inv(s)
    ensures Rel(s.backend, s.ledger, s.clock)
  {
  }

  // ---- Rolling limits ----

  lemma LiveWithinCapacity(b: L.Backend, l: G.Ledger, clock: int, key: string)
    requires Rel(b, l, clock) && key in l.grants
    ensures key in b.defs && G.Live(l.grants[key], clock) <= b.defs[key].capacity
  {
    hide ConcRel, L.StatesMatch, ConcFits, RollRel;
    assert RollWithin(b, key);
    RollRelPurge(b.roll[key], l.grants[key], clock, clock);
    R.PurgeWellFormed(b.roll[key], clock);
  }

  /** However the workers interleave, whatever replies are lost and whatever limits are redefined, what
      was granted to the jobs of a rolling limit and is not yet out of its window fits the capacity. */
  lemma RollingIsBounded(states: seq<System>, actions: seq<Action>, n: nat, key: string)
    requires IsRun(states, actions) && n < |states| && key in states[n].ledger.grants
    ensures var s := states[n];
            key in s.backend.defs && G.Live(s.ledger.grants[key], s.clock) <= s.backend.defs[key].capacity
  {
    hide Inv, IsRun;
    RunHolds(states, actions, n);
    RelOf(states[n]);
    LiveWithinCapacity(states[n].backend, states[n].ledger, states[n].clock, key);
  }

  // ---- Every job in one place, every lease once ----

  /** In every reachable state each submitted job is in exactly one place, the blocked lists are
      sorted, and every lease has been granted, started and completed at most once and in that order;
      a finished job's lease has had all three.  No lease reserves or holds twice on one limit. */
  lemma JobsAndLeasesOnce(states: seq<System>, actions: seq<Action>, n: nat)
    requires IsRun(states, actions) && n < |states|
    ensures var s := states[n];
            && Identified(AllJobs(s), s.submitted)
            && (forall k :: k in s.sched.queues ==> S.Sorted(s.sched.queues[k].blocked))
            && (forall i, j :: 0 <= i < j < |s.log| ==> s.log[i] != s.log[j])
            && (forall x :: Before(s.log, Granted(x), Started(x)) && Before(s.log, Started(x), Completed(x)))
            && (forall j :: j in s.finished ==>
                Granted(j.leaseID) in s.log && Started(j.leaseID) in s.log && Completed(j.leaseID) in s.log)
            && (forall j :: j in Waiting(s) ==> Started(j.leaseID) !in s.log)
            && (forall k :: k in s.ledger.grants ==> OneGrantEach(s.ledger.grants[k]))
            && (forall k :: k in s.ledger.holds ==> OneHoldEach(s.ledger.holds[k]))
  {
    hide Inv, IsRun, Waiting, Busy, Identified;
    RunHolds(states, actions, n);
    LogOf(states[n]);
    LinesOf(states[n]);
    FinishedWasStarted(states[n]);
  }

  ghost predicate OneGrantEach(gs: seq<G.Grant>) {
    forall i, j :: 0 <= i < j < |gs| ==> gs[i].lease != gs[j].lease
  }

  ghost predicate OneHoldEach(hs: seq<G.Hold>) {
    forall i, j :: 0 <= i < j < |hs| ==> hs[i].lease != hs[j].lease
  }

  lemma LinesOf(s: System)
    requires Inv(s)
    ensures forall k :: k in s.ledger.grants ==> OneGrantEach(s.ledger.grants[k])
    ensures forall k :: k in s.ledger.holds ==> OneHoldEach(s.ledger.holds[k])
  {
    hide WithinLimits, Placed, LeasesOk, OnlyIssued, LogOk;
    RelOf(s);
    forall k | k in s.ledger.grants
      ensures OneGrantEach(s.ledger.grants[k])
    {
      assert RollRel(s.backend.roll[k], s.ledger.grants[k], s.clock);
    }
    forall k | k in s.ledger.holds
      ensures OneHoldEach(s.ledger.holds[k])
    {
      assert ConcRel(s.backend.conc[k], s.ledger.holds[k], s.clock);
    }
  }

  lemma LogOf(s: System)
    requires Inv(s)
    ensures S.Valid(s.sched) && LogOk(s.log, s.issued) && Identified(AllJobs(s), s.submitted)
    ensures forall j :: j in Waiting(s) ==> Started(j.leaseID) !in s.log
  {
    hide Waiting, Busy, Identified;
  }

  lemma FinishedWasStarted(s: System)
    requires Inv(s)
    ensures forall j :: j in s.finished ==>
            Granted(j.leaseID) in s.log && Started(j.leaseID) in s.log && Completed(j.leaseID) in s.log
  {
    hide Waiting, Busy, Rel, LeasesOk, OnlyIssued, Identified, Separate, S.Valid, LeaseStanding;
    forall j | j in s.finished
      ensures Granted(j.leaseID) in s.log && Started(j.leaseID) in s.log && Completed(j.leaseID) in s.log
    {
      var x := j.leaseID;
      assert j in multiset(s.finished);
      assert Before(s.log, Granted(x), Started(x)) && Before(s.log, Started(x), Completed(x));
    }
  }

  /** However often a granted lease's reply is lost, the worker's next request for it is allowed, adds
      nothing to the ledger, and is the one that starts it. */
  lemma LostReplyIsRecovered(s: System, w: nat, now: int)
    requires Inv(s) && w < |s.workers| && s.workers[w].Holding? && s.clock <= now
    requires Granted(s.workers[w].job.leaseID) in s.log
    ensures var req := RequestOf(s.workers[w].job);
            && L.Reserve(s.backend, req, now).1.allowed
            && LedgerNext(s.ledger, Reserving(req, now)) == s.ledger
            && ReserveStep(s, w, now, Delivered, 0, "").log == s.log + [Started(s.workers[w].job.leaseID)]
  {
    hide Placed, Waiting, Busy, LeasesOk, OnlyIssued, S.Valid, L.Reserve, G.Reserve, RequestOf, Rel, Next, Before;
    var j := s.workers[w].job;
    GrantedIsNamed(s.log, s.issued, j.leaseID);
    RequestIsLegal(s, w, now);
    RequestIsDistinct(j);
    ReplyOf(s, w, now);
    RetryIsAllowed(s.ledger, RequestOf(j), now);
  }

  lemma GrantedIsNamed(log: seq<Event>, issued: set<string>, x: string)
    requires LogOk(log, issued) && "" !in issued && Granted(x) in log
    ensures x != ""
  {
    hide Before;
    assert Granted(x).lease in issued;
  }

  // ---- What is asked and reported ----

  /** A job asks for its lease with its own limits and sizes, and reports its tokens on exactly the limits it reserved
      tokens on. */
  lemma JobsAskAndReportExactly(job: Job, tokens: nat)
    ensures RequestOf(job).leaseID == job.leaseID && RequestOf(job).jobID == job.jobID
    ensures forall r :: r in RequestOf(job).requirements <==>
              || (r.key == Requirements.RpmKey(job.provider, job.model) && r.amount == 1)
              || (r.key == Requirements.ConcurrencyKey(job.provider, job.model) && r.amount == 1)
              || (r.key == Requirements.TpmKey(job.provider, job.model)
                  && r.amount == job.promptBytes + job.maxOutputTokens)
              || (r.key == Requirements.DailyKey(job.tenantID)
                  && r.amount == job.promptBytes + job.maxOutputTokens && job.wantDailyBudget)
    ensures forall a :: a in ActualsOf(job, tokens) <==>
              && a.actualAmount == tokens
              && (|| a.key == Requirements.TpmKey(job.provider, job.model)
                  || (job.wantDailyBudget && a.key == Requirements.DailyKey(job.tenantID)))
  {
    hide Requirements.Build, Requirements.RpmKey, Requirements.TpmKey, Requirements.ConcurrencyKey,
        Requirements.DailyKey;
    forall r
      ensures r in RequestOf(job).requirements <==>
              || (r.key == Requirements.RpmKey(job.provider, job.model) && r.amount == 1)
              || (r.key == Requirements.ConcurrencyKey(job.provider, job.model) && r.amount == 1)
              || (r.key == Requirements.TpmKey(job.provider, job.model)
                  && r.amount == job.promptBytes + job.maxOutputTokens)
              || (r.key == Requirements.DailyKey(job.tenantID)
                  && r.amount == job.promptBytes + job.maxOutputTokens && job.wantDailyBudget)
    {
      Requirements.BuildAsksExactly(job.tenantID, job.provider, job.model, job.promptBytes, job.maxOutputTokens,
          job.wantDailyBudget, r);
    }
  }

  /** A denied job comes back under a lease never used before, and not before the wait it was told; one whose reply or
      request is lost comes back under the lease it has; only an allowed one starts. */
  lemma ReplyDecides(s: System, w: nat, now: int, delivery: Delivery, wait: nat, newLease: string)
    requires w < |s.workers| && s.workers[w].Holding? && Fresh(s, newLease)
    ensures var job, t := s.workers[w].job, ReserveStep(s, w, now, delivery, wait, newLease);
            var reply := L.Reserve(s.backend, RequestOf(job), now).1;
            && |t.workers| == |s.workers|
            && (forall v :: 0 <= v < |s.workers| && v != w ==> t.workers[v] == s.workers[v])
            && match t.workers[w]
               case Running(j) => delivery == Delivered && reply.allowed && j == job
               case Returning(j, notBefore) =>
                 if delivery == Delivered then
                   && !reply.allowed && j == job.(leaseID := newLease)
                   && newLease !in s.issued && newLease in t.issued
                   && notBefore >= now + reply.retryAfterMs * 1_000_000
                 else j == job && notBefore >= now
               case _ => false
  {
    hide L.Reserve, Next, LedgerNext, RequestOf;
  }

  // ---- First in, first out ----

  /** What an action does to the queues. */
  function QueueEvent(s: System, a: Action): seq<S.Event> {
    match a
    case TakeSubmitted => if s.submitCh == [] then [] else [S.Event.Arrive(s.submitCh[0])]
    case TakeRequeued => if s.requeueCh == [] then [] else [S.Event.Block(s.requeueCh[0].job, s.requeueCh[0].notBefore)]
    case Promote(now) => [S.Event.Promote(now)]
    case Dispatch => [S.Event.Dispatch]
    case _ => []
  }

  function QueueEvents(states: seq<System>, actions: seq<Action>, n: nat): seq<S.Event>
    requires n <= |actions| < |states|
  {
    if n == 0 then [] else QueueEvents(states, actions, n - 1) + QueueEvent(states[n - 1], actions[n - 1])
  }

  lemma {:induction false} ApplyOneMore(s: S.State, events: seq<S.Event>, e: S.Event)
    requires S.Valid(s)
    ensures S.ApplyAll(s, events + [e]).rrIndex < |S.ApplyAll(s, events + [e]).order|
            || S.ApplyAll(s, events + [e]).order == []
    ensures S.ApplyAll(s, events).rrIndex < |S.ApplyAll(s, events).order| || S.ApplyAll(s, events).order == []
    ensures S.ApplyAll(s, events + [e]) == S.Apply(S.ApplyAll(s, events), e)
    decreases |events|
  {
    hide S.Apply, S.Valid;
    S.CursorBound(s);
    if events == [] {
      assert events + [e] == [e] && [e][1..] == [];
      S.ApplyKeeps(s, e);
      S.CursorBound(S.Apply(s, e));
    } else {
      S.ApplyKeeps(s, events[0]);
      assert (events + [e])[1..] == events[1..] + [e];
      ApplyOneMore(S.Apply(s, events[0]), events[1..], e);
    }
  }

  lemma QueueStep(s: System, a: Action)
    requires Enabled(s, a) && S.Valid(s.sched)
    ensures QueueEvent(s, a) == [] ==> Do(s, a).sched == s.sched
    ensures QueueEvent(s, a) != [] ==>
              && |QueueEvent(s, a)| == 1 && (s.sched.rrIndex < |s.sched.order| || s.sched.order == [])
              && Do(s, a).sched == S.Apply(s.sched, QueueEvent(s, a)[0])
  {
    hide S.EnqueueReady, S.EnqueueBlocked, S.PromoteReady, S.NextReady, S.Valid, L.Reserve, Next, LedgerNext,
        LedgerLegal;
    S.CursorBound(s.sched);
  }

  lemma EmptyIsValid()
    ensures S.Valid(S.EMPTY) && S.InPlace(S.EMPTY)
  {
  }

  lemma RunStep(states: seq<System>, actions: seq<Action>, n: nat)
    requires IsRun(states, actions) && n < |actions|
    ensures |states| == |actions| + 1
    ensures states[n].sched.rrIndex < |states[n].sched.order| || states[n].sched.order == []
    ensures var event := QueueEvent(states[n], actions[n]);
            if event == [] then states[n + 1].sched == states[n].sched
            else |event| == 1 && states[n + 1].sched == S.Apply(states[n].sched, event[0])
  {
    hide Inv, Do, Enabled, S.Valid, QueueEvent, S.Apply, Init;
    RunHolds(states, actions, n);
    SchedIsValid(states[n]);
    S.CursorBound(states[n].sched);
    QueueStep(states[n], actions[n]);
  }

  lemma RunLength(states: seq<System>, actions: seq<Action>)
    requires IsRun(states, actions)
    ensures |states| == |actions| + 1 && states[0].sched == S.EMPTY
  {
    hide Enabled, Do;
  }

  lemma {:induction false} QueuesFollow(states: seq<System>, actions: seq<Action>, n: nat)
    requires IsRun(states, actions) && n <= |actions|
    ensures S.Valid(S.EMPTY) && |states| == |actions| + 1
    ensures S.ApplyAll(S.EMPTY, QueueEvents(states, actions, n)) == states[n].sched
  {
    hide IsRun, S.Valid, QueueEvent, S.Apply;
    EmptyIsValid();
    RunLength(states, actions);
    if n > 0 {
      QueuesFollow(states, actions, n - 1);
      RunStep(states, actions, n - 1);
      var before, event := QueueEvents(states, actions, n - 1), QueueEvent(states[n - 1], actions[n - 1]);
      if event == [] {
        assert before + event == before;
      } else {
        assert event == [event[0]];
        ApplyOneMore(S.EMPTY, before, event[0]);
      }
    }
  }

  /** In every interleaving the jobs of one provider and model leave the queues in the order in which they became
      ready: those dispatched so far, followed by those ready, only ever grow at the end. */
  lemma JobsLeaveInOrder(states: seq<System>, actions: seq<Action>, m: nat, n: nat, key: string)
    requires IsRun(states, actions) && m <= n <= |actions|
    ensures S.Valid(S.EMPTY) && |states| == |actions| + 1
    ensures S.Dispatched(S.EMPTY, QueueEvents(states, actions, m), key) + S.ReadyIn(states[m].sched, key)
            <= S.Dispatched(S.EMPTY, QueueEvents(states, actions, n), key) + S.ReadyIn(states[n].sched, key)
  {
    hide IsRun, S.Valid, S.InPlace, S.ReadyIn, S.ApplyAll;
    EmptyIsValid();
    QueuesFollow(states, actions, m);
    QueuesFollow(states, actions, n);
    var more := EventsGrow(states, actions, m, n);
    S.FirstInFirstOut(S.EMPTY, QueueEvents(states, actions, m), more, key);
  }

  lemma {:induction false} EventsGrow(states: seq<System>, actions: seq<Action>, m: nat, n: nat)
    returns (more: seq<S.Event>)
    requires m <= n <= |actions| < |states|
    ensures QueueEvents(states, actions, n) == QueueEvents(states, actions, m) + more
  {
    more := [];
    if m < n {
      more := EventsGrow(states, actions, m, n - 1);
      more := more + QueueEvent(states[n - 1], actions[n - 1]);
    }
  }
}
