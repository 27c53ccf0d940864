/** The whole scheduler over the in-memory backend as one state machine: the run loop's queues and
    channels, any number of workers, the backend they share, replies that get lost, and the admin
    steps.  A run is any interleaving of these steps before shutdown. */
module SchedulerSystem {
  import opened Limits
  import opened LimiterRuns
  import opened LedgerRefinement
  import S = SchedulerSpec
  import L = Limiter
  import G = Ledger
  import Requirements

  type Job = S.Job

  /** A worker: idle, about to reserve, inside Execute, about to complete, or about to requeue. */
  datatype Worker =
    | Idle
    | Holding(job: Job)
    | Running(job: Job)
    | Finishing(job: Job, actuals: seq<Actual>)
    | Returning(job: Job, notBefore: int)

  /** What happened to a lease, in order. */
  datatype Event = Granted(lease: string) | Started(lease: string) | Completed(lease: string)

  /** `ledger`, `log`, `issued` and `submitted` only observe; no step reads them. */
  datatype System = System(
    backend: L.Backend, ledger: G.Ledger, clock: int,
    submitCh: seq<Job>, sched: S.State, workCh: seq<Job>, workCap: nat,
    workers: seq<Worker>, requeueCh: seq<S.Blocked>, finished: seq<Job>,
    submitted: nat, issued: set<string>, log: seq<Event>)

  /** How a Reserve call ends for the worker. A denied job waits as long as it is told and a jitter, one whose reply
      does not come some fixed time: both are the `wait` of the action. */
  datatype Delivery = Delivered | LostReply | LostRequest

  datatype Action =
    | Submit(job: Job)
    | TakeSubmitted
    | TakeRequeued
    | Promote(now: int)
    | Dispatch
    | Take(w: nat, newLease: string)
    | Reserve(w: nat, now: int, delivery: Delivery, wait: nat, newLease: string)
    | Execute(w: nat, tokens: nat)
    | Complete(w: nat, delivered: bool)
    | Requeue(w: nat)
    | Admin(step: Step)

  function RequestOf(job: Job): ReserveRequest {
    var reqs := Requirements.Build(job.tenantID, job.provider, job.model, job.promptBytes, job.maxOutputTokens,
                                   job.wantDailyBudget);
    ReserveRequest(job.leaseID, job.jobID, reqs)
  }

  function ActualsOf(job: Job, tokens: nat): seq<Actual> {
    var actuals := [Actual(Requirements.TpmKey(job.provider, job.model), tokens)];
    if job.wantDailyBudget then actuals + [Actual(Requirements.DailyKey(job.tenantID), tokens)] else actuals
  }

  ghost predicate Fresh(s: System, lease: string) {
    lease != "" && lease !in s.issued
  }

  ghost predicate Enabled(s: System, a: Action) {
    match a
    case Submit(job) => job.ticket == s.submitted && (job.leaseID == "" || Fresh(s, job.leaseID))
    case TakeSubmitted => s.submitCh != []
    case TakeRequeued => s.requeueCh != []
    case Promote(now) => s.clock <= now
    case Dispatch => |s.workCh| < s.workCap && S.Valid(s.sched) && S.NextReady(s.sched).1.Some?
    case Take(w, newLease) => w < |s.workers| && s.workers[w].Idle? && s.workCh != [] && Fresh(s, newLease)
    case Reserve(w, now, delivery, wait, newLease) =>
      w < |s.workers| && s.workers[w].Holding? && s.clock <= now && Fresh(s, newLease)
    case Execute(w, tokens) => w < |s.workers| && s.workers[w].Running?
    case Complete(w, delivered) => w < |s.workers| && s.workers[w].Finishing?
    case Requeue(w) => w < |s.workers| && s.workers[w].Returning?
    case Admin(step) => (step.Defining? || step.Decreasing?) && LedgerLegal(s.ledger, s.clock, step)
  }

  /** One step of the backend, seen by the ledger too. */
  ghost function Backend(s: System, step: Step): System {
    s.(backend := Next(s.backend, step), ledger := LedgerNext(s.ledger, step), clock := ClockAfter(s.clock, step))
  }

  function SetWorker(s: System, w: nat, worker: Worker): System
    requires w < |s.workers|
  {
    s.(workers := s.workers[w := worker])
  }

  ghost function ReserveStep(s: System, w: nat, now: int, delivery: Delivery, wait: nat, newLease: string): System
    requires w < |s.workers| && s.workers[w].Holding?
  {
    var job := s.workers[w].job;
    var step := Step.Reserving(RequestOf(job), now);
    var reply := L.Reserve(s.backend, RequestOf(job), now).1;
    var grants := delivery != LostRequest && reply.allowed && job.leaseID !in s.backend.leases;
    var t := if delivery == LostRequest then s.(clock := now) else Backend(s, step);
    var t := if grants then t.(log := t.log + [Granted(job.leaseID)]) else t;
    if delivery != Delivered then SetWorker(t, w, Returning(job, now + wait))
    else if !reply.allowed then
      var notBefore := now + reply.retryAfterMs * 1_000_000 + wait;
      SetWorker(t, w, Returning(job.(leaseID := newLease), notBefore)).(issued := t.issued + {newLease})
    else
      SetWorker(t, w, Running(job)).(log := t.log + [Started(job.leaseID)])
  }

  ghost function Do(s: System, a: Action): System
    requires Enabled(s, a)
  {
    match a
    case Submit(job) =>
      s.(submitCh := s.submitCh + [job], submitted := s.submitted + 1,
         issued := if job.leaseID == "" then s.issued else s.issued + {job.leaseID})
    case TakeSubmitted =>
      s.(submitCh := s.submitCh[1..], sched := S.EnqueueReady(s.sched, s.submitCh[0]))
    case TakeRequeued =>
      s.(requeueCh := s.requeueCh[1..],
          sched := S.EnqueueBlocked(s.sched, s.requeueCh[0].job, s.requeueCh[0].notBefore))
    case Promote(now) =>
      s.(clock := now, sched := S.PromoteReady(s.sched, now))
    case Dispatch =>
      s.(sched := S.NextReady(s.sched).0, workCh := s.workCh + [S.NextReady(s.sched).1.value])
    case Take(w, newLease) =>
      var job := s.workCh[0];
      var t := s.(workCh := s.workCh[1..]);
      if job.leaseID == "" then
        SetWorker(t, w, Holding(job.(leaseID := newLease))).(issued := t.issued + {newLease})
      else
        SetWorker(t, w, Holding(job))
    case Reserve(w, now, delivery, wait, newLease) => ReserveStep(s, w, now, delivery, wait, newLease)
    case Execute(w, tokens) =>
      var job := s.workers[w].job;
      SetWorker(s, w, Finishing(job, ActualsOf(job, tokens)))
    case Complete(w, delivered) =>
      var Finishing(job, actuals) := s.workers[w];
      var t := if delivered then Backend(s, Step.Completing(CompleteRequest(job.leaseID, job.jobID, actuals))) else s;
      SetWorker(t, w, Idle).(finished := s.finished + [job], log := s.log + [Completed(job.leaseID)])
    case Requeue(w) =>
      var Returning(job, notBefore) := s.workers[w];
      SetWorker(s, w, Idle).(requeueCh := s.requeueCh + [S.Blocked(job, notBefore)])
    case Admin(step) => Backend(s, step)
  }

  // ---- Where the jobs are ----

  function Flatten(ms: seq<multiset<Job>>): multiset<Job> {
    if ms == [] then multiset{} else Flatten(ms[..|ms| - 1]) + ms[|ms| - 1]
  }

  lemma {:induction false} FlattenChange(ms: seq<multiset<Job>>, ns: seq<multiset<Job>>, i: nat)
    requires |ms| == |ns| && i < |ms| && forall j :: 0 <= j < |ms| && j != i ==> ms[j] == ns[j]
    ensures Flatten(ns) + ms[i] == Flatten(ms) + ns[i]
  {
    var n := |ms| - 1;
    if i == n {
      assert ms[..n] == ns[..n];
    } else {
      FlattenChange(ms[..n], ns[..n], i);
      var a, b := Flatten(ms[..n]), Flatten(ns[..n]);
      assert (b + ns[n]) + ms[i] == (b + ms[i]) + ns[n];
    }
  }

  lemma Cancel(a: multiset<Job>, b: multiset<Job>, q: multiset<Job>, x: multiset<Job>)
    requires a + q == b + (q + x)
    ensures a == b + x
  {
    forall e
      ensures a[e] == (b + x)[e]
    {
      assert (a + q)[e] == (b + (q + x))[e];
    }
  }

  lemma FlattenAppend(ms: seq<multiset<Job>>, m: multiset<Job>)
    ensures Flatten(ms + [m]) == Flatten(ms) + m
  {
    assert (ms + [m])[..|ms|] == ms;
  }

  function QueueJobs(q: S.Queue): multiset<Job> {
    multiset(q.ready) + multiset(S.JobsOf(q.blocked))
  }

  function Queued(s: S.State): seq<multiset<Job>> {
    seq(|s.order|, i requires 0 <= i < |s.order| =>
      if s.order[i] in s.queues then QueueJobs(s.queues[s.order[i]]) else multiset{})
  }

  /** The job of a worker that is not in Execute or completing. */
  function WaitingJob(w: Worker): multiset<Job> {
    if w.Holding? || w.Returning? then multiset{w.job} else multiset{}
  }

  function BusyJob(w: Worker): multiset<Job> {
    if w.Running? || w.Finishing? then multiset{w.job} else multiset{}
  }

  function WorkersWaiting(ws: seq<Worker>): seq<multiset<Job>> {
    seq(|ws|, i requires 0 <= i < |ws| => WaitingJob(ws[i]))
  }

  function WorkersBusy(ws: seq<Worker>): seq<multiset<Job>> {
    seq(|ws|, i requires 0 <= i < |ws| => BusyJob(ws[i]))
  }

  /** Jobs in the submit channel, ready, blocked, in the work channel, with a worker that has not
      started them, or in the requeue channel. */
  function Waiting(s: System): multiset<Job> {
    multiset(s.submitCh) + Flatten(Queued(s.sched)) + multiset(s.workCh)
    + Flatten(WorkersWaiting(s.workers)) + multiset(S.JobsOf(s.requeueCh))
  }

  /** Jobs inside Execute or completing. */
  function Busy(s: System): multiset<Job> {
    Flatten(WorkersBusy(s.workers))
  }

  function AllJobs(s: System): multiset<Job> {
    Waiting(s) + Busy(s) + multiset(s.finished)
  }

  lemma {:induction false} FlattenHas(ms: seq<multiset<Job>>, i: nat)
    requires i < |ms|
    ensures ms[i] <= Flatten(ms)
  {
    if i < |ms| - 1 {
      FlattenHas(ms[..|ms| - 1], i);
    }
  }

  /** A worker's change of state moves its own job and no other. */
  lemma SetWorkerJobs(ws: seq<Worker>, w: nat, worker: Worker)
    requires w < |ws|
    ensures WaitingJob(ws[w]) <= Flatten(WorkersWaiting(ws)) && BusyJob(ws[w]) <= Flatten(WorkersBusy(ws))
    ensures Flatten(WorkersWaiting(ws[w := worker])) ==
            Flatten(WorkersWaiting(ws)) - WaitingJob(ws[w]) + WaitingJob(worker)
    ensures Flatten(WorkersBusy(ws[w := worker])) == Flatten(WorkersBusy(ws)) - BusyJob(ws[w]) + BusyJob(worker)
  {
    hide WaitingJob, BusyJob, Flatten;
    FlattenHas(WorkersWaiting(ws), w);
    FlattenHas(WorkersBusy(ws), w);
    FlattenChange(WorkersWaiting(ws), WorkersWaiting(ws[w := worker]), w);
    FlattenChange(WorkersBusy(ws), WorkersBusy(ws[w := worker]), w);
    Difference(Flatten(WorkersWaiting(ws[w := worker])), Flatten(WorkersWaiting(ws)), WaitingJob(ws[w]),
        WaitingJob(worker));
    Difference(Flatten(WorkersBusy(ws[w := worker])), Flatten(WorkersBusy(ws)), BusyJob(ws[w]), BusyJob(worker));
  }

  lemma Difference(a: multiset<Job>, b: multiset<Job>, x: multiset<Job>, y: multiset<Job>)
    requires a + x == b + y && x <= b
    ensures a == b - x + y
  {
    forall e
      ensures a[e] == (b - x + y)[e]
    {
      assert (a + x)[e] == (b + y)[e];
    }
  }

  lemma {:induction false} JobsOfConcat(a: seq<S.Blocked>, b: seq<S.Blocked>)
    ensures S.JobsOf(a + b) == S.JobsOf(a) + S.JobsOf(b)
  {
    if a == [] {
      assert a + b == b;
    } else {
      assert (a + b)[1..] == a[1..] + b;
      JobsOfConcat(a[1..], b);
    }
  }

  lemma InsertJobs(items: seq<S.Blocked>, item: S.Blocked)
    ensures multiset(S.JobsOf(S.Insert(items, item))) == multiset(S.JobsOf(items)) + multiset{item.job}
  {
    var i := S.SearchIndex(items, item.notBefore);
    var a, b := items[..i], items[i..];
    assert items == a + b;
    JobsOfConcat(a, b);
    JobsOfConcat(a + [item], b);
    JobsOfConcat(a, [item]);
    assert S.JobsOf([item]) == [item.job];
    hide S.JobsOf, S.SearchIndex;
    assert S.JobsOf(S.Insert(items, item)) == S.JobsOf(a) + [item.job] + S.JobsOf(b);
  }

  /** Changing one queue changes the queued jobs by the difference. */
  lemma QueueChange(s: S.State, key: string, q: S.Queue)
    requires S.Valid(s) && key in s.queues
    ensures Flatten(Queued(s.(queues := s.queues[key := q]))) + QueueJobs(s.queues[key])
         == Flatten(Queued(s)) + QueueJobs(q)
  {
    hide QueueJobs;
    var i :| 0 <= i < |s.order| && s.order[i] == key;
    var t := s.(queues := s.queues[key := q]);
    assert forall j :: 0 <= j < |s.order| && j != i ==> Queued(s)[j] == Queued(t)[j];
    FlattenChange(Queued(s), Queued(t), i);
  }

  lemma GetQueueJobs(s: S.State, key: string)
    requires S.Valid(s)
    ensures Flatten(Queued(S.GetQueue(s, key))) == Flatten(Queued(s))
  {
    var g := S.GetQueue(s, key);
    if key !in s.queues {
      assert forall i :: 0 <= i < |s.order| ==> s.order[i] != key;
      assert Queued(g) == Queued(s) + [QueueJobs(S.Queue([], []))];
      FlattenAppend(Queued(s), QueueJobs(S.Queue([], [])));
    }
  }

  lemma EnqueueReadyJobs(s: S.State, job: Job)
    requires S.Valid(s)
    ensures Flatten(Queued(S.EnqueueReady(s, job))) == Flatten(Queued(s)) + multiset{job}
  {
    hide Flatten, Queued, S.Valid;
    var key := S.QueueKey(job);
    GetQueueJobs(s, key);
    S.GetQueueKeeps(s, key);
    var g := S.GetQueue(s, key);
    var q := g.queues[key];
    QueueChange(g, key, q.(ready := q.ready + [job]));
    assert QueueJobs(q.(ready := q.ready + [job])) == QueueJobs(q) + multiset{job};
    Cancel(Flatten(Queued(S.EnqueueReady(s, job))), Flatten(Queued(s)), QueueJobs(q), multiset{job});
  }

  lemma EnqueueBlockedJobs(s: S.State, job: Job, notBefore: int)
    requires S.Valid(s)
    ensures Flatten(Queued(S.EnqueueBlocked(s, job, notBefore))) == Flatten(Queued(s)) + multiset{job}
  {
    hide Flatten, Queued, S.Valid, S.Insert;
    var key := S.QueueKey(job);
    GetQueueJobs(s, key);
    S.GetQueueKeeps(s, key);
    var g := S.GetQueue(s, key);
    var item := S.Blocked(job, notBefore);
    var q := g.queues[key];
    InsertJobs(q.blocked, item);
    QueueChange(g, key, q.(blocked := S.Insert(q.blocked, item)));
    assert QueueJobs(q.(blocked := S.Insert(q.blocked, item))) == QueueJobs(q) + multiset{job};
    Cancel(Flatten(Queued(S.EnqueueBlocked(s, job, notBefore))), Flatten(Queued(s)), QueueJobs(q), multiset{job});
  }

  lemma PromoteJobs(s: S.State, now: int)
    requires S.Valid(s)
    ensures Flatten(Queued(S.PromoteReady(s, now))) == Flatten(Queued(s))
  {
    var p := S.PromoteReady(s, now);
    forall i | 0 <= i < |s.order|
      ensures Queued(p)[i] == Queued(s)[i]
    {
      PromoteQueueJobs(s.queues[s.order[i]], now);
    }
    assert Queued(p) == Queued(s);
  }

  lemma PromoteQueueJobs(q: S.Queue, now: int)
    ensures QueueJobs(S.PromoteQueue(q, now)) == QueueJobs(q)
  {
    var n := S.DueCount(q.blocked, now);
    assert q.blocked == q.blocked[..n] + q.blocked[n..];
    JobsOfConcat(q.blocked[..n], q.blocked[n..]);
  }

  lemma NextReadyJobs(s: S.State)
    requires S.Valid(s) && S.NextReady(s).1.Some?
    ensures Flatten(Queued(S.NextReady(s).0)) + multiset{S.NextReady(s).1.value} == Flatten(Queued(s))
  {
    hide S.Scan, S.Valid, Flatten;
    S.CursorBound(s);
    var idx := S.Scan(s, 0).value;
    var key := s.order[idx];
    var q := s.queues[key];
    var r := q.(ready := q.ready[1..]);
    assert q.ready == [q.ready[0]] + q.ready[1..];
    assert QueueJobs(q) == QueueJobs(r) + multiset{q.ready[0]};
    QueueChange(s, key, r);
    var t := s.(queues := s.queues[key := r]);
    assert Queued(S.NextReady(s).0) == Queued(t);
    Cancel(Flatten(Queued(s)), Flatten(Queued(t)), QueueJobs(r), multiset{q.ready[0]});
  }
}
