/** The scheduler's queues as values: one queue per provider and model, visited round robin. */
module SchedulerSpec {
  import opened Wrappers

  /** A job.  `ticket` stands for its Execute function: one per submission. */
  datatype Job = Job(
    ticket: nat, jobID: string, leaseID: string, tenantID: string, provider: string, model: string,
    promptBytes: nat, maxOutputTokens: nat, wantDailyBudget: bool)

  datatype Blocked = Blocked(job: Job, notBefore: int)

  datatype Queue = Queue(ready: seq<Job>, blocked: seq<Blocked>)

  datatype State = State(queues: map<string, Queue>, order: seq<string>, rrIndex: nat)

  const EMPTY := State(map[], [], 0)

  function QueueKey(job: Job): string {
    job.provider + ":" + job.model
  }

  /** What `a` has more in its provider, `b` has in its model. */
  predicate Regrouped(a: Job, b: Job, p: string) {
    a.provider == b.provider + ":" + p && b.model == p + ":" + a.model
  }

  /** Jobs share a queue exactly when provider and model are the same, or a provider with a colon makes them look so;
      so never when no provider holds a colon. */
  lemma QueuesAreSharedExactly(a: Job, b: Job)
    ensures QueueKey(a) == QueueKey(b) <==>
            || (a.provider == b.provider && a.model == b.model)
            || (exists p :: Regrouped(a, b, p)) || (exists p :: Regrouped(b, a, p))
    ensures ':' !in a.provider && ':' !in b.provider ==>
              (QueueKey(a) == QueueKey(b) <==> a.provider == b.provider && a.model == b.model)
  {
    if QueueKey(a) == QueueKey(b) {
      if |a.provider| == |b.provider| {
        var x, n := QueueKey(a), |a.provider|;
        assert a.provider == x[..n] == b.provider && a.model == x[n + 1..] == b.model;
      } else if |a.provider| > |b.provider| {
        LongerProvider(a, b);
      } else {
        LongerProvider(b, a);
      }
    }
    forall p | Regrouped(a, b, p)
      ensures QueueKey(a) == QueueKey(b) && ':' in a.provider
    {
      RegroupedShare(a, b, p);
    }
    forall p | Regrouped(b, a, p)
      ensures QueueKey(a) == QueueKey(b) && ':' in b.provider
    {
      RegroupedShare(b, a, p);
    }
  }

  lemma RegroupedShare(a: Job, b: Job, p: string)
    requires Regrouped(a, b, p)
    ensures QueueKey(a) == QueueKey(b) && ':' in a.provider
  {
    assert b.provider + ":" + p + ":" + a.model == b.provider + ":" + (p + ":" + a.model);
    assert a.provider[|b.provider|] == ':';
  }

  lemma LongerProvider(a: Job, b: Job)
    requires QueueKey(a) == QueueKey(b) && |a.provider| > |b.provider|
    ensures exists p :: Regrouped(a, b, p)
  {
    var x, n, m := QueueKey(a), |a.provider|, |b.provider|;
    var p := a.provider[m + 1..];
    assert x[..n] == a.provider && x[..m] == b.provider && x[m] == ':';
    assert a.provider == b.provider + ":" + p by {
      assert a.provider == x[..m] + [x[m]] + x[m + 1..n];
    }
    assert b.model == x[m + 1..] && x[m + 1..] == x[m + 1..n] + x[n..] && x[n..] == ":" + a.model;
    assert Regrouped(a, b, p);
  }

  ghost predicate Sorted(items: seq<Blocked>) {
    forall i, j :: 0 <= i < j < |items| ==> items[i].notBefore <= items[j].notBefore
  }

  /** `order` lists every queue once, and the cursor is one of its positions. */
  ghost predicate Valid(s: State) {
    && (forall i :: 0 <= i < |s.order| ==> s.order[i] in s.queues)
    && (forall k :: k in s.queues ==> k in s.order)
    && (forall i, j :: 0 <= i < j < |s.order| ==> s.order[i] != s.order[j])
    && (s.rrIndex < |s.order| || s.rrIndex == 0)
    && (forall k :: k in s.queues ==> Sorted(s.queues[k].blocked))
  }

  /** The position of the first item no earlier than `target`. */
  function SearchIndex(items: seq<Blocked>, target: int): (i: nat)
    ensures i <= |items|
    ensures forall j :: 0 <= j < i ==> items[j].notBefore < target
    ensures i < |items| ==> items[i].notBefore >= target
  {
    if items == [] || items[0].notBefore >= target then 0 else 1 + SearchIndex(items[1..], target)
  }

  function Insert(items: seq<Blocked>, item: Blocked): seq<Blocked> {
    var i := SearchIndex(items, item.notBefore);
    items[..i] + [item] + items[i..]
  }

  lemma InsertIsSorted(items: seq<Blocked>, item: Blocked)
    requires Sorted(items)
    ensures Sorted(Insert(items, item)) && multiset(Insert(items, item)) == multiset(items) + multiset{item}
  {
    var i := SearchIndex(items, item.notBefore);
    assert items == items[..i] + items[i..];
  }

  /** The new item comes right after the earlier ones, before those of its own time, and moves nothing else. */
  lemma InsertIsExact(items: seq<Blocked>, item: Blocked, i: nat)
    requires Sorted(items) && i < |Insert(items, item)|
    ensures |Insert(items, item)| == |items| + 1
    ensures Insert(items, item)[i] ==
            if i < |items| && items[i].notBefore < item.notBefore then items[i]
            else if i == 0 || items[i - 1].notBefore < item.notBefore then item
            else items[i - 1]
  {
  }

  /** How many items at the front are due. */
  function DueCount(items: seq<Blocked>, now: int): (n: nat)
    ensures n <= |items|
    ensures forall j :: 0 <= j < n ==> items[j].notBefore <= now
    ensures n < |items| ==> items[n].notBefore > now
  {
    if items == [] || items[0].notBefore > now then 0 else 1 + DueCount(items[1..], now)
  }

  function JobsOf(items: seq<Blocked>): (jobs: seq<Job>)
    ensures |jobs| == |items| && forall i :: 0 <= i < |items| ==> jobs[i] == items[i].job
  {
    if items == [] then [] else [items[0].job] + JobsOf(items[1..])
  }

  function PromoteQueue(q: Queue, now: int): Queue {
    var n := DueCount(q.blocked, now);
    Queue(q.ready + JobsOf(q.blocked[..n]), q.blocked[n..])
  }

  /** On a sorted list promotion moves exactly the jobs that are due, in order, behind those already ready,
      and leaves a sorted list of the others. */
  lemma PromotionIsExact(q: Queue, now: int)
    requires Sorted(q.blocked)
    ensures var p, r := PromoteQueue(q, now), |q.ready|;
            && Sorted(p.blocked) && |p.ready| + |p.blocked| == r + |q.blocked| && r <= |p.ready|
            && p.ready[..r] == q.ready
            && (forall i :: r <= i < |p.ready| ==>
                  p.ready[i] == q.blocked[i - r].job && q.blocked[i - r].notBefore <= now)
            && forall i :: 0 <= i < |p.blocked| ==>
                 p.blocked[i] == q.blocked[i + (|p.ready| - r)] && p.blocked[i].notBefore > now
  {
  }

  function GetQueue(s: State, key: string): State {
    if key in s.queues then s else s.(queues := s.queues[key := Queue([], [])], order := s.order + [key])
  }

  function EnqueueReady(s: State, job: Job): State {
    var g := GetQueue(s, QueueKey(job));
    var q := g.queues[QueueKey(job)];
    g.(queues := g.queues[QueueKey(job) := q.(ready := q.ready + [job])])
  }

  function EnqueueBlocked(s: State, job: Job, notBefore: int): State {
    var g := GetQueue(s, QueueKey(job));
    var q := g.queues[QueueKey(job)];
    g.(queues := g.queues[QueueKey(job) := q.(blocked := Insert(q.blocked, Blocked(job, notBefore)))])
  }

  function PromoteReady(s: State, now: int): State {
    s.(queues := map k | k in s.queues :: PromoteQueue(s.queues[k], now))
  }

  predicate HasReady(s: State, i: nat)
    requires i < |s.order|
  {
    s.order[i] in s.queues && s.queues[s.order[i]].ready != []
  }

  /** The first position with ready work among those `from` and more steps after the cursor. */
  function Scan(s: State, from: nat): (i: Option<nat>)
    requires s.rrIndex < |s.order| && from <= |s.order|
    ensures i.Some? ==> i.value < |s.order| && HasReady(s, i.value)
    decreases |s.order| - from
  {
    if from == |s.order| then None
    else
      var idx := (s.rrIndex + from) % |s.order|;
      if HasReady(s, idx) then Some(idx) else Scan(s, from + 1)
  }

  /** Takes the first ready job of the first queue with ready work, at or after the cursor. */
  function NextReady(s: State): (State, Option<Job>)
    requires s.rrIndex < |s.order| || s.order == []
  {
    if s.order == [] || Scan(s, 0).None? then (s, None)
    else
      var idx := Scan(s, 0).value;
      var q := s.queues[s.order[idx]];
      (s.(queues := s.queues[s.order[idx] := q.(ready := q.ready[1..])], rrIndex := (idx + 1) % |s.order|),
          Some(q.ready[0]))
  }

  // ---- What the operations keep ----

  lemma GetQueueKeeps(s: State, key: string)
    requires Valid(s)
    ensures Valid(GetQueue(s, key)) && key in GetQueue(s, key).queues && |GetQueue(s, key).order| > 0
  {
    var g := GetQueue(s, key);
    if key !in s.queues {
      assert forall i :: 0 <= i < |s.order| ==> s.order[i] != key;
      assert g.order[|s.order|] == key;
    }
  }

  lemma EnqueueReadyKeeps(s: State, job: Job)
    requires Valid(s)
    ensures Valid(EnqueueReady(s, job))
  {
    GetQueueKeeps(s, QueueKey(job));
  }

  lemma EnqueueBlockedKeeps(s: State, job: Job, notBefore: int)
    requires Valid(s)
    ensures Valid(EnqueueBlocked(s, job, notBefore))
  {
    hide Insert;
    GetQueueKeeps(s, QueueKey(job));
    InsertIsSorted(GetQueue(s, QueueKey(job)).queues[QueueKey(job)].blocked, Blocked(job, notBefore));
  }

  lemma PromoteReadyKeeps(s: State, now: int)
    requires Valid(s)
    ensures Valid(PromoteReady(s, now))
  {
    hide PromoteQueue;
    forall k | k in s.queues
      ensures Sorted(PromoteQueue(s.queues[k], now).blocked)
    {
      PromotionIsExact(s.queues[k], now);
    }
  }

  lemma NextReadyKeeps(s: State)
    requires Valid(s)
    ensures Valid(NextReady(s).0)
  {
  }

  // ---- Round robin ----

  /** How many positions after the cursor `i` comes. */
  function Distance(s: State, i: nat): nat
    requires s.rrIndex < |s.order| && i < |s.order|
  {
    if i >= s.rrIndex then i - s.rrIndex else i + |s.order| - s.rrIndex
  }

  lemma {:induction false} ScanFindsNearest(s: State, from: nat)
    requires s.rrIndex < |s.order| && from <= |s.order|
    ensures Scan(s, from).None? <==> forall i :: 0 <= i < |s.order| && Distance(s, i) >= from ==> !HasReady(s, i)
    ensures Scan(s, from).Some? ==>
              var idx := Scan(s, from).value;
              && Distance(s, idx) >= from
              && forall i :: 0 <= i < |s.order| && from <= Distance(s, i) < Distance(s, idx) ==> !HasReady(s, i)
    decreases |s.order| - from
  {
    hide HasReady;
    if from < |s.order| {
      PositionAt(s, from);
      ScanFindsNearest(s, from + 1);
    }
  }

  /** Exactly one position is `from` steps after the cursor. */
  lemma PositionAt(s: State, from: nat)
    requires s.rrIndex < |s.order| && from < |s.order|
    ensures var idx := (s.rrIndex + from) % |s.order|;
            Distance(s, idx) == from && forall i :: 0 <= i < |s.order| && Distance(s, i) == from ==> i == idx
  {
    Wraps(s.rrIndex + from, |s.order|);
  }

  lemma Wraps(x: nat, n: nat)
    requires x < 2 * n
    ensures x % n == if x < n then x else x - n
  {
  }

  /** `NextReady` fails exactly when no queue has ready work. */
  lemma NextReadyFailsOnlyWhenIdle(s: State)
    requires Valid(s)
    ensures NextReady(s).1.None? <==> forall k :: k in s.queues ==> s.queues[k].ready == []
  {
    if s.order != [] {
      ScanFindsNearest(s, 0);
      if NextReady(s).1.None? {
        forall k | k in s.queues
          ensures s.queues[k].ready == []
        {
          var i :| 0 <= i < |s.order| && s.order[i] == k;
          assert !HasReady(s, i);
        }
      }
    }
  }

  /** Serving another queue brings the cursor closer to any queue that has ready work. */
  lemma OthersBringItCloser(s: State, p: nat)
    requires Valid(s) && p < |s.order| && HasReady(s, p)
    ensures NextReady(s).1.Some? && |NextReady(s).0.order| == |s.order|
    ensures NextReady(s).0.queues[s.order[p]] == s.queues[s.order[p]] ==>
              Distance(NextReady(s).0, p) < Distance(s, p)
    ensures NextReady(s).0.queues[s.order[p]] != s.queues[s.order[p]] ==>
              NextReady(s).1 == Some(s.queues[s.order[p]].ready[0])
  {
    ScanFindsNearest(s, 0);
    hide Scan;
    var idx := Scan(s, 0).value;
    NearerThan(s, idx, p);
    if idx == p {
      var q := s.queues[s.order[p]];
      assert |q.ready[1..]| < |q.ready|;
    } else {
      assert s.order[idx] != s.order[p];
      CursorMoves(s, idx, p);
    }
  }

  lemma NearerThan(s: State, idx: nat, p: nat)
    requires s.rrIndex < |s.order| && p < |s.order| && HasReady(s, p) && Scan(s, 0) == Some(idx)
    ensures idx < |s.order| && Distance(s, idx) <= Distance(s, p)
  {
    hide HasReady;
    ScanFindsNearest(s, 0);
  }

  /** Moving the cursor past a nearer position brings it nearer. */
  lemma CursorMoves(s: State, idx: nat, p: nat)
    requires s.rrIndex < |s.order| && idx < |s.order| && p < |s.order| && idx != p && Distance(s, idx) <= Distance(s, p)
    ensures (idx + 1) % |s.order| < |s.order|
    ensures Distance(s.(rrIndex := (idx + 1) % |s.order|), p) < Distance(s, p)
  {
    Wraps(idx + 1, |s.order|);
  }

  datatype Event = Arrive(job: Job) | Block(later: Job, notBefore: int) | Promote(now: int) | Dispatch

  function Apply(s: State, e: Event): State
    requires s.rrIndex < |s.order| || s.order == []
  {
    match e
    case Arrive(job) => EnqueueReady(s, job)
    case Block(job, notBefore) => EnqueueBlocked(s, job, notBefore)
    case Promote(now) => PromoteReady(s, now)
    case Dispatch => NextReady(s).0
  }

  lemma ApplyKeeps(s: State, e: Event)
    requires Valid(s)
    ensures Valid(Apply(s, e))
  {
    match e
    case Arrive(job) => EnqueueReadyKeeps(s, job);
    case Block(job, notBefore) => EnqueueBlockedKeeps(s, job, notBefore);
    case Promote(now) => PromoteReadyKeeps(s, now);
    case Dispatch => NextReadyKeeps(s);
  }

  ghost function ApplyAll(s: State, events: seq<Event>): State
    requires Valid(s)
    ensures Valid(ApplyAll(s, events))
    decreases |events|
  {
    if events == [] then s
    else
      ApplyKeeps(s, events[0]);
      ApplyAll(Apply(s, events[0]), events[1..])
  }

  function Dispatches(events: seq<Event>): nat {
    if events == [] then 0 else (if events[0].Dispatch? then 1 else 0) + Dispatches(events[1..])
  }

  /** The head of the queue at position `p` is ready all along and no dispatch takes it. */
  ghost predicate Waits(s: State, p: nat, events: seq<Event>)
    requires Valid(s) && p < |s.order|
    decreases |events|
  {
    && HasReady(s, p)
    && (events != [] ==>
          && (events[0].Dispatch? ==> NextReady(s).0.queues[s.order[p]] == s.queues[s.order[p]])
          && (ApplyKeeps(s, events[0]);
              p < |Apply(s, events[0]).order| && Waits(Apply(s, events[0]), p, events[1..])))
  }

  lemma ArrivalMovesAway(s: State, e: Event, p: nat)
    requires Valid(s) && p < |s.order| && !e.Dispatch?
    ensures var a := Apply(s, e);
            && |s.order| <= |a.order| && a.rrIndex == s.rrIndex && a.rrIndex < |a.order|
            && Distance(a, p) <= Distance(s, p) + |a.order| - |s.order|
  {
    hide Insert, PromoteQueue;
  }

  /** A queue that stays non-empty is served after at most n-1 dispatches from other queues, n being
      the number of queues at the end, even when queues are added and the cursor wraps meanwhile. */
  lemma {:induction false} BoundedWait(s: State, p: nat, events: seq<Event>)
    requires Valid(s) && p < |s.order| && Waits(s, p, events)
    ensures |s.order| <= |ApplyAll(s, events).order|
    ensures Dispatches(events) <= Distance(s, p) + |ApplyAll(s, events).order| - |s.order|
    ensures Dispatches(events) <= |ApplyAll(s, events).order| - 1
    decreases |events|
  {
    hide Valid, HasReady, Apply, NextReady;
    CursorInRange(s, p);
    if events != [] {
      ApplyKeeps(s, events[0]);
      var a := Apply(s, events[0]);
      BoundedWait(a, p, events[1..]);
      if events[0].Dispatch? {
        DispatchIsNextReady(s);
        OthersBringItCloser(s, p);
      } else {
        ArrivalMovesAway(s, events[0], p);
      }
    }
  }

  // ---- First in, first out ----

  /** Every job is in the queue of its provider and model. */
  ghost predicate InPlace(s: State) {
    && (forall k, i :: k in s.queues && 0 <= i < |s.queues[k].ready| ==> QueueKey(s.queues[k].ready[i]) == k)
    && (forall k, i :: k in s.queues && 0 <= i < |s.queues[k].blocked| ==> QueueKey(s.queues[k].blocked[i].job) == k)
  }

  function ReadyIn(s: State, key: string): seq<Job> {
    if key in s.queues then s.queues[key].ready else []
  }

  /** What one event dispatches of the jobs of a provider and model. */
  function DispatchedBy(s: State, e: Event, key: string): seq<Job>
    requires s.rrIndex < |s.order| || s.order == []
  {
    if e.Dispatch? && NextReady(s).1.Some? && QueueKey(NextReady(s).1.value) == key then [NextReady(s).1.value] else []
  }

  /** The jobs of a provider and model that a run dispatches, in order. */
  ghost function Dispatched(s: State, events: seq<Event>, key: string): seq<Job>
    requires Valid(s)
    decreases |events|
  {
    if events == [] then []
    else
      ApplyKeeps(s, events[0]);
      DispatchedBy(s, events[0], key) + Dispatched(Apply(s, events[0]), events[1..], key)
  }

  lemma ArrivalAddsAtEnd(s: State, job: Job, key: string)
    requires InPlace(s)
    ensures InPlace(EnqueueReady(s, job))
    ensures ReadyIn(EnqueueReady(s, job), key) == ReadyIn(s, key) + if QueueKey(job) == key then [job] else []
  {
    hide QueueKey;
  }

  lemma BlockKeepsReady(s: State, job: Job, notBefore: int, key: string)
    requires Valid(s) && InPlace(s)
    ensures InPlace(EnqueueBlocked(s, job, notBefore))
    ensures ReadyIn(EnqueueBlocked(s, job, notBefore), key) == ReadyIn(s, key)
  {
    hide QueueKey, Insert;
    var g := GetQueue(s, QueueKey(job));
    var items, item := g.queues[QueueKey(job)].blocked, Blocked(job, notBefore);
    forall i | 0 <= i < |Insert(items, item)|
      ensures QueueKey(Insert(items, item)[i].job) == QueueKey(job)
    {
      InsertIsExact(items, item, i);
    }
  }

  lemma PromotionAddsAtEnd(s: State, now: int, key: string)
    requires Valid(s) && InPlace(s)
    ensures InPlace(PromoteReady(s, now)) && ReadyIn(s, key) <= ReadyIn(PromoteReady(s, now), key)
  {
    hide QueueKey, PromoteQueue;
    forall k | k in s.queues
      ensures s.queues[k].ready <= PromoteQueue(s.queues[k], now).ready
      ensures forall i :: 0 <= i < |PromoteQueue(s.queues[k], now).ready| ==>
                QueueKey(PromoteQueue(s.queues[k], now).ready[i]) == k
      ensures forall i :: 0 <= i < |PromoteQueue(s.queues[k], now).blocked| ==>
                QueueKey(PromoteQueue(s.queues[k], now).blocked[i].job) == k
    {
      var q, r := s.queues[k], |s.queues[k].ready|;
      PromotionIsExact(q, now);
      forall i | 0 <= i < |PromoteQueue(q, now).ready|
        ensures QueueKey(PromoteQueue(q, now).ready[i]) == k
      {
        if i < r {
          assert PromoteQueue(q, now).ready[..r][i] == q.ready[i];
        }
      }
    }
  }

  lemma DispatchTakesFirst(s: State, key: string)
    requires Valid(s) && InPlace(s)
    ensures InPlace(NextReady(s).0)
    ensures ReadyIn(s, key) == DispatchedBy(s, Dispatch, key) + ReadyIn(NextReady(s).0, key)
  {
    hide QueueKey, Scan;
  }

  /** One step takes from the front of a queue's ready jobs and adds at their end. */
  lemma StepAddsAtEnd(s: State, e: Event, key: string)
    requires Valid(s) && InPlace(s)
    ensures InPlace(Apply(s, e)) && ReadyIn(s, key) <= DispatchedBy(s, e, key) + ReadyIn(Apply(s, e), key)
  {
    hide EnqueueReady, EnqueueBlocked, PromoteReady, NextReady, InPlace, ReadyIn, Valid;
    CursorBound(s);
    match e
    case Arrive(job) => ArrivalAddsAtEnd(s, job, key);
    case Block(job, notBefore) => BlockKeepsReady(s, job, notBefore, key);
    case Promote(now) => PromotionAddsAtEnd(s, now, key);
    case Dispatch => DispatchTakesFirst(s, key);
  }

  /** The jobs of a provider and model are dispatched in the order in which they became ready: those dispatched
      by a run, followed by those then ready, only ever grow at the end as the run goes on. */
  lemma {:induction false} FirstInFirstOut(s: State, events: seq<Event>, more: seq<Event>, key: string)
    requires Valid(s) && InPlace(s)
    ensures InPlace(ApplyAll(s, events))
    ensures var line := Dispatched(s, events, key) + ReadyIn(ApplyAll(s, events), key);
            && line <= Dispatched(s, events + more, key) + ReadyIn(ApplyAll(s, events + more), key)
            && forall i :: 0 <= i < |line| && i < |Dispatched(s, events + more, key)| ==>
                 Dispatched(s, events + more, key)[i] == line[i]
    decreases |events| + |more|
  {
    hide Apply, Valid, InPlace, ReadyIn, DispatchedBy;
    CursorBound(s);
    if events != [] {
      ApplyKeeps(s, events[0]);
      StepAddsAtEnd(s, events[0], key);
      var a := Apply(s, events[0]);
      FirstInFirstOut(a, events[1..], more, key);
      assert (events + more)[1..] == events[1..] + more;
      var line := Dispatched(a, events[1..], key) + ReadyIn(ApplyAll(a, events[1..]), key);
      LineAppend(DispatchedBy(s, events[0], key), line, Dispatched(a, events[1..] + more, key),
          ReadyIn(ApplyAll(a, events[1..] + more), key));
    } else if more != [] {
      assert events + more == more;
      ApplyKeeps(s, more[0]);
      StepAddsAtEnd(s, more[0], key);
      var a := Apply(s, more[0]);
      FirstInFirstOut(a, [], more[1..], key);
      assert [] + more[1..] == more[1..] && [] + ReadyIn(a, key) == ReadyIn(a, key);
      LineAppend(DispatchedBy(s, more[0], key), ReadyIn(a, key), Dispatched(a, more[1..], key),
          ReadyIn(ApplyAll(a, more[1..]), key));
    }
  }

  lemma LineAppend(first: seq<Job>, line: seq<Job>, dispatched: seq<Job>, ready: seq<Job>)
    requires line <= dispatched + ready
    ensures first + line <= first + dispatched + ready
  {
  }

  lemma CursorBound(s: State)
    requires Valid(s)
    ensures s.rrIndex < |s.order| || s.order == []
  {
  }

  lemma CursorInRange(s: State, p: nat)
    requires Valid(s) && p < |s.order|
    ensures s.rrIndex < |s.order|
  {
  }

  lemma DispatchIsNextReady(s: State)
    requires Valid(s)
    ensures Apply(s, Dispatch) == NextReady(s).0
  {
  }
}
