/** Batching Reserve and Complete calls over the local client, against one call at a time. */
module BatcherSpec {
  import opened Limits
  import L = Limiter

  datatype Request = ReserveCall(reserve: ReserveRequest) | CompleteCall(complete: CompleteRequest)

  /** A caller's request; `id` stands for the channels its answer goes to. */
  datatype Item = Item(id: nat, request: Request)

  datatype Answer = Reserved(reserved: ReserveResponse) | Done(done: CompleteResponse)

  datatype Reply = Reply(id: nat, answer: Answer)

  /** The backend, and how often the client has read its clock. */
  datatype World = World(backend: L.Backend, ticks: nat)

  /** One call on its own; `now(n)` is the clock's n-th reading. */
  ghost function Call(w: World, now: nat -> int, item: Item): (World, Reply) {
    match item.request
    case ReserveCall(req) =>
      var (b, res) := L.Reserve(w.backend, req, now(w.ticks));
      (World(b, w.ticks + 1), Reply(item.id, Reserved(res)))
    case CompleteCall(req) =>
      (World(L.Complete(w.backend, req), w.ticks), Reply(item.id, Done(CompleteResponse(true, ""))))
  }

  /** Calls one after the other. */
  ghost function CallEach(w: World, now: nat -> int, items: seq<Item>): (World, seq<Reply>) {
    if items == [] then (w, [])
    else
      var n := |items| - 1;
      var (v, replies) := CallEach(w, now, items[..n]);
      var (u, reply) := Call(v, now, items[n]);
      (u, replies + [reply])
  }

  lemma {:induction false} CallEachConcat(w: World, now: nat -> int, a: seq<Item>, b: seq<Item>)
    ensures var (v, first) := CallEach(w, now, a);
            var (u, second) := CallEach(v, now, b);
            CallEach(w, now, a + b) == (u, first + second)
  {
    hide Call;
    if b == [] {
      assert a + b == a;
      assert CallEach(w, now, a).1 + [] == CallEach(w, now, a).1;
    } else {
      var n := |b| - 1;
      CallEachConcat(w, now, a, b[..n]);
      assert (a + b)[..|a + b| - 1] == a + b[..n];
      var (v, first) := CallEach(w, now, a);
      var (x, part) := CallEach(v, now, b[..n]);
      var (u, reply) := Call(x, now, b[n]);
      assert first + (part + [reply]) == (first + part) + [reply];
    }
  }

  /** Each caller gets the one answer, in call order. */
  lemma {:induction false} CallEachAnswers(w: World, now: nat -> int, items: seq<Item>, i: nat)
    requires i < |items|
    ensures |CallEach(w, now, items).1| == |items| && CallEach(w, now, items).1[i].id == items[i].id
  {
    if i < |items| - 1 {
      CallEachAnswers(w, now, items[..|items| - 1], i);
    } else if i > 0 {
      CallEachAnswers(w, now, items[..|items| - 1], i - 1);
    }
  }

  function Reserves(items: seq<Item>): seq<Item> {
    if items == [] then []
    else
      var last := items[|items| - 1];
      Reserves(items[..|items| - 1]) + if last.request.ReserveCall? then [last] else []
  }

  function Completes(items: seq<Item>): seq<Item> {
    if items == [] then []
    else
      var last := items[|items| - 1];
      Completes(items[..|items| - 1]) + if last.request.CompleteCall? then [last] else []
  }

  /** The order in which a flush makes its calls. */
  function Ordered(items: seq<Item>): seq<Item> {
    Reserves(items) + Completes(items)
  }

  lemma {:induction false} OrderedIsPermutation(items: seq<Item>)
    ensures multiset(Ordered(items)) == multiset(items)
  {
    if items != [] {
      var n := |items| - 1;
      OrderedIsPermutation(items[..n]);
      assert items == items[..n] + [items[n]];
      PutLast(items[..n], items[n]);
    }
  }

  lemma PutLast(items: seq<Item>, last: Item)
    ensures multiset(Ordered(items + [last])) == multiset(Ordered(items)) + multiset{last}
  {
    assert (items + [last])[..|items|] == items;
    if last.request.ReserveCall? {
      assert Reserves(items + [last]) == Reserves(items) + [last];
      assert Completes(items + [last]) == Completes(items);
    } else {
      assert Reserves(items + [last]) == Reserves(items);
      assert Completes(items + [last]) == Completes(items) + [last];
    }
  }

  /** The call at position `i` is the item at `order[i]`, and every item is called once. */
  ghost predicate CallsInOrder(items: seq<Item>, calls: seq<Item>, order: seq<nat>) {
    && |order| == |calls| == |items|
    && (forall i :: 0 <= i < |order| ==> order[i] < |items| && calls[i] == items[order[i]])
    && (forall i, j :: 0 <= i < j < |order| ==> order[i] != order[j])
  }

  /** Of two items of one flush, which is called first: a reserve before a completion, else the one that stands
      first. */
  predicate Precedes(items: seq<Item>, p: nat, q: nat)
    requires p < |items| && q < |items|
  {
    if items[p].request.ReserveCall? == items[q].request.ReserveCall? then p < q else items[p].request.ReserveCall?
  }

  /** Where the items of one kind stand. */
  function Positions(items: seq<Item>, reserves: bool): (ps: seq<nat>)
    ensures forall i :: 0 <= i < |ps| ==> ps[i] < |items| && items[ps[i]].request.ReserveCall? == reserves
    ensures forall i, j :: 0 <= i < j < |ps| ==> ps[i] < ps[j]
  {
    if items == [] then []
    else
      var n := |items| - 1;
      Positions(items[..n], reserves) + if items[n].request.ReserveCall? == reserves then [n] else []
  }

  lemma {:induction false} PositionsStep(items: seq<Item>, last: Item, reserves: bool)
    ensures Positions(items + [last], reserves) ==
            Positions(items, reserves) + if last.request.ReserveCall? == reserves then [|items|] else []
  {
    assert (items + [last])[..|items|] == items;
  }

  lemma {:induction false} ReservePositions(items: seq<Item>)
    ensures |Positions(items, true)| == |Reserves(items)|
    ensures forall i :: 0 <= i < |Reserves(items)| ==> Reserves(items)[i] == items[Positions(items, true)[i]]
  {
    if items != [] {
      var n := |items| - 1;
      ReservePositions(items[..n]);
      PositionsStep(items[..n], items[n], true);
      assert items[..n] + [items[n]] == items;
      hide Positions;
    }
  }

  lemma {:induction false} CompletePositions(items: seq<Item>)
    ensures |Positions(items, false)| == |Completes(items)|
    ensures forall i :: 0 <= i < |Completes(items)| ==> Completes(items)[i] == items[Positions(items, false)[i]]
  {
    if items != [] {
      var n := |items| - 1;
      CompletePositions(items[..n]);
      PositionsStep(items[..n], items[n], false);
      assert items[..n] + [items[n]] == items;
      hide Positions;
    }
  }

  lemma {:induction false} OrderedLength(items: seq<Item>)
    ensures |Ordered(items)| == |items|
  {
    if items != [] {
      OrderedLength(items[..|items| - 1]);
    }
  }

  /** A flush calls every item once, reserves before completions, and those of one kind in the order in which they
      stand. */
  lemma FlushOrder(items: seq<Item>) returns (order: seq<nat>)
    ensures CallsInOrder(items, Ordered(items), order)
    ensures forall i, j :: 0 <= i < j < |order| ==> Precedes(items, order[i], order[j])
  {
    ReservePositions(items);
    CompletePositions(items);
    OrderedLength(items);
    order := Positions(items, true) + Positions(items, false);
  }

  // ---- Runs ----

  datatype State = State(world: World, pending: seq<Item>, flushes: seq<seq<Item>>, replies: seq<Reply>)

  datatype Event = Arrive(item: Item) | Tick

  ghost function Flushed(s: State, now: nat -> int): State {
    if s.pending == [] then s
    else
      var (w, replies) := CallEach(s.world, now, Ordered(s.pending));
      State(w, [], s.flushes + [s.pending], s.replies + replies)
  }

  ghost function Handled(s: State, now: nat -> int, maxBatch: int, e: Event): State {
    match e
    case Tick => Flushed(s, now)
    case Arrive(item) =>
      var t := s.(pending := s.pending + [item]);
      if |t.pending| >= maxBatch then Flushed(t, now) else t
  }

  ghost function HandledAll(w: World, now: nat -> int, maxBatch: int, events: seq<Event>): State {
    if events == [] then State(w, [], [], [])
    else Handled(HandledAll(w, now, maxBatch, events[..|events| - 1]), now, maxBatch, events[|events| - 1])
  }

  function Arrivals(events: seq<Event>): seq<Item> {
    if events == [] then []
    else
      var e := events[|events| - 1];
      Arrivals(events[..|events| - 1]) + if e.Arrive? then [e.item] else []
  }

  function Flat(flushes: seq<seq<Item>>): seq<Item> {
    if flushes == [] then [] else Flat(flushes[..|flushes| - 1]) + flushes[|flushes| - 1]
  }

  /** All calls of a run, in the order they are made. */
  function Schedule(flushes: seq<seq<Item>>): seq<Item> {
    if flushes == [] then [] else Schedule(flushes[..|flushes| - 1]) + Ordered(flushes[|flushes| - 1])
  }

  lemma {:induction false} ScheduleIsPermutation(flushes: seq<seq<Item>>)
    ensures multiset(Schedule(flushes)) == multiset(Flat(flushes))
  {
    if flushes != [] {
      ScheduleIsPermutation(flushes[..|flushes| - 1]);
      OrderedIsPermutation(flushes[|flushes| - 1]);
    }
  }

  /** No flush is over the limit, the arrivals are in the flushes and then pending, and the backend
      and the answers are those of the calls made one at a time. */
  ghost predicate Kept(s: State, w: World, now: nat -> int, maxBatch: int, events: seq<Event>) {
    && (forall i :: 0 <= i < |s.flushes| ==> |s.flushes[i]| <= maxBatch)
    && |s.pending| < maxBatch
    && Flat(s.flushes) + s.pending == Arrivals(events)
    && CallEach(w, now, Schedule(s.flushes)) == (s.world, s.replies)
  }

  lemma FlushKeeps(s: State, w: World, now: nat -> int, maxBatch: int, events: seq<Event>)
    requires 0 < maxBatch && forall i :: 0 <= i < |s.flushes| ==> |s.flushes[i]| <= maxBatch
    requires |s.pending| <= maxBatch && Flat(s.flushes) + s.pending == Arrivals(events)
    requires CallEach(w, now, Schedule(s.flushes)) == (s.world, s.replies)
    ensures Kept(Flushed(s, now), w, now, maxBatch, events) && Flushed(s, now).pending == []
  {
    hide Arrivals, Ordered, CallEach, Flat, Schedule;
    if s.pending != [] {
      OneMoreFlush(s.flushes, s.pending);
      CallEachConcat(w, now, Schedule(s.flushes), Ordered(s.pending));
      var f := Flushed(s, now);
      assert f.flushes == s.flushes + [s.pending] && Flat(f.flushes) + [] == Flat(f.flushes);
    }
  }

  lemma OneMoreFlush(flushes: seq<seq<Item>>, items: seq<Item>)
    ensures Flat(flushes + [items]) == Flat(flushes) + items
    ensures Schedule(flushes + [items]) == Schedule(flushes) + Ordered(items)
  {
    hide Ordered;
    assert (flushes + [items])[..|flushes|] == flushes;
  }

  lemma HandleKeeps(s: State, w: World, now: nat -> int, maxBatch: int, events: seq<Event>, e: Event)
    requires 0 < maxBatch && Kept(s, w, now, maxBatch, events)
    ensures Kept(Handled(s, now, maxBatch, e), w, now, maxBatch, events + [e])
  {
    hide Flushed, Flat, Schedule, CallEach;
    var after := events + [e];
    assert after[..|events|] == events;
    match e
    case Tick => FlushKeeps(s, w, now, maxBatch, after);
    case Arrive(item) =>
      var t := s.(pending := s.pending + [item]);
      assert Flat(t.flushes) + t.pending == Flat(s.flushes) + s.pending + [item];
      FlushKeeps(t, w, now, maxBatch, after);
  }

  lemma {:induction false} HandledKeeps(w: World, now: nat -> int, maxBatch: int, events: seq<Event>)
    requires 0 < maxBatch
    ensures Kept(HandledAll(w, now, maxBatch, events), w, now, maxBatch, events)
  {
    hide Kept, Handled;
    if events == [] {
      NothingIsKept(w, now, maxBatch);
    } else {
      var n := |events| - 1;
      HandledKeeps(w, now, maxBatch, events[..n]);
      HandleKeeps(HandledAll(w, now, maxBatch, events[..n]), w, now, maxBatch, events[..n], events[n]);
      assert events[..n] + [events[n]] == events;
    }
  }

  lemma NothingIsKept(w: World, now: nat -> int, maxBatch: int)
    requires 0 < maxBatch
    ensures Kept(State(w, [], [], []), w, now, maxBatch, [])
  {
  }

  /** However requests and ticks arrive, a stopped batcher has made, for every request that arrived,
      exactly one call, flush by flush, reserves before completes and each in queue order; the backend
      and every caller's one answer are those of making these calls one at a time; and no flush was
      over the limit. */
  lemma BatchingIsSequential(w: World, now: nat -> int, maxBatch: int, events: seq<Event>)
    requires 0 < maxBatch
    ensures var s := Flushed(HandledAll(w, now, maxBatch, events), now);
            && (forall i :: 0 <= i < |s.flushes| ==> |s.flushes[i]| <= maxBatch)
            && Flat(s.flushes) == Arrivals(events)
            && multiset(Schedule(s.flushes)) == multiset(Arrivals(events))
            && CallEach(w, now, Schedule(s.flushes)) == (s.world, s.replies)
            && |s.replies| == |Schedule(s.flushes)|
            && forall i :: 0 <= i < |s.replies| ==> s.replies[i].id == Schedule(s.flushes)[i].id
  {
    HandledKeeps(w, now, maxBatch, events);
    var h := HandledAll(w, now, maxBatch, events);
    hide HandledAll, Flushed, Arrivals, Schedule, Flat, CallEach;
    FlushKeeps(h, w, now, maxBatch, events);
    var s := Flushed(h, now);
    assert Flat(s.flushes) + [] == Flat(s.flushes);
    ScheduleIsPermutation(s.flushes);
    var calls := Schedule(s.flushes);
    if calls == [] {
      NoCalls(w, now);
    } else {
      CallEachAnswers(w, now, calls, 0);
      forall i | 0 <= i < |s.replies|
        ensures s.replies[i].id == calls[i].id
      {
        CallEachAnswers(w, now, calls, i);
      }
    }
  }

  lemma NoCalls(w: World, now: nat -> int)
    ensures CallEach(w, now, []) == (w, [])
  {
  }

  // ---- The order of the calls of a run ----

  /** The flush that takes the arrival at position `p`. */
  function FlushOf(flushes: seq<seq<Item>>, p: nat): (f: nat)
    requires p < |Flat(flushes)|
    ensures f < |flushes|
  {
    var n := |flushes| - 1;
    if p < |Flat(flushes[..n])| then FlushOf(flushes[..n], p) else n
  }

  /** Which of two arrivals is called first: by flush, and within one as `Precedes` says. */
  ghost predicate CalledFirst(flushes: seq<seq<Item>>, p: nat, q: nat)
    requires p < |Flat(flushes)| && q < |Flat(flushes)|
  {
    || FlushOf(flushes, p) < FlushOf(flushes, q)
    || (FlushOf(flushes, p) == FlushOf(flushes, q) && Precedes(Flat(flushes), p, q))
  }

  /** Earlier positions are in earlier flushes, or in the same. */
  lemma {:induction false} FlushesInOrder(flushes: seq<seq<Item>>, p: nat, q: nat)
    requires p <= q < |Flat(flushes)|
    ensures FlushOf(flushes, p) <= FlushOf(flushes, q)
  {
    var n := |flushes| - 1;
    if q < |Flat(flushes[..n])| {
      FlushesInOrder(flushes[..n], p, q);
    }
  }

  lemma {:induction false} ScheduleOrder(flushes: seq<seq<Item>>) returns (order: seq<nat>)
    ensures CallsInOrder(Flat(flushes), Schedule(flushes), order)
    ensures forall i, j :: 0 <= i < j < |order| ==> CalledFirst(flushes, order[i], order[j])
  {
    hide Ordered;
    order := [];
    if flushes != [] {
      var n := |flushes| - 1;
      var before := ScheduleOrder(flushes[..n]);
      var last := FlushOrder(flushes[n]);
      order := before + Shifted(last, |Flat(flushes[..n])|);
      OneMoreInOrder(flushes, before, last);
    }
  }

  function Shifted(order: seq<nat>, start: nat): (r: seq<nat>)
    ensures |r| == |order| && forall i :: 0 <= i < |order| ==> r[i] == order[i] + start
  {
    seq(|order|, i requires 0 <= i < |order| => order[i] + start)
  }

  lemma OneMoreInOrder(flushes: seq<seq<Item>>, before: seq<nat>, last: seq<nat>)
    requires flushes != []
    requires var n := |flushes| - 1;
             && CallsInOrder(Flat(flushes[..n]), Schedule(flushes[..n]), before)
             && CallsInOrder(flushes[n], Ordered(flushes[n]), last)
             && (forall i, j :: 0 <= i < j < |before| ==> CalledFirst(flushes[..n], before[i], before[j]))
             && (forall i, j :: 0 <= i < j < |last| ==> Precedes(flushes[n], last[i], last[j]))
    ensures var order := before + Shifted(last, |Flat(flushes[..|flushes| - 1])|);
            && CallsInOrder(Flat(flushes), Schedule(flushes), order)
            && forall i, j :: 0 <= i < j < |order| ==> CalledFirst(flushes, order[i], order[j])
  {
    hide Ordered, Precedes, CalledFirst;
    var n := |flushes| - 1;
    var some := Flat(flushes[..n]);
    var order := before + Shifted(last, |some|);
    assert Flat(flushes) == some + flushes[n] && Schedule(flushes) == Schedule(flushes[..n]) + Ordered(flushes[n]);
    hide Flat, Schedule;
    forall i, j | 0 <= i < j < |order|
      ensures CalledFirst(flushes, order[i], order[j])
    {
      if j < |before| {
        EarlierFlushes(flushes, before[i], before[j]);
      } else if i >= |before| {
        LastFlush(flushes, last[i - |before|], last[j - |before|]);
      } else {
        LastComesLast(flushes, before[i], last[j - |before|]);
      }
    }
  }

  lemma EarlierFlushes(flushes: seq<seq<Item>>, p: nat, q: nat)
    requires flushes != [] && p < |Flat(flushes[..|flushes| - 1])| && q < |Flat(flushes[..|flushes| - 1])|
    requires CalledFirst(flushes[..|flushes| - 1], p, q)
    ensures CalledFirst(flushes, p, q)
  {
  }

  lemma LastFlush(flushes: seq<seq<Item>>, p: nat, q: nat)
    requires flushes != [] && p < |flushes[|flushes| - 1]| && q < |flushes[|flushes| - 1]|
    requires Precedes(flushes[|flushes| - 1], p, q)
    ensures var start := |Flat(flushes[..|flushes| - 1])|; CalledFirst(flushes, p + start, q + start)
  {
  }

  lemma LastComesLast(flushes: seq<seq<Item>>, p: nat, q: nat)
    requires flushes != [] && p < |Flat(flushes[..|flushes| - 1])| && q < |flushes[|flushes| - 1]|
    ensures CalledFirst(flushes, p, q + |Flat(flushes[..|flushes| - 1])|)
  {
  }

  /** Over any run every arrival is called once: requests of one kind in the order in which they arrived, and a
      reserve overtakes a completion exactly when both are in one flush. */
  lemma CallsAreInOrder(w: World, now: nat -> int, maxBatch: int, events: seq<Event>) returns (order: seq<nat>)
    requires 0 < maxBatch
    ensures var s, arrivals := Flushed(HandledAll(w, now, maxBatch, events), now), Arrivals(events);
            && Flat(s.flushes) == arrivals && CallsInOrder(arrivals, Schedule(s.flushes), order)
            && CallEach(w, now, Schedule(s.flushes)) == (s.world, s.replies)
            && forall i, j :: 0 <= i < j < |order| ==>
                 if arrivals[order[i]].request.ReserveCall? == arrivals[order[j]].request.ReserveCall? then
                   order[i] < order[j]
                 else if arrivals[order[i]].request.ReserveCall? then
                   FlushOf(s.flushes, order[i]) <= FlushOf(s.flushes, order[j])
                 else
                   FlushOf(s.flushes, order[i]) < FlushOf(s.flushes, order[j])
  {
    hide HandledAll, Flushed, CallEach, Schedule, Flat, FlushOf;
    BatchingIsSequential(w, now, maxBatch, events);
    var s := Flushed(HandledAll(w, now, maxBatch, events), now);
    order := ScheduleOrder(s.flushes);
    forall i, j | 0 <= i < j < |order|
      ensures CalledFirst(s.flushes, order[i], order[j])
      ensures order[j] < order[i] ==> FlushOf(s.flushes, order[j]) <= FlushOf(s.flushes, order[i])
    {
      if order[j] < order[i] {
        FlushesInOrder(s.flushes, order[j], order[i]);
      }
    }
  }

  // ---- When a flush is made ----

  /** A flush is of full size, or it is what was pending at a tick. */
  ghost predicate FullOrTicked(flushes: seq<seq<Item>>, maxBatch: int, events: seq<Event>, f: nat)
    requires f < |flushes|
  {
    || |flushes[f]| == maxBatch
    || exists n :: 0 <= n < |events| && events[n].Tick? && Arrivals(events[..n]) == Flat(flushes[..f + 1])
  }

  ghost predicate AllFullOrTicked(flushes: seq<seq<Item>>, maxBatch: int, events: seq<Event>) {
    forall f :: 0 <= f < |flushes| ==> FullOrTicked(flushes, maxBatch, events, f)
  }

  /** Nothing is sent before its time, and nothing waits past it. */
  lemma {:induction false} FlushesWhenFullOrTicked(w: World, now: nat -> int, maxBatch: int, events: seq<Event>)
    requires 0 < maxBatch
    ensures var s := HandledAll(w, now, maxBatch, events);
            && AllFullOrTicked(s.flushes, maxBatch, events)
            && |s.pending| < maxBatch && (events != [] && events[|events| - 1].Tick? ==> s.pending == [])
  {
    hide CallEach, Ordered, FullOrTicked;
    HandledKeeps(w, now, maxBatch, events);
    if events != [] {
      var n := |events| - 1;
      FlushesWhenFullOrTicked(w, now, maxBatch, events[..n]);
      HandledKeeps(w, now, maxBatch, events[..n]);
      StepIsFullOrTicked(HandledAll(w, now, maxBatch, events[..n]), w, now, maxBatch, events);
    }
  }

  lemma StepIsFullOrTicked(s: State, w: World, now: nat -> int, maxBatch: int, events: seq<Event>)
    requires 0 < maxBatch && events != [] && Kept(s, w, now, maxBatch, events[..|events| - 1])
    requires AllFullOrTicked(s.flushes, maxBatch, events[..|events| - 1])
    ensures var t := Handled(s, now, maxBatch, events[|events| - 1]);
            && AllFullOrTicked(t.flushes, maxBatch, events)
            && (events[|events| - 1].Tick? ==> t.pending == [])
  {
    hide CallEach, Ordered, Schedule, Arrivals, Flat;
    var n := |events| - 1;
    var t := Handled(s, now, maxBatch, events[n]);
    assert t.flushes == s.flushes || t.flushes[..|s.flushes|] == s.flushes;
    forall f | 0 <= f < |s.flushes|
      ensures FullOrTicked(t.flushes, maxBatch, events, f)
    {
      assert t.flushes[..f + 1] == s.flushes[..f + 1] && FullOrTicked(s.flushes, maxBatch, events[..n], f);
      if |s.flushes[f]| != maxBatch {
        var m :| 0 <= m < n && events[..n][m].Tick? && Arrivals(events[..n][..m]) == Flat(s.flushes[..f + 1]);
        assert events[..m] == events[..n][..m];
      }
    }
    if |t.flushes| > |s.flushes| && events[n].Tick? {
      TickTakesAll(s, w, now, maxBatch, events);
    }
  }

  lemma TickTakesAll(s: State, w: World, now: nat -> int, maxBatch: int, events: seq<Event>)
    requires events != [] && events[|events| - 1].Tick? && Kept(s, w, now, maxBatch, events[..|events| - 1])
    requires s.pending != []
    ensures var t := Flushed(s, now); FullOrTicked(t.flushes, maxBatch, events, |s.flushes|)
  {
    hide CallEach, Ordered, Schedule;
    var t := Flushed(s, now);
    assert t.flushes[..|s.flushes|] == s.flushes && t.flushes[..|s.flushes| + 1] == t.flushes;
  }
}
