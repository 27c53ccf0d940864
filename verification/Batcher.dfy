/** The local client and the batcher as the program keeps them. */
module Batcher {
  import opened Wrappers
  import opened Limits
  import opened Spec = BatcherSpec
  import Memory = MemoryBackend

  /** The local client: the in-memory backend and a clock, whose n-th reading is `now(n)`. */
  class Client {
    const backend: Memory.Backend
    const now: nat -> int
    var ticks: nat

    ghost predicate Valid()
      reads this, backend, backend.rollRepr, backend.concRepr
    {
      backend.Valid() && this !in backend.rollRepr && this !in backend.concRepr
    }

    ghost function Model(): World
      reads this, backend
    {
      World(backend.Model(), ticks)
    }

    constructor (backend: Memory.Backend, now: nat -> int)
      requires backend.Valid()
      ensures Valid() && this.backend == backend && this.now == now && ticks == 0
    {
      this.backend := backend;
      this.now := now;
      ticks := 0;
    }

    method Reserve(req: ReserveRequest) returns (res: ReserveResponse)
      requires Valid()
      modifies this, backend, backend.rollRepr, backend.concRepr
      ensures Valid() && fresh(backend.rollRepr - old(backend.rollRepr))
      ensures fresh(backend.concRepr - old(backend.concRepr))
      ensures forall id :: Call(old(Model()), now, Item(id, ReserveCall(req))) == (Model(), Reply(id, Reserved(res)))
    {
      var t := now(ticks);
      ticks := ticks + 1;
      res := backend.Reserve(req, Some(t), t);
    }

    method Complete(req: CompleteRequest) returns (res: CompleteResponse)
      requires Valid()
      modifies backend, backend.rollRepr, backend.concRepr
      ensures Valid() && backend.rollRepr == old(backend.rollRepr) && backend.concRepr == old(backend.concRepr)
      ensures forall id :: Call(old(Model()), now, Item(id, CompleteCall(req))) == (Model(), Reply(id, Done(res)))
    {
      res := backend.Complete(req);
    }

    /** Reserves one request after the other. */
    method BatchReserve(items: seq<Item>) returns (results: seq<ReserveResponse>)
      requires Valid() && forall i :: 0 <= i < |items| ==> items[i].request.ReserveCall?
      modifies this, backend, backend.rollRepr, backend.concRepr
      ensures Valid() && fresh(backend.rollRepr - old(backend.rollRepr))
      ensures fresh(backend.concRepr - old(backend.concRepr))
      ensures |results| == |items|
      ensures CallEach(old(Model()), now, items) ==
                (Model(), ReserveReplies(items, results))
    {
      hide Call;
      results := [];
      NoCalls(Model(), now);
      assert items[..0] == [] && ReserveReplies(items[..0], results) == [];
      for n := 0 to |items|
        invariant Valid() && |results| == n
        invariant fresh(backend.rollRepr - old(backend.rollRepr)) && fresh(backend.concRepr - old(backend.concRepr))
        invariant CallEach(old(Model()), now, items[..n]) ==
                    (Model(), ReserveReplies(items[..n], results))
      {
        ghost var before := ReserveReplies(items[..n], results);
        var res := Reserve(items[n].request.reserve);
        assert items[n] == Item(items[n].id, ReserveCall(items[n].request.reserve));
        assert items[..n + 1][..n] == items[..n];
        results := results + [res];
        assert ReserveReplies(items[..n + 1], results) == before + [Reply(items[n].id, Reserved(res))];
      }
      assert items[..|items|] == items;
    }

    /** Completes one request after the other. */
    method BatchComplete(items: seq<Item>) returns (results: seq<CompleteResponse>)
      requires Valid() && forall i :: 0 <= i < |items| ==> items[i].request.CompleteCall?
      modifies backend, backend.rollRepr, backend.concRepr
      ensures Valid() && backend.rollRepr == old(backend.rollRepr) && backend.concRepr == old(backend.concRepr)
      ensures |results| == |items|
      ensures CallEach(old(Model()), now, items) ==
                (Model(), CompleteReplies(items, results))
    {
      hide Call;
      results := [];
      NoCalls(Model(), now);
      assert items[..0] == [] && CompleteReplies(items[..0], results) == [];
      for n := 0 to |items|
        invariant Valid() && |results| == n && backend.rollRepr == old(backend.rollRepr)
        invariant backend.concRepr == old(backend.concRepr)
        invariant CallEach(old(Model()), now, items[..n]) ==
                    (Model(), CompleteReplies(items[..n], results))
      {
        ghost var before := CompleteReplies(items[..n], results);
        var res := Complete(items[n].request.complete);
        assert items[n] == Item(items[n].id, CompleteCall(items[n].request.complete));
        assert items[..n + 1][..n] == items[..n];
        results := results + [res];
        assert CompleteReplies(items[..n + 1], results) == before + [Reply(items[n].id, Done(res))];
      }
      assert items[..|items|] == items;
    }
  }

  /** The replies that carry these results to the callers. */
  function ReserveReplies(items: seq<Item>, results: seq<ReserveResponse>): seq<Reply>
    requires |results| == |items|
  {
    seq(|items|, i requires 0 <= i < |items| => Reply(items[i].id, Reserved(results[i])))
  }

  function CompleteReplies(items: seq<Item>, results: seq<CompleteResponse>): seq<Reply>
    requires |results| == |items|
  {
    seq(|items|, i requires 0 <= i < |items| => Reply(items[i].id, Done(results[i])))
  }

  method PickReserves(items: seq<Item>) returns (picked: seq<Item>)
    ensures picked == Reserves(items) && forall i :: 0 <= i < |picked| ==> picked[i].request.ReserveCall?
  {
    picked := [];
    for n := 0 to |items|
      invariant picked == Reserves(items[..n])
      invariant forall i :: 0 <= i < |picked| ==> picked[i].request.ReserveCall?
    {
      assert items[..n + 1][..n] == items[..n];
      if items[n].request.ReserveCall? {
        picked := picked + [items[n]];
      }
    }
    assert items[..|items|] == items;
  }

  method PickCompletes(items: seq<Item>) returns (picked: seq<Item>)
    ensures picked == Completes(items) && forall i :: 0 <= i < |picked| ==> picked[i].request.CompleteCall?
  {
    picked := [];
    for n := 0 to |items|
      invariant picked == Completes(items[..n])
      invariant forall i :: 0 <= i < |picked| ==> picked[i].request.CompleteCall?
    {
      assert items[..n + 1][..n] == items[..n];
      if items[n].request.CompleteCall? {
        picked := picked + [items[n]];
      }
    }
    assert items[..|items|] == items;
  }

  class Batcher {
    const client: Client
    const maxBatch: int
    var pending: seq<Item>
    /** What was sent to the callers, in order. */
    var replies: seq<Reply>
    ghost var flushes: seq<seq<Item>>

    ghost predicate Valid()
      reads this, client, client.backend, client.backend.rollRepr, client.backend.concRepr
    {
      && client.Valid() && 0 < maxBatch
      && this !in client.backend.rollRepr && this !in client.backend.concRepr
    }

    ghost function Model(): State
      reads this, client, client.backend
    {
      State(client.Model(), pending, flushes, replies)
    }

    constructor (client: Client, maxBatch: int)
      requires client.Valid()
      ensures Valid() && this.client == client && this.maxBatch == (if maxBatch <= 0 then 1 else maxBatch)
      ensures Model() == State(client.Model(), [], [], [])
    {
      this.client := client;
      this.maxBatch := if maxBatch <= 0 then 1 else maxBatch;
      pending, replies, flushes := [], [], [];
    }

    method FlushReserve(items: seq<Item>)
      requires Valid() && forall i :: 0 <= i < |items| ==> items[i].request.ReserveCall?
      modifies this`replies, client, client.backend, client.backend.rollRepr, client.backend.concRepr
      ensures Valid()
      ensures fresh(client.backend.rollRepr - old(client.backend.rollRepr))
      ensures fresh(client.backend.concRepr - old(client.backend.concRepr))
      ensures CallEach(old(client.Model()), client.now, items).0 == client.Model()
      ensures replies == old(replies) + CallEach(old(client.Model()), client.now, items).1
    {
      hide CallEach;
      var results := client.BatchReserve(items);
      AnswerReserves(items, results);
    }

    method AnswerReserves(items: seq<Item>, results: seq<ReserveResponse>)
      requires |results| == |items|
      modifies this`replies
      ensures replies == old(replies) + ReserveReplies(items, results)
    {
      for i := 0 to |items|
        invariant replies == old(replies) + ReserveReplies(items, results)[..i]
      {
        replies := replies + [Reply(items[i].id, Reserved(results[i]))];
      }
    }

    method FlushComplete(items: seq<Item>)
      requires Valid() && forall i :: 0 <= i < |items| ==> items[i].request.CompleteCall?
      modifies this`replies, client.backend, client.backend.rollRepr, client.backend.concRepr
      ensures Valid()
      ensures client.backend.rollRepr == old(client.backend.rollRepr)
      ensures client.backend.concRepr == old(client.backend.concRepr)
      ensures CallEach(old(client.Model()), client.now, items).0 == client.Model()
      ensures replies == old(replies) + CallEach(old(client.Model()), client.now, items).1
    {
      hide CallEach;
      var results := client.BatchComplete(items);
      AnswerCompletes(items, results);
    }

    method AnswerCompletes(items: seq<Item>, results: seq<CompleteResponse>)
      requires |results| == |items|
      modifies this`replies
      ensures replies == old(replies) + CompleteReplies(items, results)
    {
      for i := 0 to |items|
        invariant replies == old(replies) + CompleteReplies(items, results)[..i]
      {
        replies := replies + [Reply(items[i].id, Done(results[i]))];
      }
    }

    /** Dispatches the pending items, reserves first, and answers every caller. */
    method Flush()
      requires Valid()
      modifies this, client, client.backend, client.backend.rollRepr, client.backend.concRepr
      ensures Valid()
      ensures fresh(client.backend.rollRepr - old(client.backend.rollRepr))
      ensures fresh(client.backend.concRepr - old(client.backend.concRepr))
      ensures Model() == Flushed(old(Model()), client.now)
    {
      hide CallEach, Reserves, Completes, Memory.Backend.Valid;
      if |pending| == 0 {
        return;
      }
      var items := pending;
      ghost var w := client.Model();
      pending := [];
      flushes := flushes + [items];
      var reserveItems := PickReserves(items);
      var completeItems := PickCompletes(items);
      CallEachConcat(w, client.now, reserveItems, completeItems);
      NoCalls(w, client.now);
      if |reserveItems| > 0 {
        FlushReserve(reserveItems);
      }
      NoCalls(client.Model(), client.now);
      if |completeItems| > 0 {
        FlushComplete(completeItems);
      }
    }

    method Handle(e: Event)
      requires Valid()
      modifies this, client, client.backend, client.backend.rollRepr, client.backend.concRepr
      ensures Valid()
      ensures fresh(client.backend.rollRepr - old(client.backend.rollRepr))
      ensures fresh(client.backend.concRepr - old(client.backend.concRepr))
      ensures Model() == Handled(old(Model()), client.now, maxBatch, e)
    {
      hide Flushed;
      match e
      case Tick => Flush();
      case Arrive(item) =>
        pending := pending + [item];
        if |pending| >= maxBatch {
          Flush();
        }
    }

    /** The batcher's loop over the events until it is stopped. */
    method Run(events: seq<Event>)
      requires Valid() && pending == [] && flushes == [] && replies == []
      modifies this, client, client.backend, client.backend.rollRepr, client.backend.concRepr
      ensures Valid()
      ensures Model() == Flushed(HandledAll(old(client.Model()), client.now, maxBatch, events), client.now)
    {
      hide Handled, Flushed;
      for n := 0 to |events|
        invariant Valid()
        invariant fresh(client.backend.rollRepr - old(client.backend.rollRepr))
        invariant fresh(client.backend.concRepr - old(client.backend.concRepr))
        invariant Model() == HandledAll(old(client.Model()), client.now, maxBatch, events[..n])
      {
        assert events[..n + 1][..n] == events[..n];
        Handle(events[n]);
      }
      assert events[..|events|] == events;
      Flush();
    }
  }
}
