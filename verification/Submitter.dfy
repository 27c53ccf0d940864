/** The transfer batcher in front of the accounting service, and the linked chains it must keep whole. */
module Submitter {
  import opened Wrappers
  import opened Limits

  datatype Shape = Pending | Void | Posted

  /** A transfer: what it does, for which lease and limit, and whether it is linked to the next one. */
  datatype Transfer = Transfer(shape: Shape, lease: string, key: string, amount: nat, timeout: int, linked: bool)

  /** `room` says whether the channel for the answer can take one without blocking. */
  datatype WorkItem = WorkItem(id: nat, transfers: seq<Transfer>, room: bool)

  /** What the service says about a batch: a failure, or error codes by position. */
  datatype Outcome = Failed(error: string) | Reported(results: seq<(nat, int)>)

  datatype WorkResult = Error(error: string) | Errors(codes: map<nat, int>)

  /** An answer without room for it is dropped. */
  datatype Reply = Reply(id: nat, result: WorkResult, delivered: bool)

  const TOO_LARGE := "work item exceeds max batch size"

  // ---- What a batch should be ----

  function Transfers(items: seq<WorkItem>): seq<Transfer> {
    if items == [] then [] else Transfers(items[..|items| - 1]) + items[|items| - 1].transfers
  }

  /** The error code last reported for a position. */
  function CodeAt(results: seq<(nat, int)>, index: nat): Option<int> {
    if results == [] then None
    else if results[|results| - 1].0 == index then Some(results[|results| - 1].1)
    else CodeAt(results[..|results| - 1], index)
  }

  /** The answer that is the item's own: the failure of its batch, or the codes of its own transfers,
      numbered from its first. */
  function OwnResult(outcome: Outcome, start: nat, item: WorkItem): WorkResult {
    match outcome
    case Failed(error) => Error(error)
    case Reported(results) =>
      Errors(CodesIn(results, start, |item.transfers|))
  }

  /** The codes reported for the `n` positions from `start` on, numbered from zero. */
  function CodesIn(results: seq<(nat, int)>, start: nat, n: nat): (codes: map<nat, int>)
    ensures forall i: nat :: i in codes <==> i < n && CodeAt(results, start + i).Some?
    ensures forall i: nat :: i in codes ==> CodeAt(results, start + i) == Some(codes[i])
  {
    if n == 0 then map[]
    else
      var codes := CodesIn(results, start, n - 1);
      match CodeAt(results, start + (n - 1))
      case None => codes
      case Some(code) => codes[n - 1 := code]
  }

  /** One answer per item of a batch, in order. */
  function Replies(items: seq<WorkItem>, outcome: Outcome): seq<Reply> {
    if items == [] then []
    else
      var last := items[|items| - 1];
      Replies(items[..|items| - 1], outcome) +
          [Reply(last.id, OwnResult(outcome, |Transfers(items[..|items| - 1])|, last), last.room)]
  }

  /** Each answer is about the item's own transfers, which the batch holds whole and in place. */
  lemma {:induction false} RepliesAreOwn(items: seq<WorkItem>, outcome: Outcome, p: nat)
    requires p < |items|
    ensures |Replies(items, outcome)| == |items|
    ensures var start := |Transfers(items[..p])|;
            && Replies(items, outcome)[p] == Reply(items[p].id, OwnResult(outcome, start, items[p]), items[p].room)
            && start + |items[p].transfers| <= |Transfers(items)|
            && Transfers(items)[start..start + |items[p].transfers|] == items[p].transfers
  {
    hide OwnResult;
    ItemIsWhole(items, p);
    hide Transfers;
    var n := |items| - 1;
    if p < n {
      RepliesAreOwn(items[..n], outcome, p);
      assert items[..n][..p] == items[..p];
    } else if n > 0 {
      RepliesAreOwn(items[..n], outcome, n - 1);
    }
  }

  /** A batch holds the transfers of an item together, after those of the items before it. */
  lemma {:induction false} ItemIsWhole(items: seq<WorkItem>, p: nat)
    requires p < |items|
    ensures var start := |Transfers(items[..p])|;
            && start + |items[p].transfers| <= |Transfers(items)|
            && Transfers(items)[start..start + |items[p].transfers|] == items[p].transfers
  {
    var n := |items| - 1;
    if p < n {
      ItemIsWhole(items[..n], p);
      assert items[..n][..p] == items[..p];
      var before, last := Transfers(items[..n]), items[n].transfers;
      assert Transfers(items) == before + last;
      var start, end := |Transfers(items[..p])|, |Transfers(items[..p])| + |items[p].transfers|;
      assert (before + last)[start..end] == before[start..end];
    }
  }

  lemma OneMoreReply(items: seq<WorkItem>, outcome: Outcome)
    ensures items == [] ==> Replies(items, outcome) == []
    ensures items != [] ==>
              var n := |items| - 1;
              Replies(items, outcome) ==
              Replies(items[..n], outcome)
              + [Reply(items[n].id, OwnResult(outcome, |Transfers(items[..n])|, items[n]), items[n].room)]
  {
  }

  // ---- Batching ----

  /** `groups[i]` went out as one batch, to which the service said `outcomes[i]`. */
  datatype State = State(pending: seq<WorkItem>, groups: seq<seq<WorkItem>>, outcomes: seq<Outcome>,
      replies: seq<Reply>)

  const EMPTY := State([], [], [], [])

  datatype Event = Arrive(item: WorkItem) | Tick

  /** An event and what the service would say to the one or two batches it may send. */
  datatype Input = Input(event: Event, first: Outcome, second: Outcome)

  function Flushed(s: State, outcome: Outcome): State {
    if s.pending == [] then s
    else State([], s.groups + [s.pending], s.outcomes + [outcome], s.replies + Replies(s.pending, outcome))
  }

  function Handled(s: State, maxEvents: int, input: Input): State {
    match input.event
    case Tick => Flushed(s, input.first)
    case Arrive(item) =>
      if |item.transfers| > maxEvents then
        s.(replies := s.replies + [Reply(item.id, Error(TOO_LARGE), item.room)])
      else
        var f := if s.pending != [] && |Transfers(s.pending)| + |item.transfers| > maxEvents then
                   Flushed(s, input.first)
                 else s;
        var t := f.(pending := f.pending + [item]);
        if |Transfers(t.pending)| >= maxEvents then Flushed(t, input.second) else t
  }

  function HandledAll(maxEvents: int, inputs: seq<Input>): State {
    if inputs == [] then EMPTY
        else Handled(HandledAll(maxEvents, inputs[..|inputs| - 1]), maxEvents, inputs[|inputs| - 1])
  }

  /** The items that fit a batch, in order of arrival. */
  function Taken(maxEvents: int, inputs: seq<Input>): seq<WorkItem> {
    if inputs == [] then []
    else
      var e := inputs[|inputs| - 1].event;
      Taken(maxEvents, inputs[..|inputs| - 1]) + if e.Arrive? && |e.item.transfers| <= maxEvents then [e.item] else []
  }

  /** The answers to the items that do not. */
  function Rejections(maxEvents: int, inputs: seq<Input>): seq<Reply> {
    if inputs == [] then []
    else
      var e := inputs[|inputs| - 1].event;
      Rejections(maxEvents, inputs[..|inputs| - 1])
      + if e.Arrive? && |e.item.transfers| > maxEvents then [Reply(e.item.id, Error(TOO_LARGE), e.item.room)] else []
  }

  function Flat(groups: seq<seq<WorkItem>>): seq<WorkItem> {
    if groups == [] then [] else Flat(groups[..|groups| - 1]) + groups[|groups| - 1]
  }

  function GroupReplies(groups: seq<seq<WorkItem>>, outcomes: seq<Outcome>): seq<Reply>
    requires |groups| == |outcomes|
  {
    if groups == [] then []
    else
      var n := |groups| - 1;
      GroupReplies(groups[..n], outcomes[..n]) + Replies(groups[n], outcomes[n])
  }

  /** No batch is over the limit, the items taken are in the groups and then pending, whole and in
      order, and what was answered is each group's own answers and the rejections. */
  ghost predicate Kept(s: State, maxEvents: int, inputs: seq<Input>) {
    && |s.groups| == |s.outcomes|
    && (forall i :: 0 <= i < |s.groups| ==> s.groups[i] != [] && |Transfers(s.groups[i])| <= maxEvents)
    && (s.pending != [] ==> |Transfers(s.pending)| < maxEvents)
    && Flat(s.groups) + s.pending == Taken(maxEvents, inputs)
    && multiset(s.replies) == multiset(GroupReplies(s.groups, s.outcomes)) + multiset(Rejections(maxEvents, inputs))
  }

  lemma FlushKeeps(s: State, maxEvents: int, inputs: seq<Input>, outcome: Outcome)
    requires |s.groups| == |s.outcomes|
    requires forall i :: 0 <= i < |s.groups| ==> s.groups[i] != [] && |Transfers(s.groups[i])| <= maxEvents
    requires s.pending != [] ==> |Transfers(s.pending)| <= maxEvents
    requires Flat(s.groups) + s.pending == Taken(maxEvents, inputs)
    requires multiset(s.replies) == multiset(GroupReplies(s.groups, s.outcomes)) +
        multiset(Rejections(maxEvents, inputs))
    ensures Kept(Flushed(s, outcome), maxEvents, inputs) && Flushed(s, outcome).pending == []
  {
    hide Taken, Rejections, Replies;
    var f := Flushed(s, outcome);
    if s.pending != [] {
      var n := |s.groups|;
      assert f.groups[..n] == s.groups && f.outcomes[..n] == s.outcomes;
      assert Flat(f.groups) == Flat(s.groups) + s.pending;
      assert multiset(f.replies) == multiset(s.replies) + multiset(Replies(s.pending, outcome));
      assert multiset(GroupReplies(f.groups, f.outcomes)) == multiset(GroupReplies(s.groups, s.outcomes)) +
          multiset(Replies(s.pending, outcome));
    }
  }

  lemma TransfersAppend(items: seq<WorkItem>, item: WorkItem)
    ensures Transfers(items + [item]) == Transfers(items) + item.transfers
  {
    assert (items + [item])[..|items|] == items;
  }

  lemma HandleKeeps(s: State, maxEvents: int, inputs: seq<Input>, input: Input)
    requires Kept(s, maxEvents, inputs)
    ensures Kept(Handled(s, maxEvents, input), maxEvents, inputs + [input])
  {
    hide Flushed, Transfers, Replies, Flat, GroupReplies;
    var after := inputs + [input];
    assert after[..|inputs|] == inputs;
    match input.event
    case Tick =>
      assert Taken(maxEvents, after) == Taken(maxEvents, inputs) &&
             Rejections(maxEvents, after) == Rejections(maxEvents, inputs);
      FlushKeeps(s, maxEvents, after, input.first);
    case Arrive(item) =>
      if |item.transfers| > maxEvents {
        assert Taken(maxEvents, after) == Taken(maxEvents, inputs);
      } else {
        FlushKeeps(s, maxEvents, inputs, input.first);
        ArriveKeeps(s, maxEvents, inputs, input);
      }
  }

  lemma ArriveKeeps(s: State, maxEvents: int, inputs: seq<Input>, input: Input)
    requires Kept(s, maxEvents, inputs) && Kept(Flushed(s, input.first), maxEvents, inputs)
    requires Flushed(s, input.first).pending == []
    requires input.event.Arrive? && |input.event.item.transfers| <= maxEvents
    ensures Kept(Handled(s, maxEvents, input), maxEvents, inputs + [input])
  {
    hide Flushed, Replies, Flat, GroupReplies, Transfers;
    var item, after := input.event.item, inputs + [input];
    assert after[..|inputs|] == inputs;
    var f := if s.pending != [] && |Transfers(s.pending)| + |item.transfers| > maxEvents then
               Flushed(s, input.first)
             else s;
    var t := f.(pending := f.pending + [item]);
    TransfersAppend(f.pending, item);
    NoTransfers();
    assert Flat(t.groups) + t.pending == (Flat(f.groups) + f.pending) + [item];
    assert Taken(maxEvents, after) == Taken(maxEvents, inputs) + [item];
    assert Rejections(maxEvents, after) == Rejections(maxEvents, inputs);
    FlushKeeps(t, maxEvents, after, input.second);
  }

  lemma NoTransfers()
    ensures Transfers([]) == []
  {
  }

  lemma {:induction false} HandledKeeps(maxEvents: int, inputs: seq<Input>)
    ensures Kept(HandledAll(maxEvents, inputs), maxEvents, inputs)
  {
    hide Kept, Handled;
    if inputs == [] {
      EmptyIsKept(maxEvents);
    } else {
      var n := |inputs| - 1;
      HandledKeeps(maxEvents, inputs[..n]);
      HandleKeeps(HandledAll(maxEvents, inputs[..n]), maxEvents, inputs[..n], inputs[n]);
      assert inputs[..n] + [inputs[n]] == inputs;
    }
  }

  lemma EmptyIsKept(maxEvents: int)
    ensures Kept(EMPTY, maxEvents, [])
  {
  }

  /** For any arrivals, ticks and outcomes: once the submitter has been stopped, every batch sent was
      within the limit, the groups are exactly the items taken, whole and in order, and every item
      was answered exactly once, with its own part of its batch's outcome or with the rejection. */
  lemma EveryItemAnsweredOnce(maxEvents: int, inputs: seq<Input>, last: Outcome)
    ensures var s := Flushed(HandledAll(maxEvents, inputs), last);
            && s.pending == [] && |s.groups| == |s.outcomes|
            && (forall i :: 0 <= i < |s.groups| ==> |Transfers(s.groups[i])| <= maxEvents)
            && Flat(s.groups) == Taken(maxEvents, inputs)
            && multiset(s.replies) == multiset(GroupReplies(s.groups, s.outcomes)) +
                multiset(Rejections(maxEvents, inputs))
  {
    HandledKeeps(maxEvents, inputs);
    var h := HandledAll(maxEvents, inputs);
    hide Flushed, Taken, Rejections, GroupReplies, Flat, HandledAll, Transfers;
    FlushKeeps(h, maxEvents, inputs, last);
    assert Flat(Flushed(h, last).groups) + [] == Flat(Flushed(h, last).groups);
  }

  lemma {:induction false} TakenArrived(maxEvents: int, inputs: seq<Input>, item: WorkItem)
    requires item in Taken(maxEvents, inputs)
    ensures exists i :: 0 <= i < |inputs| && inputs[i].event == Arrive(item)
  {
    var n := |inputs| - 1;
    if item in Taken(maxEvents, inputs[..n]) {
      TakenArrived(maxEvents, inputs[..n], item);
      var i :| 0 <= i < n && inputs[..n][i].event == Arrive(item);
      assert inputs[i].event == Arrive(item);
    } else {
      assert inputs[n].event == Arrive(item);
    }
  }

  lemma {:induction false} GroupIsFlat(groups: seq<seq<WorkItem>>, g: nat)
    requires g < |groups|
    ensures forall item :: item in groups[g] ==> item in Flat(groups)
  {
    if g < |groups| - 1 {
      GroupIsFlat(groups[..|groups| - 1], g);
    }
  }

  /** Whatever every arriving item has, every item of every batch has. */
  lemma GroupsArrived(maxEvents: int, inputs: seq<Input>, last: Outcome, g: nat, item: WorkItem)
    requires g < |Flushed(HandledAll(maxEvents, inputs), last).groups|
    requires item in Flushed(HandledAll(maxEvents, inputs), last).groups[g]
    ensures exists i :: 0 <= i < |inputs| && inputs[i].event == Arrive(item)
  {
    hide Flushed, HandledAll, Flat, Taken;
    EveryItemAnsweredOnce(maxEvents, inputs, last);
    GroupIsFlat(Flushed(HandledAll(maxEvents, inputs), last).groups, g);
    TakenArrived(maxEvents, inputs, item);
  }

  /** When the channels have room, no answer is dropped. */
  lemma EveryAnswerIsDelivered(maxEvents: int, inputs: seq<Input>, last: Outcome)
    requires forall i :: 0 <= i < |inputs| && inputs[i].event.Arrive? ==> inputs[i].event.item.room
    ensures forall r :: r in Flushed(HandledAll(maxEvents, inputs), last).replies ==> r.delivered
  {
    hide Flushed, HandledAll, Flat, Taken, Transfers;
    var s := Flushed(HandledAll(maxEvents, inputs), last);
    EveryItemAnsweredOnce(maxEvents, inputs, last);
    forall g, item | 0 <= g < |s.groups| && item in s.groups[g]
      ensures item.room
    {
      GroupsArrived(maxEvents, inputs, last, g, item);
    }
    GroupRepliesDelivered(s.groups, s.outcomes);
    RejectionsDelivered(maxEvents, inputs);
    forall r | r in s.replies
      ensures r.delivered
    {
      assert r in multiset(s.replies);
    }
  }

  lemma {:induction false} GroupRepliesDelivered(groups: seq<seq<WorkItem>>, outcomes: seq<Outcome>)
    requires |groups| == |outcomes| && forall g, item :: 0 <= g < |groups| && item in groups[g] ==> item.room
    ensures forall r :: r in GroupReplies(groups, outcomes) ==> r.delivered
  {
    if groups != [] {
      var n := |groups| - 1;
      GroupRepliesDelivered(groups[..n], outcomes[..n]);
      forall p | 0 <= p < |Replies(groups[n], outcomes[n])|
        ensures Replies(groups[n], outcomes[n])[p].delivered
      {
        RepliesLength(groups[n], outcomes[n]);
        RepliesAreOwn(groups[n], outcomes[n], p);
        assert groups[n][p] in groups[n];
      }
    }
  }

  lemma RepliesLength(items: seq<WorkItem>, outcome: Outcome)
    ensures |Replies(items, outcome)| == |items|
  {
    if items != [] {
      RepliesAreOwn(items, outcome, 0);
    }
  }

  lemma {:induction false} RejectionsDelivered(maxEvents: int, inputs: seq<Input>)
    requires forall i :: 0 <= i < |inputs| && inputs[i].event.Arrive? ==> inputs[i].event.item.room
    ensures forall r :: r in Rejections(maxEvents, inputs) ==> r.delivered
  {
    if inputs != [] {
      RejectionsDelivered(maxEvents, inputs[..|inputs| - 1]);
    }
  }

  // ---- The submitter as the program keeps it ----

  method TotalTransfers(items: seq<WorkItem>) returns (total: nat)
    ensures total == |Transfers(items)|
  {
    total := 0;
    for i := 0 to |items|
      invariant total == |Transfers(items[..i])|
    {
      assert items[..i + 1][..i] == items[..i];
      total := total + |items[i].transfers|;
    }
    assert items[..|items|] == items;
  }

  /** The last code reported for each position. */
  method IndexResults(results: seq<(nat, int)>) returns (codes: map<nat, int>)
    ensures forall i :: i in codes <==> CodeAt(results, i).Some?
    ensures forall i :: i in codes ==> CodeAt(results, i).value == codes[i]
  {
    codes := map[];
    for n := 0 to |results|
      invariant forall i :: i in codes <==> CodeAt(results[..n], i).Some?
      invariant forall i :: i in codes ==> CodeAt(results[..n], i).value == codes[i]
    {
      assert results[..n + 1][..n] == results[..n];
      codes := codes[results[n].0 := results[n].1];
    }
    assert results[..|results|] == results;
  }

  /** The codes of one span, numbered from its start. */
  method OwnErrors(codes: map<nat, int>, ghost results: seq<(nat, int)>, start: nat, length: nat)
    returns (own: map<nat, int>)
    requires forall i :: i in codes <==> CodeAt(results, i).Some?
    requires forall i :: i in codes ==> CodeAt(results, i).value == codes[i]
    ensures own == CodesIn(results, start, length)
  {
    own := map[];
    for i := 0 to length
      invariant own == CodesIn(results, start, i)
    {
      if start + i in codes {
        own := own[i := codes[start + i]];
      }
    }
  }

  class Submitter {
    const maxEvents: int
    var pending: seq<WorkItem>
    /** What was sent to the service, batch by batch, and what was answered, in order. */
    var sent: seq<seq<Transfer>>
    var replies: seq<Reply>
    ghost var model: State

    ghost predicate Valid()
      reads this
    {
      && model.pending == pending && model.replies == replies
      && |sent| == |model.groups|
      && forall i :: 0 <= i < |sent| ==> sent[i] == Transfers(model.groups[i])
    }

    constructor (maxEvents: int)
      ensures Valid() && this.maxEvents == maxEvents && model == EMPTY
    {
      this.maxEvents := maxEvents;
      pending, sent, replies := [], [], [];
      model := EMPTY;
    }

    /** Sends the pending items as one batch and answers each with its own part of the outcome. */
    method Flush(outcome: Outcome)
      requires Valid()
      modifies this
      ensures Valid() && model == Flushed(old(model), outcome)
    {
      if |pending| == 0 {
        return;
      }
      var items := pending;
      pending := [];
      var transfers, starts := [], [];
      for i := 0 to |items|
        invariant unchanged(`sent) && unchanged(`replies) && unchanged(`model) && pending == []
        invariant transfers == Transfers(items[..i]) && |starts| == i
        invariant forall j :: 0 <= j < i ==> starts[j] == |Transfers(items[..j])|
      {
        assert items[..i + 1][..i] == items[..i];
        starts := starts + [|transfers|];
        transfers := transfers + items[i].transfers;
      }
      assert items[..|items|] == items;
      sent := sent + [transfers];
      Respond(items, starts, outcome);
      model := Flushed(model, outcome);
    }

    method Respond(items: seq<WorkItem>, starts: seq<nat>, outcome: Outcome)
      requires |starts| == |items| && forall j :: 0 <= j < |items| ==> starts[j] == |Transfers(items[..j])|
      modifies this`replies
      ensures replies == old(replies) + Replies(items, outcome)
    {
      hide Replies, Transfers, CodeAt, CodesIn;
      OneMoreReply(items[..0], outcome);
      var codes: map<nat, int> := map[];
      if outcome.Reported? {
        codes := IndexResults(outcome.results);
      }
      for i := 0 to |items|
        invariant replies == old(replies) + Replies(items[..i], outcome)
      {
        assert items[..i + 1] == items[..i] + [items[i]];
        OneMoreReply(items[..i + 1], outcome);
        var result;
        if outcome.Failed? {
          result := Error(outcome.error);
        } else {
          var own := OwnErrors(codes, outcome.results, starts[i], |items[i].transfers|);
          result := Errors(own);
        }
        assert result == OwnResult(outcome, starts[i], items[i]);
        replies := replies + [Reply(items[i].id, result, items[i].room)];
      }
      assert items[..|items|] == items;
    }

    method Handle(input: Input)
      requires Valid()
      modifies this
      ensures Valid() && model == Handled(old(model), maxEvents, input)
    {
      match input.event
      case Tick => Flush(input.first);
      case Arrive(item) =>
        if |item.transfers| > maxEvents {
          replies := replies + [Reply(item.id, Error(TOO_LARGE), item.room)];
          model := model.(replies := replies);
          return;
        }
        var total := TotalTransfers(pending);
        if |pending| > 0 && total + |item.transfers| > maxEvents {
          Flush(input.first);
        }
        pending := pending + [item];
        model := model.(pending := pending);
        total := TotalTransfers(pending);
        if total >= maxEvents {
          Flush(input.second);
        }
    }

    /** The submitter's loop over the events until it is stopped. */
    method Run(inputs: seq<Input>, last: Outcome)
      requires Valid() && model == EMPTY
      modifies this
      ensures Valid() && model == Flushed(HandledAll(maxEvents, inputs), last)
    {
      for i := 0 to |inputs|
        invariant Valid() && model == HandledAll(maxEvents, inputs[..i])
      {
        assert inputs[..i + 1][..i] == inputs[..i];
        Handle(inputs[i]);
      }
      assert inputs[..|inputs|] == inputs;
      Flush(last);
    }
  }

  // ---- Linked chains ----

  /** Nothing follows on from the last transfer. */
  predicate EndsUnlinked(transfers: seq<Transfer>) {
    transfers == [] || !transfers[|transfers| - 1].linked
  }

  /** A chain runs from `i` to `j`: all but the last are linked to the next. */
  predicate Chained(transfers: seq<Transfer>, i: nat, j: nat) {
    i <= j < |transfers| && forall k :: i <= k < j ==> transfers[k].linked
  }

  /** In a batch of items that end unlinked no chain leaves the item it starts in. */
  lemma {:induction false} ChainsStayInside(items: seq<WorkItem>, i: nat, j: nat, p: nat)
    requires forall q :: 0 <= q < |items| ==> EndsUnlinked(items[q].transfers)
    requires p < |items| && Chained(Transfers(items), i, j)
    requires |Transfers(items[..p])| <= i < |Transfers(items[..p])| + |items[p].transfers|
    ensures j < |Transfers(items[..p])| + |items[p].transfers|
  {
    RepliesAreOwn(items, Failed(""), p);
    var start, len := |Transfers(items[..p])|, |items[p].transfers|;
    var end := start + len - 1;
    assert Transfers(items)[start..start + len][len - 1] == Transfers(items)[end];
    assert !Transfers(items)[end].linked;
  }

  /** In every run whose arrivals end unlinked, no chain in any batch leaves the item it starts in. */
  lemma NoChainIsSplit(maxEvents: int, inputs: seq<Input>, last: Outcome, g: nat, i: nat, j: nat, p: nat)
    requires forall n :: 0 <= n < |inputs| && inputs[n].event.Arrive? ==> EndsUnlinked(inputs[n].event.item.transfers)
    requires var groups := Flushed(HandledAll(maxEvents, inputs), last).groups;
             && g < |groups| && p < |groups[g]| && Chained(Transfers(groups[g]), i, j)
             && |Transfers(groups[g][..p])| <= i < |Transfers(groups[g][..p])| + |groups[g][p].transfers|
    ensures var items := Flushed(HandledAll(maxEvents, inputs), last).groups[g];
            j < |Transfers(items[..p])| + |items[p].transfers|
  {
    hide Flushed, HandledAll, Transfers, EndsUnlinked;
    var items := Flushed(HandledAll(maxEvents, inputs), last).groups[g];
    forall q | 0 <= q < |items|
      ensures EndsUnlinked(items[q].transfers)
    {
      GroupsArrived(maxEvents, inputs, last, g, items[q]);
    }
    ChainsStayInside(items, i, j, p);
  }

  /** The chain a reservation submits: one pending transfer per requirement, all but the last linked. */
  method ReserveChain(lease: string, reqs: seq<Requirement>, timeouts: seq<int>) returns (chain: seq<Transfer>)
    requires |timeouts| == |reqs|
    ensures |chain| == |reqs| && EndsUnlinked(chain)
    ensures forall i :: 0 <= i < |reqs| ==>
              chain[i] == Transfer(Pending, lease, reqs[i].key, reqs[i].amount, timeouts[i], i < |reqs| - 1)
    ensures reqs != [] ==> Chained(chain, 0, |chain| - 1)
  {
    chain := [];
    for i := 0 to |reqs|
      invariant |chain| == i
      invariant forall j :: 0 <= j < i ==>
                  chain[j] == Transfer(Pending, lease, reqs[j].key, reqs[j].amount, timeouts[j], j < |reqs| - 1)
    {
      chain := chain + [Transfer(Pending, lease, reqs[i].key, reqs[i].amount, timeouts[i], i < |reqs| - 1)];
    }
  }

  function VoidTransfer(lease: string, key: string, amount: nat, linked: bool): Transfer {
    Transfer(Void, lease, key, amount, 0, linked)
  }

  function PendingTransfer(lease: string, key: string, amount: nat, timeout: int): Transfer {
    Transfer(Pending, lease, key, amount, timeout, false)
  }

  function DebtTransfer(lease: string, key: string, amount: nat): Transfer {
    Transfer(Posted, lease, key, amount, 0, false)
  }

  // ---- Completing a lease ----

  /** What the service says to a submission: nothing, errors to ignore, overage denied, or worse. */
  datatype Verdict = Clean | Ignorable | Denied | Refused

  /** What a completion works from; it happens at `now`, and `answers(n)` is what the service says to its n-th
      submission. */
  datatype Settlement = Settlement(
    lease: string, reservedAtUnixMs: int, reqs: seq<Requirement>, reserved: map<string, nat>,
    defs: map<string, Definition>, now: int, answers: nat -> Verdict)

  /** What is left of a window in whole seconds, at least one; a fraction of the time gone by does not count. */
  function RemainingSeconds(reservedAtUnixMs: int, now: int, windowSeconds: int): (left: int)
    ensures left >= 1
  {
    if windowSeconds <= 0 then 1
    else
      var since := now - reservedAtUnixMs * 1_000_000;
      var elapsed := if since >= 0 then since / SECOND else -(-since / SECOND);
      if windowSeconds - elapsed < 1 then 1 else windowSeconds - elapsed
  }

  /** What replaces a reservation expires when that would have, or less than a second later; one second from now if
      that is over already. */
  lemma ReplacementExpiresInTime(reservedAtUnixMs: int, now: int, windowSeconds: int)
    requires windowSeconds > 0 && reservedAtUnixMs * 1_000_000 <= now
    ensures var end := reservedAtUnixMs * 1_000_000 + windowSeconds * 1_000_000_000;
            var expiry := now + RemainingSeconds(reservedAtUnixMs, now, windowSeconds) * 1_000_000_000;
            if now < end then end <= expiry < end + 1_000_000_000 else expiry == now + 1_000_000_000
  {
  }

  function ReservedOf(s: Settlement, key: string): nat {
    if key in s.reserved then s.reserved[key] else 0
  }

  function LeftOf(s: Settlement, key: string): int
    requires key in s.defs
  {
    RemainingSeconds(s.reservedAtUnixMs, s.now, s.defs[key].windowSeconds)
  }

  /** What releasing the concurrency limits of the first `n` requirements submits. */
  function ReleaseItem(s: Settlement, n: nat): seq<Transfer>
    requires n <= |s.reqs|
  {
    if n == 0 then []
    else
      var key := s.reqs[n - 1].key;
      ReleaseItem(s, n - 1)
      + if key in s.defs && s.defs[key].kind.Concurrency? && ReservedOf(s, key) != 0 then
          [VoidTransfer(s.lease, key, ReservedOf(s, key), false)]
        else []
  }

  /** An underuse submits the void alone, or the void linked to the smaller reservation that replaces it. */
  function UnderuseItem(s: Settlement, a: Actual): seq<Transfer>
    requires a.key in s.defs
  {
    var void := VoidTransfer(s.lease, a.key, ReservedOf(s, a.key), a.actualAmount != 0);
    if a.actualAmount == 0 then [void] else [void, PendingTransfer(s.lease, a.key, a.actualAmount, LeftOf(s, a.key))]
  }

  /** What has been submitted, and whether to go on. */
  datatype Progress = Progress(items: seq<seq<Transfer>>, ok: bool)

  predicate Bad(v: Verdict) {
    v.Denied? || v.Refused?
  }

  function Settle(s: Settlement, items: seq<seq<Transfer>>, a: Actual): Progress {
    var reserved := ReservedOf(s, a.key);
    if a.key !in s.defs || !s.defs[a.key].kind.Rolling? || reserved == 0 ||
        a.actualAmount == reserved then Progress(items, true)
    else if a.actualAmount < reserved then Progress(items + [UnderuseItem(s, a)], !Bad(s.answers(|items|)))
    else
      var diff := a.actualAmount - reserved;
      var more := items + [[PendingTransfer(s.lease, a.key, diff, LeftOf(s, a.key))]];
      match s.answers(|items|)
      case Clean => Progress(more, true)
      case Ignorable => Progress(more, true)
      case Refused => Progress(more, false)
      case Denied =>
        if s.defs[a.key].overage.Debt? then
            Progress(more + [[DebtTransfer(s.lease, a.key, diff)]], !Bad(s.answers(|more|)))
        else Progress(more, true)
  }

  function Released(s: Settlement): Progress {
    var release := ReleaseItem(s, |s.reqs|);
    if release == [] then Progress([], true) else Progress([release], !Bad(s.answers(0)))
  }

  function SettleAll(s: Settlement, actuals: seq<Actual>): Progress {
    if actuals == [] then Released(s)
    else
      var before := SettleAll(s, actuals[..|actuals| - 1]);
      if before.ok then Settle(s, before.items, actuals[|actuals| - 1]) else before
  }

  /** The submissions of a completion, one after the other until one is refused. */
  method Complete(s: Settlement, actuals: seq<Actual>) returns (done: Progress)
    ensures done == SettleAll(s, actuals)
  {
    var release: seq<Transfer> := [];
    for n := 0 to |s.reqs|
      invariant release == ReleaseItem(s, n)
    {
      var key := s.reqs[n].key;
      if key in s.defs && s.defs[key].kind.Concurrency? {
        var amount := ReservedOf(s, key);
        if amount != 0 {
          release := release + [VoidTransfer(s.lease, key, amount, false)];
        }
      }
    }
    done := Progress([], true);
    if |release| != 0 {
      done := Progress([release], !Bad(s.answers(0)));
    }
    for n := 0 to |actuals|
      invariant done == SettleAll(s, actuals[..n])
    {
      assert actuals[..n + 1][..n] == actuals[..n];
      if done.ok {
        done := Settle(s, done.items, actuals[n]);
      }
    }
    assert actuals[..|actuals|] == actuals;
  }

  lemma {:induction false} ReleaseVoids(s: Settlement, n: nat)
    requires n <= |s.reqs|
    ensures forall t :: t in ReleaseItem(s, n) ==>
              && t.shape == Void && !t.linked && t.lease == s.lease && t.amount == ReservedOf(s, t.key) != 0
              && t.key in s.defs && s.defs[t.key].kind.Concurrency?
    ensures forall i :: 0 <= i < n ==>
              (VoidTransfer(s.lease, s.reqs[i].key, ReservedOf(s, s.reqs[i].key), false) in ReleaseItem(s, n) <==>
                 && s.reqs[i].key in s.defs && s.defs[s.reqs[i].key].kind.Concurrency?
                 && ReservedOf(s, s.reqs[i].key) != 0)
  {
    if n > 0 {
      ReleaseVoids(s, n - 1);
    }
  }

  /** An item ends unlinked; a link only ties a replacement to the void of the same reservation. */
  ghost predicate WellLinked(s: Settlement, item: seq<Transfer>) {
    && item != [] && EndsUnlinked(item)
    && forall i :: 0 <= i < |item| && item[i].linked ==>
         && i == 0 && |item| == 2 && item[0].shape == Void && item[1].shape == Pending
         && item[0].key == item[1].key && item[1].amount < item[0].amount == ReservedOf(s, item[0].key)
  }

  /** Whatever the service answers, every item a completion submits ends unlinked, and a link only ties a
      replacement to the void of what it replaces. */
  lemma {:induction false} CompletionItemsEndUnlinked(s: Settlement, actuals: seq<Actual>)
    ensures forall i :: 0 <= i < |SettleAll(s, actuals).items| ==> WellLinked(s, SettleAll(s, actuals).items[i])
  {
    if actuals == [] {
      ReleaseVoids(s, |s.reqs|);
    } else {
      CompletionItemsEndUnlinked(s, actuals[..|actuals| - 1]);
    }
  }
}
