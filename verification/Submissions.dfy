/** When the submitter sends a batch, and what exactly a completion submits. */
module Submissions {
  import opened Limits
  import opened Submitter

  // ---- When a batch is sent ----

  /** A batch is full; or it was sent at a tick, or because the next item did not fit, with all that was pending
      then. */
  ghost predicate Due(groups: seq<seq<WorkItem>>, maxEvents: int, inputs: seq<Input>, g: nat)
    requires g < |groups|
  {
    || |Transfers(groups[g])| == maxEvents
    || exists n :: 0 <= n < |inputs| && Taken(maxEvents, inputs[..n]) == Flat(groups[..g + 1])
                   && match inputs[n].event
                      case Tick => true
                      case Arrive(item) => |item.transfers| <= maxEvents < |Transfers(groups[g])| + |item.transfers|
  }

  ghost predicate AllDue(groups: seq<seq<WorkItem>>, maxEvents: int, inputs: seq<Input>) {
    forall g :: 0 <= g < |groups| ==> Due(groups, maxEvents, inputs, g)
  }

  /** No batch is sent before its time; what is pending stays below the limit, and a tick leaves nothing. */
  lemma {:induction false} BatchesAreDue(maxEvents: int, inputs: seq<Input>)
    ensures var s := HandledAll(maxEvents, inputs);
            && AllDue(s.groups, maxEvents, inputs) && (s.pending != [] ==> |Transfers(s.pending)| < maxEvents)
            && (inputs != [] && inputs[|inputs| - 1].event.Tick? ==> s.pending == [])
  {
    hide Handled, Due, AllDue;
    HandledKeeps(maxEvents, inputs);
    if inputs == [] {
      NoneDue(maxEvents, inputs);
    } else {
      var n := |inputs| - 1;
      BatchesAreDue(maxEvents, inputs[..n]);
      HandledKeeps(maxEvents, inputs[..n]);
      StepIsDue(HandledAll(maxEvents, inputs[..n]), maxEvents, inputs);
    }
  }

  lemma NoneDue(maxEvents: int, inputs: seq<Input>)
    ensures AllDue([], maxEvents, inputs)
  {
  }

  lemma StepIsDue(s: State, maxEvents: int, inputs: seq<Input>)
    requires inputs != [] && Kept(s, maxEvents, inputs[..|inputs| - 1])
    requires AllDue(s.groups, maxEvents, inputs[..|inputs| - 1])
    ensures var t := Handled(s, maxEvents, inputs[|inputs| - 1]);
            && AllDue(t.groups, maxEvents, inputs) && (inputs[|inputs| - 1].event.Tick? ==> t.pending == [])
  {
    hide AllDue, Transfers, Flat, Taken, Replies, GroupReplies, Rejections;
    var n := |inputs| - 1;
    var input := inputs[n];
    StillDue(s.groups, maxEvents, inputs);
    match input.event
    case Tick => FlushIsDue(s, maxEvents, inputs, input.first);
    case Arrive(item) =>
      if |item.transfers| <= maxEvents {
        var over := s.pending != [] && |Transfers(s.pending)| + |item.transfers| > maxEvents;
        if over {
          FlushIsDue(s, maxEvents, inputs, input.first);
        }
        var f := if over then Flushed(s, input.first) else s;
        TransfersAppend(f.pending, item);
        NoTransfers();
        FullIsDue(f.(pending := f.pending + [item]), maxEvents, inputs, input.second);
      }
  }

  lemma StillDue(groups: seq<seq<WorkItem>>, maxEvents: int, inputs: seq<Input>)
    requires inputs != [] && AllDue(groups, maxEvents, inputs[..|inputs| - 1])
    ensures AllDue(groups, maxEvents, inputs)
  {
    hide Transfers, Flat, Taken;
    var some := inputs[..|inputs| - 1];
    forall g | 0 <= g < |groups|
      ensures Due(groups, maxEvents, inputs, g)
    {
      assert Due(groups, maxEvents, some, g);
      forall n | 0 <= n < |some|
        ensures inputs[n] == some[n] && inputs[..n] == some[..n]
      {
      }
    }
  }

  /** What is flushed by the last input is all that had come in before it. */
  lemma FlushIsDue(s: State, maxEvents: int, inputs: seq<Input>, outcome: Outcome)
    requires inputs != [] && Kept(s, maxEvents, inputs[..|inputs| - 1]) && AllDue(s.groups, maxEvents, inputs)
    requires match inputs[|inputs| - 1].event
             case Tick => true
             case Arrive(item) => |item.transfers| <= maxEvents < |Transfers(s.pending)| + |item.transfers|
    ensures AllDue(Flushed(s, outcome).groups, maxEvents, inputs) && Flushed(s, outcome).pending == []
  {
    hide Transfers, Taken, Replies, GroupReplies, Rejections;
    var t, m := Flushed(s, outcome), |s.groups|;
    forall g | 0 <= g < |t.groups|
      ensures Due(t.groups, maxEvents, inputs, g)
    {
      if g < m {
        assert Due(s.groups, maxEvents, inputs, g) && t.groups[..g + 1] == s.groups[..g + 1];
      } else {
        assert t.groups[..g + 1] == t.groups && t.groups[..m] == s.groups;
      }
    }
  }

  lemma FullIsDue(s: State, maxEvents: int, inputs: seq<Input>, outcome: Outcome)
    requires |Transfers(s.pending)| <= maxEvents && AllDue(s.groups, maxEvents, inputs)
    ensures |Transfers(s.pending)| == maxEvents ==> AllDue(Flushed(s, outcome).groups, maxEvents, inputs)
  {
    hide Transfers, Flat, Taken, Replies;
    var t, m := Flushed(s, outcome), |s.groups|;
    if |Transfers(s.pending)| == maxEvents {
      forall g | 0 <= g < |t.groups|
        ensures Due(t.groups, maxEvents, inputs, g)
      {
        if g < m {
          assert Due(s.groups, maxEvents, inputs, g) && t.groups[..g + 1] == s.groups[..g + 1];
        }
      }
    }
  }

  /** Taken are, in order of arrival, the items that fit a batch; the others are rejected. */
  lemma {:induction false} ArrivalsAreSplit(maxEvents: int, inputs: seq<Input>) returns (ps: seq<nat>, qs: seq<nat>)
    ensures |ps| == |Taken(maxEvents, inputs)| && |qs| == |Rejections(maxEvents, inputs)|
    ensures forall i, j :: 0 <= i < j < |ps| ==> ps[i] < ps[j]
    ensures forall i, j :: 0 <= i < j < |qs| ==> qs[i] < qs[j]
    ensures forall i :: 0 <= i < |ps| ==> ps[i] < |inputs| && inputs[ps[i]].event == Arrive(Taken(maxEvents, inputs)[i])
    ensures forall i :: 0 <= i < |qs| ==>
              && qs[i] < |inputs| && inputs[qs[i]].event.Arrive?
              && var item := inputs[qs[i]].event.item;
                 Rejections(maxEvents, inputs)[i] ==
                 Reply(item.id, Error("work item exceeds max batch size"), item.room)
    ensures forall n: nat :: n < |inputs| ==>
              && (n in ps <==> inputs[n].event.Arrive? && |inputs[n].event.item.transfers| <= maxEvents)
              && (n in qs <==> inputs[n].event.Arrive? && |inputs[n].event.item.transfers| > maxEvents)
  {
    ps, qs := [], [];
    if inputs != [] {
      var n := |inputs| - 1;
      ps, qs := ArrivalsAreSplit(maxEvents, inputs[..n]);
      TakenStep(maxEvents, inputs);
      hide Taken, Rejections;
      if inputs[n].event.Arrive? {
        if |inputs[n].event.item.transfers| <= maxEvents {
          ps := ps + [n];
        } else {
          qs := qs + [n];
        }
      }
    }
  }

  lemma TakenStep(maxEvents: int, inputs: seq<Input>)
    requires inputs != []
    ensures var n, e := |inputs| - 1, inputs[|inputs| - 1].event;
            var fits := e.Arrive? && |e.item.transfers| <= maxEvents;
            && Taken(maxEvents, inputs) == Taken(maxEvents, inputs[..n]) + (if fits then [e.item] else [])
            && Rejections(maxEvents, inputs) ==
               Rejections(maxEvents, inputs[..n])
               + if e.Arrive? && !fits then [Reply(e.item.id, Error(TOO_LARGE), e.item.room)] else []
  {
  }

  // ---- What is answered ----

  /** `code` is the last one reported for this position. */
  ghost predicate LastReported(results: seq<(nat, int)>, index: nat, code: int) {
    exists j :: 0 <= j < |results| && results[j] == (index, code)
                && forall k :: j < k < |results| ==> results[k].0 != index
  }

  ghost predicate IsReported(results: seq<(nat, int)>, index: nat) {
    exists j :: 0 <= j < |results| && results[j].0 == index
  }

  lemma {:induction false} CodeAtIsLast(results: seq<(nat, int)>, index: nat)
    ensures CodeAt(results, index).Some? <==> IsReported(results, index)
    ensures CodeAt(results, index).Some? ==> LastReported(results, index, CodeAt(results, index).value)
  {
    if results != [] {
      var n := |results| - 1;
      CodeAtIsLast(results[..n], index);
      if results[n].0 != index && CodeAt(results[..n], index).Some? {
        var code := CodeAt(results[..n], index).value;
        var j :| 0 <= j < n && results[..n][j] == (index, code)
                 && forall k :: j < k < n ==> results[..n][k].0 != index;
        assert results[j] == (index, code);
        assert forall k :: j < k < n ==> results[k] == results[..n][k];
      } else if results[n].0 == index {
        assert results[n] == (index, results[n].1);
      }
    }
  }

  /** An item is answered with the failure of its batch, or with the last code reported for each of its own transfers
      and no other, numbered from its first. */
  lemma AnswerIsExact(items: seq<WorkItem>, outcome: Outcome, p: nat)
    requires p < |items|
    ensures |Replies(items, outcome)| == |items|
    ensures var start, reply := |Transfers(items[..p])|, Replies(items, outcome)[p];
            && reply.id == items[p].id && (reply.delivered <==> items[p].room)
            && match outcome
               case Failed(error) => reply.result == Error(error)
               case Reported(results) =>
                 && reply.result.Errors?
                 && (forall i: nat :: i in reply.result.codes <==>
                       i < |items[p].transfers| && IsReported(results, start + i))
                 && forall i :: i in reply.result.codes ==> LastReported(results, start + i, reply.result.codes[i])
  {
    hide Replies, Transfers, CodesIn, CodeAt, LastReported, IsReported;
    RepliesAreOwn(items, outcome, p);
    if outcome.Reported? {
      forall index: nat
        ensures var code := CodeAt(outcome.results, index);
                && (code.Some? <==> IsReported(outcome.results, index))
                && (code.Some? ==> LastReported(outcome.results, index, code.value))
      {
        CodeAtIsLast(outcome.results, index);
      }
    }
  }

  // ---- What a completion submits ----

  /** The release gives back, in the order of the requirements, each concurrency limit of which something was
      reserved, once for each time it is named. */
  lemma {:induction false} ReleaseIsExact(s: Settlement, n: nat) returns (ps: seq<nat>)
    requires n <= |s.reqs|
    ensures |ps| == |ReleaseItem(s, n)|
    ensures forall i, j :: 0 <= i < j < |ps| ==> ps[i] < ps[j]
    ensures forall i :: 0 <= i < |ps| ==>
              && ps[i] < n && s.reqs[ps[i]].key in s.reserved
              && var key := s.reqs[ps[i]].key;
                 ReleaseItem(s, n)[i] == Transfer(Void, s.lease, key, s.reserved[key], 0, false)
    ensures forall p: nat :: p < n ==>
              (p in ps <==> && s.reqs[p].key in s.defs && s.defs[s.reqs[p].key].kind == Concurrency
                            && s.reqs[p].key in s.reserved && s.reserved[s.reqs[p].key] > 0)
  {
    ps := [];
    if n > 0 {
      ps := ReleaseIsExact(s, n - 1);
      var key := s.reqs[n - 1].key;
      if key in s.defs && s.defs[key].kind.Concurrency? && ReservedOf(s, key) != 0 {
        ps := ps + [n - 1];
      }
    }
  }

  /** What one actual adds to the submissions, and whether the completion goes on: nothing unless it differs from
      what was reserved on a rolling limit; the reservation given back, and a smaller one in its place, when less was
      used; the difference on top when more was, and as debt if that is denied and the limit allows it. */
  ghost predicate Submits(s: Settlement, before: Progress, a: Actual, after: Progress) {
    var reserved := if a.key in s.reserved then s.reserved[a.key] else 0;
    var n := |before.items|;
    if a.key !in s.defs || s.defs[a.key].kind != Rolling || reserved == 0 || a.actualAmount == reserved then
      after == before
    else if a.actualAmount == 0 then
      after == Progress(before.items + [[Transfer(Void, s.lease, a.key, reserved, 0, false)]], !Bad(s.answers(n)))
    else if a.actualAmount < reserved then
      var left := RemainingSeconds(s.reservedAtUnixMs, s.now, s.defs[a.key].windowSeconds);
      && after.items == before.items + [[Transfer(Void, s.lease, a.key, reserved, 0, true),
                                         Transfer(Pending, s.lease, a.key, a.actualAmount, left, false)]]
      && after.ok == !Bad(s.answers(n))
    else
      var more := a.actualAmount - reserved;
      var left := RemainingSeconds(s.reservedAtUnixMs, s.now, s.defs[a.key].windowSeconds);
      var extra, debt := [Transfer(Pending, s.lease, a.key, more, left, false)],
          [Transfer(Posted, s.lease, a.key, more, 0, false)];
      if s.answers(n) == Denied && s.defs[a.key].overage == Debt then
        after == Progress(before.items + [extra, debt], !Bad(s.answers(n + 1)))
      else
        after == Progress(before.items + [extra], s.answers(n) != Refused)
  }

  /** A completion submits the release of its concurrency limits, if it holds any, and then for one actual after the
      other what that one asks for, until a submission is refused. */
  lemma CompletionIsExact(s: Settlement, actuals: seq<Actual>)
    ensures actuals == [] ==>
              var release := ReleaseItem(s, |s.reqs|);
              SettleAll(s, actuals) ==
              if release == [] then Progress([], true) else Progress([release], !Bad(s.answers(0)))
    ensures actuals != [] ==>
              var before, a := SettleAll(s, actuals[..|actuals| - 1]), actuals[|actuals| - 1];
              if before.ok then Submits(s, before, a, SettleAll(s, actuals)) else SettleAll(s, actuals) == before
  {
    hide SettleAll;
    SettleAllStep(s, actuals);
    if actuals != [] {
      var before := SettleAll(s, actuals[..|actuals| - 1]);
      assert before.items + [] == before.items;
    }
  }

  lemma SettleAllStep(s: Settlement, actuals: seq<Actual>)
    ensures actuals == [] ==> SettleAll(s, actuals) == Released(s)
    ensures actuals != [] ==>
              var before := SettleAll(s, actuals[..|actuals| - 1]);
              SettleAll(s, actuals) == if before.ok then Settle(s, before.items, actuals[|actuals| - 1]) else before
  {
  }

  /** What the submissions from `n` on add to the reservation of `key`, those denied not counted. */
  ghost function NetOf(s: Settlement, items: seq<seq<Transfer>>, n: nat, key: string): int
    requires n <= |items|
    decreases |items| - n
  {
    if n == |items| then 0
    else
      (if s.answers(n) == Denied then 0 else Effect(items[n], key)) + NetOf(s, items, n + 1, key)
  }

  ghost function Effect(item: seq<Transfer>, key: string): int {
    if item == [] then 0 else EffectOf(item[0], key) + Effect(item[1..], key)
  }

  ghost function EffectOf(t: Transfer, key: string): int {
    if t.key != key then 0 else if t.shape == Void then 0 - t.amount else t.amount
  }

  /** Settling an actual on a reserved rolling limit leaves reservation and debt at exactly what was used, unless the
      service refuses, or it denies the excess of a limit without debt. */
  lemma ActualIsSettled(s: Settlement, items: seq<seq<Transfer>>, a: Actual)
    requires a.key in s.defs && s.defs[a.key].kind.Rolling? && a.key in s.reserved && s.reserved[a.key] > 0
    requires var more := Settle(s, items, a);
             more.ok && (s.answers(|items|) == Denied ==> s.defs[a.key].overage.Debt?)
    ensures items <= Settle(s, items, a).items
    ensures s.reserved[a.key] + NetOf(s, Settle(s, items, a).items, |items|, a.key) == a.actualAmount
  {
    hide NetOf, Effect;
    var more, n := Settle(s, items, a).items, |items|;
    NetOfFew(s, more, n, a.key);
    forall i | n <= i < |more|
      ensures Effect(more[i], a.key) ==
              EffectOf(more[i][0], a.key) + if |more[i]| == 2 then EffectOf(more[i][1], a.key) else 0
    {
      EffectOfFew(more[i], a.key);
    }
  }

  lemma EffectOfFew(item: seq<Transfer>, key: string)
    requires 1 <= |item| <= 2
    ensures Effect(item, key) == EffectOf(item[0], key) + if |item| == 2 then EffectOf(item[1], key) else 0
  {
    assert |item| == 1 ==> item[1..] == [];
    assert |item| == 2 ==> item[1..] == [item[1]] && item[1..][1..] == [];
  }

  lemma NetOfFew(s: Settlement, items: seq<seq<Transfer>>, n: nat, key: string)
    requires n <= |items| <= n + 2
    ensures NetOf(s, items, n, key) ==
            (if |items| > n && s.answers(n) != Denied then Effect(items[n], key) else 0)
            + if |items| > n + 1 && s.answers(n + 1) != Denied then Effect(items[n + 1], key) else 0
  {
    hide Effect;
    assert NetOf(s, items, |items|, key) == 0;
    if |items| == n + 2 {
      assert NetOf(s, items, n + 1, key) == if s.answers(n + 1) == Denied then 0 else Effect(items[n + 1], key);
    }
  }
}
