/** The loop of a turn over a finite part of a run, one element of `rounds` for each time around. */
module AgentTurn {
  import opened History
  import opened CompactionSpec
  import opened AgentTurnSpec
  import Compaction

  /** `Running` when the rounds are used up before the loop ends. */
  datatype Ending = Running | Finished | BudgetExceeded | Broken

  ghost function Reply(prompt: seq<Item>, round: Round): Response {
    if round.stream.None? then Response(prompt, false, false)
    else Respond(prompt, round.stream.value.events, round.stream.value.complete)
  }

  /** The history round `k` starts with. */
  ghost function HistoryAt(start: seq<Item>, prompts: seq<seq<Item>>, rounds: seq<Round>, k: nat): seq<Item>
    requires k <= |prompts| <= |rounds|
  {
    if k == 0 then start else Reply(prompts[k - 1], rounds[k - 1]).history
  }

  /** Prompt `k` is the history of its round, compacted if need be, and within the limits. */
  ghost predicate IsPrompt(start: seq<Item>, prompts: seq<seq<Item>>, rounds: seq<Round>, options: Options, k: nat)
    requires k < |prompts| <= |rounds|
  {
    var h := HistoryAt(start, prompts, rounds, k);
    && !Compacting(h, options, rounds[k]).Failed?
    && prompts[k] == Prepared(h, options, rounds[k])
    && !Exceeded(options, rounds[k].elapsed, prompts[k], k)
  }

  ghost predicate GoesOn(prompt: seq<Item>, round: Round) {
    Reply(prompt, round).ok && Reply(prompt, round).followUp
  }

  ghost predicate Follows(start: seq<Item>, prompts: seq<seq<Item>>, rounds: seq<Round>, options: Options)
  {
    && |prompts| <= |rounds|
    && (forall k :: 0 <= k < |prompts| ==> IsPrompt(start, prompts, rounds, options, k))
    && (forall k :: 0 <= k < |prompts| - 1 ==> GoesOn(prompts[k], rounds[k]))
  }

  /** How the loop ended, and what it left in the session. */
  ghost predicate Ends(start: seq<Item>, prompts: seq<seq<Item>>, rounds: seq<Round>, options: Options, hooksPass: bool,
          ending: Ending, history: seq<Item>)
    requires |prompts| <= |rounds|
  {
    var n := |prompts|;
    var h := HistoryAt(start, prompts, rounds, n);
    var goesOn := n > 0 ==> GoesOn(prompts[n - 1], rounds[n - 1]);
    match ending
    case Running => n == |rounds| && goesOn && history == h
    case Finished => n > 0 && Reply(prompts[n - 1], rounds[n - 1]) == Response(history, false, true)
    case BudgetExceeded =>
      && n < |rounds| && goesOn && !Compacting(h, options, rounds[n]).Failed?
      && history == Prepared(h, options, rounds[n]) && Exceeded(options, rounds[n].elapsed, history, n)
    case Broken =>
      if n > 0 && !Reply(prompts[n - 1], rounds[n - 1]).ok then history == h
      else n < |rounds| && goesOn
           && if Compacting(h, options, rounds[n]).Failed? then history == h
              else
                && n == 0 && !hooksPass && history == Prepared(h, options, rounds[n])
                && !Exceeded(options, rounds[n].elapsed, history, n)
  }

  lemma {:induction false} HistoriesArePaired(start: seq<Item>, prompts: seq<seq<Item>>, rounds: seq<Round>,
          options: Options, k: nat)
    requires Paired(start) && Follows(start, prompts, rounds, options) && k <= |prompts|
    ensures Paired(HistoryAt(start, prompts, rounds, k)) && (k < |prompts| ==> Paired(prompts[k]))
  {
    hide Paired, Prepared, Compacting, Exceeded, GoesOn;
    if k > 0 {
      HistoriesArePaired(start, prompts, rounds, options, k - 1);
      var round := rounds[k - 1];
      if round.stream.Some? {
        RespondKeepsPairs(prompts[k - 1], round.stream.value.events, round.stream.value.complete);
      }
    }
    if k < |prompts| {
      assert IsPrompt(start, prompts, rounds, options, k);
      PreparedKeepsPairs(HistoryAt(start, prompts, rounds, k), options, rounds[k]);
    }
  }

  /** In every prompt each tool call is followed by its own output; no prompt is over the token limit
      or sent after the time limit; there are no more prompts than the step limit. */
  lemma PromptsAreSafe(start: seq<Item>, prompts: seq<seq<Item>>, rounds: seq<Round>, options: Options)
    requires Paired(start) && Follows(start, prompts, rounds, options)
    ensures forall p :: p in prompts ==> Paired(p)
    ensures options.limits.maxTokens > 0 && options.counter.Some? ==>
              forall p :: p in prompts ==> options.counter.value(p) <= options.limits.maxTokens
    ensures options.limits.maxSteps > 0 ==> |prompts| <= options.limits.maxSteps
    ensures options.limits.maxSeconds > 0 ==>
              forall k :: 0 <= k < |prompts| ==> rounds[k].elapsed <= options.limits.maxSeconds
  {
    hide Paired, Prepared, Compacting;
    forall k | 0 <= k < |prompts|
      ensures Paired(prompts[k]) && !Exceeded(options, rounds[k].elapsed, prompts[k], k)
    {
      HistoriesArePaired(start, prompts, rounds, options, k);
      assert IsPrompt(start, prompts, rounds, options, k);
    }
    StepsAreBounded(start, prompts, rounds, options);
  }

  lemma StepsAreBounded(start: seq<Item>, prompts: seq<seq<Item>>, rounds: seq<Round>, options: Options)
    requires Follows(start, prompts, rounds, options)
    ensures options.limits.maxSteps > 0 ==> |prompts| <= options.limits.maxSteps
  {
    hide Prepared, Compacting;
    if |prompts| > 0 {
      assert IsPrompt(start, prompts, rounds, options, |prompts| - 1);
    }
  }

  lemma ReplyAddsNoUser(prompt: seq<Item>, round: Round) returns (tail: seq<Item>)
    ensures Reply(prompt, round).history == prompt + tail && forall y :: y in tail ==> y.role != User
  {
    tail := [];
    if round.stream.Some? {
      tail := RespondAddsNoUser(prompt, round.stream.value.events, round.stream.value.complete);
    }
  }

  lemma {:induction false} TextStays(start: seq<Item>, prompts: seq<seq<Item>>, rounds: seq<Round>, options: Options,
          kind: Item -> bool, x: Item, k: nat)
    requires IsUserKind(kind) && Latest(start, kind, x) && !IsSummary(x)
    requires Follows(start, prompts, rounds, options) && k <= |prompts|
    ensures Latest(HistoryAt(start, prompts, rounds, k), kind, x)
    ensures k < |prompts| ==> Latest(prompts[k], kind, x)
  {
    hide Latest, Compact, Exceeded, GoesOn, IsSummary, IsUserKind;
    if k > 0 {
      TextStays(start, prompts, rounds, options, kind, x, k - 1);
      var tail := ReplyAddsNoUser(prompts[k - 1], rounds[k - 1]);
      LatestAppend(prompts[k - 1], tail, kind, x);
    }
    if k < |prompts| {
      assert IsPrompt(start, prompts, rounds, options, k);
      CompactKeepsLatest(HistoryAt(start, prompts, rounds, k), options.counter, options.compaction, true,
          rounds[k].summarize, kind, x);
    }
  }

  /** No history is compacted before the first `k` prompts. */
  ghost predicate Uncompacted(start: seq<Item>, prompts: seq<seq<Item>>, rounds: seq<Round>, options: Options, k: nat)
    requires k <= |prompts| <= |rounds|
  {
    forall j :: 0 <= j < k ==> !Compacting(HistoryAt(start, prompts, rounds, j), options, rounds[j]).Compacted?
  }

  lemma ReplyKeepsUserItems(prompt: seq<Item>, round: Round, x: Item)
    requires x.role == User
    ensures x in Reply(prompt, round).history <==> x in prompt
  {
    hide Reply;
    var tail := ReplyAddsNoUser(prompt, round);
    assert x !in tail;
  }

  lemma CompactionDropsSummaries(h: seq<Item>, options: Options, round: Round, x: Item)
    requires x.role == User && IsSummary(x)
    ensures x in Prepared(h, options, round) <==> x in h && !Compacting(h, options, round).Compacted?
  {
    hide Compact, IsSummary;
    SummariesVanish(h, options.counter, options.compaction, true, round.summarize, x);
  }

  lemma OneMoreRound(start: seq<Item>, prompts: seq<seq<Item>>, rounds: seq<Round>, options: Options, k: nat)
    requires k < |prompts| <= |rounds|
    ensures Uncompacted(start, prompts, rounds, options, 0)
    ensures Uncompacted(start, prompts, rounds, options, k + 1) <==>
            && Uncompacted(start, prompts, rounds, options, k)
            && !Compacting(HistoryAt(start, prompts, rounds, k), options, rounds[k]).Compacted?
  {
    hide Compacting, HistoryAt;
  }

  lemma {:induction false} SummaryGoes(start: seq<Item>, prompts: seq<seq<Item>>, rounds: seq<Round>, options: Options,
          x: Item, k: nat)
    requires x in start && x.role == User && IsSummary(x)
    requires Follows(start, prompts, rounds, options) && k < |prompts|
    ensures x in prompts[k] <==> Uncompacted(start, prompts, rounds, options, k + 1)
  {
    hide Prepared, Compacting, Exceeded, GoesOn, IsSummary, Uncompacted, Reply;
    if k > 0 {
      SummaryGoes(start, prompts, rounds, options, x, k - 1);
      ReplyKeepsUserItems(prompts[k - 1], rounds[k - 1], x);
    }
    assert IsPrompt(start, prompts, rounds, options, k);
    CompactionDropsSummaries(HistoryAt(start, prompts, rounds, k), options, rounds[k], x);
    OneMoreRound(start, prompts, rounds, options, k);
  }

  /** The text of the turn is the latest of its kind in every prompt of the turn, however often the
      history is compacted; but one that starts like a summary is in a prompt only as long as the history
      has not been compacted. */
  lemma EveryPromptCarriesTheText(before: seq<Item>, text: string, prompts: seq<seq<Item>>, rounds: seq<Round>,
          options: Options)
    requires Follows(before + [Item(User, Text(text))], prompts, rounds, options)
    ensures var x := Item(User, Text(text));
            forall k :: 0 <= k < |prompts| ==>
              if IsSummary(x) then
                x in prompts[k] <==> Uncompacted(before + [x], prompts, rounds, options, k + 1)
              else
                Latest(prompts[k], KindOf(x), x)
  {
    hide KindOf, IsSummary, IsPrompt, GoesOn, Latest;
    var x := Item(User, Text(text));
    LatestHere(before, x, KindOf(x));
    forall k | 0 <= k < |prompts|
      ensures if IsSummary(x) then
                x in prompts[k] <==> Uncompacted(before + [x], prompts, rounds, options, k + 1)
              else
                Latest(prompts[k], KindOf(x), x)
    {
      if IsSummary(x) {
        SummaryGoes(before + [x], prompts, rounds, options, x, k);
      } else {
        TextStays(before + [x], prompts, rounds, options, KindOf(x), x, k);
      }
    }
  }

  lemma LatestHere(before: seq<Item>, x: Item, kind: Item -> bool)
    requires kind(x)
    ensures Latest(before + [x], kind, x)
  {
    LastIs(before + [x], kind, |before|);
  }

  /** However it ends, the session is fit for the next turn. */
  lemma EndingKeepsPairs(start: seq<Item>, prompts: seq<seq<Item>>, rounds: seq<Round>, options: Options,
          hooksPass: bool, ending: Ending, history: seq<Item>)
    requires Paired(start) && Follows(start, prompts, rounds, options)
    requires Ends(start, prompts, rounds, options, hooksPass, ending, history)
    ensures Paired(history)
  {
    hide Paired, Prepared, Compacting, Exceeded, GoesOn, Respond;
    var n := |prompts|;
    HistoriesArePaired(start, prompts, rounds, options, n);
    if n < |rounds| {
      PreparedKeepsPairs(HistoryAt(start, prompts, rounds, n), options, rounds[n]);
    }
  }

  /** With a step limit the loop ends, whatever the model answers. */
  lemma StepLimitEndsTheLoop(start: seq<Item>, prompts: seq<seq<Item>>, rounds: seq<Round>, options: Options,
          hooksPass: bool, ending: Ending, history: seq<Item>)
    requires Follows(start, prompts, rounds, options)
    requires Ends(start, prompts, rounds, options, hooksPass, ending, history)
    requires 0 < options.limits.maxSteps < |rounds|
    ensures ending != Running
  {
    StepsAreBounded(start, prompts, rounds, options);
  }

  /** Read to its end, without an unknown event, with or without calls. */
  ghost predicate ReadWell(round: Round) {
    round.stream.Some? && round.stream.value.complete && forall e :: e in round.stream.value.events ==> !e.Unknown?
  }

  ghost predicate CallsTools(round: Round) {
    round.stream.Some? && exists i :: 0 <= i < |round.stream.value.events| && round.stream.value.events[i].Invoke?
  }

  lemma ReadWellIsOk(prompt: seq<Item>, round: Round)
    ensures Reply(prompt, round).ok <==> ReadWell(round)
    ensures ReadWell(round) ==> (Reply(prompt, round).followUp <==> CallsTools(round))
  {
    hide Respond, Known;
    if round.stream.Some? {
      var events, n := round.stream.value.events, Known(round.stream.value.events);
      ReplyIsExact(prompt, events, round.stream.value.complete);
      assert events[..|events|] == events;
      AnyCalls(events);
      if n < |events| {
        assert events[n] in events;
      }
    }
  }

  lemma {:induction false} AnyCalls(events: seq<Event>)
    ensures Calls(events) > 0 <==> exists i :: 0 <= i < |events| && events[i].Invoke?
  {
    if events != [] {
      AnyCalls(events[1..]);
      if i :| 0 <= i < |events[1..]| && events[1..][i].Invoke? {
        assert events[i + 1].Invoke?;
      }
      if i :| 0 <= i < |events| && events[i].Invoke? {
        if i > 0 {
          assert events[1..][i - 1].Invoke?;
        }
      }
    }
  }

  /** Another prompt follows only a reply that was read to its end and called a tool; unless the history is compacted
      in between, it is the prompt before it and then, event by event, what the model said and what the tools
      answered. */
  lemma NextPromptCarriesTheReply(start: seq<Item>, prompts: seq<seq<Item>>, rounds: seq<Round>, options: Options,
          k: nat)
    requires Follows(start, prompts, rounds, options) && k + 1 < |prompts|
    ensures ReadWell(rounds[k]) && CallsTools(rounds[k])
    ensures var events, p := rounds[k].stream.value.events, prompts[k + 1];
            !Compacting(HistoryAt(start, prompts, rounds, k + 1), options, rounds[k + 1]).Compacted? ==>
              && prompts[k] <= p && |p| == |prompts[k]| + |events| + Calls(events)
              && forall i :: 0 <= i < |events| ==> StandsAt(p, |prompts[k]| + i + Calls(events[..i]), events[i])
  {
    hide Respond, Compact, Exceeded, StandsAt, Known, Calls;
    assert GoesOn(prompts[k], rounds[k]) && IsPrompt(start, prompts, rounds, options, k + 1);
    ReadWellIsOk(prompts[k], rounds[k]);
    var stream := rounds[k].stream.value;
    ReplyIsExact(prompts[k], stream.events, stream.complete);
    assert stream.events[..|stream.events|] == stream.events;
  }

  /** The loop ends for one of these reasons only: the reply called no tool; a limit is reached; a reply was not read
      to its end, the history could not be compacted, or a hook failed before the first prompt. */
  lemma EndingIsExact(start: seq<Item>, prompts: seq<seq<Item>>, rounds: seq<Round>, options: Options, hooksPass: bool,
          ending: Ending, history: seq<Item>)
    requires Follows(start, prompts, rounds, options)
    requires Ends(start, prompts, rounds, options, hooksPass, ending, history)
    ensures var n := |prompts|;
            match ending
            case Running => n == |rounds| && (n > 0 ==> ReadWell(rounds[n - 1]) && CallsTools(rounds[n - 1]))
            case Finished => n > 0 && ReadWell(rounds[n - 1]) && !CallsTools(rounds[n - 1])
            case BudgetExceeded =>
              && n < |rounds| && (n > 0 ==> ReadWell(rounds[n - 1]) && CallsTools(rounds[n - 1]))
              && (|| (options.limits.maxSeconds > 0 && rounds[n].elapsed > options.limits.maxSeconds)
                  || (options.limits.maxSteps > 0 && n >= options.limits.maxSteps)
                  || (options.limits.maxTokens > 0 && options.counter.Some?
                      && options.counter.value(history) > options.limits.maxTokens))
            case Broken =>
              || (n > 0 && !ReadWell(rounds[n - 1]))
              || (n < |rounds| && Compacting(HistoryAt(start, prompts, rounds, n), options, rounds[n]).Failed?)
              || (n == 0 && !hooksPass)
  {
    hide Respond, Compact, ReadWell, CallsTools, IsPrompt;
    var n := |prompts|;
    if n > 0 {
      ReadWellIsOk(prompts[n - 1], rounds[n - 1]);
    }
  }

  lemma OneMorePrompt(start: seq<Item>, prompts: seq<seq<Item>>, rounds: seq<Round>, options: Options, p: seq<Item>)
    requires Follows(start, prompts, rounds, options) && |prompts| < |rounds|
    requires |prompts| > 0 ==> GoesOn(prompts[|prompts| - 1], rounds[|prompts| - 1])
    requires var h := HistoryAt(start, prompts, rounds, |prompts|);
             var round := rounds[|prompts|];
             && !Compacting(h, options, round).Failed? && p == Prepared(h, options, round)
             && !Exceeded(options, round.elapsed, p, |prompts|)
    ensures Follows(start, prompts + [p], rounds, options)
    ensures HistoryAt(start, prompts + [p], rounds, |prompts| + 1) == Reply(p, rounds[|prompts|]).history
  {
    hide Prepared, Compacting, Exceeded, Reply, GoesOn;
    forall k | 0 <= k < |prompts + [p]|
      ensures IsPrompt(start, prompts + [p], rounds, options, k)
    {
      assert HistoryAt(start, prompts + [p], rounds, k) == HistoryAt(start, prompts, rounds, k);
      if k < |prompts| {
        assert IsPrompt(start, prompts, rounds, options, k);
      }
    }
  }

  class Session {
    var history: seq<Item>

    constructor (initial: seq<Item>)
      ensures history == initial
    {
      history := initial;
    }

    /** Reads a streamed reply and runs the tools it calls. */
    method HandleResponseStream(events: seq<Event>, complete: bool) returns (followUp: bool, ok: bool)
      modifies this
      ensures Response(history, followUp, ok) == Respond(old(history), events, complete)
    {
      followUp := false;
      for n := 0 to |events|
        invariant var r := Respond(history, events[n..], complete);
                  r.(followUp := followUp || r.followUp) == Respond(old(history), events, complete)
      {
        assert events[n..][1..] == events[n + 1..];
        match events[n] {
          case Message(text) =>
            history := history + [Item(Assistant, Text(text))];
          case Invoke(given, name, args, output) =>
            var id := CallId(given, history);
            ghost var before := history;
            history := history + [Item(Assistant, ToolCall(id, name, args))];
            history := history + [Item(Tool, ToolOutput(id, output))];
            assert history == before + [Item(Assistant, ToolCall(id, name, args)), Item(Tool, ToolOutput(id, output))];
            followUp := true;
          case Unknown =>
            return followUp, false;
        }
      }
      return followUp, complete;
    }

    /** Runs one turn; `prompts` are the main prompts it sends, in order. */
    method RunCall(rounds: seq<Round>, options: Options, userText: string, hooksPass: bool)
      returns (prompts: seq<seq<Item>>, ending: Ending)
      requires Paired(history)
      modifies this
      ensures var start := old(history) + [Item(User, Text(userText))];
              && Follows(start, prompts, rounds, options)
              && Ends(start, prompts, rounds, options, hooksPass, ending, history)
      ensures Paired(history) && forall p :: p in prompts ==> Paired(p)
      ensures options.limits.maxTokens > 0 && options.counter.Some? ==>
                forall p :: p in prompts ==> options.counter.value(p) <= options.limits.maxTokens
      ensures options.limits.maxSteps > 0 ==> |prompts| <= options.limits.maxSteps
    {
      hide Paired, Compact, Respond, Exceeded, Follows;
      var user := Item(User, Text(userText));
      TextIsPaired([user]);
      PairedAppend(history, [user]);
      history := history + [user];
      ghost var start := history;
      prompts, ending := Loop(rounds, options, hooksPass);
      PromptsAreSafe(start, prompts, rounds, options);
      EndingKeepsPairs(start, prompts, rounds, options, hooksPass, ending, history);
    }

    method Loop(rounds: seq<Round>, options: Options, hooksPass: bool) returns (prompts: seq<seq<Item>>, ending: Ending)
      modifies this
      ensures Follows(old(history), prompts, rounds, options)
      ensures Ends(old(history), prompts, rounds, options, hooksPass, ending, history)
    {
      hide Compact, Respond, Exceeded;
      ghost var start := history;
      prompts := [];
      for n := 0 to |rounds|
        invariant |prompts| == n && Follows(start, prompts, rounds, options)
        invariant history == HistoryAt(start, prompts, rounds, n)
        invariant n > 0 ==> GoesOn(prompts[n - 1], rounds[n - 1])
      {
        var round := rounds[n];
        ghost var h := history;
        var r := Compaction.CompactHistory(history, options.counter, options.compaction, true, round.summarize);
        if r.Failed? {
          return prompts, Broken;
        }
        if r.Compacted? {
          history := r.history;
        }
        if Exceeded(options, round.elapsed, history, n) {
          return prompts, BudgetExceeded;
        }
        if n == 0 && !hooksPass {
          return prompts, Broken;
        }
        OneMorePrompt(start, prompts, rounds, options, history);
        prompts := prompts + [history];
        if round.stream.None? {
          return prompts, Broken;
        }
        var followUp, ok := HandleResponseStream(round.stream.value.events, round.stream.value.complete);
        if !ok {
          return prompts, Broken;
        }
        if !followUp {
          return prompts, Finished;
        }
      }
      return prompts, Running;
    }
  }
}
