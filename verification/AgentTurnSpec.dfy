/** One turn of the agent: prompts, streamed replies, tool calls and compaction, step by step. */
module AgentTurnSpec {
  import opened Wrappers
  import opened History
  import opened CompactionSpec
  import opened Numerals

  /** A call comes with what the tool will answer to it. */
  datatype Event = Message(text: string) | Invoke(id: string, name: string, args: string, output: string) | Unknown

  /** What a streamed reply delivers, and whether it ends well. */
  datatype Stream = Stream(events: seq<Event>, complete: bool)

  /** One answer of the surroundings per round: the seconds gone by, the summarising model, and the
      provider's stream if it opens one. */
  datatype Round = Round(elapsed: int, summarize: seq<Item> -> Outcome, stream: Option<Stream>)

  /** 0 or less means no limit. */
  datatype Limits = Limits(maxSteps: int, maxSeconds: int, maxTokens: int)

  datatype Options = Options(counter: Option<seq<Item> -> int>, compaction: Config, limits: Limits)

  /** The history after a reply, whether a tool was called, and whether the reply was read to its end. */
  datatype Response = Response(history: seq<Item>, followUp: bool, ok: bool)

  /** A call without an id is named after the length of the history. */
  function CallId(id: string, h: seq<Item>): (r: string)
    ensures r != ""
  {
    if id == "" then "call-" + Decimal(|h|) else id
  }

  function Respond(h: seq<Item>, events: seq<Event>, complete: bool): Response
    decreases |events|
  {
    if events == [] then Response(h, false, complete)
    else
      match events[0]
      case Message(text) => Respond(h + [Item(Assistant, Text(text))], events[1..], complete)
      case Unknown => Response(h, false, false)
      case Invoke(given, name, args, output) =>
        var id := CallId(given, h);
        var answered := h + [Item(Assistant, ToolCall(id, name, args)), Item(Tool, ToolOutput(id, output))];
        Respond(answered, events[1..], complete).(followUp := true)
  }

  ghost function Compacting(h: seq<Item>, options: Options, round: Round): Result {
    Compact(h, options.counter, options.compaction, true, round.summarize)
  }

  /** The history a round works on. */
  ghost function Prepared(h: seq<Item>, options: Options, round: Round): seq<Item> {
    var r := Compacting(h, options, round);
    if r.Compacted? then r.history else h
  }

  predicate Exceeded(options: Options, elapsed: int, h: seq<Item>, steps: nat) {
    || (options.limits.maxSeconds > 0 && elapsed > options.limits.maxSeconds)
    || (options.limits.maxSteps > 0 && steps >= options.limits.maxSteps)
    || (options.limits.maxTokens > 0 && options.counter.Some? && options.counter.value(h) > options.limits.maxTokens)
  }

  /** A reply keeps calls and outputs together, also when it breaks off. */
  lemma {:induction false} RespondKeepsPairs(h: seq<Item>, events: seq<Event>, complete: bool)
    requires Paired(h)
    ensures Paired(Respond(h, events, complete).history)
    decreases |events|
  {
    if events != [] {
      match events[0] {
        case Message(text) =>
          PairedAppend(h, [Item(Assistant, Text(text))]);
          RespondKeepsPairs(h + [Item(Assistant, Text(text))], events[1..], complete);
        case Unknown =>
        case Invoke(given, name, args, output) =>
          var id := CallId(given, h);
          var pair := [Item(Assistant, ToolCall(id, name, args)), Item(Tool, ToolOutput(id, output))];
          assert pair[2..] == [];
          PairedAppend(h, pair);
          RespondKeepsPairs(h + pair, events[1..], complete);
      }
    }
  }

  /** A reply only appends, two items for each call and one for each message, and asks for a follow-up
      exactly when it called a tool. */
  lemma {:induction false} RespondAppends(h: seq<Item>, events: seq<Event>)
    requires forall e :: e in events ==> !e.Unknown?
    ensures var r := Respond(h, events, true);
            r.ok && h <= r.history && CountTools(r.history) == CountTools(h) + Calls(events)
            && |r.history| == |h| + |events| + Calls(events) && (r.followUp <==> Calls(events) > 0)
    decreases |events|
  {
    if events != [] {
      match events[0] {
        case Message(text) =>
          CountToolsAppend(h, [Item(Assistant, Text(text))]);
          RespondAppends(h + [Item(Assistant, Text(text))], events[1..]);
        case Invoke(given, name, args, output) =>
          var id := CallId(given, h);
          var pair := [Item(Assistant, ToolCall(id, name, args)), Item(Tool, ToolOutput(id, output))];
          assert pair[1..][1..] == [];
          CountToolsAppend(h, pair);
          assert CountTools(pair) == 1 + CountTools([]);
          RespondAppends(h + pair, events[1..]);
      }
    }
  }

  /** How many events there are before the first unknown one. */
  function Known(events: seq<Event>): (n: nat)
    ensures n <= |events| && (forall i :: 0 <= i < n ==> !events[i].Unknown?)
    ensures n < |events| ==> events[n].Unknown?
  {
    if events == [] || events[0].Unknown? then 0 else 1 + Known(events[1..])
  }

  /** The items an event stands for: a message as the assistant's text; a call with the given or a made-up id,
      and the tool's output under that id. */
  ghost predicate StandsAt(h: seq<Item>, at: nat, e: Event) {
    match e
    case Message(text) => at < |h| && h[at] == Item(Assistant, Text(text))
    case Invoke(given, name, args, output) =>
      && at + 1 < |h|
      && var id := if given != "" then given else "call-" + Decimal(at);
         h[at] == Item(Assistant, ToolCall(id, name, args)) && h[at + 1] == Item(Tool, ToolOutput(id, output))
    case Unknown => false
  }

  /** A reply keeps the history and adds to it, event by event up to the first unknown one, exactly the items each
      event stands for; it is read to its end only without an unknown event and when the stream ends well. */
  lemma ReplyIsExact(h: seq<Item>, events: seq<Event>, complete: bool)
    ensures var r, n := Respond(h, events, complete), Known(events);
            && h <= r.history && |r.history| == |h| + n + Calls(events[..n])
            && (forall k :: 0 <= k < n ==> StandsAt(r.history, |h| + k + Calls(events[..k]), events[k]))
            && (r.ok <==> complete && n == |events|) && (r.followUp <==> Calls(events[..n]) > 0)
  {
    hide StandsAt, Respond, Calls;
    ReplyEnds(h, events, complete);
    forall k | 0 <= k < Known(events)
      ensures StandsAt(Respond(h, events, complete).history, |h| + k + Calls(events[..k]), events[k])
    {
      EventStands(h, events, complete, k);
    }
  }

  lemma {:induction false} ReplyEnds(h: seq<Item>, events: seq<Event>, complete: bool)
    ensures var r, n := Respond(h, events, complete), Known(events);
            && h <= r.history && |r.history| == |h| + n + Calls(events[..n])
            && (r.ok <==> complete && n == |events|) && (r.followUp <==> Calls(events[..n]) > 0)
    decreases |events|
  {
    hide StandsAt, Respond;
    FirstEvent(h, events, complete);
    if events != [] && !events[0].Unknown? {
      ReplyEnds(h + Added(h, events[0]), events[1..], complete);
      var n := Known(events);
      assert events[..n][1..] == events[1..][..n - 1];
    }
  }

  lemma {:induction false} EventStands(h: seq<Item>, events: seq<Event>, complete: bool, k: nat)
    requires k < Known(events)
    ensures StandsAt(Respond(h, events, complete).history, |h| + k + Calls(events[..k]), events[k])
    decreases |events|
  {
    hide StandsAt, Respond;
    var more := h + Added(h, events[0]);
    FirstEvent(h, events, complete);
    if k == 0 {
      ReplyEnds(more, events[1..], complete);
    } else {
      EventStands(more, events[1..], complete, k - 1);
      assert events[..k][1..] == events[1..][..k - 1];
    }
  }

  function Added(h: seq<Item>, e: Event): (r: seq<Item>)
    ensures |r| == if e.Invoke? then 2 else if e.Message? then 1 else 0
  {
    match e
    case Message(text) => [Item(Assistant, Text(text))]
    case Invoke(given, name, args, output) =>
      [Item(Assistant, ToolCall(CallId(given, h), name, args)), Item(Tool, ToolOutput(CallId(given, h), output))]
    case Unknown => []
  }

  lemma FirstEvent(h: seq<Item>, events: seq<Event>, complete: bool)
    ensures var r := Respond(h, events, complete);
            if events == [] then r == Response(h, false, complete)
            else if events[0].Unknown? then r == Response(h, false, false)
            else
              var rest := Respond(h + Added(h, events[0]), events[1..], complete);
              && r == rest.(followUp := events[0].Invoke? || rest.followUp)
              && (h + Added(h, events[0]) <= r.history ==> StandsAt(r.history, |h|, events[0]))
  {
    hide Decimal;
  }

  /** A reply adds no user items. */
  lemma {:induction false} RespondAddsNoUser(h: seq<Item>, events: seq<Event>, complete: bool) returns (tail: seq<Item>)
    ensures Respond(h, events, complete).history == h + tail && forall y :: y in tail ==> y.role != User
    decreases |events|
  {
    tail := [];
    if events != [] {
      match events[0] {
        case Message(text) =>
          var more := [Item(Assistant, Text(text))];
          tail := RespondAddsNoUser(h + more, events[1..], complete);
          tail := more + tail;
        case Unknown =>
        case Invoke(given, name, args, output) =>
          var id := CallId(given, h);
          var more := [Item(Assistant, ToolCall(id, name, args)), Item(Tool, ToolOutput(id, output))];
          tail := RespondAddsNoUser(h + more, events[1..], complete);
          tail := more + tail;
      }
    }
  }

  function Calls(events: seq<Event>): nat {
    if events == [] then 0 else (if events[0].Invoke? then 1 else 0) + Calls(events[1..])
  }

  lemma PreparedKeepsPairs(h: seq<Item>, options: Options, round: Round)
    requires Paired(h)
    ensures Paired(Prepared(h, options, round))
  {
    CompactKeepsPairs(h, options.counter, options.compaction, true, round.summarize);
  }
}
