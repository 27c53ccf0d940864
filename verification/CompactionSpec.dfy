/** What compaction keeps of a history, said item by item. */
module CompactionSpec {
  import opened Wrappers
  import opened History

  const SUMMARY_PREFIX := "Summary of previous context:\n"

  /** Limits are in tokens; 0 or less means not set. */
  datatype Config = Config(soft: int, hard: int, recentUserTokens: int, recentOutputs: int)

  /** The summarising model answers with a text, already trimmed, or fails. */
  datatype Outcome = Summary(text: string) | NoSummary

  datatype Result = Unchanged | Failed | Compacted(history: seq<Item>, before: int, after: int, summary: int)

  predicate HasPrefix(x: Item, prefix: string) {
    x.content.Text? && prefix <= x.content.text
  }

  predicate IsUserInstructions(x: Item) {
    x.role == User && HasPrefix(x, "# AGENTS.md instructions for ")
  }

  predicate IsInstructions(x: Item) {
    x.role == Developer || IsUserInstructions(x)
  }

  predicate IsEnvironment(x: Item) {
    x.role == User && (HasPrefix(x, "<environment_context>") || HasPrefix(x, "<environment_diff>"))
  }

  predicate IsUserMessage(x: Item) {
    x.role == User && !IsUserInstructions(x) && !IsEnvironment(x)
  }

  predicate IsSummary(x: Item) {
    HasPrefix(x, SUMMARY_PREFIX)
  }

  /** `a / b` rounded up, for a dividend that is not negative. */
  function CeilDiv(a: nat, b: nat): (q: nat)
    requires b > 0
    ensures (q - 1) * b < a <= q * b
  {
    (a + b - 1) / b
  }

  /** Four fifths of the hard limit stand in for a missing soft limit, a quarter of the limit for a
      missing budget. */
  function Normalize(c: Config): Config {
    var hard := if c.hard <= 0 && c.soft > 0 then c.soft else c.hard;
    var soft := if c.soft <= 0 && hard > 0 then CeilDiv(4 * hard, 5) else c.soft;
    var budget := if c.recentUserTokens <= 0 && soft > 0 then CeilDiv(soft, 4) else c.recentUserTokens;
    c.(soft := soft, hard := hard, recentUserTokens := budget)
  }

  /** One limit is enough to have them all, in order, and normalizing again changes nothing. */
  lemma NormalizeFillsIn(c: Config)
    ensures Normalize(Normalize(c)) == Normalize(c)
    ensures var n := Normalize(c); if c.soft <= 0 && c.hard <= 0 then n == c else
              0 < n.soft && 0 < n.hard && 0 < n.recentUserTokens && (c.soft <= 0 || c.hard <= 0 ==> n.soft <= n.hard)
  {
  }

  // ---- Selection ----

  function WithoutSummaries(h: seq<Item>): seq<Item> {
    if h == [] then [] else (if IsSummary(h[0]) then [] else [h[0]]) + WithoutSummaries(h[1..])
  }

  lemma {:induction false} FilterMembers(h: seq<Item>, x: Item)
    ensures x in WithoutSummaries(h) <==> x in h && !IsSummary(x)
  {
    if h != [] {
      assert x in h <==> x == h[0] || x in h[1..];
      FilterMembers(h[1..], x);
    }
  }

  /** Index of the last item of a kind, or -1. */
  function LastWhere(h: seq<Item>, kind: Item -> bool): (r: int)
    ensures -1 <= r < |h| && (r >= 0 ==> kind(h[r])) && forall i :: r < i < |h| ==> !kind(h[i])
  {
    if h == [] then -1 else if kind(h[|h| - 1]) then |h| - 1 else LastWhere(h[..|h| - 1], kind)
  }

  /** Tokens of the user messages from position `i` on, each counted alone. */
  function UserTokens(h: seq<Item>, counter: seq<Item> -> int, i: nat): int
    requires i <= |h|
    decreases |h| - i
  {
    if i == |h| then 0
    else (if IsUserMessage(h[i]) then counter([h[i]]) else 0) + UserTokens(h, counter, i + 1)
  }

  /** The walk back over the user messages ends here: with this one they are over the budget, and
      something was taken before. */
  predicate EndsBudget(h: seq<Item>, counter: seq<Item> -> int, budget: int, i: nat)
    requires i < |h|
  {
    IsUserMessage(h[i]) && budget > 0 && UserTokens(h, counter, i) > budget && UserTokens(h, counter, i + 1) > 0
  }

  ghost predicate IsRecentMessage(h: seq<Item>, counter: seq<Item> -> int, budget: int, i: nat)
    requires i < |h|
  {
    IsUserMessage(h[i]) && forall j :: i <= j < |h| ==> !EndsBudget(h, counter, budget, j)
  }

  function CountTools(h: seq<Item>): nat {
    if h == [] then 0 else (if h[0].role == Tool then 1 else 0) + CountTools(h[1..])
  }

  /** Tool items kept: the last `limit` of them, or without a limit those after the last user message. */
  predicate IsRecentOutput(h: seq<Item>, lastUser: int, limit: int, i: nat)
    requires i < |h|
  {
    h[i].role == Tool && if limit > 0 then CountTools(h[i + 1..]) < limit else 0 <= lastUser < i
  }

  /** The nearest call with this id before a position, or -1. */
  function FindCall(h: seq<Item>, before: nat, id: string): (r: int)
    requires before <= |h|
    ensures -1 <= r < before && (r >= 0 ==> id != "" && h[r].content.ToolCall? && h[r].content.id == id)
    ensures id != "" ==> forall i :: r < i < before ==> !(h[i].content.ToolCall? && h[i].content.id == id)
  {
    if id == "" || before == 0 then -1
    else if h[before - 1].content.ToolCall? && h[before - 1].content.id == id then before - 1
    else FindCall(h, before - 1, id)
  }

  /** A kept output was made by this call. */
  ghost predicate IsCallOfOutput(h: seq<Item>, lastUser: int, limit: int, i: nat)
    requires i < |h|
  {
    exists o :: 0 <= o < |h| && IsRecentOutput(h, lastUser, limit, o)
                && h[o].content.ToolOutput? && FindCall(h, o, h[o].content.callId) == i
  }

  ghost predicate Stays(h: seq<Item>, counter: seq<Item> -> int, c: Config, i: nat)
    requires i < |h|
  {
    var lastUser := LastWhere(h, IsUserMessage);
    || IsInstructions(h[i])
    || i == LastWhere(h, IsEnvironment)
    || IsRecentMessage(h, counter, c.recentUserTokens, i)
    || IsRecentOutput(h, lastUser, c.recentOutputs, i)
    || IsCallOfOutput(h, lastUser, c.recentOutputs, i)
  }

  ghost function Kept(h: seq<Item>, counter: seq<Item> -> int, c: Config): (k: seq<bool>)
    ensures |k| == |h| && forall i :: 0 <= i < |h| ==> k[i] == Stays(h, counter, c, i)
  {
    seq(|h|, i requires 0 <= i < |h| => Stays(h, counter, c, i))
  }

  /** The items whose flag is `want`, in order. */
  function Pick(h: seq<Item>, flags: seq<bool>, want: bool): seq<Item>
    requires |flags| == |h|
  {
    if h == [] then [] else (if flags[0] == want then [h[0]] else []) + Pick(h[1..], flags[1..], want)
  }

  /** What is left to the summarising model. */
  ghost function Dropped(h: seq<Item>, counter: seq<Item> -> int, c: Config): seq<Item> {
    Pick(WithoutSummaries(h), Kept(WithoutSummaries(h), counter, c), false)
  }

  function SummaryItem(text: string): Item {
    Item(Assistant, Text(SUMMARY_PREFIX + text))
  }

  ghost function Compact(h: seq<Item>, counter: Option<seq<Item> -> int>, config: Config, hasProvider: bool,
          summarize: seq<Item> -> Outcome): Result
  {
    var c := Normalize(config);
    if counter.None? || c.soft <= 0 || counter.value(h) <= c.soft then Unchanged
    else if !hasProvider then Failed
    else
      var filtered := WithoutSummaries(h);
      var flags := Kept(filtered, counter.value, c);
      var dropped := Dropped(h, counter.value, c);
      var outcome := if dropped == [] then Summary("") else summarize(dropped);
      if outcome.NoSummary? then Failed
      else
        var tail := if outcome.text == "" then [] else [SummaryItem(outcome.text)];
        var compacted := Pick(filtered, flags, true) + tail;
        Compacted(compacted, counter.value(h), counter.value(compacted), if tail == [] then 0 else counter.value(tail))
  }

  // ---- What compaction promises ----

  lemma {:induction false} FilterKeepsPairs(h: seq<Item>)
    requires Paired(h)
    ensures Paired(WithoutSummaries(h))
    decreases |h|
  {
    if h != [] {
      if h[0].content.ToolCall? {
        assert h[1..][1..] == h[2..];
        var r := WithoutSummaries(h[2..]);
        FilterKeepsPairs(h[2..]);
        assert WithoutSummaries(h[1..]) == [h[1]] + r;
        assert WithoutSummaries(h) == [h[0], h[1]] + r;
        assert ([h[0], h[1]] + r)[2..] == r;
      } else {
        FilterKeepsPairs(h[1..]);
        var r := WithoutSummaries(h[1..]);
        assert ([h[0]] + r)[1..] == r && [] + r == r;
      }
    }
  }

  lemma CallOfNextOutput(h: seq<Item>, lastUser: int, limit: int, i: nat)
    requires Paired(h) && i < |h| && h[i].content.ToolCall?
    ensures i + 1 < |h| && Answers(h[i], h[i + 1])
    ensures IsCallOfOutput(h, lastUser, limit, i) <==> IsRecentOutput(h, lastUser, limit, i + 1)
  {
    hide Paired, IsRecentOutput;
    PairedIsAdjacent(h);
    assert PairedAt(h, i);
    assert FindCall(h, i + 1, h[i + 1].content.callId) == i;
    if IsCallOfOutput(h, lastUser, limit, i) {
      var o :| 0 <= o < |h| && IsRecentOutput(h, lastUser, limit, o)
               && h[o].content.ToolOutput? && FindCall(h, o, h[o].content.callId) == i;
      assert PairedAt(h, o);
      assert o == i + 1;
    }
  }

  lemma OnlyCallsAreCalls(h: seq<Item>, lastUser: int, limit: int, i: nat)
    requires i < |h| && !h[i].content.ToolCall?
    ensures !IsCallOfOutput(h, lastUser, limit, i)
  {
  }

  /** In a paired history an output is kept exactly when the call before it is. */
  lemma CallStaysWithOutput(h: seq<Item>, counter: seq<Item> -> int, c: Config, i: nat)
    requires Paired(h) && i < |h| && h[i].content.ToolCall?
    ensures i + 1 < |h| && (Stays(h, counter, c, i) <==> Stays(h, counter, c, i + 1))
  {
    hide Paired, EndsBudget, CountTools, IsCallOfOutput;
    var lastUser := LastWhere(h, IsUserMessage);
    CallOfNextOutput(h, lastUser, c.recentOutputs, i);
    OnlyCallsAreCalls(h, lastUser, c.recentOutputs, i + 1);
  }

  lemma {:induction false} PickKeepsPairs(h: seq<Item>, flags: seq<bool>, want: bool)
    requires Paired(h) && |flags| == |h|
    requires forall i :: 0 <= i < |h| - 1 && h[i].content.ToolCall? ==> flags[i] == flags[i + 1]
    ensures Paired(Pick(h, flags, want))
    decreases |h|
  {
    if h != [] {
      if h[0].content.ToolCall? {
        assert h[1..][1..] == h[2..] && flags[1..][1..] == flags[2..];
        forall i | 0 <= i < |h[2..]| - 1 && h[2..][i].content.ToolCall?
          ensures flags[2..][i] == flags[2..][i + 1]
        {
          assert h[i + 2].content.ToolCall?;
        }
        PickKeepsPairs(h[2..], flags[2..], want);
        var r := Pick(h[2..], flags[2..], want);
        assert Pick(h[1..], flags[1..], want) == (if flags[1] == want then [h[1]] else []) + r;
        assert Pick(h, flags, want) == (if flags[0] == want then [h[0], h[1]] else []) + r;
        assert ([h[0], h[1]] + r)[2..] == r && [] + r == r;
      } else {
        forall i | 0 <= i < |h[1..]| - 1 && h[1..][i].content.ToolCall?
          ensures flags[1..][i] == flags[1..][i + 1]
        {
          assert h[i + 1].content.ToolCall?;
        }
        PickKeepsPairs(h[1..], flags[1..], want);
        var r := Pick(h[1..], flags[1..], want);
        assert ([h[0]] + r)[1..] == r && [] + r == r;
      }
    }
  }

  /** Compaction never separates a call from its output. */
  lemma CompactKeepsPairs(h: seq<Item>, counter: Option<seq<Item> -> int>, config: Config, hasProvider: bool,
          summarize: seq<Item> -> Outcome)
    requires Paired(h)
    ensures var r := Compact(h, counter, config, hasProvider, summarize); r.Compacted? ==> Paired(r.history)
  {
    var r := Compact(h, counter, config, hasProvider, summarize);
    if r.Compacted? {
      var c := Normalize(config);
      var filtered := WithoutSummaries(h);
      var flags := Kept(filtered, counter.value, c);
      FilterKeepsPairs(h);
      forall i | 0 <= i < |filtered| - 1 && filtered[i].content.ToolCall?
        ensures flags[i] == flags[i + 1]
      {
        CallStaysWithOutput(filtered, counter.value, c, i);
      }
      PickKeepsPairs(filtered, flags, true);
      var kept := Pick(filtered, flags, true);
      var tail := r.history[|kept|..];
      assert r.history == kept + tail;
      assert Paired(tail);
      PairedAppend(kept, tail);
    }
  }

  lemma {:induction false} PickMembers(h: seq<Item>, flags: seq<bool>, want: bool, x: Item)
    requires |flags| == |h|
    ensures x in Pick(h, flags, want) <==> exists i :: 0 <= i < |h| && h[i] == x && flags[i] == want
  {
    if h != [] {
      PickMembers(h[1..], flags[1..], want, x);
      if x in Pick(h[1..], flags[1..], want) {
        var i :| 0 <= i < |h[1..]| && h[1..][i] == x && flags[1..][i] == want;
        assert h[i + 1] == x && flags[i + 1] == want;
      }
      if i :| 0 <= i < |h| && h[i] == x && flags[i] == want {
        if i > 0 {
          assert h[1..][i - 1] == x && flags[1..][i - 1] == want;
        }
      }
    }
  }

  /** Nothing is lost and nothing is doubled: what is not an old summary is kept or summarised. */
  lemma {:induction false} PickPartitions(h: seq<Item>, flags: seq<bool>)
    requires |flags| == |h|
    ensures multiset(Pick(h, flags, true)) + multiset(Pick(h, flags, false)) == multiset(h)
  {
    if h != [] {
      PickPartitions(h[1..], flags[1..]);
      assert h == [h[0]] + h[1..];
    }
  }

  /** At most one summary is left, at the end. */
  lemma OneSummaryIsLeft(h: seq<Item>, counter: Option<seq<Item> -> int>, config: Config, hasProvider: bool,
          summarize: seq<Item> -> Outcome)
    ensures var r := Compact(h, counter, config, hasProvider, summarize);
            r.Compacted? ==> forall i :: 0 <= i < |r.history| && IsSummary(r.history[i]) ==> i == |r.history| - 1
  {
    var r := Compact(h, counter, config, hasProvider, summarize);
    if r.Compacted? {
      var c := Normalize(config);
      var filtered := WithoutSummaries(h);
      var flags := Kept(filtered, counter.value, c);
      var kept := Pick(filtered, flags, true);
      forall i | 0 <= i < |kept|
        ensures !IsSummary(r.history[i])
      {
        PickMembers(filtered, flags, true, kept[i]);
        FilterMembers(h, kept[i]);
        assert kept[i] == r.history[i];
      }
    }
  }

  /** Developer and user instructions always survive, except a developer text that looks like a
      summary: that one disappears without being summarised. */
  lemma InstructionsSurvive(h: seq<Item>, counter: Option<seq<Item> -> int>, config: Config, hasProvider: bool,
          summarize: seq<Item> -> Outcome, x: Item)
    requires x in h && IsInstructions(x)
    ensures var r := Compact(h, counter, config, hasProvider, summarize);
            r.Compacted? ==> (x in r.history <==> !IsSummary(x)) && x !in Dropped(h, counter.value, Normalize(config))
  {
    var r := Compact(h, counter, config, hasProvider, summarize);
    if r.Compacted? {
      var filtered := WithoutSummaries(h);
      var flags := Kept(filtered, counter.value, Normalize(config));
      PickMembers(filtered, flags, true, x);
      PickMembers(filtered, flags, false, x);
      FilterMembers(h, x);
      if x in filtered {
        var i :| 0 <= i < |filtered| && filtered[i] == x;
        assert flags[i];
      }
    }
  }

  lemma {:induction false} FilterAppend(a: seq<Item>, b: seq<Item>)
    ensures WithoutSummaries(a + b) == WithoutSummaries(a) + WithoutSummaries(b)
  {
    if a == [] {
      assert a + b == b;
    } else {
      assert (a + b)[1..] == a[1..] + b;
      FilterAppend(a[1..], b);
    }
  }

  /** Filtering out old summaries leaves the last item of a kind the last one. */
  lemma LastStaysLast(h: seq<Item>, kind: Item -> bool)
    requires LastWhere(h, kind) >= 0 && !IsSummary(h[LastWhere(h, kind)])
    ensures var f := WithoutSummaries(h); var j := LastWhere(f, kind); j >= 0 && f[j] == h[LastWhere(h, kind)]
  {
    hide LastWhere;
    var i := LastWhere(h, kind);
    var a, b := WithoutSummaries(h[..i]), WithoutSummaries(h[i + 1..]);
    FilterAround(h[..i], h[i], h[i + 1..]);
    assert h == h[..i] + [h[i]] + h[i + 1..];
    hide WithoutSummaries;
    forall x | x in b
      ensures !kind(x)
    {
      FilterMembers(h[i + 1..], x);
      assert x in h[i + 1..];
    }
    LastIs(a + [h[i]] + b, kind, |a|);
  }

  lemma FilterAround(a: seq<Item>, x: Item, b: seq<Item>)
    requires !IsSummary(x)
    ensures WithoutSummaries(a + [x] + b) == WithoutSummaries(a) + [x] + WithoutSummaries(b)
  {
    FilterAppend(a, [x]);
    FilterAppend(a + [x], b);
    assert WithoutSummaries([x][1..]) == [];
  }

  lemma LastIs(f: seq<Item>, kind: Item -> bool, p: nat)
    requires p < |f| && kind(f[p]) && forall x :: x in f[p + 1..] ==> !kind(x)
    ensures LastWhere(f, kind) == p
  {
    forall k | p < k < |f|
      ensures !kind(f[k])
    {
      assert f[k] == f[p + 1..][k - p - 1];
    }
  }

  lemma {:induction false} NoTokensAfter(h: seq<Item>, counter: seq<Item> -> int, i: nat)
    requires i <= |h| && forall k :: i <= k < |h| ==> !IsUserMessage(h[k])
    ensures UserTokens(h, counter, i) == 0
    decreases |h| - i
  {
    if i < |h| {
      NoTokensAfter(h, counter, i + 1);
    }
  }

  lemma StayersAreLeft(h: seq<Item>, counter: Option<seq<Item> -> int>, config: Config, hasProvider: bool,
          summarize: seq<Item> -> Outcome, j: nat)
    requires j < |WithoutSummaries(h)| && counter.Some?
    requires Stays(WithoutSummaries(h), counter.value, Normalize(config), j)
    ensures var r := Compact(h, counter, config, hasProvider, summarize);
            r.Compacted? ==> WithoutSummaries(h)[j] in r.history
  {
    hide Stays;
    var f := WithoutSummaries(h);
    PickMembers(f, Kept(f, counter.value, Normalize(config)), true, f[j]);
  }

  /** The latest environment item always survives. */
  lemma EnvironmentSurvives(h: seq<Item>, counter: Option<seq<Item> -> int>, config: Config, hasProvider: bool,
          summarize: seq<Item> -> Outcome)
    requires LastWhere(h, IsEnvironment) >= 0
    ensures var r := Compact(h, counter, config, hasProvider, summarize);
            r.Compacted? ==> h[LastWhere(h, IsEnvironment)] in r.history
  {
    assert '<' == "<environment_context>"[0] == "<environment_diff>"[0] && SUMMARY_PREFIX[0] == 'S';
    if counter.Some? {
      LastStaysLast(h, IsEnvironment);
      StayersAreLeft(h, counter, config, hasProvider, summarize, LastWhere(WithoutSummaries(h), IsEnvironment));
    }
  }

  /** So does the latest user message, whatever its size, unless its text starts like a summary: then it
      disappears without being summarised. */
  lemma LatestMessageSurvives(h: seq<Item>, counter: Option<seq<Item> -> int>, config: Config, hasProvider: bool,
          summarize: seq<Item> -> Outcome)
    requires LastWhere(h, IsUserMessage) >= 0
    ensures var r := Compact(h, counter, config, hasProvider, summarize);
            var x := h[LastWhere(h, IsUserMessage)];
            r.Compacted? ==>
              && (x in r.history <==> !IsSummary(x))
              && (IsSummary(x) ==> x !in Dropped(h, counter.value, Normalize(config)))
  {
    var r := Compact(h, counter, config, hasProvider, summarize);
    var x := h[LastWhere(h, IsUserMessage)];
    if r.Compacted? {
      if IsSummary(x) {
        SummariesVanish(h, counter, config, hasProvider, summarize, x);
      } else {
        LastStaysLast(h, IsUserMessage);
        MessageStays(WithoutSummaries(h), counter.value, Normalize(config));
        StayersAreLeft(h, counter, config, hasProvider, summarize, LastWhere(WithoutSummaries(h), IsUserMessage));
      }
    }
  }

  /** A message that starts like a summary is dropped, and is not in the text it is replaced by. */
  lemma SummaryLikeMessageIsDropped(text: string, answer: string, said: string)
    ensures var x := Item(User, Text(SUMMARY_PREFIX + text));
            var h := [x, Item(Assistant, Text(answer))];
            var counter := (items: seq<Item>) => |items|;
            var r := Compact(h, Some(counter), Config(1, 1, 1, 0), true, items => Summary(said));
            && LastWhere(h, IsUserMessage) == 0
            && r.Compacted? && x !in r.history && x !in Dropped(h, counter, Normalize(Config(1, 1, 1, 0)))
  {
    var x := Item(User, Text(SUMMARY_PREFIX + text));
    var h := [x, Item(Assistant, Text(answer))];
    assert x.content.text[0] == 'S' && IsSummary(x);
    assert LastWhere([x], IsUserMessage) == 0 && h[..1] == [x];
    LatestMessageSurvives(h, Some((items: seq<Item>) => |items|), Config(1, 1, 1, 0), true, items => Summary(said));
  }

  lemma SummariesVanish(h: seq<Item>, counter: Option<seq<Item> -> int>, config: Config, hasProvider: bool,
          summarize: seq<Item> -> Outcome, x: Item)
    requires IsSummary(x) && x.role != Assistant
    ensures var r := Compact(h, counter, config, hasProvider, summarize); r.Compacted? ==> x !in r.history
    ensures counter.Some? ==> x !in Dropped(h, counter.value, Normalize(config))
  {
    hide Stays;
    if counter.Some? {
      var f := WithoutSummaries(h);
      PickMembers(f, Kept(f, counter.value, Normalize(config)), true, x);
      PickMembers(f, Kept(f, counter.value, Normalize(config)), false, x);
      FilterMembers(h, x);
    }
  }

  lemma MessageStays(f: seq<Item>, counter: seq<Item> -> int, c: Config)
    requires LastWhere(f, IsUserMessage) >= 0
    ensures Stays(f, counter, c, LastWhere(f, IsUserMessage))
  {
    var j := LastWhere(f, IsUserMessage);
    NoTokensAfter(f, counter, j + 1);
    assert IsRecentMessage(f, counter, c.recentUserTokens, j);
  }

  lemma {:induction false} LimitCounts(h: seq<Item>, flags: seq<bool>, limit: nat)
    requires |flags| == |h|
    requires forall i :: 0 <= i < |h| && h[i].role == Tool ==> (flags[i] <==> CountTools(h[i + 1..]) < limit)
    ensures CountTools(Pick(h, flags, true)) == if CountTools(h) < limit then CountTools(h) else limit
  {
    if h != [] {
      forall i | 0 <= i < |h[1..]| && h[1..][i].role == Tool
        ensures flags[1..][i] <==> CountTools(h[1..][i + 1..]) < limit
      {
        assert h[1..][i + 1..] == h[i + 1..][1..] == h[i + 2..];
        assert h[i + 1].role == Tool;
      }
      LimitCounts(h[1..], flags[1..], limit);
      var r := Pick(h[1..], flags[1..], true);
      assert ([h[0]] + r)[1..] == r && [] + r == r;
    }
  }

  lemma {:induction false} CountToolsAppend(a: seq<Item>, b: seq<Item>)
    ensures CountTools(a + b) == CountTools(a) + CountTools(b)
  {
    if a == [] {
      assert a + b == b;
    } else {
      assert (a + b)[1..] == a[1..] + b;
      CountToolsAppend(a[1..], b);
    }
  }

  lemma OutputStays(f: seq<Item>, counter: seq<Item> -> int, c: Config, i: nat)
    requires Paired(f) && i < |f| && f[i].role == Tool && c.recentOutputs > 0
    ensures Stays(f, counter, c, i) <==> CountTools(f[i + 1..]) < c.recentOutputs
  {
    hide Paired, EndsBudget, CountTools, IsCallOfOutput, LastWhere;
    PairedIsAdjacent(f);
    assert PairedAt(f, i);
    OnlyCallsAreCalls(f, LastWhere(f, IsUserMessage), c.recentOutputs, i);
  }

  /** With a limit on outputs, compaction leaves that many outputs, or all if there are fewer. */
  lemma OutputLimitIsMet(h: seq<Item>, counter: Option<seq<Item> -> int>, config: Config, hasProvider: bool,
          summarize: seq<Item> -> Outcome)
    requires Paired(h) && config.recentOutputs > 0
    ensures var r := Compact(h, counter, config, hasProvider, summarize);
            var n := CountTools(WithoutSummaries(h));
            r.Compacted? ==> CountTools(r.history) == if n < config.recentOutputs then n else config.recentOutputs
  {
    hide Paired, Stays;
    var r := Compact(h, counter, config, hasProvider, summarize);
    if r.Compacted? {
      var c := Normalize(config);
      var f := WithoutSummaries(h);
      var flags := Kept(f, counter.value, c);
      FilterKeepsPairs(h);
      forall i | 0 <= i < |f| && f[i].role == Tool
        ensures flags[i] <==> CountTools(f[i + 1..]) < config.recentOutputs
      {
        OutputStays(f, counter.value, c, i);
      }
      LimitCounts(f, flags, config.recentOutputs);
      var kept := Pick(f, flags, true);
      var tail := r.history[|kept|..];
      assert r.history == kept + tail;
      CountToolsAppend(kept, tail);
      assert CountTools(tail) == 0;
    }
  }

  // ---- The message being answered ----

  /** The kinds of text a user item can be. */
  ghost predicate IsUserKind(kind: Item -> bool) {
    kind == IsUserInstructions || kind == IsEnvironment || kind == IsUserMessage
  }

  ghost function KindOf(x: Item): (kind: Item -> bool)
    ensures IsUserKind(kind) && (x.role == User ==> kind(x))
  {
    if IsUserInstructions(x) then IsUserInstructions else if IsEnvironment(x) then IsEnvironment else IsUserMessage
  }

  lemma UserKindIsUser(kind: Item -> bool, y: Item)
    requires IsUserKind(kind) && y.role != User
    ensures !kind(y)
  {
  }

  /** `x` is the latest item of its kind. */
  ghost predicate Latest(h: seq<Item>, kind: Item -> bool, x: Item) {
    var i := LastWhere(h, kind);
    i >= 0 && h[i] == x
  }

  lemma LatestAppend(h: seq<Item>, tail: seq<Item>, kind: Item -> bool, x: Item)
    requires Latest(h, kind, x) && IsUserKind(kind) && forall y :: y in tail ==> y.role != User
    ensures Latest(h + tail, kind, x)
  {
    hide LastWhere, IsUserKind;
    var i := LastWhere(h, kind);
    forall y | y in (h + tail)[i + 1..]
      ensures !kind(y)
    {
      assert (h + tail)[i + 1..] == h[i + 1..] + tail;
      if y in tail {
        UserKindIsUser(kind, y);
      }
    }
    LastIs(h + tail, kind, i);
  }

  lemma {:induction false} PickAppend(a: seq<Item>, b: seq<Item>, fa: seq<bool>, fb: seq<bool>, want: bool)
    requires |a| == |fa| && |b| == |fb|
    ensures Pick(a + b, fa + fb, want) == Pick(a, fa, want) + Pick(b, fb, want)
  {
    if a == [] {
      assert a + b == b && fa + fb == fb;
    } else {
      assert (a + b)[1..] == a[1..] + b && (fa + fb)[1..] == fa[1..] + fb;
      PickAppend(a[1..], b, fa[1..], fb, want);
      var first := if fa[0] == want then [a[0]] else [];
      assert Pick(a + b, fa + fb, want) == first + (Pick(a[1..], fa[1..], want) + Pick(b, fb, want));
    }
  }

  lemma PickKeepsLatest(h: seq<Item>, flags: seq<bool>, kind: Item -> bool, x: Item)
    requires |flags| == |h| && Latest(h, kind, x) && flags[LastWhere(h, kind)]
    ensures Latest(Pick(h, flags, true), kind, x)
  {
    hide LastWhere;
    var i := LastWhere(h, kind);
    var a, b := Pick(h[..i], flags[..i], true), Pick(h[i + 1..], flags[i + 1..], true);
    PickAround(h, flags, i);
    hide Pick;
    forall y | y in b
      ensures !kind(y)
    {
      PickMembers(h[i + 1..], flags[i + 1..], true, y);
    }
    LastIs(a + [x] + b, kind, |a|);
  }

  lemma PickFirst(h: seq<Item>, flags: seq<bool>)
    requires |flags| == |h| > 0 && flags[0]
    ensures Pick(h, flags, true) == [h[0]] + Pick(h[1..], flags[1..], true)
  {
  }

  lemma PickAround(h: seq<Item>, flags: seq<bool>, i: nat)
    requires |flags| == |h| && i < |h| && flags[i]
    ensures Pick(h, flags, true) == Pick(h[..i], flags[..i], true) + [h[i]] + Pick(h[i + 1..], flags[i + 1..], true)
  {
    hide Pick;
    assert h == h[..i] + h[i..] && flags == flags[..i] + flags[i..];
    PickAppend(h[..i], h[i..], flags[..i], flags[i..], true);
    PickFirst(h[i..], flags[i..]);
    assert h[i..][1..] == h[i + 1..] && flags[i..][1..] == flags[i + 1..];
  }

  lemma LatestStays(f: seq<Item>, counter: seq<Item> -> int, c: Config, kind: Item -> bool)
    requires IsUserKind(kind) && LastWhere(f, kind) >= 0
    ensures Stays(f, counter, c, LastWhere(f, kind))
  {
    hide IsRecentMessage, IsRecentOutput, IsCallOfOutput, LastWhere;
    if kind == IsUserMessage {
      MessageStays(f, counter, c);
    }
  }

  /** The latest user item of its kind is still the latest after compaction, unless it looks like a
      summary. */
  lemma CompactKeepsLatest(h: seq<Item>, counter: Option<seq<Item> -> int>, config: Config, hasProvider: bool,
          summarize: seq<Item> -> Outcome, kind: Item -> bool, x: Item)
    requires IsUserKind(kind) && Latest(h, kind, x) && !IsSummary(x)
    ensures var r := Compact(h, counter, config, hasProvider, summarize); r.Compacted? ==> Latest(r.history, kind, x)
  {
    hide LastWhere, Stays, IsUserKind;
    var r := Compact(h, counter, config, hasProvider, summarize);
    if r.Compacted? {
      var c := Normalize(config);
      var f := WithoutSummaries(h);
      var flags := Kept(f, counter.value, c);
      LastStaysLast(h, kind);
      LatestStays(f, counter.value, c, kind);
      PickKeepsLatest(f, flags, kind, x);
      var kept := Pick(f, flags, true);
      var tail := r.history[|kept|..];
      assert r.history == kept + tail;
      LatestAppend(kept, tail, kind, x);
    }
  }
}
