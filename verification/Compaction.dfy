/** Compaction as it runs: boolean arrays filled by loops, then one pass over the history. */
module Compaction {
  import opened Wrappers
  import opened History
  import opened CompactionSpec

  method FilterSummaryItems(h: seq<Item>) returns (filtered: seq<Item>)
    ensures filtered == WithoutSummaries(h)
  {
    filtered := [];
    for n := 0 to |h|
      invariant filtered + WithoutSummaries(h[n..]) == WithoutSummaries(h)
    {
      assert h[n..][1..] == h[n + 1..];
      if !IsSummary(h[n]) {
        filtered := filtered + [h[n]];
      }
    }
  }

  method LastEnvironmentIndex(h: seq<Item>) returns (r: int)
    ensures r == LastWhere(h, IsEnvironment)
  {
    for n := |h| downto 0
      invariant forall k :: n <= k < |h| ==> !IsEnvironment(h[k])
    {
      if IsEnvironment(h[n]) {
        return n;
      }
    }
    return -1;
  }

  /** The second loop of the source, for the case that nothing was kept, never finds a message. */
  method SelectRecentUserMessages(h: seq<Item>, counter: seq<Item> -> int, budget: int)
    returns (keep: array<bool>, lastUser: int)
    ensures fresh(keep) && keep.Length == |h| && lastUser == LastWhere(h, IsUserMessage)
    ensures forall i :: 0 <= i < |h| ==> (keep[i] <==> IsRecentMessage(h, counter, budget, i))
  {
    keep := new bool[|h|](_ => false);
    var total, i := 0, |h|;
    lastUser := -1;
    while i > 0
      invariant 0 <= i <= |h| && total == UserTokens(h, counter, i)
      invariant forall k :: 0 <= k < i ==> !keep[k]
      invariant forall k :: i <= k < |h| ==> keep[k] == IsUserMessage(h[k]) && !EndsBudget(h, counter, budget, k)
      invariant lastUser == -1 ==> total == 0 && forall k :: i <= k < |h| ==> !IsUserMessage(h[k])
      invariant lastUser >= 0 ==> i <= lastUser < |h| && IsUserMessage(h[lastUser])
      invariant lastUser >= 0 ==> forall k :: lastUser < k < |h| ==> !IsUserMessage(h[k])
      invariant lastUser >= -1
    {
      i := i - 1;
      if IsUserMessage(h[i]) {
        var tokens := counter([h[i]]);
        if budget > 0 && total + tokens > budget && total > 0 {
          assert EndsBudget(h, counter, budget, i);
          break;
        }
        keep[i] := true;
        total := total + tokens;
        if lastUser == -1 {
          lastUser := i;
        }
      }
    }
    if lastUser == -1 {
      for n := |h| downto 0
      {
        if IsUserMessage(h[n]) {
          assert false;
        }
      }
    }
  }

  method SelectToolOutputs(h: seq<Item>, lastUser: int, limit: int) returns (keep: array<bool>)
    requires lastUser < |h|
    ensures fresh(keep) && keep.Length == |h|
    ensures forall i :: 0 <= i < |h| ==> (keep[i] <==> IsRecentOutput(h, lastUser, limit, i))
  {
    keep := new bool[|h|](_ => false);
    if limit > 0 {
      var count, i := 0, |h|;
      while i > 0 && count < limit
        invariant 0 <= i <= |h| && count == CountTools(h[i..]) <= limit
        invariant forall k :: 0 <= k < i ==> !keep[k]
        invariant forall k :: i <= k < |h| ==> (keep[k] <==> IsRecentOutput(h, lastUser, limit, k))
      {
        i := i - 1;
        assert h[i..][1..] == h[i + 1..];
        if h[i].role == Tool {
          keep[i] := true;
          count := count + 1;
        }
      }
      forall k | 0 <= k < i
        ensures !(limit > 0 && count == limit && IsRecentOutput(h, lastUser, limit, k))
      {
        CountToolsAppend(h[k + 1..i], h[i..]);
        assert h[k + 1..] == h[k + 1..i] + h[i..];
      }
    } else if lastUser >= 0 {
      for i := lastUser + 1 to |h|
        invariant forall k :: 0 <= k < |h| ==> (keep[k] <==> k < i && IsRecentOutput(h, lastUser, limit, k))
      {
        if h[i].role == Tool {
          keep[i] := true;
        }
      }
    }
  }

  method FindToolCallIndex(h: seq<Item>, before: nat, id: string) returns (r: int)
    requires before <= |h|
    ensures r == FindCall(h, before, id)
  {
    if id == "" {
      return -1;
    }
    for i := before downto 0
      invariant forall k :: i <= k < before ==> !(h[k].content.ToolCall? && h[k].content.id == id)
    {
      if h[i].content.ToolCall? && h[i].content.id == id {
        return i;
      }
    }
    return -1;
  }

  method SelectToolCallsForOutputs(h: seq<Item>, outputs: array<bool>, ghost lastUser: int, ghost limit: int)
    returns (keep: array<bool>)
    requires outputs.Length == |h|
    requires forall i :: 0 <= i < |h| ==> (outputs[i] <==> IsRecentOutput(h, lastUser, limit, i))
    ensures fresh(keep) && keep.Length == |h|
    ensures forall i :: 0 <= i < |h| ==> (keep[i] <==> IsCallOfOutput(h, lastUser, limit, i))
  {
    hide IsRecentOutput;
    keep := new bool[|h|](_ => false);
    for o := 0 to |h|
      invariant forall i :: 0 <= i < |h| && keep[i] ==> IsCallOfOutput(h, lastUser, limit, i)
      invariant forall p :: 0 <= p < o && outputs[p] && h[p].content.ToolOutput? ==>
                  var c := FindCall(h, p, h[p].content.callId); c >= 0 ==> keep[c]
      invariant forall i :: 0 <= i < |h| ==> (outputs[i] <==> IsRecentOutput(h, lastUser, limit, i))
    {
      if outputs[o] && h[o].content.ToolOutput? {
        var c := FindToolCallIndex(h, o, h[o].content.callId);
        if c >= 0 {
          keep[c] := true;
        }
      }
    }
  }

  method MergeKeep(target: array<bool>, source: array<bool>)
    requires target != source
    modifies target
    ensures forall i :: 0 <= i < target.Length ==> target[i] == (old(target[i]) || (i < source.Length && source[i]))
  {
    for n := 0 to target.Length
      invariant forall i :: 0 <= i < target.Length ==>
                target[i] == (old(target[i]) || (i < n && i < source.Length && source[i]))
    {
      if n < source.Length && source[n] {
        target[n] := true;
      }
    }
  }

  method Collect(h: seq<Item>, keep: array<bool>, want: bool) returns (items: seq<Item>)
    requires keep.Length == |h|
    ensures items == Pick(h, keep[..], want)
  {
    items := [];
    for n := 0 to |h|
      invariant items + Pick(h[n..], keep[n..], want) == Pick(h, keep[..], want)
    {
      assert h[n..][1..] == h[n + 1..] && keep[n..][1..] == keep[n + 1..];
      if keep[n] == want {
        items := items + [h[n]];
      }
    }
  }

  /** All the keep flags of a history without old summaries. */
  method SelectKept(h: seq<Item>, counter: seq<Item> -> int, c: Config) returns (keep: array<bool>)
    ensures fresh(keep) && keep[..] == Kept(h, counter, c)
  {
    hide IsInstructions, IsUserMessage, IsEnvironment, IsRecentMessage, IsRecentOutput, IsCallOfOutput, LastWhere;
    keep := new bool[|h|](_ => false);
    for n := 0 to |h|
      invariant forall i :: 0 <= i < |h| ==> (keep[i] <==> i < n && IsInstructions(h[i]))
    {
      if IsInstructions(h[n]) {
        keep[n] := true;
      }
    }
    var environment := LastEnvironmentIndex(h);
    if environment >= 0 {
      keep[environment] := true;
    }
    var messages, lastUser := SelectRecentUserMessages(h, counter, c.recentUserTokens);
    MergeKeep(keep, messages);
    var outputs := SelectToolOutputs(h, lastUser, c.recentOutputs);
    MergeKeep(keep, outputs);
    var calls := SelectToolCallsForOutputs(h, outputs, lastUser, c.recentOutputs);
    MergeKeep(keep, calls);
    assert forall i :: 0 <= i < |h| ==> keep[i] == Stays(h, counter, c, i);
  }

  /** Summarises and trims a history over the soft limit. */
  method CompactHistory(h: seq<Item>, counter: Option<seq<Item> -> int>, config: Config, hasProvider: bool,
          summarize: seq<Item> -> Outcome)
    returns (r: Result)
    ensures r == Compact(h, counter, config, hasProvider, summarize)
  {
    hide Stays, Pick;
    var c := Normalize(config);
    if counter.None? || c.soft <= 0 {
      return Unchanged;
    }
    var before := counter.value(h);
    if before <= c.soft {
      return Unchanged;
    }
    if !hasProvider {
      return Failed;
    }
    var filtered := FilterSummaryItems(h);
    var keep := SelectKept(filtered, counter.value, c);
    var summaryItems := Collect(filtered, keep, false);
    var summary := "";
    if |summaryItems| > 0 {
      var outcome := summarize(summaryItems);
      if outcome.NoSummary? {
        return Failed;
      }
      summary := outcome.text;
    }
    var compacted := Collect(filtered, keep, true);
    var summaryTokens := 0;
    if summary != "" {
      compacted := compacted + [SummaryItem(summary)];
      summaryTokens := counter.value([SummaryItem(summary)]);
    } else {
      assert compacted + [] == compacted;
    }
    return Compacted(compacted, before, counter.value(compacted), summaryTokens);
  }
}
