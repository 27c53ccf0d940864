/** When a history is compacted, and what exactly becomes of every item. */
module CompactionExact {
  import opened Wrappers
  import opened History
  import opened CompactionSpec

  // ---- The limits ----

  /** What is set stays; a missing soft limit is four fifths of the hard one, a missing hard limit the soft one, and
      a missing budget a quarter of the soft limit, all rounded up. */
  lemma LimitsAreExact(c: Config)
    requires c.soft > 0 || c.hard > 0
    ensures var n := Normalize(c);
            && (if c.soft > 0 then n.soft == c.soft else 4 * c.hard <= 5 * n.soft < 4 * c.hard + 5)
            && (if c.hard > 0 then n.hard == c.hard else n.hard == c.soft)
            && (if c.recentUserTokens > 0 then n.recentUserTokens == c.recentUserTokens
                else n.soft <= 4 * n.recentUserTokens < n.soft + 4)
            && n.recentOutputs == c.recentOutputs
  {
  }

  /** The history counts more tokens than the soft limit, which is four fifths of the hard one if only that is
      set. */
  predicate IsOver(tokens: int, c: Config) {
    if c.soft > 0 then tokens > c.soft else c.hard > 0 && 5 * (tokens - 1) >= 4 * c.hard
  }

  // ---- What a compaction does ----

  /** `h` at these positions. */
  function At(h: seq<Item>, ps: seq<nat>): (r: seq<Item>)
    requires forall i :: 0 <= i < |ps| ==> ps[i] < |h|
    ensures |r| == |ps| && forall i :: 0 <= i < |ps| ==> r[i] == h[ps[i]]
  {
    seq(|ps|, i requires 0 <= i < |ps| => h[ps[i]])
  }

  ghost predicate Increasing(ps: seq<nat>) {
    forall i, j :: 0 <= i < j < |ps| ==> ps[i] < ps[j]
  }

  /** `all` are the items that do not start like a summary; each is kept or left out, in order. */
  ghost predicate Splits(h: seq<Item>, all: seq<nat>, kept: seq<nat>, out: seq<nat>) {
    && Increasing(all) && Increasing(kept) && Increasing(out)
    && (forall p: nat :: p in all <==> p < |h| && !IsSummary(h[p]))
    && (forall p: nat :: p in all ==> (p in kept <==> p !in out))
    && (forall p: nat :: p in kept || p in out ==> p in all)
    && (forall i :: 0 <= i < |all| ==> all[i] < |h|)
    && (forall i :: 0 <= i < |kept| ==> kept[i] < |h|)
    && (forall i :: 0 <= i < |out| ==> out[i] < |h|)
  }

  /** Where the items stand that do not start like a summary. */
  function Unsummarised(h: seq<Item>, start: nat): (ps: seq<nat>)
    ensures forall i :: 0 <= i < |ps| ==> start <= ps[i] < start + |h| && !IsSummary(h[ps[i] - start])
    ensures forall i, j :: 0 <= i < j < |ps| ==> ps[i] < ps[j]
  {
    if h == [] then [] else (if IsSummary(h[0]) then [] else [start]) + Unsummarised(h[1..], start + 1)
  }

  lemma {:induction false} AllUnsummarised(h: seq<Item>, start: nat, i: nat)
    requires i < |h| && !IsSummary(h[i])
    ensures start + i in Unsummarised(h, start)
  {
    if i > 0 {
      AllUnsummarised(h[1..], start + 1, i - 1);
    }
  }

  lemma {:induction false} FilterAt(h: seq<Item>, start: nat)
    ensures |WithoutSummaries(h)| == |Unsummarised(h, start)|
    ensures forall i :: 0 <= i < |WithoutSummaries(h)| ==>
              WithoutSummaries(h)[i] == h[Unsummarised(h, start)[i] - start]
  {
    if h != [] {
      FilterAt(h[1..], start + 1);
      var f, ps := WithoutSummaries(h[1..]), Unsummarised(h[1..], start + 1);
      FilterStep(h, start);
      hide WithoutSummaries, Unsummarised, IsSummary;
      forall i | 0 <= i < |f|
        ensures f[i] == h[ps[i] - start]
      {
        assert h[1..][ps[i] - (start + 1)] == h[ps[i] - start];
      }
    }
  }

  lemma FilterStep(h: seq<Item>, start: nat)
    requires h != []
    ensures WithoutSummaries(h) == (if IsSummary(h[0]) then [] else [h[0]]) + WithoutSummaries(h[1..])
    ensures Unsummarised(h, start) == (if IsSummary(h[0]) then [] else [start]) + Unsummarised(h[1..], start + 1)
  {
  }

  /** The positions whose flag is `want`. */
  function Chosen(ps: seq<nat>, flags: seq<bool>, want: bool): seq<nat>
    requires |flags| == |ps|
  {
    if ps == [] then [] else (if flags[0] == want then [ps[0]] else []) + Chosen(ps[1..], flags[1..], want)
  }

  lemma {:induction false} ChosenMembers(ps: seq<nat>, flags: seq<bool>, want: bool, p: nat)
    requires |flags| == |ps|
    ensures p in Chosen(ps, flags, want) <==> exists i :: 0 <= i < |ps| && ps[i] == p && flags[i] == want
  {
    if ps != [] {
      ChosenMembers(ps[1..], flags[1..], want, p);
      if p in Chosen(ps[1..], flags[1..], want) {
        var i :| 0 <= i < |ps[1..]| && ps[1..][i] == p && flags[1..][i] == want;
        assert ps[i + 1] == p && flags[i + 1] == want;
      }
      if i :| 0 <= i < |ps| && ps[i] == p && flags[i] == want {
        if i > 0 {
          assert ps[1..][i - 1] == p && flags[1..][i - 1] == want;
        }
      }
    }
  }

  lemma {:induction false} ChosenSorted(ps: seq<nat>, flags: seq<bool>, want: bool)
    requires |flags| == |ps| && forall i, j :: 0 <= i < j < |ps| ==> ps[i] < ps[j]
    ensures var c := Chosen(ps, flags, want); forall i, j :: 0 <= i < j < |c| ==> c[i] < c[j]
  {
    if ps != [] {
      ChosenSorted(ps[1..], flags[1..], want);
      var rest := Chosen(ps[1..], flags[1..], want);
      forall k | 0 <= k < |rest|
        ensures ps[0] < rest[k]
      {
        ChosenMembers(ps[1..], flags[1..], want, rest[k]);
      }
    }
  }

  lemma ChosenSplit(h: seq<Item>, flags: seq<bool>)
    requires |flags| == |Unsummarised(h, 0)|
    ensures var ps := Unsummarised(h, 0);
            && Splits(h, ps, Chosen(ps, flags, true), Chosen(ps, flags, false))
            && forall i :: 0 <= i < |ps| ==> (ps[i] in Chosen(ps, flags, true) <==> flags[i])
  {
    hide Chosen, Unsummarised, IsSummary;
    var ps := Unsummarised(h, 0);
    ChosenSorted(ps, flags, true);
    ChosenSorted(ps, flags, false);
    forall p: nat
      ensures p in ps <==> p < |h| && !IsSummary(h[p])
    {
      if p < |h| && !IsSummary(h[p]) {
        AllUnsummarised(h, 0, p);
      }
    }
    ChosenAre(ps, flags);
    var kept, out := Chosen(ps, flags, true), Chosen(ps, flags, false);
    assert forall i :: 0 <= i < |kept| ==> kept[i] in kept;
    assert forall i :: 0 <= i < |out| ==> out[i] in out;
  }

  lemma ChosenAre(ps: seq<nat>, flags: seq<bool>)
    requires |flags| == |ps| && Increasing(ps)
    ensures var kept, out := Chosen(ps, flags, true), Chosen(ps, flags, false);
            && (forall p: nat :: p in ps ==> (p in kept <==> p !in out))
            && (forall p: nat :: p in kept || p in out ==> p in ps)
            && forall i :: 0 <= i < |ps| ==> (ps[i] in kept <==> flags[i])
  {
    hide Chosen;
    var kept, out := Chosen(ps, flags, true), Chosen(ps, flags, false);
    forall p: nat
      ensures p in kept <==> exists i :: 0 <= i < |ps| && ps[i] == p && flags[i]
      ensures p in out <==> exists i :: 0 <= i < |ps| && ps[i] == p && !flags[i]
    {
      ChosenMembers(ps, flags, true, p);
      ChosenMembers(ps, flags, false, p);
    }
  }

  lemma {:induction false} PickAt(h: seq<Item>, f: seq<Item>, ps: seq<nat>, flags: seq<bool>, want: bool)
    requires |f| == |ps| == |flags| && forall i :: 0 <= i < |ps| ==> ps[i] < |h| && f[i] == h[ps[i]]
    ensures forall i :: 0 <= i < |Chosen(ps, flags, want)| ==> Chosen(ps, flags, want)[i] < |h|
    ensures Pick(f, flags, want) == At(h, Chosen(ps, flags, want))
  {
    if f != [] {
      PickAt(h, f[1..], ps[1..], flags[1..], want);
      assert Pick(f, flags, want) ==
             (if flags[0] == want then [f[0]] else []) + Pick(f[1..], flags[1..], want);
    }
  }

  /** A history is compacted exactly when it is over its soft limit, there is a provider, and the summary of what is
      left out succeeds.  Then the items kept stay in order, and a summary that is not empty comes after them. */
  lemma CompactIsExact(h: seq<Item>, counter: Option<seq<Item> -> int>, config: Config, hasProvider: bool,
          summarize: seq<Item> -> Outcome) returns (all: seq<nat>, kept: seq<nat>, out: seq<nat>)
    ensures Splits(h, all, kept, out)
    ensures counter.Some? ==> forall i :: 0 <= i < |all| ==>
              (all[i] in kept <==> Stays(At(h, all), counter.value, Normalize(config), i))
    ensures var r := Compact(h, counter, config, hasProvider, summarize);
            var over := counter.Some? && IsOver(counter.value(h), config);
            var fails := !hasProvider || (out != [] && summarize(At(h, out)).NoSummary?);
            && (r.Unchanged? <==> !over) && (r.Failed? <==> over && fails) && (r.Compacted? <==> over && !fails)
            && (r.Compacted? ==>
                  var text := if out == [] then "" else summarize(At(h, out)).text;
                  var summary := if text == "" then []
                                 else [Item(Assistant, Text("Summary of previous context:\n" + text))];
                  && r.history == At(h, kept) + summary
                  && r.before == counter.value(h) && r.after == counter.value(r.history)
                  && r.summary == if summary == [] then 0 else counter.value(summary))
  {
    hide Stays, WithoutSummaries, Pick, Chosen, Unsummarised, IsSummary;
    var f, ps := WithoutSummaries(h), Unsummarised(h, 0);
    all := ps;
    var flags := if counter.Some? then Kept(f, counter.value, Normalize(config)) else seq(|f|, _ => true);
    FilterAt(h, 0);
    assert f == At(h, all);
    kept, out := Chosen(ps, flags, true), Chosen(ps, flags, false);
    PickAt(h, f, ps, flags, true);
    PickAt(h, f, ps, flags, false);
    ChosenSplit(h, flags);
    OverIsOver(config);
  }

  lemma OverIsOver(c: Config)
    ensures forall tokens :: IsOver(tokens, c) <==> Normalize(c).soft > 0 && tokens > Normalize(c).soft
  {
  }

  // ---- Which items stay ----

  /** A user item is of exactly one kind, told by how its text starts. */
  lemma UserItemsHaveOneKind(x: Item)
    requires x.role == User
    ensures IsUserMessage(x) <==> !IsUserInstructions(x) && !IsEnvironment(x)
    ensures IsUserInstructions(x) <==> x.content.Text? && "# AGENTS.md instructions for " <= x.content.text
    ensures IsEnvironment(x) <==> && x.content.Text?
                                  && (|| "<environment_context>" <= x.content.text
                                      || "<environment_diff>" <= x.content.text)
    ensures !IsUserInstructions(x) || !IsEnvironment(x)
  {
    if IsUserInstructions(x) {
      assert x.content.text[0] == "# AGENTS.md instructions for "[0];
      assert '<' == "<environment_context>"[0] == "<environment_diff>"[0];
    }
  }

  /** Tokens of the first `n` items from `i` on that are user messages, each counted alone. */
  function Cost(f: seq<Item>, counter: seq<Item> -> int, i: nat, n: nat): int
    requires i + n <= |f|
  {
    if n == 0 then 0
    else Cost(f, counter, i, n - 1) + if IsUserMessage(f[i + n - 1]) then counter([f[i + n - 1]]) else 0
  }

  lemma {:induction false} CostFromFront(f: seq<Item>, counter: seq<Item> -> int, i: nat, n: nat)
    requires 0 < n && i + n <= |f|
    ensures Cost(f, counter, i, n) ==
            (if IsUserMessage(f[i]) then counter([f[i]]) else 0) + Cost(f, counter, i + 1, n - 1)
  {
    if n > 1 {
      CostFromFront(f, counter, i, n - 1);
    }
  }

  lemma {:induction false} CostIsUserTokens(f: seq<Item>, counter: seq<Item> -> int, i: nat)
    requires i <= |f|
    ensures Cost(f, counter, i, |f| - i) == UserTokens(f, counter, i)
    decreases |f| - i
  {
    if i < |f| {
      CostIsUserTokens(f, counter, i + 1);
      CostFromFront(f, counter, i, |f| - i);
    }
  }

  lemma {:induction false} TokensShrink(f: seq<Item>, counter: seq<Item> -> int, i: nat, j: nat)
    requires i <= j <= |f| && forall x :: counter([x]) >= 0
    ensures 0 <= UserTokens(f, counter, j) <= UserTokens(f, counter, i)
    decreases |f| - i
  {
    if i < j {
      TokensShrink(f, counter, i + 1, j);
    } else if i < |f| {
      TokensShrink(f, counter, i + 1, |f|);
    }
  }

  /** The tool items after position `i`. */
  ghost function ToolsAfter(f: seq<Item>, i: nat): set<int> {
    set j | i < j < |f| && f[j].role == Tool
  }

  lemma {:induction false} ToolsAfterCount(f: seq<Item>, i: nat)
    requires i < |f|
    ensures |ToolsAfter(f, i)| == CountTools(f[i + 1..])
    decreases |f| - i
  {
    if i == |f| - 1 {
      assert ToolsAfter(f, i) == {};
    } else {
      ToolsAfterCount(f, i + 1);
      assert f[i + 1..][1..] == f[i + 2..];
      assert ToolsAfter(f, i) == ToolsAfter(f, i + 1) + if f[i + 1].role == Tool then {i + 1} else {};
    }
  }

  /** A user message stays exactly when it and the user messages after it fit the budget, or those after it cost
      nothing; so does every user message when there is no budget. */
  lemma MessagesStayExactly(f: seq<Item>, counter: seq<Item> -> int, c: Config, i: nat)
    requires Paired(f) && i < |f| && IsUserMessage(f[i]) && forall x :: counter([x]) >= 0
    ensures Stays(f, counter, c, i) <==>
            || c.recentUserTokens <= 0
            || Cost(f, counter, i, |f| - i) <= c.recentUserTokens
            || Cost(f, counter, i + 1, |f| - (i + 1)) == 0
  {
    hide UserTokens, LastWhere, Cost, IsCallOfOutput, Paired, CountTools;
    UserIsText(f, i);
    OnlyOneReason(f, counter, c, i);
    CostIsUserTokens(f, counter, i);
    CostIsUserTokens(f, counter, i + 1);
    TokensShrink(f, counter, i, i + 1);
    forall j | i < j <= |f|
      ensures 0 <= UserTokens(f, counter, j) <= UserTokens(f, counter, i + 1)
    {
      TokensShrink(f, counter, i + 1, j);
    }
    var budget := c.recentUserTokens;
    assert Stays(f, counter, c, i) <==> IsRecentMessage(f, counter, budget, i);
    if budget > 0 && UserTokens(f, counter, i) > budget && UserTokens(f, counter, i + 1) > 0 {
      assert EndsBudget(f, counter, budget, i);
    } else {
      assert forall j :: i <= j < |f| ==> !EndsBudget(f, counter, budget, j);
    }
  }

  /** In a paired history an item that is no call stays for a reason of its own kind. */
  lemma OnlyOneReason(f: seq<Item>, counter: seq<Item> -> int, c: Config, i: nat)
    requires Paired(f) && i < |f| && !f[i].content.ToolCall?
    ensures !IsCallOfOutput(f, LastWhere(f, IsUserMessage), c.recentOutputs, i)
    ensures f[i].role == Tool || f[i].content.Text?
  {
    hide Paired, LastWhere, IsCallOfOutput;
    PairedIsAdjacent(f);
    assert PairedAt(f, i);
    OnlyCallsAreCalls(f, LastWhere(f, IsUserMessage), c.recentOutputs, i);
  }

  /** Instructions stay, of the environment items the last one; other text of the assistant goes. */
  lemma TextStaysExactly(f: seq<Item>, counter: seq<Item> -> int, c: Config, i: nat)
    requires Paired(f) && i < |f| && f[i].content.Text?
    ensures f[i].role == Developer || IsUserInstructions(f[i]) ==> Stays(f, counter, c, i)
    ensures IsEnvironment(f[i]) ==> (Stays(f, counter, c, i) <==> forall j :: i < j < |f| ==> !IsEnvironment(f[j]))
    ensures f[i].role != Developer && f[i].role != User ==> !Stays(f, counter, c, i)
  {
    hide Paired, EndsBudget, CountTools, IsCallOfOutput, PairedAt;
    OnlyOneReason(f, counter, c, i);
    PairedIsAdjacent(f);
    TextIsNoTool(f, i);
    assert '#' == "# AGENTS.md instructions for "[0];
    assert '<' == "<environment_context>"[0] == "<environment_diff>"[0];
  }

  lemma UserIsText(f: seq<Item>, i: nat)
    requires Paired(f) && i < |f| && f[i].role == User
    ensures f[i].content.Text?
  {
    hide Paired;
    PairedIsAdjacent(f);
    assert PairedAt(f, i);
  }

  lemma TextIsNoTool(f: seq<Item>, i: nat)
    requires Paired(f) && i < |f| && f[i].content.Text?
    ensures f[i].role != Tool
  {
    hide Paired;
    PairedIsAdjacent(f);
    assert PairedAt(f, i);
  }

  /** With a limit on outputs the last ones stay, that many; without one those after the last user message. */
  lemma OutputsStayExactly(f: seq<Item>, counter: seq<Item> -> int, c: Config, i: nat)
    requires Paired(f) && i < |f| && f[i].content.ToolOutput?
    ensures f[i].role == Tool
    ensures Stays(f, counter, c, i) <==>
            if c.recentOutputs > 0 then |ToolsAfter(f, i)| < c.recentOutputs
            else (exists j :: 0 <= j < i && IsUserMessage(f[j])) && forall j :: i < j < |f| ==> !IsUserMessage(f[j])
  {
    hide Paired, CountTools, Stays;
    OutputIsTool(f, i);
    StaysIfRecent(f, counter, c, i);
    ToolsAfterCount(f, i);
  }

  lemma StaysIfRecent(f: seq<Item>, counter: seq<Item> -> int, c: Config, i: nat)
    requires Paired(f) && i < |f| && f[i].content.ToolOutput? && f[i].role == Tool
    ensures Stays(f, counter, c, i) <==> IsRecentOutput(f, LastWhere(f, IsUserMessage), c.recentOutputs, i)
  {
    hide Paired, EndsBudget, IsCallOfOutput, IsRecentOutput;
    OnlyOneReason(f, counter, c, i);
  }

  lemma OutputIsTool(f: seq<Item>, i: nat)
    requires Paired(f) && i < |f| && f[i].content.ToolOutput?
    ensures f[i].role == Tool
  {
    hide Paired;
    PairedIsAdjacent(f);
    assert PairedAt(f, i);
  }
}
