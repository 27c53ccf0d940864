/** Items of an agent's history and the pairing of tool calls with their outputs. */
module History {

  datatype Role = User | Assistant | Developer | Tool | Other(name: string)

  datatype Content = Text(text: string) | ToolCall(id: string, name: string, args: string)
      | ToolOutput(callId: string, result: string)

  datatype Item = Item(role: Role, content: Content)

  predicate Answers(call: Item, output: Item) {
    && call.content.ToolCall? && call.role == Assistant && call.content.id != ""
    && output.content.ToolOutput? && output.role == Tool && output.content.callId == call.content.id
  }

  /** Every tool call is followed at once by its own output, and there is no other output. */
  predicate Paired(h: seq<Item>)
    decreases |h|
  {
    if h == [] then true
    else if h[0].content.ToolCall? then |h| > 1 && Answers(h[0], h[1]) && Paired(h[2..])
    else h[0].content.Text? && h[0].role != Tool && Paired(h[1..])
  }

  ghost predicate PairedAt(h: seq<Item>, i: int)
    requires 0 <= i < |h|
  {
    && (h[i].content.ToolCall? ==> i + 1 < |h| && Answers(h[i], h[i + 1]))
    && (h[i].content.ToolOutput? ==> i > 0 && Answers(h[i - 1], h[i]))
    && (h[i].content.Text? ==> h[i].role != Tool)
  }

  /** The same, said item by item. */
  lemma {:induction false} PairedIsAdjacent(h: seq<Item>)
    ensures Paired(h) <==> forall i :: 0 <= i < |h| ==> PairedAt(h, i)
    decreases |h|
  {
    if h == [] {
    } else if h[0].content.ToolCall? {
      if |h| > 1 && Answers(h[0], h[1]) {
        PairedIsAdjacent(h[2..]);
        Shifted(h, 2);
        assert PairedAt(h, 0) && PairedAt(h, 1);
      } else {
        assert !PairedAt(h, 0);
      }
    } else if h[0].content.Text? && h[0].role != Tool {
      PairedIsAdjacent(h[1..]);
      Shifted(h, 1);
      assert PairedAt(h, 0);
    } else {
      assert !PairedAt(h, 0);
    }
  }

  lemma Shifted(h: seq<Item>, n: nat)
    requires 0 < n <= |h| && !h[n - 1].content.ToolCall?
    ensures (forall i :: n <= i < |h| ==> PairedAt(h, i)) <==> forall i :: 0 <= i < |h| - n ==> PairedAt(h[n..], i)
  {
    forall i | n <= i < |h|
      ensures PairedAt(h, i) <==> PairedAt(h[n..], i - n)
    {
    }
    forall i | 0 <= i < |h| - n
      ensures PairedAt(h[n..], i) <==> PairedAt(h, i + n)
    {
    }
  }

  /** A session starts from text items, so it starts paired. */
  lemma {:induction false} TextIsPaired(h: seq<Item>)
    requires forall x :: x in h ==> x.content.Text? && x.role != Tool
    ensures Paired(h)
  {
    if h != [] {
      TextIsPaired(h[1..]);
    }
  }

  lemma {:induction false} PairedAppend(a: seq<Item>, b: seq<Item>)
    requires Paired(a) && Paired(b)
    ensures Paired(a + b)
    decreases |a|
  {
    if a == [] {
      assert a + b == b;
    } else {
      var n := if a[0].content.ToolCall? then 2 else 1;
      assert (a + b)[n..] == a[n..] + b;
      PairedAppend(a[n..], b);
    }
  }
}
