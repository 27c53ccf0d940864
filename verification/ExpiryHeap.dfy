/** The expiry min-heap under both kinds of limit.

    The rolling and the concurrency store keep their entries in a slice ordered as a binary heap by
    expiry time, every entry remembering its own position.  The two slices have the same
    Less/Swap/Push/Pop, so one class of entry serves both; `Push` and `Pop` below are the sift-up and
    sift-down of Go's container/heap over those four operations. */
module ExpiryHeap {

  /** A heap entry.  `owner` and `serial` are proof bookkeeping: which store the entry was created
      for, and how many entries that store had created before. */
  class Slot {
    const id: string
    const expiresAt: int
    var amount: nat
    var heapIndex: int
    ghost const owner: object
    ghost const serial: nat

    constructor (id: string, amount: nat, expiresAt: int, ghost owner: object, ghost serial: nat)
      ensures this.id == id && this.amount == amount && this.expiresAt == expiresAt
      ensures this.owner == owner && this.serial == serial
    {
      this.id := id;
      this.amount := amount;
      this.expiresAt := expiresAt;
      this.heapIndex := 0;
      this.owner := owner;
      this.serial := serial;
    }
  }

  function Parent(i: nat): nat
    requires i > 0
  {
    (i - 1) / 2
  }

  /** The slice `h` lists the entries in `slots`, each once, and each entry knows its position. */
  ghost predicate Places(h: seq<Slot>, slots: set<Slot>)
    reads slots
  {
    && (forall i :: 0 <= i < |h| ==> h[i] in slots && h[i].heapIndex == i)
    && (forall s :: s in slots ==> 0 <= s.heapIndex < |h| && h[s.heapIndex] == s)
  }

  ghost predicate Ordered(h: seq<Slot>) {
    forall k :: 1 <= k < |h| ==> h[Parent(k)].expiresAt <= h[k].expiresAt
  }

  /** The root expires first. */
  lemma {:induction false} RootIsMinimal(h: seq<Slot>, i: nat)
    requires Ordered(h) && i < |h|
    ensures h[0].expiresAt <= h[i].expiresAt
  {
    if i > 0 {
      RootIsMinimal(h, Parent(i));
    }
  }

  function Swapped(h: seq<Slot>, i: nat, j: nat): seq<Slot>
    requires i < |h| && j < |h|
  {
    h[i := h[j]][j := h[i]]
  }

  /** Sift-up's loop invariant: order holds everywhere but between `j` and its parent, and the
      children of `j` are no earlier than that parent. */
  ghost predicate Rising(h: seq<Slot>, j: nat) {
    && (forall k :: 1 <= k < |h| && k != j ==> h[Parent(k)].expiresAt <= h[k].expiresAt)
    && (forall k :: 1 <= k < |h| && Parent(k) == j && 0 < j < |h| ==> h[Parent(j)].expiresAt <= h[k].expiresAt)
  }

  lemma RisingStep(h: seq<Slot>, j: nat)
    requires 0 < j < |h| && Rising(h, j) && h[j].expiresAt <= h[Parent(j)].expiresAt
    ensures Rising(Swapped(h, Parent(j), j), Parent(j))
  {
  }

  /** Sift-down's loop invariant on the first `n` entries: order holds everywhere but below `i`. */
  ghost predicate Sinking(h: seq<Slot>, i: nat, n: nat)
    requires n <= |h|
  {
    && (forall k :: 1 <= k < n && Parent(k) != i ==> h[Parent(k)].expiresAt <= h[k].expiresAt)
    && (forall k :: 1 <= k < n && Parent(k) == i && 0 < i < n ==> h[Parent(i)].expiresAt <= h[k].expiresAt)
  }

  /** The earlier of the children of `i` among the first `n` entries. */
  function Child(h: seq<Slot>, i: nat, n: nat): (j: nat)
    requires 2 * i + 1 < n <= |h|
    ensures i < j < n
  {
    if 2 * i + 2 < n && h[2 * i + 2].expiresAt < h[2 * i + 1].expiresAt then 2 * i + 2 else 2 * i + 1
  }

  lemma ChildIsEarliest(h: seq<Slot>, i: nat, n: nat)
    requires 2 * i + 1 < n <= |h|
    ensures Parent(Child(h, i, n)) == i
    ensures forall k :: 1 <= k < n && Parent(k) == i ==> h[Child(h, i, n)].expiresAt <= h[k].expiresAt
  {
  }

  lemma SinkingStep(h: seq<Slot>, i: nat, n: nat)
    requires 2 * i + 1 < n <= |h| && Sinking(h, i, n)
    requires h[Child(h, i, n)].expiresAt < h[i].expiresAt
    ensures Sinking(Swapped(h, i, Child(h, i, n)), Child(h, i, n), n)
  {
    ChildIsEarliest(h, i, n);
  }

  lemma SettledIsOrdered(h: seq<Slot>, i: nat, n: nat)
    requires n <= |h| && Sinking(h, i, n)
    requires 2 * i + 1 < n ==> h[i].expiresAt <= h[Child(h, i, n)].expiresAt
    ensures Ordered(h[..n])
  {
    if 2 * i + 1 < n {
      ChildIsEarliest(h, i, n);
    }
  }

  method Swap(h: seq<Slot>, i: nat, j: nat, ghost slots: set<Slot>) returns (r: seq<Slot>)
    requires i < |h| && j < |h| && Places(h, slots)
    modifies slots`heapIndex
    ensures r == Swapped(h, i, j) && Places(r, slots)
  {
    r := h[i := h[j]][j := h[i]];
    r[i].heapIndex := i;
    r[j].heapIndex := j;
  }

  method Up(h: seq<Slot>, ghost slots: set<Slot>) returns (r: seq<Slot>)
    requires |h| > 0 && Places(h, slots) && Rising(h, |h| - 1)
    modifies slots`heapIndex
    ensures |r| == |h| && Places(r, slots) && Ordered(r)
  {
    r := h;
    var j: nat := |h| - 1;
    while j > 0
      invariant j < |r| == |h| && Places(r, slots) && Rising(r, j)
    {
      var i := Parent(j);
      if r[i].expiresAt <= r[j].expiresAt {
        return;
      }
      RisingStep(r, j);
      r := Swap(r, i, j, slots);
      j := i;
    }
  }

  method Down(h: seq<Slot>, n: nat, ghost slots: set<Slot>) returns (r: seq<Slot>)
    requires n < |h| && Places(h, slots) && Sinking(h, 0, n)
    modifies slots`heapIndex
    ensures |r| == |h| && Places(r, slots) && Ordered(r[..n]) && r[n] == h[n]
  {
    r := h;
    var i: nat := 0;
    while 2 * i + 1 < n
      invariant n < |r| == |h| && Places(r, slots) && r[n] == h[n]
      invariant Sinking(r, i, n)
      decreases n - i
    {
      var j := Child(r, i, n);
      if r[i].expiresAt <= r[j].expiresAt {
        break;
      }
      SinkingStep(r, i, n);
      r := Swap(r, i, j, slots);
      i := j;
    }
    SettledIsOrdered(r, i, n);
  }

  method Push(h: seq<Slot>, x: Slot, ghost slots: set<Slot>) returns (r: seq<Slot>)
    requires Places(h, slots) && Ordered(h) && x !in slots
    modifies slots`heapIndex, x`heapIndex
    ensures |r| == |h| + 1 && Places(r, slots + {x}) && Ordered(r)
  {
    x.heapIndex := |h|;
    r := Up(h + [x], slots + {x});
  }

  method Pop(h: seq<Slot>, ghost slots: set<Slot>) returns (x: Slot, r: seq<Slot>)
    requires |h| > 0 && Places(h, slots) && Ordered(h)
    modifies slots`heapIndex
    ensures x == h[0] && |r| == |h| - 1 && Places(r, slots - {x}) && Ordered(r)
  {
    var n := |h| - 1;
    r := Swap(h, 0, n, slots);
    r := Down(r, n, slots);
    x := r[n];
    r := r[..n];
    x.heapIndex := -1;
  }
}
