/** Connected components of the measured revisions inside each time bucket. */
module Components {
  import opened ComponentIds
  import opened Numerals

  datatype Point = Point(rev: string, bucket: string)

  datatype Edge = Edge(parent: string, child: string)

  datatype Component = Component(bucket: string, id: string, revs: seq<string>)

  /** The last point of revision `x` is in bucket `b`. */
  ghost predicate LastListed(points: seq<Point>, x: string, b: string) {
    exists i :: && 0 <= i < |points| && points[i] == Point(x, b)
                && forall j :: i < j < |points| ==> points[j].rev != x
  }

  /** A revision listed more than once has the bucket of its last point. */
  ghost predicate IsBucketMap(points: seq<Point>, bucket: map<string, string>) {
    && (forall i :: 0 <= i < |points| ==> points[i].rev in bucket)
    && (forall x :: x in bucket ==> LastListed(points, x, bucket[x]))
  }

  /** Some edge joins the two revisions, and both are points of one bucket. */
  ghost predicate Adjacent(bucket: map<string, string>, edges: seq<Edge>, a: string, b: string) {
    && a in bucket && b in bucket && bucket[a] == bucket[b] != ""
    && (Edge(a, b) in edges || Edge(b, a) in edges)
  }

  /** The search passes over an empty revision id. */
  ghost predicate Linked(bucket: map<string, string>, edges: seq<Edge>, a: string, b: string) {
    Adjacent(bucket, edges, a, b) && a != "" && b != ""
  }

  ghost predicate Path(bucket: map<string, string>, edges: seq<Edge>, p: seq<string>, a: string, b: string) {
    && |p| > 0 && p[0] == a && p[|p| - 1] == b
    && forall i :: 0 <= i < |p| - 1 ==> Linked(bucket, edges, p[i], p[i + 1])
  }

  ghost predicate Connected(bucket: map<string, string>, edges: seq<Edge>, a: string, b: string) {
    exists p :: Path(bucket, edges, p, a, b)
  }

  lemma ConnectedItself(bucket: map<string, string>, edges: seq<Edge>, a: string)
    ensures Connected(bucket, edges, a, a)
  {
    assert Path(bucket, edges, [a], a, a);
  }

  lemma ConnectedStep(bucket: map<string, string>, edges: seq<Edge>, a: string, b: string, c: string)
    requires Connected(bucket, edges, a, b) && Linked(bucket, edges, b, c)
    ensures Connected(bucket, edges, a, c)
  {
    var p :| Path(bucket, edges, p, a, b);
    assert Path(bucket, edges, p + [c], a, c);
  }

  lemma {:induction false} ConnectedBack(bucket: map<string, string>, edges: seq<Edge>, p: seq<string>, a: string,
          b: string)
    requires Path(bucket, edges, p, a, b)
    ensures Connected(bucket, edges, b, a)
  {
    var n := |p| - 1;
    if n == 0 {
      ConnectedItself(bucket, edges, a);
    } else {
      var q := p[1..];
      forall i | 0 <= i < |q| - 1
        ensures Linked(bucket, edges, q[i], q[i + 1])
      {
        assert q[i] == p[i + 1] && q[i + 1] == p[i + 2];
      }
      ConnectedBack(bucket, edges, q, p[1], b);
      assert Linked(bucket, edges, p[0], p[1]);
      ConnectedStep(bucket, edges, b, p[1], a);
    }
  }

  lemma ConnectedBoth(bucket: map<string, string>, edges: seq<Edge>, s: string, a: string, b: string)
    requires Connected(bucket, edges, s, a) && Connected(bucket, edges, s, b)
    ensures Connected(bucket, edges, a, b)
  {
    var p :| Path(bucket, edges, p, s, a);
    ConnectedBack(bucket, edges, p, s, a);
    var q :| Path(bucket, edges, q, s, b);
    Extend(bucket, edges, a, q, s, b);
  }

  lemma {:induction false} Extend(bucket: map<string, string>, edges: seq<Edge>, a: string, q: seq<string>, s: string,
          b: string)
    requires Connected(bucket, edges, a, s) && Path(bucket, edges, q, s, b)
    ensures Connected(bucket, edges, a, b)
  {
    var n := |q| - 1;
    if n > 0 {
      assert Path(bucket, edges, q[..n], s, q[n - 1]);
      Extend(bucket, edges, a, q[..n], s, q[n - 1]);
      assert Linked(bucket, edges, q[n - 1], q[n]);
      ConnectedStep(bucket, edges, a, q[n - 1], b);
    }
  }

  /** No link leaves the set. */
  ghost predicate Closed(bucket: map<string, string>, edges: seq<Edge>, xs: set<string>) {
    forall a, b :: a in xs && Linked(bucket, edges, a, b) ==> b in xs
  }

  lemma {:induction false} ClosedHolds(bucket: map<string, string>, edges: seq<Edge>, xs: set<string>, p: seq<string>,
          a: string, b: string)
    requires Closed(bucket, edges, xs) && a in xs && Path(bucket, edges, p, a, b)
    ensures b in xs
  {
    var n := |p| - 1;
    if n > 0 {
      assert Path(bucket, edges, p[..n], a, p[n - 1]);
      ClosedHolds(bucket, edges, xs, p[..n], a, p[n - 1]);
      assert Linked(bucket, edges, p[n - 1], p[n]);
    }
  }

  // ---- The adjacency ----

  function Neighbors(adjacency: map<string, set<string>>, a: string): set<string> {
    if a in adjacency then adjacency[a] else {}
  }

  method BuildAdjacency(bucket: map<string, string>, edges: seq<Edge>) returns (adjacency: map<string, set<string>>)
    ensures forall a, b :: b in Neighbors(adjacency, a) <==> Adjacent(bucket, edges, a, b)
  {
    adjacency := map[];
    for n := 0 to |edges|
      invariant forall a, b :: b in Neighbors(adjacency, a) <==> Adjacent(bucket, edges[..n], a, b)
    {
      var e := edges[n];
      ghost var before := adjacency;
      assert edges[..n + 1] == edges[..n] + [e];
      if e.parent in bucket && bucket[e.parent] != "" && e.child in bucket && bucket[e.parent] == bucket[e.child] {
        adjacency := adjacency[e.parent := Neighbors(adjacency, e.parent) + {e.child}];
        adjacency := adjacency[e.child := Neighbors(adjacency, e.child) + {e.parent}];
      }
      forall a, b
        ensures b in Neighbors(adjacency, a) <==> Adjacent(bucket, edges[..n + 1], a, b)
      {
        assert b in Neighbors(before, a) <==> Adjacent(bucket, edges[..n], a, b);
      }
    }
    assert edges[..|edges|] == edges;
  }

  // ---- One component ----

  predicate Distinct(xs: seq<string>) {
    forall i, j :: 0 <= i < j < |xs| ==> xs[i] != xs[j]
  }

  /** The search has reached `revs + queue` from the seed, each once and none of it before, and has
      followed every link of `revs`. */
  ghost predicate Reached(bucket: map<string, string>, edges: seq<Edge>, before: set<string>, seed: string,
          revs: seq<string>, queue: seq<string>)
  {
    && Distinct(revs + queue) && "" !in revs
    && seed in bucket && revs + queue != [] && (revs + queue)[0] == seed
    && (forall x :: x in revs + queue ==> InReach(bucket, edges, before, seed, x))
    && (forall x, y :: x in revs && Linked(bucket, edges, x, y) ==> y in before || y in revs + queue)
  }

  ghost predicate InReach(bucket: map<string, string>, edges: seq<Edge>, before: set<string>, seed: string, x: string)
    requires seed in bucket
  {
    x in bucket && bucket[x] == bucket[seed] && x !in before && (x != "" ==> Connected(bucket, edges, seed, x))
  }

  /** Beside the empty id, exactly what was there before and what has been reached is marked. */
  ghost predicate MarksReached(marked: map<string, string>, before: set<string>, revs: seq<string>, queue: seq<string>)
  {
    && (forall x :: x != "" ==> (x in marked <==> x in before || x in revs + queue))
    && (forall x :: x in before || x in queue ==> x in marked)
  }

  /** An exhausted search has found exactly the component of its seed. */
  lemma ExhaustedIsComponent(bucket: map<string, string>, edges: seq<Edge>, before: set<string>, seed: string,
          revs: seq<string>)
    requires seed in bucket && Reached(bucket, edges, before, seed, revs, []) && Closed(bucket, edges, before)
    ensures forall x :: x in revs <==> Connected(bucket, edges, seed, x)
    ensures Closed(bucket, edges, before + set x | x in revs)
  {
    assert revs + [] == revs;
    var xs := set x | x in revs;
    forall a, b | a in xs && Linked(bucket, edges, a, b)
      ensures b in xs
    {
      assert Linked(bucket, edges, b, a);
    }
    forall x | Connected(bucket, edges, seed, x)
      ensures x in revs
    {
      var p :| Path(bucket, edges, p, seed, x);
      ClosedHolds(bucket, edges, xs, p, seed, x);
    }
  }

  /** Breadth-first search from a revision not yet in any component. */
  method Explore(bucket: map<string, string>, ghost edges: seq<Edge>, adjacency: map<string, set<string>>, seed: string,
          idOf: map<string, string>)
    returns (revs: seq<string>, marked: map<string, string>)
    requires forall a, b :: b in Neighbors(adjacency, a) <==> Adjacent(bucket, edges, a, b)
    requires seed in bucket && seed !in idOf && Closed(bucket, edges, idOf.Keys)
    ensures if seed == "" then revs == [] && marked == idOf[seed := "pending"]
            else Distinct(revs) && revs != [] && revs[0] == seed
                 && forall x :: x in revs <==> Connected(bucket, edges, seed, x)
    ensures forall x :: x in revs ==> x in bucket && x !in idOf && x != "" && x in marked
    ensures Closed(bucket, edges, marked.Keys) && seed in marked
    ensures forall x :: x != "" ==> (x in marked <==> x in idOf || x in revs)
    ensures forall x :: x in idOf ==> x in marked && marked[x] == idOf[x]
    ensures "" in marked && "" !in idOf ==> "" in bucket && marked[""] == "pending"
  {
    hide *;
    var queue := [seed];
    revs := [];
    marked := idOf[seed := "pending"];
    StartsAtSeed(bucket, edges, seed, idOf);
    while queue != []
      invariant seed == "" ==> revs == [] && queue <= [""] && marked == idOf[seed := "pending"]
      invariant seed != "" ==>
                Reached(bucket, edges, idOf.Keys, seed, revs, queue) && MarksReached(marked, idOf.Keys, revs, queue)
      invariant forall x :: x in idOf || x == seed ==> x in marked
      invariant forall x :: x in idOf ==> marked[x] == idOf[x]
      invariant "" in marked && "" !in idOf ==> "" in bucket && marked[""] == "pending"
      decreases bucket.Keys - set x | x in revs, |queue|
    {
      var current := queue[0];
      if current == "" {
        Skipped(bucket, edges, idOf.Keys, seed, revs, queue, marked);
        queue := queue[1..];
      } else {
        NotTakenYet(bucket, edges, idOf.Keys, seed, revs, queue);
        ghost var before := revs;
        queue, marked := Visit(bucket, edges, idOf.Keys, adjacency, seed, revs, queue, marked);
        revs := revs + [current];
        assert (set x | x in revs) == (set x | x in before) + {current};
      }
    }
    if seed == "" {
      StillClosed(bucket, edges, idOf.Keys, [], marked.Keys);
    } else {
      SearchEnds(bucket, edges, idOf.Keys, seed, revs, marked);
    }
  }

  lemma StartsAtSeed(bucket: map<string, string>, edges: seq<Edge>, seed: string, idOf: map<string, string>)
    requires seed in bucket && seed !in idOf
    ensures seed != "" ==> Reached(bucket, edges, idOf.Keys, seed, [], [seed])
    ensures seed != "" ==> MarksReached(idOf[seed := "pending"], idOf.Keys, [], [seed])
  {
    hide Connected;
    ConnectedItself(bucket, edges, seed);
  }

  lemma NotTakenYet(bucket: map<string, string>, edges: seq<Edge>, before: set<string>, seed: string, revs: seq<string>,
          queue: seq<string>)
    requires queue != [] && Reached(bucket, edges, before, seed, revs, queue)
    ensures queue[0] !in revs && queue[0] in bucket
  {
    hide Connected;
    assert (revs + queue)[|revs|] == queue[0];
    assert forall i :: 0 <= i < |revs| ==> (revs + queue)[i] == revs[i] != queue[0];
    assert InReach(bucket, edges, before, seed, queue[0]);
  }

  lemma SearchEnds(bucket: map<string, string>, edges: seq<Edge>, before: set<string>, seed: string, revs: seq<string>,
          marked: map<string, string>)
    requires Closed(bucket, edges, before) && Reached(bucket, edges, before, seed, revs, [])
    requires MarksReached(marked, before, revs, [])
    ensures Distinct(revs) && revs != [] && revs[0] == seed
    ensures forall x :: x in revs <==> Connected(bucket, edges, seed, x)
    ensures forall x :: x in revs ==> x in bucket && x !in before && x != "" && x in marked
    ensures forall x :: x != "" ==> (x in marked <==> x in before || x in revs)
    ensures Closed(bucket, edges, marked.Keys)
  {
    hide Connected, Closed, Linked;
    assert revs + [] == revs;
    ExhaustedIsComponent(bucket, edges, before, seed, revs);
    StillClosed(bucket, edges, before, revs, marked.Keys);
  }

  /** An empty id at the head of the queue is passed over. */
  lemma Skipped(bucket: map<string, string>, edges: seq<Edge>, before: set<string>, seed: string, revs: seq<string>,
          queue: seq<string>, marked: map<string, string>)
    requires queue != [] && queue[0] == ""
    ensures seed != "" && Reached(bucket, edges, before, seed, revs, queue) ==>
            Reached(bucket, edges, before, seed, revs, queue[1..])
    ensures MarksReached(marked, before, revs, queue) ==> MarksReached(marked, before, revs, queue[1..])
  {
    hide InReach, Adjacent;
    var rest := queue[1..];
    assert queue == [""] + rest;
    assert forall x :: x != "" && x in revs + queue ==> x in revs + rest;
    if Distinct(revs + queue) {
      var n := |revs|;
      forall i, j | 0 <= i < j < |revs + rest|
        ensures (revs + rest)[i] != (revs + rest)[j]
      {
        var k, l := if i < n then i else i + 1, if j < n then j else j + 1;
        assert (revs + queue)[k] == (revs + rest)[i] && (revs + queue)[l] == (revs + rest)[j];
      }
    }
  }

  lemma StillClosed(bucket: map<string, string>, edges: seq<Edge>, before: set<string>, revs: seq<string>,
          marked: set<string>)
    requires Closed(bucket, edges, before) && (revs == [] || Closed(bucket, edges, before + set x | x in revs))
    requires forall x :: x != "" ==> (x in marked <==> x in before || x in revs)
    ensures Closed(bucket, edges, marked)
  {
    hide Adjacent;
  }

  /** Takes the head of the queue and appends its neighbours not met before, in whatever order the set
      yields them. */
  method Visit(bucket: map<string, string>, ghost edges: seq<Edge>, ghost before: set<string>,
          adjacency: map<string, set<string>>, seed: string, ghost revs: seq<string>, queue: seq<string>,
          marked: map<string, string>)
    returns (rest: seq<string>, after: map<string, string>)
    requires forall a, b :: b in Neighbors(adjacency, a) <==> Adjacent(bucket, edges, a, b)
    requires queue != [] && queue[0] != "" && Reached(bucket, edges, before, seed, revs, queue)
    requires MarksReached(marked, before, revs, queue)
    ensures Reached(bucket, edges, before, seed, revs + [queue[0]], rest)
    ensures MarksReached(after, before, revs + [queue[0]], rest)
    ensures forall x :: x in marked ==> x in after && after[x] == marked[x]
    ensures "" in after && "" !in marked ==> "" in bucket && after[""] == "pending"
  {
    hide Connected;
    var current := queue[0];
    rest, after := queue[1..], marked;
    ghost var done := revs + [current];
    assert revs + queue == done + rest;
    var left := Neighbors(adjacency, current);
    while left != {}
      invariant left <= Neighbors(adjacency, current)
      invariant Distinct(done + rest) && done + rest != [] && (done + rest)[0] == seed
      invariant forall x :: x in done + rest ==> InReach(bucket, edges, before, seed, x)
      invariant forall x, y :: x in revs && Linked(bucket, edges, x, y) ==> y in before || y in done + rest
      invariant forall y :: y in Neighbors(adjacency, current) && y != "" ==>
                y in left || y in before || y in done + rest
      invariant MarksReached(after, before, done, rest)
      invariant forall x :: x in marked ==> x in after && after[x] == marked[x]
      invariant "" in after && "" !in marked ==> "" in bucket && after[""] == "pending"
      decreases left
    {
      var neighbor :| neighbor in left;
      left := left - {neighbor};
      assert current in done + rest && Adjacent(bucket, edges, current, neighbor);
      if neighbor !in after && neighbor in bucket && bucket[neighbor] == bucket[seed] {
        if neighbor != "" {
          ConnectedStep(bucket, edges, seed, current, neighbor);
        }
        assert done + (rest + [neighbor]) == done + rest + [neighbor];
        rest := rest + [neighbor];
        after := after[neighbor := "pending"];
      }
    }
  }

  // ---- All components ----

  /** A whole connected component under its own name; or nothing, which is what an empty id is listed as. */
  ghost predicate IsComponent(bucket: map<string, string>, edges: seq<Edge>, idOf: map<string, string>, c: Component) {
    && Distinct(c.revs) && "" !in c.revs
    && (c.revs != [] ==> forall x :: x in c.revs <==> Connected(bucket, edges, c.revs[0], x))
    && (forall x :: x in c.revs ==> x in idOf && idOf[x] == c.id && x in bucket && bucket[x] == c.bucket)
  }

  /** How many of the first `n` components are of this bucket. */
  function CountIn(components: seq<Component>, n: nat, bucket: string): nat
    requires n <= |components|
  {
    if n == 0 then 0 else CountIn(components, n - 1, bucket) + if components[n - 1].bucket == bucket then 1 else 0
  }

  /** The components of a bucket are numbered from one, in the order in which they are listed. */
  ghost predicate Numbered(components: seq<Component>) {
    forall i :: 0 <= i < |components| ==>
      components[i].id == components[i].bucket + ":" + Decimal(CountIn(components, i + 1, components[i].bucket))
  }

  /** Each component begins with the point that comes first among its own, and they are listed in the order of
      these points. */
  ghost predicate InPointOrder(points: seq<Point>, components: seq<Component>, firsts: seq<nat>) {
    && |firsts| == |components|
    && (forall i, j :: 0 <= i < j < |firsts| ==> firsts[i] < firsts[j])
    && forall i :: 0 <= i < |firsts| ==>
         && firsts[i] < |points|
         && points[firsts[i]].rev == (if components[i].revs == [] then "" else components[i].revs[0])
         && forall q :: 0 <= q < firsts[i] ==> points[q].rev !in components[i].revs
  }

  /** The components cover what has an id, and nothing is in two of them. */
  ghost predicate Partition(bucket: map<string, string>, edges: seq<Edge>, idOf: map<string, string>,
          components: seq<Component>)
  {
    && (forall i :: 0 <= i < |components| ==> IsComponent(bucket, edges, idOf, components[i]))
    && (forall x :: x in idOf && x != "" ==> exists i :: 0 <= i < |components| && x in components[i].revs)
    && (forall i, j, x :: 0 <= i < j < |components| && x in components[i].revs ==> x !in components[j].revs)
  }

  lemma {:induction false} CountGrows(components: seq<Component>, m: nat, n: nat, bucket: string)
    requires m <= n <= |components|
    ensures CountIn(components, m, bucket) <= CountIn(components, n, bucket)
  {
    if m < n {
      CountGrows(components, m, n - 1, bucket);
    }
  }

  lemma NamesDiffer(components: seq<Component>)
    requires Numbered(components)
    ensures forall i, j :: 0 <= i < j < |components| ==> components[i].id != components[j].id
  {
    hide Decimal;
    forall i, j | 0 <= i < j < |components|
      ensures components[i].id != components[j].id
    {
      var a, b := components[i].bucket, components[j].bucket;
      if components[i].id == components[j].id {
        IdIsInjective(a, CountIn(components, i + 1, a), b, CountIn(components, j + 1, b));
        CountGrows(components, i + 1, j, b);
      }
    }
  }

  method Assign(marked: map<string, string>, revs: seq<string>, id: string) returns (idOf: map<string, string>)
    requires forall x :: x in revs ==> x in marked
    ensures idOf.Keys == marked.Keys
    ensures forall x :: x in idOf ==> idOf[x] == if x in revs then id else marked[x]
  {
    idOf := marked;
    for n := 0 to |revs|
      invariant idOf.Keys == marked.Keys
      invariant forall x :: x in idOf ==> idOf[x] == if x in revs[..n] then id else marked[x]
    {
      idOf := idOf[revs[n] := id];
      assert revs[..n + 1] == revs[..n] + [revs[n]];
    }
    assert revs[..|revs|] == revs;
  }

  method BuildBuckets(points: seq<Point>) returns (bucket: map<string, string>)
    ensures IsBucketMap(points, bucket)
  {
    bucket := map[];
    for n := 0 to |points|
      invariant IsBucketMap(points[..n], bucket)
    {
      OneMorePoint(points, n, bucket);
      bucket := bucket[points[n].rev := points[n].bucket];
    }
    assert points[..|points|] == points;
  }

  lemma OneMorePoint(points: seq<Point>, n: nat, bucket: map<string, string>)
    requires n < |points| && IsBucketMap(points[..n], bucket)
    ensures IsBucketMap(points[..n + 1], bucket[points[n].rev := points[n].bucket])
  {
    hide LastListed;
    var some, p := points[..n], points[n];
    assert points[..n + 1] == some + [p];
    forall x | x in bucket
      ensures x != p.rev ==> LastListed(some + [p], x, bucket[x])
    {
      StillLast(some, p, x, bucket[x]);
    }
    StillLast(some, p, p.rev, p.bucket);
  }

  lemma StillLast(points: seq<Point>, p: Point, x: string, b: string)
    ensures p.rev != x && LastListed(points, x, b) ==> LastListed(points + [p], x, b)
    ensures LastListed(points + [p], p.rev, p.bucket)
  {
    var more := points + [p];
    assert more[|points|] == p;
    if LastListed(points, x, b) {
      var i :| 0 <= i < |points| && points[i] == Point(x, b) && forall j :: i < j < |points| ==> points[j].rev != x;
      assert more[i] == points[i];
    }
  }

  /** Splits the points into their connected components, bucket by bucket. */
  method ComputeComponents(points: seq<Point>, edges: seq<Edge>)
    returns (bucket: map<string, string>, idOf: map<string, string>, components: seq<Component>)
    ensures IsBucketMap(points, bucket)
    ensures forall x :: x in idOf <==> x in bucket
    ensures "" in idOf ==> idOf[""] == "pending"
    ensures Partition(bucket, edges, idOf, components)
    ensures forall i, j :: 0 <= i < j < |components| ==> components[i].id != components[j].id
    ensures Numbered(components) && exists firsts :: InPointOrder(points, components, firsts)
  {
    hide *;
    bucket := BuildBuckets(points);
    BucketFacts(points, bucket);
    var adjacency := BuildAdjacency(bucket, edges);
    idOf, components := map[], [];
    var index: map<string, nat> := map[];
    ghost var firsts: seq<nat> := [];
    NothingYet(points, bucket, edges, idOf, index);
    for n := 0 to |points|
      invariant Closed(bucket, edges, idOf.Keys) && forall x :: x in idOf ==> x in bucket
      invariant "" in idOf ==> idOf[""] == "pending"
      invariant AllSeen(points, n, idOf.Keys)
      invariant Partition(bucket, edges, idOf, components)
      invariant Numbered(components) && Indexed(components, index)
      invariant InPointOrder(points[..n], components, firsts)
    {
      var seed := points[n].rev;
      if seed !in idOf {
        var revs, marked := Explore(bucket, edges, adjacency, seed, idOf);
        var b := bucket[seed];
        var next := (if b in index then index[b] else 0) + 1;
        var c := Component(b, Id(b, next), revs);
        NewNumber(components, index, next, c);
        index := index[b := next];
        ghost var was := idOf;
        idOf := Assign(marked, revs, c.id);
        assert marked.Keys == idOf.Keys;
        if seed == "" {
          EmptyComponent(bucket, edges, was, idOf, components, c);
        } else {
          NewComponent(bucket, edges, was, idOf, components, seed, c);
        }
        firsts := NewFirst(points, n, components, firsts, was.Keys, c);
        components := components + [c];
        OneMoreSeen(points, n, was.Keys, idOf.Keys);
      } else {
        NoNewFirst(points, n, components, firsts);
        OneMoreSeen(points, n, idOf.Keys, idOf.Keys);
      }
    }
    assert points[..|points|] == points;
    NamesDiffer(components);
    AllSeenIsAll(points, bucket, idOf.Keys);
  }

  lemma BucketFacts(points: seq<Point>, bucket: map<string, string>)
    requires IsBucketMap(points, bucket)
    ensures forall n :: 0 <= n < |points| ==> points[n].rev in bucket
  {
  }

  /** The first `n` points are all among `keys`. */
  ghost predicate AllSeen(points: seq<Point>, n: nat, keys: set<string>)
    requires n <= |points|
  {
    forall m :: 0 <= m < n ==> points[m].rev in keys
  }

  lemma OneMoreSeen(points: seq<Point>, n: nat, before: set<string>, keys: set<string>)
    requires n < |points| && AllSeen(points, n, before) && before <= keys && points[n].rev in keys
    ensures AllSeen(points, n + 1, keys)
  {
  }

  lemma AllSeenIsAll(points: seq<Point>, bucket: map<string, string>, keys: set<string>)
    requires IsBucketMap(points, bucket) && AllSeen(points, |points|, keys)
    ensures bucket.Keys <= keys
  {
  }

  lemma NothingYet(points: seq<Point>, bucket: map<string, string>, edges: seq<Edge>, idOf: map<string, string>,
          index: map<string, nat>)
    requires idOf == map[]
    ensures Closed(bucket, edges, idOf.Keys) && Partition(bucket, edges, idOf, [])
    ensures index == map[] ==> Numbered([]) && Indexed([], index)
    ensures InPointOrder([], [], []) && AllSeen(points, 0, idOf.Keys)
  {
  }

  /** The index holds the last number of each bucket. */
  ghost predicate Indexed(components: seq<Component>, index: map<string, nat>) {
    forall b: string :: (if b in index then index[b] else 0) == CountIn(components, |components|, b)
  }

  lemma {:induction false} CountPrefix(components: seq<Component>, c: Component, n: nat, bucket: string)
    requires n <= |components|
    ensures CountIn(components + [c], n, bucket) == CountIn(components, n, bucket)
  {
    if n > 0 {
      CountPrefix(components, c, n - 1, bucket);
    }
  }

  lemma NewNumber(components: seq<Component>, index: map<string, nat>, next: nat, c: Component)
    requires Numbered(components) && Indexed(components, index)
    requires next == (if c.bucket in index then index[c.bucket] else 0) + 1 && c.id == Id(c.bucket, next)
    ensures Numbered(components + [c]) && Indexed(components + [c], index[c.bucket := next])
  {
    hide Decimal;
    var all := components + [c];
    forall n, b: string | 0 <= n <= |components|
      ensures CountIn(all, n, b) == CountIn(components, n, b)
    {
      CountPrefix(components, c, n, b);
    }
  }

  lemma NewFirst(points: seq<Point>, n: nat, components: seq<Component>, firsts: seq<nat>, was: set<string>,
          c: Component) returns (more: seq<nat>)
    requires n < |points| && InPointOrder(points[..n], components, firsts) && AllSeen(points, n, was)
    requires points[n].rev == (if c.revs == [] then "" else c.revs[0]) && forall x :: x in c.revs ==> x !in was
    ensures InPointOrder(points[..n + 1], components + [c], more)
  {
    more := firsts + [n];
    NoNewFirst(points, n, components, firsts);
  }

  lemma NoNewFirst(points: seq<Point>, n: nat, components: seq<Component>, firsts: seq<nat>)
    requires n < |points| && InPointOrder(points[..n], components, firsts)
    ensures InPointOrder(points[..n + 1], components, firsts)
  {
    assert forall q :: 0 <= q < n ==> points[..n][q] == points[..n + 1][q];
  }

  lemma SameBucket(bucket: map<string, string>, edges: seq<Edge>, a: string, b: string)
    requires Connected(bucket, edges, a, b) && a in bucket
    ensures b in bucket && bucket[b] == bucket[a]
  {
    var p :| Path(bucket, edges, p, a, b);
    var xs := set x | x in bucket && bucket[x] == bucket[a];
    ClosedHolds(bucket, edges, xs, p, a, b);
  }

  lemma NewComponent(bucket: map<string, string>, edges: seq<Edge>, was: map<string, string>, idOf: map<string, string>,
          components: seq<Component>, seed: string, c: Component)
    requires Partition(bucket, edges, was, components) && seed in bucket && c.bucket == bucket[seed]
    requires Distinct(c.revs) && seed in c.revs && forall x :: x in c.revs <==> Connected(bucket, edges, seed, x)
    requires forall x :: x in c.revs ==> x in bucket && x !in was && x != ""
    requires forall x :: x != "" ==> (x in idOf <==> x in was || x in c.revs)
    requires forall x :: x in idOf && x != "" ==> idOf[x] == if x in c.revs then c.id else was[x]
    ensures Partition(bucket, edges, idOf, components + [c])
  {
    hide Connected;
    forall x
      ensures x in c.revs <==> Connected(bucket, edges, c.revs[0], x)
    {
      if x in c.revs {
        ConnectedBoth(bucket, edges, seed, c.revs[0], x);
      }
      if Connected(bucket, edges, c.revs[0], x) {
        ConnectedVia(bucket, edges, seed, c.revs[0], x);
      }
    }
    forall x | x in c.revs
      ensures bucket[x] == c.bucket
    {
      SameBucket(bucket, edges, seed, x);
    }
    var all := components + [c];
    forall i | 0 <= i < |all|
      ensures IsComponent(bucket, edges, idOf, all[i])
    {
      if i < |components| {
        assert IsComponent(bucket, edges, was, components[i]);
      }
    }
    forall x | x in idOf && x != ""
      ensures exists i :: 0 <= i < |all| && x in all[i].revs
    {
      if x in c.revs {
        assert x in all[|components|].revs;
      } else {
        var i :| 0 <= i < |components| && x in components[i].revs;
        assert x in all[i].revs;
      }
    }
    forall i, j, x | 0 <= i < j < |all| && x in all[i].revs
      ensures x !in all[j].revs
    {
      if j == |components| {
        assert IsComponent(bucket, edges, was, components[i]);
      }
    }
  }

  /** A point without a revision id is listed as an empty component. */
  lemma EmptyComponent(bucket: map<string, string>, edges: seq<Edge>, was: map<string, string>,
          idOf: map<string, string>, components: seq<Component>, c: Component)
    requires Partition(bucket, edges, was, components) && c.revs == []
    requires forall x :: x != "" ==> (x in idOf <==> x in was)
    requires forall x :: x in idOf && x != "" ==> idOf[x] == was[x]
    ensures Partition(bucket, edges, idOf, components + [c])
  {
    hide Connected;
    var all := components + [c];
    forall i | 0 <= i < |all|
      ensures IsComponent(bucket, edges, idOf, all[i])
    {
      if i < |components| {
        assert IsComponent(bucket, edges, was, components[i]);
      }
    }
    forall x | x in idOf && x != ""
      ensures exists i :: 0 <= i < |all| && x in all[i].revs
    {
      var i :| 0 <= i < |components| && x in components[i].revs;
      assert x in all[i].revs;
    }
  }

  lemma ConnectedVia(bucket: map<string, string>, edges: seq<Edge>, a: string, b: string, c: string)
    requires Connected(bucket, edges, a, b) && Connected(bucket, edges, b, c)
    ensures Connected(bucket, edges, a, c)
  {
    var q :| Path(bucket, edges, q, b, c);
    Extend(bucket, edges, a, q, b, c);
  }

  /** Two revisions have the same component id exactly when edges inside a bucket connect them. */
  lemma SameIdIsConnected(bucket: map<string, string>, edges: seq<Edge>, idOf: map<string, string>,
          components: seq<Component>, a: string, b: string)
    requires Partition(bucket, edges, idOf, components) && a in idOf && b in idOf && a != "" && b != ""
    requires forall i, j :: 0 <= i < j < |components| ==> components[i].id != components[j].id
    ensures idOf[a] == idOf[b] <==> Connected(bucket, edges, a, b)
  {
    hide Connected;
    var i :| 0 <= i < |components| && a in components[i].revs;
    var j :| 0 <= j < |components| && b in components[j].revs;
    assert IsComponent(bucket, edges, idOf, components[i]) && IsComponent(bucket, edges, idOf, components[j]);
    if idOf[a] == idOf[b] {
      assert i == j;
      ConnectedBoth(bucket, edges, components[i].revs[0], a, b);
    }
    if Connected(bucket, edges, a, b) {
      ConnectedVia(bucket, edges, components[i].revs[0], a, b);
    }
  }
}
