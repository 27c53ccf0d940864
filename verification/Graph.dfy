/** The report's minimal ancestor edges between measured revisions. */
module Graph {
  import opened Ancestry
  import opened AncestorSearch

  datatype ParentEdge = ParentEdge(child: string, parent: string)

  datatype Edge = Edge(parent: string, child: string)

  // ---- The graph ----

  /** The parents of each child, in edge order. */
  ghost function ParentsOf(edges: seq<ParentEdge>, child: string): seq<string> {
    if edges == [] then []
    else
      var last := edges[|edges| - 1];
      ParentsOf(edges[..|edges| - 1], child) + if last.child == child then [last.parent] else []
  }

  ghost function ParentMap(edges: seq<ParentEdge>): Parents {
    map c | c in (set e | e in edges :: e.child) :: ParentsOf(edges, c)
  }

  /** The map is the graph of the edges. */
  lemma {:induction false} ParentMapIsGraph(edges: seq<ParentEdge>, child: string, parent: string)
    ensures IsParent(ParentMap(edges), child, parent) <==>
            exists e :: e in edges && e.child == child && e.parent == parent
  {
    ParentsAreEdges(edges, child, parent);
  }

  lemma {:induction false} ParentsAreEdges(edges: seq<ParentEdge>, child: string, parent: string)
    ensures parent in ParentsOf(edges, child) <==> exists e :: e in edges && e.child == child && e.parent == parent
  {
    if edges != [] {
      var last := edges[|edges| - 1];
      ParentsAreEdges(edges[..|edges| - 1], child, parent);
      assert edges == edges[..|edges| - 1] + [last];
      if e :| e in edges && e.child == child && e.parent == parent && e != last {
        assert e in edges[..|edges| - 1];
      }
    }
  }

  method BuildParentMap(edges: seq<ParentEdge>) returns (parents: Parents)
    ensures parents == ParentMap(edges)
  {
    parents := map[];
    for n := 0 to |edges|
      invariant forall c :: c in parents <==> exists e :: e in edges[..n] && e.child == c
      invariant forall c :: c in parents ==> parents[c] == ParentsOf(edges[..n], c)
      invariant forall c :: c !in parents ==> ParentsOf(edges[..n], c) == []
    {
      assert edges[..n + 1][..n] == edges[..n];
      assert edges[..n + 1] == edges[..n] + [edges[n]];
      var existing := if edges[n].child in parents then parents[edges[n].child] else [];
      parents := parents[edges[n].child := existing + [edges[n].parent]];
    }
    assert edges[..|edges|] == edges;
  }

  // ---- The search ----

  /** The search with its memo and the set of revisions being visited. */
  class Search {
    const parents: Parents
    const measured: set<string>
    var memo: Memo
    var visiting: set<string>

    constructor (parents: Parents, measured: set<string>)
      ensures this.parents == parents && this.measured == measured && memo == map[] && visiting == {}
    {
      this.parents := parents;
      this.measured := measured;
      memo := map[];
      visiting := {};
    }

    /** What the memoised search answers and remembers. */
    method NearestMeasuredAncestors(rev: string) returns (result: set<string>)
      modifies this
      ensures Found(memo, result) == Find(parents, measured, old(memo), old(visiting), rev) && visiting == old(visiting)
      decreases parents.Keys - visiting, 0
    {
      if rev in memo {
        return memo[rev];
      }
      if rev in visiting {
        return {};
      }
      visiting := visiting + {rev};
      result := {};
      if rev in parents {
        result := CollectFrom(parents[rev]);
      }
      visiting := visiting - {rev};
      memo := memo[rev := result];
    }

    /** The loop over the parents of a revision being visited. */
    method CollectFrom(some: seq<string>) returns (result: set<string>)
      modifies this
      ensures Found(memo, result) == Collect(parents, measured, old(memo), old(visiting), some)
      ensures visiting == old(visiting)
      decreases parents.Keys - visiting, 1
    {
      result := {};
      for n := 0 to |some|
        invariant Found(memo, result) == Collect(parents, measured, old(memo), old(visiting), some[..n])
        invariant visiting == old(visiting)
      {
        assert some[..n + 1][..n] == some[..n];
        if some[n] in measured {
          result := result + {some[n]};
        } else {
          var found := NearestMeasuredAncestors(some[n]);
          result := result + found;
        }
      }
      assert some[..|some|] == some;
    }
  }

  // ---- The edges ----

  /** The edges of the points: one to each nearest measured ancestor of each. */
  ghost predicate IsMinimal(parents: Parents, points: seq<string>, edges: seq<Edge>) {
    var measured := Measured(points);
    && (forall e :: e in edges ==> e.child in points && e.parent in Nearest(parents, measured, e.child))
    && (NoHiddenLoop(parents, measured) ==>
          forall c, a :: c in points && a in Nearest(parents, measured, c) ==> Edge(a, c) in edges)
  }

  ghost predicate Distinct<T>(xs: seq<T>) {
    forall i, j :: 0 <= i < j < |xs| ==> xs[i] != xs[j]
  }

  /** Edge `i` is one of the point at `from[i]`, and the edges of earlier points come first. */
  ghost predicate PointByPoint(points: seq<string>, edges: seq<Edge>, from: seq<nat>) {
    && |from| == |edges|
    && (forall i :: 0 <= i < |from| ==> from[i] < |points| && edges[i].child == points[from[i]])
    && forall i, j :: 0 <= i < j < |from| ==> from[i] <= from[j]
  }

  lemma FromPoint(points: seq<string>, n: nat, edges: seq<Edge>, from: seq<nat>, more: seq<Edge>)
    returns (all: seq<nat>)
    requires n < |points| && PointByPoint(points[..n], edges, from)
    requires forall e :: e in more ==> e.child == points[n]
    ensures PointByPoint(points[..n + 1], edges + more, all)
  {
    all := from + seq(|more|, _ => n);
    assert forall i :: 0 <= i < |more| ==> more[i] in more;
  }

  /** Emits an edge for each ancestor the search answers, point by point. */
  method ComputeMinimalEdges(points: seq<string>, parentEdges: seq<ParentEdge>) returns (edges: seq<Edge>)
    ensures var results := FindAll(ParentMap(parentEdges), Measured(points), points).1;
            && |results| == |points|
            && forall e :: e in edges <==>
                exists i :: 0 <= i < |points| && points[i] == e.child && e.parent in results[i]
    ensures IsMinimal(ParentMap(parentEdges), points, edges)
    ensures Distinct(points) ==> Distinct(edges)
    ensures exists from :: PointByPoint(points, edges, from)
  {
    hide ParentMap, Find, Nearest;
    var measured := Measured(points);
    var parents := BuildParentMap(parentEdges);
    var search := new Search(parents, measured);
    edges := [];
    ghost var results: seq<set<string>> := [];
    ghost var from: seq<nat> := [];
    for n := 0 to |points|
      invariant search.visiting == {} && |results| == n
      invariant (search.memo, results) == FindAll(parents, measured, points[..n])
      invariant forall e :: e in edges <==> exists i :: 0 <= i < n && points[i] == e.child && e.parent in results[i]
      invariant Distinct(points) ==> Distinct(edges)
      invariant PointByPoint(points[..n], edges, from)
    {
      assert points[..n + 1][..n] == points[..n];
      ghost var (before, was) := (edges, results);
      var found := search.NearestMeasuredAncestors(points[n]);
      results := results + [found];
      var more := EdgesTo(points[n], found);
      edges := edges + more;
      Appended(points, before, more, was, found, n);
      from := FromPoint(points, n, before, from, more);
    }
    assert points[..|points|] == points;
    AnswersAreMinimal(parents, points, edges);
  }

  lemma Appended(points: seq<string>, before: seq<Edge>, more: seq<Edge>, results: seq<set<string>>, found: set<string>,
          n: nat)
    requires n == |results| < |points| && Distinct(more)
    requires forall e :: e in before <==> exists i :: 0 <= i < n && points[i] == e.child && e.parent in results[i]
    requires forall e :: e in more <==> e.child == points[n] && e.parent in found
    ensures var all := results + [found];
            forall e :: e in before + more <==> exists i :: 0 <= i < n + 1 && points[i] == e.child && e.parent in all[i]
    ensures Distinct(points) && Distinct(before) ==> Distinct(before + more)
  {
    var all := results + [found];
    forall e
      ensures e in before + more <==> exists i :: 0 <= i < n + 1 && points[i] == e.child && e.parent in all[i]
    {
      if e in before {
        var i :| 0 <= i < n && points[i] == e.child && e.parent in results[i];
        assert all[i] == results[i];
      }
      if e in more {
        assert all[n] == found;
      }
    }
    if Distinct(points) {
      forall e | e in before
        ensures e !in more
      {
      }
    }
  }

  lemma AnswersAreMinimal(parents: Parents, points: seq<string>, edges: seq<Edge>)
    requires var results := FindAll(parents, Measured(points), points).1;
             && |results| == |points|
             && forall e :: e in edges <==>
                 exists i :: 0 <= i < |points| && points[i] == e.child && e.parent in results[i]
    ensures IsMinimal(parents, points, edges)
  {
    hide FindAll, Nearest, NoHiddenLoop;
    var measured := Measured(points);
    FindAllIsSound(parents, measured, points);
    if NoHiddenLoop(parents, measured) {
      FindAllIsComplete(parents, measured, points);
      forall c, a | c in points && a in Nearest(parents, measured, c)
        ensures Edge(a, c) in edges
      {
        var i :| 0 <= i < |points| && points[i] == c;
        assert a in FindAll(parents, measured, points).1[i];
      }
    }
  }

  /** One edge per ancestor, in whatever order the set yields them. */
  method EdgesTo(child: string, ancestors: set<string>) returns (edges: seq<Edge>)
    ensures forall e :: e in edges <==> e.child == child && e.parent in ancestors
    ensures Distinct(edges)
  {
    edges := [];
    var left := ancestors;
    while left != {}
      invariant left <= ancestors && Distinct(edges)
      invariant forall e :: e in edges <==> e.child == child && e.parent in ancestors && e.parent !in left
      decreases left
    {
      var a :| a in left;
      edges := edges + [Edge(a, child)];
      left := left - {a};
    }
  }

  /** A path of at least one step along emitted edges. */
  ghost predicate EdgePath(edges: seq<Edge>, p: seq<string>, from: string, to: string) {
    && |p| > 1 && p[0] == from && p[|p| - 1] == to
    && forall i :: 0 <= i < |p| - 1 ==> Edge(p[i + 1], p[i]) in edges
  }

  ghost predicate Connected(edges: seq<Edge>, from: string, to: string) {
    exists p :: EdgePath(edges, p, from, to)
  }

  lemma EdgeConnects(edges: seq<Edge>, from: string, to: string)
    requires Edge(to, from) in edges
    ensures Connected(edges, from, to)
  {
    assert EdgePath(edges, [from, to], from, to);
  }

  lemma EdgeThenPath(edges: seq<Edge>, a: string, b: string, c: string)
    requires Edge(b, a) in edges && Connected(edges, b, c)
    ensures Connected(edges, a, c)
  {
    var p :| EdgePath(edges, p, b, c);
    var q := [a] + p;
    forall i | 0 <= i < |q| - 1
      ensures Edge(q[i + 1], q[i]) in edges
    {
      if i > 0 {
        assert q[i] == p[i - 1] && q[i + 1] == p[i];
      }
    }
    assert EdgePath(edges, q, a, c);
  }

  /** The first measured revision of a path after its start. */
  lemma {:induction false} FirstMeasured(measured: set<string>, p: seq<string>, i: nat) returns (j: nat)
    requires 0 < i < |p| && p[|p| - 1] in measured && forall k :: 0 < k < i ==> p[k] !in measured
    ensures i <= j < |p| && p[j] in measured && forall k :: 0 < k < j ==> p[k] !in measured
    decreases |p| - i
  {
    if p[i] in measured {
      j := i;
    } else {
      j := FirstMeasured(measured, p, i + 1);
    }
  }

  lemma {:induction false} AncestorsAreConnected(parents: Parents, points: seq<string>, edges: seq<Edge>,
          p: seq<string>, from: string, to: string)
    requires IsMinimal(parents, points, edges) && NoHiddenLoop(parents, Measured(points))
    requires from in points && to in points && Leads(parents, p, from, to)
    ensures Connected(edges, from, to)
    decreases |p|
  {
    var measured := Measured(points);
    var j := FirstMeasured(measured, p, 1);
    var q := p[..j + 1];
    assert Leads(parents, q, from, p[j]) && Direct(measured, q);
    assert p[j] in Nearest(parents, measured, from);
    if j == |p| - 1 {
      EdgeConnects(edges, from, to);
    } else {
      var r := p[j..];
      forall i | 0 <= i < |r| - 1
        ensures IsParent(parents, r[i], r[i + 1])
      {
        assert r[i] == p[j + i] && r[i + 1] == p[j + i + 1];
      }
      AncestorsAreConnected(parents, points, edges, r, p[j], to);
      EdgeThenPath(edges, from, p[j], to);
    }
  }

  lemma {:induction false} ConnectedAreAncestors(parents: Parents, points: seq<string>, edges: seq<Edge>,
          p: seq<string>, from: string, to: string)
    requires IsMinimal(parents, points, edges) && EdgePath(edges, p, from, to)
    ensures from in points && to in points && Ancestor(parents, from, to)
    decreases |p|
  {
    var e := Edge(p[1], p[0]);
    assert e in edges;
    if |p| > 2 {
      var q := p[1..];
      forall i | 0 <= i < |q| - 1
        ensures Edge(q[i + 1], q[i]) in edges
      {
        assert q[i] == p[i + 1] && q[i + 1] == p[i + 2];
      }
      ConnectedAreAncestors(parents, points, edges, q, p[1], to);
      AncestorTransitive(parents, from, p[1], to);
    }
  }

  /** When no two unmeasured revisions reach each other the transitive closure of the emitted edges is the
      ancestor relation restricted to the measured revisions. */
  lemma ClosureIsAncestry(parents: Parents, points: seq<string>, edges: seq<Edge>, from: string, to: string)
    requires IsMinimal(parents, points, edges) && NoHiddenLoop(parents, Measured(points))
    ensures Connected(edges, from, to) <==> from in points && to in points && Ancestor(parents, from, to)
  {
    if Connected(edges, from, to) {
      var p :| EdgePath(edges, p, from, to);
      ConnectedAreAncestors(parents, points, edges, p, from, to);
    }
    if from in points && to in points && Ancestor(parents, from, to) {
      var p :| Leads(parents, p, from, to);
      AncestorsAreConnected(parents, points, edges, p, from, to);
    }
  }

  /** A path that does not use the edge between its ends passes another measured revision. */
  lemma Between(parents: Parents, points: seq<string>, edges: seq<Edge>, p: seq<string>, from: string, to: string)
    returns (m: string)
    requires IsMinimal(parents, points, edges) && Acyclic(parents) && EdgePath(edges, p, from, to) && |p| > 2
    ensures m in points && m != from && m != to && Ancestor(parents, from, m) && Ancestor(parents, m, to)
  {
    var q := p[1..];
    forall i | 0 <= i < |q| - 1
      ensures Edge(q[i + 1], q[i]) in edges
    {
      assert q[i] == p[i + 1] && q[i + 1] == p[i + 2];
    }
    m := p[1];
    ConnectedAreAncestors(parents, points, edges, q, m, to);
    ConnectedAreAncestors(parents, points, edges, [from, m], from, m);
  }

  /** Nothing less will do: dropping an edge loses it from the closure when no other measured revision
      lies between its ends. */
  lemma EdgeIsNeeded(parents: Parents, points: seq<string>, edges: seq<Edge>, e: Edge, fewer: seq<Edge>)
    requires IsMinimal(parents, points, edges) && e in edges && e !in fewer
    requires forall f :: f in fewer ==> f in edges
    requires forall m :: m in points && m != e.child && m != e.parent ==>
             !(Ancestor(parents, e.child, m) && Ancestor(parents, m, e.parent))
    requires Acyclic(parents)
    ensures !Connected(fewer, e.child, e.parent)
  {
    hide IsMinimal, Acyclic, Ancestor;
    if Connected(fewer, e.child, e.parent) {
      var p :| EdgePath(fewer, p, e.child, e.parent);
      if |p| > 2 {
        var m := Between(parents, points, edges, p, e.child, e.parent);
      }
    }
  }
}
