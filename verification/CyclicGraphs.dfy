/** On which graphs the search may miss ancestors: exactly those where two unmeasured revisions reach each
    other through unmeasured ones. */
module CyclicGraphs {
  import opened Ancestry
  import opened AncestorSearch

  // ---- What one search leaves in the memo ----

  /** Every unmeasured parent of a remembered revision is remembered or being visited. */
  ghost predicate Closed(parents: Parents, measured: set<string>, memo: Memo, visiting: set<string>) {
    forall c, p :: c in memo && IsParent(parents, c, p) && p !in measured ==> p in memo || p in visiting
  }

  lemma {:induction false} FindCloses(parents: Parents, measured: set<string>, memo: Memo, visiting: set<string>,
          rev: string)
    requires Closed(parents, measured, memo, visiting)
    ensures var f := Find(parents, measured, memo, visiting, rev);
            Closed(parents, measured, f.memo, visiting) && (rev in f.memo || rev in visiting)
    decreases parents.Keys - visiting, 0
  {
    if rev !in memo && rev !in visiting && rev in parents {
      CollectCloses(parents, measured, memo, visiting + {rev}, parents[rev]);
    }
  }

  lemma {:induction false} CollectCloses(parents: Parents, measured: set<string>, memo: Memo, visiting: set<string>,
          some: seq<string>)
    requires Closed(parents, measured, memo, visiting)
    ensures var f := Collect(parents, measured, memo, visiting, some);
            && Closed(parents, measured, f.memo, visiting)
            && forall p :: p in some && p !in measured ==> p in f.memo || p in visiting
    decreases parents.Keys - visiting, |some|
  {
    hide Closed;
    if some != [] {
      var n := |some| - 1;
      assert some == some[..n] + [some[n]];
      CollectCloses(parents, measured, memo, visiting, some[..n]);
      var before := Collect(parents, measured, memo, visiting, some[..n]);
      if some[n] !in measured {
        FindCloses(parents, measured, before.memo, visiting, some[n]);
        FindKeeps(parents, measured, before.memo, visiting, some[n]);
      }
    }
  }

  lemma {:induction false} ReachedIsRemembered(parents: Parents, measured: set<string>, memo: Memo, p: seq<string>,
          from: string, to: string)
    requires Closed(parents, measured, memo, {}) && from in memo && HiddenPath(parents, measured, p, from, to)
    ensures to in memo
  {
    assert IsParent(parents, p[0], p[1]);
    if |p| > 2 {
      var q := p[1..];
      forall i | 0 <= i < |q| - 1
        ensures IsParent(parents, q[i], q[i + 1])
      {
        assert q[i] == p[i + 1] && q[i + 1] == p[i + 2];
      }
      ReachedIsRemembered(parents, measured, memo, q, p[1], to);
    }
  }

  ghost predicate Unmentioned(memo: Memo, m: string) {
    forall c :: c in memo ==> m !in memo[c]
  }

  /** While `u`, the only child of `m`, is being visited, nothing else that is searched finds `m`. */
  lemma {:induction false} FindLeaksNothing(parents: Parents, measured: set<string>, memo: Memo, visiting: set<string>,
          rev: string, u: string, m: string)
    requires u in visiting && u !in memo && Unmentioned(memo, m) && forall c :: IsParent(parents, c, m) ==> c == u
    ensures var f := Find(parents, measured, memo, visiting, rev);
            Unmentioned(f.memo, m) && m !in f.result && u !in f.memo
    decreases parents.Keys - visiting, 0
  {
    if rev !in memo && rev !in visiting && rev in parents {
      assert m in parents[rev] ==> IsParent(parents, rev, m);
      CollectLeaksNothing(parents, measured, memo, visiting + {rev}, parents[rev], u, m);
    }
  }

  lemma {:induction false} CollectLeaksNothing(parents: Parents, measured: set<string>, memo: Memo,
          visiting: set<string>, some: seq<string>, u: string, m: string)
    requires u in visiting && u !in memo && Unmentioned(memo, m) && forall c :: IsParent(parents, c, m) ==> c == u
    ensures var f := Collect(parents, measured, memo, visiting, some);
            Unmentioned(f.memo, m) && (m !in some ==> m !in f.result) && u !in f.memo
    decreases parents.Keys - visiting, |some|
  {
    hide Unmentioned;
    if some != [] {
      var n := |some| - 1;
      assert some == some[..n] + [some[n]];
      CollectLeaksNothing(parents, measured, memo, visiting, some[..n], u, m);
      var before := Collect(parents, measured, memo, visiting, some[..n]);
      if some[n] !in measured {
        FindLeaksNothing(parents, measured, before.memo, visiting, some[n], u, m);
      }
    }
  }

  ghost predicate IsParentOfSome(parents: Parents, rev: string) {
    exists c :: IsParent(parents, c, rev)
  }

  /** Only the revision asked for and parents are remembered. */
  lemma {:induction false} FindRemembersParents(parents: Parents, measured: set<string>, memo: Memo,
          visiting: set<string>, rev: string, y: string)
    requires y !in memo && y != rev && !IsParentOfSome(parents, y)
    ensures y !in Find(parents, measured, memo, visiting, rev).memo
    decreases parents.Keys - visiting, 0
  {
    if rev !in memo && rev !in visiting && rev in parents {
      assert y in parents[rev] ==> IsParent(parents, rev, y);
      CollectRemembersParents(parents, measured, memo, visiting + {rev}, parents[rev], y);
    }
  }

  lemma {:induction false} CollectRemembersParents(parents: Parents, measured: set<string>, memo: Memo,
          visiting: set<string>, some: seq<string>, y: string)
    requires y !in memo && y !in some && !IsParentOfSome(parents, y)
    ensures y !in Collect(parents, measured, memo, visiting, some).memo
    decreases parents.Keys - visiting, |some|
  {
    if some != [] {
      var n := |some| - 1;
      CollectRemembersParents(parents, measured, memo, visiting, some[..n], y);
      if some[n] !in measured {
        FindRemembersParents(parents, measured, Collect(parents, measured, memo, visiting, some[..n]).memo, visiting,
            some[n], y);
      }
    }
  }

  // ---- A missed ancestor ----

  /** Two unmeasured revisions that reach each other; `x` enters at `u`, whose parent `m` is, and `y` at `v`. */
  ghost predicate Trap(parents: Parents, measured: set<string>, u: string, v: string, x: string, y: string, m: string) {
    && u != v && x != y && u !in measured && v !in measured && m in measured
    && HiddenLeads(parents, measured, u, v) && HiddenLeads(parents, measured, v, u)
    && x in parents && parents[x] == [u] && y in parents && parents[y] == [v]
    && !IsParentOfSome(parents, x) && !IsParentOfSome(parents, y)
    && IsParent(parents, u, m) && forall c :: IsParent(parents, c, m) ==> c == u
  }

  /** After `x` has been asked for, `v` is remembered without `m`. */
  lemma FirstSearch(parents: Parents, measured: set<string>, u: string, v: string, x: string, y: string, m: string)
    requires Trap(parents, measured, u, v, x, y, m)
    ensures var memo := Find(parents, measured, map[], {}, x).memo; y !in memo && v in memo && m !in memo[v]
  {
    hide HiddenLeads;
    var f := Find(parents, measured, map[], {}, x);
    assert [u][..0] == [];
    var inner := Collect(parents, measured, map[], {x} + {u}, parents[u]);
    assert {} + {x} == {x};
    CollectLeaksNothing(parents, measured, map[], {x} + {u}, parents[u], u, m);
    ParentHasChild(parents, x, u);
    assert x != u;
    assert Collect(parents, measured, map[], {x}, [u]) == Found(inner.memo[u := inner.result], {} + inner.result);
    assert f.memo == inner.memo[u := inner.result][x := f.result];
    FindRemembersParents(parents, measured, map[], {}, x, y);
    FindCloses(parents, measured, map[], {}, x);
    assert IsParent(parents, x, u);
    VIsRemembered(parents, measured, f.memo, u, v);
    VIsParent(parents, measured, u, v);
  }

  lemma ParentHasChild(parents: Parents, child: string, parent: string)
    requires child in parents && parents[child] == [parent]
    ensures IsParent(parents, child, parent) && IsParentOfSome(parents, parent)
  {
    assert IsParent(parents, child, parent);
  }

  lemma VIsRemembered(parents: Parents, measured: set<string>, memo: Memo, u: string, v: string)
    requires Closed(parents, measured, memo, {}) && u in memo && HiddenLeads(parents, measured, u, v)
    ensures v in memo
  {
    var p :| HiddenPath(parents, measured, p, u, v);
    ReachedIsRemembered(parents, measured, memo, p, u, v);
  }

  lemma VIsParent(parents: Parents, measured: set<string>, u: string, v: string)
    requires HiddenLeads(parents, measured, u, v)
    ensures IsParentOfSome(parents, v) && u in parents
  {
    var p :| HiddenPath(parents, measured, p, u, v);
    assert IsParent(parents, p[|p| - 2], p[|p| - 1]);
    assert IsParent(parents, p[0], p[1]);
  }

  /** Asked for second, `y` misses `m`, which is nearest to it. */
  lemma SecondSearchMisses(parents: Parents, measured: set<string>, u: string, v: string, x: string, y: string,
          m: string)
    requires Trap(parents, measured, u, v, x, y, m)
    ensures m in Nearest(parents, measured, y)
    ensures var results := FindAll(parents, measured, [x, y]).1; |results| == 2 && m !in results[1]
  {
    FirstSearch(parents, measured, u, v, x, y, m);
    hide HiddenLeads, Nearest;
    assert [x, y][..1] == [x] && [x][..0] == [] && [v][..0] == [];
    var memo := Find(parents, measured, map[], {}, x).memo;
    assert FindAll(parents, measured, [x]).0 == memo;
    assert Collect(parents, measured, memo, {} + {y}, [v]) == Found(memo, {} + memo[v]);
    assert Find(parents, measured, memo, {}, y).result == memo[v];
    MIsNearest(parents, measured, u, v, x, y, m);
  }

  lemma MIsNearest(parents: Parents, measured: set<string>, u: string, v: string, x: string, y: string, m: string)
    requires Trap(parents, measured, u, v, x, y, m)
    ensures m in Nearest(parents, measured, y)
  {
    hide HiddenLeads;
    assert Leads(parents, [u, m], u, m) && Direct(measured, [u, m]);
    assert m in Nearest(parents, measured, u);
    HiddenThenNearest(parents, measured, v, u, m);
    ParentHasChild(parents, y, v);
    ThroughIsNearest(parents, measured, y, v, m);
  }

  lemma NearestIsParent(parents: Parents, measured: set<string>, from: string, a: string)
    requires a in Nearest(parents, measured, from)
    ensures a in measured && IsParentOfSome(parents, a)
  {
    var p :| Leads(parents, p, from, a) && Direct(measured, p);
    assert IsParent(parents, p[|p| - 2], p[|p| - 1]);
  }

  /** The smallest case: asked for x and then y, the search answers nothing for y. */
  lemma SmallestMiss()
    ensures var parents := map["x" := ["u"], "u" := ["v", "m"], "v" := ["u"], "y" := ["v"]];
            var measured := {"x", "y", "m"};
            var results := FindAll(parents, measured, ["x", "y"]).1;
            Nearest(parents, measured, "y") == {"m"} && |results| == 2 && results[1] == {}
  {
    var parents := map["x" := ["u"], "u" := ["v", "m"], "v" := ["u"], "y" := ["v"]];
    var measured := {"x", "y", "m"};
    HiddenEdge(parents, measured, "u", "v");
    HiddenEdge(parents, measured, "v", "u");
    SecondSearchMisses(parents, measured, "u", "v", "x", "y", "m");
    FindAllIsSound(parents, measured, ["x", "y"]);
    hide Nearest;
    forall a | a in Nearest(parents, measured, "y")
      ensures a == "m"
    {
      NearestIsParent(parents, measured, "y", a);
    }
  }

  // ---- Exactly when ----

  /** The edges between unmeasured revisions are the same. */
  ghost predicate SameHidden(parents: Parents, points: seq<string>, g: Parents, others: seq<string>) {
    forall a, b ::
      (a !in others && b !in others && IsParent(g, a, b)) <==> (a !in points && b !in points && IsParent(parents, a, b))
  }

  /** A longest string of a finite set is shorter than some number. */
  lemma {:induction false} Bound(s: set<string>) returns (n: nat)
    ensures forall x :: x in s ==> |x| < n
  {
    if s == {} {
      n := 0;
    } else {
      var x :| x in s;
      n := Bound(s - {x});
      n := if n <= |x| then |x| + 1 else n;
    }
  }

  /** The graph with two more children, and one more parent of `u`. */
  function Extended(parents: Parents, u: string, v: string, x: string, y: string, m: string): Parents
    requires u in parents
  {
    parents[u := parents[u] + [m]][x := [u]][y := [v]]
  }

  /** Revisions of which the graph knows nothing. */
  ghost predicate Unknown(parents: Parents, points: seq<string>, x: string) {
    x !in parents && x !in points && !IsParentOfSome(parents, x)
  }

  lemma UnknownRevisions(parents: Parents, points: seq<string>) returns (x: string, y: string, m: string)
    ensures Unknown(parents, points, x) && Unknown(parents, points, y) && Unknown(parents, points, m)
    ensures x != y && x != m && y != m
  {
    var known := parents.Keys + (set c, p | c in parents && p in parents[c] :: p) + Measured(points);
    var n := Bound(known);
    x, y, m := seq(n, _ => 'x'), seq(n + 1, _ => 'x'), seq(n + 2, _ => 'x');
    assert |x| == n && |y| == n + 1 && |m| == n + 2;
    assert x !in known && y !in known && m !in known;
  }

  lemma ExtendedIsParent(parents: Parents, points: seq<string>, u: string, v: string, x: string, y: string, m: string,
          a: string, b: string)
    requires u in parents && Unknown(parents, points, x) && Unknown(parents, points, y) && Unknown(parents, points, m)
    requires x != y && x != m && y != m && IsParentOfSome(parents, v)
    ensures IsParent(Extended(parents, u, v, x, y, m), a, b) <==>
            IsParent(parents, a, b) || (a == u && b == m) || (a == x && b == u) || (a == y && b == v)
  {
  }

  /** The edges between unmeasured revisions stay the same, and the new revisions are trapped. */
  lemma ExtendedIsTrap(parents: Parents, points: seq<string>, u: string, v: string, x: string, y: string, m: string)
    requires u != v && HiddenLeads(parents, Measured(points), u, v) && HiddenLeads(parents, Measured(points), v, u)
    requires u in parents && IsParentOfSome(parents, u) && IsParentOfSome(parents, v) && u !in points && v !in points
    requires Unknown(parents, points, x) && Unknown(parents, points, y) && Unknown(parents, points, m)
    requires x != y && x != m && y != m
    ensures SameHidden(parents, points, Extended(parents, u, v, x, y, m), [x, y, m] + points)
    ensures Trap(Extended(parents, u, v, x, y, m), Measured([x, y, m] + points), u, v, x, y, m)
  {
    hide HiddenLeads;
    var g, others := Extended(parents, u, v, x, y, m), [x, y, m] + points;
    forall a, b
      ensures IsParent(g, a, b) <==>
              IsParent(parents, a, b) || (a == u && b == m) || (a == x && b == u) || (a == y && b == v)
    {
      ExtendedIsParent(parents, points, u, v, x, y, m, a, b);
    }
    assert forall c :: c in others <==> c == x || c == y || c == m || c in points;
    forall a, b
      ensures (a !in others && b !in others && IsParent(g, a, b)) <==>
              (a !in points && b !in points && IsParent(parents, a, b))
    {
      if IsParent(parents, a, b) {
        assert IsParentOfSome(parents, b);
      }
    }
    SameHiddenLeads(parents, points, g, others, u, v);
    SameHiddenLeads(parents, points, g, others, v, u);
    assert IsParent(g, u, m);
  }

  lemma SameHiddenLeads(parents: Parents, points: seq<string>, g: Parents, others: seq<string>, u: string, v: string)
    requires SameHidden(parents, points, g, others) && u !in points && HiddenLeads(parents, Measured(points), u, v)
    ensures HiddenLeads(g, Measured(others), u, v)
  {
    var p :| HiddenPath(parents, Measured(points), p, u, v);
    assert forall i :: 0 <= i < |p| ==> p[i] !in points;
    forall i | 0 <= i < |p| - 1
      ensures IsParent(g, p[i], p[i + 1])
    {
      assert IsParent(parents, p[i], p[i + 1]);
    }
    forall i | 0 <= i < |p|
      ensures p[i] !in others
    {
      var j := if i == 0 then 0 else i - 1;
      assert IsParent(parents, p[j], p[j + 1]);
    }
    assert HiddenPath(g, Measured(others), p, u, v);
  }

  lemma SameNoHiddenLoop(parents: Parents, points: seq<string>, g: Parents, others: seq<string>)
    requires NoHiddenLoop(parents, Measured(points)) && SameHidden(parents, points, g, others)
    ensures NoHiddenLoop(g, Measured(others))
  {
    hide HiddenLeads;
    forall u, v | HiddenLeads(g, Measured(others), u, v) && HiddenLeads(g, Measured(others), v, u)
      ensures u == v
    {
      LeadsToUnmeasured(g, others, u, v);
      LeadsToUnmeasured(g, others, v, u);
      SameHiddenLeads(g, others, parents, points, u, v);
      SameHiddenLeads(g, others, parents, points, v, u);
    }
  }

  lemma LeadsToUnmeasured(parents: Parents, points: seq<string>, u: string, v: string)
    requires HiddenLeads(parents, Measured(points), u, v)
    ensures u in parents && IsParentOfSome(parents, v) && v !in points
  {
    var p :| HiddenPath(parents, Measured(points), p, u, v);
    assert IsParent(parents, p[0], p[1]) && IsParent(parents, p[|p| - 2], p[|p| - 1]);
    assert p[|p| - 1] !in Measured(points);
  }

  /** The answers to the first questions do not depend on the later ones. */
  lemma {:induction false} FirstAnswers(parents: Parents, measured: set<string>, some: seq<string>, more: seq<string>)
    ensures FindAll(parents, measured, some).1 <= FindAll(parents, measured, some + more).1
  {
    if more == [] {
      assert some + more == some;
    } else {
      var n := |more| - 1;
      FirstAnswers(parents, measured, some, more[..n]);
      assert (some + more)[..|some| + n] == some + more[..n];
    }
  }

  lemma LoopIsMissed(parents: Parents, points: seq<string>, u: string, v: string)
    returns (g: Parents, others: seq<string>)
    requires u != v && HiddenLeads(parents, Measured(points), u, v) && HiddenLeads(parents, Measured(points), v, u)
    ensures SameHidden(parents, points, g, others) && !AnswersAll(g, Measured(others), others)
  {
    hide HiddenLeads, Nearest, SameHidden;
    LeadsToUnmeasured(parents, points, u, v);
    LeadsToUnmeasured(parents, points, v, u);
    var x, y, m := UnknownRevisions(parents, points);
    g, others := Extended(parents, u, v, x, y, m), [x, y, m] + points;
    ExtendedIsTrap(parents, points, u, v, x, y, m);
    hide Trap;
    SecondSearchMisses(g, Measured(others), u, v, x, y, m);
    FirstAnswers(g, Measured(others), [x, y], [m] + points);
    assert [x, y] + ([m] + points) == others && others[1] == y;
  }

  /** Whatever measured revisions are attached, in whatever order parents are listed and questions asked,
      the search finds all nearest measured ancestors: if and only if no two unmeasured revisions reach
      each other through unmeasured ones. */
  lemma CompleteExactly(parents: Parents, points: seq<string>)
    ensures NoHiddenLoop(parents, Measured(points)) <==>
            forall g, others :: SameHidden(parents, points, g, others) ==> AnswersAll(g, Measured(others), others)
  {
    hide HiddenLeads, Nearest, AnswersAll, SameHidden;
    if NoHiddenLoop(parents, Measured(points)) {
      forall g, others | SameHidden(parents, points, g, others)
        ensures AnswersAll(g, Measured(others), others)
      {
        SameNoHiddenLoop(parents, points, g, others);
        FindAllIsComplete(g, Measured(others), others);
      }
    } else {
      var hidden := Measured(points);
      var u, v :| HiddenLeads(parents, hidden, u, v) && HiddenLeads(parents, hidden, v, u) && u != v;
      var g, others := LoopIsMissed(parents, points, u, v);
    }
  }
}
