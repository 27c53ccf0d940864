/** Ancestors of revisions, and those reachable through unmeasured revisions only. */
module Ancestry {

  /** The parents of each child. */
  type Parents = map<string, seq<string>>

  /** The revisions that are points of the report. */
  function Measured(points: seq<string>): set<string> {
    set x | x in points
  }

  // ---- Ancestry ----

  ghost predicate IsParent(parents: Parents, child: string, parent: string) {
    child in parents && parent in parents[child]
  }

  /** Each revision on the path is a parent of the one before it. */
  ghost predicate IsPath(parents: Parents, p: seq<string>) {
    |p| > 0 && forall i :: 0 <= i < |p| - 1 ==> IsParent(parents, p[i], p[i + 1])
  }

  /** A path of at least one step from `from` to `to`. */
  ghost predicate Leads(parents: Parents, p: seq<string>, from: string, to: string) {
    IsPath(parents, p) && |p| > 1 && p[0] == from && p[|p| - 1] == to
  }

  ghost predicate Ancestor(parents: Parents, from: string, to: string) {
    exists p :: Leads(parents, p, from, to)
  }

  ghost predicate Acyclic(parents: Parents) {
    forall x :: !Ancestor(parents, x, x)
  }

  /** A path whose inner revisions are all unmeasured. */
  ghost predicate Direct(measured: set<string>, p: seq<string>) {
    forall i :: 0 < i < |p| - 1 ==> p[i] !in measured
  }

  /** `to` is a measured ancestor of `from`, reachable through unmeasured revisions only. */
  ghost predicate IsNearest(parents: Parents, measured: set<string>, from: string, to: string) {
    to in measured && exists p :: Leads(parents, p, from, to) && Direct(measured, p)
  }

  ghost function Nearest(parents: Parents, measured: set<string>, from: string): set<string> {
    set a | a in measured && IsNearest(parents, measured, from, a)
  }

  /** What one parent contributes. */
  ghost function Through(parents: Parents, measured: set<string>, parent: string): set<string> {
    if parent in measured then {parent} else Nearest(parents, measured, parent)
  }

  lemma JoinPaths(parents: Parents, p: seq<string>, q: seq<string>, a: string, b: string, c: string)
    requires Leads(parents, p, a, b) && Leads(parents, q, b, c)
    ensures Leads(parents, p + q[1..], a, c)
  {
    var r := p + q[1..];
    forall i | 0 <= i < |r| - 1
      ensures IsParent(parents, r[i], r[i + 1])
    {
      if i >= |p| - 1 {
        assert r[i] == q[i - |p| + 1] && r[i + 1] == q[i - |p| + 2];
      }
    }
  }

  lemma AncestorTransitive(parents: Parents, a: string, b: string, c: string)
    requires Ancestor(parents, a, b) && Ancestor(parents, b, c)
    ensures Ancestor(parents, a, c)
  {
    var p :| Leads(parents, p, a, b);
    var q :| Leads(parents, q, b, c);
    JoinPaths(parents, p, q, a, b, c);
  }

  /** What a parent contributes is nearest to the child. */
  lemma ThroughIsNearest(parents: Parents, measured: set<string>, child: string, parent: string, a: string)
    requires IsParent(parents, child, parent) && a in Through(parents, measured, parent)
    ensures a in Nearest(parents, measured, child)
  {
    if parent in measured {
      var p := [child, parent];
      assert Leads(parents, p, child, a) && Direct(measured, p);
    } else {
      var p :| Leads(parents, p, parent, a) && Direct(measured, p);
      var q := [child] + p;
      forall i | 0 <= i < |q| - 1
        ensures IsParent(parents, q[i], q[i + 1])
      {
        if i > 0 {
          assert q[i] == p[i - 1] && q[i + 1] == p[i];
        }
      }
      forall i | 0 < i < |q| - 1
        ensures q[i] !in measured
      {
        assert q[i] == p[i - 1];
      }
      assert Leads(parents, q, child, a) && Direct(measured, q);
    }
  }

  // ---- Paths hidden from the report ----

  /** A path of at least one step to an unmeasured revision, through unmeasured ones only. */
  ghost predicate HiddenPath(parents: Parents, measured: set<string>, p: seq<string>, from: string, to: string) {
    Leads(parents, p, from, to) && forall i :: 0 < i < |p| ==> p[i] !in measured
  }

  ghost predicate HiddenLeads(parents: Parents, measured: set<string>, from: string, to: string) {
    exists p :: HiddenPath(parents, measured, p, from, to)
  }

  /** No two unmeasured revisions reach each other through unmeasured ones; one may be its own parent. */
  ghost predicate NoHiddenLoop(parents: Parents, measured: set<string>) {
    forall u, v :: HiddenLeads(parents, measured, u, v) && HiddenLeads(parents, measured, v, u) ==> u == v
  }

  lemma HiddenEdge(parents: Parents, measured: set<string>, child: string, parent: string)
    requires IsParent(parents, child, parent) && parent !in measured
    ensures HiddenLeads(parents, measured, child, parent)
  {
    assert HiddenPath(parents, measured, [child, parent], child, parent);
  }

  lemma HiddenTransitive(parents: Parents, measured: set<string>, a: string, b: string, c: string)
    requires HiddenLeads(parents, measured, a, b) && HiddenLeads(parents, measured, b, c)
    ensures HiddenLeads(parents, measured, a, c)
  {
    var p :| HiddenPath(parents, measured, p, a, b);
    var q :| HiddenPath(parents, measured, q, b, c);
    JoinPaths(parents, p, q, a, b, c);
    assert HiddenPath(parents, measured, p + q[1..], a, c);
  }

  /** What is nearest at the end of a hidden path is nearest at its start. */
  lemma HiddenThenNearest(parents: Parents, measured: set<string>, a: string, b: string, m: string)
    requires HiddenLeads(parents, measured, a, b) && m in Nearest(parents, measured, b)
    ensures m in Nearest(parents, measured, a)
  {
    var p :| HiddenPath(parents, measured, p, a, b);
    var q :| Leads(parents, q, b, m) && Direct(measured, q);
    JoinPaths(parents, p, q, a, b, m);
    assert Direct(measured, p + q[1..]);
  }

  lemma HiddenIsAncestor(parents: Parents, measured: set<string>, a: string, b: string)
    requires HiddenLeads(parents, measured, a, b)
    ensures Ancestor(parents, a, b)
  {
    var p :| HiddenPath(parents, measured, p, a, b);
    assert Leads(parents, p, a, b);
  }

  lemma AcyclicHasNoLoop(parents: Parents, measured: set<string>)
    requires Acyclic(parents)
    ensures NoHiddenLoop(parents, measured)
  {
    hide Ancestor, HiddenLeads;
    forall u, v
      ensures !(HiddenLeads(parents, measured, u, v) && HiddenLeads(parents, measured, v, u))
    {
      if HiddenLeads(parents, measured, u, v) && HiddenLeads(parents, measured, v, u) {
        HiddenIsAncestor(parents, measured, u, v);
        HiddenIsAncestor(parents, measured, v, u);
        AncestorTransitive(parents, u, v, u);
      }
    }
  }

  /** What is nearest comes through a measured parent or one that is not the revision itself. */
  lemma NearestThroughOther(parents: Parents, measured: set<string>, child: string, a: string) returns (parent: string)
    requires a in Nearest(parents, measured, child)
    ensures IsParent(parents, child, parent) && a in Through(parents, measured, parent)
    ensures parent in measured || parent != child
  {
    var p :| Leads(parents, p, child, a) && Direct(measured, p);
    parent := LeavesAtLast(parents, measured, p, child, a);
  }

  lemma {:induction false} LeavesAtLast(parents: Parents, measured: set<string>, p: seq<string>, child: string,
          a: string)
    returns (parent: string)
    requires a in measured && Leads(parents, p, child, a) && Direct(measured, p)
    ensures IsParent(parents, child, parent) && a in Through(parents, measured, parent)
    ensures parent in measured || parent != child
    decreases |p|
  {
    assert IsParent(parents, p[0], p[1]);
    parent := p[1];
    if |p| > 2 {
      assert parent !in measured;
      var q := p[1..];
      forall i | 0 <= i < |q| - 1
        ensures IsParent(parents, q[i], q[i + 1])
      {
        assert q[i] == p[i + 1] && q[i + 1] == p[i + 2];
      }
      assert Leads(parents, q, parent, a) && Direct(measured, q);
      if parent == child {
        parent := LeavesAtLast(parents, measured, q, child, a);
      }
    }
  }
}
