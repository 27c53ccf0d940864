/** The memoised search for nearest measured ancestors as a function of its memo and of the revisions
    being visited: what it finds is right on every graph, and complete when no two unmeasured revisions
    reach each other. */
module AncestorSearch {
  import opened Ancestry

  type Memo = map<string, set<string>>

  datatype Found = Found(memo: Memo, result: set<string>)

  function Find(parents: Parents, measured: set<string>, memo: Memo, visiting: set<string>, rev: string): Found
    decreases parents.Keys - visiting, 0
  {
    if rev in memo then Found(memo, memo[rev])
    else if rev in visiting then Found(memo, {})
    else
      var f := if rev in parents then Collect(parents, measured, memo, visiting + {rev}, parents[rev])
          else Found(memo, {});
      Found(f.memo[rev := f.result], f.result)
  }

  /** What some parents of a revision being visited contribute, one after the other. */
  function Collect(parents: Parents, measured: set<string>, memo: Memo, visiting: set<string>, some: seq<string>): Found
    decreases parents.Keys - visiting, |some|
  {
    if some == [] then Found(memo, {})
    else
      var last := some[|some| - 1];
      var before := Collect(parents, measured, memo, visiting, some[..|some| - 1]);
      if last in measured then before.(result := before.result + {last})
      else
        var f := Find(parents, measured, before.memo, visiting, last);
        Found(f.memo, before.result + f.result)
  }

  /** The answers for a list of revisions, asked for in order. */
  function FindAll(parents: Parents, measured: set<string>, points: seq<string>): (Memo, seq<set<string>>) {
    if points == [] then (map[], [])
    else
      var n := |points| - 1;
      var (memo, results) := FindAll(parents, measured, points[..n]);
      var f := Find(parents, measured, memo, {}, points[n]);
      (f.memo, results + [f.result])
  }

  // ---- Sound on every graph ----

  ghost predicate Sound(parents: Parents, measured: set<string>, memo: Memo) {
    forall x :: x in memo ==> memo[x] <= Nearest(parents, measured, x)
  }

  lemma {:induction false} FindIsSound(parents: Parents, measured: set<string>, memo: Memo, visiting: set<string>,
          rev: string)
    requires Sound(parents, measured, memo)
    ensures var f := Find(parents, measured, memo, visiting, rev);
            Sound(parents, measured, f.memo) && f.result <= Nearest(parents, measured, rev)
    decreases parents.Keys - visiting, 0
  {
    hide Nearest;
    if rev !in memo && rev !in visiting && rev in parents {
      CollectIsSound(parents, measured, memo, visiting + {rev}, rev, parents[rev]);
    }
  }

  lemma {:induction false} CollectIsSound(parents: Parents, measured: set<string>, memo: Memo, visiting: set<string>,
          rev: string, some: seq<string>)
    requires Sound(parents, measured, memo) && forall p :: p in some ==> IsParent(parents, rev, p)
    ensures var f := Collect(parents, measured, memo, visiting, some);
            Sound(parents, measured, f.memo) && f.result <= Nearest(parents, measured, rev)
    decreases parents.Keys - visiting, |some|
  {
    hide Nearest;
    if some != [] {
      var n := |some| - 1;
      CollectIsSound(parents, measured, memo, visiting, rev, some[..n]);
      var before := Collect(parents, measured, memo, visiting, some[..n]);
      if some[n] !in measured {
        FindIsSound(parents, measured, before.memo, visiting, some[n]);
      }
      forall a | a in Through(parents, measured, some[n])
        ensures a in Nearest(parents, measured, rev)
      {
        ThroughIsNearest(parents, measured, rev, some[n], a);
      }
    }
  }

  // ---- Complete without hidden loops ----

  ghost predicate Complete(parents: Parents, measured: set<string>, memo: Memo) {
    forall x :: x in memo ==> memo[x] == Nearest(parents, measured, x)
  }

  lemma {:induction false} FindIsComplete(parents: Parents, measured: set<string>, memo: Memo, visiting: set<string>,
          rev: string)
    requires NoHiddenLoop(parents, measured) && Complete(parents, measured, memo)
    requires rev !in visiting && forall v :: v in visiting ==> HiddenLeads(parents, measured, v, rev)
    ensures var f := Find(parents, measured, memo, visiting, rev);
            Complete(parents, measured, f.memo) && f.result == Nearest(parents, measured, rev)
    decreases parents.Keys - visiting, 0
  {
    hide Nearest, NoHiddenLoop, HiddenLeads;
    if rev !in memo {
      FindIsSound(parents, measured, memo, visiting, rev);
      if rev in parents {
        CollectIsComplete(parents, measured, memo, visiting + {rev}, rev, parents[rev]);
      }
      var f := Find(parents, measured, memo, visiting, rev);
      forall a | a in Nearest(parents, measured, rev)
        ensures a in f.result
      {
        var parent := NearestThroughOther(parents, measured, rev, a);
        assert parent in parents[rev];
      }
    }
  }

  lemma {:induction false} CollectIsComplete(parents: Parents, measured: set<string>, memo: Memo, visiting: set<string>,
          rev: string, some: seq<string>)
    requires NoHiddenLoop(parents, measured) && Complete(parents, measured, memo)
    requires rev in visiting && forall v :: v in visiting && v != rev ==> HiddenLeads(parents, measured, v, rev)
    requires forall p :: p in some ==> IsParent(parents, rev, p)
    ensures var f := Collect(parents, measured, memo, visiting, some);
            && Complete(parents, measured, f.memo)
            && forall p, a :: p in some && (p in measured || p != rev) && a in Through(parents, measured, p) ==>
                a in f.result
    decreases parents.Keys - visiting, |some|
  {
    hide Nearest, NoHiddenLoop, HiddenLeads;
    if some != [] {
      var n := |some| - 1;
      CollectIsComplete(parents, measured, memo, visiting, rev, some[..n]);
      var before := Collect(parents, measured, memo, visiting, some[..n]);
      assert some == some[..n] + [some[n]];
      if some[n] !in measured && some[n] != rev {
        NotBeingVisited(parents, measured, visiting, rev, some[n]);
        FindIsComplete(parents, measured, before.memo, visiting, some[n]);
      }
    }
  }

  /** A search never meets a revision it is still visiting, except the one whose parents it lists. */
  lemma NotBeingVisited(parents: Parents, measured: set<string>, visiting: set<string>, rev: string, parent: string)
    requires NoHiddenLoop(parents, measured) && IsParent(parents, rev, parent) && parent !in measured && parent != rev
    requires forall v :: v in visiting && v != rev ==> HiddenLeads(parents, measured, v, rev)
    ensures parent !in visiting && forall v :: v in visiting ==> HiddenLeads(parents, measured, v, parent)
  {
    hide HiddenLeads;
    HiddenEdge(parents, measured, rev, parent);
    forall v | v in visiting
      ensures HiddenLeads(parents, measured, v, parent)
    {
      if v != rev {
        HiddenTransitive(parents, measured, v, rev, parent);
      }
    }
  }

  // ---- All answers ----

  ghost predicate AnswersAll(parents: Parents, measured: set<string>, points: seq<string>) {
    var results := FindAll(parents, measured, points).1;
    |results| == |points| && forall i :: 0 <= i < |points| ==> results[i] == Nearest(parents, measured, points[i])
  }

  lemma {:induction false} FindAllIsSound(parents: Parents, measured: set<string>, points: seq<string>)
    ensures var (memo, results) := FindAll(parents, measured, points);
            && Sound(parents, measured, memo) && |results| == |points|
            && forall i :: 0 <= i < |points| ==> points[i] in memo && results[i] == memo[points[i]]
  {
    hide Nearest;
    if points != [] {
      var n := |points| - 1;
      FindAllIsSound(parents, measured, points[..n]);
      FindIsSound(parents, measured, FindAll(parents, measured, points[..n]).0, {}, points[n]);
      FindKeeps(parents, measured, FindAll(parents, measured, points[..n]).0, {}, points[n]);
    }
  }

  /** A memo only grows. */
  lemma {:induction false} FindKeeps(parents: Parents, measured: set<string>, memo: Memo, visiting: set<string>,
          rev: string)
    ensures var f := Find(parents, measured, memo, visiting, rev);
            && (forall x :: x in memo ==> x in f.memo && f.memo[x] == memo[x])
            && (rev !in visiting ==> rev in f.memo && f.memo[rev] == f.result)
            && (forall x :: x in visiting && x !in memo ==> x !in f.memo)
    decreases parents.Keys - visiting, 0
  {
    if rev !in memo && rev !in visiting && rev in parents {
      CollectKeeps(parents, measured, memo, visiting + {rev}, parents[rev]);
    }
  }

  lemma {:induction false} CollectKeeps(parents: Parents, measured: set<string>, memo: Memo, visiting: set<string>,
          some: seq<string>)
    ensures var f := Collect(parents, measured, memo, visiting, some);
            && (forall x :: x in memo ==> x in f.memo && f.memo[x] == memo[x])
            && (forall x :: x in visiting && x !in memo ==> x !in f.memo)
    decreases parents.Keys - visiting, |some|
  {
    if some != [] {
      var n := |some| - 1;
      CollectKeeps(parents, measured, memo, visiting, some[..n]);
      var before := Collect(parents, measured, memo, visiting, some[..n]);
      if some[n] !in measured {
        FindKeeps(parents, measured, before.memo, visiting, some[n]);
      }
    }
  }

  /** Without hidden loops every answer is complete, whatever the order of the questions. */
  lemma {:induction false} FindAllIsComplete(parents: Parents, measured: set<string>, points: seq<string>)
    requires NoHiddenLoop(parents, measured)
    ensures Complete(parents, measured, FindAll(parents, measured, points).0) && AnswersAll(parents, measured, points)
  {
    hide Nearest, NoHiddenLoop;
    if points != [] {
      var n := |points| - 1;
      FindAllIsComplete(parents, measured, points[..n]);
      FindIsComplete(parents, measured, FindAll(parents, measured, points[..n]).0, {}, points[n]);
    }
  }
}
