/** One store against its column of the ledger. */
module LedgerStores {
  import opened Ledger
  import R = RollingSpec
  import C = ConcurrencySpec

  /** The rolling store keeps, under their line numbers, every line of the ledger that is not yet due
      and perhaps some that are; its index finds exactly those it keeps. */
  ghost predicate RollRel(st: R.Store, gs: seq<Grant>, clock: int) {
    && st.next == |gs|
    && (forall s :: s in st.entries ==>
        s < |gs| && st.entries[s] == R.Entry(gs[s].lease, gs[s].amount, gs[s].expiresAt))
    && (forall s :: 0 <= s < |gs| && s !in st.entries ==> gs[s].expiresAt <= clock)
    && (forall i, j :: 0 <= i < j < |gs| ==> gs[i].lease != gs[j].lease)
    && (forall s :: s in st.entries ==> gs[s].lease in st.index && st.index[gs[s].lease] == s)
    && (forall id :: id in st.index ==> st.index[id] in st.entries && st.entries[st.index[id]].id == id)
  }

  lemma RollRelPurge(st: R.Store, gs: seq<Grant>, clock: int, now: int)
    requires RollRel(st, gs, clock) && clock <= now
    ensures RollRel(R.Purge(st, now), gs, now) && R.Used(R.Purge(st, now)) == Live(gs, now)
  {
    var p := R.Purge(st, now);
    forall s | s in p.entries
      ensures gs[s].lease in p.index && p.index[gs[s].lease] == s
    {
      assert !R.DueId(st, gs[s].lease, now);
    }
    forall id | id in p.index
      ensures p.index[id] in p.entries
    {
      var s := st.index[id];
      assert s in st.entries && st.entries[s].id == id;
      assert st.entries[s].expiresAt > now;
    }
    PurgedSum(st, gs, clock, now, |gs|);
  }

  /** What survives the purge adds up to what is live. */
  lemma {:induction false} PurgedSum(st: R.Store, gs: seq<Grant>, clock: int, now: int, n: nat)
    requires RollRel(st, gs, clock) && clock <= now && n <= |gs|
    ensures R.Sum(R.Purge(st, now).entries, n) == LiveFirst(gs, n, now)
  {
    if n > 0 {
      PurgedSum(st, gs, clock, now, n - 1);
      assert n - 1 in st.entries || gs[n - 1].expiresAt <= now;
    }
  }

  lemma RollRelAdd(st: R.Store, gs: seq<Grant>, clock: int, id: string, at: int, amount: nat, expiresAt: int)
    requires RollRel(st, gs, clock) && forall i :: 0 <= i < |gs| ==> gs[i].lease != id
    ensures RollRel(R.Add(st, id, amount, expiresAt), gs + [Grant(id, at, amount, expiresAt)], clock)
  {
    forall x | x in st.index
      ensures x != id
    {
      assert st.entries[st.index[x]].id == x;
    }
  }

  lemma RollRelReduce(st: R.Store, gs: seq<Grant>, clock: int, id: string, amount: nat)
    requires RollRel(st, gs, clock)
    ensures RollRel(R.Reduce(st, id, amount), LowerGrants(gs, id, amount), clock)
  {
  }

  lemma RollRelLater(st: R.Store, gs: seq<Grant>, clock: int, now: int)
    requires RollRel(st, gs, clock) && clock <= now
    ensures RollRel(st, gs, now)
  {
  }

  /** The concurrency store keeps the heap entry of every line not yet due, released or not, and
      counts exactly the unreleased ones among those it keeps. */
  ghost predicate ConcRel(st: C.Store, hs: seq<Hold>, clock: int) {
    && st.next == |hs|
    && (forall s :: s in st.entries ==> s < |hs| && st.entries[s] == C.Entry(hs[s].lease, hs[s].expiresAt))
    && (forall s :: 0 <= s < |hs| && s !in st.entries ==> hs[s].expiresAt <= clock)
    && (forall i, j :: 0 <= i < j < |hs| ==> hs[i].lease != hs[j].lease)
    && (forall s :: s in st.entries && !hs[s].released ==> hs[s].lease in st.holds)
    && (forall id :: id in st.holds ==>
          exists s :: s in st.entries && hs[s].lease == id && !hs[s].released && hs[s].expiresAt == st.holds[id])
  }

  lemma ConcRelPurge(st: C.Store, hs: seq<Hold>, clock: int, now: int)
    requires ConcRel(st, hs, clock) && clock <= now
    ensures ConcRel(C.Purge(st, now), hs, now) && |C.Purge(st, now).holds| == HeldCount(hs, now)
  {
    var p := C.Purge(st, now);
    forall s | s in p.entries && !hs[s].released
      ensures hs[s].lease in p.holds
    {
      NotDue(st, hs, clock, now, s);
    }
    forall id | id in p.holds
      ensures exists s :: s in p.entries && hs[s].lease == id && !hs[s].released && hs[s].expiresAt == p.holds[id]
    {
      var s :| s in st.entries && hs[s].lease == id && !hs[s].released && hs[s].expiresAt == st.holds[id];
      assert st.entries[s].expiresAt > now;
      assert s in p.entries;
    }
    HeldAre(st, hs, clock, now);
    HeldLeasesCount(hs, |hs|, now);
  }

  /** A stale entry never shares its lease with a live one. */
  lemma NotDue(st: C.Store, hs: seq<Hold>, clock: int, now: int, s: nat)
    requires ConcRel(st, hs, clock) && s in st.entries && hs[s].expiresAt > now
    ensures !C.DueId(st, hs[s].lease, now)
  {
  }

  ghost function HeldLeases(hs: seq<Hold>, n: nat, now: int): set<string>
    requires n <= |hs|
  {
    set s | 0 <= s < n && Held(hs[s], now) :: hs[s].lease
  }

  lemma HeldAre(st: C.Store, hs: seq<Hold>, clock: int, now: int)
    requires ConcRel(st, hs, clock) && clock <= now
    ensures C.Purge(st, now).holds.Keys == HeldLeases(hs, |hs|, now)
  {
    var p := C.Purge(st, now);
    forall id | id in p.holds
      ensures id in HeldLeases(hs, |hs|, now)
    {
      var s :| s in st.entries && hs[s].lease == id && !hs[s].released && hs[s].expiresAt == st.holds[id];
      assert st.entries[s].expiresAt > now;
      assert Held(hs[s], now);
    }
    forall id | id in HeldLeases(hs, |hs|, now)
      ensures id in p.holds
    {
      var s :| 0 <= s < |hs| && Held(hs[s], now) && hs[s].lease == id;
      assert s in st.entries;
      NotDue(st, hs, clock, now, s);
    }
  }

  lemma {:induction false} HeldLeasesCount(hs: seq<Hold>, n: nat, now: int)
    requires n <= |hs| && forall i, j :: 0 <= i < j < |hs| ==> hs[i].lease != hs[j].lease
    ensures |HeldLeases(hs, n, now)| == HeldFirst(hs, n, now)
  {
    hide HeldLeases, Held;
    if n == 0 {
      NoneHeld(hs, now);
    } else {
      HeldLeasesCount(hs, n - 1, now);
      HeldLeasesStep(hs, n - 1, now);
    }
  }

  lemma NoneHeld(hs: seq<Hold>, now: int)
    ensures HeldLeases(hs, 0, now) == {}
  {
  }

  lemma HeldLeasesStep(hs: seq<Hold>, n: nat, now: int)
    requires n < |hs| && forall i, j :: 0 <= i < j < |hs| ==> hs[i].lease != hs[j].lease
    ensures hs[n].lease !in HeldLeases(hs, n, now)
    ensures HeldLeases(hs, n + 1, now) == HeldLeases(hs, n, now) + if Held(hs[n], now) then {hs[n].lease} else {}
  {
    hide Held;
    var before, after := HeldLeases(hs, n, now), HeldLeases(hs, n + 1, now);
    forall id
      ensures id in after <==> id in before || (Held(hs[n], now) && id == hs[n].lease)
    {
      if id in after {
        var s :| 0 <= s < n + 1 && Held(hs[s], now) && hs[s].lease == id;
      }
    }
  }

  lemma ConcRelAdd(st: C.Store, hs: seq<Hold>, clock: int, id: string, expiresAt: int)
    requires ConcRel(st, hs, clock) && forall i :: 0 <= i < |hs| ==> hs[i].lease != id
    ensures ConcRel(C.Add(st, id, expiresAt), hs + [Hold(id, expiresAt, false)], clock)
  {
    var a, g := C.Add(st, id, expiresAt), hs + [Hold(id, expiresAt, false)];
    forall x | x in a.holds
      ensures exists s :: s in a.entries && g[s].lease == x && !g[s].released && g[s].expiresAt == a.holds[x]
    {
      if x == id {
        assert st.next in a.entries && g[st.next].lease == x;
      } else {
        var s :| s in st.entries && hs[s].lease == x && !hs[s].released && hs[s].expiresAt == st.holds[x];
        assert s in a.entries && g[s] == hs[s];
      }
    }
  }

  lemma ConcRelRelease(st: C.Store, hs: seq<Hold>, clock: int, id: string)
    requires ConcRel(st, hs, clock)
    ensures ConcRel(C.Release(st, id), ReleaseHolds(hs, id), clock)
  {
    var r, g := C.Release(st, id), ReleaseHolds(hs, id);
    assert r.entries == st.entries && r.holds == st.holds - {id} && r.next == st.next;
    assert forall s :: 0 <= s < |hs| && hs[s].lease != id ==> g[s] == hs[s];
    hide C.Release;
    forall x | x in r.holds
      ensures exists s :: s in r.entries && g[s].lease == x && !g[s].released && g[s].expiresAt == r.holds[x]
    {
      var s :| s in st.entries && hs[s].lease == x && !hs[s].released && hs[s].expiresAt == st.holds[x];
      assert s in r.entries && g[s] == hs[s];
    }
  }

  lemma ConcRelLater(st: C.Store, hs: seq<Hold>, clock: int, now: int)
    requires ConcRel(st, hs, clock) && clock <= now
    ensures ConcRel(st, hs, now)
  {
  }
}
