/** What a rolling-window limit holds, without the heap: the reservations that have not been purged,
    each under the number it was created with, and the lease index over them. */
module RollingSpec {

  datatype Entry = Entry(id: string, amount: nat, expiresAt: int)

  datatype Store = Store(cap: nat, entries: map<nat, Entry>, index: map<string, nat>, next: nat)

  function Empty(cap: nat): Store {
    Store(cap, map[], map[], 0)
  }

  function AmountAt(entries: map<nat, Entry>, s: nat): nat {
    if s in entries then entries[s].amount else 0
  }

  /** Total of the amounts created under the first `n` numbers. */
  function Sum(entries: map<nat, Entry>, n: nat): nat {
    if n == 0 then 0 else Sum(entries, n - 1) + AmountAt(entries, n - 1)
  }

  function Used(st: Store): nat {
    Sum(st.entries, st.next)
  }

  ghost predicate WellFormed(st: Store) {
    && (forall s :: s in st.entries ==> s < st.next)
    && (forall id :: id in st.index ==> st.index[id] in st.entries && st.entries[st.index[id]].id == id)
  }

  /** Some reservation of this lease is due at `now`. */
  ghost predicate DueId(st: Store, id: string, now: int) {
    exists s :: s in st.entries && st.entries[s].id == id && st.entries[s].expiresAt <= now
  }

  /** Purging keeps exactly the reservations that expire after `now`; the index forgets every lease
      that lost one. */
  ghost function Purge(st: Store, now: int): Store {
    st.(entries := map s | s in st.entries && st.entries[s].expiresAt > now :: st.entries[s],
        index := map id | id in st.index && !DueId(st, id, now) :: st.index[id])
  }

  function Add(st: Store, id: string, amount: nat, expiresAt: int): Store {
    st.(entries := st.entries[st.next := Entry(id, amount, expiresAt)],
        index := st.index[id := st.next],
        next := st.next + 1)
  }

  /** Reconciliation only ever lowers the reservation the index knows. */
  function Reduce(st: Store, id: string, amount: nat): Store {
    if id in st.index && st.index[id] in st.entries && amount < st.entries[st.index[id]].amount then
      st.(entries := st.entries[st.index[id] := st.entries[st.index[id]].(amount := amount)])
    else
      st
  }

  ghost function Remove(st: Store, s: nat): Store
    requires s in st.entries
  {
    st.(entries := st.entries - {s},
        index := st.index - {st.entries[s].id})
  }

  lemma {:induction false} SumAgrees(a: map<nat, Entry>, b: map<nat, Entry>, n: nat)
    requires forall s :: 0 <= s < n ==> AmountAt(a, s) == AmountAt(b, s)
    ensures Sum(a, n) == Sum(b, n)
  {
    if n > 0 {
      SumAgrees(a, b, n - 1);
    }
  }

  lemma {:induction false} SumMonotone(a: map<nat, Entry>, b: map<nat, Entry>, n: nat)
    requires forall s :: 0 <= s < n ==> AmountAt(a, s) <= AmountAt(b, s)
    ensures Sum(a, n) <= Sum(b, n)
  {
    if n > 0 {
      SumMonotone(a, b, n - 1);
    }
  }

  /** Changing one reservation changes the total by the difference. */
  lemma {:induction false} SumChange(a: map<nat, Entry>, b: map<nat, Entry>, s: nat, n: nat)
    requires s < n
    requires forall t :: 0 <= t < n && t != s ==> AmountAt(a, t) == AmountAt(b, t)
    ensures Sum(b, n) == Sum(a, n) - AmountAt(a, s) + AmountAt(b, s)
  {
    if s == n - 1 {
      SumAgrees(a, b, n - 1);
    } else {
      SumChange(a, b, s, n - 1);
    }
  }

  lemma PurgeAfterRemove(st: Store, s: nat, now: int)
    requires s in st.entries && st.entries[s].expiresAt <= now
    ensures Purge(Remove(st, s), now) == Purge(st, now)
  {
    var r := Remove(st, s);
    var p, q := Purge(r, now), Purge(st, now);
    assert p.entries == q.entries;
    assert DueId(st, st.entries[s].id, now);
    forall id | id != st.entries[s].id
      ensures DueId(r, id, now) <==> DueId(st, id, now)
    {
      if DueId(st, id, now) {
        var t :| t in st.entries && st.entries[t].id == id && st.entries[t].expiresAt <= now;
        assert t in r.entries && r.entries[t] == st.entries[t];
      }
    }
    assert p.index == q.index;
  }

  lemma PurgeNothing(st: Store, now: int)
    requires forall s :: s in st.entries ==> st.entries[s].expiresAt > now
    ensures Purge(st, now) == st
  {
    assert Purge(st, now).entries == st.entries;
    assert Purge(st, now).index == st.index;
  }

  lemma PurgeWellFormed(st: Store, now: int)
    requires WellFormed(st)
    ensures WellFormed(Purge(st, now))
    ensures Used(Purge(st, now)) <= Used(st)
  {
    var p := Purge(st, now);
    forall id | id in p.index
      ensures p.index[id] in p.entries && p.entries[p.index[id]].id == id
    {
      var s := st.index[id];
      assert s in st.entries && st.entries[s].id == id;
      assert st.entries[s].expiresAt > now;
    }
    SumMonotone(p.entries, st.entries, st.next);
  }

  /** Dropping a reservation gives back exactly its amount. */
  lemma RemoveUsed(st: Store, s: nat)
    requires WellFormed(st) && s in st.entries
    ensures WellFormed(Remove(st, s))
    ensures Used(Remove(st, s)) + st.entries[s].amount == Used(st)
  {
    SumChange(st.entries, Remove(st, s).entries, s, st.next);
  }

  lemma AddWellFormed(st: Store, id: string, amount: nat, expiresAt: int)
    requires WellFormed(st)
    ensures WellFormed(Add(st, id, amount, expiresAt))
    ensures Used(Add(st, id, amount, expiresAt)) == Used(st) + amount
  {
    SumAgrees(st.entries, Add(st, id, amount, expiresAt).entries, st.next);
  }

  /** Reconciling gives back exactly the part of the reservation that was not used. */
  lemma ReduceUsed(st: Store, id: string, amount: nat)
    requires WellFormed(st)
    ensures WellFormed(Reduce(st, id, amount))
    ensures id !in st.index || amount >= st.entries[st.index[id]].amount ==> Reduce(st, id, amount) == st
    ensures id in st.index && amount < st.entries[st.index[id]].amount ==>
              Used(Reduce(st, id, amount)) + st.entries[st.index[id]].amount == Used(st) + amount
  {
    if id in st.index {
      SumChange(st.entries, Reduce(st, id, amount).entries, st.index[id], st.next);
    }
  }
}
