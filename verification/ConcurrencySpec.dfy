/** What a concurrency limit holds, without the heap: the holds that count, and the heap entries
    created for them.  Releasing a hold leaves its heap entry behind until it falls due. */
module ConcurrencySpec {

  datatype Entry = Entry(id: string, expiresAt: int)

  datatype Store = Store(cap: nat, holds: map<string, int>, entries: map<nat, Entry>, next: nat)

  function Empty(cap: nat): Store {
    Store(cap, map[], map[], 0)
  }

  ghost predicate WellFormed(st: Store) {
    forall s :: s in st.entries ==> s < st.next
  }

  /** Some heap entry of this lease is due at `now`. */
  ghost predicate DueId(st: Store, id: string, now: int) {
    exists s :: s in st.entries && st.entries[s].id == id && st.entries[s].expiresAt <= now
  }

  /** Purging drops the heap entries that are due and, for each, whatever hold carries its id. */
  ghost function Purge(st: Store, now: int): Store {
    st.(entries := map s | s in st.entries && st.entries[s].expiresAt > now :: st.entries[s],
        holds := map id | id in st.holds && !DueId(st, id, now) :: st.holds[id])
  }

  function Add(st: Store, id: string, expiresAt: int): Store {
    st.(entries := st.entries[st.next := Entry(id, expiresAt)],
        holds := st.holds[id := expiresAt],
        next := st.next + 1)
  }

  function Release(st: Store, id: string): Store {
    st.(holds := st.holds - {id})
  }

  ghost function Remove(st: Store, s: nat): Store
    requires s in st.entries
  {
    st.(entries := st.entries - {s}, holds := st.holds - {st.entries[s].id})
  }

  lemma PurgeAfterRemove(st: Store, s: nat, now: int)
    requires s in st.entries && st.entries[s].expiresAt <= now
    ensures Purge(Remove(st, s), now) == Purge(st, now)
  {
    var r := Remove(st, s);
    var p, q := Purge(r, now), Purge(st, now);
    assert p.entries == q.entries;
    assert DueId(st, st.entries[s].id, now);
    forall id | id != st.entries[s].id
      ensures DueId(r, id, now) <==> DueId(st, id, now)
    {
      if DueId(st, id, now) {
        var t :| t in st.entries && st.entries[t].id == id && st.entries[t].expiresAt <= now;
        assert t in r.entries && r.entries[t] == st.entries[t];
      }
    }
    assert p.holds == q.holds;
  }

  lemma PurgeNothing(st: Store, now: int)
    requires forall s :: s in st.entries ==> st.entries[s].expiresAt > now
    ensures Purge(st, now) == st
  {
    assert Purge(st, now).entries == st.entries;
    assert Purge(st, now).holds == st.holds;
  }
}
