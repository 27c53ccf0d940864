/** The concurrency limit as the program stores it. */
module Concurrency {
  import opened ExpiryHeap
  import opened Spec = ConcurrencySpec

  /** The heap entries in `slots` are exactly the ones `model` lists. */
  ghost predicate Represents(slots: set<Slot>, model: Store) {
    && (forall r :: r in slots ==> r.serial in model.entries && model.entries[r.serial] == Entry(r.id, r.expiresAt))
    && (forall r, q :: r in slots && q in slots && r.serial == q.serial ==> r == q)
    && (forall s :: s in model.entries ==> exists r :: r in slots && r.serial == s)
    && WellFormed(model)
  }

  lemma RepresentsRemove(slots: set<Slot>, model: Store, res: Slot)
    requires Represents(slots, model) && res in slots
    ensures res.serial in model.entries && model.entries[res.serial] == Entry(res.id, res.expiresAt)
    ensures Represents(slots - {res}, Remove(model, res.serial))
  {
  }

  lemma RepresentsAdd(slots: set<Slot>, model: Store, res: Slot)
    requires Represents(slots, model) && res.serial == model.next
    ensures Represents(slots + {res}, Add(model, res.id, res.expiresAt))
  {
    forall s | s in Add(model, res.id, res.expiresAt).entries
      ensures exists r :: r in slots + {res} && r.serial == s
    {
      if s == model.next {
        assert res in slots + {res};
      } else {
        var r :| r in slots && r.serial == s;
        assert r in slots + {res};
      }
    }
  }

  class ConcLimit {
    ghost const key: string
    var cap: nat
    var holds: map<string, int>
    var heap: seq<Slot>
    ghost var model: Store
    ghost var slots: set<Slot>

    ghost predicate Valid()
      reads this, slots
    {
      && (forall r :: r in slots ==> r.owner == this)
      && Places(heap, slots) && Ordered(heap)
      && Represents(slots, model)
      && model.cap == cap
      && model.holds == holds
    }

    constructor (ghost key: string, capacity: nat)
      ensures Valid() && this.key == key && slots == {} && model == Empty(capacity)
    {
      this.key := key;
      cap := capacity;
      holds := map[];
      heap := [];
      model := Empty(capacity);
      slots := {};
    }

    method SetCapacity(capacity: nat)
      requires Valid()
      modifies this`cap, this`model
      ensures Valid() && model == old(model).(cap := capacity)
    {
      cap := capacity;
      model := model.(cap := capacity);
    }

    /** Removes the heap entries that are due and the holds they stand for. */
    method Cleanup(now: int)
      requires Valid()
      modifies this, slots
      ensures Valid() && model == Purge(old(model), now)
      ensures slots <= old(slots)
    {
      while |heap| > 0
        invariant Valid() && Purge(model, now) == Purge(old(model), now)
        invariant slots <= old(slots)
        decreases |heap|
      {
        if heap[0].expiresAt > now {
          break;
        }
        PurgeAfterRemove(model, heap[0].serial, now);
        DropRoot();
      }
      forall s | s in model.entries
        ensures model.entries[s].expiresAt > now
      {
        var r :| r in slots && r.serial == s;
        RootIsMinimal(heap, r.heapIndex);
      }
      PurgeNothing(model, now);
    }

    /** One turn of the purge loop. */
    method DropRoot()
      requires Valid() && |heap| > 0
      modifies this, slots
      ensures Valid() && |heap| == old(|heap|) - 1
      ensures old(heap[0].serial in model.entries)
      ensures model == Remove(old(model), old(heap[0].serial))
      ensures slots <= old(slots)
    {
      hide Represents;
      RepresentsRemove(slots, model, heap[0]);
      var hold;
      hold, heap := Pop(heap, slots);
      if hold.id in holds {
        holds := holds - {hold.id};
      }
      slots := slots - {hold};
      model := Remove(model, hold.serial);
    }

    method AddHold(leaseID: string, expiresAt: int)
      requires Valid()
      modifies this, slots
      ensures Valid() && model == Add(old(model), leaseID, expiresAt)
      ensures fresh(slots - old(slots)) && forall r :: r in slots ==> r.owner == this
    {
      hide Represents, WellFormed, Places, Ordered;
      var hold := new Slot(leaseID, 0, expiresAt, this, model.next);
      RepresentsAdd(slots, model, hold);
      holds := holds[leaseID := expiresAt];
      heap := Push(heap, hold, slots);
      slots := slots + {hold};
      model := Add(model, leaseID, expiresAt);
    }

    method ReleaseHold(leaseID: string)
      requires Valid()
      modifies this`holds, this`model
      ensures Valid() && model == Release(old(model), leaseID)
    {
      holds := holds - {leaseID};
      model := Release(model, leaseID);
    }
  }
}
