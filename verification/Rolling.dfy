/** The rolling-window limit as the program stores it. */
module Rolling {
  import opened ExpiryHeap
  import opened Spec = RollingSpec

  /** The heap entries in `slots` are exactly the reservations in `model`, and `byID` is the index of
      `model`, pointing only into `slots`. */
  ghost predicate Represents(slots: set<Slot>, byID: map<string, Slot>, model: Store) {
    && (forall r :: r in slots ==>
          && r.serial in model.entries
          && model.entries[r.serial].id == r.id && model.entries[r.serial].expiresAt == r.expiresAt)
    && (forall r, q :: r in slots && q in slots && r.serial == q.serial ==> r == q)
    && (forall s :: s in model.entries ==> exists r :: r in slots && r.serial == s)
    && (forall id :: id in byID <==> id in model.index)
    && (forall id :: id in byID ==> byID[id] in slots && byID[id].serial == model.index[id])
    && WellFormed(model)
  }

  lemma RepresentsRemove(slots: set<Slot>, byID: map<string, Slot>, model: Store, res: Slot)
    requires Represents(slots, byID, model) && res in slots
    ensures res.serial in model.entries
    ensures Represents(slots - {res}, byID - {res.id}, Remove(model, res.serial))
    ensures Used(Remove(model, res.serial)) + model.entries[res.serial].amount == Used(model)
    ensures forall r :: r in slots && r != res ==>
              r.serial in model.entries && r.serial in Remove(model, res.serial).entries
  {
    RemoveUsed(model, res.serial);
  }

  lemma RepresentsAdd(slots: set<Slot>, byID: map<string, Slot>, model: Store, res: Slot, amount: nat)
    requires Represents(slots, byID, model) && res.serial == model.next
    ensures Represents(slots + {res}, byID[res.id := res], Add(model, res.id, amount, res.expiresAt))
    ensures Used(Add(model, res.id, amount, res.expiresAt)) == Used(model) + amount
    ensures forall r :: r in slots ==> r.serial in model.entries && r.serial != res.serial
  {
    AddWellFormed(model, res.id, amount, res.expiresAt);
    forall s | s in Add(model, res.id, amount, res.expiresAt).entries
      ensures exists r :: r in slots + {res} && r.serial == s
    {
      if s == model.next {
        assert res in slots + {res};
      } else {
        var r :| r in slots && r.serial == s;
        assert r in slots + {res};
      }
    }
  }

  lemma RepresentsReduce(slots: set<Slot>, byID: map<string, Slot>, model: Store, id: string, amount: nat)
    requires Represents(slots, byID, model)
    ensures id in byID <==> id in model.index
    ensures id in byID ==>
              var n := byID[id].serial;
              && byID[id] in slots && model.index[id] == n && n in model.entries
              && Represents(slots, byID, Reduce(model, id, amount))
              && (amount < model.entries[n].amount ==>
                    Used(Reduce(model, id, amount)) + model.entries[n].amount == Used(model) + amount)
              && (forall r :: r in slots && r != byID[id] ==> r.serial in model.entries && r.serial != n)
  {
    ReduceUsed(model, id, amount);
  }

  function Saturating(used: nat, amount: nat): nat {
    if used >= amount then used - amount else 0
  }

  class RollingLimit {
    ghost const key: string
    var cap: nat
    var used: nat
    var heap: seq<Slot>
    var byID: map<string, Slot>
    ghost var model: Store
    ghost var slots: set<Slot>

    /** The heap is an ordered heap of exactly the reservations in `model`, and the running counter is
        the sum of their amounts. */
    ghost predicate Valid()
      reads this, slots
    {
      && (forall r :: r in slots ==> r.owner == this)
      && Places(heap, slots) && Ordered(heap)
      && Represents(slots, byID, model)
      && (forall r :: r in slots ==> model.entries[r.serial].amount == r.amount)
      && model.cap == cap
      && used == Used(model)
    }

    constructor (ghost key: string, capacity: nat)
      ensures Valid() && this.key == key && slots == {} && model == Empty(capacity)
    {
      this.key := key;
      cap := capacity;
      used := 0;
      heap := [];
      byID := map[];
      model := Empty(capacity);
      slots := {};
    }

    method SetCapacity(capacity: nat)
      requires Valid()
      modifies this`cap, this`model
      ensures Valid() && model == old(model).(cap := capacity)
    {
      cap := capacity;
      model := model.(cap := capacity);
    }

    /** Removes exactly the reservations that are due. */
    method Cleanup(now: int)
      requires Valid()
      modifies this, slots
      ensures Valid() && model == Purge(old(model), now)
      ensures slots <= old(slots)
    {
      while |heap| > 0
        invariant Valid() && Purge(model, now) == Purge(old(model), now)
        invariant slots <= old(slots)
        decreases |heap|
      {
        if heap[0].expiresAt > now {
          break;
        }
        PurgeAfterRemove(model, heap[0].serial, now);
        DropRoot();
      }
      forall s | s in model.entries
        ensures model.entries[s].expiresAt > now
      {
        var r :| r in slots && r.serial == s;
        RootIsMinimal(heap, r.heapIndex);
      }
      PurgeNothing(model, now);
    }

    /** One turn of the purge loop; the counter never saturates. */
    method DropRoot()
      requires Valid() && |heap| > 0
      modifies this, slots
      ensures Valid() && |heap| == old(|heap|) - 1
      ensures old(heap[0].serial in model.entries)
      ensures model == Remove(old(model), old(heap[0].serial))
      ensures slots <= old(slots)
    {
      hide Represents, Sum;
      RepresentsRemove(slots, byID, model, heap[0]);
      var res;
      res, heap := Pop(heap, slots);
      byID := byID - {res.id};
      used := Saturating(used, res.amount);
      slots := slots - {res};
      model := Remove(model, res.serial);
    }

    method AddReservation(leaseID: string, amount: nat, expiresAt: int)
      requires Valid()
      modifies this, slots
      ensures Valid() && model == Add(old(model), leaseID, amount, expiresAt)
      ensures fresh(slots - old(slots)) && forall r :: r in slots ==> r.owner == this
    {
      hide Represents, Sum, Places, Ordered;
      var res := new Slot(leaseID, amount, expiresAt, this, model.next);
      RepresentsAdd(slots, byID, model, res, amount);
      byID := byID[leaseID := res];
      used := used + amount;
      heap := Push(heap, res, slots);
      slots := slots + {res};
      model := Add(model, leaseID, amount, expiresAt);
    }

    /** Gives back the unused part of a reservation; the counter never saturates. */
    method ReduceReservation(leaseID: string, newAmount: nat)
      requires Valid()
      modifies this`used, this`model, slots`amount
      ensures Valid() && model == Reduce(old(model), leaseID, newAmount)
    {
      hide Represents, Sum;
      RepresentsReduce(slots, byID, model, leaseID, newAmount);
      if leaseID !in byID {
        return;
      }
      var res := byID[leaseID];
      if newAmount >= res.amount {
        return;
      }
      var diff := res.amount - newAmount;
      used := Saturating(used, diff);
      res.amount := newAmount;
      model := Reduce(model, leaseID, newAmount);
    }
  }
}
