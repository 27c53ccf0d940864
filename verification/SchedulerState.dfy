/** The scheduler's queues as the program keeps them: queue objects filled and drained in place. */
module SchedulerState {
  import opened Wrappers
  import opened S = SchedulerSpec

  class WorkQueue {
    const key: string
    var ready: seq<Job>
    var blocked: seq<Blocked>

    constructor (key: string)
      ensures this.key == key && ready == [] && blocked == []
    {
      this.key := key;
      ready := [];
      blocked := [];
    }

    method PushReady(job: Job)
      modifies this`ready
      ensures ready == old(ready) + [job]
    {
      ready := ready + [job];
    }

    /** Inserts a blocked item in time order. */
    method PushBlocked(item: Blocked)
      modifies this`blocked
      ensures blocked == Insert(old(blocked), item)
    {
      var idx := 0;
      while idx < |blocked| && blocked[idx].notBefore < item.notBefore
        invariant 0 <= idx <= |blocked|
        invariant SearchIndex(blocked, item.notBefore) == idx + SearchIndex(blocked[idx..], item.notBefore)
      {
        assert blocked[idx..][1..] == blocked[idx + 1..];
        idx := idx + 1;
      }
      blocked := blocked[..idx] + [item] + blocked[idx..];
    }

    /** Removes the earliest item if it is due. */
    method PopReady(now: int) returns (item: Option<Blocked>)
      modifies this`blocked
      ensures old(blocked) == [] || old(blocked)[0].notBefore > now ==> item == None && blocked == old(blocked)
      ensures old(blocked) != [] && old(blocked)[0].notBefore <= now ==>
                item == Some(old(blocked)[0]) && blocked == old(blocked)[1..]
    {
      if |blocked| == 0 || blocked[0].notBefore > now {
        return None;
      }
      item := Some(blocked[0]);
      blocked := blocked[1..];
    }

    method PromoteReady(now: int)
      modifies this
      ensures Queue(ready, blocked) == PromoteQueue(old(Queue(ready, blocked)), now)
    {
      ghost var q := Queue(ready, blocked);
      ghost var n := DueCount(blocked, now);
      ghost var i := 0;
      while true
        invariant i <= n && blocked == q.blocked[i..]
        invariant ready == q.ready + JobsOf(q.blocked[..i])
        decreases |blocked|
      {
        var item := PopReady(now);
        if item.None? {
          break;
        }
        assert q.blocked[i] == item.value && i < n;
        JobsOfSnoc(q.blocked, i);
        ready := ready + [item.value.job];
        i := i + 1;
      }
    }
  }

  lemma {:induction false} JobsOfSnoc(items: seq<Blocked>, i: nat)
    requires i < |items|
    ensures JobsOf(items[..i + 1]) == JobsOf(items[..i]) + [items[i].job]
  {
    if i > 0 {
      JobsOfSnoc(items[1..], i - 1);
      assert items[1..][..i] == items[..i + 1][1..];
      assert items[1..][..i - 1] == items[..i][1..];
    }
  }

  /** The earliest time in `times`, if there is any. */
  ghost predicate IsEarliest(times: set<int>, t: Option<int>) {
    if t.None? then times == {} else t.value in times && forall x :: x in times ==> t.value <= x
  }

  /** The times of all blocked jobs. */
  ghost function BlockedTimes(s: State): set<int> {
    set k, i | k in s.queues && 0 <= i < |s.queues[k].blocked| :: s.queues[k].blocked[i].notBefore
  }

  /** The heads of sorted lists are enough to look at. */
  lemma HeadsAreEarliest(s: State, earliest: Option<int>)
    requires S.Valid(s)
    requires earliest.None? <==> forall k :: k in s.queues ==> s.queues[k].blocked == []
    requires earliest.Some? ==>
               && earliest.value in BlockedTimes(s)
               && forall k :: k in s.queues && s.queues[k].blocked != [] ==>
                   earliest.value <= s.queues[k].blocked[0].notBefore
    ensures IsEarliest(BlockedTimes(s), earliest)
  {
    assert forall k :: k in s.queues ==> Sorted(s.queues[k].blocked);
  }

  class SchedulerState {
    var queues: map<string, WorkQueue>
    var order: seq<string>
    var rrIndex: nat
    ghost var model: State

    ghost predicate Valid()
      reads this, queues.Values
    {
      && S.Valid(model)
      && model.order == order && model.rrIndex == rrIndex
      && (forall k :: k in queues <==> k in model.queues)
      && (forall k :: k in queues ==>
          queues[k].key == k && Queue(queues[k].ready, queues[k].blocked) == model.queues[k])
    }

    constructor ()
      ensures Valid() && model == EMPTY && queues == map[]
    {
      queues := map[];
      order := [];
      rrIndex := 0;
      model := EMPTY;
    }

    /** The queue of a key, made on demand. */
    method GetQueue(key: string) returns (q: WorkQueue)
      requires Valid()
      modifies this
      ensures Valid() && model == S.GetQueue(old(model), key)
      ensures key in queues && queues[key] == q && (q in old(queues.Values) || fresh(q))
      ensures forall k :: k in queues ==> queues[k] in old(queues.Values) || fresh(queues[k])
      ensures forall k :: k in old(queues) ==> k in queues && queues[k] == old(queues[k])
    {
      hide S.Valid;
      if key in queues {
        return queues[key];
      }
      q := AddQueue(key);
    }

    method AddQueue(key: string) returns (q: WorkQueue)
      requires Valid() && key !in queues
      modifies this
      ensures Valid() && model == S.GetQueue(old(model), key)
      ensures fresh(q) && queues == old(queues)[key := q]
    {
      hide S.Valid;
      GetQueueKeeps(model, key);
      ghost var after := S.GetQueue(model, key);
      q := new WorkQueue(key);
      queues := queues[key := q];
      order := order + [key];
      Settle(key, after);
    }

    /** Only the queue of `key` has changed, and `after` says so. */
    ghost method Settle(key: string, after: State)
      requires S.Valid(after) && after.order == order && after.rrIndex == rrIndex
      requires key in queues && after.queues == model.queues[key := Queue(queues[key].ready, queues[key].blocked)]
      requires forall k :: k in queues <==> k == key || k in model.queues
      requires forall k :: k in queues ==> queues[k].key == k
      requires forall k :: k in queues && k != key ==> Queue(queues[k].ready, queues[k].blocked) == model.queues[k]
      modifies this`model
      ensures Valid() && model == after
    {
      hide S.Valid;
      model := after;
    }

    method EnqueueReady(job: Job)
      requires Valid()
      modifies this, queues.Values
      ensures Valid() && model == S.EnqueueReady(old(model), job)
      ensures forall k :: k in queues ==> queues[k] in old(queues.Values) || fresh(queues[k])
    {
      hide S.Valid, S.GetQueue, QueueKey;
      GetQueueKeeps(model, QueueKey(job));
      EnqueueReadyKeeps(model, job);
      ghost var after := S.EnqueueReady(model, job);
      var q := GetQueue(QueueKey(job));
      q.PushReady(job);
      Settle(QueueKey(job), after);
    }

    method EnqueueBlocked(job: Job, notBefore: int)
      requires Valid()
      modifies this, queues.Values
      ensures Valid() && model == S.EnqueueBlocked(old(model), job, notBefore)
      ensures forall k :: k in queues ==> queues[k] in old(queues.Values) || fresh(queues[k])
    {
      hide S.Valid, Insert, S.GetQueue, QueueKey;
      GetQueueKeeps(model, QueueKey(job));
      EnqueueBlockedKeeps(model, job, notBefore);
      ghost var after := S.EnqueueBlocked(model, job, notBefore);
      var q := GetQueue(QueueKey(job));
      q.PushBlocked(Blocked(job, notBefore));
      Settle(QueueKey(job), after);
    }

    /** Promotes the due jobs of every queue, in whatever order the map yields the queues. */
    method PromoteReady(now: int)
      requires Valid()
      modifies this`model, queues.Values
      ensures Valid() && model == S.PromoteReady(old(model), now)
    {
      hide S.Valid, PromoteQueue;
      PromoteReadyKeeps(model, now);
      var left := queues.Keys;
      while left != {}
        invariant left <= queues.Keys && unchanged(this)
        invariant forall k :: k in queues ==> queues[k].key == k
        invariant forall k :: k in left ==> Queue(queues[k].ready, queues[k].blocked) == model.queues[k]
        invariant forall k :: k in queues && k !in left ==>
                  Queue(queues[k].ready, queues[k].blocked) == PromoteQueue(model.queues[k], now)
        decreases left
      {
        var k :| k in left;
        queues[k].PromoteReady(now);
        left := left - {k};
      }
      model := S.PromoteReady(model, now);
    }

    /** The position of the next queue with ready work. */
    method FindReady() returns (found: Option<nat>)
      requires Valid()
      ensures found == if order == [] then None else Scan(model, 0)
      ensures found.Some? ==>
              found.value < |order| && order[found.value] in queues && queues[order[found.value]].ready != []
    {
      hide S.Valid;
      CursorBound(model);
      if |order| == 0 {
        return None;
      }
      var start := rrIndex;
      for i := 0 to |order|
        invariant Scan(model, 0) == Scan(model, i)
      {
        var idx := (start + i) % |order|;
        var key := order[idx];
        if key in queues && |queues[key].ready| != 0 {
          return Some(idx);
        }
      }
      return None;
    }

    /** The next job, round robin across the queues. */
    method NextReady() returns (job: Option<Job>)
      requires Valid()
      modifies this, queues.Values
      ensures Valid() && (model, job) == S.NextReady(old(model)) && queues == old(queues)
    {
      hide S.Valid, Scan;
      NextReadyKeeps(model);
      CursorBound(model);
      var found := FindReady();
      if found.None? {
        return None;
      }
      var idx := found.value;
      ghost var after := S.NextReady(model).0;
      var q := queues[order[idx]];
      job := Some(q.ready[0]);
      q.ready := q.ready[1..];
      rrIndex := (idx + 1) % |order|;
      Settle(order[idx], after);
    }

    /** The time of the earliest blocked job over all queues. */
    method NextBlockedTime() returns (earliest: Option<int>)
      requires Valid()
      ensures IsEarliest(BlockedTimes(model), earliest)
    {
      hide S.Valid, IsEarliest;
      earliest := None;
      var left := queues.Keys;
      ghost var seen: set<string> := {};
      while left != {}
        invariant left <= queues.Keys && seen == queues.Keys - left
        invariant earliest.None? <==> forall k :: k in seen ==> model.queues[k].blocked == []
        invariant earliest.Some? ==>
                    && earliest.value in BlockedTimes(model)
                    && forall k :: k in seen && model.queues[k].blocked != [] ==>
                        earliest.value <= model.queues[k].blocked[0].notBefore
        decreases left
      {
        var k :| k in left;
        left, seen := left - {k}, seen + {k};
        if |queues[k].blocked| != 0 {
          var next := queues[k].blocked[0].notBefore;
          assert next == model.queues[k].blocked[0].notBefore;
          assert next in BlockedTimes(model);
          if earliest.None? || next < earliest.value {
            earliest := Some(next);
          }
        }
      }
      HeadsAreEarliest(model, earliest);
    }
  }
}
