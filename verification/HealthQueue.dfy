/** The timed queue of health checks: the check that expires first is served first. */
module HealthQueue {
  import opened IndexedHeap
  import H = HeapSpec

  /** A health check object; `serial` tells apart the objects allocated for one task id. */
  datatype Check = Check(serial: nat, id: string)

  type ActiveHealthCheck = Entry<Check>
  type CheckKey = Key<Check>

  const SECOND := 1_000_000_000

  predicate ExpiresBefore(left: CheckKey, right: CheckKey) {
    left.stamp < right.stamp
  }

  lemma ExpiresBeforeIsStrictWeakOrder()
    ensures H.StrictWeakOrder(ExpiresBefore)
  {
    forall a, b, c: CheckKey
      ensures H.Chains(ExpiresBefore, a, b, c)
    {
    }
  }

  /** The first position holding a check of this id; `|q|` when there is none. */
  function FirstWithId(q: seq<CheckKey>, id: string): (k: nat)
    ensures k <= |q| && (k < |q| ==> q[k].load.id == id)
    ensures forall j :: 0 <= j < k ==> q[j].load.id != id
  {
    if q == [] || q[0].load.id == id then 0
    else
      var k := FirstWithId(q[1..], id);
      assert forall j :: 0 < j < k + 1 ==> q[j] == q[1..][j - 1];
      k + 1
  }

  /** The slice after `Pop`: an undue root is popped and pushed back. */
  function AfterPop(q: seq<CheckKey>, now: int): seq<CheckKey> {
    if q == [] then q
    else if q[0].stamp > now then H.Push(ExpiresBefore, H.Pop(ExpiresBefore, q), q[0])
    else H.Pop(ExpiresBefore, q)
  }

  function AfterRemove(q: seq<CheckKey>, id: string): seq<CheckKey> {
    var k := FirstWithId(q, id);
    if k == |q| then q else H.Remove(ExpiresBefore, q, k)
  }

  /** A pop either serves a due check of minimal expiry or leaves the content as it was. */
  lemma AfterPopCorrect(q: seq<CheckKey>, now: int)
    requires H.IsHeap(ExpiresBefore, q) && q != []
    ensures H.IsHeap(ExpiresBefore, AfterPop(q, now))
    ensures forall x :: x in q ==> q[0].stamp <= x.stamp
    ensures multiset(q) == multiset(AfterPop(q, now)) + if q[0].stamp > now then multiset{} else multiset{q[0]}
  {
    ExpiresBeforeIsStrictWeakOrder();
    H.PopCorrect(ExpiresBefore, q);
    forall x | x in q
      ensures q[0].stamp <= x.stamp
    {
      var k :| 0 <= k < |q| && q[k] == x;
      H.RootIsLeast(ExpiresBefore, q, k);
    }
    if q[0].stamp > now {
      H.PushCorrect(ExpiresBefore, H.Pop(ExpiresBefore, q), q[0]);
    }
  }

  class HealthCheckQueue {
    const queue: PriorityQueue<Check>

    ghost predicate Valid()
      reads this, queue, queue.items
    {
      queue.Indexed() && queue.less == ExpiresBefore && H.IsHeap(ExpiresBefore, queue.Keys())
    }

    constructor ()
      ensures Valid() && fresh(queue) && queue.items == []
    {
      queue := new PriorityQueue(ExpiresBefore);
    }

    method Push(hc: ActiveHealthCheck)
      requires Valid() && hc !in queue.items
      modifies queue`items, queue.Members()`index, hc`index
      ensures Valid() && queue.Members() == old(queue.Members()) + {hc}
      ensures queue.Keys() == H.Push(ExpiresBefore, old(queue.Keys()), hc.AsKey())
    {
      ExpiresBeforeIsStrictWeakOrder();
      H.PushCorrect(ExpiresBefore, queue.Keys(), hc.AsKey());
      queue.Push(hc);
    }

    /**
     * Takes the next due check.  Otherwise nothing leaves the queue, and the result is the
     * time to look again: the earliest expiry, or a second from now when the queue is empty.
     */
    method Pop(now: int) returns (ac: Entry?<Check>, next: int, ok: bool)
      requires Valid()
      modifies queue`items, queue.Members()`index
      ensures Valid() && queue.Keys() == AfterPop(old(queue.Keys()), now)
      ensures ok <==> ac != null
      ensures ok <==> old(queue.items) != [] && old(queue.Keys())[0].stamp <= now
      ensures ok ==>
                old(queue.items) != [] && ac == old(queue.items)[0] && ac in old(queue.Members()) && ac.stamp <= now
      ensures ok ==> queue.Members() == old(queue.Members()) - {ac}
      ensures ok ==> forall e :: e in queue.Members() ==> ac.stamp <= e.stamp
      ensures !ok ==> queue.Members() == old(queue.Members())
      ensures !ok && queue.items == [] ==> next == now + 1_000_000_000
      ensures !ok && queue.items != [] ==>
                && (exists e :: e in queue.Members() && e.stamp == next)
                && forall e :: e in queue.Members() ==> now < next <= e.stamp
    {
      hide H.IsHeap, H.Push, H.Pop;
      if queue.items == [] {
        return null, now + SECOND, false;
      }
      ghost var before := queue.Keys();
      AfterPopCorrect(before, now);
      EarliestFirst();
      ac := queue.Pop();
      if ac.stamp > now {
        next := ac.stamp;
        queue.Push(ac);
        assert ac in queue.Members();
        return null, next, false;
      }
      return ac, now, true;
    }

    /** The element in front expires no later than any other. */
    lemma EarliestFirst()
      requires Valid() && queue.items != []
      ensures forall e :: e in queue.Members() ==> queue.items[0].stamp <= e.stamp
    {
      forall e | e in queue.Members()
        ensures queue.items[0].stamp <= e.stamp
      {
        var k :| 0 <= k < |queue.items| && queue.items[k] == e;
        ExpiresBeforeIsStrictWeakOrder();
        H.RootIsLeast(ExpiresBefore, queue.Keys(), k);
      }
    }

    /** Removes the first check of this task in array order, if there is one. */
    method Remove(id: string)
      requires Valid()
      modifies queue`items, queue.Members()`index
      ensures Valid() && queue.Keys() == AfterRemove(old(queue.Keys()), id)
      ensures var k := FirstWithId(old(queue.Keys()), id);
              if k == |old(queue.items)| then queue.items == old(queue.items)
              else queue.Members() == old(queue.Members()) - {old(queue.items)[k]}
    {
      ghost var before := queue.Keys();
      for i := 0 to |queue.items|
        invariant queue.items == old(queue.items) && queue.Keys() == before && Valid()
        invariant forall j :: 0 <= j < i ==> before[j].load.id != id
      {
        if queue.items[i].load.id == id {
          ExpiresBeforeIsStrictWeakOrder();
          H.RemoveCorrect(ExpiresBefore, before, i);
          var e := queue.Remove(i);
          return;
        }
      }
    }

    method Contains(id: string) returns (found: bool)
      requires Valid()
      ensures found <==> exists k :: k in queue.Keys() && k.load.id == id
    {
      for i := 0 to |queue.items|
        invariant forall j :: 0 <= j < i ==> queue.items[j].load.id != id
      {
        if queue.items[i].load.id == id {
          assert queue.Keys()[i] in queue.Keys();
          return true;
        }
      }
      return false;
    }
  }
}
