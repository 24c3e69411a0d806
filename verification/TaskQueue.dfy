/**
 * The queue of applications waiting for an offer: highest cpu first, then highest memory,
 * then longest queued.
 */
module TaskQueue {
  import opened Protocol
  import opened IndexedHeap
  import H = HeapSpec

  type ScheduledApp = Entry<Application>
  type TaskKey = Key<Application>

  // ---------- The order of the queue ----------

  predicate ByCPU(left: Application, right: Application) {
    left.cpus > right.cpus
  }

  predicate ByMemorySecondary(left: Application, right: Application) {
    left.cpus == right.cpus && left.mem > right.mem
  }

  predicate LeastRecent(left: TaskKey, right: TaskKey) {
    left.load.cpus == right.load.cpus && left.load.mem == right.load.mem && left.stamp < right.stamp
  }

  predicate TaskLess(left: TaskKey, right: TaskKey) {
    ByCPU(left.load, right.load) || ByMemorySecondary(left.load, right.load) || LeastRecent(left, right)
  }

  lemma TaskLessIsStrictWeakOrder()
    ensures H.StrictWeakOrder(TaskLess)
  {
    forall a, b, c: TaskKey
      ensures H.Chains(TaskLess, a, b, c)
    {
    }
  }

  // ---------- Specification of scans ----------

  /** How many queued items belong to an application id. */
  function CountFor(q: seq<TaskKey>, appId: string): nat {
    if q == [] then 0
    else CountFor(q[..|q| - 1], appId) + if q[|q| - 1].load.id == appId then 1 else 0
  }

  /** The first position, in array order, that matches; `|q|` when none does. */
  function FirstMatch(q: seq<TaskKey>, p: TaskKey -> bool): (k: nat)
    ensures k <= |q| && (k < |q| ==> p(q[k]))
    ensures forall j :: 0 <= j < k ==> !p(q[j])
  {
    if q == [] then 0
    else if p(q[0]) then 0
    else
      var k := FirstMatch(q[1..], p);
      assert forall j :: 0 < j < k + 1 ==> q[j] == q[1..][j - 1];
      k + 1
  }

  lemma {:induction false} CountConcat(q: seq<TaskKey>, r: seq<TaskKey>, appId: string)
    ensures CountFor(q + r, appId) == CountFor(q, appId) + CountFor(r, appId)
  {
    if r == [] {
      assert q + r == q;
    } else {
      var s := q + r;
      assert s[..|s| - 1] == q + r[..|r| - 1];
      CountConcat(q, r[..|r| - 1], appId);
    }
  }

  /** Taking one item out of the middle takes it out of the count. */
  lemma CountWithout(r: seq<TaskKey>, k: nat, appId: string)
    requires k < |r|
    ensures CountFor(r, appId) ==
            CountFor(r[..k] + r[k + 1..], appId) + if r[k].load.id == appId then 1 else 0
  {
    assert r == r[..k] + ([r[k]] + r[k + 1..]);
    CountConcat(r[..k], [r[k]] + r[k + 1..], appId);
    CountConcat([r[k]], r[k + 1..], appId);
    CountConcat(r[..k], r[k + 1..], appId);
    assert CountFor([r[k]], appId) == CountFor([], appId) + if r[k].load.id == appId then 1 else 0;
  }

  /** The count depends on the content of the queue only, not on heap positions. */
  lemma {:induction false} CountPermuted(q: seq<TaskKey>, r: seq<TaskKey>, appId: string)
    requires multiset(q) == multiset(r)
    ensures CountFor(q, appId) == CountFor(r, appId)
    decreases |q|
  {
    if q == [] {
      assert |multiset(r)| == |r|;
    } else {
      var x := q[|q| - 1];
      assert x in multiset(r);
      var k :| 0 <= k < |r| && r[k] == x;
      WithoutContent(q, |q| - 1);
      WithoutContent(r, k);
      assert q[..|q| - 1] + q[|q|..] == q[..|q| - 1];
      CountPermuted(q[..|q| - 1], r[..k] + r[k + 1..], appId);
      CountWithout(r, k, appId);
    }
  }

  lemma WithoutContent(r: seq<TaskKey>, k: nat)
    requires k < |r|
    ensures multiset(r[..k] + r[k + 1..]) == multiset(r) - multiset{r[k]}
  {
    assert r == r[..k] + [r[k]] + r[k + 1..];
  }

  // ---------- The queue ----------

  class TaskQueue {
    const pq: PriorityQueue<Application>

    ghost predicate Valid()
      reads this, pq, pq.items
    {
      pq.Indexed() && pq.less == TaskLess && H.IsHeap(TaskLess, pq.Keys())
    }

    /** Wraps an existing slice, whatever its order. */
    constructor (q: PriorityQueue<Application>)
      requires q.Indexed() && q.less == TaskLess
      modifies q`items, q.Members()`index
      ensures Valid() && pq == q
      ensures pq.Members() == old(q.Members()) && multiset(pq.Keys()) == old(multiset(q.Keys()))
    {
      pq := q;
      new;
      q.Init();
      TaskLessIsStrictWeakOrder();
      H.InitCorrect(TaskLess, old(q.Keys()));
    }

    /** Stamps the item with the current time and queues it. */
    method Enqueue(item: ScheduledApp, now: int)
      requires Valid() && item !in pq.items
      modifies pq`items, pq.Members()`index, item
      ensures Valid() && item.stamp == now
      ensures pq.Members() == old(pq.Members()) + {item}
      ensures pq.Keys() == H.Push(TaskLess, old(pq.Keys()), Key(item.load, now))
    {
      ghost var before := pq.Keys();
      item.stamp := now;
      assert pq.Keys() == before;
      pq.Push(item);
      TaskLessIsStrictWeakOrder();
      H.PushCorrect(TaskLess, before, Key(item.load, now));
    }

    /** Takes the item of highest priority; an empty queue makes the source panic. */
    method Dequeue() returns (item: ScheduledApp)
      requires Valid() && pq.items != []
      modifies pq`items, pq.Members()
      ensures Valid() && item == old(pq.items[0]) && item.index == -1 && item.stamp == -1
      ensures pq.Members() == old(pq.Members()) - {item}
      ensures pq.Keys() == H.Pop(TaskLess, old(pq.Keys()))
      ensures forall e :: e in pq.Members() ==> e.stamp == old(e.stamp) && !TaskLess(e.AsKey(), old(item.AsKey()))
    {
      hide H.IsHeap, H.Pop, TaskLess;
      ghost var before := pq.Keys();
      item := pq.Pop();
      ghost var after := pq.Keys();
      item.stamp := -1;
      assert pq.Keys() == after;
      TaskLessIsStrictWeakOrder();
      H.PopCorrect(TaskLess, before);
      forall e | e in pq.Members()
        ensures !TaskLess(e.AsKey(), before[0])
      {
        var k :| 0 <= k < |pq.items| && pq.items[k] == e;
        assert after[k] == e.AsKey();
      }
    }

    /** Takes the first item in array order that matches, wherever it is in the heap. */
    method DequeueFirst(shouldDequeue: TaskKey -> bool) returns (found: Entry?<Application>)
      requires Valid()
      modifies pq`items, pq.Members()
      ensures Valid()
      ensures var k := FirstMatch(old(pq.Keys()), shouldDequeue);
              if k == |old(pq.Keys())| then
                found == null && pq.items == old(pq.items) && pq.Keys() == old(pq.Keys())
              else
                && found == old(pq.items[k]) && found.index == -1 && found.stamp == -1
                && pq.Members() == old(pq.Members()) - {found}
                && pq.Keys() == H.Remove(TaskLess, old(pq.Keys()), k)
    {
      hide H.IsHeap, H.Remove, TaskLess;
      var queue := pq.items;
      ghost var before := pq.Keys();
      found := null;
      for i := 0 to |queue|
        invariant found == null && pq.items == old(pq.items) == queue && pq.Keys() == before && Valid()
        invariant forall j :: 0 <= j < i ==> !shouldDequeue(before[j])
      {
        if shouldDequeue(queue[i].AsKey()) {
          var item := pq.Remove(queue[i].index);
          ghost var after := pq.Keys();
          item.stamp := -1;
          assert pq.Keys() == after;
          TaskLessIsStrictWeakOrder();
          H.RemoveCorrect(TaskLess, before, i);
          found := item;
          return;
        }
      }
    }

    method CountAppsForID(appId: string) returns (count: nat)
      requires Valid()
      ensures count == CountFor(pq.Keys(), appId)
    {
      count := 0;
      ghost var ks := pq.Keys();
      for i := 0 to |pq.items|
        invariant count == CountFor(ks[..i], appId)
      {
        assert ks[..i + 1][..i] == ks[..i];
        if pq.items[i].load.id == appId {
          count := count + 1;
        }
      }
      assert ks[..|ks|] == ks;
    }

    /** The counts of all queued ids in one traversal. */
    method CountsForApps() returns (counts: map<string, nat>)
      requires Valid()
      ensures forall id :: id in counts <==> CountFor(pq.Keys(), id) > 0
      ensures forall id :: id in counts ==> counts[id] == CountFor(pq.Keys(), id)
    {
      counts := map[];
      ghost var ks := pq.Keys();
      for i := 0 to |pq.items|
        invariant forall id :: id in counts <==> CountFor(ks[..i], id) > 0
        invariant forall id :: id in counts ==> counts[id] == CountFor(ks[..i], id)
      {
        assert ks[..i + 1][..i] == ks[..i];
        var id := pq.items[i].load.id;
        var cnt := if id in counts then counts[id] else 0;
        counts := counts[id := cnt + 1];
      }
      assert ks[..|ks|] == ks;
    }
  }
}
