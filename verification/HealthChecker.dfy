/** The health checker's own data, the register and the timed queue, updated in place as the protocol says. */
module HealthChecker {
  import opened Protocol
  import opened IndexedHeap
  import opened HealthQueue
  import opened HealthPipeline
  import H = HeapSpec

  // ---------- The protocol's view of objects ----------

  /** The checks behind the registered objects. */
  function Registered(r: map<string, ActiveHealthCheck>): map<string, Check> {
    map id | id in r :: r[id].load
  }

  /** Serials tell the objects apart. */
  ghost predicate Distinct(objects: set<ActiveHealthCheck>) {
    forall e, f :: e in objects && f in objects && e.load == f.load ==> e == f
  }

  ghost predicate Below(objects: set<ActiveHealthCheck>, next: nat) {
    forall e :: e in objects ==> e.load.serial < next
  }

  /** The ExpiresAt field of every object. */
  ghost function Memory(objects: set<ActiveHealthCheck>): map<Check, int>
    requires Distinct(objects)
    reads objects`stamp
  {
    map e | e in objects :: e.load := e.stamp
  }

  lemma RegisteredKeys(r: map<string, ActiveHealthCheck>)
    ensures Registered(r).Keys == r.Keys
  {
  }

  lemma RegisteredAfter(r: map<string, ActiveHealthCheck>, id: string, e: ActiveHealthCheck)
    ensures Registered(r[id := e]) == Registered(r)[id := e.load]
  {
  }

  lemma UnregisteredAfter(r: map<string, ActiveHealthCheck>, id: string)
    ensures Registered(r - {id}) == Registered(r) - {id}
  {
  }

  lemma MemoryWith(objects: set<ActiveHealthCheck>, e: ActiveHealthCheck, next: nat)
    requires Distinct(objects) && Below(objects, next) && e.load.serial == next
    ensures Distinct(objects + {e}) && Below(objects + {e}, next + 1)
    ensures Memory(objects + {e}) == Memory(objects)[e.load := e.stamp]
    ensures e.load !in Memory(objects)
  {
  }

  /** Everything queued is in memory, with the expiry its key shows. */
  lemma QueuedInMemory(items: seq<ActiveHealthCheck>, keys: seq<CheckKey>, objects: set<ActiveHealthCheck>)
    requires Distinct(objects) && |items| == |keys|
    requires forall i :: 0 <= i < |items| ==> items[i] in objects && keys[i] == items[i].AsKey()
    ensures KeysInMemory(Loads(keys), Memory(objects)) == keys
    ensures forall c :: c in Loads(keys) ==> c in Memory(objects)
  {
    forall i | 0 <= i < |items|
      ensures Expiry(Memory(objects), items[i].load) == items[i].stamp && items[i].load in Memory(objects)
    {
    }
  }

  /** A check that is not in memory yet is not queued, so its expiry changes no key. */
  lemma FreshKeys(queue: seq<Check>, expires: map<Check, int>, c: Check, t: int)
    requires c !in queue
    ensures KeysInMemory(queue, expires[c := t]) == KeysInMemory(queue, expires)
    ensures Expiry(expires[c := t], c) == t
  {
  }

  /** What a registering call does that nothing overlaps; steps without a check change nothing. */
  function Registering(st: State, id: string, now: int, rampUp: nat): State {
    Step(Step(Step(st, Register(id, now, rampUp)), EnterMap(0)), EnterQueue(0))
  }

  lemma RegisteringQueues(st: State, id: string, now: int, rampUp: nat)
    requires st.created == [] && st.entering == []
    ensures Registering(st, id, now, rampUp) ==
            if id in st.register then st
            else
              var c := Check(st.next, id);
              var expires := st.expires[c := now + rampUp * MILLISECOND];
              st.(next := st.next + 1, expires := expires, register := st.register[id := c],
                  queue := Pushed(st.queue, expires, c))
  {
    hide Pushed;
  }

  /** What one round of the dispatch loop does with a result that nothing overlaps. */
  function Dispatching(st: State, p: Parcel): State {
    Step(Step(Step(st.(dispatching := [p]), Stamp), Requeue), Report)
  }

  lemma DispatchingQueues(st: State, p: Parcel)
    requires st.dispatching == [] && st.stamped == [] && st.reporting == []
    ensures var expires := st.expires[p.item := p.result.nextCheck];
            Dispatching(st, p) ==
            st.(expires := expires, queue := Pushed(st.queue, expires, p.item),
                failures := st.failures + if p.result.healthy then [] else [p.item.id])
  {
    hide Pushed;
  }

  class HealthChecker {
    var register: map<string, ActiveHealthCheck>
    const queue: HealthCheckQueue
    /** The serial of the next object. */
    var next: nat
    /** Every check object allocated so far. */
    ghost var objects: set<ActiveHealthCheck>

    ghost predicate Valid()
      reads this, queue, queue.queue, queue.queue.items
    {
      && queue.Valid() && Distinct(objects) && Below(objects, next)
      && queue.queue.Members() <= objects
      && (forall id :: id in register ==> register[id] in objects)
    }

    /** The state of the protocol as far as this object holds it. */
    ghost function Model(): State
      requires Distinct(objects)
      reads this, queue, queue.queue, queue.queue.items, objects
    {
      START.(next := next, expires := Memory(objects), register := Registered(register),
             queue := Loads(queue.queue.Keys()))
    }

    lemma KeysAgree()
      requires Valid()
      ensures KeysInMemory(Model().queue, Model().expires) == queue.queue.Keys()
      ensures forall c :: c in Model().queue ==> c in Model().expires
    {
      assert forall e :: e in queue.queue.items ==> e in queue.queue.Members();
      QueuedInMemory(queue.queue.items, queue.queue.Keys(), objects);
    }

    constructor ()
      ensures Valid() && Model() == START
    {
      queue := new HealthCheckQueue();
      register, objects, next := map[], {}, 0;
    }

    /** Registers a check for a task, to run first when it has ramped up; a known task keeps its place. */
    method Register(id: string, now: int, rampUp: nat, enabled: bool)
      requires Valid()
      modifies this`register, this`objects, this`next, queue.queue`items, queue.queue.Members()`index
      ensures Valid() && fresh(objects - old(objects))
      ensures Model() == if enabled then Registering(old(Model()), id, now, rampUp) else old(Model())
    {
      hide H.IsHeap, H.Push, KeysInMemory, Loads, Registered, Memory, Distinct, Below, Pushed, Expiry, Registering;
      RegisteredKeys(register);
      RegisteringQueues(Model(), id, now, rampUp);
      if !enabled || id in register {
        return;
      }
      Enroll(id, now + rampUp * MILLISECOND);
    }

    /** Allocates, registers and queues a check object. */
    method Enroll(id: string, expiresAt: int)
      requires Valid() && id !in register
      modifies this`register, this`objects, this`next, queue.queue`items, queue.queue.Members()`index
      ensures Valid() && fresh(objects - old(objects))
      ensures var st := old(Model()); var c := Check(st.next, id); var expires := st.expires[c := expiresAt];
              Model() == st.(next := st.next + 1, expires := expires, register := st.register[id := c],
                             queue := Pushed(st.queue, expires, c))
    {
      hide H.IsHeap, H.Push, KeysInMemory, Loads, Registered, Memory, Distinct, Below, Expiry;
      ghost var st := Model();
      KeysAgree();
      var scheduled := new Entry(Check(next, id), expiresAt);
      MemoryWith(objects, scheduled, next);
      RegisteredAfter(register, id, scheduled);
      FreshKeys(st.queue, st.expires, scheduled.load, expiresAt);
      Add(id, scheduled);
    }

    /** Registers and queues an object whose serial is the next one. */
    method Add(id: string, scheduled: ActiveHealthCheck)
      requires Valid() && scheduled !in objects
      requires Distinct(objects + {scheduled}) && Below(objects + {scheduled}, next + 1)
      modifies this`register, this`objects, this`next, queue.queue`items, queue.queue.Members()`index, scheduled`index
      ensures Valid() && register == old(register)[id := scheduled]
      ensures objects == old(objects) + {scheduled} && next == old(next) + 1
      ensures queue.queue.Keys() == H.Push(ExpiresBefore, old(queue.queue.Keys()), scheduled.AsKey())
    {
      hide H.IsHeap, H.Push, Distinct, Below;
      register := register[id := scheduled];
      queue.Push(scheduled);
      objects := objects + {scheduled};
      next := next + 1;
    }

    /** Forgets a task and removes its check if it is queued. */
    method Unregister(id: string)
      requires Valid()
      modifies this`register, queue.queue`items, queue.queue.Members()`index
      ensures Valid() && Model() == Step(Step(old(Model()), HealthPipeline.Unregister(id)), DropQueued(0))
    {
      hide H.IsHeap, AfterRemove, KeysInMemory, Loads, Registered, Memory, Distinct, Below;
      KeysAgree();
      UnregisteredAfter(register, id);
      register := register - {id};
      queue.Remove(id);
    }

    /** One round of the dequeue loop: the check to perform, or the time to look again. */
    method Dequeue(now: int) returns (item: Entry?<Check>, again: int)
      requires Valid()
      modifies queue.queue`items, queue.queue.Members()`index
      ensures Valid()
      ensures Model().(held := if item == null then [] else [item.load]) == Step(old(Model()), PopDue(now))
      ensures item != null ==> item in objects && item !in queue.queue.Members()
      ensures item == null && queue.queue.items == [] ==> again == now + 1_000_000_000
      ensures item == null && queue.queue.items != [] ==>
                && (exists e :: e in queue.queue.Members() && e.stamp == again)
                && forall e :: e in queue.queue.Members() ==> now < again <= e.stamp
    {
      hide H.IsHeap, AfterPop, KeysInMemory, Registered, Memory, Distinct, Below;
      KeysAgree();
      var ok;
      item, again, ok := queue.Pop(now);
    }

    /** One round of the dispatch loop: rewrites the expiry, queues the check, reports a failure. */
    method Dispatch(item: ActiveHealthCheck, result: CheckResult) returns (failure: Option<string>)
      requires Valid() && item in objects && item !in queue.queue.Members()
      modifies item, queue.queue`items, queue.queue.Members()`index
      ensures Valid()
      ensures Model().(failures := if failure.None? then [] else [failure.value]) ==
              Dispatching(old(Model()), Parcel(item.load, result))
    {
      hide H.IsHeap, H.Push, Registered, Below, KeysInMemory, Loads, Memory, Distinct, Pushed, Dispatching;
      DispatchingQueues(Model(), Parcel(item.load, result));
      Rewrite(item, result.nextCheck);
      PushBack(item);
      failure := if result.healthy then None else Some(item.load.id);
    }

    /** Queues a check with the expiry it has in memory. */
    method PushBack(item: ActiveHealthCheck)
      requires Valid() && item in objects && item !in queue.queue.Members()
      modifies queue.queue`items, queue.queue.Members()`index, item`index
      ensures Valid()
      ensures Model() == old(Model()).(queue := Pushed(old(Model()).queue, old(Model()).expires, item.load))
    {
      hide H.IsHeap, H.Push, Registered, Below, KeysInMemory, Loads;
      KeysAgree();
      assert Expiry(Memory(objects), item.load) == item.stamp;
      hide Memory, Distinct;
      queue.Push(item);
    }

    /** Rewrites the expiry of a check that is outside the queue. */
    method Rewrite(item: ActiveHealthCheck, expiresAt: int)
      requires Valid() && item in objects && item !in queue.queue.Members()
      modifies item`stamp
      ensures Valid() && item.stamp == expiresAt
      ensures Model() == old(Model()).(expires := old(Model()).expires[item.load := expiresAt])
    {
      hide H.IsHeap, Registered, Loads;
      ghost var before, memory := queue.queue.Keys(), Memory(objects);
      item.stamp := expiresAt;
      assert queue.queue.Keys() == before;
      assert Memory(objects) == memory[item.load := expiresAt];
    }
  }
}
