/** What every run of the health-check pipeline keeps. */
module HealthRuns {
  import opened Protocol
  import opened IndexedHeap
  import opened HealthQueue
  import opened HealthPipeline
  import H = HeapSpec

  // ---------- Moves between places ----------

  lemma TimesIn(s: seq<Check>, c: Check)
    ensures Times(s, c) > 0 <==> c in s
  {
  }

  lemma TimesTail(s: seq<Check>, c: Check)
    requires s != []
    ensures Times(s, c) == Times(s[1..], c) + Indicator(s[0] == c)
  {
    assert s == [s[0]] + s[1..];
  }

  lemma TimesAppend(s: seq<Check>, x: Check, c: Check)
    ensures Times(s + [x], c) == Times(s, c) + Indicator(x == c)
  {
  }

  lemma TimesWithout(s: seq<Check>, i: nat, c: Check)
    requires i < |s|
    ensures Times(s, c) == Times(Without(s, i), c) + Indicator(s[i] == c)
  {
    MinusOne(s, i);
  }

  lemma ItemsTail(ps: seq<Parcel>, c: Check)
    requires ps != []
    ensures Times(Items(ps), c) == Times(Items(ps[1..]), c) + Indicator(ps[0].item == c)
  {
    assert Items(ps)[1..] == Items(ps[1..]);
    TimesTail(Items(ps), c);
  }

  lemma ItemsAppend(ps: seq<Parcel>, p: Parcel, c: Check)
    ensures Times(Items(ps + [p]), c) == Times(Items(ps), c) + Indicator(p.item == c)
  {
    assert Items(ps + [p]) == Items(ps) + [p.item];
    TimesAppend(Items(ps), p.item, c);
  }

  lemma ItemsOne(p: Parcel, c: Check)
    ensures Times(Items([p]), c) == Indicator(p.item == c) && Times(Items([]), c) == 0
  {
    assert Items([p]) == [p.item];
  }

  /** Rewriting the expiry of a check that is not queued leaves the keys of the queue alone. */
  lemma KeysUntouched(queue: seq<Check>, expires: map<Check, int>, c: Check, t: int)
    requires c !in queue
    ensures KeysInMemory(queue, expires[c := t]) == KeysInMemory(queue, expires)
  {
  }

  /** The steps that only pass a check on. */
  predicate Passes(ev: Event) {
    ev.SendWork? || ev.StartCheck? || ev.FinishCheck? || ev.TakeUpdate? || ev.Forward? || ev.TakeResult? || ev.Report?
  }

  lemma PassesBeside(st: State, ev: Event)
    requires Passes(ev)
    ensures var next := Step(st, ev);
            && next.queue == st.queue && next.expires == st.expires
            && next.register == st.register && next.next == st.next
  {
  }

  /** The steps inside the worker pool. */
  lemma PoolPassesOn(st: State, ev: Event, c: Check)
    requires ev.SendWork? || ev.StartCheck? || ev.FinishCheck?
    ensures InFlight(Step(st, ev), c) == InFlight(st, c)
  {
    hide Items, Times;
    match ev
    case SendWork => if st.held != [] { TimesTail(st.held, c); TimesAppend(st.work, st.held[0], c); }
    case StartCheck => if st.work != [] { TimesTail(st.work, c); TimesAppend(st.running, st.work[0], c); }
    case FinishCheck(i, result) =>
      if i < |st.running| {
        TimesWithout(st.running, i, c);
        ItemsAppend(st.updates, Parcel(st.running[i], result), c);
      }
  }

  /** The steps of results. */
  lemma ResultPassesOn(st: State, ev: Event, c: Check)
    requires ev.TakeUpdate? || ev.Forward? || ev.TakeResult? || ev.Report?
    ensures InFlight(Step(st, ev), c) == InFlight(st, c)
  {
    hide Items, Times;
    match ev
    case TakeUpdate => if st.updates != [] { ItemsTail(st.updates, c); ItemsOne(st.updates[0], c); }
    case Forward =>
      if st.forwarding != [] {
        ItemsTail(st.forwarding, c);
        ItemsAppend(st.results, st.forwarding[0], c);
      }
    case TakeResult => if st.results != [] { ItemsTail(st.results, c); ItemsOne(st.results[0], c); }
    case Report =>
  }

  /** Passing a check on keeps the content and touches neither memory nor queue. */
  lemma PassesOn(st: State, ev: Event, c: Check)
    requires Passes(ev)
    ensures var next := Step(st, ev);
            && next.queue == st.queue && next.expires == st.expires
            && next.register == st.register && next.next == st.next
            && InFlight(next, c) == InFlight(st, c)
  {
    hide Step, InFlight;
    PassesBeside(st, ev);
    if ev.SendWork? || ev.StartCheck? || ev.FinishCheck? {
      PoolPassesOn(st, ev, c);
    } else {
      ResultPassesOn(st, ev, c);
    }
  }

  lemma PassStep(st: State, ev: Event)
    requires Inv(st) && Passes(ev)
    ensures Inv(Step(st, ev))
    ensures forall c :: Copies(Step(st, ev), c) == Copies(st, c)
  {
    hide Step, InFlight, Passes;
    PassesOn(st, ev, Check(0, ""));
    forall c
      ensures Copies(Step(st, ev), c) == Copies(st, c)
    {
      PassesOn(st, ev, c);
    }
  }

  /** Steps at the queue leave the other places alone. */
  lemma SameFlight(a: State, b: State, c: Check)
    requires a.held == b.held && a.work == b.work && a.running == b.running && a.updates == b.updates
    requires a.forwarding == b.forwarding && a.results == b.results
    requires a.dispatching == b.dispatching && a.stamped == b.stamped
    requires a.created == b.created && a.entering == b.entering
    ensures InFlight(a, c) == InFlight(b, c)
  {
  }

  /** A queued check is nowhere else. */
  lemma QueuedIsNotInFlight(st: State, c: Check)
    requires Inv(st) && InFlight(st, c) > 0
    ensures c !in st.queue
  {
    assert Copies(st, c) <= 1;
    TimesIn(st.queue, c);
  }

  lemma PushTimes(queue: seq<Check>, expires: map<Check, int>, x: Check, c: Check)
    requires H.IsHeap(ExpiresBefore, KeysInMemory(queue, expires))
    ensures Times(Pushed(queue, expires, x), c) == Times(queue, c) + Indicator(x == c)
    ensures H.IsHeap(ExpiresBefore, KeysInMemory(Pushed(queue, expires, x), expires))
  {
    hide Pushed, H.IsHeap;
    PushedCorrect(queue, expires, x);
  }

  lemma CreateCopies(st: State, id: string, now: int, rampUp: nat, c: Check)
    requires Inv(st) && id !in st.register
    ensures var next := Step(st, Register(id, now, rampUp)); var x := Check(st.next, id);
            && Copies(next, c) == Copies(st, c) + Indicator(c == x) && Copies(st, x) == 0
            && KeysInMemory(next.queue, next.expires) == KeysInMemory(st.queue, st.expires)
  {
    hide Items, Times, H.IsHeap;
    var x := Check(st.next, id);
    assert x !in st.expires && Copies(st, x) == 0;
    TimesIn(st.queue, x);
    KeysUntouched(st.queue, st.expires, x, now + rampUp * MILLISECOND);
    TimesAppend(st.created, x, c);
  }

  lemma RegisterStep(st: State, id: string, now: int, rampUp: nat)
    requires Inv(st)
    ensures var ev, next := Register(id, now, rampUp), Step(st, Register(id, now, rampUp));
            Inv(next) && forall c :: Copies(next, c) == Copies(st, c) + Indicator(Creates(st, ev, c))
  {
    hide Copies, H.IsHeap;
    if id !in st.register {
      var next := Step(st, Register(id, now, rampUp));
      CreateCopies(st, id, now, rampUp, Check(st.next, id));
      forall c
        ensures Copies(next, c) == Copies(st, c) + Indicator(c == Check(st.next, id))
      {
        CreateCopies(st, id, now, rampUp, c);
      }
    }
  }

  lemma EnterMapCopies(st: State, i: nat, c: Check)
    requires i < |st.created|
    ensures Copies(Step(st, EnterMap(i)), c) == Copies(st, c) && Copies(st, st.created[i]) > 0
  {
    hide Items, Times;
    TimesWithout(st.created, i, c);
    TimesWithout(st.created, i, st.created[i]);
    TimesAppend(st.entering, st.created[i], c);
  }

  lemma EnterMapStep(st: State, i: nat)
    requires Inv(st)
    ensures Inv(Step(st, EnterMap(i))) && forall c :: Copies(Step(st, EnterMap(i)), c) == Copies(st, c)
  {
    hide Copies, H.IsHeap;
    if i < |st.created| {
      EnterMapCopies(st, i, st.created[i]);
      assert Copies(st, st.created[i]) <= 1;
      forall c
        ensures Copies(Step(st, EnterMap(i)), c) == Copies(st, c)
      {
        EnterMapCopies(st, i, c);
      }
    }
  }

  lemma EnterQueueCopies(st: State, i: nat, c: Check)
    requires Inv(st) && i < |st.entering|
    ensures var next := Step(st, EnterQueue(i));
            && Copies(next, c) == Copies(st, c)
            && H.IsHeap(ExpiresBefore, KeysInMemory(next.queue, next.expires))
  {
    hide Items, Times, Pushed, H.IsHeap;
    PushTimes(st.queue, st.expires, st.entering[i], c);
    TimesWithout(st.entering, i, c);
  }

  lemma EnterQueueStep(st: State, i: nat)
    requires Inv(st)
    ensures Inv(Step(st, EnterQueue(i))) && forall c :: Copies(Step(st, EnterQueue(i)), c) == Copies(st, c)
  {
    hide Copies, H.IsHeap, Pushed;
    if i < |st.entering| {
      EnterQueueCopies(st, i, st.entering[i]);
      forall c
        ensures Copies(Step(st, EnterQueue(i)), c) == Copies(st, c)
      {
        EnterQueueCopies(st, i, c);
      }
    }
  }

  lemma UnregisterStep(st: State, id: string)
    requires Inv(st)
    ensures Inv(Step(st, Unregister(id))) && forall c :: Copies(Step(st, Unregister(id)), c) == Copies(st, c)
  {
    hide Items, Times, H.IsHeap;
    forall c
      ensures Copies(Step(st, Unregister(id)), c) == Copies(st, c)
    {
      SameFlight(st, Step(st, Unregister(id)), c);
    }
  }

  lemma DropCopies(st: State, i: nat, c: Check)
    requires Inv(st) && i < |st.dropping|
    ensures var ev, next := DropQueued(i), Step(st, DropQueued(i));
            && Copies(st, c) == Copies(next, c) + Indicator(Removes(st, ev, c))
            && (Removes(st, ev, c) ==> c.id == st.dropping[i])
            && H.IsHeap(ExpiresBefore, KeysInMemory(next.queue, next.expires))
  {
    hide InFlight, Items;
    var next, ks := Step(st, DropQueued(i)), KeysInMemory(st.queue, st.expires);
    var k := FirstWithId(ks, st.dropping[i]);
    if k < |ks| {
      ExpiresBeforeIsStrictWeakOrder();
      H.RemoveCorrect(ExpiresBefore, ks, k);
      TakenCorrect(st.queue, st.expires, H.Remove(ExpiresBefore, ks, k), ks[k]);
    } else {
      LoadsOfKeys(st.queue, st.expires);
    }
    SameFlight(next, st, c);
  }

  lemma DropStep(st: State, i: nat)
    requires Inv(st)
    ensures var ev, next := DropQueued(i), Step(st, DropQueued(i));
            Inv(next) && forall c :: Copies(st, c) == Copies(next, c) + Indicator(Removes(st, ev, c))
  {
    hide Copies, H.IsHeap, Removes, AfterRemove;
    var ev, next := DropQueued(i), Step(st, DropQueued(i));
    if i < |st.dropping| {
      DropCopies(st, i, Check(0, ""));
      forall c
        ensures Copies(st, c) == Copies(next, c) + Indicator(Removes(st, ev, c))
      {
        DropCopies(st, i, c);
      }
    } else {
      assert forall c :: !Removes(st, ev, c) by { NothingDropped(st, i); }
    }
  }

  lemma NothingDropped(st: State, i: nat)
    requires i >= |st.dropping|
    ensures forall c :: !Removes(st, DropQueued(i), c)
  {
  }

  /** The front of the queue expires no later than any queued check. */
  lemma FrontIsEarliest(st: State, c: Check)
    requires Inv(st) && c in st.queue
    ensures Expiry(st.expires, st.queue[0]) <= Expiry(st.expires, c)
  {
    hide Copies, H.IsHeap;
    var ks := KeysInMemory(st.queue, st.expires);
    AfterPopCorrect(ks, 0);
    var i :| 0 <= i < |st.queue| && st.queue[i] == c;
    assert ks[i] in ks;
  }

  /** What a pop does to the queue and to the check held by the dequeue loop. */
  lemma PopQueue(st: State, now: int, c: Check)
    requires Inv(st) && st.held == [] && st.queue != []
    ensures var next := Step(st, PopDue(now));
            && Copies(next, c) == Copies(st, c)
            && H.IsHeap(ExpiresBefore, KeysInMemory(next.queue, next.expires))
            && (next.held == if Expiry(st.expires, st.queue[0]) <= now then [st.queue[0]] else [])
  {
    hide H.IsHeap, AfterPop, Items, Times;
    PopTimes(st, now, c);
    TimesOne(st.queue[0], c);
  }

  lemma TimesOne(x: Check, c: Check)
    ensures Times([x], c) == Indicator(x == c) && Times([], c) == 0
  {
  }

  lemma PopTimes(st: State, now: int, c: Check)
    requires Inv(st) && st.queue != []
    ensures var ks := KeysInMemory(st.queue, st.expires); var r := Loads(AfterPop(ks, now));
            && H.IsHeap(ExpiresBefore, KeysInMemory(r, st.expires))
            && Times(st.queue, c) ==
               Times(r, c) + if Expiry(st.expires, st.queue[0]) <= now then Indicator(st.queue[0] == c) else 0
  {
    hide H.IsHeap, AfterPop, Copies;
    var ks := KeysInMemory(st.queue, st.expires);
    AfterPopCorrect(ks, now);
    if ks[0].stamp > now {
      PermutedCorrect(st.queue, st.expires, AfterPop(ks, now));
    } else {
      TakenCorrect(st.queue, st.expires, AfterPop(ks, now), ks[0]);
    }
  }

  lemma PopStep(st: State, now: int)
    requires Inv(st)
    ensures var next := Step(st, PopDue(now));
            Inv(next) && forall c :: Copies(next, c) == Copies(st, c)
  {
    hide Copies, H.IsHeap, AfterPop;
    var next := Step(st, PopDue(now));
    if st.held == [] && st.queue != [] {
      PopQueue(st, now, st.queue[0]);
      forall c
        ensures Copies(next, c) == Copies(st, c)
      {
        PopQueue(st, now, c);
      }
    }
  }

  lemma StampFlight(st: State, c: Check)
    requires st.dispatching != []
    ensures Copies(Step(st, Stamp), c) == Copies(st, c)
    ensures InFlight(st, st.dispatching[0].item) > 0
  {
    hide Items, Times;
    ItemsTail(st.dispatching, c);
    ItemsTail(st.dispatching, st.dispatching[0].item);
    ItemsAppend(st.stamped, st.dispatching[0], c);
  }

  lemma StampQueue(st: State, c: Check)
    requires Inv(st) && st.dispatching != []
    ensures var next, x := Step(st, Stamp), st.dispatching[0].item;
            && Copies(next, c) == Copies(st, c) && Copies(st, x) == 1
            && KeysInMemory(next.queue, next.expires) == KeysInMemory(st.queue, st.expires)
  {
    hide Times, Items, H.IsHeap, InFlight;
    var p := st.dispatching[0];
    StampFlight(st, c);
    QueuedIsNotInFlight(st, p.item);
    KeysUntouched(st.queue, st.expires, p.item, p.result.nextCheck);
  }

  lemma StampStep(st: State)
    requires Inv(st)
    ensures Inv(Step(st, Stamp)) && forall c :: Copies(Step(st, Stamp), c) == Copies(st, c)
  {
    hide Copies, H.IsHeap;
    if st.dispatching != [] {
      var next := Step(st, Stamp);
      StampQueue(st, st.dispatching[0].item);
      forall c
        ensures Copies(next, c) == Copies(st, c)
      {
        StampQueue(st, c);
      }
    }
  }

  lemma RequeueQueue(st: State, c: Check)
    requires Inv(st) && st.stamped != []
    ensures var next := Step(st, Requeue);
            && Copies(next, c) == Copies(st, c)
            && H.IsHeap(ExpiresBefore, KeysInMemory(next.queue, next.expires))
  {
    hide Items, Times, Pushed, H.IsHeap;
    PushTimes(st.queue, st.expires, st.stamped[0].item, c);
    ItemsTail(st.stamped, c);
  }

  lemma RequeueStep(st: State)
    requires Inv(st)
    ensures Inv(Step(st, Requeue)) && forall c :: Copies(Step(st, Requeue), c) == Copies(st, c)
  {
    hide Copies, H.IsHeap, Pushed;
    if st.stamped != [] {
      var next := Step(st, Requeue);
      RequeueQueue(st, st.stamped[0].item);
      forall c
        ensures Copies(next, c) == Copies(st, c)
      {
        RequeueQueue(st, c);
      }
    }
  }

  // ---------- Every step, every run ----------

  /** Every step keeps the invariant; only registering adds a check and only unregistering drops one. */
  lemma StepKeeps(st: State, ev: Event)
    requires Inv(st)
    ensures Inv(Step(st, ev))
    ensures forall c :: Copies(Step(st, ev), c) + Indicator(Removes(st, ev, c)) ==
                        Copies(st, c) + Indicator(Creates(st, ev, c))
  {
    hide Step, Inv, Copies;
    match ev
    case Register(id, now, rampUp) => RegisterStep(st, id, now, rampUp);
    case EnterMap(i) => EnterMapStep(st, i);
    case EnterQueue(i) => EnterQueueStep(st, i);
    case Unregister(id) => UnregisterStep(st, id);
    case DropQueued(i) => DropStep(st, i);
    case PopDue(now) => PopStep(st, now);
    case Stamp => StampStep(st);
    case Requeue => RequeueStep(st);
    case _ => PassStep(st, ev);
  }

  lemma StartInv()
    ensures Inv(START) && forall c :: Copies(START, c) == 0
  {
  }

  lemma RunPrefix(states: seq<State>, events: seq<Event>)
    requires IsRun(states, events) && events != []
    ensures var n := |events| - 1; IsRun(states[..n + 1], events[..n])
  {
  }

  lemma {:induction false} RunKeepsInv(states: seq<State>, events: seq<Event>)
    requires IsRun(states, events)
    ensures Inv(states[|events|])
    decreases |events|
  {
    hide Step, Inv;
    if events == [] {
      StartInv();
    } else {
      var n := |events| - 1;
      RunPrefix(states, events);
      RunKeepsInv(states[..n + 1], events[..n]);
      assert Steps(states[n], events[n], states[n + 1]);
      StepKeeps(states[n], events[n]);
    }
  }

  /** How often a run creates this check. */
  function Created(states: seq<State>, events: seq<Event>, c: Check): nat
    requires |events| <= |states|
  {
    if events == [] then 0
    else
      var n := |events| - 1;
      Created(states, events[..n], c) + Indicator(Creates(states[n], events[n], c))
  }

  /** How often a run removes this check. */
  function Removed(states: seq<State>, events: seq<Event>, c: Check): nat
    requires |events| <= |states|
  {
    if events == [] then 0
    else
      var n := |events| - 1;
      Removed(states, events[..n], c) + Indicator(Removes(states[n], events[n], c))
  }

  lemma {:induction false} CountsOfPrefix(states: seq<State>, events: seq<Event>, m: nat, c: Check)
    requires |events| <= m <= |states|
    ensures Created(states[..m], events, c) == Created(states, events, c)
    ensures Removed(states[..m], events, c) == Removed(states, events, c)
    decreases |events|
  {
    hide Creates, Removes;
    if events != [] { CountsOfPrefix(states, events[..|events| - 1], m, c); }
  }

  /** No check is lost or duplicated: each one created is in exactly one place until it is removed from the queue. */
  lemma {:induction false} RunConserves(states: seq<State>, events: seq<Event>, c: Check)
    requires IsRun(states, events)
    ensures Copies(states[|events|], c) + Removed(states, events, c) == Created(states, events, c)
    ensures Copies(states[|events|], c) <= 1
    decreases |events|
  {
    hide Step, Inv, Copies, Creates, Removes;
    RunKeepsInv(states, events);
    AtMostOne(states[|events|], c);
    if events == [] {
      StartInv();
    } else {
      var n := |events| - 1;
      RunPrefix(states, events);
      RunConserves(states[..n + 1], events[..n], c);
      CountsOfPrefix(states, events[..n], n + 1, c);
      RunKeepsInv(states[..n + 1], events[..n]);
      assert Steps(states[n], events[n], states[n + 1]);
      StepKeeps(states[n], events[n]);
    }
  }

  lemma AtMostOne(st: State, c: Check)
    requires Inv(st)
    ensures Copies(st, c) <= 1
  {
  }

  /** Each check in memory was created once. */
  lemma {:induction false} CreatedIffInMemory(states: seq<State>, events: seq<Event>, c: Check)
    requires IsRun(states, events)
    ensures Created(states, events, c) == Indicator(c in states[|events|].expires)
    decreases |events|
  {
    hide Inv, Copies;
    if events != [] {
      var n := |events| - 1;
      RunPrefix(states, events);
      CreatedIffInMemory(states[..n + 1], events[..n], c);
      CountsOfPrefix(states, events[..n], n + 1, c);
      RunKeepsInv(states[..n + 1], events[..n]);
      assert Steps(states[n], events[n], states[n + 1]);
      MemoryGrows(states[n], events[n], c);
    }
  }

  lemma MemoryGrows(st: State, ev: Event, c: Check)
    requires Inv(st)
    ensures Indicator(c in Step(st, ev).expires) == Indicator(c in st.expires) + Indicator(Creates(st, ev, c))
  {
    hide Items, Times, H.IsHeap, Pushed, Loads, AfterPop, AfterRemove, KeysInMemory;
    if ev.Stamp? && st.dispatching != [] {
      StampFlight(st, c);
      assert Copies(st, st.dispatching[0].item) == 1;
    }
  }

  /**
   * In every reachable state a registered check is in exactly one place if and only if no
   * unregistering call has removed it from the queue.
   */
  lemma RegisteredInOnePlaceIff(states: seq<State>, events: seq<Event>, id: string)
    requires IsRun(states, events) && id in states[|events|].register
    ensures var c := states[|events|].register[id];
            && c.id == id && Copies(states[|events|], c) <= 1
            && (Copies(states[|events|], c) == 1 <==> Removed(states, events, c) == 0)
  {
    hide Step, Copies;
    RunKeepsInv(states, events);
    var c := states[|events|].register[id];
    RunConserves(states, events, c);
    CreatedIffInMemory(states, events, c);
  }

  /** The step writes this task to the register. */
  predicate Enters(st: State, ev: Event, id: string) {
    ev.EnterMap? && ev.i < |st.created| && st.created[ev.i].id == id
  }

  lemma RegisterChanges(st: State, ev: Event, id: string)
    ensures var next := Step(st, ev);
            && (Enters(st, ev, id) ==> id in next.register && next.register[id] == st.created[ev.i])
            && (!Enters(st, ev, id) && id in next.register ==>
                  id in st.register && next.register[id] == st.register[id] && !(ev == Unregister(id)))
            && (id in next.dropping ==> id in st.dropping || ev == Unregister(id))
  {
    hide Items, Times, H.IsHeap, Pushed, Loads, AfterPop, AfterRemove, KeysInMemory;
  }

  lemma RegisteredIsNotDropped(st: State, ev: Event, c: Check)
    requires Inv(st) && c.id !in st.dropping
    ensures !Removes(st, ev, c)
  {
    hide Copies, H.IsHeap;
  }

  /** A registered check stays in its one place, or is the one that has just been written to the register. */
  lemma StaysPlaced(st: State, ev: Event, id: string)
    requires Inv(st) && Placed(st) && !Overtakes(st, ev) && Inv(Step(st, ev)) && id in Step(st, ev).register
    requires forall c :: Copies(Step(st, ev), c) + Indicator(Removes(st, ev, c)) ==
                         Copies(st, c) + Indicator(Creates(st, ev, c))
    ensures Copies(Step(st, ev), Step(st, ev).register[id]) == 1 && id !in Step(st, ev).dropping
  {
    hide Step, Inv, Copies, Removes, Creates;
    RegisterChanges(st, ev, id);
    if Enters(st, ev, id) {
      EnterMapCopies(st, ev.i, st.created[ev.i]);
      AtMostOne(st, st.created[ev.i]);
    } else {
      AtMostOne(Step(st, ev), st.register[id]);
      RegisteredHasId(st, id);
      RegisteredIsNotDropped(st, ev, st.register[id]);
    }
  }

  lemma RegisteredHasId(st: State, id: string)
    requires Inv(st) && id in st.register
    ensures st.register[id].id == id
  {
    hide Copies, H.IsHeap;
  }

  lemma StepKeepsPlaced(st: State, ev: Event)
    requires Inv(st) && Placed(st) && !Overtakes(st, ev)
    ensures Placed(Step(st, ev))
  {
    hide Step, Inv, Copies, Removes, Creates, Overtakes;
    StepKeeps(st, ev);
    forall id | id in Step(st, ev).register
      ensures Copies(Step(st, ev), Step(st, ev).register[id]) == 1 && id !in Step(st, ev).dropping
    {
      StaysPlaced(st, ev, id);
    }
  }

  /** In every run in which no registration overtakes an unregistration, registered checks are in exactly one place. */
  lemma {:induction false} RegisteredInOnePlace(states: seq<State>, events: seq<Event>)
    requires IsRun(states, events)
    requires forall i :: 0 <= i < |events| ==> !Overtakes(states[i], events[i])
    ensures Inv(states[|events|]) && Placed(states[|events|])
    decreases |events|
  {
    hide Step, Inv, Placed, Overtakes;
    RunKeepsInv(states, events);
    if events == [] {
      StartPlaced();
    } else {
      var n := |events| - 1;
      RunPrefix(states, events);
      RegisteredInOnePlace(states[..n + 1], events[..n]);
      assert Steps(states[n], events[n], states[n + 1]);
      StepKeepsPlaced(states[n], events[n]);
    }
  }

  lemma StartPlaced()
    ensures Placed(START)
  {
  }

  /** ExpiresAt is rewritten only by the dispatch loop, for a check that is outside the heap before and after. */
  lemma RewrittenOutsideHeap(states: seq<State>, events: seq<Event>, ev: Event, next: State, c: Check)
    requires IsRun(states, events) && Steps(states[|events|], ev, next)
    requires var st := states[|events|]; c in st.expires && c in next.expires && next.expires[c] != st.expires[c]
    ensures var st := states[|events|]; ev.Stamp? && c !in st.queue && c !in next.queue && InFlight(st, c) > 0
  {
    var st := states[|events|];
    RunKeepsInv(states, events);
    hide Copies, InFlight, H.IsHeap, IsRun;
    if Passes(ev) {
      PassesOn(st, ev, c);
    } else if ev.Stamp? {
      StampFlight(st, c);
      QueuedIsNotInFlight(st, c);
    }
  }

  /** In every reachable state the dequeue loop takes a due check of least expiry, and waits only when none is due. */
  lemma ServesEarliestDue(states: seq<State>, events: seq<Event>, now: int, next: State, c: Check)
    requires IsRun(states, events) && Steps(states[|events|], PopDue(now), next)
    requires states[|events|].held == [] && c in states[|events|].queue
    ensures var expires := states[|events|].expires;
            && (next.held != [] ==>
                  Expiry(expires, next.held[0]) <= now && Expiry(expires, next.held[0]) <= Expiry(expires, c))
            && (next.held == [] ==> now < Expiry(expires, c))
  {
    var st := states[|events|];
    RunKeepsInv(states, events);
    hide Step, Inv, IsRun;
    PopQueue(st, now, c);
    FrontIsEarliest(st, c);
  }

  // ---------- Unregistering is not always the end of a check ----------

  /** No check of this task is left anywhere. */
  ghost predicate Gone(st: State, id: string) {
    forall c :: Copies(st, c) > 0 ==> c.id != id
  }

  /** At most one check of this task is queued. */
  ghost predicate QueuedOnce(st: State, id: string) {
    forall c, d :: c in st.queue && d in st.queue && c.id == d.id == id ==> c == d
  }

  ghost predicate NoneInFlight(st: State, id: string) {
    forall c :: InFlight(st, c) > 0 ==> c.id != id
  }

  /** Whether a check survives the removal of its task from the queue. */
  lemma SurvivesDrop(st: State, i: nat, c: Check)
    requires Inv(st) && i < |st.dropping| && c.id == st.dropping[i]
    ensures Copies(Step(st, DropQueued(i)), c) > 0 <==>
            InFlight(st, c) > 0 || (c in st.queue && !Removes(st, DropQueued(i), c))
    ensures c in st.queue ==> exists d :: d in st.queue && d.id == c.id && Removes(st, DropQueued(i), d)
  {
    var ks := KeysInMemory(st.queue, st.expires);
    var k := FirstWithId(ks, c.id);
    DropCopies(st, i, c);
    TimesIn(st.queue, c);
    assert Copies(st, c) <= 1;
    if k < |ks| { TimesIn(st.queue, st.queue[k]); }
    if c in st.queue {
      var j :| 0 <= j < |st.queue| && st.queue[j] == c;
      assert ks[j].load.id == c.id;
      assert Removes(st, DropQueued(i), st.queue[k]);
    }
  }

  /** Unregistering leaves no trace of a task exactly when nothing of it is in flight or queued twice. */
  lemma UnregisterCleansIff(st: State, i: nat)
    requires Inv(st) && i < |st.dropping|
    ensures var id := st.dropping[i];
            Gone(Step(st, DropQueued(i)), id) <==> QueuedOnce(st, id) && NoneInFlight(st, id)
  {
    hide Step, Inv, Copies, InFlight;
    var id := st.dropping[i];
    forall c: Check | c.id == id
      ensures Copies(Step(st, DropQueued(i)), c) > 0 <==>
              InFlight(st, c) > 0 || (c in st.queue && !Removes(st, DropQueued(i), c))
      ensures c in st.queue ==> exists d :: d in st.queue && d.id == id && Removes(st, DropQueued(i), d)
    {
      SurvivesDrop(st, i, c);
    }
  }

  /** No failure of this task is being reported. */
  ghost predicate Silent(st: State, id: string) {
    Gone(st, id) && id !in st.reporting
  }

  lemma GoneStays(st: State, ev: Event, id: string)
    requires Inv(st) && Gone(st, id) && !(ev.Register? && ev.id == id)
    ensures Gone(Step(st, ev), id)
  {
    StepKeeps(st, ev);
    var next := Step(st, ev);
    hide Step, Inv, Copies;
    forall c | Copies(next, c) > 0
      ensures c.id != id
    {
      assert Copies(next, c) + Indicator(Removes(st, ev, c)) == Copies(st, c) + Indicator(Creates(st, ev, c));
    }
  }

  lemma StampedIsCopy(st: State, id: string)
    requires Gone(st, id) && st.stamped != []
    ensures st.stamped[0].item.id != id
  {
    hide Times, Items;
    ItemsTail(st.stamped, st.stamped[0].item);
    assert Copies(st, st.stamped[0].item) > 0;
  }

  lemma ReportsOnlyCopies(st: State, ev: Event, id: string)
    requires Gone(st, id) && id !in st.reporting
    ensures var next := Step(st, ev);
            id !in next.reporting && st.failures <= next.failures && id !in next.failures[|st.failures|..]
  {
    hide Gone, Copies, Pushed, Loads, AfterPop, AfterRemove, KeysInMemory;
    if st.stamped != [] { StampedIsCopy(st, id); }
  }

  /** Without a registration a task that is gone stays gone, and no failure of it is delivered. */
  lemma StepStaysSilent(st: State, ev: Event, id: string)
    requires Inv(st) && Silent(st, id) && !(ev.Register? && ev.id == id)
    ensures var next := Step(st, ev);
            && Silent(next, id) && st.failures <= next.failures && id !in next.failures[|st.failures|..]
  {
    hide Step, Inv, Gone;
    GoneStays(st, ev, id);
    ReportsOnlyCopies(st, ev, id);
  }

  /**
   * From a reachable state in which nothing of a task is left, no failure of it is delivered
   * until the task is registered again, whatever else happens.
   */
  lemma {:induction false} GoneStaysSilent(states: seq<State>, events: seq<Event>, k: nat, id: string)
    requires IsRun(states, events) && k <= |events| && Silent(states[k], id)
    requires forall i :: k <= i < |events| ==> !(events[i].Register? && events[i].id == id)
    ensures var last := states[|events|];
            && Silent(last, id) && states[k].failures <= last.failures
            && id !in last.failures[|states[k].failures|..]
    decreases |events|
  {
    hide Step, Inv, Silent;
    if k < |events| {
      var n := |events| - 1;
      RunPrefix(states, events);
      GoneStaysSilent(states[..n + 1], events[..n], k, id);
      RunKeepsInv(states[..n + 1], events[..n]);
      assert Steps(states[n], events[n], states[n + 1]);
      StepStaysSilent(states[n], events[n], id);
      var a, b, c := states[k].failures, states[n].failures, states[n + 1].failures;
      assert c[|a|..] == b[|a|..] + c[|b|..];
    }
  }

  // ---------- Runs that show it ----------

  /** The events of a registering call that nothing overlaps. */
  function Enroll(id: string): seq<Event> {
    [Register(id, 0, 0), EnterMap(0), EnterQueue(0)]
  }

  /** The first check of a task enters the register and the queue. */
  lemma Enrolls(id: string, st: State) returns (one: State, two: State, three: State)
    requires st == START.(dropping := st.dropping)
    ensures Steps(st, Enroll(id)[0], one) && Steps(one, Enroll(id)[1], two) && Steps(two, Enroll(id)[2], three)
    ensures var c := Check(0, id);
            && one.created == [c] && one.dropping == st.dropping
            && three == st.(next := 1, expires := map[c := 0], register := map[id := c], queue := [c])
  {
    var c := Check(0, id);
    one := st.(next := 1, expires := map[c := 0], created := [c]);
    two := one.(created := [], register := map[id := c], entering := [c]);
    three := two.(entering := [], queue := [c]);
    var x := Key(c, 0);
    assert KeysInMemory([], map[c := 0]) == [] && [] + [x] == [x];
    assert H.Push(ExpiresBefore, [], x) == [x];
  }

  lemma PopFirst(id: string, st: State)
    requires var c := Check(0, id);
             st == START.(next := 1, expires := map[c := 0], register := map[id := c], queue := [c])
    ensures Step(st, PopDue(0)) == st.(queue := [], held := [Check(0, id)])
  {
    assert KeysInMemory(st.queue, st.expires) == [Key(Check(0, id), 0)];
  }

  /** A run in which a check is unregistered after the dequeue loop took it, and stays in the pipeline. */
  lemma CheckOutlivesTask(id: string) returns (states: seq<State>, events: seq<Event>)
    ensures IsRun(states, events) && events == Enroll(id) + [PopDue(0), Unregister(id), DropQueued(0)]
    ensures var st := states[6];
            id !in st.register && st.dropping == [] && st.held == [Check(0, id)] && !Gone(st, id)
  {
    hide H.Push, H.Pop, H.Remove, AfterPop, KeysInMemory, Pushed;
    var one, two, three := Enrolls(id, START);
    PopFirst(id, three);
    var popped := Step(three, PopDue(0));
    var deleted := Step(popped, Unregister(id));
    var dropped := Step(deleted, DropQueued(0));
    TimesIn(dropped.held, Check(0, id));
    assert Copies(dropped, Check(0, id)) > 0;
    states := [START, one, two, three, popped, deleted, dropped];
    events := Enroll(id) + [PopDue(0), Unregister(id), DropQueued(0)];
  }

  lemma DropOnly(id: string, st: State)
    requires var c := Check(0, id);
             st == START.(next := 1, expires := map[c := 0], register := map[id := c], queue := [c], dropping := [id])
    ensures Step(st, DropQueued(0)) == st.(queue := [], dropping := [])
  {
    var x := Key(Check(0, id), 0);
    assert KeysInMemory(st.queue, st.expires) == [x] && FirstWithId([x], id) == 0;
    assert H.Remove(ExpiresBefore, [x], 0) == [];
  }

  /** A run in which a registration overtakes an unregistration: its check is registered and nowhere. */
  lemma OvertakenCheckIsLost(id: string) returns (states: seq<State>, events: seq<Event>)
    ensures IsRun(states, events) && events == [Unregister(id)] + Enroll(id) + [DropQueued(0)]
    ensures Overtakes(states[2], events[2])
    ensures var st := states[5]; id in st.register && Copies(st, st.register[id]) == 0
  {
    hide H.Push, H.Remove, AfterRemove, KeysInMemory, Pushed;
    var first := START.(dropping := [id]);
    assert Steps(START, Unregister(id), first);
    var one, two, three := Enrolls(id, first);
    DropOnly(id, three);
    var dropped := Step(three, DropQueued(0));
    states := [START, first, one, two, three, dropped];
    events := [Unregister(id)] + Enroll(id) + [DropQueued(0)];
  }
}
