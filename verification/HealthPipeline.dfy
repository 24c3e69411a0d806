/**
 * The health checker as a protocol of concurrent loops and callers: registered checks travel
 * from the timed queue through the worker pool and back.  Every step is one access of one
 * loop or caller to the register, the queue, a channel or an expiry; calls that register and
 * unregister take several steps and may overlap.  Channels are unbounded, which allows every
 * interleaving that bounded ones do.
 */
module HealthPipeline {
  import opened IndexedHeap
  import opened HealthQueue
  import H = HeapSpec

  datatype CheckResult = CheckResult(healthy: bool, nextCheck: int)

  /** A check on its way back, with the result of its last execution. */
  datatype Parcel = Parcel(item: Check, result: CheckResult)

  datatype State = State(
    /** The serial of the next check object. */
    next: nat,
    /** Shared memory: the ExpiresAt field of every check object. */
    expires: map<Check, int>,
    register: map<string, Check>,
    /** Allocated by a registering call that found no check, not in the register yet. */
    created: seq<Check>,
    /** In the register, not queued yet by the registering call. */
    entering: seq<Check>,
    /** Task ids deleted from the register whose queued check is still to be removed. */
    dropping: seq<string>,
    /** The slice of the timed queue. */
    queue: seq<Check>,
    /** Popped by the dequeue loop, not yet sent. */
    held: seq<Check>,
    work: seq<Check>,
    running: seq<Check>,
    updates: seq<Parcel>,
    /** Taken from updates by the pool, not yet sent. */
    forwarding: seq<Parcel>,
    results: seq<Parcel>,
    /** Taken from results by the dispatch loop, ExpiresAt not yet rewritten. */
    dispatching: seq<Parcel>,
    /** ExpiresAt rewritten, not yet queued. */
    stamped: seq<Parcel>,
    /** Queued again, failure not delivered yet. */
    reporting: seq<string>,
    /** Ids of failed checks, in the order of delivery. */
    failures: seq<string>)

  datatype Event =
    /** A registering call looks the task up, and allocates a check if it finds none. */
    | Register(id: string, now: int, rampUp: nat)
    /** The call of the i-th check allocated writes it to the register, and then queues it. */
    | EnterMap(i: nat)
    | EnterQueue(i: nat)
    /** An unregistering call deletes the task from the register, and then a check from the queue. */
    | Unregister(id: string)
    | DropQueued(i: nat)
    | PopDue(now: int)
    | SendWork
    | StartCheck
    /** The i-th running check finishes with this result. */
    | FinishCheck(i: nat, result: CheckResult)
    | TakeUpdate
    | Forward
    | TakeResult
    | Stamp
    | Requeue
    | Report

  const MILLISECOND := 1_000_000

  // ---------- The slice and its keys ----------

  function Expiry(expires: map<Check, int>, c: Check): int {
    if c in expires then expires[c] else 0
  }

  /** What the comparison of the queue sees in memory. */
  function KeysInMemory(queue: seq<Check>, expires: map<Check, int>): (ks: seq<CheckKey>)
    ensures |ks| == |queue|
    ensures forall i :: 0 <= i < |queue| ==> ks[i] == Key(queue[i], Expiry(expires, queue[i]))
  {
    seq(|queue|, i requires 0 <= i < |queue| => Key(queue[i], Expiry(expires, queue[i])))
  }

  function Loads(ks: seq<CheckKey>): (s: seq<Check>)
    ensures |s| == |ks|
    ensures forall i :: 0 <= i < |ks| ==> s[i] == ks[i].load
  {
    seq(|ks|, i requires 0 <= i < |ks| => ks[i].load)
  }

  function Items(ps: seq<Parcel>): (s: seq<Check>)
    ensures |s| == |ps|
    ensures forall i :: 0 <= i < |ps| ==> s[i] == ps[i].item
  {
    seq(|ps|, i requires 0 <= i < |ps| => ps[i].item)
  }

  function Pushed(queue: seq<Check>, expires: map<Check, int>, c: Check): seq<Check> {
    Loads(H.Push(ExpiresBefore, KeysInMemory(queue, expires), Key(c, Expiry(expires, c))))
  }

  // ---------- Steps ----------

  function Without<T>(s: seq<T>, i: nat): seq<T>
    requires i < |s|
  {
    s[..i] + s[i + 1..]
  }

  /** One step; an event that is not enabled changes nothing. */
  function Step(st: State, ev: Event): State {
    match ev
    case Register(id, now, rampUp) =>
      if id in st.register then st
      else
        var c := Check(st.next, id);
        st.(next := st.next + 1, expires := st.expires[c := now + rampUp * MILLISECOND], created := st.created + [c])
    case EnterMap(i) =>
      if i >= |st.created| then st
      else
        var c := st.created[i];
        st.(created := Without(st.created, i), register := st.register[c.id := c], entering := st.entering + [c])
    case EnterQueue(i) =>
      if i >= |st.entering| then st
      else st.(entering := Without(st.entering, i), queue := Pushed(st.queue, st.expires, st.entering[i]))
    case Unregister(id) => st.(register := st.register - {id}, dropping := st.dropping + [id])
    case DropQueued(i) =>
      if i >= |st.dropping| then st
      else
        st.(dropping := Without(st.dropping, i),
            queue := Loads(AfterRemove(KeysInMemory(st.queue, st.expires), st.dropping[i])))
    case PopDue(now) =>
      if st.held != [] || st.queue == [] then st
      else
        var ks := KeysInMemory(st.queue, st.expires);
        st.(queue := Loads(AfterPop(ks, now)), held := if ks[0].stamp > now then [] else [ks[0].load])
    case SendWork =>
      if st.held == [] then st else st.(held := st.held[1..], work := st.work + [st.held[0]])
    case StartCheck =>
      if st.work == [] || st.forwarding != [] then st
      else st.(work := st.work[1..], running := st.running + [st.work[0]])
    case FinishCheck(i, result) =>
      if i >= |st.running| then st
      else st.(running := Without(st.running, i), updates := st.updates + [Parcel(st.running[i], result)])
    case TakeUpdate =>
      if st.updates == [] || st.forwarding != [] then st
      else st.(updates := st.updates[1..], forwarding := [st.updates[0]])
    case Forward =>
      if st.forwarding == [] then st
      else st.(forwarding := st.forwarding[1..], results := st.results + [st.forwarding[0]])
    case TakeResult =>
      if st.results == [] || st.dispatching != [] || st.stamped != [] || st.reporting != [] then st
      else st.(results := st.results[1..], dispatching := [st.results[0]])
    case Stamp =>
      if st.dispatching == [] then st
      else
        var p := st.dispatching[0];
        st.(dispatching := st.dispatching[1..], stamped := st.stamped + [p],
            expires := st.expires[p.item := p.result.nextCheck])
    case Requeue =>
      if st.stamped == [] then st
      else
        var p := st.stamped[0];
        st.(stamped := st.stamped[1..], queue := Pushed(st.queue, st.expires, p.item),
            reporting := st.reporting + if p.result.healthy then [] else [p.item.id])
    case Report =>
      if st.reporting == [] then st
      else st.(reporting := st.reporting[1..], failures := st.failures + [st.reporting[0]])
  }

  const START := State(0, map[], map[], [], [], [], [], [], [], [], [], [], [], [], [], [], [])

  /** The states a run passes through, from the empty pipeline. */
  ghost predicate IsRun(states: seq<State>, events: seq<Event>) {
    && |states| == |events| + 1 && states[0] == START
    && forall i :: 0 <= i < |events| ==> Steps(states[i], events[i], states[i + 1])
  }

  ghost predicate Steps(st: State, ev: Event, next: State) {
    next == Step(st, ev)
  }

  // ---------- Where checks are ----------

  function Times(s: seq<Check>, c: Check): nat {
    multiset(s)[c]
  }

  /** How often a check occurs in the places other than the queue. */
  function InFlight(st: State, c: Check): nat {
    Times(st.created, c) + Times(st.entering, c) + Times(st.held, c) + Times(st.work, c) +
    Times(st.running, c) + Times(Items(st.updates), c) +
    Times(Items(st.forwarding), c) + Times(Items(st.results), c) + Times(Items(st.dispatching), c) +
    Times(Items(st.stamped), c)
  }

  /** How often a check occurs in all places together. */
  function Copies(st: State, c: Check): nat {
    Times(st.queue, c) + InFlight(st, c)
  }

  /** The step brings this check into the pipeline. */
  predicate Creates(st: State, ev: Event, c: Check) {
    ev.Register? && ev.id !in st.register && c == Check(st.next, ev.id)
  }

  /** The step takes this check out of the pipeline: the first queued one of the task being dropped. */
  predicate Removes(st: State, ev: Event, c: Check) {
    && ev.DropQueued? && ev.i < |st.dropping|
    && var k := FirstWithId(KeysInMemory(st.queue, st.expires), st.dropping[ev.i]);
       k < |st.queue| && c == st.queue[k]
  }

  /** Every check is in at most one place, and the queue is in order of the expiries in memory. */
  ghost predicate Inv(st: State) {
    && (forall c :: Copies(st, c) <= 1 && (Copies(st, c) == 1 ==> c in st.expires))
    && (forall c :: c in st.expires ==> c.serial < st.next)
    && (forall id :: id in st.register ==> st.register[id].id == id && st.register[id] in st.expires)
    && H.IsHeap(ExpiresBefore, KeysInMemory(st.queue, st.expires))
  }

  /** A registration writes to the register while an unregistration of the task is half done. */
  predicate Overtakes(st: State, ev: Event) {
    ev.EnterMap? && ev.i < |st.created| && st.created[ev.i].id in st.dropping
  }

  /** Registered checks are in one place, and none of their tasks is being dropped. */
  ghost predicate Placed(st: State) {
    forall id :: id in st.register ==> Copies(st, st.register[id]) == 1 && id !in st.dropping
  }

  // ---------- Slices as multisets ----------

  lemma {:induction false} LoadsContent(ks: seq<CheckKey>, ls: seq<CheckKey>)
    requires multiset(ks) == multiset(ls)
    ensures multiset(Loads(ks)) == multiset(Loads(ls))
    decreases |ks|
  {
    if ks == [] {
      assert |multiset(ls)| == |ls|;
      assert Loads(ks) == Loads(ls) == [];
    } else {
      var n := |ks| - 1;
      assert ks[n] in multiset(ls);
      var k :| 0 <= k < |ls| && ls[k] == ks[n];
      MinusOne(ks, n);
      MinusOne(ls, k);
      assert Without(ks, n) == ks[..n];
      LoadsContent(ks[..n], Without(ls, k));
      LoadsMinusOne(ks, n);
      LoadsMinusOne(ls, k);
    }
  }

  lemma MinusOne<T>(s: seq<T>, k: nat)
    requires k < |s|
    ensures multiset(s) == multiset(Without(s, k)) + multiset{s[k]}
    ensures multiset(Without(s, k)) == multiset(s) - multiset{s[k]}
  {
    assert s == s[..k] + [s[k]] + s[k + 1..];
  }

  lemma LoadsMinusOne(ks: seq<CheckKey>, k: nat)
    requires k < |ks|
    ensures multiset(Loads(ks)) == multiset(Loads(Without(ks, k))) + multiset{ks[k].load}
  {
    assert Without(Loads(ks), k) == Loads(Without(ks, k));
    MinusOne(Loads(ks), k);
  }

  /** Every key shows the expiry that is in memory. */
  ghost predicate Consistent(ks: seq<CheckKey>, expires: map<Check, int>) {
    forall k :: k in ks ==> k.stamp == Expiry(expires, k.load)
  }

  lemma ConsistentKeys(ks: seq<CheckKey>, expires: map<Check, int>)
    requires Consistent(ks, expires)
    ensures KeysInMemory(Loads(ks), expires) == ks
  {
    assert forall i :: 0 <= i < |ks| ==> ks[i] in ks;
  }

  lemma LoadsOfKeys(queue: seq<Check>, expires: map<Check, int>)
    ensures Loads(KeysInMemory(queue, expires)) == queue
    ensures Consistent(KeysInMemory(queue, expires), expires)
  {
  }

  /** Pushing onto the queue adds the check and keeps the order of the expiries in memory. */
  lemma PushedCorrect(queue: seq<Check>, expires: map<Check, int>, c: Check)
    requires H.IsHeap(ExpiresBefore, KeysInMemory(queue, expires))
    ensures multiset(Pushed(queue, expires, c)) == multiset(queue) + multiset{c}
    ensures H.IsHeap(ExpiresBefore, KeysInMemory(Pushed(queue, expires, c), expires))
  {
    var ks, x := KeysInMemory(queue, expires), Key(c, Expiry(expires, c));
    var r := H.Push(ExpiresBefore, ks, x);
    ExpiresBeforeIsStrictWeakOrder();
    H.PushCorrect(ExpiresBefore, ks, x);
    assert multiset(r) == multiset(ks + [x]);
    LoadsContent(r, ks + [x]);
    assert Loads(ks + [x]) == queue + [c];
    SameElements(r, ks + [x], expires);
    ConsistentKeys(r, expires);
  }

  lemma SameElements(r: seq<CheckKey>, s: seq<CheckKey>, expires: map<Check, int>)
    requires multiset(r) <= multiset(s) && Consistent(s, expires)
    ensures Consistent(r, expires)
  {
    forall k | k in r
      ensures k.stamp == Expiry(expires, k.load)
    {
      assert k in multiset(s);
    }
  }

  /** Taking one key out of the queue takes its check out of the slice. */
  lemma TakenCorrect(queue: seq<Check>, expires: map<Check, int>, r: seq<CheckKey>, x: CheckKey)
    requires multiset(KeysInMemory(queue, expires)) == multiset(r) + multiset{x}
    requires H.IsHeap(ExpiresBefore, r)
    ensures multiset(queue) == multiset(Loads(r)) + multiset{x.load}
    ensures H.IsHeap(ExpiresBefore, KeysInMemory(Loads(r), expires))
  {
    var ks := KeysInMemory(queue, expires);
    assert multiset(r + [x]) == multiset(ks);
    LoadsContent(r + [x], ks);
    assert Loads(r + [x]) == Loads(r) + [x.load];
    LoadsOfKeys(queue, expires);
    SameElements(r, ks, expires);
    ConsistentKeys(r, expires);
  }

  lemma PermutedCorrect(queue: seq<Check>, expires: map<Check, int>, r: seq<CheckKey>)
    requires multiset(KeysInMemory(queue, expires)) == multiset(r)
    requires H.IsHeap(ExpiresBefore, r)
    ensures multiset(queue) == multiset(Loads(r))
    ensures H.IsHeap(ExpiresBefore, KeysInMemory(Loads(r), expires))
  {
    LoadsContent(r, KeysInMemory(queue, expires));
    LoadsOfKeys(queue, expires);
    SameElements(r, KeysInMemory(queue, expires), expires);
    ConsistentKeys(r, expires);
  }
}
