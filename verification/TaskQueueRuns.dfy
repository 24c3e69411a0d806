/**
 * Whole histories of the task queue.  The operations are the ones the methods of
 * `TaskQueue.TaskQueue` are proved to perform on the keys of the slice.
 */
module TaskQueueRuns {
  import opened Protocol
  import opened IndexedHeap
  import opened TaskQueue
  import H = HeapSpec

  datatype Op =
    | Enqueue(app: Application, now: int)
    | Dequeue
    | DequeueFirst(shouldDequeue: TaskKey -> bool)

  /** The slice and the keys handed out so far, with the stamps they had in the queue. */
  datatype Outcome = Panic | Done(queue: seq<TaskKey>, out: seq<TaskKey>)

  function Step(q: seq<TaskKey>, op: Op): Outcome {
    match op
    case Enqueue(app, now) => Done(H.Push(TaskLess, q, Key(app, now)), [])
    case Dequeue => if q == [] then Panic else Done(H.Pop(TaskLess, q), [q[0]])
    case DequeueFirst(p) =>
      var k := FirstMatch(q, p);
      if k == |q| then Done(q, []) else Done(H.Remove(TaskLess, q, k), [q[k]])
  }

  function Run(q: seq<TaskKey>, ops: seq<Op>): Outcome
    decreases |ops|
  {
    if ops == [] then Done(q, [])
    else
      match Step(q, ops[0])
      case Panic => Panic
      case Done(q', out) =>
        match Run(q', ops[1..])
        case Panic => Panic
        case Done(q'', rest) => Done(q'', out + rest)
  }

  /** Everything a history puts into the queue. */
  function Enqueued(ops: seq<Op>): seq<TaskKey> {
    if ops == [] then []
    else (if ops[0].Enqueue? then [Key(ops[0].app, ops[0].now)] else []) + Enqueued(ops[1..])
  }

  lemma StepKeeps(q: seq<TaskKey>, op: Op)
    requires H.IsHeap(TaskLess, q) && Step(q, op).Done?
    ensures var r := Step(q, op);
            && H.IsHeap(TaskLess, r.queue)
            && multiset(r.queue) + multiset(r.out) == multiset(q) + multiset(Enqueued([op]))
  {
    TaskLessIsStrictWeakOrder();
    assert Enqueued([op][1..]) == [];
    match op
    case Enqueue(app, now) => H.PushCorrect(TaskLess, q, Key(app, now));
    case Dequeue => H.PopCorrect(TaskLess, q);
    case DequeueFirst(p) =>
      var k := FirstMatch(q, p);
      if k < |q| { H.RemoveCorrect(TaskLess, q, k); }
  }

  /** Every history keeps heap order and neither loses nor invents an item. */
  lemma {:induction false} RunKeeps(q: seq<TaskKey>, ops: seq<Op>)
    requires H.IsHeap(TaskLess, q) && Run(q, ops).Done?
    ensures H.IsHeap(TaskLess, Run(q, ops).queue)
    ensures multiset(Run(q, ops).queue) + multiset(Run(q, ops).out) == multiset(q) + multiset(Enqueued(ops))
    decreases |ops|
  {
    if ops != [] {
      var first := Step(q, ops[0]);
      StepKeeps(q, ops[0]);
      RunKeeps(first.queue, ops[1..]);
      var last := Run(first.queue, ops[1..]);
      assert Run(q, ops) == Done(last.queue, first.out + last.out);
      EnqueuedSplits(ops);
      Conserves(multiset(q), first.out, multiset(first.queue), last.out, multiset(last.queue),
                Enqueued([ops[0]]), Enqueued(ops[1..]));
    }
  }

  lemma EnqueuedSplits(ops: seq<Op>)
    requires ops != []
    ensures Enqueued(ops) == Enqueued([ops[0]]) + Enqueued(ops[1..])
  {
    assert Enqueued([ops[0]][1..]) == [];
  }

  /** Conservation composes. */
  lemma Conserves<K>(
    m0: multiset<K>, out1: seq<K>, m1: multiset<K>, out2: seq<K>, m2: multiset<K>, in1: seq<K>, in2: seq<K>)
    requires m1 + multiset(out1) == m0 + multiset(in1)
    requires m2 + multiset(out2) == m1 + multiset(in2)
    ensures m2 + multiset(out1 + out2) == m0 + multiset(in1 + in2)
  {
    calc {
      m2 + multiset(out1 + out2);
      (m2 + multiset(out2)) + multiset(out1);
      (m1 + multiset(out1)) + multiset(in2);
      m0 + multiset(in1 + in2);
    }
  }

  /** `a` is served no later than `b`. */
  predicate ServedBefore(a: TaskKey, b: TaskKey) {
    || a.load.cpus > b.load.cpus
    || (a.load.cpus == b.load.cpus && a.load.mem > b.load.mem)
    || (a.load.cpus == b.load.cpus && a.load.mem == b.load.mem && a.stamp <= b.stamp)
  }

  ghost predicate InServiceOrder(d: seq<TaskKey>) {
    forall i, j :: 0 <= i < j < |d| ==> ServedBefore(d[i], d[j])
  }

  /**
   * After any history from an empty queue, repeated Dequeue hands out exactly what is left,
   * by cpu, then memory, then time in the queue.
   */
  lemma DrainAfterRun(ops: seq<Op>, q: seq<TaskKey>, out: seq<TaskKey>)
    requires Run([], ops) == Done(q, out)
    ensures multiset(H.Drain(TaskLess, q)) + multiset(out) == multiset(Enqueued(ops))
    ensures InServiceOrder(H.Drain(TaskLess, q))
  {
    RunKeeps([], ops);
    TaskLessIsStrictWeakOrder();
    H.DrainSorts(TaskLess, q);
    assert multiset([]) + multiset(Enqueued(ops)) == multiset(Enqueued(ops));
  }

  /** Dequeue hands out an item that nothing queued has priority over. */
  lemma DequeueServesBest(q: seq<TaskKey>)
    requires H.IsHeap(TaskLess, q) && q != []
    ensures var r := Step(q, Dequeue);
            r.Done? && |r.out| == 1 && r.out[0] in q && forall k :: k in q ==> ServedBefore(r.out[0], k)
  {
    TaskLessIsStrictWeakOrder();
    forall k | k in q
      ensures ServedBefore(q[0], k)
    {
      var i :| 0 <= i < |q| && q[i] == k;
      H.RootIsLeast(TaskLess, q, i);
    }
  }

  /** DequeueFirst hands out the first match, or nothing when there is none. */
  lemma DequeueFirstServes(q: seq<TaskKey>, p: TaskKey -> bool)
    ensures var r := Step(q, DequeueFirst(p));
            && r.Done?
            && (r.out == [] <==> forall i :: 0 <= i < |q| ==> !p(q[i]))
            && (r.out == [] ==> r.queue == q)
            && (r.out != [] ==> exists k :: 0 <= k < |q| && r.out == [q[k]] && p(q[k]) &&
                                              forall j :: 0 <= j < k ==> !p(q[j]))
  {
    var k := FirstMatch(q, p);
    if k < |q| { assert Step(q, DequeueFirst(p)).out == [q[k]]; }
  }

  /** So many calls of Dequeue. */
  function Dequeues(n: nat): (ops: seq<Op>)
    ensures |ops| == n
  {
    if n == 0 then [] else [Dequeue] + Dequeues(n - 1)
  }

  /** Draining a queue is calling Dequeue as often as it has items. */
  lemma {:induction false} DrainIsDequeues(q: seq<TaskKey>)
    ensures Run(q, Dequeues(|q|)) == Done([], H.Drain(TaskLess, q))
    decreases |q|
  {
    if q != [] {
      var rest := H.Pop(TaskLess, q);
      DrainIsDequeues(rest);
      assert Dequeues(|q|)[1..] == Dequeues(|rest|) && Dequeues(|q|)[0] == Dequeue;
    }
  }

  // ---------- DequeueFirst and priority ----------

  /** Slot `a` lies on the path from slot `k` to the root. */
  predicate Above(a: nat, k: nat) {
    k > 0 && (H.Parent(k) == a || Above(a, H.Parent(k)))
  }

  /** The match DequeueFirst takes has no matching heap ancestor. */
  lemma {:induction false} NoMatchAbove(q: seq<TaskKey>, p: TaskKey -> bool, a: nat, k: nat)
    requires k <= FirstMatch(q, p) < |q| && Above(a, k)
    ensures a < k && !p(q[a])
    decreases k
  {
    if H.Parent(k) != a { NoMatchAbove(q, p, a, H.Parent(k)); }
  }
}
