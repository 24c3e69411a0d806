/**
 * Calls of the task manager that overlap.  Neither the manager nor the SLA monitor holds a
 * lock: a call reads the store, reads the queue, and acts on what it read, while other calls
 * do the same.  Here every single access to the task store or to the queue is a step of its
 * own, and the steps of any number of calls interleave.  Health checks are left aside.
 */
module OverlappingCalls {
  import opened Protocol
  import opened IndexedHeap
  import opened TaskStore
  import opened Sla
  import H = HeapSpec
  import TQ = TaskQueue
  import D = Deployments
  import Builders
  import Messages

  // ---------- Calls in progress ----------

  /** What a call in progress does next, and what it has read so far. */
  datatype Call =
    /** `scheduleAppForDeployment`, for a replacement or not, is about to read the number of started tasks. */
    | Scheduling(app: Application, replacing: bool)
    /** It has read it, and is about to count the queue and decide. */
    | Counting(app: Application, replacing: bool, started: nat)
    /** It has decided that one more instance may be queued. */
    | Accepted(app: Application, replacing: bool)
    /** `updateStatus` has read a record; `found` is what the application store answers. */
    | Fetched(record: Deployment, status: AppStatus, found: Option<Application>)
    /** It has saved the status, and is about to ask whether a replacement is needed. */
    | Updated(app: Application)
    | Needing(app: Application, started: nat)
    /** `FulfillOffer` has dequeued an application and is about to store this record. */
    | Holding(record: Deployment)

  datatype State = State(store: DeploymentMap, queue: seq<TQ.TaskKey>, calls: map<nat, Call>)

  datatype Event =
    | Submit(c: nat, app: Application)
    | Update(c: nat, taskId: string, status: AppStatus, found: Option<Application>)
    /** Building the message reads nothing shared: its port mapping is an input. */
    | Offered(c: nat, offer: Offer, id: string, portMapping: seq<PortMapping>)
    /** The call `c` makes its next step. */
    | Advance(c: nat, now: int)
    | Forget(taskId: string)

  function Goes(st: State, c: nat, to: Call): State {
    st.(calls := st.calls[c := to])
  }

  function Ends(st: State, c: nat): State {
    st.(calls := st.calls - {c})
  }

  function Next(st: State, c: nat, now: int): State
    requires c in st.calls
  {
    match st.calls[c]
    case Scheduling(app, replacing) =>
      if !app.active then Ends(st, c)
      else if app.sla.None? then Goes(st, c, Accepted(app, replacing))
      else Goes(st, c, Counting(app, replacing, Count(st.store, app.id, {STARTED})))
    case Counting(app, replacing, started) =>
      if app.sla.Some? && started + TQ.CountFor(st.queue, app.id) < app.sla.value.maxInstances then
        Goes(st, c, Accepted(app, replacing))
      else Ends(st, c)
    case Accepted(app, replacing) => Ends(st, c).(queue := H.Push(TQ.TaskLess, st.queue, Key(app, now)))
    case Fetched(d, status, found) =>
      var saved := st.(store := st.store[d.taskId := d.(status := status)]);
      if found.Some? then Goes(saved, c, Updated(found.value)) else Ends(saved, c)
    case Updated(app) =>
      if app.active then Goes(st, c, Needing(app, Count(st.store, app.id, {STARTED}))) else Ends(st, c)
    case Needing(app, started) =>
      if app.sla.Some? && started + TQ.CountFor(st.queue, app.id) < app.sla.value.minInstances then
        Goes(st, c, Scheduling(app, true))
      else Ends(st, c)
    case Holding(d) => Ends(st, c).(store := st.store[d.taskId := d])
  }

  /** One step; an event that is not enabled changes nothing. */
  function Step(st: State, ev: Event): State {
    match ev
    case Submit(c, app) => if c in st.calls then st else Goes(st, c, Scheduling(app, false))
    case Update(c, taskId, status, found) =>
      if c in st.calls || taskId !in st.store then st else Goes(st, c, Fetched(st.store[taskId], status, found))
    case Offered(c, offer, id, portMapping) =>
      var k := D.FirstFit(st.queue, offer);
      if c in st.calls || k >= |st.queue| then st
      else
        var d := Deployment(st.queue[k].load.id, D.TaskId(id), DEPLOYING, offer.hostName, portMapping);
        Goes(st, c, Holding(d)).(queue := H.Remove(TQ.TaskLess, st.queue, k))
    case Advance(c, now) => if c in st.calls then Next(st, c, now) else st
    case Forget(taskId) => st.(store := st.store - {taskId})
  }

  ghost predicate IsRun(states: seq<State>, events: seq<Event>) {
    && |states| == |events| + 1
    && forall i :: 0 <= i < |events| ==> Steps(states[i], events[i], states[i + 1])
  }

  ghost predicate Steps(st: State, ev: Event, next: State) {
    next == Step(st, ev)
  }

  lemma RunPrefix(states: seq<State>, events: seq<Event>)
    requires IsRun(states, events) && events != []
    ensures var n := |events| - 1; IsRun(states[..n + 1], events[..n])
  {
  }

  // ---------- Calls one after the other ----------

  /** A call runs to its end, or for this many steps, with nothing in between. */
  function Finish(st: State, c: nat, now: int, steps: nat): State
    decreases steps
  {
    if steps == 0 || c !in st.calls then st else Finish(Next(st, c, now), c, now, steps - 1)
  }

  /** The manager's data as the atomic steps see it, with these applications and checks. */
  function Alone(st: State, m: D.State): D.State {
    m.(store := st.store, queue := st.queue)
  }

  lemma SchedulesAlone(st: State, m: D.State, c: nat, app: Application, now: int, steps: nat)
    requires c in st.calls && st.calls[c].Scheduling? && st.calls[c].app == app && steps >= 3
    ensures Finish(st, c, now, steps) ==
            State(st.store, D.Schedule(Alone(st, m), app, now).0.queue, st.calls - {c})
  {
    hide H.Push, Count;
    var one := Next(st, c, now);
    assert Finish(st, c, now, steps) == Finish(one, c, now, steps - 1);
    if app.active {
      var two := Next(one, c, now);
      assert Finish(one, c, now, steps - 1) == Finish(two, c, now, steps - 2);
      assert two.calls - {c} == st.calls - {c} == one.calls - {c};
      if app.sla.Some? && c in two.calls {
        var three := Next(two, c, now);
        assert Finish(two, c, now, steps - 2) == Finish(three, c, now, steps - 3);
        assert three.calls == st.calls - {c};
      }
    }
  }

  /** A submission that nothing overlaps performs the scheduling step. */
  lemma SubmitsAlone(st: State, m: D.State, c: nat, app: Application, now: int)
    requires c !in st.calls
    ensures Finish(Step(st, Submit(c, app)), c, now, 3) ==
            State(st.store, D.Schedule(Alone(st, m), app, now).0.queue, st.calls)
  {
    hide D.Schedule;
    var one := Step(st, Submit(c, app));
    assert one.calls - {c} == st.calls;
    SchedulesAlone(one, m, c, app, now, 3);
  }

  lemma SchedulingQueues(m: D.State, app: Application, now: int)
    ensures D.Schedule(m, app, now).0 == m.(queue := D.Schedule(m, app, now).0.queue)
  {
  }

  /** A status update that nothing overlaps performs the status step. */
  lemma UpdatesAlone(st: State, m: D.State, c: nat, taskId: string, status: AppStatus, checkable: bool, now: int)
    requires c !in st.calls && WellKeyed(st.store)
    ensures var found := if taskId in st.store && st.store[taskId].appId in m.apps
                         then Some(m.apps[st.store[taskId].appId]) else None;
            var next := D.UpdateStatus(Alone(st, m), taskId, status, checkable, now).0;
            Finish(Step(st, Update(c, taskId, status, found)), c, now, 6) == State(next.store, next.queue, st.calls)
  {
    hide D.Schedule, Count, D.Recheck, NeedsMoreInstances, CanDeployMoreInstances;
    if taskId in st.store {
      var a := st.store[taskId].appId;
      var found := if a in m.apps then Some(m.apps[a]) else None;
      var one := Step(st, Update(c, taskId, status, found));
      var two := Next(one, c, now);
      assert Finish(one, c, now, 6) == Finish(two, c, now, 5);
      assert one.calls - {c} == st.calls;
      if found.Some? {
        NeedsAlone(two, m, c, found.value, now);
        SchedulingQueues(Alone(two, m), found.value, now);
        assert two.calls - {c} == st.calls;
      }
    }
  }

  lemma NeedsAlone(st: State, m: D.State, c: nat, app: Application, now: int)
    requires c in st.calls && st.calls[c] == Updated(app)
    ensures var queue := if NeedsMoreInstances(st.store, st.queue, app)
                         then D.Schedule(Alone(st, m), app, now).0.queue else st.queue;
            Finish(st, c, now, 5) == State(st.store, queue, st.calls - {c})
  {
    hide D.Schedule, Count;
    var one := Next(st, c, now);
    assert Finish(st, c, now, 5) == Finish(one, c, now, 4);
    if app.active {
      var two := Next(one, c, now);
      assert Finish(one, c, now, 4) == Finish(two, c, now, 3);
      assert two.calls - {c} == st.calls - {c} == one.calls - {c};
      if c in two.calls { SchedulesAlone(two, m, c, app, now, 3); }
    }
  }

  /** An offer that nothing overlaps performs the offer step, when the guard lets it. */
  lemma FulfillsAlone(st: State, m: D.State, c: nat, offer: Offer, id: string, pick: nat, now: int)
    requires c !in st.calls && Builders.CanPick(offer, 0)
    requires D.Fulfill(Alone(st, m), offer, true, id, pick).Next?
    ensures var next := D.Fulfill(Alone(st, m), offer, true, id, pick).state;
            var mapping := if D.TaskId(id) in next.store then next.store[D.TaskId(id)].portMapping else [];
            Finish(Step(st, Offered(c, offer, id, mapping)), c, now, 1) == State(next.store, next.queue, st.calls)
  {
    hide H.Remove, D.FirstFit, Messages.PortMappings, Builders.PickPorts;
    var next := D.Fulfill(Alone(st, m), offer, true, id, pick).state;
    var mapping := if D.TaskId(id) in next.store then next.store[D.TaskId(id)].portMapping else [];
    var one := Step(st, Offered(c, offer, id, mapping));
    if c in one.calls {
      assert Finish(one, c, now, 1) == Finish(Next(one, c, now), c, now, 0);
      assert one.calls - {c} == st.calls;
    }
  }

  /** Forgetting a task drops its record, as the atomic step does. */
  lemma ForgetsAlone(st: State, m: D.State, t: string)
    ensures D.Step(Alone(st, m), D.Forget(t)) ==
            D.Next(Alone(Step(st, Forget(t)), m).(checks := m.checks - {t}), [])
  {
  }

  // ---------- Counting ----------

  /** The calls in such a state. */
  function CallsWith(calls: map<nat, Call>, p: Call -> bool): set<nat> {
    set c | c in calls && p(calls[c])
  }

  function CountCalls(calls: map<nat, Call>, p: Call -> bool): nat {
    |CallsWith(calls, p)|
  }

  lemma CallEnds(calls: map<nat, Call>, c: nat, p: Call -> bool)
    ensures CountCalls(calls - {c}, p) + Indicator(c in calls && p(calls[c])) == CountCalls(calls, p)
  {
    assert CallsWith(calls - {c}, p) == CallsWith(calls, p) - {c};
    Separate(CallsWith(calls, p), c);
  }

  lemma CallGoes(calls: map<nat, Call>, c: nat, to: Call, p: Call -> bool)
    ensures CountCalls(calls[c := to], p) + Indicator(c in calls && p(calls[c])) ==
            CountCalls(calls, p) + Indicator(p(to))
  {
    CallEnds(calls, c, p);
    CallEnds(calls[c := to], c, p);
    assert calls[c := to] - {c} == calls - {c};
  }

  /** A step changes the state of one call. */
  lemma CallsCount(st: State, ev: Event, p: Call -> bool)
    requires !ev.Forget?
    ensures var next := Step(st, ev);
            CountCalls(next.calls, p) + Indicator(ev.c in st.calls && p(st.calls[ev.c])) ==
            CountCalls(st.calls, p) + Indicator(ev.c in next.calls && p(next.calls[ev.c]))
  {
    hide CountCalls, H.Push, H.Remove, Count, TQ.CountFor, D.FirstFit;
    var next := Step(st, ev);
    CallEnds(st.calls, ev.c, p);
    if ev.c in next.calls { CallGoes(st.calls, ev.c, next.calls[ev.c], p); }
    assert ev.c in next.calls ==> next.calls == st.calls || next.calls == st.calls[ev.c := next.calls[ev.c]];
  }

  /** The call has decided to queue an instance of the application. */
  predicate Accepts(call: Call, a: string) {
    call.Accepted? && call.app.id == a
  }

  /** How many instances of the application are about to be queued. */
  function Waiting(st: State, a: string): nat {
    CountCalls(st.calls, (call: Call) => Accepts(call, a))
  }

  /** The call has taken an instance of the application and not stored its record yet. */
  predicate Holds(call: Call, a: string) {
    call.Holding? && call.record.appId == a
  }

  /** How many instances are on their way from the queue to the store. */
  function Held(st: State, a: string): nat {
    CountCalls(st.calls, (call: Call) => Holds(call, a))
  }

  /** Started and queued instances. */
  function Instances(st: State, a: string): nat {
    Running(st.store, st.queue, a)
  }

  predicate Moves(st: State, ev: Event) {
    ev.Advance? && ev.c in st.calls
  }

  /** The step queues an instance of the application. */
  predicate Enqueues(st: State, ev: Event, a: string) {
    Moves(st, ev) && Accepts(st.calls[ev.c], a)
  }

  /** The step decides to queue an instance of the application. */
  predicate Decides(st: State, ev: Event, a: string) {
    Moves(st, ev) && ev.c in Step(st, ev).calls && Accepts(Step(st, ev).calls[ev.c], a)
  }

  /** The step stores a new record of the application. */
  predicate Records(st: State, ev: Event, a: string) {
    Moves(st, ev) && Holds(st.calls[ev.c], a)
  }

  /** The step takes an instance of the application out of the queue. */
  predicate Takes(st: State, ev: Event, a: string) {
    && ev.Offered? && ev.c !in st.calls
    && var k := D.FirstFit(st.queue, ev.offer); k < |st.queue| && st.queue[k].load.id == a
  }

  /** The step stores a task of the application as started that was not. */
  predicate Starts(st: State, ev: Event, a: string) {
    && Moves(st, ev) && st.calls[ev.c].Fetched?
    && var d := st.calls[ev.c].record;
       && st.calls[ev.c].status == STARTED && d.appId == a
       && !(d.taskId in st.store && Counts(st.store[d.taskId], a, {STARTED}))
  }

  lemma WaitingCounts(st: State, ev: Event, a: string)
    ensures Waiting(Step(st, ev), a) + Indicator(Enqueues(st, ev, a)) == Waiting(st, a) + Indicator(Decides(st, ev, a))
  {
    hide CountCalls, H.Push, H.Remove, Count, TQ.CountFor, D.FirstFit;
    if !ev.Forget? {
      CallsCount(st, ev, (call: Call) => Accepts(call, a));
      DecidesWhenAccepted(st, ev, a);
    }
  }

  lemma DecidesWhenAccepted(st: State, ev: Event, a: string)
    requires !ev.Forget?
    ensures var next := Step(st, ev);
            && Indicator(ev.c in st.calls && Accepts(st.calls[ev.c], a)) + Indicator(Decides(st, ev, a)) ==
               Indicator(Enqueues(st, ev, a)) + Indicator(ev.c in next.calls && Accepts(next.calls[ev.c], a))
  {
    hide H.Push, H.Remove, Count, TQ.CountFor, D.FirstFit;
  }

  lemma QueueCounts(st: State, ev: Event, a: string)
    requires H.IsHeap(TQ.TaskLess, st.queue)
    ensures var next := Step(st, ev);
            && H.IsHeap(TQ.TaskLess, next.queue)
            && TQ.CountFor(next.queue, a) + Indicator(Takes(st, ev, a)) ==
               TQ.CountFor(st.queue, a) + Indicator(Enqueues(st, ev, a))
            && (Decides(st, ev, a) ==> next.queue == st.queue)
  {
    hide H.Push, H.Remove, Count, D.FirstFit, H.IsHeap;
    if Moves(st, ev) && st.calls[ev.c].Accepted? {
      D.PushCounts(st.queue, Key(st.calls[ev.c].app, ev.now), a);
    } else if ev.Offered? {
      var k := D.FirstFit(st.queue, ev.offer);
      if k < |st.queue| { D.RemoveCounts(st.queue, k, a); }
    }
  }

  lemma HeldChanges(st: State, ev: Event, a: string)
    ensures Held(Step(st, ev), a) + Indicator(Records(st, ev, a)) == Held(st, a) + Indicator(Takes(st, ev, a))
  {
    hide CountCalls, H.Push, H.Remove, Count, TQ.CountFor, D.FirstFit;
    if !ev.Forget? {
      CallsCount(st, ev, (call: Call) => Holds(call, a));
      HeldCall(st, ev, a);
    }
  }

  lemma HeldCall(st: State, ev: Event, a: string)
    requires !ev.Forget?
    ensures var next := Step(st, ev);
            && Indicator(ev.c in st.calls && Holds(st.calls[ev.c], a)) + Indicator(Takes(st, ev, a)) ==
               Indicator(Records(st, ev, a)) + Indicator(ev.c in next.calls && Holds(next.calls[ev.c], a))
  {
    hide H.Push, H.Remove, Count, TQ.CountFor, D.FirstFit;
  }

  lemma StoreCounts(st: State, ev: Event, a: string)
    requires forall c :: c in st.calls && st.calls[c].Holding? ==> st.calls[c].record.status == DEPLOYING
    ensures var next := Step(st, ev);
            && Count(next.store, a, {STARTED}) <= Count(st.store, a, {STARTED}) + Indicator(Starts(st, ev, a))
            && (Decides(st, ev, a) ==> next.store == st.store)
  {
    hide H.Push, H.Remove, TQ.CountFor, D.FirstFit, Count;
    if ev.Forget? {
      CountAfterDelete(st.store, ev.taskId, a, {STARTED});
    } else if Moves(st, ev) {
      match st.calls[ev.c]
      case Fetched(d, status, found) => CountAfterSave(st.store, d.taskId, d.(status := status), a, {STARTED});
      case Holding(d) => CountAfterSave(st.store, d.taskId, d, a, {STARTED});
      case _ =>
    }
  }

  // ---------- Conservation when calls overlap ----------

  function Enqueued(states: seq<State>, events: seq<Event>, a: string): nat
    requires |events| <= |states|
  {
    if events == [] then 0
    else
      var n := |events| - 1;
      Enqueued(states, events[..n], a) + Indicator(Enqueues(states[n], events[n], a))
  }

  function Recorded(states: seq<State>, events: seq<Event>, a: string): nat
    requires |events| <= |states|
  {
    if events == [] then 0
    else
      var n := |events| - 1;
      Recorded(states, events[..n], a) + Indicator(Records(states[n], events[n], a))
  }

  lemma {:induction false} MovedPrefix(states: seq<State>, events: seq<Event>, m: nat, a: string)
    requires |events| <= m <= |states|
    ensures Enqueued(states[..m], events, a) == Enqueued(states, events, a)
    ensures Recorded(states[..m], events, a) == Recorded(states, events, a)
    decreases |events|
  {
    hide Enqueues, Records;
    if events != [] { MovedPrefix(states, events[..|events| - 1], m, a); }
  }

  /** Over every interleaving what was enqueued is queued, held by a call, or recorded as launched. */
  lemma {:induction false} RunConserves(states: seq<State>, events: seq<Event>, a: string)
    requires IsRun(states, events) && H.IsHeap(TQ.TaskLess, states[0].queue)
    ensures var last := states[|events|];
            && H.IsHeap(TQ.TaskLess, last.queue)
            && TQ.CountFor(last.queue, a) + Held(last, a) + Recorded(states, events, a) ==
               TQ.CountFor(states[0].queue, a) + Held(states[0], a) + Enqueued(states, events, a)
    decreases |events|
  {
    hide Step, Held, Enqueues, Records, Takes, H.IsHeap;
    if events != [] {
      var n := |events| - 1;
      RunPrefix(states, events);
      RunConserves(states[..n + 1], events[..n], a);
      MovedPrefix(states, events[..n], n + 1, a);
      assert Steps(states[n], events[n], states[n + 1]);
      QueueCounts(states[n], events[n], a);
      HeldChanges(states[n], events[n], a);
    }
  }

  // ---------- The maximum when calls overlap ----------

  /** The application keeps its definition. */
  predicate Keeps(app: Application, x: Application) {
    x.id == app.id ==> x == app
  }

  predicate EventKeeps(ev: Event, app: Application) {
    match ev
    case Submit(c, x) => Keeps(app, x)
    case Update(c, taskId, status, found) => found.Some? ==> Keeps(app, found.value)
    case _ => true
  }

  predicate CallKeeps(call: Call, app: Application) {
    match call
    case Fetched(record, status, found) => found.Some? ==> Keeps(app, found.value)
    case Holding(record) => record.status == DEPLOYING
    case _ => Keeps(app, call.app)
  }

  /** The queue is in order and all calls know the same definition of the application. */
  ghost predicate Regular(st: State, app: Application) {
    && H.IsHeap(TQ.TaskLess, st.queue)
    && forall c :: c in st.calls ==> CallKeeps(st.calls[c], app)
  }

  lemma StepKeepsRegular(st: State, ev: Event, app: Application)
    requires Regular(st, app) && EventKeeps(ev, app)
    ensures Regular(Step(st, ev), app)
  {
    hide H.Push, H.Remove, Count, TQ.CountFor, D.FirstFit, H.IsHeap;
    QueueCounts(st, ev, app.id);
  }

  function Began(states: seq<State>, events: seq<Event>, a: string): nat
    requires |events| <= |states|
  {
    if events == [] then 0
    else
      var n := |events| - 1;
      Began(states, events[..n], a) + Indicator(Starts(states[n], events[n], a))
  }

  lemma {:induction false} BeganPrefix(states: seq<State>, events: seq<Event>, m: nat, a: string)
    requires |events| <= m <= |states|
    ensures Began(states[..m], events, a) == Began(states, events, a)
    decreases |events|
  {
    hide Starts;
    if events != [] { BeganPrefix(states, events[..|events| - 1], m, a); }
  }

  /** A run from a state without calls in progress, under one definition of the application. */
  ghost predicate IsRunWith(states: seq<State>, events: seq<Event>, app: Application) {
    && IsRun(states, events) && H.IsHeap(TQ.TaskLess, states[0].queue) && states[0].calls == map[]
    && forall i :: 0 <= i < |events| ==> EventKeeps(events[i], app)
  }

  lemma RunWithPrefix(states: seq<State>, events: seq<Event>, app: Application)
    requires IsRunWith(states, events, app) && events != []
    ensures var n := |events| - 1;
            && IsRunWith(states[..n + 1], events[..n], app)
            && Steps(states[n], events[n], states[n + 1]) && EventKeeps(events[n], app)
  {
    RunPrefix(states, events);
  }

  lemma StartsDoNotEnqueue(st: State, ev: Event, a: string)
    ensures !(Starts(st, ev, a) && Enqueues(st, ev, a))
  {
  }

  // ---------- How far overlapping calls can exceed it ----------

  /** What calls have read is off by no more than the tasks started since, and instances stay within a limit. */
  ghost predicate Within(st: State, app: Application, limit: int, began: nat) {
    && Instances(st, app.id) + Waiting(st, app.id) <= limit + began
    && forall c :: c in st.calls && st.calls[c].Counting? && st.calls[c].app == app ==>
         Count(st.store, app.id, {STARTED}) <= st.calls[c].started + began
  }

  /** A decision was made on a count that the maximum allowed. */
  lemma DecisionIsAllowed(st: State, ev: Event, app: Application)
    requires Regular(st, app) && app.sla.Some? && Decides(st, ev, app.id)
    ensures st.calls[ev.c].Counting? && st.calls[ev.c].app == app
    ensures st.calls[ev.c].started + TQ.CountFor(st.queue, app.id) < app.sla.value.maxInstances
  {
    hide Count, TQ.CountFor, H.Push, H.IsHeap;
  }

  lemma StepKeepsWithin(st: State, ev: Event, app: Application, limit: int, began: nat, overlap: nat)
    requires Regular(st, app) && EventKeeps(ev, app) && app.sla.Some? && Within(st, app, limit, began)
    requires app.sla.value.maxInstances - 1 + overlap <= limit && Waiting(Step(st, ev), app.id) <= overlap
    ensures Within(Step(st, ev), app, limit, began + Indicator(Starts(st, ev, app.id)))
  {
    var next := Step(st, ev);
    WaitingCounts(st, ev, app.id);
    QueueCounts(st, ev, app.id);
    StoreCounts(st, ev, app.id);
    StartsDoNotEnqueue(st, ev, app.id);
    if Decides(st, ev, app.id) {
      DecisionIsAllowed(st, ev, app);
    }
    NewReadings(st, ev, app);
    hide Step, H.IsHeap, Starts, Enqueues, Decides, Count, TQ.CountFor, Waiting;
  }

  /** A call that has just read the number of started tasks has read the current one. */
  lemma NewReadings(st: State, ev: Event, app: Application)
    ensures var next := Step(st, ev);
            forall c :: c in next.calls && next.calls[c].Counting? && next.calls[c].app == app ==>
              || (c in st.calls && next.calls[c] == st.calls[c])
              || next.calls[c].started == Count(next.store, app.id, {STARTED})
  {
    hide Count, TQ.CountFor, H.Push, H.Remove, D.FirstFit;
  }

  function Larger(x: int, y: int): int {
    if x < y then y else x
  }

  lemma StartsWithin(st: State, app: Application, limit: int)
    requires st.calls == map[] && Instances(st, app.id) <= limit
    ensures Within(st, app, limit, 0)
  {
    assert CallsWith(st.calls, (call: Call) => Accepts(call, app.id)) == {};
  }

  lemma {:induction false} RunStaysWithin(
    states: seq<State>, events: seq<Event>, app: Application, overlap: nat, limit: int)
    requires IsRunWith(states, events, app) && app.sla.Some?
    requires forall i :: 0 <= i <= |events| ==> Waiting(states[i], app.id) <= overlap
    requires Instances(states[0], app.id) <= limit && app.sla.value.maxInstances - 1 + overlap <= limit
    ensures Regular(states[|events|], app) && Within(states[|events|], app, limit, Began(states, events, app.id))
    decreases |events|
  {
    hide Step, Starts, Waiting, Within;
    if events == [] {
      StartsWithin(states[0], app, limit);
    } else {
      var n := |events| - 1;
      RunWithPrefix(states, events, app);
      RunStaysWithin(states[..n + 1], events[..n], app, overlap, limit);
      BeganPrefix(states, events[..n], n + 1, app.id);
      StepKeepsRegular(states[n], events[n], app);
      StepKeepsWithin(states[n], events[n], app, limit, Began(states, events[..n], app.id), overlap);
    }
  }

  /**
   * If never more than `overlap` calls stand between their decision and their enqueueing,
   * started and queued instances exceed the maximum by less than that, plus the tasks started.
   * With one such call at a time this is the bound of the atomic steps.
   */
  lemma RunExceedsByOverlap(states: seq<State>, events: seq<Event>, app: Application, overlap: nat)
    requires IsRunWith(states, events, app) && app.sla.Some?
    requires forall i :: 0 <= i <= |events| ==> Waiting(states[i], app.id) <= overlap
    ensures Instances(states[|events|], app.id) <=
            Larger(Instances(states[0], app.id), app.sla.value.maxInstances - 1 + overlap) +
            Began(states, events, app.id)
  {
    hide Step;
    RunStaysWithin(states, events, app, overlap,
      Larger(Instances(states[0], app.id), app.sla.value.maxInstances - 1 + overlap));
  }

  // ---------- Two calls that overlap ----------

  lemma {:induction false} NothingBegan(states: seq<State>, events: seq<Event>, a: string)
    requires |events| <= |states|
    requires forall i :: 0 <= i < |events| ==> !Starts(states[i], events[i], a)
    ensures Began(states, events, a) == 0
    decreases |events|
  {
    if events != [] { NothingBegan(states, events[..|events| - 1], a); }
  }

  /** A queue of so many instances with the same key. */
  function Copies(x: TQ.TaskKey, n: nat): (q: seq<TQ.TaskKey>)
    ensures |q| == n && forall i :: 0 <= i < n ==> q[i] == x
  {
    seq(n, i => x)
  }

  lemma CopiesPush(x: TQ.TaskKey, n: nat)
    ensures H.Push(TQ.TaskLess, Copies(x, n), x) == Copies(x, n + 1)
    ensures H.IsHeap(TQ.TaskLess, Copies(x, n))
  {
    assert Copies(x, n) + [x] == Copies(x, n + 1);
  }

  lemma {:induction false} CopiesCount(x: TQ.TaskKey, n: nat)
    ensures TQ.CountFor(Copies(x, n), x.load.id) == n
  {
    if n > 0 {
      CopiesCount(x, n - 1);
      assert Copies(x, n)[..n - 1] == Copies(x, n - 1);
    }
  }

  /** The events of two submissions that both read the counts before either enqueues. */
  function TwoSubmissions(app: Application): seq<Event> {
    [Submit(0, app), Submit(1, app), Advance(0, 0), Advance(1, 0),
     Advance(0, 0), Advance(1, 0), Advance(0, 0), Advance(1, 0)]
  }

  /** The states these events pass through, from a queue of so many instances and no started task. */
  function SubmissionStates(app: Application, queued: nat): (states: seq<State>)
    ensures |states| == 9
  {
    var asks, counts, accepts := Scheduling(app, false), Counting(app, false, 0), Accepted(app, false);
    var s: seq<map<nat, Call>> := [
      map[], map[0 := asks], map[0 := asks, 1 := asks], map[0 := counts, 1 := asks], map[0 := counts, 1 := counts],
      map[0 := accepts, 1 := counts], map[0 := accepts, 1 := accepts], map[1 := accepts], map[]];
    seq(9, i requires 0 <= i < 9 =>
      State(map[], Copies(Key(app, 0), if i < 7 then queued else queued + i - 6), s[i]))
  }

  lemma SubmissionsRun(app: Application, queued: nat)
    requires app.active && app.sla.Some? && app.sla.value.maxInstances == queued + 1
    ensures IsRun(SubmissionStates(app, queued), TwoSubmissions(app))
  {
    hide Count, H.Push;
    NothingCounted(app.id, {STARTED});
    CopiesCount(Key(app, 0), queued);
    CopiesPush(Key(app, 0), queued);
    CopiesPush(Key(app, 0), queued + 1);
  }

  lemma TwoCallsWait(st: State, a: string)
    requires st.calls.Keys <= {0, 1}
    ensures Waiting(st, a) <= 2
  {
    var s := CallsWith(st.calls, (call: Call) => Accepts(call, a));
    Subset(s, {0, 1});
  }

  /** One instance below the maximum, two overlapping submissions are both queued. */
  lemma TwoSubmissionsExceed(app: Application) returns (states: seq<State>)
    requires app.active && app.sla.Some? && app.sla.value.maxInstances >= 1
    ensures IsRunWith(states, TwoSubmissions(app), app) && states[8].calls == map[]
    ensures states[0] == State(map[], Copies(Key(app, 0), app.sla.value.maxInstances - 1), map[])
    ensures Instances(states[0], app.id) == app.sla.value.maxInstances - 1
    ensures Instances(states[8], app.id) == app.sla.value.maxInstances + 1
    ensures Began(states, TwoSubmissions(app), app.id) == 0
    ensures forall i :: 0 <= i <= 8 ==> Waiting(states[i], app.id) <= 2
  {
    var n := app.sla.value.maxInstances - 1;
    states := SubmissionStates(app, n);
    SubmissionsRun(app, n);
    NothingBegan(states, TwoSubmissions(app), app.id);
    forall i | 0 <= i <= 8
      ensures Waiting(states[i], app.id) <= 2
    {
      TwoCallsWait(states[i], app.id);
    }
    NothingCounted(app.id, {STARTED});
    CopiesPush(Key(app, 0), n);
    CopiesCount(Key(app, 0), n);
    CopiesCount(Key(app, 0), n + 2);
    hide Count, TQ.CountFor, H.IsHeap, IsRun, Waiting, Began;
  }

  // ---------- When the maximum is kept ----------

  /**
   * From at most the maximum, no run in which no task starts and no more than `overlap` calls
   * at a time stand between their decision and their enqueueing ends above the maximum.
   */
  ghost predicate KeepsMaximum(app: Application, overlap: nat)
    requires app.sla.Some?
  {
    forall states, events :: IsRunWith(states, events, app) && MostWaiting(states, events, app, overlap) ==>
      Instances(states[|events|], app.id) <= app.sla.value.maxInstances
  }

  ghost predicate MostWaiting(states: seq<State>, events: seq<Event>, app: Application, overlap: nat)
    requires IsRun(states, events) && app.sla.Some?
  {
    && Instances(states[0], app.id) <= app.sla.value.maxInstances && Began(states, events, app.id) == 0
    && forall i :: 0 <= i <= |events| ==> Waiting(states[i], app.id) <= overlap
  }

  /** No call has decided to queue an instance; for an inactive application none has even counted. */
  ghost predicate Idle(st: State, app: Application) {
    forall c :: c in st.calls ==>
      !Accepts(st.calls[c], app.id) && (!app.active ==> !(st.calls[c].Counting? && st.calls[c].app == app))
  }

  lemma StepStaysIdle(st: State, ev: Event, app: Application)
    requires Regular(st, app) && app.sla.Some? && (!app.active || app.sla.value.maxInstances <= 0) && Idle(st, app)
    ensures Idle(Step(st, ev), app)
  {
    hide H.Push, H.Remove, Count, TQ.CountFor, D.FirstFit, H.IsHeap;
  }

  /** An application that is inactive or allows no instance never waits to be queued. */
  lemma {:induction false} RunStaysIdle(states: seq<State>, events: seq<Event>, app: Application)
    requires IsRunWith(states, events, app) && app.sla.Some? && (!app.active || app.sla.value.maxInstances <= 0)
    ensures Regular(states[|events|], app) && Idle(states[|events|], app) && Waiting(states[|events|], app.id) == 0
    decreases |events|
  {
    hide Step, H.IsHeap;
    if events != [] {
      var n := |events| - 1;
      RunWithPrefix(states, events, app);
      RunStaysIdle(states[..n + 1], events[..n], app);
      StepKeepsRegular(states[n], events[n], app);
      StepStaysIdle(states[n], events[n], app);
    }
    assert CallsWith(states[|events|].calls, (call: Call) => Accepts(call, app.id)) == {};
  }

  lemma IdleKeepsMaximum(states: seq<State>, events: seq<Event>, app: Application)
    requires IsRunWith(states, events, app) && app.sla.Some? && (!app.active || app.sla.value.maxInstances <= 0)
    ensures forall i :: 0 <= i <= |events| ==> Waiting(states[i], app.id) == 0
  {
    hide Step, Waiting;
    forall i | 0 <= i <= |events|
      ensures Waiting(states[i], app.id) == 0
    {
      RunStaysIdle(states[..i + 1], events[..i], app);
    }
  }

  /**
   * The maximum is kept exactly when decisions to queue an instance do not overlap; an
   * application that is inactive or allows no instance keeps it anyway.
   */
  lemma KeepsMaximumIff(app: Application, overlap: nat)
    requires app.sla.Some?
    ensures KeepsMaximum(app, overlap) <==> overlap <= 1 || !app.active || app.sla.value.maxInstances <= 0
  {
    if overlap <= 1 || !app.active || app.sla.value.maxInstances <= 0 {
      forall states, events | IsRunWith(states, events, app) && MostWaiting(states, events, app, overlap)
        ensures Instances(states[|events|], app.id) <= app.sla.value.maxInstances
      {
        if overlap > 1 { IdleKeepsMaximum(states, events, app); }
        RunExceedsByOverlap(states, events, app, if overlap > 1 then 0 else overlap);
      }
    } else {
      var states := TwoSubmissionsExceed(app);
      assert MostWaiting(states, TwoSubmissions(app), app, overlap);
    }
  }
}
