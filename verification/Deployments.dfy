/**
 * The life of deployments: submissions, offers, status updates and health failures acting
 * on the application store, the task store, the queue and the registered health checks.
 * `TaskManager.dfy` proves that the task manager's methods perform exactly these steps.
 */
module Deployments {
  import opened Protocol
  import opened IndexedHeap
  import opened TaskStore
  import opened Sla
  import H = HeapSpec
  import TQ = TaskQueue
  import Builders
  import Messages

  datatype State = State(
    apps: Applications,
    store: DeploymentMap,
    queue: seq<TQ.TaskKey>,
    /** Task ids with a registered health check. */
    checks: set<string>)

  const START := State(map[], map[], [], {})

  datatype Event =
    | Submit(app: Application, now: int)
    /** `guard` answers whether more instances may be deployed; `pick` is the random choice of ports. */
    | Offered(offer: Offer, guard: bool, id: string, pick: nat)
    /** `checkable`: the application has a health check and a port for it. */
    | Status(taskId: string, status: AppStatus, checkable: bool, now: int)
    | HealthFailure(taskId: string, now: int)
    | Forget(taskId: string)
    | SaveApp(app: Application)
    | DeleteApp(appId: string)

  datatype Effect =
    | Enqueued(appId: string)
    | Launched(taskId: string, appId: string)
    | Kill(taskId: string)

  /** A step panics when a task is built without enough reserved ports. */
  datatype Outcome = Panic | Next(state: State, effects: seq<Effect>)

  function TaskId(id: string): string {
    "exeggutor-task-" + id
  }

  // ---------- Steps ----------

  function Schedule(st: State, app: Application, now: int): (State, seq<Effect>) {
    if CanDeployMoreInstances(st.store, st.queue, Some(app)) then
      (st.(queue := H.Push(TQ.TaskLess, st.queue, Key(app, now))), [Enqueued(app.id)])
    else (st, [])
  }

  /** Health checks follow the status: registered when started, unregistered otherwise. */
  function Recheck(checks: set<string>, taskId: string, status: AppStatus, checkable: bool): set<string> {
    if status != STARTED then checks - {taskId}
    else if checkable then checks + {taskId}
    else checks
  }

  function UpdateStatus(st: State, taskId: string, status: AppStatus, checkable: bool, now: int): (State, seq<Effect>) {
    if taskId !in st.store then (st, [])
    else
      var d := st.store[taskId].(status := status);
      var saved := st.(store := st.store[taskId := d]);
      if d.appId !in st.apps then (saved, [])
      else
        var app := st.apps[d.appId];
        var (next, effects) :=
          if NeedsMoreInstances(saved.store, saved.queue, app) then Schedule(saved, app, now) else (saved, []);
        (next.(checks := Recheck(st.checks, taskId, status, checkable)), effects)
  }

  function ThatFits(offer: Offer): TQ.TaskKey -> bool {
    (k: TQ.TaskKey) => Builders.Fits(offer, k.load)
  }

  /** The first queued application, in array order, that fits the offer. */
  function FirstFit(queue: seq<TQ.TaskKey>, offer: Offer): nat {
    TQ.FirstMatch(queue, ThatFits(offer))
  }

  /** The record of a task that has just been launched. */
  function Launch(offer: Offer, app: Application, id: string, pick: nat): Deployment
    requires Builders.CanPick(offer, |app.ports|)
    requires |app.ports| <= |Builders.PickPorts(offer, |app.ports|, pick).ports|
  {
    Deployment(app.id, TaskId(id), DEPLOYING, offer.hostName,
               Messages.PortMappings(app, Builders.PickPorts(offer, |app.ports|, pick).ports))
  }

  function Fulfill(st: State, offer: Offer, guard: bool, id: string, pick: nat): Outcome
    requires Builders.CanPick(offer, 0)
  {
    var k := FirstFit(st.queue, offer);
    if !guard || k >= |st.queue| then Next(st, [])
    else
      var app := st.queue[k].load;
      if |Builders.PickPorts(offer, |app.ports|, pick).ports| < |app.ports| then Panic
      else
        var d := Launch(offer, app, id, pick);
        Next(st.(queue := H.Remove(TQ.TaskLess, st.queue, k), store := st.store[d.taskId := d]),
             [Launched(d.taskId, d.appId)])
  }

  /** Ids of new tasks are fresh, and offers hold well-formed ranges of real ports. */
  predicate Admissible(st: State, ev: Event) {
    ev.Offered? ==> Builders.CanPick(ev.offer, 0) && TaskId(ev.id) !in st.store
  }

  function Step(st: State, ev: Event): Outcome
    requires Admissible(st, ev)
  {
    match ev
    case Submit(app, now) =>
      var (next, effects) := Schedule(st, app, now);
      Next(next, effects)
    case Offered(offer, guard, id, pick) => Fulfill(st, offer, guard, id, pick)
    case Status(taskId, status, checkable, now) =>
      var (next, effects) := UpdateStatus(st, taskId, status, checkable, now);
      Next(next, effects)
    case HealthFailure(taskId, now) =>
      if taskId !in st.store then Next(st, [])
      else
        var (next, effects) := UpdateStatus(st, taskId, UNHEALTHY, false, now);
        Next(next, effects + [Kill(taskId)])
    case Forget(taskId) => Next(st.(store := st.store - {taskId}, checks := st.checks - {taskId}), [])
    case SaveApp(app) => Next(st.(apps := st.apps[app.id := app]), [])
    case DeleteApp(appId) => Next(st.(apps := st.apps - {appId}), [])
  }

  // ---------- Runs ----------

  /** A run: the states it passes through and the effects of each step. */
  ghost predicate IsRun(states: seq<State>, events: seq<Event>, effects: seq<seq<Effect>>) {
    && |states| == |events| + 1 && |effects| == |events|
    && forall i :: 0 <= i < |events| ==> Steps(states[i], events[i], states[i + 1], effects[i])
  }

  ghost predicate Steps(st: State, ev: Event, next: State, effects: seq<Effect>) {
    Admissible(st, ev) && Step(st, ev) == Next(next, effects)
  }

  lemma RunPrefix(states: seq<State>, events: seq<Event>, effects: seq<seq<Effect>>)
    requires IsRun(states, events, effects) && events != []
    ensures var n := |events| - 1; IsRun(states[..n + 1], events[..n], effects[..n])
  {
  }

  lemma RunExtends(
    states: seq<State>, events: seq<Event>, effects: seq<seq<Effect>>, ev: Event, next: State, out: seq<Effect>)
    requires IsRun(states, events, effects) && Steps(states[|events|], ev, next, out)
    ensures IsRun(states + [next], events + [ev], effects + [out])
  {
  }

  /** Every stored application is stored under its own id, and every deployment under its task id. */
  ghost predicate WellFormed(st: State) {
    && (forall a :: a in st.apps ==> st.apps[a].id == a)
    && WellKeyed(st.store)
    && H.IsHeap(TQ.TaskLess, st.queue)
  }

  // ---------- Counting ----------

  const PLANNED: set<AppStatus> := {STARTED, DEPLOYING}

  lemma StartedArePlanned(store: DeploymentMap, a: string)
    ensures Count(store, a, {STARTED}) <= Count(store, a, PLANNED)
  {
    Subset(Tasks(store, a, {STARTED}), Tasks(store, a, PLANNED));
  }

  /** Instances that are started, being deployed, or queued. */
  function Instances(st: State, appId: string): nat {
    Count(st.store, appId, PLANNED) + TQ.CountFor(st.queue, appId)
  }

  /** How many instances are missing to the minimum. */
  function Shortfall(st: State, appId: string, sla: ApplicationSLA): nat {
    if Instances(st, appId) < sla.minInstances then sla.minInstances - Instances(st, appId) else 0
  }

  /** How many started and queued instances there are beyond the maximum. */
  function Excess(st: State, appId: string, sla: ApplicationSLA): nat {
    var n := Running(st.store, st.queue, appId);
    if n > sla.maxInstances then n - sla.maxInstances else 0
  }

  /** Enqueuing adds one instance of the application enqueued. */
  lemma PushCounts(q: seq<TQ.TaskKey>, x: TQ.TaskKey, appId: string)
    requires H.IsHeap(TQ.TaskLess, q)
    ensures H.IsHeap(TQ.TaskLess, H.Push(TQ.TaskLess, q, x))
    ensures TQ.CountFor(H.Push(TQ.TaskLess, q, x), appId) == TQ.CountFor(q, appId) + Indicator(x.load.id == appId)
  {
    TQ.TaskLessIsStrictWeakOrder();
    H.PushCorrect(TQ.TaskLess, q, x);
    assert multiset(q + [x]) == multiset(q) + multiset{x};
    TQ.CountPermuted(H.Push(TQ.TaskLess, q, x), q + [x], appId);
    assert (q + [x])[..|q|] == q;
  }

  /** Scheduling queues one instance if the SLA allows it. */
  lemma ScheduleCounts(st: State, app: Application, now: int, appId: string)
    requires H.IsHeap(TQ.TaskLess, st.queue)
    ensures var (next, effects) := Schedule(st, app, now);
            && H.IsHeap(TQ.TaskLess, next.queue)
            && next == st.(queue := next.queue)
            && TQ.CountFor(next.queue, appId) ==
               TQ.CountFor(st.queue, appId) + Indicator(effects != [] && app.id == appId)
            && effects == if CanDeployMoreInstances(st.store, st.queue, Some(app)) then [Enqueued(app.id)] else []
  {
    hide H.IsHeap, H.Push;
    PushCounts(st.queue, Key(app, now), appId);
  }

  /** What scheduling queues is exactly this application, stamped with this time. */
  lemma ScheduleQueues(st: State, app: Application, now: int)
    requires H.IsHeap(TQ.TaskLess, st.queue)
    ensures var (next, effects) := Schedule(st, app, now);
            multiset(next.queue) == multiset(st.queue) + if effects == [] then multiset{} else multiset{Key(app, now)}
  {
    hide H.IsHeap, H.Push;
    TQ.TaskLessIsStrictWeakOrder();
    H.PushCorrect(TQ.TaskLess, st.queue, Key(app, now));
  }

  /** Dequeuing takes one instance of the application dequeued. */
  lemma RemoveCounts(q: seq<TQ.TaskKey>, k: nat, appId: string)
    requires H.IsHeap(TQ.TaskLess, q) && k < |q|
    ensures H.IsHeap(TQ.TaskLess, H.Remove(TQ.TaskLess, q, k))
    ensures TQ.CountFor(q, appId) ==
            TQ.CountFor(H.Remove(TQ.TaskLess, q, k), appId) + Indicator(q[k].load.id == appId)
  {
    TQ.TaskLessIsStrictWeakOrder();
    H.RemoveCorrect(TQ.TaskLess, q, k);
    TQ.WithoutContent(q, k);
    var r := H.Remove(TQ.TaskLess, q, k);
    assert multiset(r) == multiset(q) - multiset{q[k]};
    TQ.CountPermuted(r, q[..k] + q[k + 1..], appId);
    TQ.CountWithout(q, k, appId);
  }
}
