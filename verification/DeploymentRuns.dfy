/** What every run of the deployment state machine keeps. */
module DeploymentRuns {
  import opened Protocol
  import opened TaskStore
  import opened Sla
  import opened Deployments
  import opened IndexedHeap
  import H = HeapSpec
  import TQ = TaskQueue

  // ---------- Shape of a step ----------

  lemma UpdateKeepsWellFormed(st: State, taskId: string, status: AppStatus, checkable: bool, now: int)
    requires WellFormed(st)
    ensures var next := UpdateStatus(st, taskId, status, checkable, now).0;
            WellFormed(next) && next.apps == st.apps && next.store.Keys == st.store.Keys
  {
    hide H.IsHeap, Schedule, NeedsMoreInstances, CanDeployMoreInstances;
    if taskId in st.store && st.store[taskId].appId in st.apps {
      var saved := st.(store := st.store[taskId := st.store[taskId].(status := status)]);
      var app := st.apps[st.store[taskId].appId];
      ScheduleCounts(saved, app, now, app.id);
    }
  }

  /** Fulfilling an offer changes nothing, or moves one queued instance to a new deploying record. */
  lemma FulfillCounts(st: State, ev: Event, a: string, of: set<AppStatus>)
    requires WellFormed(st) && ev.Offered? && Admissible(st, ev) && Step(st, ev).Next?
    ensures var next, effects := Step(st, ev).state, Step(st, ev).effects; var t := TaskId(ev.id);
            && WellFormed(next) && next.apps == st.apps && next.checks == st.checks
            && (effects == [] ==> next == st)
            && (effects != [] ==>
                  && t in next.store && next.store == st.store[t := next.store[t]]
                  && next.store[t].status == DEPLOYING && effects == [Launched(t, next.store[t].appId)])
            && var launched := Indicator(effects == [Launched(t, a)]);
               && TQ.CountFor(next.queue, a) + launched == TQ.CountFor(st.queue, a)
               && Count(next.store, a, of) == Count(st.store, a, of) + if DEPLOYING in of then launched else 0
  {
    hide Messages.PortMappings, Builders.PickPorts, Builders.Fits, H.Remove, Count;
    var k := FirstFit(st.queue, ev.offer);
    if ev.guard && k < |st.queue| {
      RemoveCounts(st.queue, k, a);
      var t := TaskId(ev.id);
      CountAfterSave(st.store, t, Step(st, ev).state.store[t], a, of);
    }
  }

  /** Every step keeps heap order of the queue and the keys of the stores. */
  lemma StepKeepsWellFormed(st: State, ev: Event, next: State, effects: seq<Effect>)
    requires WellFormed(st) && Steps(st, ev, next, effects)
    ensures WellFormed(next)
  {
    hide Fulfill, UpdateStatus, Schedule, H.IsHeap;
    match ev
    case Submit(app, now) => ScheduleCounts(st, app, now, app.id);
    case Offered(offer, guard, id, pick) => FulfillCounts(st, ev, "", PLANNED);
    case Status(taskId, status, checkable, now) => UpdateKeepsWellFormed(st, taskId, status, checkable, now);
    case HealthFailure(taskId, now) => UpdateKeepsWellFormed(st, taskId, UNHEALTHY, false, now);
    case Forget(taskId) =>
    case SaveApp(app) =>
    case DeleteApp(appId) =>
  }

  /** A status update replaces one record and may queue one more instance of its application. */
  lemma UpdateCounts(
    st: State, taskId: string, status: AppStatus, checkable: bool, now: int, a: string, of: set<AppStatus>)
    requires WellFormed(st) && taskId in st.store
    ensures var (next, effects) := UpdateStatus(st, taskId, status, checkable, now);
            var d := st.store[taskId];
            var saved := st.store[taskId := d.(status := status)];
            && next.store == saved
            && Count(saved, a, of) + Indicator(Counts(d, a, of)) ==
               Count(st.store, a, of) + Indicator(d.appId == a && status in of)
            && TQ.CountFor(next.queue, a) == TQ.CountFor(st.queue, a) + Indicator(effects == [Enqueued(a)])
            && (effects == [] || effects == [Enqueued(d.appId)])
            && (d.appId in st.apps ==>
                  (effects != [] <==>
                    && NeedsMoreInstances(saved, st.queue, st.apps[d.appId])
                    && CanDeployMoreInstances(saved, st.queue, Some(st.apps[d.appId]))))
  {
    var d := st.store[taskId];
    CountAfterSave(st.store, taskId, d.(status := status), a, of);
    if d.appId in st.apps {
      var saved := st.(store := st.store[taskId := d.(status := status)]);
      ScheduleCounts(saved, st.apps[d.appId], now, a);
    }
  }

  // ---------- What a step does to records, queue and checks ----------

  /** The task a status event moves, to this status. */
  function Moves(ev: Event): Option<(string, AppStatus)> {
    match ev
    case Status(taskId, status, checkable, now) => Some((taskId, status))
    case HealthFailure(taskId, now) => Some((taskId, UNHEALTHY))
    case _ => None
  }

  /** A status event stores exactly the status it stands for, and nothing when the task is not stored. */
  lemma StepMoves(st: State, ev: Event, next: State, effects: seq<Effect>)
    requires Steps(st, ev, next, effects) && Moves(ev).Some?
    ensures var (t, status) := Moves(ev).value;
            if t in st.store then next.store == st.store[t := st.store[t].(status := status)]
            else next == st && effects == []
  {
    hide H.Push, NeedsMoreInstances, CanDeployMoreInstances;
  }

  /** A failed health check does not change how many instances count as up. */
  lemma HealthFailureStaysUp(st: State, t: string, now: int, next: State, effects: seq<Effect>, a: string)
    requires Steps(st, HealthFailure(t, now), next, effects)
    requires t in st.store && st.store[t].status in {STARTED, DEPLOYING, UNHEALTHY}
    ensures next.store[t].status == UNHEALTHY && Count(next.store, a, UP) == Count(st.store, a, UP)
  {
    StepMoves(st, HealthFailure(t, now), next, effects);
    hide Step, Count;
    CountAfterSave(st.store, t, next.store[t], a, UP);
  }

  /** Exactly the stored tasks whose health check fails are asked to be killed. */
  lemma StepKillsIff(st: State, ev: Event, next: State, effects: seq<Effect>, t: string)
    requires Steps(st, ev, next, effects)
    ensures Kill(t) in effects <==> ev.HealthFailure? && ev.taskId == t && t in st.store
  {
    hide UpdateStatus, Schedule, FirstFit, H.Remove, Messages.PortMappings, Builders.PickPorts;
    match ev
    case Submit(app, now) => ScheduleKillsNothing(st, app, now, t);
    case Status(u, status, checkable, now) => UpdateKillsNothing(st, u, status, checkable, now, t);
    case HealthFailure(u, now) => UpdateKillsNothing(st, u, UNHEALTHY, false, now, t);
    case _ =>
  }

  lemma ScheduleKillsNothing(st: State, app: Application, now: int, t: string)
    ensures Kill(t) !in Schedule(st, app, now).1
  {
    hide CanDeployMoreInstances, H.Push;
  }

  lemma UpdateKillsNothing(st: State, u: string, status: AppStatus, checkable: bool, now: int, t: string)
    ensures Kill(t) !in UpdateStatus(st, u, status, checkable, now).1
  {
    hide CanDeployMoreInstances, NeedsMoreInstances, H.Push;
  }

  /** The step takes a check away: its task is forgotten, or leaves STARTED while its application is stored. */
  predicate Unchecks(st: State, ev: Event, t: string) {
    || ev == Forget(t)
    || (Moves(ev).Some? && Moves(ev).value.0 == t && Moves(ev).value.1 != STARTED
        && t in st.store && st.store[t].appId in st.apps)
  }

  /** Exactly a start that can be checked registers a check, and only that task's entry ever changes. */
  lemma StepChecksIff(st: State, ev: Event, next: State, effects: seq<Effect>, t: string)
    requires Steps(st, ev, next, effects)
    ensures t in next.checks <==>
            || (ev.Status? && ev.taskId == t && ev.status == STARTED && ev.checkable
                && t in st.store && st.store[t].appId in st.apps)
            || (t in st.checks && !Unchecks(st, ev, t))
  {
    hide H.Push, H.Remove, NeedsMoreInstances, CanDeployMoreInstances, Messages.PortMappings, Builders.PickPorts;
  }

  lemma UpdateQueues(st: State, taskId: string, status: AppStatus, checkable: bool, now: int)
    requires WellFormed(st) && taskId in st.store
    ensures var (next, effects) := UpdateStatus(st, taskId, status, checkable, now); var a := st.store[taskId].appId;
            && (effects != [] ==> a in st.apps)
            && multiset(next.queue) ==
               multiset(st.queue) + if effects == [] then multiset{} else multiset{Key(st.apps[a], now)}
  {
    hide H.IsHeap, Schedule, NeedsMoreInstances, WellKeyed;
    var a := st.store[taskId].appId;
    if a in st.apps {
      var saved := st.(store := st.store[taskId := st.store[taskId].(status := status)]);
      ScheduleQueues(saved, st.apps[a], now);
      ScheduleCounts(saved, st.apps[a], now, a);
    }
  }

  /** A status event queues at most the stored application of its task, stamped with the time of the event. */
  lemma MoveQueues(st: State, ev: Event, next: State, effects: seq<Effect>)
    requires WellFormed(st) && Steps(st, ev, next, effects) && Moves(ev).Some? && Moves(ev).value.0 in st.store
    ensures var a := st.store[Moves(ev).value.0].appId;
            if exists x :: Enqueued(x) in effects then
              a in st.apps && Enqueued(a) in effects
              && multiset(next.queue) == multiset(st.queue) + multiset{Key(st.apps[a], ev.now)}
            else multiset(next.queue) == multiset(st.queue)
  {
    hide H.IsHeap, UpdateStatus, WellKeyed, UP;
    var (t, status) := Moves(ev).value;
    var checkable := ev.Status? && ev.checkable;
    UpdateQueues(st, t, status, checkable, ev.now);
    UpdateCounts(st, t, status, checkable, ev.now, "", PLANNED);
    var queued := UpdateStatus(st, t, status, checkable, ev.now).1;
    assert queued == [] || queued == [Enqueued(st.store[t].appId)];
    assert effects == queued || effects == queued + [Kill(t)];
    assert queued != [] ==> effects[0] == Enqueued(st.store[t].appId);
  }

  /** A submission queues the application with its time, exactly when the SLA allows it, and does nothing else. */
  lemma SubmitQueues(st: State, app: Application, now: int, next: State, effects: seq<Effect>)
    requires WellFormed(st) && Steps(st, Submit(app, now), next, effects)
    ensures next == st.(queue := next.queue)
    ensures multiset(next.queue) ==
            multiset(st.queue) +
            if CanDeployMoreInstances(st.store, st.queue, Some(app)) then multiset{Key(app, now)} else multiset{}
  {
    hide H.IsHeap, Schedule, WellKeyed;
    ScheduleQueues(st, app, now);
    ScheduleCounts(st, app, now, app.id);
  }

  /** A step panics exactly when an offer goes to an application whose message cannot be built. */
  lemma StepPanicsIff(st: State, ev: Event)
    requires Admissible(st, ev)
    ensures Step(st, ev).Panic? <==>
            && ev.Offered? && ev.guard && FirstFit(st.queue, ev.offer) < |st.queue|
            && Messages.BuildPanics(ev.offer, st.queue[FirstFit(st.queue, ev.offer)].load)
  {
    hide UpdateStatus, Schedule, FirstFit, H.Remove, Messages.PortMappings, Builders.PickPorts;
    if ev.Offered? && FirstFit(st.queue, ev.offer) < |st.queue| {
      Messages.BuildPanicsIffPortsMissing(ev.offer, st.queue[FirstFit(st.queue, ev.offer)].load, ev.pick);
    }
  }

  /** A launch takes the first fitting application out of the queue and nothing else. */
  lemma LaunchTakesFirstFit(st: State, ev: Event, next: State, effects: seq<Effect>)
    requires WellFormed(st) && Steps(st, ev, next, effects) && ev.Offered?
    ensures if effects == [] then next == st
            else
              && FirstFit(st.queue, ev.offer) < |st.queue|
              && multiset(st.queue) == multiset(next.queue) + multiset{st.queue[FirstFit(st.queue, ev.offer)]}
  {
    hide H.IsHeap, H.Remove, FirstFit, WellKeyed, Messages.PortMappings, Builders.PickPorts;
    var k := FirstFit(st.queue, ev.offer);
    if effects != [] {
      TQ.TaskLessIsStrictWeakOrder();
      H.RemoveCorrect(TQ.TaskLess, st.queue, k);
    }
  }

  /** The mapping of one port: containers get a reserved port, everything else keeps its own. */
  ghost predicate Maps(m: PortMapping, app: Application, i: nat, offer: Offer)
    requires i < |app.ports|
  {
    && m.scheme == ToUpper(app.ports[i].key) && m.privatePort == app.ports[i].value
    && (app.distribution != DOCKER ==> m.publicPort == app.ports[i].value)
    && (app.distribution == DOCKER ==>
          exists r :: r in Builders.PortRanges(offer.resources) && r.begin <= m.publicPort <= r.end)
  }

  lemma MapsPorts(offer: Offer, app: Application, pick: nat)
    requires Builders.CanPick(offer, |app.ports|)
    requires |app.ports| <= |Builders.PickPorts(offer, |app.ports|, pick).ports|
    ensures var ms := Messages.PortMappings(app, Builders.PickPorts(offer, |app.ports|, pick).ports);
            |ms| == |app.ports| && forall i :: 0 <= i < |ms| ==> Maps(ms[i], app, i, offer)
  {
    hide ToUpper, Builders.PickPorts, Builders.PortRanges;
    PickedFromOffer(offer, |app.ports|, pick);
  }

  /** The record of a launched task: its task id, its host and the ports it is reachable on. */
  lemma LaunchedRecord(st: State, ev: Event, next: State, effects: seq<Effect>)
    requires Steps(st, ev, next, effects) && ev.Offered? && effects != []
    ensures var t := "exeggutor-task-" + ev.id; var app := st.queue[FirstFit(st.queue, ev.offer)].load;
            && t in next.store && next.store[t].taskId == t && next.store[t].appId == app.id
            && next.store[t].status == DEPLOYING && next.store[t].hostName == ev.offer.hostName
            && |next.store[t].portMapping| == |app.ports|
            && forall i :: 0 <= i < |app.ports| ==> Maps(next.store[t].portMapping[i], app, i, ev.offer)
  {
    hide H.Remove, FirstFit, Builders.PickPorts, Messages.PortMappings, Maps;
    var app := st.queue[FirstFit(st.queue, ev.offer)].load;
    MapsPorts(ev.offer, app, ev.pick);
  }

  lemma PickedFromOffer(offer: Offer, count: nat, pick: nat)
    requires Builders.CanPick(offer, count) && |Builders.PickPorts(offer, count, pick).ports| >= count
    ensures forall i :: 0 <= i < count ==>
              exists r :: r in Builders.PortRanges(offer.resources) &&
                          r.begin <= Builders.PickPorts(offer, count, pick).ports[i] <= r.end
  {
    hide Builders.PortRanges, Builders.FirstLarger;
    if count > 0 {
      Builders.PicksIffLargerRange(offer, count, pick);
      Builders.PickedPorts(offer, count, pick);
      var r := Builders.PortRanges(offer.resources)[Builders.FirstLarger(Builders.PortRanges(offer.resources), count)];
      hide Builders.PickPorts;
      var picked := Builders.PickPorts(offer, count, pick);
      forall i | 0 <= i < count
        ensures exists o :: o in Builders.PortRanges(offer.resources) && o.begin <= picked.ports[i] <= o.end
      {
        assert picked.ports[i] in picked.ports;
        assert r in Builders.PortRanges(offer.resources) && r.begin <= picked.ports[i] <= r.end;
      }
    }
  }

  // ---------- The minimum of the SLA ----------

  /** The application keeps its definition. */
  predicate KeepsApp(ev: Event, app: Application) {
    && (ev.SaveApp? && ev.app.id == app.id ==> ev.app == app)
    && !(ev.DeleteApp? && ev.appId == app.id)
  }

  predicate Stored(st: State, app: Application) {
    app.id in st.apps && st.apps[app.id] == app
  }

  /** The step drops the record of a started or deploying task of this application. */
  predicate Forgets(st: State, ev: Event, a: string) {
    ev.Forget? && ev.taskId in st.store && Counts(st.store[ev.taskId], a, PLANNED)
  }

  lemma UpdateKeepsMinimum(st: State, taskId: string, status: AppStatus, checkable: bool, now: int, app: Application)
    requires WellFormed(st) && Stored(st, app) && app.active && app.sla.Some?
    requires app.sla.value.minInstances <= app.sla.value.maxInstances
    ensures var next := UpdateStatus(st, taskId, status, checkable, now).0;
            Shortfall(next, app.id, app.sla.value) <= Shortfall(st, app.id, app.sla.value)
  {
    if taskId in st.store {
      var a := app.id;
      UpdateCounts(st, taskId, status, checkable, now, a, PLANNED);
      var next := UpdateStatus(st, taskId, status, checkable, now).0;
      StartedArePlanned(next.store, a);
    }
  }

  /** Only forgetting a task can take an application further below its minimum, and by one at most. */
  lemma StepKeepsMinimum(st: State, ev: Event, next: State, effects: seq<Effect>, app: Application)
    requires WellFormed(st) && Steps(st, ev, next, effects) && KeepsApp(ev, app)
    requires Stored(st, app) && app.active && app.sla.Some?
    requires app.sla.value.minInstances <= app.sla.value.maxInstances
    ensures Stored(next, app)
    ensures Shortfall(next, app.id, app.sla.value) <=
            Shortfall(st, app.id, app.sla.value) + Indicator(Forgets(st, ev, app.id))
  {
    hide Fulfill, UpdateStatus, Schedule, H.IsHeap, Count;
    var a := app.id;
    match ev
    case Submit(x, now) => ScheduleCounts(st, x, now, a);
    case Offered(offer, guard, id, pick) => FulfillCounts(st, ev, a, PLANNED);
    case Status(taskId, status, checkable, now) =>
      UpdateKeepsWellFormed(st, taskId, status, checkable, now);
      UpdateKeepsMinimum(st, taskId, status, checkable, now, app);
    case HealthFailure(taskId, now) =>
      UpdateKeepsWellFormed(st, taskId, UNHEALTHY, false, now);
      UpdateKeepsMinimum(st, taskId, UNHEALTHY, false, now, app);
    case Forget(taskId) => CountAfterDelete(st.store, taskId, a, PLANNED);
    case SaveApp(x) =>
    case DeleteApp(x) =>
  }

  function Forgotten(states: seq<State>, events: seq<Event>, a: string): nat
    requires |events| <= |states|
  {
    if events == [] then 0
    else
      var n := |events| - 1;
      Forgotten(states, events[..n], a) + Indicator(Forgets(states[n], events[n], a))
  }

  /**
   * Along a run an application falls below the minimum of its SLA, beyond what it lacked at
   * the start, by no more than the number of its planned tasks that were forgotten.
   */
  lemma {:induction false} RunKeepsMinimum(
    states: seq<State>, events: seq<Event>, effects: seq<seq<Effect>>, app: Application)
    requires IsRun(states, events, effects) && WellFormed(states[0])
    requires forall i :: 0 <= i < |events| ==> KeepsApp(events[i], app)
    requires Stored(states[0], app) && app.active && app.sla.Some?
    requires app.sla.value.minInstances <= app.sla.value.maxInstances
    ensures WellFormed(states[|events|]) && Stored(states[|events|], app)
    ensures Shortfall(states[|events|], app.id, app.sla.value) <=
            Shortfall(states[0], app.id, app.sla.value) + Forgotten(states, events, app.id)
    decreases |events|
  {
    hide Step, Shortfall;
    if events != [] {
      var n := |events| - 1;
      RunPrefix(states, events, effects);
      RunKeepsMinimum(states[..n + 1], events[..n], effects[..n], app);
      ForgottenPrefix(states, events[..n], n + 1, app.id);
      assert Steps(states[n], events[n], states[n + 1], effects[n]);
      StepKeepsWellFormed(states[n], events[n], states[n + 1], effects[n]);
      StepKeepsMinimum(states[n], events[n], states[n + 1], effects[n], app);
    }
  }

  lemma {:induction false} ForgottenPrefix(states: seq<State>, events: seq<Event>, m: nat, a: string)
    requires |events| <= m <= |states|
    ensures Forgotten(states[..m], events, a) == Forgotten(states, events, a)
    decreases |events|
  {
    if events != [] { ForgottenPrefix(states, events[..|events| - 1], m, a); }
  }

  // ---------- The maximum of the SLA ----------

  /** Submissions of the application carry the definition of its SLA that is meant. */
  predicate SubmitsApp(ev: Event, app: Application) {
    ev.Submit? && ev.app.id == app.id ==> ev.app == app
  }

  /** The step moves a task of the application to STARTED. */
  predicate Starts(st: State, ev: Event, a: string) {
    && ev.Status? && ev.status == STARTED && ev.taskId in st.store
    && st.store[ev.taskId].appId == a && st.store[ev.taskId].status != STARTED
  }

  lemma UpdateKeepsMaximum(st: State, taskId: string, status: AppStatus, checkable: bool, now: int, app: Application)
    requires WellFormed(st) && Stored(st, app) && app.sla.Some?
    ensures var (next, effects) := UpdateStatus(st, taskId, status, checkable, now);
            && (Enqueued(app.id) in effects ==> Running(next.store, next.queue, app.id) <= app.sla.value.maxInstances)
            && Excess(next, app.id, app.sla.value) <= Excess(st, app.id, app.sla.value) +
                 Indicator(Starts(st, Status(taskId, status, checkable, now), app.id))
  {
    if taskId in st.store {
      UpdateCounts(st, taskId, status, checkable, now, app.id, {STARTED});
    }
  }

  /**
   * No enqueue takes started and queued instances above the maximum; only a task that becomes
   * started can, by one.
   */
  lemma StepKeepsMaximum(st: State, ev: Event, next: State, effects: seq<Effect>, app: Application)
    requires WellFormed(st) && Steps(st, ev, next, effects) && KeepsApp(ev, app) && SubmitsApp(ev, app)
    requires Stored(st, app) && app.sla.Some?
    ensures Stored(next, app)
    ensures Enqueued(app.id) in effects ==> Running(next.store, next.queue, app.id) <= app.sla.value.maxInstances
    ensures Excess(next, app.id, app.sla.value) <=
            Excess(st, app.id, app.sla.value) + Indicator(Starts(st, ev, app.id))
  {
    hide Fulfill, UpdateStatus, Schedule, H.IsHeap, Count;
    var a := app.id;
    match ev
    case Submit(x, now) => ScheduleCounts(st, x, now, a);
    case Offered(offer, guard, id, pick) => FulfillCounts(st, ev, a, {STARTED});
    case Status(taskId, status, checkable, now) =>
      UpdateKeepsWellFormed(st, taskId, status, checkable, now);
      UpdateKeepsMaximum(st, taskId, status, checkable, now, app);
    case HealthFailure(taskId, now) =>
      UpdateKeepsWellFormed(st, taskId, UNHEALTHY, false, now);
      UpdateKeepsMaximum(st, taskId, UNHEALTHY, false, now, app);
    case Forget(taskId) => CountAfterDelete(st.store, taskId, a, {STARTED});
    case SaveApp(x) =>
    case DeleteApp(x) =>
  }

  function Started(states: seq<State>, events: seq<Event>, a: string): nat
    requires |events| <= |states|
  {
    if events == [] then 0
    else
      var n := |events| - 1;
      Started(states, events[..n], a) + Indicator(Starts(states[n], events[n], a))
  }

  lemma {:induction false} StartedPrefix(states: seq<State>, events: seq<Event>, m: nat, a: string)
    requires |events| <= m <= |states|
    ensures Started(states[..m], events, a) == Started(states, events, a)
    decreases |events|
  {
    if events != [] { StartedPrefix(states, events[..|events| - 1], m, a); }
  }

  /** Along a run the maximum is exceeded by no more than the number of tasks that became started. */
  lemma {:induction false} RunKeepsMaximum(
    states: seq<State>, events: seq<Event>, effects: seq<seq<Effect>>, app: Application)
    requires IsRun(states, events, effects) && WellFormed(states[0])
    requires forall i :: 0 <= i < |events| ==> KeepsApp(events[i], app) && SubmitsApp(events[i], app)
    requires Stored(states[0], app) && app.sla.Some?
    ensures WellFormed(states[|events|]) && Stored(states[|events|], app)
    ensures Excess(states[|events|], app.id, app.sla.value) <=
            Excess(states[0], app.id, app.sla.value) + Started(states, events, app.id)
    decreases |events|
  {
    hide Step, Excess;
    if events != [] {
      var n := |events| - 1;
      RunPrefix(states, events, effects);
      RunKeepsMaximum(states[..n + 1], events[..n], effects[..n], app);
      StartedPrefix(states, events[..n], n + 1, app.id);
      assert Steps(states[n], events[n], states[n + 1], effects[n]);
      StepKeepsWellFormed(states[n], events[n], states[n + 1], effects[n]);
      StepKeepsMaximum(states[n], events[n], states[n + 1], effects[n], app);
    }
  }

  // ---------- Conservation ----------

  function EnqueuedOf(effects: seq<Effect>, a: string): nat {
    if effects == [] then 0 else EnqueuedOf(effects[1..], a) + Indicator(effects[0] == Enqueued(a))
  }

  function LaunchedOf(effects: seq<Effect>, a: string): nat {
    if effects == [] then 0
    else LaunchedOf(effects[1..], a) + Indicator(effects[0].Launched? && effects[0].appId == a)
  }

  lemma ScheduleConserves(st: State, app: Application, now: int, a: string)
    requires WellFormed(st)
    ensures var (next, effects) := Schedule(st, app, now);
            && TQ.CountFor(next.queue, a) == TQ.CountFor(st.queue, a) + EnqueuedOf(effects, a)
            && LaunchedOf(effects, a) == 0
  {
    ScheduleCounts(st, app, now, a);
  }

  lemma UpdateConserves(
    st: State, taskId: string, status: AppStatus, checkable: bool, now: int, kill: seq<Effect>, a: string)
    requires WellFormed(st) && (kill == [] || kill == [Kill(taskId)])
    ensures var (next, effects) := UpdateStatus(st, taskId, status, checkable, now);
            && TQ.CountFor(next.queue, a) == TQ.CountFor(st.queue, a) + EnqueuedOf(effects + kill, a)
            && LaunchedOf(effects + kill, a) == 0
  {
    var effects := UpdateStatus(st, taskId, status, checkable, now).1;
    CountsConcat(effects, kill, a);
    assert kill != [] ==> kill[1..] == [];
    if taskId in st.store {
      UpdateCounts(st, taskId, status, checkable, now, a, PLANNED);
      if effects != [] {
        var x := st.store[taskId].appId;
        assert effects == [Enqueued(x)] && effects[1..] == [];
        assert EnqueuedOf(effects, a) == Indicator(Enqueued(x) == Enqueued(a));
      }
    }
  }

  /** What is queued is what was queued, plus what is accepted, minus what is launched. */
  lemma StepConserves(st: State, ev: Event, next: State, effects: seq<Effect>, a: string)
    requires WellFormed(st) && Steps(st, ev, next, effects)
    ensures TQ.CountFor(next.queue, a) + LaunchedOf(effects, a) == TQ.CountFor(st.queue, a) + EnqueuedOf(effects, a)
  {
    hide Fulfill, UpdateStatus, Schedule;
    match ev
    case Submit(x, now) => ScheduleConserves(st, x, now, a);
    case Offered(offer, guard, id, pick) =>
      FulfillCounts(st, ev, a, PLANNED);
      assert effects != [] ==> effects[1..] == [];
    case Status(taskId, status, checkable, now) =>
      UpdateConserves(st, taskId, status, checkable, now, [], a);
      assert effects + [] == effects;
    case HealthFailure(taskId, now) =>
      if taskId in st.store { UpdateConserves(st, taskId, UNHEALTHY, false, now, [Kill(taskId)], a); }
    case Forget(taskId) =>
    case SaveApp(x) =>
    case DeleteApp(x) =>
  }

  /** A new record appears exactly for a launch, and it is a deploying task of the launched application. */
  lemma StepLaunches(st: State, ev: Event, next: State, effects: seq<Effect>)
    requires WellFormed(st) && Steps(st, ev, next, effects)
    ensures forall t, a :: Launched(t, a) in effects ==>
              && effects == [Launched(t, a)] && t !in st.store && t in next.store
              && next.store == st.store[t := next.store[t]]
              && next.store[t].appId == a && next.store[t].status == DEPLOYING
    ensures forall t :: t in next.store && t !in st.store ==> Launched(t, next.store[t].appId) in effects
  {
    hide Fulfill, H.IsHeap, H.Push;
    match ev
    case Submit(x, now) =>
    case Offered(offer, guard, id, pick) => FulfillCounts(st, ev, "", PLANNED);
    case Status(taskId, status, checkable, now) => UpdateKeepsWellFormed(st, taskId, status, checkable, now);
    case HealthFailure(taskId, now) => UpdateKeepsWellFormed(st, taskId, UNHEALTHY, false, now);
    case Forget(taskId) =>
    case SaveApp(x) =>
    case DeleteApp(x) =>
  }

  /** All effects of a run. */
  function Flatten(effects: seq<seq<Effect>>): seq<Effect> {
    if effects == [] then [] else Flatten(effects[..|effects| - 1]) + effects[|effects| - 1]
  }

  lemma {:induction false} CountsConcat(x: seq<Effect>, y: seq<Effect>, a: string)
    ensures EnqueuedOf(x + y, a) == EnqueuedOf(x, a) + EnqueuedOf(y, a)
    ensures LaunchedOf(x + y, a) == LaunchedOf(x, a) + LaunchedOf(y, a)
    decreases |x|
  {
    if x == [] {
      assert x + y == y;
    } else {
      assert (x + y)[1..] == x[1..] + y;
      CountsConcat(x[1..], y, a);
    }
  }

  /** Over every run, accepted schedulings are still queued or have been launched. */
  lemma {:induction false} RunConserves(states: seq<State>, events: seq<Event>, effects: seq<seq<Effect>>, a: string)
    requires IsRun(states, events, effects) && WellFormed(states[0])
    ensures WellFormed(states[|events|])
    ensures TQ.CountFor(states[|events|].queue, a) + LaunchedOf(Flatten(effects), a) ==
            TQ.CountFor(states[0].queue, a) + EnqueuedOf(Flatten(effects), a)
    decreases |events|
  {
    hide Step;
    if events != [] {
      var n := |events| - 1;
      RunPrefix(states, events, effects);
      RunConserves(states[..n + 1], events[..n], effects[..n], a);
      assert Steps(states[n], events[n], states[n + 1], effects[n]);
      StepKeepsWellFormed(states[n], events[n], states[n + 1], effects[n]);
      StepConserves(states[n], events[n], states[n + 1], effects[n], a);
      CountsConcat(Flatten(effects[..n]), effects[n], a);
    }
  }

  // ---------- Health checks ----------

  /** A registered health check belongs to a stored task that has started. */
  ghost predicate ChecksStarted(st: State) {
    forall t :: t in st.checks ==> t in st.store && st.store[t].status == STARTED
  }

  /** The step takes a task with a registered check out of STARTED while its application is not stored. */
  ghost predicate LosesTrack(st: State, ev: Event) {
    && Moves(ev).Some? && Moves(ev).value.1 != STARTED
    && Moves(ev).value.0 in st.checks && Moves(ev).value.0 in st.store
    && st.store[Moves(ev).value.0].appId !in st.apps
  }

  /** Checks follow their tasks in every step but those, and in none of those. */
  lemma StepKeepsChecksIff(st: State, ev: Event, next: State, effects: seq<Effect>)
    requires Steps(st, ev, next, effects) && ChecksStarted(st)
    ensures ChecksStarted(next) <==> !LosesTrack(st, ev)
  {
    hide Messages.PortMappings, Builders.PickPorts, Builders.Fits, H.Push, H.Remove;
    if Moves(ev).Some? && Moves(ev).value.0 in st.store {
      var t, status := Moves(ev).value.0, Moves(ev).value.1;
      assert next.store == st.store[t := st.store[t].(status := status)];
      if st.store[t].appId !in st.apps {
        assert next.checks == st.checks;
        assert t in st.checks && status != STARTED ==> t in next.checks && next.store[t].status != STARTED;
      }
    }
  }

  /** The applications of all checked tasks are stored. */
  ghost predicate ChecksKnown(st: State) {
    forall t :: t in st.checks ==> t in st.store && st.store[t].appId in st.apps
  }

  lemma StepKeepsKnown(st: State, ev: Event, next: State, effects: seq<Effect>)
    requires Steps(st, ev, next, effects) && ChecksStarted(st) && ChecksKnown(st) && !ev.DeleteApp?
    ensures ChecksKnown(next)
  {
    hide Messages.PortMappings, Builders.PickPorts, Builders.Fits, H.Push, H.Remove;
  }

  /** In every run that deletes no application, a registered check implies a started task. */
  lemma {:induction false} RunKeepsChecks(states: seq<State>, events: seq<Event>, effects: seq<seq<Effect>>)
    requires IsRun(states, events, effects) && ChecksStarted(states[0]) && ChecksKnown(states[0])
    requires forall i :: 0 <= i < |events| ==> !events[i].DeleteApp?
    ensures ChecksStarted(states[|events|]) && ChecksKnown(states[|events|])
    decreases |events|
  {
    hide Step;
    if events != [] {
      var n := |events| - 1;
      RunPrefix(states, events, effects);
      RunKeepsChecks(states[..n + 1], events[..n], effects[..n]);
      assert Steps(states[n], events[n], states[n + 1], effects[n]);
      StepKeepsChecksIff(states[n], events[n], states[n + 1], effects[n]);
      StepKeepsKnown(states[n], events[n], states[n + 1], effects[n]);
    }
  }

  // ---------- The guard of offers ----------

  /** The guard as the monitor answers it: it is asked about no application. */
  predicate MonitorGuards(st: State, ev: Event) {
    ev.Offered? ==> ev.guard == CanDeployMoreInstances(st.store, st.queue, None)
  }

  /** With the monitor's own answer no run launches anything, whatever is queued or offered. */
  lemma {:induction false} MonitorNeverLaunches(states: seq<State>, events: seq<Event>, effects: seq<seq<Effect>>)
    requires IsRun(states, events, effects)
    requires forall i :: 0 <= i < |events| ==> MonitorGuards(states[i], events[i])
    ensures states[|events|].store.Keys <= states[0].store.Keys
    ensures forall i, t, a :: 0 <= i < |effects| ==> Launched(t, a) !in effects[i]
    decreases |events|
  {
    hide Messages.PortMappings, Builders.PickPorts, Builders.Fits, H.Push, H.Remove;
    if events != [] {
      var n := |events| - 1;
      RunPrefix(states, events, effects);
      forall i | 0 <= i < n
        ensures MonitorGuards(states[..n + 1][i], events[..n][i])
      {
        assert MonitorGuards(states[i], events[i]);
      }
      MonitorNeverLaunches(states[..n + 1], events[..n], effects[..n]);
      assert Steps(states[n], events[n], states[n + 1], effects[n]) && MonitorGuards(states[n], events[n]);
      forall t, a
        ensures Launched(t, a) !in effects[n]
      {
      }
      forall i, t, a | 0 <= i < |effects|
        ensures Launched(t, a) !in effects[i]
      {
        if i < n { assert effects[i] == effects[..n][i]; }
      }
    }
  }

  // ---------- Forgotten tasks ----------

  /** The step launches this task. */
  predicate Launches(effects: seq<Effect>, t: string) {
    exists i :: 0 <= i < |effects| && effects[i].Launched? && effects[i].taskId == t
  }

  /** The only ways into the store and out of it. */
  lemma StepStoresIff(st: State, ev: Event, next: State, effects: seq<Effect>, t: string)
    requires WellFormed(st) && Steps(st, ev, next, effects)
    ensures t in next.store <==> Launches(effects, t) || (t in st.store && ev != Forget(t))
  {
    hide Messages.PortMappings, Builders.PickPorts, Builders.Fits, H.Push, H.Remove, H.IsHeap;
    StepLaunches(st, ev, next, effects);
    if Launches(effects, t) {
      var i :| 0 <= i < |effects| && effects[i].Launched? && effects[i].taskId == t;
      assert Launched(t, effects[i].appId) in effects;
    }
  }

  /** The task was stored at the start or launched by the step before state `p`, and not forgotten since. */
  ghost predicate TrackedSince(states: seq<State>, events: seq<Event>, effects: seq<seq<Effect>>, t: string, p: nat)
    requires |effects| == |events| < |states|
  {
    && p <= |events|
    && (if p == 0 then t in states[0].store else Launches(effects[p - 1], t))
    && forall i :: p <= i < |events| ==> events[i] != Forget(t)
  }

  ghost predicate Tracked(states: seq<State>, events: seq<Event>, effects: seq<seq<Effect>>, t: string)
    requires |effects| == |events| < |states|
  {
    exists p: nat :: TrackedSince(states, events, effects, t, p)
  }

  /** Over every run the stored tasks are exactly those there or launched and not forgotten since. */
  lemma {:induction false} StoredIffTracked(
    states: seq<State>, events: seq<Event>, effects: seq<seq<Effect>>, t: string)
    requires IsRun(states, events, effects) && WellFormed(states[0])
    ensures WellFormed(states[|events|])
    ensures t in states[|events|].store <==> Tracked(states, events, effects, t)
    decreases |events|
  {
    hide Step, Launches;
    if events == [] {
      assert TrackedSince(states, events, effects, t, 0) <==> t in states[0].store;
    } else {
      var n := |events| - 1;
      RunPrefix(states, events, effects);
      StoredIffTracked(states[..n + 1], events[..n], effects[..n], t);
      assert Steps(states[n], events[n], states[n + 1], effects[n]);
      StepKeepsWellFormed(states[n], events[n], states[n + 1], effects[n]);
      StepStoresIff(states[n], events[n], states[n + 1], effects[n], t);
      TrackedByPrefix(states, events, effects, t);
    }
  }

  lemma TrackedByPrefix(states: seq<State>, events: seq<Event>, effects: seq<seq<Effect>>, t: string)
    requires IsRun(states, events, effects) && events != []
    ensures var n := |events| - 1;
            Tracked(states, events, effects, t) <==>
            || Launches(effects[n], t)
            || (events[n] != Forget(t) && Tracked(states[..n + 1], events[..n], effects[..n], t))
  {
    hide Step, Launches;
    var n := |events| - 1;
    assert TrackedSince(states, events, effects, t, n + 1) <==> Launches(effects[n], t);
    forall p: nat | p <= n
      ensures TrackedSince(states, events, effects, t, p) <==>
              TrackedSince(states[..n + 1], events[..n], effects[..n], t, p) && events[n] != Forget(t)
    {
      assert p > 0 ==> effects[..n][p - 1] == effects[p - 1];
      assert forall i :: p <= i < n ==> events[..n][i] == events[i];
    }
    if p: nat :| TrackedSince(states, events, effects, t, p) {
      assert p <= n ==> TrackedSince(states[..n + 1], events[..n], effects[..n], t, p);
    }
    if events[n] != Forget(t) && Tracked(states[..n + 1], events[..n], effects[..n], t) {
      var ms, es, fs := states[..n + 1], events[..n], effects[..n];
      var p: nat :| TrackedSince(ms, es, fs, t, p);
      assert TrackedSince(states, events, effects, t, p);
    }
  }

  /** Without a new launch a stored task stays stored exactly until it is forgotten, whatever its statuses. */
  lemma StaysStoredIff(states: seq<State>, events: seq<Event>, effects: seq<seq<Effect>>, t: string)
    requires IsRun(states, events, effects) && WellFormed(states[0]) && t in states[0].store
    requires forall i :: 0 <= i < |effects| ==> !Launches(effects[i], t)
    ensures t in states[|events|].store <==> forall i :: 0 <= i < |events| ==> events[i] != Forget(t)
  {
    hide Launches;
    StoredIffTracked(states, events, effects, t);
    if forall i :: 0 <= i < |events| ==> events[i] != Forget(t) {
      assert TrackedSince(states, events, effects, t, 0);
    }
  }

  /**
   * Once a task is forgotten, as the driver's staging and starting callbacks do, no later
   * status brings it back: until it is launched again it is neither stored nor checked.
   */
  lemma {:induction false} ForgottenStaysForgotten(
    states: seq<State>, events: seq<Event>, effects: seq<seq<Effect>>, t: string)
    requires IsRun(states, events, effects) && WellFormed(states[0])
    requires t !in states[0].store && t !in states[0].checks
    requires forall i :: 0 <= i < |effects| ==> !Launches(effects[i], t)
    ensures WellFormed(states[|events|])
    ensures t !in states[|events|].store && t !in states[|events|].checks
    decreases |events|
  {
    hide Step;
    if events != [] {
      var n := |events| - 1;
      RunPrefix(states, events, effects);
      ForgottenStaysForgotten(states[..n + 1], events[..n], effects[..n], t);
      assert Steps(states[n], events[n], states[n + 1], effects[n]);
      StepKeepsWellFormed(states[n], events[n], states[n + 1], effects[n]);
      StepForgotten(states[n], events[n], states[n + 1], effects[n], t);
    }
  }

  lemma StepForgotten(st: State, ev: Event, next: State, effects: seq<Effect>, t: string)
    requires WellFormed(st) && Steps(st, ev, next, effects)
    requires t !in st.store && t !in st.checks && !Launches(effects, t)
    ensures t !in next.store && t !in next.checks
  {
    hide Messages.PortMappings, Builders.PickPorts, Builders.Fits, H.Push, H.Remove;
    StepLaunches(st, ev, next, effects);
  }
}
