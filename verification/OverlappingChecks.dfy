/**
 * Health checks when calls overlap: status updates and forgetting a task, access by access.
 * The queue is left aside, every application is stored, and launching is one access.
 */
module OverlappingChecks {
  import opened Protocol
  import opened TaskStore
  import opened Sla
  import D = Deployments

  // ---------- Calls in progress ----------

  datatype Call =
    /** `updateStatus` has read this record. */
    | Fetched(taskId: string, record: Deployment, status: AppStatus, checkable: bool)
    /** It has saved the status, and is about to register or unregister the check. */
    | Saved(taskId: string, status: AppStatus, checkable: bool)
    /** `forgetTask` has unregistered the check, and is about to delete the record. */
    | Unregistered(taskId: string)

  /** `checks` holds the task ids with a registered health check. */
  datatype State = State(store: DeploymentMap, checks: set<string>, calls: map<nat, Call>)

  datatype Event =
    | Launch(record: Deployment)
    | Update(c: nat, taskId: string, status: AppStatus, checkable: bool)
    | Forget(c: nat, taskId: string)
    /** The call `c` makes its next access. */
    | Advance(c: nat)

  const EMPTY := State(map[], {}, map[])

  function Next(st: State, c: nat): State
    requires c in st.calls
  {
    match st.calls[c]
    case Fetched(t, record, status, checkable) =>
      st.(store := st.store[t := record.(status := status)], calls := st.calls[c := Saved(t, status, checkable)])
    case Saved(t, status, checkable) =>
      st.(checks := D.Recheck(st.checks, t, status, checkable), calls := st.calls - {c})
    case Unregistered(t) => st.(store := st.store - {t}, calls := st.calls - {c})
  }

  /** One access; an event that is not enabled changes nothing. */
  function Step(st: State, ev: Event): State {
    match ev
    case Launch(record) => st.(store := st.store[record.taskId := record])
    case Update(c, t, status, checkable) =>
      if c in st.calls || t !in st.store then st
      else st.(calls := st.calls[c := Fetched(t, st.store[t], status, checkable)])
    case Forget(c, t) =>
      if c in st.calls then st else st.(checks := st.checks - {t}, calls := st.calls[c := Unregistered(t)])
    case Advance(c) => if c in st.calls then Next(st, c) else st
  }

  /** New task ids are fresh. */
  predicate Admissible(st: State, ev: Event) {
    ev.Launch? ==> ev.record.taskId !in st.store && forall c :: c in st.calls ==> st.calls[c].taskId != ev.record.taskId
  }

  ghost predicate Steps(st: State, ev: Event, next: State) {
    Admissible(st, ev) && next == Step(st, ev)
  }

  ghost predicate IsRun(states: seq<State>, events: seq<Event>) {
    && |states| == |events| + 1
    && forall i :: 0 <= i < |events| ==> Steps(states[i], events[i], states[i + 1])
  }

  lemma RunPrefix(states: seq<State>, events: seq<Event>)
    requires IsRun(states, events) && events != []
    ensures var n := |events| - 1; IsRun(states[..n + 1], events[..n])
  {
  }

  // ---------- Calls one after the other ----------

  /** A status update that nothing overlaps performs the status step on store and checks. */
  lemma UpdatesAlone(st: State, m: D.State, c: nat, t: string, status: AppStatus, checkable: bool, now: int)
    requires c !in st.calls && m.store == st.store && m.checks == st.checks
    requires t in st.store ==> st.store[t].appId in m.apps
    ensures var next := D.UpdateStatus(m, t, status, checkable, now).0;
            Step(Step(Step(st, Update(c, t, status, checkable)), Advance(c)), Advance(c)) ==
            State(next.store, next.checks, st.calls)
  {
    hide D.Recheck, NeedsMoreInstances, CanDeployMoreInstances;
    if t in st.store {
      var d := st.store[t];
      var saved := m.(store := m.store[t := d.(status := status)]);
      ScheduleKeepsStore(saved, m.apps[d.appId], now);
      assert (st.calls[c := Fetched(t, d, status, checkable)])[c := Saved(t, status, checkable)] - {c} == st.calls;
    }
  }

  lemma ScheduleKeepsStore(m: D.State, app: Application, now: int)
    ensures D.Schedule(m, app, now).0.store == m.store && D.Schedule(m, app, now).0.checks == m.checks
  {
  }

  /** Forgetting a task, when nothing overlaps, drops its record and its check. */
  lemma ForgetsAlone(st: State, c: nat, t: string)
    requires c !in st.calls
    ensures Step(Step(st, Forget(c, t)), Advance(c)) == State(st.store - {t}, st.checks - {t}, st.calls)
  {
    assert st.calls[c := Unregistered(t)] - {c} == st.calls;
  }

  // ---------- One call for a task at a time ----------

  /** A registered health check belongs to a stored task that has started. */
  ghost predicate ChecksStarted(st: State) {
    forall t :: t in st.checks ==> t in st.store && st.store[t].status == STARTED
  }

  function CallsOn(st: State, t: string): set<nat> {
    set c | c in st.calls && st.calls[c].taskId == t
  }

  /** What a call knows about its task while no other call works on it. */
  predicate Consistent(call: Call, st: State) {
    match call
    case Fetched(t, record, status, checkable) =>
      t in st.store && st.store[t] == record && (t in st.checks ==> record.status == STARTED)
    case Saved(t, status, checkable) => t in st.store && st.store[t].status == status
    case Unregistered(t) => t !in st.checks
  }

  lemma OneCall(st: State, t: string, c: nat, d: nat)
    requires |CallsOn(st, t)| <= 1 && c in CallsOn(st, t) && d in CallsOn(st, t)
    ensures c == d
  {
    Subset({c, d}, CallsOn(st, t));
  }

  predicate Enabled(st: State, ev: Event) {
    match ev
    case Launch(record) => true
    case Update(c, t, status, checkable) => c !in st.calls && t in st.store
    case Forget(c, t) => c !in st.calls
    case Advance(c) => c in st.calls
  }

  /** The task a step works on. */
  function TaskOf(st: State, ev: Event): string
    requires Enabled(st, ev)
  {
    match ev
    case Launch(record) => record.taskId
    case Update(c, t, status, checkable) => t
    case Forget(c, t) => t
    case Advance(c) => st.calls[c].taskId
  }

  /** A step leaves all other tasks and the calls on them alone. */
  lemma OthersUntouched(st: State, ev: Event, t: string)
    requires Enabled(st, ev) && t != TaskOf(st, ev)
    ensures var next := Step(st, ev);
            && (t in next.checks <==> t in st.checks) && (t in next.store <==> t in st.store)
            && (t in st.store ==> next.store[t] == st.store[t])
            && CallsOn(next, t) == CallsOn(st, t)
            && forall c :: c in CallsOn(st, t) ==> next.calls[c] == st.calls[c]
  {
  }

  /** What the invariant says of one task. */
  ghost predicate InvOf(st: State, t: string) {
    && (t in st.checks && CallsOn(st, t) == {} ==> t in st.store && st.store[t].status == STARTED)
    && (forall c :: c in CallsOn(st, t) ==> Consistent(st.calls[c], st))
  }

  lemma BeginsCall(st: State, ev: Event)
    requires Enabled(st, ev) && InvOf(st, TaskOf(st, ev)) && (ev.Update? || ev.Forget?)
    requires |CallsOn(Step(st, ev), TaskOf(st, ev))| <= 1
    ensures InvOf(Step(st, ev), TaskOf(st, ev))
  {
    var t, next := TaskOf(st, ev), Step(st, ev);
    forall d | d in CallsOn(next, t)
      ensures d == ev.c
    {
      OneCall(next, t, d, ev.c);
    }
    assert forall d :: d in CallsOn(st, t) ==> d in CallsOn(next, t);
    assert CallsOn(st, t) == {};
  }

  lemma MovesCall(st: State, c: nat)
    requires c in st.calls && InvOf(st, st.calls[c].taskId) && |CallsOn(st, st.calls[c].taskId)| <= 1
    ensures InvOf(Step(st, Advance(c)), st.calls[c].taskId)
  {
    var t, next := st.calls[c].taskId, Step(st, Advance(c));
    assert c in CallsOn(st, t) && Consistent(st.calls[c], st);
    assert c in next.calls ==> c in CallsOn(next, t);
    forall d | d in CallsOn(next, t)
      ensures d == c
    {
      OneCall(st, t, d, c);
    }
  }

  lemma LaunchesTask(st: State, record: Deployment)
    requires InvOf(st, record.taskId) && Admissible(st, Launch(record))
    ensures InvOf(Step(st, Launch(record)), record.taskId)
  {
    assert CallsOn(st, record.taskId) == {};
  }

  /** Every access keeps the invariant of every task, as long as calls on one task do not overlap. */
  lemma StepKeepsInv(st: State, ev: Event, t: string)
    requires InvOf(st, t) && Admissible(st, ev)
    requires |CallsOn(st, t)| <= 1 && |CallsOn(Step(st, ev), t)| <= 1
    ensures InvOf(Step(st, ev), t)
  {
    if Enabled(st, ev) {
      if t != TaskOf(st, ev) {
        OthersUntouched(st, ev, t);
        KeepsOther(st, Step(st, ev), t);
      } else if ev.Advance? {
        MovesCall(st, ev.c);
      } else if ev.Launch? {
        LaunchesTask(st, ev.record);
      } else {
        BeginsCall(st, ev);
      }
    }
  }

  lemma KeepsOther(st: State, next: State, t: string)
    requires InvOf(st, t) && (t in next.checks <==> t in st.checks) && (t in next.store <==> t in st.store)
    requires (t in st.store ==> next.store[t] == st.store[t]) && CallsOn(next, t) == CallsOn(st, t)
    requires forall c :: c in CallsOn(st, t) ==> next.calls[c] == st.calls[c]
    ensures InvOf(next, t)
  {
    forall c | c in CallsOn(next, t)
      ensures Consistent(next.calls[c], next)
    {
      assert c in CallsOn(st, t) && Consistent(st.calls[c], st);
    }
  }

  /** Calls on a task that do not overlap keep its check with it, whatever happens to other tasks. */
  lemma {:induction false} RunKeepsCheck(states: seq<State>, events: seq<Event>, t: string)
    requires IsRun(states, events) && InvOf(states[0], t)
    requires forall i :: 0 <= i <= |events| ==> |CallsOn(states[i], t)| <= 1
    ensures InvOf(states[|events|], t)
    decreases |events|
  {
    hide Step, InvOf, CallsOn;
    if events != [] {
      var n := |events| - 1;
      RunPrefix(states, events);
      RunKeepsCheck(states[..n + 1], events[..n], t);
      assert Steps(states[n], events[n], states[n + 1]);
      StepKeepsInv(states[n], events[n], t);
    }
  }

  // ---------- When checks follow their tasks ----------

  /**
   * From a state in which checks belong to started tasks, no run with at most `overlap` calls
   * on a task at a time ends, with all calls, in one in which some check does not.
   */
  ghost predicate KeepsChecks(overlap: nat) {
    forall states, events :: IsRun(states, events) && IsCalm(states, events, overlap) ==>
      ChecksStarted(states[|events|])
  }

  ghost predicate IsCalm(states: seq<State>, events: seq<Event>, overlap: nat)
    requires IsRun(states, events)
  {
    && ChecksStarted(states[0]) && states[0].calls == map[] && states[|events|].calls == map[]
    && forall i, t :: 0 <= i <= |events| ==> |CallsOn(states[i], t)| <= overlap
  }

  lemma CalmKeepsChecks(states: seq<State>, events: seq<Event>, overlap: nat)
    requires IsRun(states, events) && IsCalm(states, events, overlap) && overlap <= 1
    ensures ChecksStarted(states[|events|])
  {
    hide Step;
    forall t | t in states[|events|].checks
      ensures t in states[|events|].store && states[|events|].store[t].status == STARTED
    {
      RunKeepsCheck(states, events, t);
      assert CallsOn(states[|events|], t) == {};
    }
  }

  /** A task whose start is reported while it is forgotten. */
  function StartWhileForgotten(record: Deployment): seq<Event> {
    var t := record.taskId;
    [Launch(record), Update(0, t, STARTED, true), Advance(0), Forget(1, t), Advance(1), Advance(0)]
  }

  lemma TwoCalls(st: State, t: string)
    requires st.calls.Keys <= {0, 1}
    ensures |CallsOn(st, t)| <= 2
  {
    Subset(CallsOn(st, t), {0, 1});
  }

  /** A run from the empty system after which a check is registered for a task that is not stored. */
  lemma ForgottenIsChecked(record: Deployment) returns (states: seq<State>)
    ensures IsRun(states, StartWhileForgotten(record)) && IsCalm(states, StartWhileForgotten(record), 2)
    ensures states[0] == EMPTY && record.taskId in states[6].checks && record.taskId !in states[6].store
  {
    var t, started := record.taskId, record.(status := STARTED);
    var saved := Saved(t, STARTED, true);
    states := [
      EMPTY, State(map[t := record], {}, map[]),
      State(map[t := record], {}, map[0 := Fetched(t, record, STARTED, true)]),
      State(map[t := started], {}, map[0 := saved]),
      State(map[t := started], {}, map[0 := saved, 1 := Unregistered(t)]),
      State(map[], {}, map[0 := saved]), State(map[], {t}, map[])];
    forall i, u | 0 <= i <= 6
      ensures |CallsOn(states[i], u)| <= 2
    {
      TwoCalls(states[i], u);
    }
  }

  /** A started task is reported as running once more while its health check fails. */
  function RunningWhileUnhealthy(record: Deployment): seq<Event> {
    var t := record.taskId;
    [Launch(record), Update(0, t, STARTED, true), Advance(0), Advance(0), Update(0, t, STARTED, true), Advance(0),
     Update(1, t, UNHEALTHY, false), Advance(1), Advance(1), Advance(0)]
  }

  /** The states these events pass through. */
  function UnhealthyStates(record: Deployment): (states: seq<State>)
    ensures |states| == 11
  {
    var t, run, ill := record.taskId, record.(status := STARTED), record.(status := UNHEALTHY);
    var saved := Saved(t, STARTED, true);
    [EMPTY, State(map[t := record], {}, map[]),
     State(map[t := record], {}, map[0 := Fetched(t, record, STARTED, true)]),
     State(map[t := run], {}, map[0 := saved]), State(map[t := run], {t}, map[]),
     State(map[t := run], {t}, map[0 := Fetched(t, run, STARTED, true)]), State(map[t := run], {t}, map[0 := saved]),
     State(map[t := run], {t}, map[0 := saved, 1 := Fetched(t, run, UNHEALTHY, false)]),
     State(map[t := ill], {t}, map[0 := saved, 1 := Saved(t, UNHEALTHY, false)]),
     State(map[t := ill], {}, map[0 := saved]), State(map[t := ill], {t}, map[])]
  }

  lemma UnhealthyBegins(record: Deployment)
    ensures var states := UnhealthyStates(record);
            forall i :: 0 <= i < 5 ==> Steps(states[i], RunningWhileUnhealthy(record)[i], states[i + 1])
  {
  }

  lemma UnhealthyEnds(record: Deployment)
    ensures var states := UnhealthyStates(record);
            forall i :: 5 <= i < 10 ==> Steps(states[i], RunningWhileUnhealthy(record)[i], states[i + 1])
  {
  }

  /** A run from the empty system after which a check is registered for an unhealthy task. */
  lemma UnhealthyIsChecked(record: Deployment) returns (states: seq<State>)
    ensures IsRun(states, RunningWhileUnhealthy(record)) && IsCalm(states, RunningWhileUnhealthy(record), 2)
    ensures var t, last := record.taskId, states[10];
            states[0] == EMPTY && t in last.checks && t in last.store && last.store[t].status == UNHEALTHY
  {
    states := UnhealthyStates(record);
    UnhealthyBegins(record);
    UnhealthyEnds(record);
    hide Steps, CallsOn;
    forall i, u | 0 <= i <= 10
      ensures |CallsOn(states[i], u)| <= 2
    {
      TwoCalls(states[i], u);
    }
  }

  /** Checks follow their tasks exactly when calls on one task do not overlap. */
  lemma KeepsChecksIff(overlap: nat)
    ensures KeepsChecks(overlap) <==> overlap <= 1
  {
    if overlap <= 1 {
      forall states, events | IsRun(states, events) && IsCalm(states, events, overlap)
        ensures ChecksStarted(states[|events|])
      {
        CalmKeepsChecks(states, events, overlap);
      }
    } else {
      var record := Deployment("app", "task", DEPLOYING, "", []);
      var states := UnhealthyIsChecked(record);
      assert IsCalm(states, RunningWhileUnhealthy(record), overlap);
    }
  }
}
