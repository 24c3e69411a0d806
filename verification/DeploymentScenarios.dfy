/** Runs from the empty system in which what the code promises or suggests does not come about. */
module DeploymentScenarios {
  import opened Protocol
  import opened IndexedHeap
  import opened Builders
  import opened TaskStore
  import opened Deployments
  import opened DeploymentRuns
  import opened ServiceOrder
  import H = HeapSpec
  import TQ = TaskQueue
  import Messages

  // ---------- A smaller application is served first ----------

  predicate Plain(app: Application, cpus: real) {
    app.active && app.sla == None && app.ports == [] && app.cpus == cpus
  }

  /** An application without an SLA that has no priority over its parent in the heap is queued last. */
  lemma SubmitLast(st: State, app: Application, now: int)
    requires app.active && app.sla == None
    requires st.queue == [] || !TQ.TaskLess(Key(app, now), st.queue[H.Parent(|st.queue|)])
    ensures Steps(st, Submit(app, now), st.(queue := st.queue + [Key(app, now)]), [Enqueued(app.id)])
  {
  }

  /** The offer is too small for the big application; the small one is the first that fits. */
  lemma SmallIsFirst(q: seq<TQ.TaskKey>, mem: real) returns (offer: Offer)
    requires |q| == 3 && q[0].load.cpus == 4.0 && q[1].load.cpus == 1.0 && q[2].load.cpus == 2.0
    requires forall i :: 0 <= i < 3 ==> q[i].load.mem == mem && q[i].load.ports == []
    ensures offer == Exactly(2.0, mem, 0) && CanPick(offer, 0)
    ensures FirstFit(q, offer) == 1 && Fits(offer, q[2].load) && TQ.TaskLess(q[2], q[1])
    ensures !ServesBest(q, offer)
  {
    hide Exactly, Fits;
    offer := Exactly(2.0, mem, 0);
    ExactlyHolds(2.0, mem, 0);
    ExactlyFits(2.0, mem, 0, q[0].load);
    ExactlyFits(2.0, mem, 0, q[1].load);
    ExactlyFits(2.0, mem, 0, q[2].load);
    assert !ThatFits(offer)(q[0]) && ThatFits(offer)(q[1]);
  }

  /**
   * Submitted in the order big, small, middle, an offer that is too small for the big
   * application goes to the small one, although the middle one fits and has priority.
   */
  lemma PassesOverBigger(big: Application, small: Application, middle: Application, id: string)
    returns (states: seq<State>, events: seq<Event>, effects: seq<seq<Effect>>)
    requires Plain(big, 4.0) && Plain(small, 1.0) && Plain(middle, 2.0) && big.mem == small.mem == middle.mem
    ensures IsRun(states, events, effects) && states[0] == START
    ensures var offer := Exactly(2.0, big.mem, 0);
            && events == [Submit(big, 0), Submit(small, 1), Submit(middle, 2), Offered(offer, true, id, 0)]
            && effects[3] == [Launched(TaskId(id), small.id)]
            && Key(middle, 2) in states[3].queue && Fits(offer, middle) && TQ.TaskLess(Key(middle, 2), Key(small, 1))
            && !ServesBest(states[3].queue, offer)
  {
    hide H.Remove, H.Push, Exactly, PickPorts, Fits, ServesBest, FirstFit;
    var q := [Key(big, 0), Key(small, 1), Key(middle, 2)];
    var offer := SmallIsFirst(q, big.mem);
    var first := START.(queue := [] + [q[0]]);
    var second := first.(queue := first.queue + [q[1]]);
    var third := second.(queue := second.queue + [q[2]]);
    assert third.queue == q;
    SubmitLast(START, big, 0);
    SubmitLast(first, small, 1);
    SubmitLast(second, middle, 2);
    var last := Step(third, Offered(offer, true, id, 0));
    states := [START, first, second, third, last.state];
    events := [Submit(big, 0), Submit(small, 1), Submit(middle, 2), Offered(offer, true, id, 0)];
    effects := [[Enqueued(big.id)], [Enqueued(small.id)], [Enqueued(middle.id)], last.effects];
    assert Steps(third, events[3], last.state, effects[3]);
    assert q[2] == Key(middle, 2);
  }

  // ---------- The life of one task ----------

  /** Active, meant to run once, and health-checked. */
  predicate RunsOnce(app: Application) {
    && app.active && |app.ports| < 0x7FFF_FFFF
    && app.sla.Some? && app.sla.value.minInstances == app.sla.value.maxInstances == 1
    && app.sla.value.healthCheck.Some?
  }

  /** Enough for the application, with one port to spare. */
  function Enough(app: Application): Offer
    requires |app.ports| < 0x7FFF_FFFF
  {
    Exactly(app.cpus, app.mem, |app.ports| + 1)
  }

  /** Fitting and building both succeed. */
  lemma EnoughIsEnough(app: Application, pick: nat)
    requires |app.ports| < 0x7FFF_FFFF
    ensures var n, offer := |app.ports|, Enough(app);
            CanPick(offer, 0) && CanPick(offer, n) && Fits(offer, app) && n <= |PickPorts(offer, n, pick).ports|
  {
    hide Exactly, Fits, PickPorts, PortRanges;
    var n, offer := |app.ports|, Enough(app);
    ExactlyHolds(app.cpus, app.mem, n + 1);
    ExactlyFits(app.cpus, app.mem, n + 1, app);
    assert PortRanges(offer.resources) == [PortRange(1, n + 1)];
    if n > 0 {
      assert Size(PortRanges(offer.resources)[0]) > n;
      PicksIffLargerRange(offer, n, pick);
    }
  }

  function SubmitAndLaunch(app: Application, id: string): (events: seq<Event>)
    requires |app.ports| < 0x7FFF_FFFF
    ensures |events| == 3
  {
    [SaveApp(app), Submit(app, 0), Offered(Enough(app), true, id, 0)]
  }

  /** The application and its only task in this status. */
  ghost predicate HasTask(st: State, app: Application, id: string, status: AppStatus) {
    var t := TaskId(id);
    && st.apps == map[app.id := app] && st.queue == []
    && st.store.Keys == {t} && st.store[t].appId == app.id && st.store[t].taskId == t && st.store[t].status == status
  }

  /** Saving, submitting and an offer launch the application. */
  lemma LaunchOnce(app: Application, id: string)
    returns (states: seq<State>, effects: seq<seq<Effect>>)
    requires RunsOnce(app)
    ensures IsRun(states, SubmitAndLaunch(app, id), effects) && states[0] == START
    ensures effects[2] == [Launched(TaskId(id), app.id)]
    ensures HasTask(states[3], app, id, DEPLOYING) && states[3].checks == {}
  {
    hide Exactly, Fits, PickPorts, Messages.PortMappings;
    var events, x := SubmitAndLaunch(app, id), Key(app, 0);
    EnoughIsEnough(app, 0);
    NothingCounted(app.id, {STARTED});
    var saved := START.(apps := map[app.id := app]);
    var queued := saved.(queue := [x]);
    assert H.Push(TQ.TaskLess, [], x) == [x];
    assert ThatFits(Enough(app))([x][0]) && H.Remove(TQ.TaskLess, [x], 0) == [];
    var last := Step(queued, events[2]);
    states := [START, saved, queued, last.state];
    effects := [[], [Enqueued(app.id)], last.effects];
    assert Steps(START, events[0], saved, []);
    assert Steps(saved, events[1], queued, effects[1]);
    assert Steps(queued, events[2], last.state, effects[2]);
  }

  /** The driver reports a launched task as staging, and then as running: nothing knows of the task any more. */
  lemma StagingLosesTask(app: Application, id: string)
    returns (states: seq<State>, events: seq<Event>, effects: seq<seq<Effect>>)
    requires RunsOnce(app)
    ensures IsRun(states, events, effects) && states[0] == START
    ensures var t := TaskId(id);
            && events == SubmitAndLaunch(app, id) + [Forget(t), Status(t, STARTED, true, 1)]
            && effects[2] == [Launched(t, app.id)] && effects[4] == []
            && t in states[3].store && t !in states[5].store && t !in states[5].checks
  {
    hide SubmitAndLaunch;
    var t := TaskId(id);
    states, effects := LaunchOnce(app, id);
    events := SubmitAndLaunch(app, id);
    var forgotten := states[3].(store := states[3].store - {t}, checks := {});
    assert Steps(states[3], Forget(t), forgotten, []);
    assert Steps(forgotten, Status(t, STARTED, true, 1), forgotten, []);
    RunExtends(states, events, effects, Forget(t), forgotten, []);
    states, events, effects := states + [forgotten], events + [Forget(t)], effects + [[]];
    RunExtends(states, events, effects, Status(t, STARTED, true, 1), forgotten, []);
    states, events, effects := states + [forgotten], events + [Status(t, STARTED, true, 1)], effects + [[]];
  }

  lemma TaskStarts(st: State, app: Application, id: string) returns (next: State)
    requires RunsOnce(app) && HasTask(st, app, id, DEPLOYING) && st.checks == {}
    ensures Steps(st, Status(TaskId(id), STARTED, true, 1), next, [])
    ensures HasTask(next, app, id, STARTED) && next.checks == {TaskId(id)}
  {
    var t := TaskId(id);
    var store := st.store[t := st.store[t].(status := STARTED)];
    assert Tasks(store, app.id, {STARTED}) == {t};
    next := st.(store := store, checks := {t});
  }

  /** An application is deleted while its task runs: when the task fails its health check stays. */
  lemma CheckOutlivesApp(app: Application, id: string)
    returns (states: seq<State>, events: seq<Event>, effects: seq<seq<Effect>>)
    requires RunsOnce(app)
    ensures IsRun(states, events, effects) && states[0] == START
    ensures var t := TaskId(id);
            && events == SubmitAndLaunch(app, id) +
                         [Status(t, STARTED, true, 1), DeleteApp(app.id), Status(t, FAILED, false, 2)]
            && LosesTrack(states[5], events[5]) && !ChecksStarted(states[6])
            && t in states[6].checks && t in states[6].store && states[6].store[t].status == FAILED
  {
    hide SubmitAndLaunch;
    var t := TaskId(id);
    states, effects := LaunchOnce(app, id);
    events := SubmitAndLaunch(app, id);
    var started := TaskStarts(states[3], app, id);
    RunExtends(states, events, effects, Status(t, STARTED, true, 1), started, []);
    states, events, effects := states + [started], events + [Status(t, STARTED, true, 1)], effects + [[]];
    var deleted := started.(apps := map[]);
    assert Steps(started, DeleteApp(app.id), deleted, []);
    RunExtends(states, events, effects, DeleteApp(app.id), deleted, []);
    states, events, effects := states + [deleted], events + [DeleteApp(app.id)], effects + [[]];
    var failed := deleted.(store := deleted.store[t := deleted.store[t].(status := FAILED)]);
    assert Steps(deleted, Status(t, FAILED, false, 2), failed, []);
    RunExtends(states, events, effects, Status(t, FAILED, false, 2), failed, []);
    states, events, effects := states + [failed], events + [Status(t, FAILED, false, 2)], effects + [[]];
  }
}
