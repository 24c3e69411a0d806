/**
 * The minimum of the SLA when calls overlap: submissions and offers may overlap a status
 * update in every way; a second status update of the same application may mislead it.
 */
module OverlappingMinimum {
  import opened Protocol
  import opened IndexedHeap
  import opened TaskStore
  import opened Sla
  import opened OverlappingCalls
  import H = HeapSpec
  import TQ = TaskQueue
  import D = Deployments

  // ---------- What is planned, and what is owed ----------

  /** A status update of the application that has not ended. */
  predicate Updates(call: Call, a: string) {
    match call
    case Fetched(record, status, found) => record.appId == a
    case Updated(app) => app.id == a
    case Needing(app, started) => app.id == a
    case Holding(record) => false
    case _ => call.replacing && call.app.id == a
  }

  /** It has saved the status and may still queue a replacement. */
  predicate Owes(call: Call, a: string) {
    Updates(call, a) && !call.Fetched?
  }

  function Updating(st: State, a: string): nat {
    CountCalls(st.calls, (call: Call) => Updates(call, a))
  }

  function Owed(st: State, a: string): nat {
    CountCalls(st.calls, (call: Call) => Owes(call, a))
  }

  /** Instances that are started, being deployed, queued, or on their way from the queue to the store. */
  function Planned(st: State, a: string): nat {
    Count(st.store, a, D.PLANNED) + TQ.CountFor(st.queue, a) + Held(st, a)
  }

  /** How many instances are missing to the minimum. */
  function Missing(st: State, app: Application): nat
    requires app.sla.Some?
  {
    var min := app.sla.value.minInstances;
    if Planned(st, app.id) < min then min - Planned(st, app.id) else 0
  }

  // ---------- Regular runs ----------

  /** New task ids are fresh, and the application store has the application's definition. */
  ghost predicate Admissible(st: State, ev: Event, app: Application) {
    && EventKeeps(ev, app)
    && (ev.Update? && ev.taskId in st.store && st.store[ev.taskId].appId == app.id ==> ev.found == Some(app))
    && (ev.Offered? ==>
          D.TaskId(ev.id) !in st.store && forall c :: c in st.calls ==> !Names(st.calls[c], D.TaskId(ev.id)))
  }

  /** The call is about to save a record of this task. */
  predicate Names(call: Call, t: string) {
    (call.Fetched? || call.Holding?) && call.record.taskId == t
  }

  /** A record read belongs to the stored application, and a record of a new task is not stored yet. */
  ghost predicate Current(call: Call, store: DeploymentMap, app: Application) {
    match call
    case Fetched(record, status, found) =>
      && (record.taskId in store ==> store[record.taskId].appId == record.appId)
      && (record.appId == app.id ==> found == Some(app))
    case Holding(record) => record.taskId !in store
    case _ => true
  }

  /** Calls that save the same task have read the same application's record. */
  predicate Compatible(x: Call, y: Call) {
    (x.Fetched? || x.Holding?) && Names(y, x.record.taskId) ==>
      x.Fetched? && y.Fetched? && x.record.appId == y.record.appId
  }

  ghost predicate Coherent(calls: map<nat, Call>, store: DeploymentMap, app: Application) {
    && (forall c :: c in calls ==> Current(calls[c], store, app))
    && (forall c, d :: c in calls && d in calls && c != d ==> Compatible(calls[c], calls[d]))
  }

  ghost predicate Sound(st: State, app: Application) {
    Regular(st, app) && WellKeyed(st.store) && Coherent(st.calls, st.store, app)
  }

  /** A call that ends, or goes on without a record, leaves the others coherent. */
  lemma OthersCoherent(calls: map<nat, Call>, store: DeploymentMap, c: nat, to: Call, app: Application)
    requires Coherent(calls, store, app)
    ensures Coherent(calls - {c}, store, app)
    ensures !to.Fetched? && !to.Holding? ==> Coherent(calls[c := to], store, app)
  {
    if !to.Fetched? && !to.Holding? {
      var next := calls[c := to];
      forall d, e | d in next && e in next && d != e
        ensures Compatible(next[d], next[e])
      {
        assert d != c && e != c ==> Compatible(calls[d], calls[e]);
      }
    }
  }

  /** Saving the record of a call is coherent with all other calls. */
  lemma SaveCoherent(calls: map<nat, Call>, store: DeploymentMap, c: nat, record: Deployment, app: Application)
    requires Coherent(calls, store, app) && c in calls
    requires calls[c].Fetched? || calls[c].Holding?
    requires record.taskId == calls[c].record.taskId && record.appId == calls[c].record.appId
    ensures Coherent(calls - {c}, store[record.taskId := record], app)
  {
    var t := record.taskId;
    forall d | d in calls - {c}
      ensures Current(calls[d], store[t := record], app)
    {
      assert Compatible(calls[c], calls[d]);
    }
    assert forall d, e :: d in calls - {c} && e in calls - {c} && d != e ==> Compatible(calls[d], calls[e]);
  }

  lemma ForgetCoherent(calls: map<nat, Call>, store: DeploymentMap, t: string, app: Application)
    requires Coherent(calls, store, app)
    ensures Coherent(calls, store - {t}, app)
  {
    hide Compatible;
  }

  lemma NewCallCoherent(calls: map<nat, Call>, store: DeploymentMap, c: nat, to: Call, app: Application)
    requires Coherent(calls, store, app) && c !in calls && Current(to, store, app)
    requires to.Fetched? || to.Holding?
    requires to.Fetched? ==> to.record.taskId in store
    requires to.Holding? ==> forall d :: d in calls ==> !Names(calls[d], to.record.taskId)
    ensures Coherent(calls[c := to], store, app)
  {
    var next := calls[c := to];
    forall d, e | d in next && e in next && d != e
      ensures Compatible(next[d], next[e])
    {
      if d != c && e != c {
        assert Compatible(calls[d], calls[e]);
      } else {
        var f := if d == c then e else d;
        assert Current(calls[f], store, app) && (to.Holding? ==> !Names(calls[f], to.record.taskId));
      }
    }
  }

  lemma AdvanceCoherent(st: State, c: nat, now: int, app: Application)
    requires Sound(st, app) && c in st.calls
    ensures Coherent(Next(st, c, now).calls, Next(st, c, now).store, app) && WellKeyed(Next(st, c, now).store)
  {
    hide Coherent, Current, Compatible, Count, TQ.CountFor, H.Push;
    match st.calls[c]
    case Fetched(record, status, found) =>
      var saved := record.(status := status);
      SaveCoherent(st.calls, st.store, c, saved, app);
      if found.Some? {
        var next := Next(st, c, now);
        OthersCoherent(st.calls - {c}, next.store, c, Updated(found.value), app);
        assert next.calls == (st.calls - {c})[c := Updated(found.value)];
      }
    case Holding(record) => SaveCoherent(st.calls, st.store, c, record, app);
    case _ =>
      var next := Next(st, c, now);
      OthersCoherent(st.calls, st.store, c, Updated(app), app);
      if c in next.calls { OthersCoherent(st.calls, st.store, c, next.calls[c], app); }
  }

  lemma StepKeepsSound(st: State, ev: Event, app: Application)
    requires Sound(st, app) && Admissible(st, ev, app)
    ensures Sound(Step(st, ev), app)
  {
    hide H.Push, H.Remove, Next, D.FirstFit, Regular, D.TaskId, Coherent;
    StepKeepsRegular(st, ev, app);
    match ev
    case Submit(c, x) => OthersCoherent(st.calls, st.store, c, Scheduling(x, false), app);
    case Update(c, taskId, status, found) =>
      if c !in st.calls && taskId in st.store {
        NewCallCoherent(st.calls, st.store, c, Fetched(st.store[taskId], status, found), app);
      }
    case Offered(c, offer, id, portMapping) =>
      var k := D.FirstFit(st.queue, offer);
      if c !in st.calls && k < |st.queue| {
        var d := Deployment(st.queue[k].load.id, D.TaskId(id), DEPLOYING, offer.hostName, portMapping);
        NewCallCoherent(st.calls, st.store, c, Holding(d), app);
      }
    case Advance(c, now) => if c in st.calls { AdvanceCoherent(st, c, now, app); }
    case Forget(taskId) => ForgetCoherent(st.calls, st.store, taskId, app);
  }

  // ---------- What a step changes ----------

  /** The step saves the status of a task of the application. */
  predicate Saves(st: State, ev: Event, a: string) {
    Moves(st, ev) && st.calls[ev.c].Fetched? && st.calls[ev.c].record.appId == a
  }

  /** The step drops the record of a started or deploying task of the application. */
  predicate Forgets(st: State, ev: Event, a: string) {
    ev.Forget? && ev.taskId in st.store && Counts(st.store[ev.taskId], a, D.PLANNED)
  }

  /** Only saving a status and forgetting take tasks out of the planned or the started ones. */
  lemma StoreChanges(st: State, ev: Event, app: Application, of: set<AppStatus>)
    requires Sound(st, app) && of <= D.PLANNED
    ensures Count(Step(st, ev).store, app.id, of) +
            Indicator(Forgets(st, ev, app.id)) + Indicator(Saves(st, ev, app.id)) >=
            Count(st.store, app.id, of) + if DEPLOYING in of then Indicator(Records(st, ev, app.id)) else 0
  {
    hide H.Push, H.Remove, TQ.CountFor, D.FirstFit, Count, Compatible, H.IsHeap;
    if ev.Forget? {
      CountAfterDelete(st.store, ev.taskId, app.id, of);
    } else if Moves(st, ev) {
      var call := st.calls[ev.c];
      assert Current(call, st.store, app) && CallKeeps(call, app);
      match call
      case Fetched(d, status, found) => CountAfterSave(st.store, d.taskId, d.(status := status), app.id, of);
      case Holding(d) => CountAfterSave(st.store, d.taskId, d, app.id, of);
      case _ =>
    }
  }

  lemma PlannedChanges(st: State, ev: Event, app: Application)
    requires Sound(st, app)
    ensures Planned(Step(st, ev), app.id) + Indicator(Forgets(st, ev, app.id)) + Indicator(Saves(st, ev, app.id)) >=
            Planned(st, app.id) + Indicator(Enqueues(st, ev, app.id))
  {
    hide Step, Held, Count, TQ.CountFor, Forgets, Saves, Enqueues, Records, Takes, H.IsHeap, Coherent;
    QueueCounts(st, ev, app.id);
    HeldChanges(st, ev, app.id);
    StoreChanges(st, ev, app, D.PLANNED);
  }

  /** The step lets an update of the application begin to owe a replacement, or stop to. */
  lemma OwedChanges(st: State, ev: Event, a: string)
    requires Moves(st, ev)
    ensures Owed(Step(st, ev), a) + Indicator(Owes(st.calls[ev.c], a)) ==
            Owed(st, a) + Indicator(ev.c in Step(st, ev).calls && Owes(Step(st, ev).calls[ev.c], a))
  {
    hide Step, CountCalls;
    CallsCount(st, ev, (call: Call) => Owes(call, a));
  }

  lemma OwedStays(st: State, ev: Event, a: string)
    requires !Moves(st, ev)
    ensures Owed(Step(st, ev), a) == Owed(st, a)
  {
    hide CountCalls, H.Push, H.Remove, Count, TQ.CountFor, D.FirstFit;
    if !ev.Forget? { CallsCount(st, ev, (call: Call) => Owes(call, a)); }
  }

  // ---------- The minimum ----------

  /** The update has read how many tasks have started. */
  predicate Reads(call: Call, app: Application) {
    (call.Needing? || (call.Counting? && call.replacing)) && call.app == app
  }

  /** Instances are missing only as far as forgotten or owed, and updates have read no more than was forgotten since. */
  ghost predicate Covered(st: State, app: Application, base: int, forgot: nat)
    requires app.sla.Some?
  {
    && Missing(st, app) <= base + forgot + Owed(st, app.id)
    && forall c :: c in st.calls && Reads(st.calls[c], app) ==>
         st.calls[c].started <= Count(st.store, app.id, {STARTED}) + forgot
  }

  predicate Replaceable(app: Application) {
    app.active && app.sla.Some? && app.sla.value.minInstances <= app.sla.value.maxInstances
  }

  /** An update ends without queueing a replacement only when no more is missing than was forgotten. */
  lemma GivesUpRightly(st: State, ev: Event, app: Application, base: int, forgot: nat)
    requires Sound(st, app) && Replaceable(app) && Covered(st, app, base, forgot)
    requires Moves(st, ev) && Owes(st.calls[ev.c], app.id) && !st.calls[ev.c].Accepted?
    requires ev.c !in Step(st, ev).calls
    ensures Missing(st, app) <= forgot
  {
    hide Count, TQ.CountFor, H.IsHeap, Coherent, Owed, Held, H.Push;
    assert CallKeeps(st.calls[ev.c], app);
    D.StartedArePlanned(st.store, app.id);
    assert Reads(st.calls[ev.c], app);
  }

  lemma OneUpdate(st: State, c: nat, d: nat, a: string)
    requires Updating(st, a) <= 1 && c in st.calls && d in st.calls
    requires Updates(st.calls[c], a) && Updates(st.calls[d], a)
    ensures c == d
  {
    var s := CallsWith(st.calls, (call: Call) => Updates(call, a));
    assert {c, d} <= s;
    Subset({c, d}, s);
  }

  /** An update that owes a replacement and goes on still owes it, unless it queues it. */
  lemma OwesOn(st: State, ev: Event, app: Application)
    requires Sound(st, app) && Moves(st, ev) && ev.c in Step(st, ev).calls
    ensures Owes(st.calls[ev.c], app.id) || Saves(st, ev, app.id) ==> Owes(Step(st, ev).calls[ev.c], app.id)
  {
    hide Count, TQ.CountFor, H.IsHeap, Compatible, H.Push;
    assert Current(st.calls[ev.c], st.store, app);
  }

  lemma SavesGoOn(st: State, ev: Event, app: Application)
    requires Sound(st, app) && Saves(st, ev, app.id)
    ensures ev.c in Step(st, ev).calls
  {
    hide Count, TQ.CountFor, H.IsHeap, Compatible, H.Push;
    assert Current(st.calls[ev.c], st.store, app);
  }

  /** The update ends without queueing a replacement. */
  predicate GivesUp(st: State, ev: Event, a: string) {
    && Moves(st, ev) && Owes(st.calls[ev.c], a) && !st.calls[ev.c].Accepted?
    && ev.c !in Step(st, ev).calls
  }

  /** A step leaves no more missing than forgotten or owed, and `more` when an update gives up too early. */
  lemma StepCovers(st: State, ev: Event, app: Application, slack: nat, more: nat)
    requires Sound(st, app) && Replaceable(app) && Missing(st, app) <= slack + Owed(st, app.id)
    requires GivesUp(st, ev, app.id) ==> Missing(st, app) <= slack || more > 0
    ensures Missing(Step(st, ev), app) <=
            slack + more + Indicator(Forgets(st, ev, app.id)) + Owed(Step(st, ev), app.id)
  {
    PlannedChanges(st, ev, app);
    if Moves(st, ev) {
      var call := st.calls[ev.c];
      OwedChanges(st, ev, app.id);
      if ev.c in Step(st, ev).calls {
        OwesOn(st, ev, app);
      } else if Saves(st, ev, app.id) {
        SavesGoOn(st, ev, app);
      }
      hide Step, Planned, Owed, Sound;
      assert Saves(st, ev, app.id) ==> !Owes(call, app.id) && !Enqueues(st, ev, app.id);
      assert call.Accepted? && Owes(call, app.id) ==> Enqueues(st, ev, app.id);
    } else {
      OwedStays(st, ev, app.id);
      hide Step, Planned, Owed, Sound;
    }
  }

  lemma StepKeepsMissing(st: State, ev: Event, app: Application, base: nat, forgot: nat)
    requires Sound(st, app) && Replaceable(app) && Covered(st, app, base, forgot)
    ensures Missing(Step(st, ev), app) <=
            base + forgot + Indicator(Forgets(st, ev, app.id)) + Owed(Step(st, ev), app.id)
  {
    hide Step, Planned, Owed, Sound, Forgets, Owes;
    if GivesUp(st, ev, app.id) { GivesUpRightly(st, ev, app, base, forgot); }
    StepCovers(st, ev, app, base + forgot, 0);
  }

  /** A call that has just read the number of started tasks has read the current one. */
  lemma NewlyRead(st: State, ev: Event, app: Application)
    ensures var next := Step(st, ev);
            forall c :: c in next.calls && Reads(next.calls[c], app) ==>
              || (c in st.calls && next.calls[c] == st.calls[c] && !(Moves(st, ev) && c == ev.c))
              || next.calls[c].started == Count(next.store, app.id, {STARTED})
  {
    hide Count, TQ.CountFor, H.Push, H.Remove, D.FirstFit;
  }

  lemma StepKeepsReadings(st: State, ev: Event, app: Application, base: nat, forgot: nat)
    requires Sound(st, app) && Replaceable(app) && Covered(st, app, base, forgot) && Updating(st, app.id) <= 1
    ensures var next := Step(st, ev);
            forall c :: c in next.calls && Reads(next.calls[c], app) ==>
              next.calls[c].started <=
              Count(next.store, app.id, {STARTED}) + forgot + Indicator(Forgets(st, ev, app.id))
  {
    var next := Step(st, ev);
    NewlyRead(st, ev, app);
    StoreChanges(st, ev, app, {STARTED});
    hide Step, Count, Forgets, Sound, Updating;
    forall c | c in next.calls && Reads(next.calls[c], app)
      ensures next.calls[c].started <=
              Count(next.store, app.id, {STARTED}) + forgot + Indicator(Forgets(st, ev, app.id))
    {
      if c in st.calls && next.calls[c] == st.calls[c] && Saves(st, ev, app.id) && c != ev.c {
        OneUpdate(st, c, ev.c, app.id);
      }
    }
  }

  // ---------- Runs ----------

  function Forgotten(states: seq<State>, events: seq<Event>, a: string): nat
    requires |events| <= |states|
  {
    if events == [] then 0
    else
      var n := |events| - 1;
      Forgotten(states, events[..n], a) + Indicator(Forgets(states[n], events[n], a))
  }

  lemma {:induction false} ForgottenPrefix(states: seq<State>, events: seq<Event>, m: nat, a: string)
    requires |events| <= m <= |states|
    ensures Forgotten(states[..m], events, a) == Forgotten(states, events, a)
    decreases |events|
  {
    hide Forgets;
    if events != [] { ForgottenPrefix(states, events[..|events| - 1], m, a); }
  }

  /** A run from a regular state without calls in progress, with admissible events. */
  ghost predicate IsAdmissibleRun(states: seq<State>, events: seq<Event>, app: Application) {
    && IsRun(states, events) && states[0].calls == map[]
    && H.IsHeap(TQ.TaskLess, states[0].queue) && WellKeyed(states[0].store)
    && forall i :: 0 <= i < |events| ==> Admissible(states[i], events[i], app)
  }

  lemma AdmissiblePrefix(states: seq<State>, events: seq<Event>, app: Application)
    requires IsAdmissibleRun(states, events, app) && events != []
    ensures var n := |events| - 1;
            && IsAdmissibleRun(states[..n + 1], events[..n], app)
            && Steps(states[n], events[n], states[n + 1]) && Admissible(states[n], events[n], app)
  {
    hide Admissible, Step;
    RunPrefix(states, events);
    var n := |events| - 1;
    forall i | 0 <= i < n
      ensures Admissible(states[..n + 1][i], events[..n][i], app)
    {
      assert Admissible(states[i], events[i], app);
    }
  }

  /**
   * Submissions and offers may overlap a status update in every way: as long as updates of
   * the application do not overlap each other, the instances missing to the minimum are those
   * missing at the start, those forgotten, and the one that the update in progress still owes.
   */
  lemma {:induction false} RunKeepsMinimum(states: seq<State>, events: seq<Event>, app: Application)
    requires IsAdmissibleRun(states, events, app) && Replaceable(app)
    requires forall i :: 0 <= i <= |events| ==> Updating(states[i], app.id) <= 1
    ensures var base := Missing(states[0], app); var last := states[|events|];
            && Missing(last, app) <= base + Forgotten(states, events, app.id) + Owed(last, app.id)
            && Sound(last, app) && Covered(last, app, base, Forgotten(states, events, app.id))
    decreases |events|
  {
    hide Step, Updating, Owed, Planned, Forgets, Coherent, Admissible, H.IsHeap;
    if events == [] {
      assert forall c: nat :: c !in states[0].calls;
      NothingInProgress(states[0], app);
    } else {
      var n := |events| - 1;
      AdmissiblePrefix(states, events, app);
      RunKeepsMinimum(states[..n + 1], events[..n], app);
      ForgottenPrefix(states, events[..n], n + 1, app.id);
      var forgot := Forgotten(states, events[..n], app.id);
      StepKeepsSound(states[n], events[n], app);
      StepKeepsMissing(states[n], events[n], app, Missing(states[0], app), forgot);
      StepKeepsReadings(states[n], events[n], app, Missing(states[0], app), forgot);
    }
  }

  lemma NothingInProgress(st: State, app: Application)
    requires st.calls == map[]
    ensures Coherent(st.calls, st.store, app)
  {
  }

  // ---------- Any number of updates ----------

  /** The update gives up on a number of started tasks that is no longer reached. */
  predicate IsMisled(st: State, ev: Event, app: Application) {
    && GivesUp(st, ev, app.id) && Reads(st.calls[ev.c], app)
    && st.calls[ev.c].started > Count(st.store, app.id, {STARTED})
  }

  function Misled(states: seq<State>, events: seq<Event>, app: Application): nat
    requires |events| <= |states|
  {
    if events == [] then 0
    else
      var n := |events| - 1;
      Misled(states, events[..n], app) + Indicator(IsMisled(states[n], events[n], app))
  }

  lemma {:induction false} MisledPrefix(states: seq<State>, events: seq<Event>, m: nat, app: Application)
    requires |events| <= m <= |states|
    ensures Misled(states[..m], events, app) == Misled(states, events, app)
    decreases |events|
  {
    hide IsMisled;
    if events != [] { MisledPrefix(states, events[..|events| - 1], m, app); }
  }

  /** An update that is not misled gives up only when nothing is missing. */
  lemma GivesUpInformed(st: State, ev: Event, app: Application)
    requires Sound(st, app) && Replaceable(app) && GivesUp(st, ev, app.id) && !IsMisled(st, ev, app)
    ensures Missing(st, app) == 0
  {
    hide Count, TQ.CountFor, H.IsHeap, Coherent, Held, H.Push;
    assert CallKeeps(st.calls[ev.c], app);
    D.StartedArePlanned(st.store, app.id);
  }

  /**
   * However many updates overlap, the instances missing to the minimum are those missing at
   * the start, those forgotten, those that updates in progress owe, and one for each update
   * that was misled by a number of started tasks it had read too early.
   */
  lemma {:induction false} RunMissesByMisled(states: seq<State>, events: seq<Event>, app: Application)
    requires IsAdmissibleRun(states, events, app) && Replaceable(app)
    ensures var last := states[|events|];
            && Sound(last, app)
            && Missing(last, app) <= Missing(states[0], app) + Forgotten(states, events, app.id) +
                                     Misled(states, events, app) + Owed(last, app.id)
    decreases |events|
  {
    hide Step, Owed, Planned, Forgets, Coherent, Admissible, H.IsHeap, IsMisled, GivesUp;
    if events == [] {
      NothingInProgress(states[0], app);
    } else {
      var n := |events| - 1;
      AdmissiblePrefix(states, events, app);
      RunMissesByMisled(states[..n + 1], events[..n], app);
      ForgottenPrefix(states, events[..n], n + 1, app.id);
      MisledPrefix(states, events[..n], n + 1, app);
      StepKeepsSound(states[n], events[n], app);
      var misled := IsMisled(states[n], events[n], app);
      if GivesUp(states[n], events[n], app.id) && !misled { GivesUpInformed(states[n], events[n], app); }
      StepCovers(states[n], events[n], app,
        Missing(states[0], app) + Forgotten(states, events[..n], app.id) + Misled(states, events[..n], app),
        Indicator(misled));
    }
  }

  // ---------- Two updates that overlap ----------

  /**
   * A task fails and another is unhealthy: the update of the first reads the store before the
   * second starts, and the queue after it ended.
   */
  function TwoFailures(app: Application, t: string, u: string): seq<Event> {
    [Update(0, t, FAILED, Some(app)), Advance(0, 0), Advance(0, 0), Update(1, u, UNHEALTHY, Some(app)),
     Advance(1, 0), Advance(1, 0), Advance(1, 0), Advance(1, 0), Advance(1, 0), Advance(1, 0), Advance(0, 0)]
  }

  ghost predicate TwoStarted(store: DeploymentMap, a: string, t: string, u: string) {
    && store.Keys == {t, u} && t != u && WellKeyed(store)
    && store[t].appId == store[u].appId == a && store[t].status == store[u].status == STARTED
  }

  function With(store: DeploymentMap, t: string, status: AppStatus): DeploymentMap
    requires t in store
  {
    store[t := store[t].(status := status)]
  }

  lemma StartedCounts(store: DeploymentMap, a: string, t: string, u: string)
    requires TwoStarted(store, a, t, u)
    ensures var one := With(store, t, FAILED); var none := With(one, u, UNHEALTHY);
            && Count(store, a, {STARTED}) == Count(store, a, D.PLANNED) == 2
            && Count(one, a, {STARTED}) == 1 && Count(none, a, {STARTED}) == Count(none, a, D.PLANNED) == 0
  {
    var one := With(store, t, FAILED);
    var none := With(one, u, UNHEALTHY);
    assert Tasks(store, a, {STARTED}) == Tasks(store, a, D.PLANNED) == {t, u};
    assert Tasks(one, a, {STARTED}) == {u};
    assert Tasks(none, a, {STARTED}) == Tasks(none, a, D.PLANNED) == {};
  }

  /** The states these events pass through, from a queue of so many instances. */
  function FailureStates(
    app: Application, store: DeploymentMap, t: string, u: string, queued: nat): (states: seq<State>)
    requires store.Keys == {t, u}
    ensures |states| == 12
  {
    var one := With(store, t, FAILED);
    var none := With(one, u, UNHEALTHY);
    var begins, waits := Fetched(store[t], FAILED, Some(app)), Needing(app, 1);
    var s: seq<map<nat, Call>> := [
      map[], map[0 := begins], map[0 := Updated(app)], map[0 := waits],
      map[0 := waits, 1 := Fetched(store[u], UNHEALTHY, Some(app))], map[0 := waits, 1 := Updated(app)],
      map[0 := waits, 1 := Needing(app, 0)], map[0 := waits, 1 := Scheduling(app, true)],
      map[0 := waits, 1 := Counting(app, true, 0)], map[0 := waits, 1 := Accepted(app, true)],
      map[0 := waits], map[]];
    seq(12, i requires 0 <= i < 12 =>
      State(if i < 2 then store else if i < 5 then one else none,
            Copies(Key(app, 0), if i < 10 then queued else queued + 1), s[i]))
  }

  lemma FailuresBegin(app: Application, store: DeploymentMap, t: string, u: string, queued: nat)
    requires Replaceable(app) && app.sla.value.minInstances == queued + 2 && TwoStarted(store, app.id, t, u)
    ensures var states := FailureStates(app, store, t, u, queued);
            forall i :: 0 <= i < 4 ==> Steps(states[i], TwoFailures(app, t, u)[i], states[i + 1])
  {
    hide Count, H.Push;
    StartedCounts(store, app.id, t, u);
  }

  lemma FailuresReplace(app: Application, store: DeploymentMap, t: string, u: string, queued: nat)
    requires Replaceable(app) && app.sla.value.minInstances == queued + 2 && TwoStarted(store, app.id, t, u)
    ensures var states := FailureStates(app, store, t, u, queued);
            forall i :: 4 <= i < 8 ==> Steps(states[i], TwoFailures(app, t, u)[i], states[i + 1])
  {
    hide Count, H.Push, TQ.CountFor;
    StartedCounts(store, app.id, t, u);
    CopiesCount(Key(app, 0), queued);
  }

  lemma FailuresEnd(app: Application, store: DeploymentMap, t: string, u: string, queued: nat)
    requires Replaceable(app) && app.sla.value.minInstances == queued + 2 && TwoStarted(store, app.id, t, u)
    ensures var states := FailureStates(app, store, t, u, queued);
            forall i :: 8 <= i < 11 ==> Steps(states[i], TwoFailures(app, t, u)[i], states[i + 1])
  {
    hide Count, H.Push, TQ.CountFor;
    StartedCounts(store, app.id, t, u);
    CopiesPush(Key(app, 0), queued);
    CopiesCount(Key(app, 0), queued);
    CopiesCount(Key(app, 0), queued + 1);
  }

  lemma TwoCallsUpdate(st: State, a: string)
    requires st.calls.Keys <= {0, 1}
    ensures Updating(st, a) <= 2
  {
    Subset(CallsWith(st.calls, (call: Call) => Updates(call, a)), {0, 1});
  }

  lemma NothingForgotten(states: seq<State>, events: seq<Event>, a: string)
    requires |events| <= |states| && forall i :: 0 <= i < |events| ==> !events[i].Forget?
    ensures Forgotten(states, events, a) == 0
  {
    if events != [] { NothingForgotten(states, events[..|events| - 1], a); }
  }

  lemma FailuresAdmissible(app: Application, store: DeploymentMap, t: string, u: string, queued: nat)
    requires TwoStarted(store, app.id, t, u)
    ensures var states := FailureStates(app, store, t, u, queued);
            && H.IsHeap(TQ.TaskLess, states[0].queue)
            && forall i :: 0 <= i < 11 ==> Admissible(states[i], TwoFailures(app, t, u)[i], app)
  {
    CopiesPush(Key(app, 0), queued);
  }

  lemma FailuresMiss(app: Application, store: DeploymentMap, t: string, u: string, queued: nat)
    requires Replaceable(app) && app.sla.value.minInstances == queued + 2 && TwoStarted(store, app.id, t, u)
    ensures var states := FailureStates(app, store, t, u, queued);
            Missing(states[0], app) == 0 && Missing(states[11], app) == 1
  {
    hide Count, TQ.CountFor;
    StartedCounts(store, app.id, t, u);
    CopiesCount(Key(app, 0), queued);
    CopiesCount(Key(app, 0), queued + 1);
    assert CallsWith(map[], (call: Call) => Holds(call, app.id)) == {};
  }

  /**
   * From any two started tasks and a queue of the instances that they leave to the minimum,
   * two overlapping updates queue only one replacement.
   */
  lemma TwoFailuresUndershoot(app: Application, store: DeploymentMap, t: string, u: string)
    returns (states: seq<State>)
    requires Replaceable(app) && app.sla.value.minInstances >= 2 && TwoStarted(store, app.id, t, u)
    ensures IsAdmissibleRun(states, TwoFailures(app, t, u), app)
    ensures states[0] == State(store, Copies(Key(app, 0), app.sla.value.minInstances - 2), map[])
    ensures states[11].calls == map[] && Missing(states[0], app) == 0 && Missing(states[11], app) == 1
    ensures forall i :: 0 <= i <= 11 ==> Updating(states[i], app.id) <= 2
  {
    var n := app.sla.value.minInstances - 2;
    states := FailureStates(app, store, t, u, n);
    forall i | 0 <= i <= 11
      ensures Updating(states[i], app.id) <= 2
    {
      TwoCallsUpdate(states[i], app.id);
    }
    FailuresBegin(app, store, t, u, n);
    FailuresReplace(app, store, t, u, n);
    FailuresEnd(app, store, t, u, n);
    FailuresAdmissible(app, store, t, u, n);
    FailuresMiss(app, store, t, u, n);
    hide Step, Missing, Updating, Admissible;
  }

  // ---------- A minimum of one ----------

  /** The update owes a replacement, and has not read that some task is started. */
  predicate Alert(call: Call, app: Application) {
    Owes(call, app.id) && (Reads(call, app) ==> call.started == 0)
  }

  /** Whenever nothing is planned, some update in progress will find that out. */
  ghost predicate Watched(st: State, app: Application) {
    Planned(st, app.id) == 0 ==> exists c :: c in st.calls && Alert(st.calls[c], app)
  }

  lemma AlertGoesOn(st: State, ev: Event, app: Application)
    requires Sound(st, app) && Replaceable(app) && app.sla.value.minInstances == 1 && Planned(st, app.id) == 0
    requires Moves(st, ev) && Alert(st.calls[ev.c], app) && !st.calls[ev.c].Accepted?
    ensures ev.c in Step(st, ev).calls && Alert(Step(st, ev).calls[ev.c], app)
  {
    hide Count, TQ.CountFor, H.IsHeap, Coherent, Held, H.Push;
    assert CallKeeps(st.calls[ev.c], app);
    D.StartedArePlanned(st.store, app.id);
  }

  lemma OtherCallsStay(st: State, ev: Event, c: nat)
    requires c in st.calls && !(Moves(st, ev) && ev.c == c)
    ensures c in Step(st, ev).calls && Step(st, ev).calls[c] == st.calls[c]
  {
    hide Count, TQ.CountFor, H.Push, H.Remove, D.FirstFit;
  }

  lemma SaveAlerts(st: State, ev: Event, app: Application)
    requires Sound(st, app) && Saves(st, ev, app.id)
    ensures ev.c in Step(st, ev).calls && Alert(Step(st, ev).calls[ev.c], app)
  {
    hide Count, TQ.CountFor, H.IsHeap, Compatible, H.Push;
    assert Current(st.calls[ev.c], st.store, app);
  }

  lemma StepStaysWatched(st: State, ev: Event, app: Application)
    requires Sound(st, app) && Replaceable(app) && app.sla.value.minInstances == 1
    requires Watched(st, app) && !Forgets(st, ev, app.id)
    ensures Watched(Step(st, ev), app)
  {
    PlannedChanges(st, ev, app);
    if Saves(st, ev, app.id) {
      SaveAlerts(st, ev, app);
    } else if Planned(st, app.id) == 0 && !Enqueues(st, ev, app.id) {
      var c :| c in st.calls && Alert(st.calls[c], app);
      if Moves(st, ev) && ev.c == c { AlertGoesOn(st, ev, app); } else { OtherCallsStay(st, ev, c); }
    }
    hide Step, Planned, Sound, Alert;
  }

  /** With a minimum of one, overlapping updates never miss it together: the last one to save is not misled. */
  lemma {:induction false} RunStaysWatched(states: seq<State>, events: seq<Event>, app: Application)
    requires IsAdmissibleRun(states, events, app) && Replaceable(app) && app.sla.value.minInstances == 1
    requires Missing(states[0], app) == 0 && Forgotten(states, events, app.id) == 0
    ensures Sound(states[|events|], app) && Watched(states[|events|], app)
    decreases |events|
  {
    hide Step, Owed, Planned, Forgets, Coherent, Admissible, H.IsHeap, Alert;
    if events == [] {
      NothingInProgress(states[0], app);
    } else {
      var n := |events| - 1;
      AdmissiblePrefix(states, events, app);
      ForgottenPrefix(states, events[..n], n + 1, app.id);
      RunStaysWatched(states[..n + 1], events[..n], app);
      StepKeepsSound(states[n], events[n], app);
      StepStaysWatched(states[n], events[n], app);
    }
  }

  // ---------- When the minimum is kept ----------

  /**
   * No run in which no task is forgotten and no more than `overlap` updates of the application
   * are in progress at a time ends, with all calls, with more missing than at its start.
   */
  ghost predicate KeepsMinimum(app: Application, overlap: nat)
    requires app.sla.Some?
  {
    forall states, events :: IsAdmissibleRun(states, events, app) && MostUpdating(states, events, app, overlap) ==>
      Missing(states[|events|], app) <= Missing(states[0], app)
  }

  ghost predicate MostUpdating(states: seq<State>, events: seq<Event>, app: Application, overlap: nat)
    requires IsRun(states, events)
  {
    && states[|events|].calls == map[] && Forgotten(states, events, app.id) == 0
    && forall i :: 0 <= i <= |events| ==> Updating(states[i], app.id) <= overlap
  }

  lemma KeepsMinimumOf(states: seq<State>, events: seq<Event>, app: Application, overlap: nat)
    requires IsAdmissibleRun(states, events, app) && MostUpdating(states, events, app, overlap) && Replaceable(app)
    requires overlap <= 1 || app.sla.value.minInstances <= 1
    ensures Missing(states[|events|], app) <= Missing(states[0], app)
  {
    hide Step, Planned, Updating, Admissible;
    if overlap <= 1 {
      RunKeepsMinimum(states, events, app);
      NothingOwed(states[|events|], app.id);
    } else if app.sla.value.minInstances == 1 && Missing(states[0], app) == 0 {
      RunStaysWatched(states, events, app);
    }
  }

  /** The minimum is kept exactly when updates of the application do not overlap, or it is at most one. */
  lemma KeepsMinimumIff(app: Application, overlap: nat)
    requires Replaceable(app)
    ensures KeepsMinimum(app, overlap) <==> overlap <= 1 || app.sla.value.minInstances <= 1
  {
    hide Missing, Updating;
    if overlap <= 1 || app.sla.value.minInstances <= 1 {
      forall states, events | IsAdmissibleRun(states, events, app) && MostUpdating(states, events, app, overlap)
        ensures Missing(states[|events|], app) <= Missing(states[0], app)
      {
        KeepsMinimumOf(states, events, app, overlap);
      }
    } else {
      var t, u := Deployment(app.id, "t", STARTED, "", []), Deployment(app.id, "u", STARTED, "", []);
      assert "t"[0] != "u"[0];
      var states := TwoFailuresUndershoot(app, map["t" := t, "u" := u], "t", "u");
      NothingForgotten(states, TwoFailures(app, "t", "u"), app.id);
      assert MostUpdating(states, TwoFailures(app, "t", "u"), app, overlap);
    }
  }

  lemma NothingOwed(st: State, a: string)
    requires st.calls == map[]
    ensures Owed(st, a) == 0
  {
    assert CallsWith(st.calls, (call: Call) => Owes(call, a)) == {};
  }
}
