/** The SLA rules: how many instances an application needs, may have, and should change by. */
module Sla {
  import opened Protocol
  import opened TaskStore
  import TQ = TaskQueue

  type Applications = map<string, Application>

  /** Every deployment is stored under its own task id. */
  ghost predicate WellKeyed(store: DeploymentMap) {
    forall t :: t in store ==> store[t].taskId == t
  }

  // ---------- Rules ----------

  /** Instances that are started, or queued to be. */
  function Running(store: DeploymentMap, queue: seq<TQ.TaskKey>, appId: string): nat {
    Count(store, appId, {STARTED}) + TQ.CountFor(queue, appId)
  }

  predicate NeedsMoreInstances(store: DeploymentMap, queue: seq<TQ.TaskKey>, app: Application) {
    app.active && app.sla.Some? && Running(store, queue, app.id) < app.sla.value.minInstances
  }

  /** The answer for no application is no: a missing message reads as inactive. */
  predicate CanDeployMoreInstances(store: DeploymentMap, queue: seq<TQ.TaskKey>, app: Option<Application>) {
    && app.Some? && app.value.active
    && (app.value.sla.Some? ==> Running(store, queue, app.value.id) < app.value.sla.value.maxInstances)
  }

  predicate ShouldStopForInactive(status: AppStatus) {
    status != ABSENT && status != FAILED && status != STOPPED && status != STOPPING && status != DISABLING
  }

  predicate CountsAsRunningForActive(status: AppStatus) {
    status == STARTED || status == DEPLOYING || status == UNHEALTHY
  }

  const UP: set<AppStatus> := {STARTED, DEPLOYING, UNHEALTHY}

  /** Instances that are up or coming up, and queued ones. */
  function Total(store: DeploymentMap, queue: seq<TQ.TaskKey>, appId: string): nat {
    Count(store, appId, UP) + TQ.CountFor(queue, appId)
  }

  /** The nearest number of instances the SLA allows. */
  function Clamp(n: int, sla: ApplicationSLA): int {
    if n < sla.minInstances then sla.minInstances
    else if n > sla.maxInstances then sla.maxInstances
    else n
  }

  /** A request to scale an application by `count`, with the tasks to stop when it is disabled. */
  datatype ChangeDeployCount = ChangeDeployCount(app: Application, tasks: seq<string>, count: int)

  function LeftOvers(store: DeploymentMap, appId: string): set<string> {
    set t | t in store && store[t].appId == appId && ShouldStopForInactive(store[t].status)
  }

  /** The application deviates from its SLA, or is disabled and has to be swept up. */
  predicate Deviates(store: DeploymentMap, queue: seq<TQ.TaskKey>, app: Application) {
    if app.active then
      app.sla.Some? && Clamp(Total(store, queue, app.id), app.sla.value) != Total(store, queue, app.id)
    else true
  }

  /** The change that brings an application back within its SLA. */
  ghost predicate IsChangeFor(c: ChangeDeployCount, store: DeploymentMap, queue: seq<TQ.TaskKey>, app: Application) {
    && c.app == app && Deviates(store, queue, app)
    && if app.active then
         c.tasks == [] && Total(store, queue, app.id) + c.count == Clamp(Total(store, queue, app.id), app.sla.value)
       else
         Lists(c.tasks, LeftOvers(store, app.id)) && c.count == -|c.tasks|
  }

  lemma ChangeNamesApp(c: ChangeDeployCount, store: DeploymentMap, queue: seq<TQ.TaskKey>, app: Application)
    requires IsChangeFor(c, store, queue, app)
    ensures c.app == app
  {
  }

  // ---------- Agreement of the rules ----------

  lemma StartedAreUp(store: DeploymentMap, appId: string)
    ensures Count(store, appId, {STARTED}) <= Count(store, appId, UP)
  {
    Subset(Tasks(store, appId, {STARTED}), Tasks(store, appId, UP));
  }

  lemma {:induction false} Subset<T>(a: set<T>, b: set<T>)
    requires a <= b
    ensures |a| <= |b|
  {
    assert b == a + (b - a);
  }

  /**
   * A request to scale up is made only for applications that need more instances, and
   * those may deploy more.
   */
  lemma ScaleUpIsAllowed(c: ChangeDeployCount, store: DeploymentMap, queue: seq<TQ.TaskKey>, app: Application)
    requires IsChangeFor(c, store, queue, app) && c.count > 0
    ensures NeedsMoreInstances(store, queue, app)
    ensures app.sla.value.minInstances <= app.sla.value.maxInstances ==>
              CanDeployMoreInstances(store, queue, Some(app))
  {
    StartedAreUp(store, app.id);
  }

  function Distance(x: int, y: int): nat {
    if x < y then y - x else x - y
  }

  /** An active application with an SLA needs a change exactly when its total lies outside. */
  lemma DeviatesIffOutside(store: DeploymentMap, queue: seq<TQ.TaskKey>, app: Application)
    requires app.active && app.sla.Some?
    ensures var total, sla := Total(store, queue, app.id), app.sla.value;
            Deviates(store, queue, app) <==> total < sla.minInstances || total > sla.maxInstances
  {
  }

  /**
   * A change leads into the SLA by the least number of instances; when minimum and maximum
   * contradict each other the minimum goes first.
   */
  lemma ChangeIsNearest(c: ChangeDeployCount, store: DeploymentMap, queue: seq<TQ.TaskKey>, app: Application)
    requires IsChangeFor(c, store, queue, app) && app.active
    ensures var total, sla := Total(store, queue, app.id), app.sla.value;
            && (total < sla.minInstances ==> total + c.count == sla.minInstances)
            && (total >= sla.minInstances ==> total + c.count == sla.maxInstances < total)
            && (sla.minInstances <= sla.maxInstances ==>
                  && sla.minInstances <= total + c.count <= sla.maxInstances
                  && forall m :: sla.minInstances <= m <= sla.maxInstances ==>
                       Distance(0, c.count) <= Distance(total, m))
  {
    hide Total;
  }

  /** The two status predicates agree: a disabled application is asked to stop exactly what counts as up. */
  lemma DisabledStopsAllUp(c: ChangeDeployCount, store: DeploymentMap, queue: seq<TQ.TaskKey>, app: Application)
    requires IsChangeFor(c, store, queue, app) && !app.active
    ensures forall t :: t in c.tasks <==> t in Tasks(store, app.id, UP)
    ensures c.count + Count(store, app.id, UP) == 0
  {
    assert LeftOvers(store, app.id) == Tasks(store, app.id, UP);
    ListLength(c.tasks, LeftOvers(store, app.id));
  }

  // ---------- The monitor ----------

  class SimpleSLAMonitor {
    const taskStore: DefaultTaskStore
    const queue: TQ.TaskQueue

    constructor (taskStore: DefaultTaskStore, queue: TQ.TaskQueue)
      ensures this.taskStore == taskStore && this.queue == queue
    {
      this.taskStore, this.queue := taskStore, queue;
    }

    method NeedsMore(app: Application) returns (needs: bool)
      requires queue.Valid()
      ensures needs <==> NeedsMoreInstances(taskStore.store, queue.pq.Keys(), app)
      ensures needs <==>
                && app.active && app.sla.Some?
                && Count(taskStore.store, app.id, {STARTED}) + TQ.CountFor(queue.pq.Keys(), app.id) <
                   app.sla.value.minInstances
    {
      if !app.active {
        return app.active;
      }
      var started := taskStore.RunningAppsCount(app.id);
      var queued := queue.CountAppsForID(app.id);
      if app.sla.None? {
        return false;
      }
      return started + queued < app.sla.value.minInstances;
    }

    method CanDeployMore(app: Option<Application>) returns (can: bool)
      requires queue.Valid()
      ensures can <==> CanDeployMoreInstances(taskStore.store, queue.pq.Keys(), app)
      ensures can <==>
                && app.Some? && app.value.active
                && (app.value.sla.Some? ==>
                      Count(taskStore.store, app.value.id, {STARTED}) + TQ.CountFor(queue.pq.Keys(), app.value.id) <
                      app.value.sla.value.maxInstances)
    {
      if app.None? || !app.value.active {
        return false;
      }
      if app.value.sla.None? {
        return true;
      }
      var started := taskStore.RunningAppsCount(app.value.id);
      var queued := queue.CountAppsForID(app.value.id);
      return started + queued < app.value.sla.value.maxInstances;
    }

    /** How many deployments count as running. */
    method CountUp(deployments: seq<Deployment>, ghost keys: seq<string>, appId: string) returns (count: nat)
      requires Lists(keys, set t | t in taskStore.store && taskStore.store[t].appId == appId)
      requires |deployments| == |keys|
      requires forall i :: 0 <= i < |keys| ==> keys[i] in taskStore.store && deployments[i] == taskStore.store[keys[i]]
      ensures count == Count(taskStore.store, appId, UP)
    {
      count := 0;
      ghost var up := [];
      for i := 0 to |deployments|
        invariant count == |up|
        invariant Lists(up, set t | t in keys[..i] && CountsAsRunningForActive(taskStore.store[t].status))
      {
        ghost var done := set t | t in keys[..i] && CountsAsRunningForActive(taskStore.store[t].status);
        ghost var more := set t | t in keys[..i + 1] && CountsAsRunningForActive(taskStore.store[t].status);
        assert keys[..i + 1] == keys[..i] + [keys[i]];
        if CountsAsRunningForActive(deployments[i].status) {
          ListGrows(up, done, keys[i]);
          assert more == done + {keys[i]};
          up := up + [keys[i]];
          count := count + 1;
        } else {
          assert more == done;
        }
      }
      assert keys[..|keys|] == keys;
      ListLength(up, Tasks(taskStore.store, appId, UP));
    }

    /** The tasks of a disabled application that are still around. */
    method ToKill(deployments: seq<Deployment>, ghost keys: seq<string>, appId: string) returns (toKill: seq<string>)
      requires Lists(keys, set t | t in taskStore.store && taskStore.store[t].appId == appId)
      requires |deployments| == |keys| && WellKeyed(taskStore.store)
      requires forall i :: 0 <= i < |keys| ==> keys[i] in taskStore.store && deployments[i] == taskStore.store[keys[i]]
      ensures Lists(toKill, LeftOvers(taskStore.store, appId))
    {
      toKill := [];
      for i := 0 to |deployments|
        invariant Lists(toKill, set t | t in keys[..i] && ShouldStopForInactive(taskStore.store[t].status))
      {
        ghost var done := set t | t in keys[..i] && ShouldStopForInactive(taskStore.store[t].status);
        ghost var more := set t | t in keys[..i + 1] && ShouldStopForInactive(taskStore.store[t].status);
        assert keys[..i + 1] == keys[..i] + [keys[i]];
        if ShouldStopForInactive(deployments[i].status) {
          ListGrows(toKill, done, keys[i]);
          assert more == done + {keys[i]};
          toKill := toKill + [deployments[i].taskId];
        } else {
          assert more == done;
        }
      }
      assert keys[..|keys|] == keys;
    }

    /** The change one application needs, if any. */
    method ChangeFor(app: Application) returns (change: Option<ChangeDeployCount>)
      requires queue.Valid() && WellKeyed(taskStore.store)
      ensures change.Some? <==> Deviates(taskStore.store, queue.pq.Keys(), app)
      ensures app.active && app.sla.Some? ==>
                var total := Count(taskStore.store, app.id, {STARTED, DEPLOYING, UNHEALTHY}) +
                             TQ.CountFor(queue.pq.Keys(), app.id);
                && (change.Some? <==> total < app.sla.value.minInstances || total > app.sla.value.maxInstances)
                && (change.Some? && total < app.sla.value.minInstances ==>
                      total + change.value.count == app.sla.value.minInstances)
                && (change.Some? && total >= app.sla.value.minInstances ==>
                      total + change.value.count == app.sla.value.maxInstances)
      ensures change.Some? ==> IsChangeFor(change.value, taskStore.store, queue.pq.Keys(), app)
    {
      var deployments, keys := taskStore.Filter((d: Deployment) => d.appId == app.id);
      var queuedCounts := queue.CountsForApps();
      if app.active {
        if app.sla.None? {
          return None;
        }
        var sla := app.sla.value;
        var count := CountUp(deployments, keys, app.id);
        var queuedCount := if app.id in queuedCounts then queuedCounts[app.id] else 0;
        var totalCount := count + queuedCount;
        if totalCount < sla.minInstances {
          return Some(ChangeDeployCount(app, [], sla.minInstances - totalCount));
        } else if totalCount > sla.maxInstances {
          return Some(ChangeDeployCount(app, [], sla.maxInstances - totalCount));
        }
        return None;
      }
      var toKill := ToKill(deployments, keys, app.id);
      return Some(ChangeDeployCount(app, toKill, -|toKill|));
    }

    /** One change for every stored application that deviates, in the arbitrary order of the store. */
    method ChangeDeployCounts(apps: Applications) returns (changes: seq<ChangeDeployCount>, ghost ids: seq<string>)
      requires queue.Valid() && WellKeyed(taskStore.store)
      ensures Lists(ids, set a | a in apps && Deviates(taskStore.store, queue.pq.Keys(), apps[a]))
      ensures |changes| == |ids|
      ensures forall i :: 0 <= i < |ids| ==>
                ids[i] in apps && IsChangeFor(changes[i], taskStore.store, queue.pq.Keys(), apps[ids[i]])
      ensures |changes| == |set a | a in apps && Deviates(taskStore.store, queue.pq.Keys(), apps[a])|
      ensures forall c :: c in changes ==>
                c.app in apps.Values && IsChangeFor(c, taskStore.store, queue.pq.Keys(), c.app)
    {
      hide Deviates, IsChangeFor;
      changes, ids := [], [];
      var todo := apps.Keys;
      while todo != {}
        invariant todo <= apps.Keys
        invariant Lists(ids, set a | a in apps && a !in todo && Deviates(taskStore.store, queue.pq.Keys(), apps[a]))
        invariant |changes| == |ids|
        invariant forall i :: 0 <= i < |ids| ==>
                    ids[i] in apps && IsChangeFor(changes[i], taskStore.store, queue.pq.Keys(), apps[ids[i]])
        decreases todo
      {
        var a :| a in todo;
        ghost var done := set a | a in apps && a !in todo && Deviates(taskStore.store, queue.pq.Keys(), apps[a]);
        todo := todo - {a};
        ghost var more := set a | a in apps && a !in todo && Deviates(taskStore.store, queue.pq.Keys(), apps[a]);
        var change := ChangeFor(apps[a]);
        if change.Some? {
          ListGrows(ids, done, a);
          assert more == done + {a};
          changes := changes + [change.value];
          ids := ids + [a];
        } else {
          assert more == done;
        }
      }
      ListLength(ids, set a | a in apps && Deviates(taskStore.store, queue.pq.Keys(), apps[a]));
      forall c | c in changes
        ensures c.app in apps.Values && IsChangeFor(c, taskStore.store, queue.pq.Keys(), c.app)
      {
        var i :| 0 <= i < |changes| && changes[i] == c;
        ChangeNamesApp(c, taskStore.store, queue.pq.Keys(), apps[ids[i]]);
      }
    }
  }
}
