/** The task manager: its methods perform the steps of `Deployments` in place. */
module TaskManager {
  import opened Protocol
  import opened IndexedHeap
  import opened TaskStore
  import opened Sla
  import opened Deployments
  import opened Messages
  import H = HeapSpec
  import TQ = TaskQueue
  import Builders
  import Runs = DeploymentRuns

  /** What the scheduler driver reports about a task, by the callback it calls. */
  datatype Report =
    | TaskStopping | TaskFailed | TaskLost | TaskFinished | TaskKilled | TaskRunning | TaskStaging | TaskStarting

  function StatusOf(report: Report): AppStatus
    requires report != TaskStaging && report != TaskStarting
  {
    match report
    case TaskStopping => STOPPING
    case TaskFailed => FAILED
    case TaskLost => FAILED
    case TaskFinished => STOPPED
    case TaskKilled => STOPPED
    case TaskRunning => STARTED
  }

  /** The step a report stands for. */
  function EventOf(report: Report, taskId: string, checkable: bool, now: int): Event {
    if report == TaskStaging || report == TaskStarting then Forget(taskId)
    else Status(taskId, StatusOf(report), checkable && report == TaskRunning, now)
  }

  class DefaultTaskManager {
    const queue: TQ.TaskQueue
    const taskStore: DefaultTaskStore
    var apps: Applications
    /** The ids registered with the health checker. */
    var checks: set<string>
    const slaMonitor: SimpleSLAMonitor
    const builder: MesosMessageBuilder

    function Model(): State
      reads this, taskStore, queue.pq, queue.pq.items
    {
      State(apps, taskStore.store, queue.pq.Keys(), checks)
    }

    ghost predicate Valid()
      reads this, taskStore, queue, queue.pq, queue.pq.items
    {
      && slaMonitor.taskStore == taskStore && slaMonitor.queue == queue
      && queue.Valid() && WellFormed(Model())
    }

    constructor ()
      ensures Valid() && Model() == START
    {
      var q := new PriorityQueue(TQ.TaskLess);
      var tq := new TQ.TaskQueue(q);
      var ts := new DefaultTaskStore();
      queue, taskStore := tq, ts;
      slaMonitor := new SimpleSLAMonitor(ts, tq);
      builder := new MesosMessageBuilder();
      apps, checks := map[], {};
      new;
      assert queue.pq.Keys() == [];
    }

    method SaveApp(app: Application)
      requires Valid()
      modifies this`apps
      ensures Valid() && Model() == old(Model()).(apps := old(apps)[app.id := app])
    {
      apps := apps[app.id := app];
    }

    /** Submits one application; the queue item is a new object. */
    method SubmitApp(app: Application, now: int)
      requires Valid()
      modifies queue.pq`items, queue.pq.Members()`index
      ensures Valid() && Model() == Schedule(old(Model()), app, now).0
      ensures fresh(queue.pq.Members() - old(queue.pq.Members()))
    {
      ScheduleAppForDeployment(app, now);
    }

    method ScheduleAppForDeployment(app: Application, now: int)
      requires Valid()
      modifies queue.pq`items, queue.pq.Members()`index
      ensures Valid() && Model() == Schedule(old(Model()), app, now).0
      ensures fresh(queue.pq.Members() - old(queue.pq.Members()))
    {
      hide H.IsHeap, H.Push, CanDeployMoreInstances;
      var can := slaMonitor.CanDeployMore(Some(app));
      if !can {
        return;
      }
      var component := new Entry(app, 0);
      queue.Enqueue(component, now);
    }

    /**
     * Launches the first queued application that fits; `guard` is the answer of the SLA guard.
     * When the task cannot be given its ports, `panicked` says that the source panics, after
     * it has dequeued the application.
     */
    method FulfillOffer(offer: Offer, guard: bool, id: string, pick: nat)
      returns (tasks: seq<TaskInfo>, panicked: bool)
      requires Valid() && Builders.CanPick(offer, 0) && TaskId(id) !in taskStore.store
      modifies queue.pq`items, queue.pq.Members(), taskStore
      ensures Valid() && panicked == Fulfill(old(Model()), offer, guard, id, pick).Panic?
      ensures !panicked ==>
                && Model() == Fulfill(old(Model()), offer, guard, id, pick).state
                && |tasks| == |Fulfill(old(Model()), offer, guard, id, pick).effects|
      ensures panicked ==>
                && FirstFit(old(Model()).queue, offer) < |old(Model()).queue|
                && Model() == old(Model()).(queue := H.Remove(TQ.TaskLess, old(Model()).queue,
                                                              FirstFit(old(Model()).queue, offer)))
      ensures tasks != [] ==>
                && |tasks| == 1 && TaskId(id) in taskStore.store
                && FirstFit(old(Model()).queue, offer) < |old(Model()).queue|
                && var app := old(Model()).queue[FirstFit(old(Model()).queue, offer)].load;
                   Built(tasks[0], taskStore.store[TaskId(id)].portMapping, id, offer, app,
                         Builders.PickPorts(offer, |app.ports|, pick))
    {
      hide H.IsHeap, H.Remove, Builders.Fits, Builders.PickPorts, PortMappings, Built;
      var app: Option<Application> := None;
      if guard {
        app := TakeFitting(offer);
      }
      if app.None? {
        return [], false;
      }
      var task := LaunchOn(offer, app.value, id, pick);
      if task.None? {
        return [], true;
      }
      return [task.value], false;
    }

    /** Dequeues the first application that fits the offer. */
    method TakeFitting(offer: Offer) returns (app: Option<Application>)
      requires Valid()
      modifies queue.pq`items, queue.pq.Members()
      ensures Valid()
      ensures var st := old(Model()); var k := FirstFit(st.queue, offer);
              if k == |st.queue| then app == None && Model() == st
              else app == Some(st.queue[k].load) && Model() == st.(queue := H.Remove(TQ.TaskLess, st.queue, k))
    {
      hide H.IsHeap, H.Remove, Builders.Fits;
      ghost var before := Model();
      ghost var k := FirstFit(before.queue, offer);
      var item := queue.DequeueFirst(ThatFits(offer));
      if item == null {
        return None;
      }
      assert before.queue[k].load == item.load;
      RemoveCounts(before.queue, k, "");
      return Some(item.load);
    }

    /** Builds the task for a dequeued application and stores its deployment; none when building panics. */
    method LaunchOn(offer: Offer, app: Application, id: string, pick: nat) returns (task: Option<TaskInfo>)
      requires Builders.CanPick(offer, |app.ports|)
      modifies taskStore
      ensures task.None? <==> |Builders.PickPorts(offer, |app.ports|, pick).ports| < |app.ports|
      ensures task.None? ==> taskStore.store == old(taskStore.store)
      ensures task.Some? ==>
                var d := Launch(offer, app, id, pick);
                && taskStore.store == old(taskStore.store)[d.taskId := d]
                && Built(task.value, d.portMapping, id, offer, app, Builders.PickPorts(offer, |app.ports|, pick))
    {
      BuildPanicsIffPortsMissing(offer, app, pick);
      var portMapping;
      task, portMapping := builder.BuildTaskInfo(id, offer, app, pick);
      if task.Some? {
        taskStore.Save(Deployment(app.id, task.value.taskId, DEPLOYING, offer.hostName, portMapping));
      }
    }

    /** Follows a status update; a task that is not stored is reported as an error. */
    method UpdateStatus(taskId: string, status: AppStatus, checkable: bool, now: int) returns (ok: bool)
      requires Valid()
      modifies this`checks, taskStore, queue.pq`items, queue.pq.Members()`index
      ensures Valid() && Model() == Deployments.UpdateStatus(old(Model()), taskId, status, checkable, now).0
      ensures ok <==> taskId in old(taskStore.store)
      ensures var before := old(taskStore.store);
              taskStore.store == if ok then before[taskId := before[taskId].(status := status)] else before
      ensures fresh(queue.pq.Members() - old(queue.pq.Members()))
    {
      hide H.IsHeap, Running, CanDeployMoreInstances, NeedsMoreInstances, Schedule;
      Runs.UpdateKeepsWellFormed(Model(), taskId, status, checkable, now);
      var found := taskStore.Get(taskId);
      if found.None? {
        return false;
      }
      var deploying := found.value.(status := status);
      taskStore.Save(deploying);
      if deploying.appId in apps {
        FollowUp(taskId, status, apps[deploying.appId], checkable, now);
      }
      return true;
    }

    /** After a status is saved: replaces a missing instance and updates the health check. */
    method FollowUp(taskId: string, status: AppStatus, app: Application, checkable: bool, now: int)
      requires Valid()
      modifies this`checks, queue.pq`items, queue.pq.Members()`index
      ensures var st := old(Model());
              var next := if NeedsMoreInstances(st.store, st.queue, app) then Schedule(st, app, now).0 else st;
              Valid() && Model() == next.(checks := Recheck(st.checks, taskId, status, checkable))
      ensures fresh(queue.pq.Members() - old(queue.pq.Members()))
    {
      hide H.IsHeap, Running, CanDeployMoreInstances, NeedsMoreInstances, Schedule, WellKeyed;
      var needs := slaMonitor.NeedsMore(app);
      if needs {
        ScheduleAppForDeployment(app, now);
      }
      if status == STARTED {
        Register(taskId, checkable);
      } else {
        Unregister(taskId);
      }
    }

    /** Registers a health check, unless the application has none. */
    method Register(taskId: string, checkable: bool)
      requires Valid()
      modifies this`checks
      ensures Valid() && checks == if checkable then old(checks) + {taskId} else old(checks)
    {
      if checkable {
        checks := checks + {taskId};
      }
    }

    method Unregister(taskId: string)
      requires Valid()
      modifies this`checks
      ensures Valid() && checks == old(checks) - {taskId}
    {
      checks := checks - {taskId};
    }

    method ForgetTask(taskId: string)
      requires Valid()
      modifies this`checks, taskStore
      ensures Valid()
      ensures Model() == old(Model()).(store := old(taskStore.store) - {taskId}, checks := old(checks) - {taskId})
    {
      Unregister(taskId);
      taskStore.Delete(taskId);
    }

    /** A failed health check marks the task unhealthy and asks for it to be killed. */
    method HealthFailed(taskId: string, now: int) returns (kill: Option<string>)
      requires Valid()
      modifies this`checks, taskStore, queue.pq`items, queue.pq.Members()`index
      ensures Valid() && Next(Model(), Step(old(Model()), HealthFailure(taskId, now)).effects) ==
                         Step(old(Model()), HealthFailure(taskId, now))
      ensures kill == if taskId in old(taskStore.store) then Some(taskId) else None
      ensures kill.Some? ==>
                taskStore.store == old(taskStore.store)[taskId := old(taskStore.store)[taskId].(status := UNHEALTHY)]
    {
      var deployment := taskStore.Get(taskId);
      if deployment.None? {
        return None;
      }
      var ok := UpdateStatus(taskId, UNHEALTHY, false, now);
      return Some(deployment.value.taskId);
    }

    /** A callback of the scheduler driver; staging and starting drop every trace of the task. */
    method Callback(report: Report, taskId: string, checkable: bool, now: int) returns (ok: bool)
      requires Valid()
      modifies this`checks, taskStore, queue.pq`items, queue.pq.Members()`index
      ensures var ev := EventOf(report, taskId, checkable, now);
              Valid() && Next(Model(), Step(old(Model()), ev).effects) == Step(old(Model()), ev)
      ensures ok <==> report == TaskStaging || report == TaskStarting || taskId in old(taskStore.store)
      ensures report == TaskStaging || report == TaskStarting ==> taskId !in taskStore.store && taskId !in checks
      ensures taskId in taskStore.store ==>
                var status := taskStore.store[taskId].status;
                && (report == TaskRunning ==> status == STARTED)
                && (report == TaskStopping ==> status == STOPPING)
                && (report == TaskFinished || report == TaskKilled ==> status == STOPPED)
                && (report == TaskFailed || report == TaskLost ==> status == FAILED)
      ensures taskStore.store - {taskId} == old(taskStore.store) - {taskId}
    {
      hide H.IsHeap, Deployments.UpdateStatus, WellFormed;
      match report
      case TaskStopping => ok := UpdateStatus(taskId, STOPPING, false, now);
      case TaskFailed => ok := UpdateStatus(taskId, FAILED, false, now);
      case TaskLost => ok := UpdateStatus(taskId, FAILED, false, now);
      case TaskFinished => ok := UpdateStatus(taskId, STOPPED, false, now);
      case TaskKilled => ok := UpdateStatus(taskId, STOPPED, false, now);
      case TaskRunning => ok := UpdateStatus(taskId, STARTED, checkable, now);
      case TaskStaging =>
        ForgetTask(taskId);
        ok := true;
      case TaskStarting =>
        ForgetTask(taskId);
        ok := true;
    }
  }
}
