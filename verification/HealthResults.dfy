/** What becomes of the results of health checks, over every run of the pipeline. */
module HealthResults {
  import opened Protocol
  import opened HealthQueue
  import opened HealthPipeline
  import opened HealthRuns

  // ---------- What the events of a run say ----------

  /** The check that the step finishes, with its result. */
  function FinishedBy(st: State, ev: Event): seq<Parcel> {
    if ev.FinishCheck? && ev.i < |st.running| then [Parcel(st.running[ev.i], ev.result)] else []
  }

  /** All checks finished in a run, in order. */
  function Finished(states: seq<State>, events: seq<Event>): seq<Parcel>
    requires |events| <= |states|
  {
    if events == [] then []
    else
      var n := |events| - 1;
      Finished(states, events[..n]) + FinishedBy(states[n], events[n])
  }

  /** The task whose check the step finishes with an unhealthy result. */
  function FailedBy(st: State, ev: Event): seq<string> {
    if ev.FinishCheck? && ev.i < |st.running| && !ev.result.healthy then [st.running[ev.i].id] else []
  }

  /** The tasks whose checks failed in a run, in order, once for every failure. */
  function Failed(states: seq<State>, events: seq<Event>): seq<string>
    requires |events| <= |states|
  {
    if events == [] then []
    else
      var n := |events| - 1;
      Failed(states, events[..n]) + FailedBy(states[n], events[n])
  }

  /** How many results had their expiry written. */
  function Stamps(states: seq<State>, events: seq<Event>): nat
    requires |events| <= |states|
  {
    if events == [] then 0
    else
      var n := |events| - 1;
      Stamps(states, events[..n]) + Indicator(events[n].Stamp? && states[n].dispatching != [])
  }

  lemma {:induction false} ResultsOfPrefix(states: seq<State>, events: seq<Event>, m: nat)
    requires |events| <= m <= |states|
    ensures Finished(states[..m], events) == Finished(states, events)
    ensures Failed(states[..m], events) == Failed(states, events)
    ensures Stamps(states[..m], events) == Stamps(states, events)
    decreases |events|
  {
    hide FinishedBy, FailedBy;
    if events != [] { ResultsOfPrefix(states, events[..|events| - 1], m); }
  }

  // ---------- Results on their way ----------

  /** Results whose expiry is not written yet, oldest first. */
  function Unstamped(st: State): seq<Parcel> {
    st.dispatching + st.results + st.forwarding + st.updates
  }

  /** Results that have not been queued again yet, oldest first. */
  function OnTheirWay(st: State): seq<Parcel> {
    st.stamped + Unstamped(st)
  }

  /** The tasks of the unhealthy results among these. */
  function Unhealthy(ps: seq<Parcel>): seq<string> {
    if ps == [] then []
    else Unhealthy(ps[..|ps| - 1]) + if ps[|ps| - 1].result.healthy then [] else [ps[|ps| - 1].item.id]
  }

  lemma {:induction false} UnhealthyConcat(a: seq<Parcel>, b: seq<Parcel>)
    ensures Unhealthy(a + b) == Unhealthy(a) + Unhealthy(b)
    decreases |b|
  {
    if b == [] {
      assert a + b == a;
    } else {
      var n := |b| - 1;
      assert (a + b)[..|a + b| - 1] == a + b[..n];
      UnhealthyConcat(a, b[..n]);
    }
  }

  lemma UnhealthyOne(p: Parcel)
    ensures Unhealthy([p]) == if p.result.healthy then [] else [p.item.id]
  {
    assert [p][..0] == [];
  }

  /** The result whose expiry the step writes. */
  function StampedBy(st: State, ev: Event): seq<Parcel> {
    if ev.Stamp? && st.dispatching != [] then [st.dispatching[0]] else []
  }

  /** The result that the step queues again. */
  function RequeuedBy(st: State, ev: Event): seq<Parcel> {
    if ev.Requeue? && st.stamped != [] then [st.stamped[0]] else []
  }

  /** The steps that move results before their expiry is written. */
  predicate MovesResults(ev: Event) {
    ev.FinishCheck? || ev.TakeUpdate? || ev.Forward? || ev.TakeResult? || ev.Stamp?
  }

  lemma OtherStepsKeepResults(st: State, ev: Event)
    requires !MovesResults(ev)
    ensures Unstamped(Step(st, ev)) == Unstamped(st)
  {
    hide Pushed, Loads, AfterPop, AfterRemove, KeysInMemory, Without;
  }

  lemma UpdateTaken(st: State)
    ensures Unstamped(Step(st, TakeUpdate)) == Unstamped(st)
  {
    if st.updates != [] { assert st.updates == [st.updates[0]] + st.updates[1..]; }
  }

  lemma UpdateForwarded(st: State)
    ensures Unstamped(Step(st, Forward)) == Unstamped(st)
  {
    if st.forwarding != [] { assert st.forwarding == [st.forwarding[0]] + st.forwarding[1..]; }
  }

  lemma ResultTaken(st: State)
    ensures Unstamped(Step(st, TakeResult)) == Unstamped(st)
  {
    if st.results != [] { assert st.results == [st.results[0]] + st.results[1..]; }
  }

  lemma FinishAdds(st: State, i: nat, result: CheckResult)
    ensures Unstamped(Step(st, FinishCheck(i, result))) == Unstamped(st) + FinishedBy(st, FinishCheck(i, result))
  {
  }

  lemma StampTakes(st: State)
    ensures StampedBy(st, Stamp) + Unstamped(Step(st, Stamp)) == Unstamped(st)
  {
    if st.dispatching != [] { assert st.dispatching == [st.dispatching[0]] + st.dispatching[1..]; }
  }

  /** Results pass on in order and unchanged; only finishing a check adds one. */
  lemma UnstampedStep(st: State, ev: Event)
    ensures StampedBy(st, ev) + Unstamped(Step(st, ev)) == Unstamped(st) + FinishedBy(st, ev)
  {
    hide Step, Unstamped;
    match ev
    case FinishCheck(i, result) => FinishAdds(st, i, result);
    case Stamp => StampTakes(st);
    case TakeUpdate => UpdateTaken(st);
    case Forward => UpdateForwarded(st);
    case TakeResult => ResultTaken(st);
    case _ => OtherStepsKeepResults(st, ev);
  }

  lemma StampedStep(st: State, ev: Event)
    ensures RequeuedBy(st, ev) + Step(st, ev).stamped == st.stamped + StampedBy(st, ev)
  {
    hide Pushed, Loads, AfterPop, AfterRemove, KeysInMemory;
  }

  lemma OnTheirWayStep(st: State, ev: Event)
    ensures RequeuedBy(st, ev) + OnTheirWay(Step(st, ev)) == OnTheirWay(st) + FinishedBy(st, ev)
  {
    hide Step, Unstamped, StampedBy, RequeuedBy, FinishedBy;
    UnstampedStep(st, ev);
    StampedStep(st, ev);
    var next := Step(st, ev);
    calc {
      RequeuedBy(st, ev) + (next.stamped + Unstamped(next));
      (RequeuedBy(st, ev) + next.stamped) + Unstamped(next);
      st.stamped + (StampedBy(st, ev) + Unstamped(next));
      st.stamped + (Unstamped(st) + FinishedBy(st, ev));
    }
  }

  /** Failures delivered and being delivered. */
  function Reported(st: State): seq<string> {
    st.failures + st.reporting
  }

  lemma ReportedStep(st: State, ev: Event)
    ensures Reported(Step(st, ev)) == Reported(st) + Unhealthy(RequeuedBy(st, ev))
  {
    hide Pushed, Loads, AfterPop, AfterRemove, KeysInMemory, Unhealthy;
    assert Unhealthy([]) == [] by { NoneUnhealthy(); }
    if ev.Requeue? && st.stamped != [] { UnhealthyOne(st.stamped[0]); }
  }

  lemma NoneUnhealthy()
    ensures Unhealthy([]) == []
  {
  }

  lemma FinishedIsFailed(st: State, ev: Event)
    ensures Unhealthy(FinishedBy(st, ev)) == FailedBy(st, ev)
  {
    if FinishedBy(st, ev) != [] { UnhealthyOne(FinishedBy(st, ev)[0]); }
  }

  lemma FailuresStep(st: State, ev: Event)
    ensures Reported(Step(st, ev)) + Unhealthy(OnTheirWay(Step(st, ev))) ==
            Reported(st) + Unhealthy(OnTheirWay(st)) + FailedBy(st, ev)
  {
    hide Step, Reported, OnTheirWay, Unhealthy, RequeuedBy, FinishedBy, FailedBy;
    var next := Step(st, ev);
    ReportedStep(st, ev);
    OnTheirWayStep(st, ev);
    FinishedIsFailed(st, ev);
    UnhealthyConcat(RequeuedBy(st, ev), OnTheirWay(next));
    UnhealthyConcat(OnTheirWay(st), FinishedBy(st, ev));
    calc {
      Reported(next) + Unhealthy(OnTheirWay(next));
      Reported(st) + (Unhealthy(RequeuedBy(st, ev)) + Unhealthy(OnTheirWay(next)));
      Reported(st) + (Unhealthy(OnTheirWay(st)) + FailedBy(st, ev));
    }
  }

  /**
   * Over every run the failures delivered, the one being delivered, and those of results on
   * their way are, in this order, exactly the checks that finished unhealthy, in theirs.
   */
  lemma {:induction false} FailuresAreDelivered(states: seq<State>, events: seq<Event>)
    requires IsRun(states, events)
    ensures var st := states[|events|];
            st.failures + st.reporting + Unhealthy(OnTheirWay(st)) == Failed(states, events)
    decreases |events|
  {
    hide Step, OnTheirWay, Unhealthy, FailedBy;
    if events == [] {
      StartIsEmpty();
    } else {
      var n := |events| - 1;
      RunPrefix(states, events);
      FailuresAreDelivered(states[..n + 1], events[..n]);
      ResultsOfPrefix(states, events[..n], n + 1);
      assert Steps(states[n], events[n], states[n + 1]);
      FailuresStep(states[n], events[n]);
    }
  }

  lemma StartIsEmpty()
    ensures Unhealthy(OnTheirWay(START)) == [] && Unstamped(START) == []
  {
  }

  /** Every task has as many failures delivered or on their way as its checks finished unhealthy. */
  lemma FailuresAreCounted(states: seq<State>, events: seq<Event>, id: string)
    requires IsRun(states, events)
    ensures var st := states[|events|];
            multiset(st.failures)[id] + multiset(st.reporting)[id] + multiset(Unhealthy(OnTheirWay(st)))[id] ==
            multiset(Failed(states, events))[id]
  {
    hide Step, OnTheirWay, Unhealthy, Failed;
    FailuresAreDelivered(states, events);
  }

  // ---------- When a check is due again ----------

  /** The results whose expiry is not written yet are the last ones finished. */
  lemma {:induction false} UnstampedAreLast(states: seq<State>, events: seq<Event>)
    requires IsRun(states, events)
    ensures Stamps(states, events) <= |Finished(states, events)|
    ensures Unstamped(states[|events|]) == Finished(states, events)[Stamps(states, events)..]
    decreases |events|
  {
    hide Step, Unstamped, FinishedBy;
    if events == [] {
      StartIsEmpty();
    } else {
      var n := |events| - 1;
      RunPrefix(states, events);
      UnstampedAreLast(states[..n + 1], events[..n]);
      ResultsOfPrefix(states, events[..n], n + 1);
      assert Steps(states[n], events[n], states[n + 1]);
      UnstampedStep(states[n], events[n]);
      CutFront(Finished(states, events[..n]), Stamps(states, events[..n]), StampedBy(states[n], events[n]),
        Unstamped(states[n + 1]), FinishedBy(states[n], events[n]));
    }
  }

  lemma CutFront<T>(all: seq<T>, k: nat, gone: seq<T>, left: seq<T>, more: seq<T>)
    requires k <= |all| && gone + left == all[k..] + more
    ensures k + |gone| <= |all + more| && left == (all + more)[k + |gone|..]
  {
    assert (all + more)[k..] == all[k..] + more;
    assert (all + more)[k..][|gone|..] == (all + more)[k + |gone|..];
  }

  /** When each check is due, told by the events of the run: ramp-up first, then the time its last result names. */
  function Due(states: seq<State>, events: seq<Event>): map<Check, int>
    requires |events| <= |states|
  {
    if events == [] then map[]
    else
      var n := |events| - 1;
      var before, k := Due(states, events[..n]), Stamps(states, events[..n]);
      match events[n]
      case Register(id, now, rampUp) =>
        if id in states[n].register then before else before[Check(states[n].next, id) := now + rampUp * 1_000_000]
      case Stamp =>
        if states[n].dispatching == [] || k >= |Finished(states, events[..n])| then before
        else
          var p := Finished(states, events[..n])[k];
          before[p.item := p.result.nextCheck]
      case _ => before
  }

  lemma {:induction false} DueOfPrefix(states: seq<State>, events: seq<Event>, m: nat)
    requires |events| <= m <= |states|
    ensures Due(states[..m], events) == Due(states, events)
    decreases |events|
  {
    if events != [] {
      var n := |events| - 1;
      DueOfPrefix(states, events[..n], m);
      ResultsOfPrefix(states, events[..n], m);
    }
  }

  lemma ExpiresStep(st: State, ev: Event)
    ensures Step(st, ev).expires ==
            if ev.Register? && ev.id !in st.register then
              st.expires[Check(st.next, ev.id) := ev.now + ev.rampUp * 1_000_000]
            else if StampedBy(st, ev) != [] then
              st.expires[StampedBy(st, ev)[0].item := StampedBy(st, ev)[0].result.nextCheck]
            else st.expires
  {
    hide Pushed, Loads, AfterPop, AfterRemove, KeysInMemory;
  }

  /**
   * Over every run ExpiresAt of a check is its registration plus the ramp-up, until a result
   * is dispatched, and then the next time named by the result of the check dispatched last.
   */
  lemma {:induction false} ExpiresWhenDue(states: seq<State>, events: seq<Event>)
    requires IsRun(states, events)
    ensures states[|events|].expires == Due(states, events)
    decreases |events|
  {
    hide Step, Finished, Unstamped;
    if events != [] {
      var n := |events| - 1;
      RunPrefix(states, events);
      ExpiresWhenDue(states[..n + 1], events[..n]);
      DueOfPrefix(states, events[..n], n + 1);
      ResultsOfPrefix(states, events[..n], n + 1);
      assert Steps(states[n], events[n], states[n + 1]);
      ExpiresStep(states[n], events[n]);
      UnstampedAreLast(states[..n + 1], events[..n]);
      if states[n].dispatching != [] {
        FirstUnstamped(states[n]);
      }
    }
  }

  lemma FirstUnstamped(st: State)
    requires st.dispatching != []
    ensures Unstamped(st) != [] && Unstamped(st)[0] == st.dispatching[0]
  {
  }

  // ---------- Order of execution ----------

  /** The check that the dequeue loop takes in this step. */
  function TakenBy(st: State, ev: Event): seq<Check> {
    if ev.PopDue? && st.held == [] then Step(st, ev).held else []
  }

  function StartedBy(st: State, ev: Event): seq<Check> {
    if ev.StartCheck? && st.work != [] && st.forwarding == [] then [st.work[0]] else []
  }

  /** The checks taken from the queue in a run, in order. */
  function Taken(states: seq<State>, events: seq<Event>): seq<Check>
    requires |events| <= |states|
  {
    if events == [] then []
    else
      var n := |events| - 1;
      Taken(states, events[..n]) + TakenBy(states[n], events[n])
  }

  /** The checks started in a run, in order. */
  function Started(states: seq<State>, events: seq<Event>): seq<Check>
    requires |events| <= |states|
  {
    if events == [] then []
    else
      var n := |events| - 1;
      Started(states, events[..n]) + StartedBy(states[n], events[n])
  }

  lemma {:induction false} WorkOfPrefix(states: seq<State>, events: seq<Event>, m: nat)
    requires |events| <= m <= |states|
    ensures Taken(states[..m], events) == Taken(states, events)
    ensures Started(states[..m], events) == Started(states, events)
    decreases |events|
  {
    hide TakenBy, StartedBy;
    if events != [] { WorkOfPrefix(states, events[..|events| - 1], m); }
  }

  lemma WorkStep(st: State, ev: Event)
    ensures StartedBy(st, ev) + (Step(st, ev).work + Step(st, ev).held) == st.work + st.held + TakenBy(st, ev)
    ensures StartedBy(st, ev) != [] ==> st.work[0] in Step(st, ev).running
  {
    hide Pushed, Loads, AfterPop, AfterRemove, KeysInMemory;
  }

  /** Over every run checks start in the order in which they were taken from the queue, each once. */
  lemma {:induction false} ChecksStartInOrder(states: seq<State>, events: seq<Event>)
    requires IsRun(states, events)
    ensures var st := states[|events|];
            Started(states, events) + st.work + st.held == Taken(states, events)
    decreases |events|
  {
    hide Step, StartedBy, TakenBy;
    if events != [] {
      var n := |events| - 1;
      RunPrefix(states, events);
      ChecksStartInOrder(states[..n + 1], events[..n]);
      WorkOfPrefix(states, events[..n], n + 1);
      assert Steps(states[n], events[n], states[n + 1]);
      var st, next := states[n], states[n + 1];
      WorkStep(st, events[n]);
      calc {
        Started(states, events[..n]) + StartedBy(st, events[n]) + next.work + next.held;
        Started(states, events[..n]) + (StartedBy(st, events[n]) + (next.work + next.held));
        Started(states, events[..n]) + (st.work + st.held + TakenBy(st, events[n]));
        Started(states, events[..n]) + st.work + st.held + TakenBy(st, events[n]);
      }
    }
  }

  // ---------- The register ----------

  /** The check registered for a task, told by the last event of the run that wrote to its entry. */
  function LastWritten(states: seq<State>, events: seq<Event>, id: string): Option<Check>
    requires |events| <= |states|
  {
    if events == [] then None
    else
      var n := |events| - 1;
      if Enters(states[n], events[n], id) then Some(states[n].created[events[n].i])
      else if events[n] == Unregister(id) then None
      else LastWritten(states, events[..n], id)
  }

  lemma {:induction false} WrittenOfPrefix(states: seq<State>, events: seq<Event>, m: nat, id: string)
    requires |events| <= m <= |states|
    ensures LastWritten(states[..m], events, id) == LastWritten(states, events, id)
    decreases |events|
  {
    hide Enters;
    if events != [] { WrittenOfPrefix(states, events[..|events| - 1], m, id); }
  }

  lemma OtherEntriesStay(st: State, ev: Event, id: string)
    requires !Enters(st, ev, id) && ev != Unregister(id)
    ensures id in Step(st, ev).register <==> id in st.register
    ensures id in st.register ==> Step(st, ev).register[id] == st.register[id]
  {
    hide Pushed, Loads, AfterPop, AfterRemove, KeysInMemory;
  }

  /** Over every run a task is registered exactly with the check last written for it, and unless unregistered since. */
  lemma {:induction false} RegisteredAsWritten(states: seq<State>, events: seq<Event>, id: string)
    requires IsRun(states, events)
    ensures var r := states[|events|].register;
            LastWritten(states, events, id) == if id in r then Some(r[id]) else None
    decreases |events|
  {
    hide Step, Enters;
    if events != [] {
      var n := |events| - 1;
      RunPrefix(states, events);
      RegisteredAsWritten(states[..n + 1], events[..n], id);
      WrittenOfPrefix(states, events[..n], n + 1, id);
      assert Steps(states[n], events[n], states[n + 1]);
      RegisterChanges(states[n], events[n], id);
      if !Enters(states[n], events[n], id) && events[n] != Unregister(id) {
        OtherEntriesStay(states[n], events[n], id);
      }
    }
  }

  // ---------- One thing at a time ----------

  /** The dequeue loop, the pool's forwarding and the dispatch loop each hold at most one item. */
  predicate OneEach(st: State) {
    |st.held| <= 1 && |st.forwarding| <= 1 && |st.dispatching| + |st.stamped| + |st.reporting| <= 1
  }

  lemma StepKeepsOneEach(st: State, ev: Event)
    requires OneEach(st)
    ensures OneEach(Step(st, ev))
  {
    hide Pushed, Loads, AfterPop, AfterRemove, KeysInMemory;
  }

  lemma {:induction false} RunKeepsOneEach(states: seq<State>, events: seq<Event>)
    requires IsRun(states, events)
    ensures OneEach(states[|events|])
    decreases |events|
  {
    hide Step;
    if events != [] {
      var n := |events| - 1;
      RunPrefix(states, events);
      RunKeepsOneEach(states[..n + 1], events[..n]);
      assert Steps(states[n], events[n], states[n + 1]);
      StepKeepsOneEach(states[n], events[n]);
    }
  }
}
