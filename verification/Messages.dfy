/** Builds the messages that launch an application on an offer. */
module Messages {
  import opened Protocol
  import opened Builders
  import FormatBits

  datatype EnvironmentVariable = EnvironmentVariable(name: string, value: string)

  datatype ContainerInfo = ContainerInfo(image: string, options: seq<string>)

  datatype CommandInfo = CommandInfo(
    container: Option<ContainerInfo>, environment: seq<EnvironmentVariable>, value: string)

  datatype TaskInfo = TaskInfo(
    name: string, taskId: string, slaveId: string, command: CommandInfo, resources: seq<Resource>)

  /** The decimal numeral reads as this number. */
  predicate Reads(numeral: string, v: int) {
    numeral != [] && FormatBits.Parse(numeral, 10) == v
  }

  /** `strconv.Itoa`: the decimal numeral, with a sign when negative. */
  function Itoa(v: Int32): (s: string)
    ensures Reads(s, v) && ':' !in s
  {
    FormatBits.SignedRoundTrip(v, 10);
    FormatBits.SignedDigits(v, 10);
    FormatBits.Formatted(FormatBits.AsUnsigned(v), 10, v < 0)
  }

  /** The port a declared port is reachable on: a reserved one for containers, itself otherwise. */
  function PublicPort(app: Application, reserved: seq<Int32>, i: nat): Int32
    requires i < |app.ports| <= |reserved|
  {
    if app.distribution == DOCKER then reserved[i] else app.ports[i].value
  }

  function PortMappings(app: Application, reserved: seq<Int32>): seq<PortMapping>
    requires |app.ports| <= |reserved|
  {
    seq(|app.ports|, i requires 0 <= i < |app.ports| =>
      PortMapping(ToUpper(app.ports[i].key), app.ports[i].value, PublicPort(app, reserved, i)))
  }

  function PortVariable(port: StringIntKeyValue): EnvironmentVariable {
    EnvironmentVariable(ToUpper(port.key) + "_PORT", Itoa(port.value))
  }

  function MappingVariable(port: StringIntKeyValue, reserved: Int32): EnvironmentVariable {
    EnvironmentVariable(ToUpper(port.key) + "_MAPPING", Itoa(reserved))
  }

  function PublishOption(port: StringIntKeyValue, reserved: Int32): string {
    Itoa(reserved) + ":" + Itoa(port.value)
  }

  /** The declared variables come first, then two for each port. */
  ghost predicate PortsInEnvironment(
    env: seq<EnvironmentVariable>, n: nat, ports: seq<StringIntKeyValue>, reserved: seq<Int32>, k: nat)
    requires k <= |ports| <= |reserved|
  {
    && |env| == n + 2 * k
    && forall i :: 0 <= i < k ==>
         env[n + 2 * i] == PortVariable(ports[i]) && env[n + 2 * i + 1] == MappingVariable(ports[i], reserved[i])
  }

  ghost predicate PortsInOptions(options: seq<string>, ports: seq<StringIntKeyValue>, reserved: seq<Int32>, k: nat)
    requires k <= |ports| <= |reserved|
  {
    && |options| == 2 * k
    && forall i :: 0 <= i < k ==> options[2 * i] == "-p" && options[2 * i + 1] == PublishOption(ports[i], reserved[i])
  }

  // ---------- When building is possible ----------

  /** Every range is at most `n` wide. */
  ghost predicate AllAtMost(ranges: seq<PortRange>, n: int) {
    forall i :: 0 <= i < |ranges| ==> Size(ranges[i]) <= n
  }

  /** Building panics exactly when ports are declared and no range is larger than their number. */
  ghost predicate BuildPanics(offer: Offer, app: Application) {
    app.ports != [] && AllAtMost(PortRanges(offer.resources), |app.ports|)
  }

  lemma BuildPanicsIffPortsMissing(offer: Offer, app: Application, pick: nat)
    requires CanPick(offer, |app.ports|)
    ensures BuildPanics(offer, app) <==> |PickPorts(offer, |app.ports|, pick).ports| < |app.ports|
  {
    if app.ports != [] {
      PicksIffLargerRange(offer, |app.ports|, pick);
    }
  }

  // ---------- The builder ----------

  class MesosMessageBuilder {
    const portPicker: RandomPortPicker

    constructor () {
      portPicker := new RandomPortPicker();
    }

    method BuildResources(app: Application, ports: seq<PortRange>) returns (resources: seq<Resource>)
      ensures resources == [Resource("cpus", app.cpus, []), Resource("mem", app.mem, []), Resource("ports", 0.0, ports)]
    {
      var pres := [];
      for i := 0 to |ports|
        invariant pres == ports[..i]
      {
        pres := pres + [PortRange(ports[i].begin, ports[i].end)];
      }
      assert pres == ports;
      resources := [Resource("cpus", app.cpus, []), Resource("mem", app.mem, []), Resource("ports", 0.0, pres)];
    }

    /** Too few reserved ports make the source panic. */
    method BuildTaskEnvironment(envList: seq<StringKeyValue>, ports: seq<StringIntKeyValue>, reserved: seq<Int32>)
      returns (env: seq<EnvironmentVariable>)
      requires |ports| <= |reserved|
      ensures PortsInEnvironment(env, |envList|, ports, reserved, |ports|)
      ensures forall i :: 0 <= i < |envList| ==> env[i] == EnvironmentVariable(envList[i].key, envList[i].value)
    {
      hide Itoa, ToUpper;
      env := [];
      for i := 0 to |envList|
        invariant |env| == i
        invariant forall j :: 0 <= j < i ==> env[j] == EnvironmentVariable(envList[j].key, envList[j].value)
      {
        env := env + [EnvironmentVariable(envList[i].key, envList[i].value)];
      }
      for i := 0 to |ports|
        invariant PortsInEnvironment(env, |envList|, ports, reserved, i)
        invariant forall j :: 0 <= j < |envList| ==> env[j] == EnvironmentVariable(envList[j].key, envList[j].value)
      {
        env := env + [PortVariable(ports[i]), MappingVariable(ports[i], reserved[i])];
      }
    }

    /** Port mappings, and for containers the image and the options that publish the ports. */
    method BuildContainerInfo(app: Application, reserved: seq<Int32>)
      returns (containerInfo: Option<ContainerInfo>, portMapping: seq<PortMapping>)
      requires |app.ports| <= |reserved|
      ensures portMapping == PortMappings(app, reserved)
      ensures containerInfo.Some? <==> app.distribution == DOCKER
      ensures containerInfo.Some? ==>
                && containerInfo.value.image == "docker:///" + app.name + ":" + app.version
                && PortsInOptions(containerInfo.value.options, app.ports, reserved, |app.ports|)
    {
      hide Itoa, ToUpper;
      var av := reserved;
      portMapping := [];
      if app.distribution != DOCKER {
        for i := 0 to |app.ports|
          invariant portMapping == PortMappings(app, reserved)[..i]
        {
          var port := app.ports[i];
          portMapping := portMapping + [PortMapping(ToUpper(port.key), port.value, port.value)];
        }
        return None, portMapping;
      }
      var options: seq<string> := [];
      for i := 0 to |app.ports|
        invariant av == reserved[i..] && PortsInOptions(options, app.ports, reserved, i)
        invariant portMapping == PortMappings(app, reserved)[..i]
      {
        var port := app.ports[i];
        var p := av[0];
        av := av[1..];
        options := options + ["-p", PublishOption(port, p)];
        portMapping := portMapping + [PortMapping(ToUpper(port.key), port.value, p)];
      }
      return Some(ContainerInfo("docker:///" + app.name + ":" + app.version, options)), portMapping;
    }

    /** The message that launches an application; none when the source panics because ports are missing. */
    method BuildTaskInfo(taskId: string, offer: Offer, app: Application, pick: nat)
      returns (task: Option<TaskInfo>, portMapping: seq<PortMapping>)
      requires CanPick(offer, |app.ports|)
      ensures task.None? <==> BuildPanics(offer, app)
      ensures task.Some? ==> Built(task.value, portMapping, taskId, offer, app, PickPorts(offer, |app.ports|, pick))
    {
      BuildPanicsIffPortsMissing(offer, app, pick);
      var takenRanges, reserved := portPicker.GetPorts(offer, |app.ports|, pick);
      if |reserved| < |app.ports| {
        return None, [];
      }
      var container, mapping := BuildContainerInfo(app, reserved);
      var environment := BuildTaskEnvironment(app.env, app.ports, reserved);
      var resources := BuildResources(app, takenRanges);
      portMapping := mapping;
      task := Some(TaskInfo(app.id, "exeggutor-task-" + taskId, offer.slaveId,
                            CommandInfo(container, environment, app.command), resources));
    }
  }

  /** The messages built for an application on picked ports. */
  ghost predicate Built(
    task: TaskInfo, portMapping: seq<PortMapping>, taskId: string, offer: Offer, app: Application, picked: Picked)
  {
    && |app.ports| <= |picked.ports|
    && task.name == app.id && task.taskId == "exeggutor-task-" + taskId && task.slaveId == offer.slaveId
    && portMapping == PortMappings(app, picked.ports)
    && task.resources ==
       [Resource("cpus", app.cpus, []), Resource("mem", app.mem, []), Resource("ports", 0.0, picked.ranges)]
    && task.command.value == app.command
    && PortsInEnvironment(task.command.environment, |app.env|, app.ports, picked.ports, |app.ports|)
    && (forall i :: 0 <= i < |app.env| ==>
          task.command.environment[i] == EnvironmentVariable(app.env[i].key, app.env[i].value))
    && (task.command.container.Some? <==> app.distribution == DOCKER)
    && (task.command.container.Some? ==>
          && task.command.container.value.image == "docker:///" + app.name + ":" + app.version
          && PortsInOptions(task.command.container.value.options, app.ports, picked.ports, |app.ports|))
  }

  // ---------- What a fitting offer guarantees ----------

  /** A task that is built for a fitting offer asks for no more than the offer holds. */
  lemma BuiltWithinOffer(
    offer: Offer, app: Application, pick: nat, id: string, task: TaskInfo, mapping: seq<PortMapping>)
    requires CanPick(offer, |app.ports|) && Fits(offer, app)
    ensures Built(task, mapping, id, offer, app, PickPorts(offer, |app.ports|, pick)) ==>
              && task.resources[0].scalar <= TotalScalar(offer.resources, "cpus")
              && task.resources[1].scalar <= TotalScalar(offer.resources, "mem")
              && forall r :: r in task.resources[2].ranges ==>
                   exists o :: o in PortRanges(offer.resources) && o.begin <= r.begin && r.end <= o.end
  {
    PickedInsideOffer(offer, |app.ports|, pick);
  }

  /** The option splits at its only colon into the number of the public and that of the private port. */
  ghost predicate Publishes(option: string, public: int, private: int) {
    exists k ::
      0 <= k < |option| && SplitsAt(option, k) && Reads(option[..k], public) && Reads(option[k + 1..], private)
  }

  predicate SplitsAt(option: string, k: nat)
    requires k < |option|
  {
    option[k] == ':' && ':' !in option[..k] && ':' !in option[k + 1..]
  }

  lemma OptionPublishes(port: StringIntKeyValue, reserved: Int32)
    ensures Publishes(PublishOption(port, reserved), reserved, port.value)
  {
    hide Itoa, Reads;
    var a, b, option := Itoa(reserved), Itoa(port.value), PublishOption(port, reserved);
    assert option[..|a|] == a && option[|a| + 1..] == b;
    assert SplitsAt(option, |a|);
  }

  /** The two variables of a port give its own number and the reserved one. */
  predicate Announces(
    own: EnvironmentVariable, mapped: EnvironmentVariable, port: StringIntKeyValue, reserved: Int32)
  {
    && own.name == ToUpper(port.key) + "_PORT" && Reads(own.value, port.value)
    && mapped.name == ToUpper(port.key) + "_MAPPING" && Reads(mapped.value, reserved)
  }

  /** The i-th port of a container is published, mapped and announced as the i-th reserved port. */
  ghost predicate Aligned(task: TaskInfo, mapping: seq<PortMapping>, app: Application, reserved: seq<Int32>) {
    var n, env := |app.env|, task.command.environment;
    && |mapping| == |app.ports| == |reserved| && |env| == n + 2 * |app.ports|
    && task.command.container.Some? && |task.command.container.value.options| == 2 * |app.ports|
    && (forall i :: 0 <= i < |app.ports| ==>
          && mapping[i].scheme == ToUpper(app.ports[i].key)
          && mapping[i].privatePort == app.ports[i].value && mapping[i].publicPort == reserved[i]
          && Announces(env[n + 2 * i], env[n + 2 * i + 1], app.ports[i], reserved[i])
          && task.command.container.value.options[2 * i] == "-p"
          && Publishes(task.command.container.value.options[2 * i + 1], reserved[i], app.ports[i].value))
    && (forall i, j :: 0 <= i < j < |mapping| ==> mapping[i].publicPort != mapping[j].publicPort)
  }

  lemma ContainerPortsAligned(
    offer: Offer, app: Application, pick: nat, id: string, task: TaskInfo, mapping: seq<PortMapping>)
    requires app.distribution == DOCKER && app.ports != [] && CanPick(offer, |app.ports|)
    ensures Built(task, mapping, id, offer, app, PickPorts(offer, |app.ports|, pick)) ==>
              Aligned(task, mapping, app, PickPorts(offer, |app.ports|, pick).ports)
  {
    hide Itoa, ToUpper, PublishOption, Publishes, Reads;
    PicksIffLargerRange(offer, |app.ports|, pick);
    PickedPorts(offer, |app.ports|, pick);
    var reserved := PickPorts(offer, |app.ports|, pick).ports;
    forall i | 0 <= i < |app.ports| && |app.ports| <= |reserved|
      ensures Publishes(PublishOption(app.ports[i], reserved[i]), reserved[i], app.ports[i].value)
    {
      OptionPublishes(app.ports[i], reserved[i]);
    }
    hide PickPorts, PortRanges, FirstLarger;
  }

  /** Without a container every port keeps its own number, and both variables are announced all the same. */
  lemma PlainPortsKept(
    offer: Offer, app: Application, pick: nat, id: string, task: TaskInfo, mapping: seq<PortMapping>)
    requires app.distribution != DOCKER && CanPick(offer, |app.ports|)
    ensures var reserved, n, env := PickPorts(offer, |app.ports|, pick).ports, |app.env|, task.command.environment;
            Built(task, mapping, id, offer, app, PickPorts(offer, |app.ports|, pick)) ==>
              && task.command.container == None && |mapping| == |app.ports| <= |reserved|
              && |env| == n + 2 * |app.ports|
              && forall i :: 0 <= i < |app.ports| ==>
                   && mapping[i] == PortMapping(ToUpper(app.ports[i].key), app.ports[i].value, app.ports[i].value)
                   && Announces(env[n + 2 * i], env[n + 2 * i + 1], app.ports[i], reserved[i])
  {
    hide Itoa, ToUpper, Reads, PickPorts;
  }

  // ---------- Fitting is not enough ----------

  lemma {:induction false} LargestBounds(ranges: seq<PortRange>)
    requires WellFormedRanges(ranges)
    ensures AllAtMost(ranges, Largest(ranges)) && Largest(ranges) < 0x1_0000_0000
    ensures ranges != [] ==> exists i :: 0 <= i < |ranges| && Size(ranges[i]) == Largest(ranges)
    decreases |ranges|
  {
    if ranges != [] {
      var n := |ranges| - 1;
      LargestBounds(ranges[..n]);
      SizeOfWellFormed(ranges[n]);
      assert Largest(ranges) == Size(ranges[n]) || Largest(ranges) == Largest(ranges[..n]);
      if Largest(ranges) != Size(ranges[n]) {
        var i :| 0 <= i < n && Size(ranges[..n][i]) == Largest(ranges[..n]);
        assert Size(ranges[i]) == Largest(ranges);
      }
      forall i | 0 <= i < |ranges|
        ensures Size(ranges[i]) <= Largest(ranges)
      {
        assert i < n ==> ranges[i] == ranges[..n][i];
      }
    }
  }

  lemma {:induction false} PortRangesConcat(a: seq<Resource>, b: seq<Resource>)
    ensures PortRanges(a + b) == PortRanges(a) + PortRanges(b)
    decreases |a|
  {
    if a == [] {
      assert a + b == b;
    } else {
      assert (a + b)[1..] == a[1..] + b;
      PortRangesConcat(a[1..], b);
    }
  }

  /** The length `fitsInOffer` compares with is that of some offered range, or 0. */
  lemma {:induction false} MaxPortsLenIsOffered(rs: seq<Resource>)
    requires WellFormedRanges(PortRanges(rs))
    ensures AsInt(MaxPortsLen(rs)) == MaxPortsLen(rs)
    ensures MaxPortsLen(rs) > 0 ==>
              exists i :: 0 <= i < |PortRanges(rs)| && Size(PortRanges(rs)[i]) == MaxPortsLen(rs)
    decreases |rs|
  {
    if rs != [] {
      var n := |rs| - 1;
      var all := PortRanges(rs);
      var a, b := PortRanges(rs[..n]), OwnRanges(rs[n]);
      LastResource(rs);
      if rs[n].name == "ports" {
        LargestBounds(b);
        if b != [] {
          var i :| 0 <= i < |b| && Size(b[i]) == Largest(b);
          assert all[|a| + i] == b[i];
        }
      } else {
        MaxPortsLenIsOffered(rs[..n]);
        if MaxPortsLen(rs) > 0 {
          var i :| 0 <= i < |a| && Size(a[i]) == MaxPortsLen(rs[..n]);
          assert all[i] == a[i];
        }
      }
    }
  }

  lemma LastResource(rs: seq<Resource>)
    requires rs != [] && WellFormedRanges(PortRanges(rs))
    ensures var n := |rs| - 1;
            && PortRanges(rs) == PortRanges(rs[..n]) + OwnRanges(rs[n])
            && WellFormedRanges(PortRanges(rs[..n])) && WellFormedRanges(OwnRanges(rs[n]))
  {
    hide PortRanges, OwnRanges, WellFormedRanges;
    var n := |rs| - 1;
    assert rs == rs[..n] + [rs[n]];
    PortRangesConcat(rs[..n], [rs[n]]);
    OneResource(rs[n]);
    WellFormedParts(PortRanges(rs[..n]), OwnRanges(rs[n]));
  }

  lemma OneResource(r: Resource)
    ensures PortRanges([r]) == OwnRanges(r)
  {
    assert [r][1..] == [];
  }

  lemma WellFormedParts(a: seq<PortRange>, b: seq<PortRange>)
    requires WellFormedRanges(a + b)
    ensures WellFormedRanges(a) && WellFormedRanges(b)
  {
    var all := a + b;
    forall i | 0 <= i < |a|
      ensures WellFormed(a[i])
    {
      assert a[i] == all[i];
    }
    forall i | 0 <= i < |b|
      ensures WellFormed(b[i])
    {
      assert b[i] == all[|a| + i];
    }
  }

  /**
   * An application fits an offer and yet cannot be built exactly when the length compared
   * equals the number of its ports and no offered range is larger.
   */
  lemma FitsButPanicsIff(offer: Offer, app: Application)
    requires WellFormedOffer(offer)
    ensures Fits(offer, app) && BuildPanics(offer, app) <==>
            && HasScalars(offer, app) && app.ports != []
            && MaxPortsLen(offer.resources) == |app.ports| && AllAtMost(PortRanges(offer.resources), |app.ports|)
  {
    MaxPortsLenIsOffered(offer.resources);
  }

  /** Two free ports are enough to fit an application with two ports, but not to build it. */
  lemma EqualRangePanics(app: Application, http: StringIntKeyValue, https: StringIntKeyValue)
    requires app.cpus == 1.0 && app.mem == 64.0 && app.ports == [http, https]
    ensures var offer := Offer("slave", "host", [Resource("cpus", 1.0, []), Resource("mem", 64.0, []),
                                                 Resource("ports", 0.0, [PortRange(31000, 31001)])]);
            WellFormedOffer(offer) && Fits(offer, app) && BuildPanics(offer, app)
  {
    hide ToUpper, PortMappings, Itoa;
    var r := PortRange(31000, 31001);
    var rs := [Resource("cpus", 1.0, []), Resource("mem", 64.0, []), Resource("ports", 0.0, [r])];
    assert |"cpus"| == 4 && |"mem"| == 3 && |"ports"| == 5;
    assert rs[..2][..1] == rs[..1] && rs[..1][..0] == [];
    assert TotalScalar(rs[..1], "cpus") == 1.0 && TotalScalar(rs[..1], "mem") == 0.0;
    assert TotalScalar(rs[..2], "cpus") == 1.0 && TotalScalar(rs[..2], "mem") == 64.0;
    assert rs[1..] == [rs[1], rs[2]] && rs[1..][1..] == [rs[2]] && rs[2..][1..] == [];
    assert PortRanges(rs) == [r] && WellFormed(r);
    assert [r][..0] == [] && Largest([r]) == 2;
  }
}
