/** Conversion of applications between their front-end form and the manifests that are stored. */
module Converters {
  import opened Protocol
  import opened TaskStore

  type Int8 = x: int | -0x80 <= x < 0x80

  type Int16 = x: int | -0x8000 <= x < 0x8000

  datatype AppHealthCheck = AppHealthCheck(
    mode: string, rampup: int, interval: int, timeout: int, path: string, scheme: string)

  datatype AppSLA = AppSLA(minInstances: int, maxInstances: int, healthCheck: Option<AppHealthCheck>)

  datatype AppComponent = AppComponent(
    name: string, cpus: Int8, mem: Int16, diskSpace: int, distURL: string, command: string,
    env: map<string, string>, ports: map<string, int>, version: string, componentType: string,
    active: bool, sla: Option<AppSLA>)

  datatype App = App(name: string, components: map<string, AppComponent>)

  // ---------- Numbers ----------

  /** Conversion to a signed 32-bit number. */
  function ToInt32(v: int): Int32 {
    (v + 0x8000_0000) % 0x1_0000_0000 - 0x8000_0000
  }

  /** Conversion of a float towards zero. */
  function Truncate(r: real): int {
    if r >= 0.0 then r.Floor else -((-r).Floor)
  }

  function ToInt8(v: int): Int8 {
    (v + 0x80) % 0x100 - 0x80
  }

  function ToInt16(v: int): Int16 {
    (v + 0x8000) % 0x1_0000 - 0x8000
  }

  // ---------- Names of enumerations ----------

  function ModeName(m: HealthCheckMode): string {
    match m
    case HTTP => "HTTP"
    case TCP => "TCP"
    case METRICS => "METRICS"
  }

  /** An unknown name looks up as the zero value. */
  function ModeValue(name: string): HealthCheckMode {
    if name == "TCP" then TCP else if name == "METRICS" then METRICS else HTTP
  }

  function ComponentTypeName(c: ComponentType): string {
    match c
    case SERVICE => "SERVICE"
    case TASK => "TASK"
    case CRON => "CRON"
    case SPARK_JOB => "SPARK_JOB"
  }

  function ComponentTypeValue(name: string): ComponentType {
    if name == "TASK" then TASK else if name == "CRON" then CRON else if name == "SPARK_JOB" then SPARK_JOB else SERVICE
  }

  // ---------- Lists and maps ----------

  /** The list has one entry for every key of the map, in some order. */
  ghost predicate ListsEnv(list: seq<StringKeyValue>, m: map<string, string>) {
    && (forall i, j :: 0 <= i < j < |list| ==> list[i].key != list[j].key)
    && (forall i :: 0 <= i < |list| ==> list[i].key in m && list[i].value == m[list[i].key])
    && (forall k :: k in m ==> StringKeyValue(k, m[k]) in list)
  }

  ghost predicate ListsPorts(list: seq<StringIntKeyValue>, m: map<string, int>) {
    && (forall i, j :: 0 <= i < j < |list| ==> list[i].key != list[j].key)
    && (forall i :: 0 <= i < |list| ==> list[i].key in m && list[i].value == ToInt32(m[list[i].key]))
    && (forall k :: k in m ==> StringIntKeyValue(k, ToInt32(m[k])) in list)
  }

  lemma EnvGrows(list: seq<StringKeyValue>, m: map<string, string>, k: string, v: string)
    requires ListsEnv(list, m) && k !in m
    ensures ListsEnv(list + [StringKeyValue(k, v)], m[k := v])
  {
    var more, grown := list + [StringKeyValue(k, v)], m[k := v];
    forall x | x in grown
      ensures StringKeyValue(x, grown[x]) in more
    {
      if x == k { assert more[|list|] == StringKeyValue(k, v); }
    }
  }

  lemma PortsGrow(list: seq<StringIntKeyValue>, m: map<string, int>, k: string, v: int)
    requires ListsPorts(list, m) && k !in m
    ensures ListsPorts(list + [StringIntKeyValue(k, ToInt32(v))], m[k := v])
  {
    var more, grown := list + [StringIntKeyValue(k, ToInt32(v))], m[k := v];
    forall x | x in grown
      ensures StringIntKeyValue(x, ToInt32(grown[x])) in more
    {
      if x == k { assert more[|list|] == StringIntKeyValue(k, ToInt32(v)); }
    }
  }

  /** The map a list builds when later entries overwrite earlier ones. */
  function EnvMap(list: seq<StringKeyValue>): map<string, string> {
    if list == [] then map[]
    else EnvMap(list[..|list| - 1])[list[|list| - 1].key := list[|list| - 1].value]
  }

  function PortsMap(list: seq<StringIntKeyValue>): map<string, int> {
    if list == [] then map[]
    else PortsMap(list[..|list| - 1])[list[|list| - 1].key := list[|list| - 1].value]
  }

  /** The map as it is after its values went through 32 bits. */
  function Wrapped(m: map<string, int>): map<string, int> {
    map k | k in m :: ToInt32(m[k])
  }

  lemma EnvFront(list: seq<StringKeyValue>, m: map<string, string>)
    requires ListsEnv(list, m) && list != []
    ensures var last := list[|list| - 1];
            last.key in m && last.value == m[last.key] && ListsEnv(list[..|list| - 1], m - {last.key})
  {
    assert list == list[..|list| - 1] + [list[|list| - 1]];
  }

  lemma PortsFront(list: seq<StringIntKeyValue>, m: map<string, int>)
    requires ListsPorts(list, m) && list != []
    ensures var last := list[|list| - 1];
            last.key in m && last.value == ToInt32(m[last.key]) && ListsPorts(list[..|list| - 1], m - {last.key})
  {
    hide ToInt32;
    assert list == list[..|list| - 1] + [list[|list| - 1]];
  }

  lemma WrappedWithout(m: map<string, int>, k: string)
    requires k in m
    ensures Wrapped(m) == Wrapped(m - {k})[k := ToInt32(m[k])]
  {
    hide ToInt32;
  }

  lemma {:induction false} EnvMapOf(list: seq<StringKeyValue>, m: map<string, string>)
    requires ListsEnv(list, m)
    ensures EnvMap(list) == m
    decreases |list|
  {
    if list == [] {
      assert m.Keys == {};
    } else {
      hide ListsEnv;
      var last := list[|list| - 1];
      EnvFront(list, m);
      EnvMapOf(list[..|list| - 1], m - {last.key});
      assert m == (m - {last.key})[last.key := last.value];
    }
  }

  lemma {:induction false} PortsMapOf(list: seq<StringIntKeyValue>, m: map<string, int>)
    requires ListsPorts(list, m)
    ensures PortsMap(list) == Wrapped(m)
    decreases |list|
  {
    if list == [] {
      assert m.Keys == {};
    } else {
      hide ListsPorts, Wrapped, ToInt32;
      var last := list[|list| - 1];
      PortsFront(list, m);
      PortsMapOf(list[..|list| - 1], m - {last.key});
      WrappedWithout(m, last.key);
    }
  }

  // ---------- Manifests ----------

  function ToHealthCheck(h: AppHealthCheck): HealthCheck {
    HealthCheck(if h.mode != "" then ModeValue(ToUpper(h.mode)) else HTTP,
                h.rampup, h.interval, h.timeout, h.path, h.scheme)
  }

  function ToSLA(s: AppSLA): ApplicationSLA {
    ApplicationSLA(ToInt32(s.minInstances), ToInt32(s.maxInstances),
                   if s.healthCheck.Some? then Some(ToHealthCheck(s.healthCheck.value)) else None)
  }

  function DistURL(index: string, appName: string, comp: AppComponent): string {
    index + "/" + appName + "/" + comp.name + ":" + comp.version
  }

  /** `cmp` is a manifest of a component; the order of its lists is that of some map iteration. */
  ghost predicate IsManifest(cmp: Application, index: string, appName: string, comp: AppComponent) {
    && ListsEnv(cmp.env, comp.env) && ListsPorts(cmp.ports, comp.ports)
    && cmp == Application(
         appName + "-" + comp.name + "-" + comp.version, comp.name, comp.cpus as real, comp.mem as real, 0,
         DistURL(index, appName, comp), comp.command, cmp.env, cmp.ports, comp.version, appName,
         comp.active, DOCKER, ComponentTypeValue(ToUpper(comp.componentType)),
         if comp.sla.Some? then Some(ToSLA(comp.sla.value)) else None)
  }

  function FromHealthCheck(h: HealthCheck): AppHealthCheck {
    AppHealthCheck(ModeName(h.mode), h.rampUp, h.intervalMillis, h.timeout, h.path, h.scheme)
  }

  function FromSLA(s: ApplicationSLA): AppSLA {
    AppSLA(s.minInstances, s.maxInstances,
           if s.healthCheck.Some? then Some(FromHealthCheck(s.healthCheck.value)) else None)
  }

  function FromManifest(cmp: Application): AppComponent {
    AppComponent(cmp.name, ToInt8(Truncate(cmp.cpus)), ToInt16(Truncate(cmp.mem)), ToInt32(cmp.diskSpace),
                 cmp.distUrl, cmp.command, EnvMap(cmp.env), PortsMap(cmp.ports), cmp.version,
                 ToLower(ComponentTypeName(cmp.componentType)), cmp.active,
                 if cmp.sla.Some? then Some(FromSLA(cmp.sla.value)) else None)
  }

  class ApplicationsConverter {
    /** The address of the docker index. */
    const index: string

    constructor (index: string)
      ensures this.index == index
    {
      this.index := index;
    }

    method EnvList(m: map<string, string>) returns (env: seq<StringKeyValue>)
      ensures ListsEnv(env, m)
    {
      env := [];
      var todo := m.Keys;
      while todo != {}
        invariant todo <= m.Keys
        invariant ListsEnv(env, m - todo)
        decreases todo
      {
        var k :| k in todo;
        EnvGrows(env, m - todo, k, m[k]);
        assert m - (todo - {k}) == (m - todo)[k := m[k]];
        todo := todo - {k};
        env := env + [StringKeyValue(k, m[k])];
      }
      assert m - todo == m;
    }

    method PortList(m: map<string, int>) returns (ports: seq<StringIntKeyValue>)
      ensures ListsPorts(ports, m)
    {
      ports := [];
      var todo := m.Keys;
      while todo != {}
        invariant todo <= m.Keys
        invariant ListsPorts(ports, m - todo)
        decreases todo
      {
        var k :| k in todo;
        PortsGrow(ports, m - todo, k, m[k]);
        assert m - (todo - {k}) == (m - todo)[k := m[k]];
        todo := todo - {k};
        ports := ports + [StringIntKeyValue(k, ToInt32(m[k]))];
      }
      assert m - todo == m;
    }

    method ToManifest(appName: string, comp: AppComponent) returns (cmp: Application)
      ensures IsManifest(cmp, index, appName, comp)
    {
      var env := EnvList(comp.env);
      var ports := PortList(comp.ports);
      cmp := Application(
        appName + "-" + comp.name + "-" + comp.version, comp.name, comp.cpus as real, comp.mem as real, 0,
        DistURL(index, appName, comp), comp.command, env, ports, comp.version, appName,
        comp.active, DOCKER, ComponentTypeValue(ToUpper(comp.componentType)),
        if comp.sla.Some? then Some(ToSLA(comp.sla.value)) else None);
    }

    /** One manifest for every component, in the arbitrary order of the map. */
    method ToAppManifest(app: App) returns (cmps: seq<Application>, ghost keys: seq<string>)
      ensures Lists(keys, app.components.Keys) && |cmps| == |keys|
      ensures forall i :: 0 <= i < |keys| ==>
                keys[i] in app.components && IsManifest(cmps[i], index, app.name, app.components[keys[i]])
      ensures |cmps| == |app.components|
      ensures forall k :: k in app.components ==>
                exists i :: 0 <= i < |cmps| && IsManifest(cmps[i], index, app.name, app.components[k])
    {
      hide IsManifest;
      cmps, keys := [], [];
      var todo := app.components.Keys;
      while todo != {}
        invariant todo <= app.components.Keys
        invariant Lists(keys, app.components.Keys - todo) && |cmps| == |keys|
        invariant forall i :: 0 <= i < |keys| ==>
                    keys[i] in app.components && IsManifest(cmps[i], index, app.name, app.components[keys[i]])
        decreases todo
      {
        var k :| k in todo;
        var cmp := ToManifest(app.name, app.components[k]);
        ListGrows(keys, app.components.Keys - todo, k);
        assert app.components.Keys - (todo - {k}) == app.components.Keys - todo + {k};
        todo := todo - {k};
        cmps := cmps + [cmp];
        keys := keys + [k];
      }
      assert app.components.Keys - todo == app.components.Keys;
      ListLength(keys, app.components.Keys);
      forall k | k in app.components
        ensures exists i :: 0 <= i < |cmps| && IsManifest(cmps[i], index, app.name, app.components[k])
      {
        var i :| 0 <= i < |keys| && keys[i] == k;
        assert IsManifest(cmps[i], index, app.name, app.components[k]);
      }
    }

    /** The application a manifest stands for: one component under its own name. */
    method FromAppManifest(cmp: Application) returns (app: App)
      ensures app == App(cmp.appName, map[cmp.name := FromManifest(cmp)])
    {
      var env: map<string, string> := map[];
      for i := 0 to |cmp.env|
        invariant env == EnvMap(cmp.env[..i])
      {
        assert cmp.env[..i + 1][..i] == cmp.env[..i];
        env := env[cmp.env[i].key := cmp.env[i].value];
      }
      assert cmp.env[..|cmp.env|] == cmp.env;
      var ports: map<string, int> := map[];
      for i := 0 to |cmp.ports|
        invariant ports == PortsMap(cmp.ports[..i])
      {
        assert cmp.ports[..i + 1][..i] == cmp.ports[..i];
        ports := ports[cmp.ports[i].key := cmp.ports[i].value];
      }
      assert cmp.ports[..|cmp.ports|] == cmp.ports;
      app := App(cmp.appName, map[cmp.name := AppComponent(
        cmp.name, ToInt8(Truncate(cmp.cpus)), ToInt16(Truncate(cmp.mem)), ToInt32(cmp.diskSpace),
        cmp.distUrl, cmp.command, env, ports, cmp.version, ToLower(ComponentTypeName(cmp.componentType)), cmp.active,
        if cmp.sla.Some? then Some(FromSLA(cmp.sla.value)) else None)]);
    }
  }

  // ---------- Round trip ----------

  predicate FitsInt32(v: int) {
    -0x8000_0000 <= v < 0x8000_0000
  }

  predicate KnownMode(mode: string) {
    mode == "HTTP" || mode == "TCP" || mode == "METRICS"
  }

  predicate KnownComponentType(t: string) {
    t == "service" || t == "task" || t == "cron" || t == "spark_job"
  }

  predicate ConvertibleSLA(s: AppSLA) {
    && FitsInt32(s.minInstances) && FitsInt32(s.maxInstances)
    && (s.healthCheck.Some? ==> KnownMode(s.healthCheck.value.mode))
  }

  /** Ports and instance counts fit 32 bits, modes and types are spelled as the printer spells them. */
  ghost predicate Convertible(comp: AppComponent) {
    && (forall k :: k in comp.ports ==> FitsInt32(comp.ports[k]))
    && KnownComponentType(comp.componentType)
    && (comp.sla.Some? ==> ConvertibleSLA(comp.sla.value))
  }

  lemma ModeRoundTrip(mode: string)
    ensures var m := if mode != "" then ModeValue(ToUpper(mode)) else HTTP;
            ModeName(m) == mode <==> KnownMode(mode)
  {
    assert ToUpper("HTTP") == "HTTP";
    assert ToUpper("TCP") == "TCP";
    assert ToUpper("METRICS") == "METRICS";
  }

  lemma ComponentTypeRoundTrip(t: string)
    ensures ToLower(ComponentTypeName(ComponentTypeValue(ToUpper(t)))) == t <==> KnownComponentType(t)
  {
    assert ToUpper("service") == "SERVICE" && ToLower("SERVICE") == "service";
    assert ToUpper("task") == "TASK" && ToLower("TASK") == "task";
    assert ToUpper("cron") == "CRON" && ToLower("CRON") == "cron";
    assert ToUpper("spark_job") == "SPARK_JOB" && ToLower("SPARK_JOB") == "spark_job";
  }

  lemma SLARoundTrip(s: AppSLA)
    ensures FromSLA(ToSLA(s)) == s <==> ConvertibleSLA(s)
  {
    if s.healthCheck.Some? { ModeRoundTrip(s.healthCheck.value.mode); }
  }

  /**
   * Converting a component to any of its manifests and back restores it, except for the disk
   * space and the distribution URL, exactly when it is convertible.
   */
  lemma ManifestRoundTripIff(cmp: Application, index: string, appName: string, comp: AppComponent)
    requires IsManifest(cmp, index, appName, comp)
    ensures FromManifest(cmp) == Restored(index, appName, comp) <==> Convertible(comp)
  {
    hide ListsEnv, ListsPorts, EnvMap, PortsMap, Wrapped, ConvertibleSLA, ToSLA, FromSLA, ToInt8, ToInt16, ToInt32,
      Truncate, ToUpper, ToLower, DistURL, ComponentTypeValue, ComponentTypeName, KnownComponentType;
    EnvMapOf(cmp.env, comp.env);
    PortsMapOf(cmp.ports, comp.ports);
    ComponentTypeRoundTrip(comp.componentType);
    if comp.sla.Some? { SLARoundTrip(comp.sla.value); }
    WrappedIffFits(comp.ports);
    NumbersRoundTrip(comp.cpus, comp.mem);
  }

  lemma WrappedIffFits(m: map<string, int>)
    ensures Wrapped(m) == m <==> forall k :: k in m ==> FitsInt32(m[k])
  {
    if Wrapped(m) == m {
      forall k | k in m
        ensures FitsInt32(m[k])
      {
        assert Wrapped(m)[k] == ToInt32(m[k]);
      }
    }
  }

  lemma NumbersRoundTrip(cpus: Int8, mem: Int16)
    ensures ToInt8(Truncate(cpus as real)) == cpus && ToInt16(Truncate(mem as real)) == mem && ToInt32(0) == 0
  {
    hide Truncate, ToInt8, ToInt16, ToInt32;
    TruncateWhole(cpus);
    TruncateWhole(mem);
    SmallNumbersStay(cpus, mem);
  }

  lemma TruncateWhole(n: int)
    ensures Truncate(n as real) == n
  {
  }

  lemma SmallNumbersStay(cpus: Int8, mem: Int16)
    ensures ToInt8(cpus) == cpus && ToInt16(mem) == mem && ToInt32(0) == 0
  {
  }

  /** The SLA of a manifest holds every setting of the component's under its own name. */
  lemma SLAStored(s: AppSLA, h: AppHealthCheck)
    requires s.healthCheck == Some(h)
    ensures var stored := ToSLA(s);
            && (FitsInt32(s.minInstances) ==> stored.minInstances == s.minInstances)
            && (FitsInt32(s.maxInstances) ==> stored.maxInstances == s.maxInstances)
            && stored.healthCheck.Some? && stored.healthCheck.value.rampUp == h.rampup
            && stored.healthCheck.value.intervalMillis == h.interval && stored.healthCheck.value.timeout == h.timeout
            && stored.healthCheck.value.path == h.path && stored.healthCheck.value.scheme == h.scheme
  {
    hide ToUpper, ModeValue;
  }

  /** What a manifest is identified by, where it is fetched from, and what it runs as. */
  lemma ManifestIdentity(cmp: Application, index: string, appName: string, comp: AppComponent)
    requires IsManifest(cmp, index, appName, comp)
    ensures cmp.id == appName + "-" + comp.name + "-" + comp.version && cmp.name == comp.name
    ensures cmp.distUrl == index + "/" + appName + "/" + comp.name + ":" + comp.version
    ensures cmp.appName == appName && cmp.version == comp.version && cmp.command == comp.command
    ensures cmp.distribution == DOCKER && cmp.diskSpace == 0 && cmp.active == comp.active
  {
  }

  /** What is read from any manifest, whoever wrote it. */
  lemma ManifestRead(cmp: Application)
    ensures var comp := FromManifest(cmp);
            && comp.name == cmp.name && comp.distURL == cmp.distUrl && comp.command == cmp.command
            && comp.version == cmp.version && comp.active == cmp.active
            && (FitsInt32(cmp.diskSpace) ==> comp.diskSpace == cmp.diskSpace)
            && (comp.sla.Some? <==> cmp.sla.Some?)
            && (cmp.sla.Some? && FitsInt32(cmp.sla.value.minInstances) && FitsInt32(cmp.sla.value.maxInstances) ==>
                  && comp.sla.value.minInstances == cmp.sla.value.minInstances
                  && comp.sla.value.maxInstances == cmp.sla.value.maxInstances)
  {
  }

  /** Converting a list to a map keeps exactly the keys listed, each with its last value. */
  lemma {:induction false} LastEntryWins(list: seq<StringKeyValue>, k: string)
    ensures k in EnvMap(list) <==> exists i :: 0 <= i < |list| && list[i].key == k
    ensures forall i :: 0 <= i < |list| && list[i].key == k && (forall j :: i < j < |list| ==> list[j].key != k) ==>
              EnvMap(list)[k] == list[i].value
    decreases |list|
  {
    if list != [] {
      var n := |list| - 1;
      LastEntryWins(list[..n], k);
      assert forall i :: 0 <= i < n ==> list[..n][i] == list[i];
      if k in EnvMap(list[..n]) {
        var i :| 0 <= i < n && list[..n][i].key == k;
        assert list[i].key == k;
      }
      if list[n].key == k { assert list[n].key == k; }
    }
  }

  lemma {:induction false} LastPortWins(list: seq<StringIntKeyValue>, k: string)
    ensures k in PortsMap(list) <==> exists i :: 0 <= i < |list| && list[i].key == k
    ensures forall i :: 0 <= i < |list| && list[i].key == k && (forall j :: i < j < |list| ==> list[j].key != k) ==>
              PortsMap(list)[k] == list[i].value
    decreases |list|
  {
    if list != [] {
      var n := |list| - 1;
      LastPortWins(list[..n], k);
      assert forall i :: 0 <= i < n ==> list[..n][i] == list[i];
      if k in PortsMap(list[..n]) {
        var i :| 0 <= i < n && list[..n][i].key == k;
        assert list[i].key == k;
      }
      if list[n].key == k { assert list[n].key == k; }
    }
  }

  /** Conversions to narrower integers take away a multiple of the modulus. */
  lemma IntegersWrap(v: int)
    ensures v == ToInt32(v) + 0x1_0000_0000 * ((v + 0x8000_0000) / 0x1_0000_0000)
    ensures v == ToInt16(v) + 0x1_0000 * ((v + 0x8000) / 0x1_0000)
    ensures v == ToInt8(v) + 0x100 * ((v + 0x80) / 0x100)
  {
  }

  /** Conversions of floats drop the fraction. */
  lemma TruncatesTowardsZero(r: real)
    ensures r >= 0.0 ==> Truncate(r) as real <= r < (Truncate(r) + 1) as real
    ensures r <= 0.0 ==> (Truncate(r) - 1) as real < r <= Truncate(r) as real
  {
  }

  /** Names are read in any case; an empty or unknown name reads as the first value. */
  lemma NamesRead(h: AppHealthCheck, t: string)
    ensures ToHealthCheck(h).mode == TCP <==> ToUpper(h.mode) == "TCP"
    ensures ToHealthCheck(h).mode == METRICS <==> ToUpper(h.mode) == "METRICS"
    ensures ComponentTypeValue(ToUpper(t)) == TASK <==> ToUpper(t) == "TASK"
    ensures ComponentTypeValue(ToUpper(t)) == CRON <==> ToUpper(t) == "CRON"
    ensures ComponentTypeValue(ToUpper(t)) == SPARK_JOB <==> ToUpper(t) == "SPARK_JOB"
  {
    assert |"TCP"| == 3 && |"METRICS"| == 7 && |"TASK"| == 4 && |"CRON"| == 4 && |"SPARK_JOB"| == 9;
    assert "TASK"[0] != "CRON"[0];
  }

  /** What is left of a component after the round trip. */
  function Restored(index: string, appName: string, comp: AppComponent): AppComponent {
    comp.(diskSpace := 0, distURL := DistURL(index, appName, comp))
  }

  /** All components of the applications that a list of manifests stands for. */
  function Merge(cmps: seq<Application>): map<string, AppComponent> {
    if cmps == [] then map[]
    else
      var last := cmps[|cmps| - 1];
      Merge(cmps[..|cmps| - 1])[last.name := FromManifest(last)]
  }

  function RestoredAll(
    components: map<string, AppComponent>, index: string, appName: string): map<string, AppComponent>
  {
    map k | k in components :: Restored(index, appName, components[k])
  }

  /** An application survives the round trip, in whatever order its components are converted. */
  lemma {:induction false} AppRoundTrip(
    cmps: seq<Application>, keys: seq<string>, index: string, appName: string, components: map<string, AppComponent>)
    requires Lists(keys, components.Keys) && |cmps| == |keys|
    requires forall i :: 0 <= i < |keys| ==> IsManifest(cmps[i], index, appName, components[keys[i]])
    requires forall k :: k in components ==> components[k].name == k && Convertible(components[k])
    ensures Merge(cmps) == RestoredAll(components, index, appName)
    decreases |cmps|
  {
    hide IsManifest, Convertible, FromManifest, Restored;
    if keys == [] {
      assert components.Keys == {};
    } else {
      var n := |keys| - 1;
      var k, rest := keys[n], components - {keys[n]};
      assert keys == keys[..n] + [k];
      assert Lists(keys[..n], rest.Keys);
      assert components[k].name == k;
      AppRoundTrip(cmps[..n], keys[..n], index, appName, rest);
      assert IsManifest(cmps[n], index, appName, components[k]);
      ManifestRestores(cmps[n], index, appName, components[k]);
      assert components == rest[k := components[k]];
      RestoredExtends(rest, k, components[k], index, appName);
    }
  }

  lemma RestoredExtends(
    rest: map<string, AppComponent>, k: string, comp: AppComponent, index: string, appName: string)
    requires k !in rest
    ensures RestoredAll(rest[k := comp], index, appName) ==
            RestoredAll(rest, index, appName)[k := Restored(index, appName, comp)]
  {
    hide Restored;
  }

  /** A convertible component is restored under its own name. */
  lemma ManifestRestores(cmp: Application, index: string, appName: string, comp: AppComponent)
    requires IsManifest(cmp, index, appName, comp) && Convertible(comp)
    ensures cmp.name == comp.name && FromManifest(cmp) == Restored(index, appName, comp)
  {
    hide IsManifest, Convertible, FromManifest;
    ManifestRoundTripIff(cmp, index, appName, comp);
    NamesAgree(cmp, index, appName, comp);
  }

  lemma NamesAgree(cmp: Application, index: string, appName: string, comp: AppComponent)
    requires IsManifest(cmp, index, appName, comp)
    ensures cmp.name == comp.name
  {
  }
}
