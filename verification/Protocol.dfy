/** The records the components exchange, with the fields the modelled code looks at. */
module Protocol {

  datatype Option<+T> = None | Some(value: T)

  /** 1 for true and 0 for false, to count with. */
  function Indicator(b: bool): nat {
    if b then 1 else 0
  }

  type Int32 = x: int | -0x8000_0000 <= x < 0x8000_0000

  const TWO64 := 0x1_0000_0000_0000_0000

  type Word = x: nat | x < 0x1_0000_0000_0000_0000

  datatype AppStatus =
    | ABSENT | DEPLOYING | STOPPED | STOPPING | STARTED | FAILED | UNHEALTHY | DISABLING

  datatype ComponentType = SERVICE | TASK | CRON | SPARK_JOB

  datatype Distribution = PACKAGE | DOCKER | SCRIPT | FAT_JAR

  datatype HealthCheckMode = HTTP | TCP | METRICS

  datatype HealthCheck = HealthCheck(
    mode: HealthCheckMode, rampUp: int, intervalMillis: int, timeout: int, path: string, scheme: string)

  datatype ApplicationSLA = ApplicationSLA(
    minInstances: int, maxInstances: int, healthCheck: Option<HealthCheck>)

  datatype StringKeyValue = StringKeyValue(key: string, value: string)

  datatype StringIntKeyValue = StringIntKeyValue(key: string, value: Int32)

  datatype Application = Application(
    id: string, name: string, cpus: real, mem: real, diskSpace: int, distUrl: string, command: string,
    env: seq<StringKeyValue>, ports: seq<StringIntKeyValue>, version: string, appName: string,
    active: bool, distribution: Distribution, componentType: ComponentType, sla: Option<ApplicationSLA>)

  datatype PortMapping = PortMapping(scheme: string, privatePort: Int32, publicPort: Int32)

  datatype Deployment = Deployment(
    appId: string, taskId: string, status: AppStatus, hostName: string, portMapping: seq<PortMapping>)

  /** A range of ports in an offer or a task, both ends included; unsigned 64-bit numbers. */
  datatype PortRange = PortRange(begin: Word, end: Word)

  /** A resource; the amount is 0 and the ranges are empty when the message does not set them. */
  datatype Resource = Resource(name: string, scalar: real, ranges: seq<PortRange>)

  datatype Offer = Offer(slaveId: string, hostName: string, resources: seq<Resource>)

  // Upper and lower case of ASCII letters; other characters are left alone.

  function UpperChar(c: char): char {
    if 'a' <= c <= 'z' then ((c as int) - 32) as char else c
  }

  function LowerChar(c: char): char {
    if 'A' <= c <= 'Z' then ((c as int) + 32) as char else c
  }

  function ToUpper(s: string): (r: string)
    ensures |r| == |s|
  {
    seq(|s|, i requires 0 <= i < |s| => UpperChar(s[i]))
  }

  function ToLower(s: string): (r: string)
    ensures |r| == |s|
  {
    seq(|s|, i requires 0 <= i < |s| => LowerChar(s[i]))
  }

  /** Upper case knows every letter, leaves everything else alone, and is undone by lower case. */
  lemma UpperCase(s: string)
    ensures forall i :: 0 <= i < |s| ==>
              && !('a' <= ToUpper(s)[i] <= 'z')
              && (!('a' <= s[i] <= 'z') ==> ToUpper(s)[i] == s[i])
              && ('a' <= s[i] <= 'z' ==> ToLower(ToUpper(s))[i] == s[i])
    ensures ToUpper("abcdefghijklmnopqrstuvwxyz") == "ABCDEFGHIJKLMNOPQRSTUVWXYZ"
    ensures ToLower("ABCDEFGHIJKLMNOPQRSTUVWXYZ") == "abcdefghijklmnopqrstuvwxyz"
  {
  }
}
