/** The saved report of one environment and the predicate that says which reports are legal (result.go, memory.go). */
module Reports {
  import opened Wrappers

  /** A measurement type as it appears in a report; anything but the two known texts is kept as it was read. */
  datatype Kind = Throughput | Memory | OtherKind(text: string)

  datatype Status = Pending | Running | Passed | Bug | Failed | Canceled | OtherStatus(text: string)

  datatype Metric = Cpu | Energy | OtherMetric(text: string)

  datatype CaseConfiguration = CaseConfiguration(
    kind: Kind, matrix: string, implementation: string, stack: string, ip: int, network: string,
    direction: string, parallel: int, mtu: int, bitrate: nat)

  datatype Sample = Sample(seconds: real, bits: real, sentBits: real, tunnel: real)

  datatype MemoryProtocol = MemoryProtocol(settleSeconds: real, payloadBytes: int, setupConcurrency: int)

  /** `at == 0` stands for the zero time. */
  datatype MemoryPoint = MemoryPoint(
    connections: int, pid: int, bytes: nat, at: int,
    readSeconds: real, setupSeconds: real, observeSeconds: real)

  datatype MemoryResult = MemoryResult(
    connectionStep: int, maxConnections: int, protocol: MemoryProtocol, metric: string, points: seq<MemoryPoint>)

  datatype CaseBug = CaseBug(kind: string, detail: string)

  datatype CaseResult = CaseResult(
    configuration: CaseConfiguration, queues: int, status: Status,
    sample: Option<Sample>, memory: Option<MemoryResult>, bug: Option<CaseBug>, error: string)
  {
    /** What `matches` compares: a record belongs to the options with the same key. */
    function Key(): (CaseConfiguration, int) { (configuration, queues) }

    predicate Measured() {
      sample.Some? || (memory.Some? && |memory.value.points| > 0)
    }

    /** A finished record is never executed again. */
    predicate Finished() { status == Passed || status == Bug }
  }

  datatype Implementation = Implementation(kind: string, path: string, package: string, version: string, arch: string)

  datatype Placement = Placement(
    os: string, arch: string, hostname: string, metric: Metric, description: string,
    tunnelCpus: seq<int>, helperCpus: seq<int>, tunnelWorkers: int, helperWorkers: int)

  datatype ResultProtocol = ResultProtocol(
    forwarding: string, udpSocketBuffer: int, durationSeconds: real, warmupSeconds: real)

  datatype Report = Report(
    finished: bool, environment: Placement, protocol: ResultProtocol, iperf: Implementation,
    implementations: map<string, Implementation>, cases: seq<CaseResult>, error: string)

  const CURRENT_PROTOCOL := ResultProtocol("direct", 4 * 1024 * 1024, 5.0, 1.0)
  const CONNECTION_STEP := 250
  const MAX_CONNECTIONS := 1000
  const CURVE_POINTS: nat := 5
  const CURRENT_MEMORY_PROTOCOL := MemoryProtocol(1.0, 64, 32)
  const NO_IPERF := Implementation("", "", "", "", "")

  // ----- What a legal report is

  predicate GoodPoint(point: MemoryPoint) {
    && point.at != 0
    && point.pid > 0
    && point.readSeconds >= 0.0
    && point.setupSeconds >= 0.0
    && point.observeSeconds >= 0.0
  }

  /** The points are an initial part of the curve 0, 250, 500, 750, 1000; a passed case has all of it. */
  predicate ValidMemory(result: MemoryResult, status: Status) {
    && result.connectionStep == CONNECTION_STEP
    && result.maxConnections == MAX_CONNECTIONS
    && result.protocol == CURRENT_MEMORY_PROTOCOL
    && result.metric != ""
    && |result.points| <= CURVE_POINTS
    && (forall i :: 0 <= i < |result.points| ==>
          result.points[i].connections == CONNECTION_STEP * i && GoodPoint(result.points[i]))
    && (status == Passed ==> |result.points| == CURVE_POINTS)
  }

  predicate ValidSample(sample: Sample) {
    sample.seconds > 0.0 && sample.bits > 0.0 && sample.tunnel > 0.0
  }

  predicate ValidCase(recorded: CaseResult) {
    && !recorded.status.OtherStatus?
    && (recorded.status == Bug ==> recorded.bug.Some? && recorded.bug.value.kind != "" && recorded.bug.value.detail != "")
    && (recorded.status == Passed ==> recorded.Measured())
    && match recorded.configuration.kind
       case Memory => recorded.sample.None? && recorded.memory.Some? && ValidMemory(recorded.memory.value, recorded.status)
       case Throughput => recorded.memory.None? && (recorded.sample.Some? ==> ValidSample(recorded.sample.value))
       case OtherKind(_) => false
  }

  predicate ValidMetric(metric: Metric) { metric == Cpu || metric == Energy }

  predicate ValidReport(report: Report) {
    && report.protocol == CURRENT_PROTOCOL
    && ValidMetric(report.environment.metric)
    && (forall i :: 0 <= i < |report.cases| ==>
          report.cases[i].configuration.implementation in report.implementations && ValidCase(report.cases[i]))
  }

  predicate ValidOption(report: Option<Report>) { report.Some? ==> ValidReport(report.value) }

  // ----- The program's own checks

  /** `memoryResult.validate`: the index arithmetic of the source accepts exactly the initial parts of the curve. */
  method ValidateMemory(result: MemoryResult, status: Status) returns (ok: bool)
    ensures ok <==> ValidMemory(result, status)
  {
    if result.connectionStep != CONNECTION_STEP || result.maxConnections != MAX_CONNECTIONS
       || result.protocol != CURRENT_MEMORY_PROTOCOL || result.metric == "" {
      return false;
    }
    for i := 0 to |result.points|
      invariant i <= CURVE_POINTS
      invariant forall j :: 0 <= j < i ==>
        result.points[j].connections == CONNECTION_STEP * j && GoodPoint(result.points[j])
    {
      var point := result.points[i];
      var expected := if i * result.connectionStep < result.maxConnections
                      then i * result.connectionStep else result.maxConnections;
      if point.connections != expected || i > (result.maxConnections - 1) / result.connectionStep + 1
         || point.at == 0 || point.pid <= 0 {
        return false;
      }
      if point.readSeconds < 0.0 || point.setupSeconds < 0.0 || point.observeSeconds < 0.0 {
        return false;
      }
    }
    if status == Passed
       && (|result.points| == 0 || result.points[|result.points| - 1].connections != result.maxConnections) {
      return false;
    }
    return true;
  }

  /** `benchmarkReport.validate`. */
  method Validate(report: Report) returns (ok: bool)
    ensures ok <==> ValidReport(report)
  {
    if report.protocol != CURRENT_PROTOCOL {
      return false;
    }
    if report.environment.metric != Cpu && report.environment.metric != Energy {
      return false;
    }
    for i := 0 to |report.cases|
      invariant forall j :: 0 <= j < i ==>
        report.cases[j].configuration.implementation in report.implementations && ValidCase(report.cases[j])
    {
      var recorded := report.cases[i];
      if recorded.configuration.implementation !in report.implementations {
        return false;
      }
      match recorded.status {
        case Pending | Running | Failed | Canceled =>
        case Bug =>
          if recorded.bug.None? || recorded.bug.value.kind == "" || recorded.bug.value.detail == "" {
            return false;
          }
        case Passed =>
          if !recorded.Measured() {
            return false;
          }
        case OtherStatus(_) =>
          return false;
      }
      if recorded.configuration.kind == Memory {
        if recorded.memory.None? || recorded.sample.Some? {
          return false;
        }
        var valid := ValidateMemory(recorded.memory.value, recorded.status);
        if !valid {
          return false;
        }
        continue;
      }
      if recorded.configuration.kind != Throughput || recorded.memory.Some? {
        return false;
      }
      if recorded.sample.Some? {
        var sample := recorded.sample.value;
        if sample.seconds <= 0.0 || sample.bits <= 0.0 || sample.tunnel <= 0.0 {
          return false;
        }
      }
    }
    return true;
  }

  /** One environment of the result file; its configuration is not part of the check. */
  datatype EnvironmentResult = EnvironmentResult(name: string, report: Option<Report>, error: string)

  ghost predicate ValidResults(environments: seq<EnvironmentResult>) {
    && (forall i :: 0 <= i < |environments| ==> environments[i].name != "" && ValidOption(environments[i].report))
    && (forall i, j :: 0 <= i < j < |environments| ==> environments[i].name != environments[j].name)
  }

  /** `resultReport.validate`: names are present and distinct, and every report is legal. */
  method ValidateResults(environments: seq<EnvironmentResult>) returns (ok: bool)
    ensures ok <==> ValidResults(environments)
  {
    var seen: set<string> := {};
    for i := 0 to |environments|
      invariant forall name :: name in seen <==> exists j :: 0 <= j < i && environments[j].name == name
      invariant ValidResults(environments[..i])
    {
      var entry := environments[i];
      if entry.name == "" || entry.name in seen {
        assert ValidResults(environments) ==> entry.name !in seen;
        return false;
      }
      seen := seen + {entry.name};
      if entry.report.Some? {
        var valid := Validate(entry.report.value);
        if !valid {
          return false;
        }
      }
    }
    assert environments[..|environments|] == environments;
    return true;
  }
}
