/**
 * What one worker run computes, as functions from the report it is given and from the answers of everything
 * outside the program: the platform, iperf3, the benchmark processes, cancellation, and the receiver of saved reports.
 */
module WorkerSpec {
  import opened Wrappers
  import opened Reports
  import opened Options

  // ----- Answers from outside

  /** An error: which of the three bug sentinels it wraps, and its text, which then contains the sentinel's own. */
  datatype RawFailure = RawFailure(panic: bool, payload: bool, noPayload: bool, text: string)

  type Failure = f: RawFailure | (f.panic || f.payload || f.noPayload) ==> f.text != ""
    witness RawFailure(false, false, false, "")

  datatype Snapshot = Snapshot(at: int, cpuNanoseconds: nat, energyNanojoules: nat)

  /** One round of the memory curve: an error before its reading is recorded, or a reading and the checks after it. */
  datatype MemoryStep = StepFailed(failure: Failure) | Reading(point: MemoryPoint, after: Option<Failure>)

  datatype CaseScript = CaseScript(
    setup: Option<Failure>,                    // anything that fails before the measurement is evaluated
    before: Snapshot, after: Snapshot, received: nat, sent: Option<nat>,
    steps: nat -> MemoryStep,
    checks: Option<Failure>,                   // process checks and panics found by the deferred clean-up
    cleanup: Option<Failure>,                  // what Close returns
    canceledAtStatus: bool, canceledAtStop: bool)

  datatype World = World(
    platform: Option<Placement>, hostname: Option<string>, memoryMetric: string, iperfVersion: Option<string>,
    saveFails: nat -> bool, canceledBefore: nat -> bool, scripts: nat -> CaseScript, canceledAtEnd: bool)

  /**
   * Every reading has a process, a time, and no negative duration; the last needs a wall clock that never steps back.
   */
  ghost predicate GoodScript(script: CaseScript) {
    forall k: nat :: script.steps(k).Reading? ==> GoodPoint(script.steps(k).point)
  }

  ghost predicate GoodWorld(w: World) {
    && (w.platform.Some? ==> ValidMetric(w.platform.value.metric))
    && w.memoryMetric != ""
    && (forall n: nat :: GoodScript(w.scripts(n)))
  }

  // ----- Errors

  function Text(text: string): Failure { RawFailure(false, false, false, text) }

  const SAVE_FAILED: Failure := Text("save results")
  const NOT_COMPARABLE: Failure := Text("cannot produce a comparable result")
  const NO_PAYLOAD: Failure :=
    var text := "UDP test completed without receiving payload";
    assert text[0] == 'U';
    RawFailure(false, false, true, text)
  const CASES_FAILED: Failure := Text("one or more benchmark cases failed")
  const CONTEXT_CANCELED: Failure := Text("context canceled")
  const PLATFORM_FAILED: Failure := Text("prepare platform")
  const HOSTNAME_FAILED: Failure := Text("read hostname")
  const ENVIRONMENT_DIFFERS: Failure := Text("result environment differs")
  const IPERF_FAILED: Failure := Text("read iperf3 version")
  const IPERF_DIFFERS: Failure := Text("result iperf3 differs")

  /** `E.Errors` on two errors. */
  function Join(a: Option<Failure>, b: Option<Failure>): Option<Failure> {
    if a.None? then b
    else if b.None? then a
    else Some(RawFailure(a.value.panic || b.value.panic, a.value.payload || b.value.payload,
                         a.value.noPayload || b.value.noPayload, a.value.text + " | " + b.value.text))
  }

  // ----- The report in memory and everything handed to saveReport so far

  datatype Update = Update(report: Report, started: Option<nat>)

  datatype Session = Session(report: Report, saves: seq<Update>)

  function Save(s: Session, started: Option<nat>): Session {
    s.(saves := s.saves + [Update(s.report, started)])
  }

  /** The error of the save that comes next. */
  function SaveError(s: Session, w: World): Option<Failure> {
    if w.saveFails(|s.saves|) then Some(SAVE_FAILED) else None
  }

  function Put(s: Session, index: nat, recorded: CaseResult): (r: Session)
    requires index < |s.report.cases|
    ensures |r.report.cases| == |s.report.cases|
  {
    s.(report := s.report.(cases := s.report.cases[index := recorded]))
  }

  // ----- One case

  function FreshMemory(w: World): MemoryResult {
    MemoryResult(CONNECTION_STEP, MAX_CONNECTIONS, CURRENT_MEMORY_PROTOCOL, w.memoryMetric, [])
  }

  function Started(recorded: CaseResult, options: BenchmarkOptions, w: World): CaseResult {
    recorded.(
      status := Running, error := "", bug := None, sample := None,
      memory := if options.configuration.kind == Memory then Some(FreshMemory(w)) else None,
      configuration := recorded.configuration.(parallel := options.configuration.parallel),
      queues := options.queues)
  }

  /** `calculateMeasurement`; None stands for its two errors. */
  function CalculateMeasurement(before: Snapshot, after: Snapshot, received: nat, metric: Metric): Option<Sample> {
    var seconds := (after.at - before.at) as real / 1000000000.0;
    var bits := received as real * 8.0;
    var first := if metric == Energy then before.energyNanojoules else before.cpuNanoseconds;
    var last := if metric == Energy then after.energyNanojoules else after.cpuNanoseconds;
    if seconds <= 0.0 || bits <= 0.0 then None
    else if last <= first then None
    else Some(Sample(seconds, bits, 0.0, (last - first) as real / 1000000000.0))
  }

  datatype CaseEnd = CaseEnd(session: Session, failure: Option<Failure>, recordFailed: bool)

  function RunThroughput(s: Session, index: nat, script: CaseScript, w: World): (r: CaseEnd)
    requires index < |s.report.cases|
    ensures |r.session.report.cases| == |s.report.cases|
  {
    if script.setup.Some? then CaseEnd(s, script.setup, false)
    else if script.received == 0 then CaseEnd(s, Some(NO_PAYLOAD), false)
    else
      var measured := CalculateMeasurement(script.before, script.after, script.received, s.report.environment.metric);
      if measured.None? then CaseEnd(s, Some(NOT_COMPARABLE), false)
      else
        var sent := if script.sent.Some? then script.sent.value as real * 8.0 else 0.0;
        var s1 := Put(s, index, s.report.cases[index].(sample := Some(measured.value.(sentBits := sent))));
        CaseEnd(Save(s1, None), SaveError(s1, w), SaveError(s1, w).Some?)
  }

  function AddPoint(recorded: CaseResult, point: MemoryPoint, k: nat): CaseResult
    requires recorded.memory.Some?
  {
    var memory := recorded.memory.value;
    recorded.(memory := Some(memory.(points := memory.points + [point.(connections := CONNECTION_STEP * k)])))
  }

  /** The rounds of `runMemory` from the k-th on. */
  function MemoryRounds(s: Session, index: nat, script: CaseScript, w: World, k: nat): (r: CaseEnd)
    requires index < |s.report.cases| && s.report.cases[index].memory.Some?
    requires k <= CURVE_POINTS
    decreases CURVE_POINTS - k
    ensures |r.session.report.cases| == |s.report.cases|
  {
    if k == CURVE_POINTS then CaseEnd(s, None, false)
    else
      match script.steps(k)
      case StepFailed(failure) => CaseEnd(s, Some(failure), false)
      case Reading(point, after) =>
        var s1 := Put(s, index, AddPoint(s.report.cases[index], point, k));
        var s2 := Save(s1, None);
        if SaveError(s1, w).Some? then CaseEnd(s2, SaveError(s1, w), true)
        else if after.Some? then CaseEnd(s2, after, false)
        else MemoryRounds(s2, index, script, w, k + 1)
  }

  function RunMemory(s: Session, index: nat, script: CaseScript, w: World): (r: CaseEnd)
    requires index < |s.report.cases| && s.report.cases[index].memory.Some?
    ensures |r.session.report.cases| == |s.report.cases|
  {
    if script.setup.Some? then CaseEnd(s, script.setup, false) else MemoryRounds(s, index, script, w, 0)
  }

  /** `benchmark.run`: the measurement, then the deferred checks and clean-up, whose errors are added. */
  function RunBenchmark(s: Session, index: nat, options: BenchmarkOptions, script: CaseScript, w: World): (r: CaseEnd)
    requires index < |s.report.cases|
    requires options.configuration.kind == Memory ==> s.report.cases[index].memory.Some?
    ensures |r.session.report.cases| == |s.report.cases|
  {
    var end := if options.configuration.kind == Memory then RunMemory(s, index, script, w)
               else RunThroughput(s, index, script, w);
    end.(failure := Join(Join(end.failure, script.checks), script.cleanup))
  }

  function BugKind(failure: Failure): string {
    if failure.panic then "panic"
    else if failure.payload then "udp-payload"
    else if failure.noPayload then "udp-no-payload"
    else ""
  }

  /** What a finished `benchmark.run` makes of the record. */
  function Classify(recorded: CaseResult, failure: Option<Failure>, canceled: bool, clean: bool): CaseResult {
    if failure.None? then recorded.(status := Passed)
    else
      var failed := recorded.(status := if canceled then Canceled else Failed, error := failure.value.text);
      if canceled || !clean || BugKind(failure.value) == "" then failed
      else failed.(bug := Some(CaseBug(BugKind(failure.value), failure.value.text)), status := Bug, error := "")
  }

  /** `stop` ends the whole run with that error; `failed` is remembered for its end. */
  datatype Step = Step(session: Session, stop: Option<Failure>, failed: bool)

  function ExecuteCase(s: Session, index: nat, options: BenchmarkOptions, script: CaseScript, failFast: bool, w: World)
    : (r: Step)
    requires index < |s.report.cases|
    ensures |r.session.report.cases| == |s.report.cases|
  {
    var s1 := Put(s, index, Started(s.report.cases[index], options, w));
    var s2 := Save(s1, Some(index));
    if SaveError(s1, w).Some? then Step(s2, SaveError(s1, w), false)
    else
      var end := RunBenchmark(s2, index, options, script, w);
      var clean := script.cleanup.None? && !end.recordFailed;
      var s3 := Put(end.session, index, Classify(end.session.report.cases[index], end.failure, script.canceledAtStatus, clean));
      var s4 := Save(s3, None);
      if SaveError(s3, w).Some? then Step(s4, Join(end.failure, SaveError(s3, w)), false)
      else if s3.report.cases[index].status == Bug || end.failure.None? then Step(s4, None, false)
      else if failFast || script.canceledAtStop || !clean then Step(s4, end.failure, false)
      else Step(s4, None, true)
  }

  /** The case loop of `run`, from the n-th case on. */
  function RunCases(s: Session, cases: seq<BenchmarkOptions>, indexes: seq<nat>, n: nat, failed: bool,
                    failFast: bool, w: World)
    : (r: (Session, Option<Failure>))
    requires |indexes| == |cases| && n <= |cases|
    requires forall i :: 0 <= i < |indexes| ==> indexes[i] < |s.report.cases|
    ensures |r.0.report.cases| == |s.report.cases|
    decreases |cases| - n
  {
    if n == |cases| then (s, if failed then Some(CASES_FAILED) else None)
    else if w.canceledBefore(n) then (s, Some(CONTEXT_CANCELED))
    else if s.report.cases[indexes[n]].Finished() then RunCases(s, cases, indexes, n + 1, failed, failFast, w)
    else
      var step := ExecuteCase(s, indexes[n], cases[n], w.scripts(n), failFast, w);
      if step.stop.Some? then (step.session, step.stop)
      else RunCases(step.session, cases, indexes, n + 1, failed || step.failed, failFast, w)
  }

  // ----- Preparing the report

  function IndexOf(cases: seq<CaseResult>, options: BenchmarkOptions): (index: nat)
    ensures index <= |cases|
    ensures index < |cases| ==> Matches(cases[index], options)
    ensures forall i :: 0 <= i < index ==> !Matches(cases[i], options)
  {
    if cases == [] then 0
    else
      var index := IndexOf(cases[..|cases| - 1], options);
      if index < |cases| - 1 || Matches(cases[|cases| - 1], options) then index else |cases|
  }

  function PendingCase(options: BenchmarkOptions, w: World): CaseResult {
    CaseResult(options.configuration, options.queues, Pending, None,
               if options.configuration.kind == Memory then Some(FreshMemory(w)) else None, None, "")
  }

  /** One round of the loop in `prepareReport`: the implementation's path is refreshed, the record found or added. */
  function PrepareCase(report: Report, options: BenchmarkOptions, w: World): Report {
    var name := options.configuration.implementation;
    var known := if name in report.implementations then report.implementations[name]
                 else Implementation(options.software, options.executable, options.sourcePackage, options.version, "");
    report.(
      implementations := report.implementations[name := known.(path := options.executable)],
      cases := if IndexOf(report.cases, options) < |report.cases| then report.cases
               else report.cases + [PendingCase(options, w)])
  }

  function PrepareCases(report: Report, cases: seq<BenchmarkOptions>, w: World): (r: (Report, seq<nat>))
    ensures |r.1| == |cases| && |report.cases| <= |r.0.cases|
    ensures forall i :: 0 <= i < |cases| ==> r.1[i] < |r.0.cases|
  {
    if cases == [] then (report, [])
    else
      var front := PrepareCases(report, cases[..|cases| - 1], w);
      var options := cases[|cases| - 1];
      (PrepareCase(front.0, options, w), front.1 + [IndexOf(front.0.cases, options)])
  }

  predicate SamePlacement(a: Placement, b: Placement) {
    && a.os == b.os && a.arch == b.arch && a.hostname == b.hostname && a.metric == b.metric
    && a.tunnelWorkers == b.tunnelWorkers && a.helperWorkers == b.helperWorkers
    && a.tunnelCpus == b.tunnelCpus && a.helperCpus == b.helperCpus
  }

  predicate AnyMeasured(cases: seq<CaseResult>) {
    exists i :: 0 <= i < |cases| && cases[i].Measured()
  }

  /** The report the loop starts from, or None when it was measured in a different environment. */
  function BaseReport(report: Option<Report>, placement: Placement): Option<Report> {
    if report.None? then Some(Report(false, placement, CURRENT_PROTOCOL, NO_IPERF, map[], [], ""))
    else if AnyMeasured(report.value.cases) && !SamePlacement(report.value.environment, placement) then None
    else Some(report.value.(environment := placement, protocol := CURRENT_PROTOCOL))
  }

  // ----- The whole run

  function FirstThroughput(cases: seq<BenchmarkOptions>): Option<BenchmarkOptions> {
    if cases == [] then None
    else if cases[0].configuration.kind != Memory then Some(cases[0])
    else FirstThroughput(cases[1..])
  }

  /** Some case measures throughput (`throughput.Implementation != ""`). */
  predicate NeedsIperf(cases: seq<BenchmarkOptions>) {
    FirstThroughput(cases).Some? && FirstThroughput(cases).value.configuration.implementation != ""
  }

  predicate AnySample(cases: seq<CaseResult>) {
    exists i :: 0 <= i < |cases| && cases[i].sample.Some?
  }

  /** The iperf3 check against a report that already holds samples. */
  function EarlyIperf(report: Report, cases: seq<BenchmarkOptions>, w: World): Option<Failure> {
    if NeedsIperf(cases) && report.iperf.version != "" && AnySample(report.cases) then
      if w.iperfVersion.None? then Some(IPERF_FAILED)
      else if report.iperf.version != w.iperfVersion.value
              || FirstThroughput(cases).value.iperfArchitecture != report.iperf.arch then Some(IPERF_DIFFERS)
      else None
    else None
  }

  function WithIperf(report: Report, cases: seq<BenchmarkOptions>, w: World): Report
    requires NeedsIperf(cases) ==> w.iperfVersion.Some?
  {
    if NeedsIperf(cases) then
      var options := FirstThroughput(cases).value;
      report.(iperf := Implementation("iperf3", options.iperf, "", w.iperfVersion.value, options.iperfArchitecture))
    else report
  }

  /** `run` from its first save to its return, before the deferred function. */
  function RunBody(s: Session, cases: seq<BenchmarkOptions>, indexes: seq<nat>, failFast: bool, w: World)
    : (r: (Session, Option<Failure>))
    requires |indexes| == |cases|
    requires forall i :: 0 <= i < |indexes| ==> indexes[i] < |s.report.cases|
    ensures |r.0.report.cases| == |s.report.cases|
  {
    var s1 := Save(s, None);
    if SaveError(s, w).Some? then (s1, SaveError(s, w))
    else if NeedsIperf(cases) && w.iperfVersion.None? then (s1, Some(IPERF_FAILED))
    else RunCases(s1.(report := WithIperf(s1.report, cases, w)), cases, indexes, 0, false, failFast, w)
  }

  function Unfinish(recorded: CaseResult, failure: Failure, canceled: bool): CaseResult {
    if recorded.status == Running
    then recorded.(status := if canceled then Canceled else Failed, error := failure.text)
    else recorded
  }

  /** The deferred function: a failed run leaves no selected case running, and the report is saved once more. */
  function Finish(s: Session, indexes: seq<nat>, failure: Option<Failure>, w: World): (Session, Option<Failure>) {
    var ended := s.report.(finished := true);
    var fixed := if failure.None? then ended
                 else ended.(
                   error := failure.value.text,
                   cases := seq(|ended.cases|, i requires 0 <= i < |ended.cases| =>
                     if i in indexes then Unfinish(ended.cases[i], failure.value, w.canceledAtEnd) else ended.cases[i]));
    var s1 := s.(report := fixed);
    (Save(s1, None), Join(failure, SaveError(s1, w)))
  }

  predicate AllFinished(cases: seq<CaseResult>, indexes: seq<nat>)
    requires forall i :: 0 <= i < |indexes| ==> indexes[i] < |cases|
  {
    forall i :: 0 <= i < |indexes| ==> cases[indexes[i]].Finished()
  }

  /**
   * How a run ends: `entered` says whether the deferred function was registered, that is, whether anything was saved.
   */
  datatype Outcome = Outcome(
    report: Option<Report>, cases: seq<BenchmarkOptions>, indexes: seq<nat>, saves: seq<Update>,
    failure: Option<Failure>, entered: bool)

  /** The cases as the worker runs them: queues resolved for this placement, repetitions dropped. */
  function Selected(cases: seq<BenchmarkOptions>, placement: Placement): seq<BenchmarkOptions> {
    Uniq(ResolveAll(cases, placement.tunnelWorkers))
  }

  /** The session in which a run enters its loop: nothing saved yet, the end of the previous run erased. */
  function Start(base: Report, selected: seq<BenchmarkOptions>, w: World): Session {
    Session(PrepareCases(base, selected, w).0.(finished := false, error := ""), [])
  }

  function Run(report: Option<Report>, cases: seq<BenchmarkOptions>, failFast: bool, w: World): Outcome {
    if w.platform.None? then Outcome(report, cases, [], [], Some(PLATFORM_FAILED), false)
    else
      var selected := Selected(cases, w.platform.value);
      if w.hostname.None? then Outcome(report, selected, [], [], Some(HOSTNAME_FAILED), false)
      else
        var base := BaseReport(report, w.platform.value.(hostname := w.hostname.value));
        if base.None? then Outcome(report, selected, [], [], Some(ENVIRONMENT_DIFFERS), false)
        else RunPrepared(base.value, selected, failFast, w)
  }

  function RunPrepared(base: Report, selected: seq<BenchmarkOptions>, failFast: bool, w: World): (o: Outcome)
    ensures o.cases == selected && o.indexes == PrepareCases(base, selected, w).1
  {
    var (prepared, indexes) := PrepareCases(base, selected, w);
    if AllFinished(prepared.cases, indexes) then Outcome(Some(prepared), selected, indexes, [], None, false)
    else if EarlyIperf(prepared, selected, w).Some?
    then Outcome(Some(prepared), selected, indexes, [], EarlyIperf(prepared, selected, w), false)
    else
      var end := RunEntered(base, selected, failFast, w);
      Outcome(Some(end.0.report), selected, indexes, end.0.saves, end.1, true)
  }

  /** The loop and the deferred function. */
  function RunEntered(base: Report, selected: seq<BenchmarkOptions>, failFast: bool, w: World)
    : (Session, Option<Failure>)
  {
    var indexes := PrepareCases(base, selected, w).1;
    var body := RunBody(Start(base, selected, w), selected, indexes, failFast, w);
    Finish(body.0, indexes, body.1, w)
  }

  /** The index of every case is a record that matches it, and the records of the report it started from come first. */
  lemma {:induction false} PrepareCasesIndexes(report: Report, cases: seq<BenchmarkOptions>, w: World)
    ensures
      var (prepared, indexes) := PrepareCases(report, cases, w);
      && report.cases <= prepared.cases
      && (forall i :: 0 <= i < |cases| ==> indexes[i] < |prepared.cases| && Matches(prepared.cases[indexes[i]], cases[i]))
  {
    hide PrepareCase;
    if cases != [] {
      var front, n := cases[..|cases| - 1], |cases| - 1;
      PrepareCasesIndexes(report, front, w);
      var (prepared, indexes) := PrepareCases(report, front, w);
      var all := PrepareCases(report, cases, w);
      PrepareCaseIndex(prepared, cases[n], w);
      forall i | 0 <= i < |cases|
        ensures all.1[i] < |all.0.cases| && Matches(all.0.cases[all.1[i]], cases[i])
      {
        if i < n {
          assert all.1[i] == indexes[i] && front[i] == cases[i];
        }
      }
    }
  }

  lemma PrepareCaseIndex(report: Report, options: BenchmarkOptions, w: World)
    ensures
      var prepared, index := PrepareCase(report, options, w), IndexOf(report.cases, options);
      report.cases <= prepared.cases && index < |prepared.cases| && Matches(prepared.cases[index], options)
  {
  }
}
