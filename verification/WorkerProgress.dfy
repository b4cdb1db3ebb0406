/**
 * The controller counts a case as completed before the workers run, and adds one for every case a worker announces as
 * started. Under two conditions the sum never exceeds the number of cases; each condition is needed.
 */
module WorkerProgress {
  import opened Wrappers
  import opened Reports
  import opened Options
  import opened WorkerSpec
  import opened WorkerSafety
  import opened WorkerRuns

  function StartedCount(saves: seq<Update>): nat {
    if saves == [] then 0
    else StartedCount(saves[..|saves| - 1]) + if saves[|saves| - 1].started.Some? then 1 else 0
  }

  lemma StartedCountSave(s: Session, started: Option<nat>)
    ensures StartedCount(Save(s, started).saves) == StartedCount(s.saves) + if started.Some? then 1 else 0
  {
  }

  lemma {:induction false} StartedCountPrefix(saves: seq<Update>, k: nat)
    requires k <= |saves|
    ensures StartedCount(saves[..k]) <= StartedCount(saves)
  {
    if k < |saves| {
      StartedCountPrefix(saves[..|saves| - 1], k);
      assert saves[..|saves| - 1][..k] == saves[..k];
    } else {
      assert saves[..k] == saves;
    }
  }

  // ----- How many cases a run starts

  lemma {:induction false} MemoryStartsNothing(s: Session, index: nat, script: CaseScript, w: World, k: nat)
    requires index < |s.report.cases| && s.report.cases[index].memory.Some? && k <= CURVE_POINTS
    ensures StartedCount(MemoryRounds(s, index, script, w, k).session.saves) == StartedCount(s.saves)
    decreases CURVE_POINTS - k
  {
    if k < CURVE_POINTS && script.steps(k).Reading? {
      var Reading(point, after) := script.steps(k);
      var s1 := Put(s, index, AddPoint(s.report.cases[index], point, k));
      StartedCountSave(s1, None);
      if SaveError(s1, w).None? && after.None? {
        MemoryStartsNothing(Save(s1, None), index, script, w, k + 1);
      }
    }
  }

  lemma BenchmarkStartsNothing(s: Session, index: nat, options: BenchmarkOptions, script: CaseScript, w: World)
    requires index < |s.report.cases|
    requires options.configuration.kind == Memory ==> s.report.cases[index].memory.Some?
    ensures StartedCount(RunBenchmark(s, index, options, script, w).session.saves) == StartedCount(s.saves)
  {
    if options.configuration.kind == Memory {
      MemoryStartsNothing(s, index, script, w, 0);
    } else {
      forall recorded: CaseResult {
        StartedCountSave(Put(s, index, recorded), None);
      }
    }
  }

  lemma ExecuteStartsOne(s: Session, index: nat, options: BenchmarkOptions, script: CaseScript, failFast: bool,
                         w: World)
    requires index < |s.report.cases|
    ensures StartedCount(ExecuteCase(s, index, options, script, failFast, w).session.saves) == StartedCount(s.saves) + 1
  {
    hide RunBenchmark;
    var s1 := Put(s, index, Started(s.report.cases[index], options, w));
    var s2 := Save(s1, Some(index));
    StartedCountSave(s1, Some(index));
    if SaveError(s1, w).None? {
      BenchmarkStartsNothing(s2, index, options, script, w);
      var end := RunBenchmark(s2, index, options, script, w);
      var clean := script.cleanup.None? && !end.recordFailed;
      StartedCountSave(Put(end.session, index, Classify(end.session.report.cases[index], end.failure, script.canceledAtStatus, clean)), None);
    }
  }

  /** How many of the cases from the n-th on have an unfinished record at their index. */
  ghost function Unfinished(records: seq<CaseResult>, indexes: seq<nat>, n: nat): nat
    requires n <= |indexes| && forall i :: 0 <= i < |indexes| ==> indexes[i] < |records|
    decreases |indexes| - n
  {
    if n == |indexes| then 0
    else (if records[indexes[n]].Finished() then 0 else 1) + Unfinished(records, indexes, n + 1)
  }

  lemma {:induction false} UnfinishedShrinks(earlier: seq<CaseResult>, later: seq<CaseResult>, indexes: seq<nat>,
                                             n: nat)
    requires n <= |indexes| && Extends(earlier, later)
    requires forall i :: 0 <= i < |indexes| ==> indexes[i] < |earlier|
    ensures Unfinished(later, indexes, n) <= Unfinished(earlier, indexes, n)
    decreases |indexes| - n
  {
    if n < |indexes| {
      UnfinishedShrinks(earlier, later, indexes, n + 1);
    }
  }

  lemma {:induction false} CasesStart(s: Session, cases: seq<BenchmarkOptions>, indexes: seq<nat>, n: nat,
                                      failed: bool, failFast: bool, w: World)
    requires Sound(s) && Indexed(s.report.cases, cases, indexes) && GoodWorld(w) && n <= |cases|
    ensures StartedCount(RunCases(s, cases, indexes, n, failed, failFast, w).0.saves)
            <= StartedCount(s.saves) + Unfinished(s.report.cases, indexes, n)
    decreases |cases| - n
  {
    hide ExecuteCase, Sound, Indexed;
    if n < |cases| && !w.canceledBefore(n) {
      assert |indexes| == |cases| && indexes[n] < |s.report.cases| by { IndexedAt(s.report.cases, cases, indexes, n); }
      if s.report.cases[indexes[n]].Finished() {
        CasesStart(s, cases, indexes, n + 1, failed, failFast, w);
      } else {
        var step := CaseStep(s, cases, indexes, n, true, failFast, w);
        ExecuteStartsOne(s, indexes[n], cases[n], w.scripts(n), failFast, w);
        if step.stop.None? {
          CasesStart(step.session, cases, indexes, n + 1, failed || step.failed, failFast, w);
          UnfinishedShrinks(s.report.cases, step.session.report.cases, indexes, n + 1);
        }
      }
    }
  }

  lemma IndexedAt(records: seq<CaseResult>, cases: seq<BenchmarkOptions>, indexes: seq<nat>, n: nat)
    requires Indexed(records, cases, indexes) && n < |cases|
    ensures |indexes| == |cases| && indexes[n] < |records| && Matches(records[indexes[n]], cases[n])
    ensures forall i :: 0 <= i < |indexes| ==> indexes[i] < |records|
  {
  }

  // ----- Comparison with the controller's count

  /** With distinct keys, a case whose record is unfinished is not covered by any other record either. */
  lemma {:induction false} UnfinishedArePending(records: seq<CaseResult>, cases: seq<BenchmarkOptions>,
                                                indexes: seq<nat>, n: nat)
    requires Indexed(records, cases, indexes) && KeysDistinct(records) && n <= |cases|
    ensures Unfinished(records, indexes, 0) <= PendingCount(cases[..n], records) + Unfinished(records, indexes, n)
  {
    if n > 0 {
      UnfinishedArePending(records, cases, indexes, n - 1);
      assert cases[..n][..n - 1] == cases[..n - 1];
      if !records[indexes[n - 1]].Finished() {
        assert !Covered(cases[n - 1], records);
      }
    }
  }

  lemma {:induction false} PendingUnderPrefix(options: seq<BenchmarkOptions>, given: seq<CaseResult>,
                                              prepared: seq<CaseResult>)
    requires given <= prepared
    ensures PendingCount(options, prepared) <= PendingCount(options, given)
  {
    if options != [] {
      PendingUnderPrefix(options[..|options| - 1], given, prepared);
      var last := options[|options| - 1];
      if Covered(last, given) {
        var i :| 0 <= i < |given| && given[i].Finished() && Matches(given[i], last);
        assert prepared[i] == given[i];
      }
    }
  }

  /** The worker's placement has as many tunnel workers as the saved report names, so both resolve the same queues. */
  predicate SameWorkers(report: Option<Report>, w: World) {
    report.Some? && w.platform.Some? ==> report.value.environment.tunnelWorkers == w.platform.value.tunnelWorkers
  }

  lemma RunStarts(start: Session, cases: seq<BenchmarkOptions>, indexes: seq<nat>, failFast: bool, w: World)
    requires Sound(start) && start.saves == [] && Indexed(start.report.cases, cases, indexes) && GoodWorld(w)
    ensures
      var body := RunBody(start, cases, indexes, failFast, w);
      StartedCount(Finish(body.0, indexes, body.1, w).0.saves) <= Unfinished(start.report.cases, indexes, 0)
  {
    hide RunCases;
    var body := RunBody(start, cases, indexes, failFast, w);
    StartedCountSave(start, None);
    StartedCountSave(body.0, None);
    SaveSound(start, None);
    if SaveError(start, w).None? && (NeedsIperf(cases) ==> w.iperfVersion.Some?) {
      var s1 := Save(start, None);
      AdvanceSound(s1, WithIperf(s1.report, cases, w));
      CasesStart(s1.(report := WithIperf(s1.report, cases, w)), cases, indexes, 0, false, failFast, w);
    }
    assert Finish(body.0, indexes, body.1, w).0.saves[..|body.0.saves|] == body.0.saves;
  }

  // ----- Exactly when the sum stays within the number of cases

  /** The cases that the worker, on this platform, finds with an unfinished record once its report is prepared. */
  ghost function Open(report: Option<Report>, cases: seq<BenchmarkOptions>, w: World): nat
    requires w.platform.Some? && w.hostname.Some? && Base(report, w).Some?
  {
    var selected := Selected(cases, w.platform.value);
    var (prepared, indexes) := PrepareCases(Base(report, w).value, selected, w);
    Unfinished(prepared.cases, indexes, 0)
  }

  /** Two worlds that differ at most in how the cases turn out, in failing saves and in cancellation. */
  ghost predicate SamePlatform(a: World, b: World) {
    && a.platform == b.platform && a.hostname == b.hostname
    && a.memoryMetric == b.memoryMetric && a.iperfVersion == b.iperfVersion
  }

  function FailingScript(): CaseScript {
    CaseScript(Some(Text("no route")), Snapshot(0, 0, 0), Snapshot(0, 0, 0), 0, None,
               (k: nat) => StepFailed(Text("no route")), None, None, false, false)
  }

  /** The same platform, where every case fails before it is measured and nothing else goes wrong. */
  function Failing(w: World): World {
    w.(saveFails := (n: nat) => false, canceledBefore := (n: nat) => false, scripts := (n: nat) => FailingScript())
  }

  /**
   * A case that fails before its measurement leaves its record unfinished, so a later case with the same record starts
   * it again.
   */
  lemma {:induction false} FailingStartsAll(s: Session, cases: seq<BenchmarkOptions>, indexes: seq<nat>, n: nat,
                                            failed: bool, w: World)
    requires |indexes| == |cases| && n <= |cases| && forall i :: 0 <= i < |indexes| ==> indexes[i] < |s.report.cases|
    ensures StartedCount(RunCases(s, cases, indexes, n, failed, false, Failing(w)).0.saves)
            == StartedCount(s.saves) + Unfinished(s.report.cases, indexes, n)
    decreases |cases| - n
  {
    hide ExecuteCase;
    if n < |cases| {
      if s.report.cases[indexes[n]].Finished() {
        FailingStartsAll(s, cases, indexes, n + 1, failed, w);
      } else {
        var step := ExecuteCase(s, indexes[n], cases[n], FailingScript(), false, Failing(w));
        FailingStep(s, indexes[n], cases[n], w);
        ExecuteStartsOne(s, indexes[n], cases[n], FailingScript(), false, Failing(w));
        FailingStartsAll(step.session, cases, indexes, n + 1, failed || step.failed, w);
        UnfinishedSame(s.report.cases, step.session.report.cases, indexes, n + 1);
      }
    }
  }

  lemma FailingStep(s: Session, index: nat, options: BenchmarkOptions, w: World)
    requires index < |s.report.cases|
    ensures
      var step := ExecuteCase(s, index, options, FailingScript(), false, Failing(w));
      && step.stop.None?
      && !step.session.report.cases[index].Finished()
      && forall i :: 0 <= i < |s.report.cases| && i != index ==> step.session.report.cases[i] == s.report.cases[i]
  {
  }

  lemma {:induction false} UnfinishedSame(a: seq<CaseResult>, b: seq<CaseResult>, indexes: seq<nat>, n: nat)
    requires n <= |indexes| && |a| == |b| && forall i :: 0 <= i < |indexes| ==> indexes[i] < |a|
    requires forall i :: 0 <= i < |a| ==> a[i].Finished() == b[i].Finished()
    ensures Unfinished(a, indexes, n) == Unfinished(b, indexes, n)
    decreases |indexes| - n
  {
    if n < |indexes| {
      UnfinishedSame(a, b, indexes, n + 1);
    }
  }

  /** On this platform no outcome of the cases starts more of them than are open. */
  lemma StartedAtMostOpen(report: Option<Report>, cases: seq<BenchmarkOptions>, failFast: bool, w: World)
    requires ValidOption(report) && GoodCases(cases) && GoodWorld(w) && Entered(report, cases, failFast, w)
    ensures StartedCount(Run(report, cases, failFast, w).saves) <= Open(report, cases, w)
  {
    hide RunBody, Finish, PrepareCases, Selected, Indexed, EarlyIperf, Base;
    var selected := Selected(cases, w.platform.value);
    SelectedGood(cases, w.platform.value);
    EnteredBase(report, cases, failFast, w);
    StartSound(report, selected, w);
    var base := Base(report, w).value;
    RunStarts(Start(base, selected, w), selected, PrepareCases(base, selected, w).1, failFast, w);
  }

  /** A run that is entered goes on from its base report. */
  lemma EnteredBase(report: Option<Report>, cases: seq<BenchmarkOptions>, failFast: bool, w: World)
    requires Entered(report, cases, failFast, w)
    ensures w.platform.Some? && w.hostname.Some? && Base(report, w).Some?
    ensures
      var base, selected := Base(report, w).value, Selected(cases, w.platform.value);
      Run(report, cases, failFast, w).saves == RunEntered(base, selected, failFast, w).0.saves
  {
    hide RunEntered, PrepareCases, Selected, EarlyIperf;
  }

  /** When every case fails before it is measured, all open cases are started. */
  lemma FailingStartsOpen(report: Option<Report>, cases: seq<BenchmarkOptions>, w: World)
    requires Entered(report, cases, false, w) && w.iperfVersion.Some?
    ensures Entered(report, cases, false, Failing(w))
    ensures StartedCount(Run(report, cases, false, Failing(w)).saves) == Open(report, cases, w)
  {
    hide Run, RunBody, Finish, PrepareCases, Selected, Unfinished;
    EnteredBase(report, cases, false, w);
    var base, selected := Base(report, w).value, Selected(cases, w.platform.value);
    SameEntered(report, cases, w, false, Failing(w));
    EnteredBase(report, cases, false, Failing(w));
    PrepareSame(base, selected, w, Failing(w));
    FailingRunStarts(Start(base, selected, w), selected, PrepareCases(base, selected, w).1, w);
  }

  lemma FailingRunStarts(start: Session, cases: seq<BenchmarkOptions>, indexes: seq<nat>, w: World)
    requires start.saves == [] && |indexes| == |cases| && w.iperfVersion.Some?
    requires forall i :: 0 <= i < |indexes| ==> indexes[i] < |start.report.cases|
    ensures
      var body := RunBody(start, cases, indexes, false, Failing(w));
      StartedCount(Finish(body.0, indexes, body.1, Failing(w)).0.saves) == Unfinished(start.report.cases, indexes, 0)
  {
    hide RunCases, Finish;
    var body := RunBody(start, cases, indexes, false, Failing(w));
    var looped := Save(start, None).(report := WithIperf(start.report, cases, w));
    assert body == RunCases(looped, cases, indexes, 0, false, false, Failing(w));
    FailingStartsAll(looped, cases, indexes, 0, false, w);
    StartedCountSave(start, None);
    FinishStartsNothing(body.0, indexes, body.1, Failing(w));
  }

  lemma FinishStartsNothing(s: Session, indexes: seq<nat>, failure: Option<Failure>, w: World)
    ensures StartedCount(Finish(s, indexes, failure, w).0.saves) == StartedCount(s.saves)
  {
  }

  lemma {:induction false} PrepareSame(report: Report, cases: seq<BenchmarkOptions>, a: World, b: World)
    requires a.memoryMetric == b.memoryMetric
    ensures PrepareCases(report, cases, a) == PrepareCases(report, cases, b)
  {
    if cases != [] {
      PrepareSame(report, cases[..|cases| - 1], a, b);
    }
  }

  /**
   * On a given platform the controller's count plus the cases started stays within the number of cases, however the
   * cases turn out, if and only if the worker finds no more cases open than the controller left uncounted.
   */
  lemma ProgressExactly(report: Option<Report>, cases: seq<BenchmarkOptions>, platform: World)
    requires ValidOption(report) && GoodCases(cases) && GoodWorld(platform)
    requires Entered(report, cases, false, platform) && platform.iperfVersion.Some?
    ensures
      (forall w: World, failFast: bool | SamePlatform(w, platform) && GoodWorld(w) ::
         CompletedCases(cases, report) + StartedCount(Run(report, cases, failFast, w).saves) <= |cases|)
      <==> CompletedCases(cases, report) + Open(report, cases, platform) <= |cases|
  {
    hide RunPrepared, CompletedCases, Open;
    FailingStartsOpen(report, cases, platform);
    assert SamePlatform(Failing(platform), platform) && GoodWorld(Failing(platform));
    if CompletedCases(cases, report) + Open(report, cases, platform) <= |cases| {
      forall w: World, failFast: bool | SamePlatform(w, platform) && GoodWorld(w)
        ensures CompletedCases(cases, report) + StartedCount(Run(report, cases, failFast, w).saves) <= |cases|
      {
        SameEntered(report, cases, platform, failFast, w);
        StartedAtMostOpen(report, cases, failFast, w);
      }
    }
  }

  lemma SameEntered(report: Option<Report>, cases: seq<BenchmarkOptions>, platform: World, failFast: bool, w: World)
    requires SamePlatform(w, platform) && Entered(report, cases, false, platform)
    ensures Entered(report, cases, failFast, w) && Open(report, cases, w) == Open(report, cases, platform)
  {
    hide RunBody, Finish;
    var selected := Selected(cases, platform.platform.value);
    PrepareSame(Base(report, platform).value, selected, platform, w);
  }

  /** Distinct keys and equal worker counts are enough for that. */
  lemma OpenWithinTotal(report: Option<Report>, cases: seq<BenchmarkOptions>, w: World)
    requires ValidOption(report) && GoodCases(cases) && GoodWorld(w)
    requires w.platform.Some? && w.hostname.Some? && Base(report, w).Some?
    requires OptionDistinct(report) && SameWorkers(report, w)
    ensures CompletedCases(cases, report) + Open(report, cases, w) <= |cases|
  {
    hide Sound, PrepareCases;
    var selected := Selected(cases, w.platform.value);
    SelectedGood(cases, w.platform.value);
    StartSound(report, selected, w);
    var records := Start(Base(report, w).value, selected, w).report.cases;
    var resolved := ResolveAll(cases, w.platform.value.tunnelWorkers);
    UnfinishedArePending(records, selected, PrepareCases(Base(report, w).value, selected, w).1, |selected|);
    assert selected[..|selected|] == selected;
    UniqPending(resolved, records);
    PendingUnderPrefix(resolved, if report.Some? then report.value.cases else [], records);
    PendingCountBound(resolved, records);
  }

  /** What the controller has counted, plus what the worker has announced so far, is at most the number of cases. */
  lemma StartedWithinTotal(report: Option<Report>, cases: seq<BenchmarkOptions>, failFast: bool, w: World, k: nat)
    requires ValidOption(report) && GoodCases(cases) && GoodWorld(w)
    requires OptionDistinct(report) && SameWorkers(report, w)
    requires k <= |Run(report, cases, failFast, w).saves|
    ensures CompletedCases(cases, report) + StartedCount(Run(report, cases, failFast, w).saves[..k]) <= |cases|
  {
    hide RunPrepared, Open;
    StartedCountPrefix(Run(report, cases, failFast, w).saves, k);
    if Entered(report, cases, failFast, w) {
      StartedAtMostOpen(report, cases, failFast, w);
      OpenWithinTotal(report, cases, w);
    } else {
      NotEnteredSavesNothing(report, cases, failFast, w);
    }
  }

  // ----- Both conditions are needed

  /** An environment with nothing to save wrongly, in which every case fails before it is measured. */
  function FailingWorld(workers: int): World {
    Failing(World(Some(Placement("linux", "amd64", "", Cpu, "", [], [], workers, workers)), Some("host"), "rss",
          Some("iperf 3.16"), (n: nat) => false, (n: nat) => false, (n: nat) => FailingScript(), false))
  }

  function ParallelCase(): BenchmarkOptions {
    var configuration := CaseConfiguration(Throughput, "m", "a", "", 4, "tcp", "upload", 2, 1500, 0);
    BenchmarkOptions(configuration, "linux", "", "sing-box", "bin", "1.0.0", "iperf3", "", 0)
  }

  /** A report that records the parallel case, once for each of the given queue counts and statuses. */
  function ReportOf(workers: int, records: seq<(int, Status)>): Report {
    Report(true, Placement("linux", "amd64", "host", Cpu, "", [], [], workers, workers), CURRENT_PROTOCOL, NO_IPERF,
           map["a" := Implementation("sing-box", "bin", "", "1.0.0", "")],
           seq(|records|, i requires 0 <= i < |records| =>
             CaseResult(ParallelCase().configuration, records[i].0, records[i].1, None, None,
                        Some(CaseBug("panic", "panic: ")), "")), "")
  }

  /** In the failing environment the first save after the initial one announces an unfinished case as started. */
  lemma UnfinishedCaseStarts(start: Session, options: BenchmarkOptions, index: nat, workers: int)
    requires index < |start.report.cases| && !start.report.cases[index].Finished() && start.saves == []
    requires options.configuration.kind == Throughput
    ensures
      var w := FailingWorld(workers);
      var body := RunBody(start, [options], [index], false, w);
      var saves := Finish(body.0, [index], body.1, w).0.saves;
      |saves| >= 2 && StartedCount(saves[..2]) == 1
  {
    var w := FailingWorld(workers);
    var s1 := Save(start, None);
    var s2 := s1.(report := WithIperf(s1.report, [options], w));
    var s3 := Save(Put(s2, index, Started(s2.report.cases[index], options, w)), Some(index));
    var body := RunBody(start, [options], [index], false, w);
    assert body.0 == RunCases(s2, [options], [index], 0, false, false, w).0;
    var step := ExecuteCase(s2, index, options, w.scripts(0), false, w);
    assert s3.saves <= step.session.saves;
    assert RunCases(s2, [options], [index], 0, false, false, w).0 == step.session;
    var saves := Finish(body.0, [index], body.1, w).0.saves;
    assert saves[..2] == s3.saves;
    StartedCountSave(start, None);
    StartedCountSave(Put(s2, index, Started(s2.report.cases[index], options, w)), Some(index));
  }

  /** Running the single parallel case starts it when the record it finds or adds is unfinished. */
  lemma SingleRunStarts(report: Report, workers: int)
    requires !AnyMeasured(report.cases) && report.iperf.version == ""
    requires
      var options := ParallelCase().(queues := workers);
      var index := IndexOf(report.cases, options);
      index == |report.cases| || !report.cases[index].Finished()
    ensures
      var saves := Run(Some(report), [ParallelCase()], false, FailingWorld(workers)).saves;
      |saves| >= 2 && StartedCount(saves[..2]) == 1
  {
    hide RunBody, Finish;
    var w, options := FailingWorld(workers), ParallelCase().(queues := workers);
    SingleSelected(workers);
    var base := Base(Some(report), w).value;
    SingleIndex(base, options, w);
    var index := IndexOf(report.cases, options);
    assert PrepareCases(base, [options], w).1[0] == index;
    UnfinishedCaseStarts(Start(base, [options], w), options, index, workers);
    assert Run(Some(report), [ParallelCase()], false, w) == RunPrepared(base, [options], false, w);
  }

  /** Without equal worker counts: a legal report with distinct keys for which the sum exceeds the number of cases. */
  lemma WorkersMustAgree() returns (report: Report, cases: seq<BenchmarkOptions>, w: World)
    ensures ValidReport(report) && KeysDistinct(report.cases) && GoodCases(cases) && GoodWorld(w)
    ensures !SameWorkers(Some(report), w)
    ensures
      var saves := Run(Some(report), cases, false, w).saves;
      |saves| >= 2 && CompletedCases(cases, Some(report)) + StartedCount(saves[..2]) > |cases|
  {
    hide Run, CompletedCases;
    report, cases, w := ReportOf(2, [(2, Bug)]), [ParallelCase()], FailingWorld(3);
    SingleCompleted(report, 2, 0);
    SingleRunStarts(report, 3);
  }

  /** Without distinct keys, which `validate` does not ask for: the same with equal worker counts. */
  lemma KeysMustBeDistinct() returns (report: Report, cases: seq<BenchmarkOptions>, w: World)
    ensures ValidReport(report) && !KeysDistinct(report.cases) && GoodCases(cases) && GoodWorld(w)
    ensures SameWorkers(Some(report), w)
    ensures
      var saves := Run(Some(report), cases, false, w).saves;
      |saves| >= 2 && CompletedCases(cases, Some(report)) + StartedCount(saves[..2]) > |cases|
  {
    hide Run, CompletedCases;
    report, cases, w := ReportOf(2, [(2, Failed), (2, Bug)]), [ParallelCase()], FailingWorld(2);
    assert report.cases[0].Key() == report.cases[1].Key();
    SingleCompleted(report, 2, 1);
    SingleRunStarts(report, 2);
  }

  lemma SingleSelected(workers: int)
    ensures Uniq(ResolveAll([ParallelCase()], workers)) == [ParallelCase().(queues := workers)]
  {
  }

  lemma SingleCompleted(report: Report, workers: int, i: nat)
    requires i < |report.cases| && report.environment.tunnelWorkers == workers
    requires report.cases[i].Finished() && report.cases[i].Key() == (ParallelCase().configuration, workers)
    ensures CompletedCases([ParallelCase()], Some(report)) == 1
  {
    var resolved := ResolveAll([ParallelCase()], workers);
    assert Matches(report.cases[i], resolved[0]);
    PendingCountBound(resolved, report.cases);
  }

  lemma SingleIndex(base: Report, options: BenchmarkOptions, w: World)
    ensures PrepareCases(base, [options], w).1 == [IndexOf(base.cases, options)]
    ensures PrepareCases(base, [options], w).0 == PrepareCase(base, options, w)
  {
  }
}
