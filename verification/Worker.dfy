/**
 * The worker as the program runs it: one object whose report is updated in place and saved after every step
 * (worker.go).
 */
module Worker {
  import opened Wrappers
  import opened Reports
  import opened Options
  import opened WorkerSpec

  lemma PrepareNext(base: Report, cases: seq<BenchmarkOptions>, i: nat, w: World)
    requires i < |cases|
    ensures
      var front := PrepareCases(base, cases[..i], w);
      PrepareCases(base, cases[..i + 1], w)
      == (PrepareCase(front.0, cases[i], w), front.1 + [IndexOf(front.0.cases, cases[i])])
  {
    assert cases[..i + 1][..i] == cases[..i];
  }

  class BenchmarkMatrix {
    var cases: seq<BenchmarkOptions>
    var failFast: bool
    var report: Option<Report>
    var caseIndexes: seq<nat>
    /** Everything saveReport has been given, in order. */
    var saves: seq<Update>

    constructor (cases: seq<BenchmarkOptions>, failFast: bool, report: Option<Report>)
      ensures this.cases == cases && this.failFast == failFast && this.report == report
      ensures saves == [] && caseIndexes == []
    {
      this.cases, this.failFast, this.report := cases, failFast, report;
      caseIndexes, saves := [], [];
    }

    function Now(): Session
      requires report.Some?
      reads this
    {
      Session(report.value, saves)
    }

    /** Hands the report to its receiver, which may fail after having taken it. */
    method SaveReport(started: Option<nat>, w: World) returns (failure: Option<Failure>)
      requires report.Some?
      modifies `saves
      ensures Now() == Save(old(Now()), started)
      ensures failure == SaveError(old(Now()), w)
    {
      failure := if w.saveFails(|saves|) then Some(SAVE_FAILED) else None;
      saves := saves + [Update(report.value, started)];
    }

    method SetCase(index: nat, recorded: CaseResult)
      requires report.Some? && index < |report.value.cases|
      modifies `report
      ensures report.Some? && Now() == Put(old(Now()), index, recorded)
    {
      report := Some(report.value.(cases := report.value.cases[index := recorded]));
    }

    method RunThroughput(index: nat, script: CaseScript, w: World)
      returns (failure: Option<Failure>, recordFailed: bool)
      requires report.Some? && index < |report.value.cases|
      modifies `report, `saves
      ensures report.Some?
      ensures CaseEnd(Now(), failure, recordFailed) == WorkerSpec.RunThroughput(old(Now()), index, script, w)
    {
      if script.setup.Some? {
        return script.setup, false;
      }
      if script.received == 0 {
        return Some(NO_PAYLOAD), false;
      }
      var measured := CalculateMeasurement(script.before, script.after, script.received, report.value.environment.metric);
      if measured.None? {
        return Some(NOT_COMPARABLE), false;
      }
      var sample := measured.value;
      if script.sent.Some? {
        sample := sample.(sentBits := script.sent.value as real * 8.0);
      }
      SetCase(index, report.value.cases[index].(sample := Some(sample)));
      failure := SaveReport(None, w);
      recordFailed := failure.Some?;
    }

    method RunMemory(index: nat, script: CaseScript, w: World) returns (failure: Option<Failure>, recordFailed: bool)
      requires report.Some? && index < |report.value.cases| && report.value.cases[index].memory.Some?
      modifies `report, `saves
      ensures report.Some?
      ensures CaseEnd(Now(), failure, recordFailed) == WorkerSpec.RunMemory(old(Now()), index, script, w)
    {
      if script.setup.Some? {
        return script.setup, false;
      }
      ghost var entry := Now();
      var count, k: nat := 0, 0;
      while count <= MAX_CONNECTIONS
        invariant k <= CURVE_POINTS && count == CONNECTION_STEP * k
        invariant report.Some? && index < |report.value.cases| && report.value.cases[index].memory.Some?
        invariant MemoryRounds(entry, index, script, w, 0) == MemoryRounds(Now(), index, script, w, k)
        decreases CURVE_POINTS - k
      {
        match script.steps(k) {
          case StepFailed(stepFailure) =>
            return Some(stepFailure), false;
          case Reading(reading, after) =>
            var memory := report.value.cases[index].memory.value;
            var point := reading.(connections := count);
            SetCase(index, report.value.cases[index].(memory := Some(memory.(points := memory.points + [point]))));
            failure := SaveReport(None, w);
            if failure.Some? {
              return failure, true;
            }
            if after.Some? {
              return after, false;
            }
        }
        count, k := count + CONNECTION_STEP, k + 1;
      }
      return None, false;
    }

    method RunBenchmark(index: nat, options: BenchmarkOptions, script: CaseScript, w: World)
      returns (failure: Option<Failure>, recordFailed: bool)
      requires report.Some? && index < |report.value.cases|
      requires options.configuration.kind == Memory ==> report.value.cases[index].memory.Some?
      modifies `report, `saves
      ensures report.Some?
      ensures CaseEnd(Now(), failure, recordFailed) == WorkerSpec.RunBenchmark(old(Now()), index, options, script, w)
    {
      if options.configuration.kind == Memory {
        failure, recordFailed := RunMemory(index, script, w);
      } else {
        failure, recordFailed := RunThroughput(index, script, w);
      }
      failure := Join(Join(failure, script.checks), script.cleanup);
    }

    /** The body of the case loop for an unfinished record. */
    method ExecuteCase(index: nat, options: BenchmarkOptions, script: CaseScript, w: World)
      returns (stop: Option<Failure>, failed: bool)
      requires report.Some? && index < |report.value.cases|
      modifies `report, `saves
      ensures report.Some?
      ensures Step(Now(), stop, failed) == WorkerSpec.ExecuteCase(old(Now()), index, options, script, failFast, w)
    {
      SetCase(index, Started(report.value.cases[index], options, w));
      var saveFailure := SaveReport(Some(index), w);
      if saveFailure.Some? {
        return saveFailure, false;
      }
      var failure, recordFailed := RunBenchmark(index, options, script, w);
      var clean := script.cleanup.None? && !recordFailed;
      var recorded := report.value.cases[index];
      if failure.Some? {
        recorded := recorded.(status := Failed, error := failure.value.text);
        if script.canceledAtStatus {
          recorded := recorded.(status := Canceled);
        } else if clean {
          var bugKind := "";
          if failure.value.panic {
            bugKind := "panic";
          } else if failure.value.payload {
            bugKind := "udp-payload";
          } else if failure.value.noPayload {
            bugKind := "udp-no-payload";
          }
          if bugKind != "" {
            recorded := recorded.(bug := Some(CaseBug(bugKind, recorded.error)));
            recorded := recorded.(status := Bug, error := "");
          }
        }
      } else {
        recorded := recorded.(status := Passed);
      }
      SetCase(index, recorded);
      saveFailure := SaveReport(None, w);
      if saveFailure.Some? {
        return Join(failure, saveFailure), false;
      }
      if recorded.status == Bug {
        return None, false;
      }
      if failure.Some? {
        if failFast || script.canceledAtStop || !clean {
          return failure, false;
        }
        return None, true;
      }
      return None, false;
    }

    method RunBody(w: World) returns (failure: Option<Failure>)
      requires report.Some? && |caseIndexes| == |cases|
      requires forall i :: 0 <= i < |caseIndexes| ==> caseIndexes[i] < |report.value.cases|
      modifies `report, `saves
      ensures report.Some?
      ensures (Now(), failure) == WorkerSpec.RunBody(old(Now()), cases, caseIndexes, failFast, w)
    {
      hide RunCases;
      failure := SaveReport(None, w);
      if failure.Some? {
        return;
      }
      if NeedsIperf(cases) && w.iperfVersion.None? {
        return Some(IPERF_FAILED);
      }
      report := Some(WithIperf(report.value, cases, w));
      failure := RunLoop(w);
    }

    method RunLoop(w: World) returns (failure: Option<Failure>)
      requires report.Some? && |caseIndexes| == |cases|
      requires forall i :: 0 <= i < |caseIndexes| ==> caseIndexes[i] < |report.value.cases|
      modifies `report, `saves
      ensures report.Some?
      ensures (Now(), failure) == RunCases(old(Now()), cases, caseIndexes, 0, false, failFast, w)
    {
      hide WorkerSpec.ExecuteCase;
      ghost var entry := Now();
      var anyFailed := false;
      for i := 0 to |cases|
        invariant report.Some? && |report.value.cases| == |entry.report.cases|
        invariant RunCases(entry, cases, caseIndexes, 0, false, failFast, w)
                  == RunCases(Now(), cases, caseIndexes, i, anyFailed, failFast, w)
      {
        if w.canceledBefore(i) {
          return Some(CONTEXT_CANCELED);
        }
        var recorded := report.value.cases[caseIndexes[i]];
        if recorded.status == Passed || recorded.status == Bug {
          continue;
        }
        var stop, failed := ExecuteCase(caseIndexes[i], cases[i], w.scripts(i), w);
        if stop.Some? {
          return stop;
        }
        anyFailed := anyFailed || failed;
      }
      if anyFailed {
        return Some(CASES_FAILED);
      }
      return None;
    }

    /** The deferred function of `run`. */
    method FinishUp(failure: Option<Failure>, w: World) returns (result: Option<Failure>)
      requires report.Some?
      requires forall i :: 0 <= i < |caseIndexes| ==> caseIndexes[i] < |report.value.cases|
      modifies `report, `saves
      ensures report.Some?
      ensures (Now(), result) == Finish(old(Now()), caseIndexes, failure, w)
    {
      ghost var was := report.value.cases;
      var fixed := report.value.cases;
      if failure.Some? {
        for i := 0 to |caseIndexes|
          invariant |fixed| == |was|
          invariant forall j :: 0 <= j < |was| ==>
            fixed[j] == if j in caseIndexes[..i] then Unfinish(was[j], failure.value, w.canceledAtEnd) else was[j]
        {
          var index := caseIndexes[i];
          if fixed[index].status == Running {
            var status := if w.canceledAtEnd then Canceled else Failed;
            fixed := fixed[index := fixed[index].(status := status, error := failure.value.text)];
          }
          assert caseIndexes[..i + 1] == caseIndexes[..i] + [index];
        }
        assert caseIndexes[..|caseIndexes|] == caseIndexes;
        report := Some(report.value.(finished := true, error := failure.value.text, cases := fixed));
        assert report.value.cases == Finish(old(Now()), caseIndexes, failure, w).0.report.cases;
      } else {
        report := Some(report.value.(finished := true));
      }
      var saveFailure := SaveReport(None, w);
      result := Join(failure, saveFailure);
    }

    method PrepareOne(options: BenchmarkOptions, w: World) returns (index: nat)
      requires report.Some?
      modifies `report
      ensures report == Some(PrepareCase(old(report.value), options, w))
      ensures index == IndexOf(old(report.value).cases, options)
    {
      var name := options.configuration.implementation;
      var implementations := report.value.implementations;
      if name !in implementations {
        var added := Implementation(options.software, options.executable, options.sourcePackage, options.version, "");
        implementations := implementations[name := added];
      }
      implementations := implementations[name := implementations[name].(path := options.executable)];
      assert implementations == PrepareCase(report.value, options, w).implementations;
      report := Some(report.value.(implementations := implementations));
      index := IndexOf(report.value.cases, options);
      if index == |report.value.cases| {
        report := Some(report.value.(cases := report.value.cases + [PendingCase(options, w)]));
      }
    }

    /** Finds or adds the record of every case, and remembers at which position it is. */
    method PrepareRecords(w: World)
      requires report.Some?
      modifies `report, `caseIndexes
      ensures report.Some? && (report.value, caseIndexes) == PrepareCases(old(report.value), cases, w)
    {
      hide PrepareCase;
      ghost var base := report.value;
      caseIndexes := [];
      for i := 0 to |cases|
        invariant report.Some? && (report.value, caseIndexes) == PrepareCases(base, cases[..i], w)
      {
        PrepareNext(base, cases, i, w);
        var index := PrepareOne(cases[i], w);
        caseIndexes := caseIndexes + [index];
      }
      assert cases[..|cases|] == cases;
    }

    /** Merges the selected cases into the report, unless it was measured in another environment. */
    method PrepareReport(placement: Placement, w: World) returns (failure: Option<Failure>)
      modifies `report, `caseIndexes
      ensures
        var base := BaseReport(old(report), placement);
        if base.None? then failure == Some(ENVIRONMENT_DIFFERS) && report == old(report) && caseIndexes == old(caseIndexes)
        else failure == None && report.Some? && (report.value, caseIndexes) == PrepareCases(base.value, cases, w)
    {
      hide PrepareCases;
      if report.None? {
        report := Some(Report(false, placement, CURRENT_PROTOCOL, NO_IPERF, map[], [], ""));
      } else {
        if AnyMeasured(report.value.cases) && !SamePlacement(report.value.environment, placement) {
          return Some(ENVIRONMENT_DIFFERS);
        }
        report := Some(report.value.(environment := placement, protocol := CURRENT_PROTOCOL));
      }
      PrepareRecords(w);
      return None;
    }

    /** Resolves the queues of every case for this placement, then drops repeated cases. */
    method ResolveCases(placement: Placement)
      modifies `cases
      ensures cases == Selected(old(cases), placement)
    {
      var resolved := cases;
      for i := 0 to |cases|
        invariant |resolved| == |cases|
        invariant forall j :: 0 <= j < |cases| ==>
          resolved[j] == if j < i then cases[j].ResolveQueues(placement.tunnelWorkers) else cases[j]
      {
        resolved := resolved[i := resolved[i].ResolveQueues(placement.tunnelWorkers)];
      }
      assert resolved == ResolveAll(cases, placement.tunnelWorkers);
      cases := Uniq(resolved);
    }

    method CountCompleted() returns (completed: nat)
      requires report.Some? && forall i :: 0 <= i < |caseIndexes| ==> caseIndexes[i] < |report.value.cases|
      ensures completed == |caseIndexes| <==> AllFinished(report.value.cases, caseIndexes)
    {
      completed := 0;
      for i := 0 to |caseIndexes|
        invariant completed <= i
        invariant completed == i <==> forall j :: 0 <= j < i ==> report.value.cases[caseIndexes[j]].Finished()
      {
        var status := report.value.cases[caseIndexes[i]].status;
        if status == Passed || status == Bug {
          completed := completed + 1;
        }
      }
    }

    /** The part of `run` that follows a successful merge of the report. */
    method RunMerged(ghost base: Report, w: World) returns (failure: Option<Failure>)
      requires report.Some? && (report.value, caseIndexes) == PrepareCases(base, cases, w) && saves == []
      modifies `report, `saves
      ensures
        var o := RunPrepared(base, cases, failFast, w);
        report == o.report && caseIndexes == o.indexes && saves == o.saves && failure == o.failure
    {
      hide WorkerSpec.RunBody, Finish, PrepareCases;
      var completed := CountCompleted();
      if completed == |cases| {
        return None;
      }
      failure := EarlyIperf(report.value, cases, w);
      if failure.Some? {
        return;
      }
      report := Some(report.value.(finished := false, error := ""));
      failure := RunBody(w);
      failure := FinishUp(failure, w);
    }

    /** `run`; a request holds at least one case. */
    method Run(w: World) returns (failure: Option<Failure>)
      requires cases != [] && saves == [] && caseIndexes == []
      modifies `cases, `report, `caseIndexes, `saves
      ensures
        var o := WorkerSpec.Run(old(report), old(cases), failFast, w);
        && report == o.report && cases == o.cases && caseIndexes == o.indexes
        && saves == o.saves && failure == o.failure
    {
      hide RunPrepared, PrepareCases;
      if w.platform.None? {
        return Some(PLATFORM_FAILED);
      }
      var placement := w.platform.value;
      ResolveCases(placement);
      if w.hostname.None? {
        return Some(HOSTNAME_FAILED);
      }
      placement := placement.(hostname := w.hostname.value);
      failure := PrepareReport(placement, w);
      if failure.Some? {
        return;
      }
      failure := RunMerged(BaseReport(old(report), placement).value, w);
    }
  }
}
