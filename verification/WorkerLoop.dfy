/** When a run returns nil, and which cases it executes under fail-fast and under cancellation (worker.go). */
module WorkerLoop {
  import opened Wrappers
  import opened Reports
  import opened Options
  import opened WorkerSpec
  import opened WorkerCases
  import opened WorkerRuns

  /** All saves from the first-th up to the one before the last-th succeed. */
  ghost predicate AllSaved(w: World, first: nat, last: nat) {
    forall k :: first <= k < last ==> !w.saveFails(k)
  }

  // ----- One case

  lemma {:induction false} RoundsSaved(s: Session, index: nat, script: CaseScript, w: World, k: nat)
    requires index < |s.report.cases| && s.report.cases[index].memory.Some? && k <= CURVE_POINTS
    ensures
      var end := MemoryRounds(s, index, script, w, k);
      && |s.saves| <= |end.session.saves|
      && (end.recordFailed <==> !AllSaved(w, |s.saves|, |end.session.saves|))
      && (end.recordFailed ==> end.failure.Some?)
    decreases CURVE_POINTS - k
  {
    if k < CURVE_POINTS && script.steps(k).Reading? {
      var t := AfterReading(s, index, script.steps(k).point, k);
      if !w.saveFails(|s.saves|) && script.steps(k).after.None? {
        RoundsSaved(t, index, script, w, k + 1);
      }
    }
  }

  lemma BenchmarkSaved(s: Session, index: nat, options: BenchmarkOptions, script: CaseScript, w: World)
    requires index < |s.report.cases|
    requires options.configuration.kind == Memory ==> s.report.cases[index].memory.Some?
    ensures
      var end := RunBenchmark(s, index, options, script, w);
      && |s.saves| <= |end.session.saves|
      && (end.recordFailed <==> !AllSaved(w, |s.saves|, |end.session.saves|))
      && (end.recordFailed || script.cleanup.Some? ==> end.failure.Some?)
  {
    if options.configuration.kind == Memory {
      RoundsSaved(s, index, script, w, 0);
    }
  }

  /** Only the record at the index differs, and the first new save announces it. */
  ghost predicate Executed(s: Session, t: Session, index: nat) {
    && index < |s.report.cases| && t.report == s.report.(cases := t.report.cases) && |t.report.cases| == |s.report.cases|
    && (forall i :: 0 <= i < |s.report.cases| && i != index ==> t.report.cases[i] == s.report.cases[i])
    && s.saves < t.saves && t.saves[|s.saves|].started == Some(index) && SavesOf(t.saves, |s.saves|, s.report)
  }

  /** What the loop must know about a step: which record it changed, whether it was finished, and why it stops. */
  ghost predicate Stepped(s: Session, step: Step, index: nat, script: CaseScript, failFast: bool, w: World) {
    && Executed(s, step.session, index)
    && var finished := step.session.report.cases[index].Finished();
       var saved := AllSaved(w, |s.saves|, |step.session.saves|);
       && (step.stop.None? && !step.failed <==> finished && saved)
       && (failFast && !finished ==> step.stop.Some?)
       && (step.stop.Some? <==> !saved || (!finished && (failFast || script.canceledAtStop || script.cleanup.Some?)))
  }

  lemma ConclusionStepped(end: CaseEnd, index: nat, script: CaseScript, failFast: bool, w: World, step: Step)
    requires CaseConcluded(end, index, script, failFast, w, step)
    requires end.recordFailed || script.cleanup.Some? ==> end.failure.Some?
    ensures
      var saved, finished := !w.saveFails(|end.session.saves|), step.session.report.cases[index].Finished();
      && step.session.report
         == end.session.report.(cases := end.session.report.cases[index := step.session.report.cases[index]])
      && step.session.saves == end.session.saves + [Update(step.session.report, None)]
      && (step.stop.None? && !step.failed <==> finished && saved)
      && (finished ==> !end.recordFailed)
      && (step.stop.Some? <==>
            !saved || (!finished && (failFast || script.canceledAtStop || script.cleanup.Some? || end.recordFailed)))
  {
  }

  lemma CaseStepped(s: Session, index: nat, options: BenchmarkOptions, script: CaseScript, failFast: bool, w: World)
    requires index < |s.report.cases|
    ensures Stepped(s, ExecuteCase(s, index, options, script, failFast, w), index, script, failFast, w)
  {
    hide ExecuteCase, RunBenchmark, Started, CaseConcluded;
    var begun := Begun(s, index, options, w);
    var step := ExecuteCase(s, index, options, script, failFast, w);
    BegunFresh(s, index, options, w);
    CaseOutcome(s, index, options, script, failFast, w);
    if !w.saveFails(|s.saves|) {
      BenchmarkMeasures(begun, index, options, script, w);
      BenchmarkSaved(begun, index, options, script, w);
      ConclusionStepped(RunBenchmark(begun, index, options, script, w), index, script, failFast, w, step);
    }
  }

  // ----- The case loop

  /** Every case has a record of its own. */
  ghost predicate OwnRecords(indexes: seq<nat>, records: nat) {
    && (forall i :: 0 <= i < |indexes| ==> indexes[i] < records)
    && (forall i, j :: 0 <= i < j < |indexes| ==> indexes[i] != indexes[j])
  }

  /** The loop changes only records of its remaining cases, and saves are only added. */
  ghost predicate Looped(s: Session, t: Session, indexes: seq<nat>, n: nat) {
    && t.report == s.report.(cases := t.report.cases) && |t.report.cases| == |s.report.cases|
    && s.saves <= t.saves && SavesOf(t.saves, |s.saves|, s.report)
    && n <= |indexes|
    && forall i :: 0 <= i < |s.report.cases| && i !in indexes[n..] ==> t.report.cases[i] == s.report.cases[i]
  }

  lemma LoopedThen(s: Session, t: Session, u: Session, indexes: seq<nat>, n: nat)
    requires n < |indexes| && (s == t || Executed(s, t, indexes[n])) && Looped(t, u, indexes, n + 1)
    ensures Looped(s, u, indexes, n)
  {
    assert indexes[n..] == [indexes[n]] + indexes[n + 1..];
  }

  lemma {:induction false} LoopKeeps(s: Session, cases: seq<BenchmarkOptions>, indexes: seq<nat>, n: nat, failed: bool,
                                     failFast: bool, w: World)
    requires |indexes| == |cases| && n <= |cases|
    requires forall i :: 0 <= i < |indexes| ==> indexes[i] < |s.report.cases|
    ensures Looped(s, RunCases(s, cases, indexes, n, failed, failFast, w).0, indexes, n)
    decreases |cases| - n
  {
    hide ExecuteCase, Looped, Executed;
    var t := RunCases(s, cases, indexes, n, failed, failFast, w).0;
    if n < |cases| && !w.canceledBefore(n) {
      if s.report.cases[indexes[n]].Finished() {
        LoopKeeps(s, cases, indexes, n + 1, failed, failFast, w);
        LoopedThen(s, s, t, indexes, n);
      } else {
        CaseStepped(s, indexes[n], cases[n], w.scripts(n), failFast, w);
        var step := ExecuteCase(s, indexes[n], cases[n], w.scripts(n), failFast, w);
        if step.stop.None? {
          LoopKeeps(step.session, cases, indexes, n + 1, failed || step.failed, failFast, w);
        } else {
          NothingLooped(step.session, indexes, n + 1);
        }
        LoopedThen(s, step.session, t, indexes, n);
      }
    } else {
      NothingLooped(s, indexes, n);
    }
  }

  lemma NothingLooped(s: Session, indexes: seq<nat>, n: nat)
    requires n <= |indexes|
    ensures Looped(s, s, indexes, n)
  {
  }

  /** A record that the loop has passed is not touched again. */
  lemma PassedBy(s: Session, t: Session, indexes: seq<nat>, n: nat, i: nat)
    requires OwnRecords(indexes, |s.report.cases|) && Looped(s, t, indexes, n) && i < n
    ensures t.report.cases[indexes[i]] == s.report.cases[indexes[i]]
  {
  }

  /** The n-th case, when the loop neither ends nor is canceled before it, and what the rest of the loop starts from. */
  lemma LoopStep(s: Session, cases: seq<BenchmarkOptions>, indexes: seq<nat>, n: nat, failed: bool, failFast: bool,
                 w: World)
    returns (t: Session, missed: bool, goesOn: bool)
    requires |indexes| == |cases| && n < |cases| && !w.canceledBefore(n) && OwnRecords(indexes, |s.report.cases|)
    ensures |t.report.cases| == |s.report.cases|
    ensures
      var all := RunCases(s, cases, indexes, n, failed, failFast, w);
      var script, index := w.scripts(n), indexes[n];
      var finished, saved := t.report.cases[index].Finished(), AllSaved(w, |s.saves|, |t.saves|);
      && (s == t || Executed(s, t, index)) && (s.report.cases[index].Finished() <==> s == t)
      && (!missed && goesOn <==> finished && saved)
      && (goesOn <==> saved && (finished || !(failFast || script.canceledAtStop || script.cleanup.Some?)))
      && Looped(t, all.0, indexes, n + 1) && all.0.report.cases[index] == t.report.cases[index]
      && if goesOn then all == RunCases(t, cases, indexes, n + 1, failed || missed, failFast, w)
         else all.0 == t && all.1.Some?
  {
    hide ExecuteCase, Looped;
    if s.report.cases[indexes[n]].Finished() {
      t, missed, goesOn := s, false, true;
    } else {
      CaseStepped(s, indexes[n], cases[n], w.scripts(n), failFast, w);
      var step := ExecuteCase(s, indexes[n], cases[n], w.scripts(n), failFast, w);
      t, missed, goesOn := step.session, step.failed, step.stop.None?;
    }
    if goesOn {
      LoopKeeps(t, cases, indexes, n + 1, failed || missed, failFast, w);
    } else {
      NothingLooped(t, indexes, n + 1);
    }
    PassedBy(t, RunCases(s, cases, indexes, n, failed, failFast, w).0, indexes, n + 1, n);
  }

  /** The loop returns nil if and only if it ends with every case finished, was never canceled, and every save succeeded. */
  lemma {:induction false} LoopNilExactly(s: Session, cases: seq<BenchmarkOptions>, indexes: seq<nat>, n: nat, failed: bool,
                                          failFast: bool, w: World)
    requires |indexes| == |cases| && n <= |cases| && OwnRecords(indexes, |s.report.cases|)
    ensures
      var (t, failure) := RunCases(s, cases, indexes, n, failed, failFast, w);
      && |s.saves| <= |t.saves| && |t.report.cases| == |s.report.cases|
      && (failure.None? <==>
            && !failed && AllSaved(w, |s.saves|, |t.saves|)
            && forall i :: n <= i < |cases| ==> t.report.cases[indexes[i]].Finished() && !w.canceledBefore(i))
    decreases |cases| - n
  {
    hide ExecuteCase, RunCases;
    if n < |cases| && !w.canceledBefore(n) {
      var t, missed, goesOn := LoopStep(s, cases, indexes, n, failed, failFast, w);
      if goesOn {
        LoopNilExactly(t, cases, indexes, n + 1, failed || missed, failFast, w);
      }
    } else {
      LoopEnds(s, cases, indexes, n, failed, failFast, w);
    }
  }

  lemma LoopEnds(s: Session, cases: seq<BenchmarkOptions>, indexes: seq<nat>, n: nat, failed: bool, failFast: bool,
                 w: World)
    requires |indexes| == |cases| && n <= |cases| && OwnRecords(indexes, |s.report.cases|)
    requires n == |cases| || w.canceledBefore(n)
    ensures
      var (t, failure) := RunCases(s, cases, indexes, n, failed, failFast, w);
      t == s && (failure.None? <==> !failed && n == |cases|)
  {
  }

  /** Under fail-fast, a case that is left unfinished is the last one that is executed. */
  lemma {:induction false} FailFastStops(s: Session, cases: seq<BenchmarkOptions>, indexes: seq<nat>, n: nat, failed: bool,
                                         w: World, i: nat, j: nat)
    requires |indexes| == |cases| && n <= |cases| && OwnRecords(indexes, |s.report.cases|)
    requires n <= i < j < |cases|
    requires !RunCases(s, cases, indexes, n, failed, true, w).0.report.cases[indexes[i]].Finished()
    ensures RunCases(s, cases, indexes, n, failed, true, w).0.report.cases[indexes[j]] == s.report.cases[indexes[j]]
    decreases |cases| - n
  {
    hide ExecuteCase, RunCases;
    if w.canceledBefore(n) {
      LoopEnds(s, cases, indexes, n, failed, true, w);
    } else {
      var t, missed, goesOn := LoopStep(s, cases, indexes, n, failed, true, w);
      if goesOn && n < i {
        FailFastStops(t, cases, indexes, n + 1, failed || missed, w, i, j);
      }
    }
  }

  /** Once the run is found canceled, no later case is executed. */
  lemma {:induction false} NothingAfterCancel(s: Session, cases: seq<BenchmarkOptions>, indexes: seq<nat>, n: nat,
                                              failed: bool, failFast: bool, w: World, m: nat, j: nat)
    requires |indexes| == |cases| && n <= m <= j < |cases| && OwnRecords(indexes, |s.report.cases|)
    requires w.canceledBefore(m)
    ensures RunCases(s, cases, indexes, n, failed, failFast, w).0.report.cases[indexes[j]] == s.report.cases[indexes[j]]
    ensures RunCases(s, cases, indexes, n, failed, failFast, w).1.Some?
    decreases |cases| - n
  {
    hide ExecuteCase, RunCases;
    if w.canceledBefore(n) {
      LoopEnds(s, cases, indexes, n, failed, failFast, w);
    } else {
      var t, missed, goesOn := LoopStep(s, cases, indexes, n, failed, failFast, w);
      if goesOn {
        NothingAfterCancel(t, cases, indexes, n + 1, failed || missed, failFast, w, m, j);
      }
    }
  }

  /** The record is announced as started by one of the saves from the first-th on. */
  ghost predicate Announced(saves: seq<Update>, first: nat, index: nat) {
    exists k :: first <= k < |saves| && saves[k].started == Some(index)
  }

  /**
   * Without fail-fast, and with nothing going wrong but the measurements themselves, every case that is not finished is
   * executed, whatever comes of the others.
   */
  lemma {:induction false} AllTried(s: Session, cases: seq<BenchmarkOptions>, indexes: seq<nat>, n: nat, failed: bool,
                                    w: World, i: nat)
    requires |indexes| == |cases| && n <= i < |cases| && OwnRecords(indexes, |s.report.cases|)
    requires forall m :: n <= m < |cases| ==>
      !w.canceledBefore(m) && !w.scripts(m).canceledAtStop && w.scripts(m).cleanup.None?
    requires forall k: nat :: !w.saveFails(k)
    requires !s.report.cases[indexes[i]].Finished()
    ensures Announced(RunCases(s, cases, indexes, n, failed, false, w).0.saves, |s.saves|, indexes[i])
    decreases |cases| - n
  {
    hide ExecuteCase, RunCases;
    var t, missed, goesOn := LoopStep(s, cases, indexes, n, failed, false, w);
    var end := RunCases(s, cases, indexes, n, failed, false, w).0;
    if n < i {
      AllTried(t, cases, indexes, n + 1, failed || missed, w, i);
      var k :| |t.saves| <= k < |end.saves| && end.saves[k].started == Some(indexes[i]);
    } else {
      assert end.saves[|s.saves|].started == Some(indexes[i]);
    }
  }

  // ----- The end of a run

  /**
   * The end of a run marks the report as finished and saves it. If the run fails, its error is recorded, and each of its
   * cases that is still running becomes canceled if the run is, and else failed, with that error. Nothing else changes.
   */
  lemma FinishExactly(s: Session, indexes: seq<nat>, failure: Option<Failure>, w: World)
    ensures
      var (t, outcome) := Finish(s, indexes, failure, w);
      && t.saves == s.saves + [Update(t.report, None)]
      && (outcome.None? <==> failure.None? && !w.saveFails(|s.saves|))
      && |t.report.cases| == |s.report.cases|
      && t.report == s.report.(finished := true, cases := t.report.cases,
                               error := if failure.Some? then failure.value.text else s.report.error)
      && forall i :: 0 <= i < |s.report.cases| ==>
           if failure.Some? && i in indexes && s.report.cases[i].status == Running
           then && t.report.cases[i] == s.report.cases[i].(status := t.report.cases[i].status, error := failure.value.text)
                && t.report.cases[i].status == (if w.canceledAtEnd then Canceled else Failed)
           else t.report.cases[i] == s.report.cases[i]
  {
  }

  /** So it finishes no case, and undoes none. */
  lemma FinishKeepsFinished(s: Session, indexes: seq<nat>, failure: Option<Failure>, w: World)
    requires forall i :: 0 <= i < |indexes| ==> indexes[i] < |s.report.cases|
    ensures |Finish(s, indexes, failure, w).0.report.cases| == |s.report.cases|
    ensures AllFinished(Finish(s, indexes, failure, w).0.report.cases, indexes) <==> AllFinished(s.report.cases, indexes)
  {
    hide Finish;
    FinishExactly(s, indexes, failure, w);
  }

  // ----- A whole run

  /** No case of the run finds it canceled. */
  ghost predicate NeverCanceled(w: World, cases: nat) {
    forall i :: 0 <= i < cases ==> !w.canceledBefore(i)
  }

  lemma BodyNilExactly(s: Session, cases: seq<BenchmarkOptions>, indexes: seq<nat>, failFast: bool, w: World)
    requires |indexes| == |cases| && OwnRecords(indexes, |s.report.cases|) && s.saves == []
    ensures
      var (t, failure) := RunBody(s, cases, indexes, failFast, w);
      && |t.report.cases| == |s.report.cases|
      && (failure.None? ==> AllFinished(t.report.cases, indexes))
      && (failure.None? <==>
            && AllSaved(w, 0, |t.saves|) && (NeedsIperf(cases) ==> w.iperfVersion.Some?)
            && AllFinished(t.report.cases, indexes) && NeverCanceled(w, |cases|))
  {
    hide RunCases, NeedsIperf;
    var s1 := Save(s, None);
    if !w.saveFails(0) && (NeedsIperf(cases) ==> w.iperfVersion.Some?) {
      LoopNilExactly(s1.(report := WithIperf(s1.report, cases, w)), cases, indexes, 0, false, failFast, w);
    }
  }

  lemma EnteredNilExactly(base: Report, selected: seq<BenchmarkOptions>, failFast: bool, w: World)
    requires
      var (prepared, indexes) := PrepareCases(base, selected, w);
      OwnRecords(indexes, |prepared.cases|)
    ensures
      var indexes, end := PrepareCases(base, selected, w).1, RunEntered(base, selected, failFast, w);
      && (forall i :: 0 <= i < |indexes| ==> indexes[i] < |end.0.report.cases|)
      && (end.1.None? <==>
            && AllSaved(w, 0, |end.0.saves|) && (NeedsIperf(selected) ==> w.iperfVersion.Some?)
            && NeverCanceled(w, |selected|) && AllFinished(end.0.report.cases, indexes))
  {
    hide RunBody, PrepareCases, Finish, NeedsIperf;
    var start, indexes := Start(base, selected, w), PrepareCases(base, selected, w).1;
    BodyNilExactly(start, selected, indexes, failFast, w);
    var (t, failure) := RunBody(start, selected, indexes, failFast, w);
    FinishExactly(t, indexes, failure, w);
    FinishKeepsFinished(t, indexes, failure, w);
  }

  /**
   * A run past its checks returns nil if and only if every save succeeded, iperf3 could be read if it is needed, the run was
   * not found canceled before any of its cases, and each of them ends up passed or as a bug.
   */
  lemma RunNilExactly(report: Option<Report>, cases: seq<BenchmarkOptions>, failFast: bool, w: World)
    requires Entered(report, cases, failFast, w) && OneOptionEach(cases)
    ensures
      var o := Run(report, cases, failFast, w);
      && o.report.Some? && (forall i :: 0 <= i < |o.indexes| ==> o.indexes[i] < |o.report.value.cases|)
      && (o.failure.None? <==>
            && AllSaved(w, 0, |o.saves|) && (NeedsIperf(o.cases) ==> w.iperfVersion.Some?)
            && NeverCanceled(w, |o.cases|) && AllFinished(o.report.value.cases, o.indexes))
  {
    hide RunEntered, PrepareCases, Selected, EarlyIperf, NeedsIperf, OwnRecords, AllFinished;
    var base := Base(report, w).value;
    PreparedOwn(base, cases, w.platform.value, w);
    EnteredNilExactly(base, Selected(cases, w.platform.value), failFast, w);
  }

  lemma PreparedOwn(base: Report, cases: seq<BenchmarkOptions>, placement: Placement, w: World)
    requires OneOptionEach(cases)
    ensures
      var (prepared, indexes) := PrepareCases(base, Selected(cases, placement), w);
      OwnRecords(indexes, |prepared.cases|)
  {
    hide PrepareCases, Selected;
    SelectedIndexesInjective(base, cases, placement, w);
  }

  // ----- What the reports say about the run itself

  ghost predicate Open(report: Report) { !report.finished && report.error == "" }

  lemma BodyOpen(s: Session, cases: seq<BenchmarkOptions>, indexes: seq<nat>, failFast: bool, w: World)
    requires |indexes| == |cases| && s.saves == [] && Open(s.report)
    requires forall i :: 0 <= i < |indexes| ==> indexes[i] < |s.report.cases|
    ensures
      var t := RunBody(s, cases, indexes, failFast, w).0;
      |t.saves| > 0 && Open(t.report) && forall k :: 0 <= k < |t.saves| ==> Open(t.saves[k].report)
  {
    hide RunCases, NeedsIperf;
    var s1 := Save(s, None);
    if !w.saveFails(0) && (NeedsIperf(cases) ==> w.iperfVersion.Some?) {
      LoopKeeps(s1.(report := WithIperf(s1.report, cases, w)), cases, indexes, 0, false, failFast, w);
    }
  }

  /** The report has the error of the run. */
  ghost predicate TellsError(report: Report, failure: Option<Failure>) {
    report.error == if failure.Some? then failure.value.text else ""
  }

  lemma EnteredOpen(base: Report, selected: seq<BenchmarkOptions>, failFast: bool, w: World)
    ensures
      var (t, failure) := RunEntered(base, selected, failFast, w);
      var last := |t.saves| - 1;
      && last > 0 && t.saves[last].report == t.report && t.report.finished
      && (!w.saveFails(last) ==> TellsError(t.report, failure))
      && (failure.None? ==> t.report.error == "")
      && forall k :: 0 <= k < last ==> Open(t.saves[k].report)
  {
    hide RunBody, PrepareCases, Finish;
    var start, indexes := Start(base, selected, w), PrepareCases(base, selected, w).1;
    BodyOpen(start, selected, indexes, failFast, w);
    var (t, failure) := RunBody(start, selected, indexes, failFast, w);
    FinishExactly(t, indexes, failure, w);
    if !w.saveFails(|t.saves|) {
      FinishFailure(t, indexes, failure, w);
    }
  }

  lemma FinishFailure(s: Session, indexes: seq<nat>, failure: Option<Failure>, w: World)
    requires !w.saveFails(|s.saves|)
    ensures Finish(s, indexes, failure, w).1 == failure
  {
  }

  /**
   * Of the reports that a run saves, which are two at least, all but the last are unfinished and without an error; the last
   * is finished, and has the error that the run returns, unless this very report cannot be saved.
   */
  lemma RunReports(report: Option<Report>, cases: seq<BenchmarkOptions>, failFast: bool, w: World)
    requires Entered(report, cases, failFast, w)
    ensures
      var o := Run(report, cases, failFast, w);
      var last := |o.saves| - 1;
      && last > 0 && o.report == Some(o.saves[last].report) && o.saves[last].report.finished
      && (!w.saveFails(last) ==> TellsError(o.saves[last].report, o.failure))
      && (o.failure.None? ==> o.saves[last].report.error == "")
      && forall k :: 0 <= k < last ==> Open(o.saves[k].report)
  {
    hide RunEntered, PrepareCases, Selected, EarlyIperf, TellsError;
    EnteredOpen(Base(report, w).value, Selected(cases, w.platform.value), failFast, w);
  }
}
