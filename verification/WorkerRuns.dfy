/** What whole runs, and chains of runs that resume one another, guarantee. */
module WorkerRuns {
  import opened Wrappers
  import opened Reports
  import opened Options
  import opened WorkerSpec
  import opened WorkerSafety

  /** The measurement types that the configuration reader lets through. */
  ghost predicate GoodCases(cases: seq<BenchmarkOptions>) {
    forall i :: 0 <= i < |cases| ==> !cases[i].configuration.kind.OtherKind?
  }

  ghost predicate Indexed(records: seq<CaseResult>, cases: seq<BenchmarkOptions>, indexes: seq<nat>) {
    && |indexes| == |cases|
    && forall i :: 0 <= i < |cases| ==> indexes[i] < |records| && Matches(records[indexes[i]], cases[i])
  }

  lemma IndexedLater(earlier: Report, later: Report, cases: seq<BenchmarkOptions>, indexes: seq<nat>)
    requires Indexed(earlier.cases, cases, indexes) && Advances(earlier, later)
    ensures Indexed(later.cases, cases, indexes)
  {
  }

  // ----- Preparing

  ghost predicate KeysDistinct(records: seq<CaseResult>) {
    forall i, j :: 0 <= i < j < |records| ==> records[i].Key() != records[j].Key()
  }

  /** What preparing adds to a legal report: implementations, and pending records with new keys. */
  ghost predicate PreparedFrom(report: Report, prepared: Report) {
    && ValidReport(prepared)
    && prepared.environment == report.environment
    && (forall i :: |report.cases| <= i < |prepared.cases| ==> prepared.cases[i].status == Pending)
    && (KeysDistinct(report.cases) ==> KeysDistinct(prepared.cases))
  }

  lemma PrepareOneValid(report: Report, options: BenchmarkOptions, w: World)
    requires ValidReport(report) && !options.configuration.kind.OtherKind? && w.memoryMetric != ""
    ensures PreparedFrom(report, PrepareCase(report, options, w))
  {
    var prepared := PrepareCase(report, options, w);
    assert ValidCase(PendingCase(options, w));
    forall i | 0 <= i < |prepared.cases|
      ensures prepared.cases[i].configuration.implementation in prepared.implementations && ValidCase(prepared.cases[i])
    {
      if i < |report.cases| {
        assert prepared.cases[i] == report.cases[i];
      }
    }
  }

  lemma {:induction false} PreparedValid(report: Report, cases: seq<BenchmarkOptions>, w: World)
    requires ValidReport(report) && GoodCases(cases) && w.memoryMetric != ""
    ensures PreparedFrom(report, PrepareCases(report, cases, w).0)
  {
    hide ValidReport, KeysDistinct;
    if cases != [] {
      PreparedValid(report, cases[..|cases| - 1], w);
      PrepareOneValid(PrepareCases(report, cases[..|cases| - 1], w).0, cases[|cases| - 1], w);
    }
  }

  // ----- The case loop

  ghost predicate FinishedUpTo(records: seq<CaseResult>, indexes: seq<nat>, n: nat) {
    n <= |indexes| && forall i :: 0 <= i < n ==> indexes[i] < |records| && records[indexes[i]].Finished()
  }

  lemma FinishedUpToLater(earlier: seq<CaseResult>, later: seq<CaseResult>, indexes: seq<nat>, n: nat)
    requires FinishedUpTo(earlier, indexes, n) && Extends(earlier, later)
    ensures FinishedUpTo(later, indexes, n)
  {
  }

  lemma {:induction false} CasesSound(s: Session, cases: seq<BenchmarkOptions>, indexes: seq<nat>, n: nat,
                                      failed: bool, failFast: bool, w: World)
    requires Sound(s) && Indexed(s.report.cases, cases, indexes) && GoodWorld(w) && n <= |cases|
    requires failed || FinishedUpTo(s.report.cases, indexes, n)
    ensures
      var (t, failure) := RunCases(s, cases, indexes, n, failed, failFast, w);
      && Sound(t) && Later(s, t)
      && (failure.None? ==> FinishedUpTo(t.report.cases, indexes, |cases|))
    decreases |cases| - n
  {
    hide ExecuteCase, Sound;
    if n < |cases| && !w.canceledBefore(n) {
      if s.report.cases[indexes[n]].Finished() {
        CasesSound(s, cases, indexes, n + 1, failed, failFast, w);
      } else {
        var step := CaseStep(s, cases, indexes, n, failed, failFast, w);
        if step.stop.None? {
          CasesSound(step.session, cases, indexes, n + 1, failed || step.failed, failFast, w);
          LaterTransitive(s, step.session, RunCases(s, cases, indexes, n, failed, failFast, w).0);
        }
      }
    }
  }

  lemma CaseStep(s: Session, cases: seq<BenchmarkOptions>, indexes: seq<nat>, n: nat, failed: bool, failFast: bool,
                 w: World)
    returns (step: Step)
    requires Sound(s) && Indexed(s.report.cases, cases, indexes) && GoodWorld(w) && n < |cases|
    requires failed || FinishedUpTo(s.report.cases, indexes, n)
    requires !s.report.cases[indexes[n]].Finished()
    ensures step == ExecuteCase(s, indexes[n], cases[n], w.scripts(n), failFast, w)
    ensures Sound(step.session) && Later(s, step.session) && Indexed(step.session.report.cases, cases, indexes)
    ensures step.stop.None? ==> failed || step.failed || FinishedUpTo(step.session.report.cases, indexes, n + 1)
  {
    ExecuteSound(s, indexes[n], cases[n], w.scripts(n), failFast, w);
    step := ExecuteCase(s, indexes[n], cases[n], w.scripts(n), failFast, w);
    IndexedLater(s.report, step.session.report, cases, indexes);
    if !failed {
      FinishedUpToLater(s.report.cases, step.session.report.cases, indexes, n);
    }
  }

  lemma BodySound(s: Session, cases: seq<BenchmarkOptions>, indexes: seq<nat>, failFast: bool, w: World)
    requires Sound(s) && Indexed(s.report.cases, cases, indexes) && GoodWorld(w)
    ensures
      var (t, failure) := RunBody(s, cases, indexes, failFast, w);
      && Sound(t) && Later(s, t)
      && (failure.None? ==> FinishedUpTo(t.report.cases, indexes, |cases|))
  {
    hide RunCases, Sound, Later;
    SaveSound(s, None);
    var s1 := Save(s, None);
    if SaveError(s, w).None? && (NeedsIperf(cases) ==> w.iperfVersion.Some?) {
      var report := WithIperf(s1.report, cases, w);
      IperfAdvances(s1, cases, w);
      AdvanceSound(s1, report);
      assert Indexed(report.cases, cases, indexes);
      CasesSound(s1.(report := report), cases, indexes, 0, false, failFast, w);
      LaterTransitive(s, s1, s1.(report := report));
      LaterTransitive(s, s1.(report := report), RunBody(s, cases, indexes, failFast, w).0);
    }
  }

  lemma IperfAdvances(s: Session, cases: seq<BenchmarkOptions>, w: World)
    requires Sound(s) && (NeedsIperf(cases) ==> w.iperfVersion.Some?)
    ensures
      var report := WithIperf(s.report, cases, w);
      report.cases == s.report.cases && ValidReport(report) && Advances(s.report, report)
  {
  }

  lemma FinishSound(s: Session, cases: seq<BenchmarkOptions>, indexes: seq<nat>, failure: Option<Failure>, w: World)
    requires Sound(s) && Indexed(s.report.cases, cases, indexes)
    requires failure.None? ==> FinishedUpTo(s.report.cases, indexes, |cases|)
    ensures
      var t := Finish(s, indexes, failure, w).0;
      && Sound(t) && Later(s, t)
      && Indexed(t.report.cases, cases, indexes)
      && |t.saves| > 0 && t.saves[|t.saves| - 1].report == t.report
      && (forall i :: 0 <= i < |indexes| ==> t.report.cases[indexes[i]].status != Running)
      && (failure.None? ==> AllFinished(t.report.cases, indexes))
  {
    var t := Finish(s, indexes, failure, w).0;
    AdvanceSound(s, t.report);
    SaveSound(s.(report := t.report), None);
    LaterTransitive(s, s.(report := t.report), t);
    IndexedLater(s.report, t.report, cases, indexes);
  }

  // ----- One run

  ghost predicate OptionExtends(earlier: Option<Report>, later: Report) {
    earlier.Some? ==> Extends(earlier.value.cases, later.cases)
  }

  ghost predicate OptionDistinct(report: Option<Report>) {
    report.Some? ==> KeysDistinct(report.value.cases)
  }

  /** The run gets past its checks, so that its deferred function is registered and something is saved. */
  ghost predicate Entered(report: Option<Report>, cases: seq<BenchmarkOptions>, failFast: bool, w: World) {
    Run(report, cases, failFast, w).entered
  }

  /** What the session a run starts from has in common with the report it was given. */
  ghost predicate Prepared(report: Option<Report>, start: Session, workers: int) {
    var given := if report.Some? then report.value.cases else [];
    && start.saves == [] && Sound(start)
    && given <= start.report.cases
    && (forall i :: |given| <= i < |start.report.cases| ==> start.report.cases[i].status == Pending)
    && (OptionDistinct(report) ==> KeysDistinct(start.report.cases))
    && start.report.environment.tunnelWorkers == workers
  }

  function Base(report: Option<Report>, w: World): Option<Report>
    requires w.platform.Some? && w.hostname.Some?
  {
    BaseReport(report, w.platform.value.(hostname := w.hostname.value))
  }

  lemma StartSound(report: Option<Report>, cases: seq<BenchmarkOptions>, w: World)
    requires ValidOption(report) && GoodCases(cases) && GoodWorld(w)
    requires w.platform.Some? && w.hostname.Some? && Base(report, w).Some?
    ensures
      var start := Start(Base(report, w).value, cases, w);
      && Prepared(report, start, w.platform.value.tunnelWorkers)
      && Indexed(start.report.cases, cases, PrepareCases(Base(report, w).value, cases, w).1)
  {
    hide PrepareCases, ValidCase;
    PreparedValid(Base(report, w).value, cases, w);
    PrepareCasesIndexes(Base(report, w).value, cases, w);
  }

  /** Where a run leads the session it starts from. */
  ghost predicate Ended(start: Session, end: Session, o: Outcome) {
    && Sound(end) && Later(start, end)
    && o.saves == end.saves && o.report == Some(end.report)
    && Indexed(start.report.cases, o.cases, o.indexes) && Indexed(end.report.cases, o.cases, o.indexes)
    && |o.saves| > 0 && o.saves[|o.saves| - 1].report == end.report
    && (forall i :: 0 <= i < |o.indexes| ==> end.report.cases[o.indexes[i]].status != Running)
    && (o.failure.None? ==> AllFinished(end.report.cases, o.indexes))
  }

  lemma PreparedRunSound(base: Report, selected: seq<BenchmarkOptions>, failFast: bool, w: World) returns (end: Session)
    requires Sound(Start(base, selected, w)) && GoodWorld(w)
    requires Indexed(Start(base, selected, w).report.cases, selected, PrepareCases(base, selected, w).1)
    requires RunPrepared(base, selected, failFast, w).entered
    ensures Ended(Start(base, selected, w), end, RunPrepared(base, selected, failFast, w))
  {
    hide RunBody, Sound, PrepareCases, Later, EarlyIperf;
    var start, indexes := Start(base, selected, w), PrepareCases(base, selected, w).1;
    BodySound(start, selected, indexes, failFast, w);
    var body := RunBody(start, selected, indexes, failFast, w);
    assert Advances(start.report, body.0.report) by { LaterAdvances(start, body.0); }
    IndexedLater(start.report, body.0.report, selected, indexes);
    FinishSound(body.0, selected, indexes, body.1, w);
    end := Finish(body.0, indexes, body.1, w).0;
    LaterTransitive(start, body.0, end);
  }

  lemma LaterAdvances(s: Session, t: Session)
    requires Later(s, t)
    ensures Advances(s.report, t.report)
  {
  }

  /** The session a run starts from and the one it ends with. */
  lemma RunSound(report: Option<Report>, cases: seq<BenchmarkOptions>, failFast: bool, w: World)
    returns (start: Session, end: Session)
    requires ValidOption(report) && GoodCases(cases) && GoodWorld(w) && Entered(report, cases, failFast, w)
    ensures w.platform.Some? && Prepared(report, start, w.platform.value.tunnelWorkers)
    ensures Run(report, cases, failFast, w).cases == Selected(cases, w.platform.value)
    ensures Ended(start, end, Run(report, cases, failFast, w))
  {
    hide RunPrepared, Start, PrepareCases, Selected, Sound, Indexed, Prepared, Ended;
    var selected := Selected(cases, w.platform.value);
    SelectedGood(cases, w.platform.value);
    var base := Base(report, w).value;
    StartSound(report, selected, w);
    start := Start(base, selected, w);
    assert Sound(start) by { PreparedIsSound(report, start, w.platform.value.tunnelWorkers); }
    end := PreparedRunSound(base, selected, failFast, w);
  }

  lemma PreparedIsSound(report: Option<Report>, start: Session, workers: int)
    requires Prepared(report, start, workers)
    ensures Sound(start)
  {
  }

  lemma SelectedGood(cases: seq<BenchmarkOptions>, placement: Placement)
    requires GoodCases(cases)
    ensures GoodCases(Selected(cases, placement))
  {
    var resolved := ResolveAll(cases, placement.tunnelWorkers);
    UniqElements(resolved);
    assert forall x :: x in resolved ==> !x.configuration.kind.OtherKind?;
  }

  lemma NotEnteredSavesNothing(report: Option<Report>, cases: seq<BenchmarkOptions>, failFast: bool, w: World)
    requires !Entered(report, cases, failFast, w)
    ensures Run(report, cases, failFast, w).saves == []
  {
    hide RunEntered, PrepareCases, Selected, EarlyIperf;
  }

  /**
   * Every report a run hands to saveReport is legal and extends the report it was given and all reports saved before.
   */
  lemma SavedReportsAreLegal(report: Option<Report>, cases: seq<BenchmarkOptions>, failFast: bool, w: World)
    requires ValidOption(report) && GoodCases(cases) && GoodWorld(w)
    ensures
      var saves := Run(report, cases, failFast, w).saves;
      && Ordered(saves)
      && forall i :: 0 <= i < |saves| ==>
           GoodUpdate(saves[i]) && OptionExtends(report, saves[i].report)
           && (OptionDistinct(report) ==> KeysDistinct(saves[i].report.cases))
  {
    hide Run;
    if !Entered(report, cases, failFast, w) {
      NotEnteredSavesNothing(report, cases, failFast, w);
    } else {
      var saves := Run(report, cases, failFast, w).saves;
      var start, end := RunSound(report, cases, failFast, w);
      forall i | 0 <= i < |saves|
        ensures OptionExtends(report, saves[i].report)
        ensures OptionDistinct(report) ==> KeysDistinct(saves[i].report.cases)
      {
        if report.Some? {
          ExtendsTransitive(report.value.cases, start.report.cases, saves[i].report.cases);
        }
        assert Advances(start.report, saves[i].report);
      }
    }
  }

  /**
   * Once "passed" or "bug", never executed again: a record is announced as started only while no earlier report has it
   * finished.
   */
  lemma FinishedIsNeverStarted(report: Option<Report>, cases: seq<BenchmarkOptions>, failFast: bool, w: World, k: nat)
    requires ValidOption(report) && GoodCases(cases) && GoodWorld(w)
    requires k < |Run(report, cases, failFast, w).saves| && Run(report, cases, failFast, w).saves[k].started.Some?
    ensures
      var saves := Run(report, cases, failFast, w).saves;
      var index := saves[k].started.value;
      && (report.Some? && index < |report.value.cases| ==> !report.value.cases[index].Finished())
      && forall j :: 0 <= j < k && index < |saves[j].report.cases| ==> !saves[j].report.cases[index].Finished()
  {
    hide Run;
    SavedReportsAreLegal(report, cases, failFast, w);
    var saves := Run(report, cases, failFast, w).saves;
    assert GoodUpdate(saves[k]);
  }

  /**
   * A run past its checks ends with no selected case running; if it returns nil, the controller counts all its cases
   * as completed.
   */
  lemma RunOutcome(report: Option<Report>, cases: seq<BenchmarkOptions>, failFast: bool, w: World)
    requires ValidOption(report) && GoodCases(cases) && GoodWorld(w) && Entered(report, cases, failFast, w)
    ensures
      var o := Run(report, cases, failFast, w);
      && |o.saves| > 0 && o.report == Some(o.saves[|o.saves| - 1].report)
      && Indexed(o.report.value.cases, o.cases, o.indexes)
      && (forall i :: 0 <= i < |o.indexes| ==> o.report.value.cases[o.indexes[i]].status != Running)
      && (o.failure.None? ==>
            AllFinished(o.report.value.cases, o.indexes) && CompletedCases(cases, o.report) == |cases|)
  {
    hide Run, Sound, Later;
    var o := Run(report, cases, failFast, w);
    var start, end := RunSound(report, cases, failFast, w);
    EndedEnvironment(start, end, o);
    if o.failure.None? {
      AllCovered(ResolveAll(cases, w.platform.value.tunnelWorkers), end.report.cases, o.indexes);
    }
  }

  lemma EndedEnvironment(start: Session, end: Session, o: Outcome)
    requires Ended(start, end, o)
    ensures end.report.environment == start.report.environment
  {
  }

  lemma AllCovered(resolved: seq<BenchmarkOptions>, records: seq<CaseResult>, indexes: seq<nat>)
    requires Indexed(records, Uniq(resolved), indexes) && AllFinished(records, indexes)
    ensures PendingCount(resolved, records) == 0
  {
    UniqElements(resolved);
    forall i | 0 <= i < |resolved|
      ensures Covered(resolved[i], records)
    {
      assert resolved[i] in Uniq(resolved);
      var j :| 0 <= j < |Uniq(resolved)| && Uniq(resolved)[j] == resolved[i];
      assert records[indexes[j]].Finished() && Matches(records[indexes[j]], resolved[i]);
    }
    PendingCountBound(resolved, records);
  }

  /** `caseIndexes` is injective exactly when the selected cases have distinct keys, for every report to start from. */
  lemma IndexesInjective(report: Report, cases: seq<BenchmarkOptions>, w: World)
    ensures
      var indexes := PrepareCases(report, cases, w).1;
      (forall i, j :: 0 <= i < j < |indexes| ==> indexes[i] != indexes[j])
      <==> (forall i, j :: 0 <= i < j < |cases| ==> cases[i].Key() != cases[j].Key())
  {
    PrepareCasesIndexes(report, cases, w);
    var indexes := PrepareCases(report, cases, w).1;
    forall i, j | 0 <= i < j < |cases|
      ensures indexes[i] == indexes[j] <==> cases[i].Key() == cases[j].Key()
    {
      if cases[i].Key() == cases[j].Key() {
        SameKeySameIndex(report, cases, w, i, j);
      }
    }
  }

  /** Within one environment the configuration of a case determines its other options. */
  ghost predicate OneOptionEach(cases: seq<BenchmarkOptions>) {
    forall i, j :: 0 <= i < |cases| && 0 <= j < |cases| && cases[i].configuration == cases[j].configuration ==>
      cases[i] == cases[j]
  }

  /**
   * So the cases that a worker runs, in which repetitions are dropped, have distinct keys, and caseIndexes is
   * injective.
   */
  lemma SelectedIndexesInjective(report: Report, cases: seq<BenchmarkOptions>, placement: Placement, w: World)
    requires OneOptionEach(cases)
    ensures
      var selected := Selected(cases, placement);
      var indexes := PrepareCases(report, selected, w).1;
      && (forall i, j :: 0 <= i < j < |selected| ==> selected[i].Key() != selected[j].Key())
      && (forall i, j :: 0 <= i < j < |indexes| ==> indexes[i] != indexes[j])
  {
    var selected, resolved := Selected(cases, placement), ResolveAll(cases, placement.tunnelWorkers);
    UniqElements(resolved);
    forall i, j | 0 <= i < j < |selected|
      ensures selected[i].Key() != selected[j].Key()
    {
      assert selected[i] in resolved && selected[j] in resolved;
      var a :| 0 <= a < |resolved| && resolved[a] == selected[i];
      var b :| 0 <= b < |resolved| && resolved[b] == selected[j];
      assert cases[a].configuration == selected[i].configuration && cases[b].configuration == selected[j].configuration;
    }
    IndexesInjective(report, selected, w);
  }

  lemma {:induction false} SameKeySameIndex(report: Report, cases: seq<BenchmarkOptions>, w: World, i: nat, j: nat)
    requires i < j < |cases| && cases[i].Key() == cases[j].Key()
    ensures PrepareCases(report, cases, w).1[i] == PrepareCases(report, cases, w).1[j]
  {
    var front := cases[..|cases| - 1];
    PrepareCasesIndexes(report, front, w);
    PrepareCasesIndexes(report, cases, w);
    if j < |front| {
      SameKeySameIndex(report, front, w, i, j);
    } else {
      FirstIndexKept(report, front, w, i);
    }
  }

  /** The index of a case stays the first position that matches it while later cases are added. */
  lemma {:induction false} FirstIndexKept(report: Report, cases: seq<BenchmarkOptions>, w: World, i: nat)
    requires i < |cases|
    ensures
      var (prepared, indexes) := PrepareCases(report, cases, w);
      IndexOf(prepared.cases, cases[i]) == indexes[i]
  {
    PrepareCasesIndexes(report, cases, w);
    PrepareCasesIndexes(report, cases[..|cases| - 1], w);
    if i < |cases| - 1 {
      FirstIndexKept(report, cases[..|cases| - 1], w, i);
    }
  }

  // ----- Chains of runs

  datatype Launch = Launch(cases: seq<BenchmarkOptions>, failFast: bool, world: World)

  /**
   * `fed[k]` is the report given to the k-th run. The next run is given any report that the k-th one saved, so a worker
   * may be killed at any time, or the same report again when nothing was received.
   */
  ghost predicate Chain(fed: seq<Option<Report>>, launches: seq<Launch>) {
    && |fed| == |launches|
    && (|fed| > 0 ==> ValidOption(fed[0]))
    && (forall k :: 0 <= k < |launches| ==> GoodCases(launches[k].cases) && GoodWorld(launches[k].world))
    && (forall k :: 0 <= k < |launches| - 1 ==> fed[k + 1] == fed[k] || ResumesFrom(fed[k], launches[k], fed[k + 1]))
  }

  ghost predicate ResumesFrom(fed: Option<Report>, launch: Launch, next: Option<Report>) {
    exists i :: 0 <= i < |Run(fed, launch.cases, launch.failFast, launch.world).saves|
                && next == Some(Run(fed, launch.cases, launch.failFast, launch.world).saves[i].report)
  }

  ghost predicate ChainExtends(earlier: Option<Report>, later: Option<Report>) {
    earlier.Some? ==> later.Some? && Extends(earlier.value.cases, later.value.cases)
  }

  /** Along any chain every report is legal, no record moves, and a finished record is never changed. */
  lemma {:induction false} ChainSafe(fed: seq<Option<Report>>, launches: seq<Launch>, i: nat, j: nat)
    requires Chain(fed, launches) && i <= j < |fed|
    ensures ValidOption(fed[j]) && ChainExtends(fed[i], fed[j])
    ensures OptionDistinct(fed[i]) ==> OptionDistinct(fed[j])
    decreases j
  {
    hide Run;
    if j > 0 {
      ChainSafe(fed, launches, if i < j then i else 0, j - 1);
      if fed[j] != fed[j - 1] {
        var launch := launches[j - 1];
        assert fed[(j - 1) + 1] == fed[j];
        SavedReportsAreLegal(fed[j - 1], launch.cases, launch.failFast, launch.world);
        if i < j && fed[i].Some? {
          ExtendsTransitive(fed[i].value.cases, fed[j - 1].value.cases, fed[j].value.cases);
        }
      }
    }
  }

  /** Along any chain a record that some run was given as finished is not executed by that run or by any later one. */
  lemma ChainNeverRepeats(fed: seq<Option<Report>>, launches: seq<Launch>, i: nat, j: nat, k: nat)
    requires Chain(fed, launches) && i <= j < |fed| && fed[i].Some?
    requires k < |Run(fed[j], launches[j].cases, launches[j].failFast, launches[j].world).saves|
    ensures
      var u := Run(fed[j], launches[j].cases, launches[j].failFast, launches[j].world).saves[k];
      && ValidReport(u.report)
      && Extends(fed[i].value.cases, u.report.cases)
      && (u.started.Some? && u.started.value < |fed[i].value.cases| ==> !fed[i].value.cases[u.started.value].Finished())
  {
    hide Run;
    var launch := launches[j];
    var u := Run(fed[j], launch.cases, launch.failFast, launch.world).saves[k];
    ChainSafe(fed, launches, i, j);
    SavedReportsAreLegal(fed[j], launch.cases, launch.failFast, launch.world);
    ExtendsTransitive(fed[i].value.cases, fed[j].value.cases, u.report.cases);
    assert GoodUpdate(u);
  }
}
