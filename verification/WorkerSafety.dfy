/**
 * Safety of one worker run: every saved report is legal, finished records never change and are never executed again,
 * and record positions never move.
 */
module WorkerSafety {
  import opened Wrappers
  import opened Reports
  import opened Options
  import opened WorkerSpec

  // ----- How a later report relates to an earlier one

  /** Records keep their position and their key; a finished record keeps everything. */
  ghost predicate Extends(earlier: seq<CaseResult>, later: seq<CaseResult>) {
    && |earlier| <= |later|
    && forall i :: 0 <= i < |earlier| ==>
         later[i].Key() == earlier[i].Key() && (earlier[i].Finished() ==> later[i] == earlier[i])
  }

  lemma ExtendsTransitive(a: seq<CaseResult>, b: seq<CaseResult>, c: seq<CaseResult>)
    requires Extends(a, b) && Extends(b, c)
    ensures Extends(a, c)
  {
  }

  // ----- The invariant of a session

  /** A legal update: the report is valid, and the record announced as started is running in it. */
  ghost predicate GoodUpdate(u: Update) {
    && ValidReport(u.report)
    && (u.started.Some? ==> u.started.value < |u.report.cases| && u.report.cases[u.started.value].status == Running)
  }

  ghost predicate Ordered(saves: seq<Update>) {
    forall i, j :: 0 <= i < j < |saves| ==> Extends(saves[i].report.cases, saves[j].report.cases)
  }

  ghost predicate Sound(s: Session) {
    && ValidReport(s.report)
    && (forall i :: 0 <= i < |s.saves| ==> GoodUpdate(s.saves[i]) && Extends(s.saves[i].report.cases, s.report.cases))
    && Ordered(s.saves)
  }

  /** The same records, only further advanced, in the same environment. */
  ghost predicate Advances(earlier: Report, later: Report) {
    && Extends(earlier.cases, later.cases)
    && |earlier.cases| == |later.cases|
    && earlier.environment == later.environment
  }

  /** `t` is reached from `s`: saves are only added, and every added report advances the report of `s`. */
  ghost predicate Later(s: Session, t: Session) {
    && Advances(s.report, t.report)
    && s.saves <= t.saves
    && forall i :: |s.saves| <= i < |t.saves| ==> Advances(s.report, t.saves[i].report)
  }

  lemma LaterTransitive(a: Session, b: Session, c: Session)
    requires Later(a, b) && Later(b, c)
    ensures Later(a, c)
  {
  }

  lemma SaveSound(s: Session, started: Option<nat>)
    requires Sound(s)
    requires started.Some? ==> started.value < |s.report.cases| && s.report.cases[started.value].status == Running
    ensures Sound(Save(s, started)) && Later(s, Save(s, started))
  {
    var t := Save(s, started);
    assert forall i :: 0 <= i < |s.saves| ==> t.saves[i] == s.saves[i];
    assert t.saves[|s.saves|] == Update(s.report, started);
  }

  /** Replacing the report by a later, legal one keeps the invariant. */
  lemma AdvanceSound(s: Session, report: Report)
    requires Sound(s) && ValidReport(report) && Advances(s.report, report)
    ensures Sound(s.(report := report)) && Later(s, s.(report := report))
  {
  }

  lemma PutSound(s: Session, index: nat, recorded: CaseResult)
    requires Sound(s) && index < |s.report.cases|
    requires !s.report.cases[index].Finished() && recorded.Key() == s.report.cases[index].Key() && ValidCase(recorded)
    ensures Sound(Put(s, index, recorded)) && Later(s, Put(s, index, recorded))
  {
    assert recorded.Key().0 == recorded.configuration;
    AdvanceSound(s, Put(s, index, recorded).report);
  }

  lemma LaterReflexive(s: Session)
    ensures Later(s, s)
  {
  }

  lemma SoundCase(s: Session, index: nat)
    requires Sound(s) && index < |s.report.cases|
    ensures ValidCase(s.report.cases[index])
  {
  }

  /** A record is replaced and the report saved: the step of which every case is made. */
  lemma RecordSound(s: Session, index: nat, recorded: CaseResult, started: Option<nat>)
    requires Sound(s) && index < |s.report.cases|
    requires !s.report.cases[index].Finished() && recorded.Key() == s.report.cases[index].Key() && ValidCase(recorded)
    requires started.Some? ==> started.value == index && recorded.status == Running
    ensures Sound(Save(Put(s, index, recorded), started)) && Later(s, Save(Put(s, index, recorded), started))
  {
    hide Sound, Later, ValidCase;
    var s1 := Put(s, index, recorded);
    PutSound(s, index, recorded);
    SaveSound(s1, started);
    LaterTransitive(s, s1, Save(s1, started));
  }

  // ----- One case

  /** The record at `index` is running, with the measurement type and the key of the options. */
  ghost predicate RunningCase(s: Session, index: nat, options: BenchmarkOptions) {
    && Sound(s)
    && index < |s.report.cases|
    && s.report.cases[index].status == Running
    && s.report.cases[index].configuration == options.configuration
    && s.report.cases[index].queues == options.queues
  }

  lemma ThroughputSound(s: Session, index: nat, options: BenchmarkOptions, script: CaseScript, w: World)
    requires RunningCase(s, index, options) && options.configuration.kind == Throughput
    ensures
      var end := RunThroughput(s, index, script, w);
      && RunningCase(end.session, index, options) && Later(s, end.session)
      && (end.failure.None? ==> end.session.report.cases[index].Measured())
  {
    hide Sound, Later;
    LaterReflexive(s);
    var measured := CalculateMeasurement(script.before, script.after, script.received, s.report.environment.metric);
    assert ValidCase(s.report.cases[index]) by { SoundCase(s, index); }
    if script.setup.None? && script.received != 0 && measured.Some? {
      var sent := if script.sent.Some? then script.sent.value as real * 8.0 else 0.0;
      var recorded := s.report.cases[index].(sample := Some(measured.value.(sentBits := sent)));
      RecordSound(s, index, recorded, None);
    }
  }

  /** A reading that is recorded leaves the case legal exactly when the reading is good. */
  lemma AddPointValid(recorded: CaseResult, point: MemoryPoint, k: nat)
    requires recorded.configuration.kind == Memory && recorded.status == Running && ValidCase(recorded)
    requires |recorded.memory.value.points| == k < CURVE_POINTS
    ensures ValidCase(AddPoint(recorded, point, k)) <==> GoodPoint(point)
  {
    var before, after := recorded.memory.value.points, AddPoint(recorded, point, k).memory.value.points;
    assert after[k] == point.(connections := CONNECTION_STEP * k);
    assert forall i :: 0 <= i < k ==> after[i] == before[i];
  }

  /** The record of a memory case is running with k points of its curve. */
  ghost predicate RunningCurve(s: Session, index: nat, options: BenchmarkOptions, k: nat) {
    && RunningCase(s, index, options) && options.configuration.kind == Memory
    && s.report.cases[index].memory.Some? && |s.report.cases[index].memory.value.points| == k <= CURVE_POINTS
  }

  lemma ReadingSound(s: Session, index: nat, options: BenchmarkOptions, point: MemoryPoint, k: nat)
    requires RunningCurve(s, index, options, k) && k < CURVE_POINTS && GoodPoint(point)
    ensures
      var t := Save(Put(s, index, AddPoint(s.report.cases[index], point, k)), None);
      RunningCurve(t, index, options, k + 1) && Later(s, t)
  {
    hide Sound, Later, ValidCase;
    SoundCase(s, index);
    AddPointValid(s.report.cases[index], point, k);
    RecordSound(s, index, AddPoint(s.report.cases[index], point, k), None);
  }

  lemma {:induction false} MemorySound(s: Session, index: nat, options: BenchmarkOptions, script: CaseScript,
                                       w: World, k: nat)
    requires RunningCurve(s, index, options, k) && GoodScript(script)
    ensures
      var end := MemoryRounds(s, index, script, w, k);
      && RunningCase(end.session, index, options) && Later(s, end.session)
      && (end.failure.None? ==> RunningCurve(end.session, index, options, CURVE_POINTS))
    decreases CURVE_POINTS - k
  {
    hide Sound, Later;
    LaterReflexive(s);
    if k < CURVE_POINTS && script.steps(k).Reading? {
      var Reading(point, after) := script.steps(k);
      var s1 := Put(s, index, AddPoint(s.report.cases[index], point, k));
      ReadingSound(s, index, options, point, k);
      if SaveError(s1, w).None? && after.None? {
        MemorySound(Save(s1, None), index, options, script, w, k + 1);
        LaterTransitive(s, Save(s1, None), MemoryRounds(s, index, script, w, k).session);
      }
    }
  }

  lemma BenchmarkSound(s: Session, index: nat, options: BenchmarkOptions, script: CaseScript, w: World)
    requires RunningCase(s, index, options) && GoodScript(script)
    requires options.configuration.kind == Memory ==> RunningCurve(s, index, options, 0)
    ensures
      var end := RunBenchmark(s, index, options, script, w);
      && RunningCase(end.session, index, options) && Later(s, end.session)
      && (end.failure.None? ==> ValidCase(end.session.report.cases[index].(status := Passed)))
  {
    hide Sound, Later, MemoryRounds, RunThroughput;
    LaterReflexive(s);
    SoundCase(s, index);
    if options.configuration.kind == Memory {
      if script.setup.None? {
        MemorySound(s, index, options, script, w, 0);
      }
    } else {
      ThroughputSound(s, index, options, script, w);
    }
    SoundCase(RunBenchmark(s, index, options, script, w).session, index);
  }

  lemma ClassifyValid(recorded: CaseResult, failure: Option<Failure>, canceled: bool, clean: bool)
    requires recorded.status == Running && ValidCase(recorded)
    requires failure.None? ==> ValidCase(recorded.(status := Passed))
    ensures
      var classified := Classify(recorded, failure, canceled, clean);
      && ValidCase(classified)
      && classified.Key() == recorded.Key()
      && classified.status != Running
      && (failure.None? || classified.status == Bug <==> classified.Finished())
  {
  }

  /**
   * An executed case keeps the invariant; unless the run stops, its record is no longer running, and is finished if
   * nothing failed.
   */
  lemma ExecuteSound(s: Session, index: nat, options: BenchmarkOptions, script: CaseScript, failFast: bool, w: World)
    requires Sound(s) && index < |s.report.cases| && w.memoryMetric != "" && GoodScript(script)
    requires !s.report.cases[index].Finished() && Matches(s.report.cases[index], options)
    ensures
      var step := ExecuteCase(s, index, options, script, failFast, w);
      && Sound(step.session) && Later(s, step.session)
      && (step.stop.None? ==> step.session.report.cases[index].status != Running)
      && (step.stop.None? && !step.failed ==> step.session.report.cases[index].Finished())
  {
    hide Sound, Later, RunBenchmark, Classify;
    var started := Started(s.report.cases[index], options, w);
    var s2 := Save(Put(s, index, started), Some(index));
    StartedValid(s, index, options, w);
    RecordSound(s, index, started, Some(index));
    if SaveError(Put(s, index, started), w).None? {
      BenchmarkSound(s2, index, options, script, w);
      var end := RunBenchmark(s2, index, options, script, w);
      var recorded := end.session.report.cases[index];
      SoundCase(end.session, index);
      var clean := script.cleanup.None? && !end.recordFailed;
      ClassifyValid(recorded, end.failure, script.canceledAtStatus, clean);
      var classified := Classify(recorded, end.failure, script.canceledAtStatus, clean);
      RecordSound(end.session, index, classified, None);
      LaterTransitive(s, s2, end.session);
      LaterTransitive(s, end.session, Save(Put(end.session, index, classified), None));
    }
  }

  lemma StartedValid(s: Session, index: nat, options: BenchmarkOptions, w: World)
    requires Sound(s) && index < |s.report.cases| && w.memoryMetric != "" && Matches(s.report.cases[index], options)
    ensures
      var started := Started(s.report.cases[index], options, w);
      && ValidCase(started) && started.Key() == s.report.cases[index].Key()
      && started.configuration == options.configuration && started.queues == options.queues
  {
  }
}
