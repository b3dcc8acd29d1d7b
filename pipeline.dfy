/** The DAG `financial_volatility_pipeline`: nine tasks in one linear chain,
    each retried up to three times, run against the warehouse. */
module Pipeline {
  import opened Sql
  import opened Schema
  import opened Quality
  import opened Facts
  import opened Volatility
  import opened Reporting
  import opened Dimension
  import opened Dw

  datatype Task =
    | SetupStagingTable | LocateCsv | LoadStaging | RunDataQualityChecks | CreateDimTables
    | LoadFactTable | CalculateVolatilityView | ReportTopVolatility | LogExecutionSummary

  /** The `>>` chain, upstream first. */
  const CHAIN: seq<Task> := [SetupStagingTable, LocateCsv, LoadStaging, RunDataQualityChecks,
    CreateDimTables, LoadFactTable, CalculateVolatilityView, ReportTopVolatility, LogExecutionSummary]

  /** `retries` from the DAG's default arguments, applied to every task. */
  const RETRIES := 3

  /** A task's final state: how many attempts it made when it ran, or that
      it never ran because a task upstream failed. */
  datatype TaskState = Success(attempts: nat) | Failed(attempts: nat) | UpstreamFailed

  /** A started task whose first `transient` attempts fail for a passing
      reason and whose work itself does (`ok`) or does not succeed: it is
      retried until an attempt succeeds or 1 + RETRIES attempts are used:
      it ends having run, with 1 to 1 + RETRIES attempts, all of them when
      it failed. */
  function Attempt(transient: nat, ok: bool): (state: TaskState)
    ensures !state.UpstreamFailed?
    ensures state.Success? ==> 1 <= state.attempts <= RETRIES + 1
    ensures state.Failed? ==> state.attempts == RETRIES + 1
  {
    if ok && transient <= RETRIES then Success(transient + 1) else Failed(RETRIES + 1)
  }

  /** What the tasks have produced so far: the warehouse and the report
      message pushed to XCom. */
  datatype Stage = Stage(tables: Tables, report: Option<Report>)

  /** One attempt of a task's work: whether it succeeds, and what it
      commits. A failing attempt commits nothing, only the report task
      pushes a report, and only the four loading and building tasks write
      tables. `input` is the CSV's rows, or None when the file is absent;
      `sqrt` is the database's square root. */
  function Perform(task: Task, s: Stage, input: Option<seq<StagingRow>>, sqrt: real -> real): (r: (bool, Stage))
    ensures !r.0 ==> r.1 == s
    ensures task != ReportTopVolatility ==> r.1.report == s.report
    ensures task !in {LoadStaging, CreateDimTables, LoadFactTable, CalculateVolatilityView} ==> r.1.tables == s.tables
  {
    match task
    case SetupStagingTable => (true, s)
    case LocateCsv => (input.Some?, s)
    case LoadStaging =>
      if input.Some? then (true, s.(tables := s.tables.(staging := input.value))) else (false, s)
    case RunDataQualityChecks => (QualityGate(s.tables.staging), s)
    case CreateDimTables =>
      var o := CreateDimTablesStep(s.tables);
      if o.Done? then (true, s.(tables := o.tables)) else (false, s)
    case LoadFactTable =>
      var o := LoadFactTableStep(s.tables);
      if o.Done? then (true, s.(tables := o.tables)) else (false, s)
    case CalculateVolatilityView => (true, s.(tables := RefreshStep(s.tables, sqrt)))
    case ReportTopVolatility =>
      var q := ReportAsWritten(s.tables.volatilityWeekly);
      if Renders(q) then (true, s.(report := Some(q))) else (false, s)
    case LogExecutionSummary => (true, s)
  }

  /** The result of one run: the warehouse afterwards, each task's state in
      chain order, and the report message. */
  datatype RunResult = RunResult(tables: Tables, states: seq<TaskState>, report: Option<Report>)

  /** The states of a run that ends after the tasks in `ran`: the tasks
      after them are UpstreamFailed. */
  function Pad(ran: seq<TaskState>): (states: seq<TaskState>)
    requires |ran| <= |CHAIN|
    ensures |states| == |CHAIN|
    ensures forall i | 0 <= i < |ran| :: states[i] == ran[i]
    ensures forall i | |ran| <= i < |CHAIN| :: states[i] == UpstreamFailed
  {
    ran + seq(|CHAIN| - |ran|, _ => UpstreamFailed)
  }

  /** The work of each task on a stage, as `Perform` does it for one
      input file and square root. The scheduler below is stated over any
      such work. */
  type TaskWork = (Task, Stage) -> (bool, Stage)

  function Performer(input: Option<seq<StagingRow>>, sqrt: real -> real): TaskWork {
    (task, s) => Perform(task, s, input, sqrt)
  }

  /** The scheduler from the task after those in `ran` (all succeeded), at
      stage `s`: each task is attempted in chain order, and the first one
      that ends Failed stops the run. `transient(k)` is how many attempts
      of task k fail for a passing reason. */
  function RunFrom(ran: seq<TaskState>, s: Stage, work: TaskWork, transient: Task -> nat): (r: RunResult)
    requires |ran| <= |CHAIN|
    ensures |r.states| == |CHAIN|
    decreases |CHAIN| - |ran|
  {
    if |ran| == |CHAIN| then RunResult(s.tables, ran, s.report)
    else
      var task := CHAIN[|ran|];
      var r := work(task, s);
      var state := Attempt(transient(task), r.0);
      if state.Success? then RunFrom(ran + [state], r.1, work, transient)
      else RunResult(s.tables, Pad(ran + [state]), s.report)
  }

  /** One scheduled run against the warehouse `t`, with the CSV's rows
      (None when the file is absent) and the database's square root. Its
      task states form the linear chain and respect the retry bound: a task
      runs exactly when every task upstream succeeded, and after
      1 + RETRIES failed attempts it is failed for good. */
  function Run(t: Tables, input: Option<seq<StagingRow>>, transient: Task -> nat, sqrt: real -> real): (r: RunResult)
    ensures |r.states| == |CHAIN|
    ensures LinearRun(r.states) && RetriesBounded(r.states)
  {
    ChainIsLinear(Stage(t, None), Performer(input, sqrt), transient);
    RunFrom([], Stage(t, None), Performer(input, sqrt), transient)
  }

  /** The stage reached from `s0` when the first `k` tasks succeed. */
  ghost function StageAfter(k: nat, s0: Stage, work: TaskWork): Stage
    requires k <= |CHAIN|
  {
    if k == 0 then s0 else work(CHAIN[k - 1], StageAfter(k - 1, s0, work)).1
  }

  /** The state task `k` ends in when the tasks before it succeeded. */
  ghost function StateAt(k: nat, s0: Stage, work: TaskWork, transient: Task -> nat): TaskState
    requires k < |CHAIN|
  {
    Attempt(transient(CHAIN[k]), work(CHAIN[k], StageAfter(k, s0, work)).0)
  }

  /** The first task from `k` on that does not succeed, or |CHAIN|. */
  ghost function FirstFailure(k: nat, s0: Stage, work: TaskWork, transient: Task -> nat): (f: nat)
    requires k <= |CHAIN|
    ensures k <= f <= |CHAIN|
    decreases |CHAIN| - k
  {
    if k == |CHAIN| || !StateAt(k, s0, work, transient).Success? then k
    else FirstFailure(k + 1, s0, work, transient)
  }

  lemma {:induction false} FirstFailureSpec(k: nat, s0: Stage, work: TaskWork, transient: Task -> nat)
    requires k <= |CHAIN|
    ensures var f := FirstFailure(k, s0, work, transient);
      (forall i | k <= i < f :: StateAt(i, s0, work, transient).Success?)
      && (f < |CHAIN| ==> !StateAt(f, s0, work, transient).Success?)
    decreases |CHAIN| - k
  {
    if k < |CHAIN| && StateAt(k, s0, work, transient).Success? {
      FirstFailureSpec(k + 1, s0, work, transient);
    }
  }

  lemma {:induction false} RunFromStates(ran: seq<TaskState>, s0: Stage, work: TaskWork, transient: Task -> nat)
    requires |ran| <= |CHAIN|
    requires forall i | 0 <= i < |ran| :: ran[i] == StateAt(i, s0, work, transient) && ran[i].Success?
    ensures var f := FirstFailure(|ran|, s0, work, transient);
      var r := RunFrom(ran, StageAfter(|ran|, s0, work), work, transient);
      (forall i | 0 <= i < |CHAIN| && i <= f :: r.states[i] == StateAt(i, s0, work, transient))
      && (forall i | f < i < |CHAIN| :: r.states[i] == UpstreamFailed)
    decreases |CHAIN| - |ran|
  {
    if |ran| < |CHAIN| {
      var state := StateAt(|ran|, s0, work, transient);
      if state.Success? {
        RunFromStates(ran + [state], s0, work, transient);
      }
    }
  }

  lemma {:induction false} RunFromStage(ran: seq<TaskState>, s0: Stage, work: TaskWork, transient: Task -> nat)
    requires |ran| <= |CHAIN|
    ensures var f := FirstFailure(|ran|, s0, work, transient);
      var r := RunFrom(ran, StageAfter(|ran|, s0, work), work, transient);
      r.tables == StageAfter(f, s0, work).tables && r.report == StageAfter(f, s0, work).report
    decreases |CHAIN| - |ran|
  {
    if |ran| < |CHAIN| {
      var state := StateAt(|ran|, s0, work, transient);
      if state.Success? {
        RunFromStage(ran + [state], s0, work, transient);
      }
    }
  }

  /** A run stops at its first failing task: the tasks before it
      succeeded, the failing one is Failed, the rest UpstreamFailed, and
      the warehouse and report are those committed before it. */
  lemma ChainSpec(s0: Stage, work: TaskWork, transient: Task -> nat)
    ensures var f := FirstFailure(0, s0, work, transient);
      var r := RunFrom([], s0, work, transient);
      var after := StageAfter(f, s0, work);
      r.tables == after.tables && r.report == after.report
      && (forall i | 0 <= i < f :: r.states[i] == StateAt(i, s0, work, transient) && r.states[i].Success?)
      && (f < |CHAIN| ==> r.states[f] == StateAt(f, s0, work, transient) && !r.states[f].Success?)
      && (forall i | f < i < |CHAIN| :: r.states[i] == UpstreamFailed)
  {
    RunFromStates([], s0, work, transient);
    RunFromStage([], s0, work, transient);
    FirstFailureSpec(0, s0, work, transient);
  }

  /** Every task reached a final state, and a task ran exactly when every
      task upstream of it had succeeded. */
  predicate LinearRun(states: seq<TaskState>) {
    |states| == |CHAIN|
    && forall i | 0 <= i < |states| ::
         !states[i].UpstreamFailed? <==> forall j | 0 <= j < i :: states[j].Success?
  }

  /** A task that ran made at least one and at most 1 + RETRIES attempts,
      and a failed task used them all. */
  predicate RetriesBounded(states: seq<TaskState>) {
    forall i | 0 <= i < |states| ::
      (states[i].Success? ==> 1 <= states[i].attempts <= RETRIES + 1)
      && (states[i].Failed? ==> states[i].attempts == RETRIES + 1)
  }

  predicate AllSucceeded(states: seq<TaskState>) {
    forall i | 0 <= i < |states| :: states[i].Success?
  }

  lemma ChainIsLinear(s0: Stage, work: TaskWork, transient: Task -> nat)
    ensures LinearRun(RunFrom([], s0, work, transient).states)
    ensures RetriesBounded(RunFrom([], s0, work, transient).states)
  {
    ChainSpec(s0, work, transient);
    var f := FirstFailure(0, s0, work, transient);
    var s := RunFrom([], s0, work, transient).states;
    forall i | 0 <= i < |s| ensures !s[i].UpstreamFailed? <==> forall j | 0 <= j < i :: s[j].Success? {
      if i > f {
        assert !s[f].Success?;
      }
    }
  }

  /** The stage, task state and first failure of one run of the DAG. */
  ghost function StageOf(k: nat, t: Tables, input: Option<seq<StagingRow>>, sqrt: real -> real): Stage
    requires k <= |CHAIN|
  {
    StageAfter(k, Stage(t, None), Performer(input, sqrt))
  }

  ghost function StateOf(k: nat, t: Tables, input: Option<seq<StagingRow>>, transient: Task -> nat, sqrt: real -> real): TaskState
    requires k < |CHAIN|
  {
    StateAt(k, Stage(t, None), Performer(input, sqrt), transient)
  }

  ghost function FailureOf(t: Tables, input: Option<seq<StagingRow>>, transient: Task -> nat, sqrt: real -> real): (f: nat)
    ensures f <= |CHAIN|
  {
    FirstFailure(0, Stage(t, None), Performer(input, sqrt), transient)
  }

  lemma RunSpec(t: Tables, input: Option<seq<StagingRow>>, transient: Task -> nat, sqrt: real -> real)
    ensures var f := FailureOf(t, input, transient, sqrt);
      var r := Run(t, input, transient, sqrt);
      var after := StageOf(f, t, input, sqrt);
      r.tables == after.tables && r.report == after.report
      && (forall i | 0 <= i < f :: r.states[i] == StateOf(i, t, input, transient, sqrt) && r.states[i].Success?)
      && (f < |CHAIN| ==> r.states[f] == StateOf(f, t, input, transient, sqrt) && !r.states[f].Success?)
      && (forall i | f < i < |CHAIN| :: r.states[i] == UpstreamFailed)
  {
    ChainSpec(Stage(t, None), Performer(input, sqrt), transient);
  }

  /** The stage after task `k` of the DAG is what task `k` commits on the
      stage before it. */
  lemma StageStep(k: nat, t: Tables, input: Option<seq<StagingRow>>, sqrt: real -> real)
    requires k < |CHAIN|
    ensures StageOf(k + 1, t, input, sqrt) == Perform(CHAIN[k], StageOf(k, t, input, sqrt), input, sqrt).1
  {
  }

  /** The first four tasks write nothing but staging, and no report. */
  lemma EarlyStages(k: nat, t: Tables, input: Option<seq<StagingRow>>, sqrt: real -> real)
    requires k <= 4
    ensures var s := StageOf(k, t, input, sqrt);
      s.tables == t.(staging := s.tables.staging) && s.report.None?
      && (k >= 3 && input.Some? ==> s.tables.staging == input.value)
  {
    if k > 0 {
      EarlyStages(k - 1, t, input, sqrt);
    }
  }

  /** When the quality gate does not pass, nothing downstream is written:
      the dimensions, the facts and the view are those from before the run,
      and there is no report. A task from `create_dim_tables` on succeeds
      only if the gate passed, that is, if staging held 750000 rows without
      a NULL close or date. */
  lemma QualityGateGuardsDownstream(t: Tables, input: Option<seq<StagingRow>>, transient: Task -> nat, sqrt: real -> real)
    ensures var r := Run(t, input, transient, sqrt);
      (!r.states[3].Success? ==>
         r.tables.dimInstrumento == t.dimInstrumento && r.tables.dimTempo == t.dimTempo
         && r.tables.fact == t.fact && r.tables.volatilityWeekly == t.volatilityWeekly
         && r.report.None?)
      && (r.states[4].Success? ==>
         input.Some? && |input.value| == EXPECTED_ROW_COUNT && NoMissingCritical(input.value))
  {
    RunSpec(t, input, transient, sqrt);
    var f := FailureOf(t, input, transient, sqrt);
    if f <= 3 {
      EarlyStages(f, t, input, sqrt);
    }
    if f > 4 {
      assert Perform(LocateCsv, StageOf(1, t, input, sqrt), input, sqrt).0;
      EarlyStages(3, t, input, sqrt);
      QualityGateSpec(input.value);
    }
  }

  /** In the DAG the fact load is never rolled back: the dimension step
      before it has inserted every key the facts reference. */
  lemma FactLoadFollowsDimensions(t: Tables, input: Option<seq<StagingRow>>, transient: Task -> nat, sqrt: real -> real)
    ensures var r := Run(t, input, transient, sqrt);
      r.states[4].Success? && transient(LoadFactTable) <= RETRIES ==> r.states[5].Success?
  {
    RunSpec(t, input, transient, sqrt);
    var f := FailureOf(t, input, transient, sqrt);
    if f > 4 && transient(LoadFactTable) <= RETRIES {
      FactStepSucceeds(t, input, transient, sqrt);
    }
  }

  lemma FactStepSucceeds(t: Tables, input: Option<seq<StagingRow>>, transient: Task -> nat, sqrt: real -> real)
    requires StateOf(1, t, input, transient, sqrt).Success?
    requires StateOf(4, t, input, transient, sqrt).Success?
    requires transient(LoadFactTable) <= RETRIES
    ensures StateOf(5, t, input, transient, sqrt).Success?
  {
    DimensionStageReached(t, input, transient, sqrt);
    DimensionsCoverStaging(t.(staging := input.value));
    assert Perform(LoadFactTable, StageOf(5, t, input, sqrt), input, sqrt).0;
  }

  /** A run that succeeds leaves staging equal to the input, the dimensions
      extended by its symbols and dates, the facts rebuilt from it alone,
      the view recomputed from those facts, and the report the query
      returns on that view, whose average could be rendered. */
  lemma RunEffect(t: Tables, input: Option<seq<StagingRow>>, transient: Task -> nat, sqrt: real -> real)
    requires AllSucceeded(Run(t, input, transient, sqrt).states)
    ensures var r := Run(t, input, transient, sqrt);
      input.Some? && Symbols(input.value).Some? && Dates(input.value).Some?
      && r.tables == Tables(
           input.value,
           InsertMissing(t.dimInstrumento, Symbols(input.value).value, InstrumentOf),
           InsertMissing(t.dimTempo, Dates(input.value).value, TempoOf),
           BuildFacts(input.value),
           WeeklyVolatility(BuildFacts(input.value), sqrt))
      && r.report == Some(ReportAsWritten(WeeklyVolatility(BuildFacts(input.value), sqrt)))
      && Renders(ReportAsWritten(WeeklyVolatility(BuildFacts(input.value), sqrt)))
  {
    RunSpec(t, input, transient, sqrt);
    var r := Run(t, input, transient, sqrt);
    assert r.states[1].Success? && r.states[4].Success? && r.states[5].Success? && r.states[7].Success?;
    CompletedStages(t, input, transient, sqrt);
    ReportTaskOutcome(t, input, transient, sqrt);
    var rows := input.value;
    var u := CreateDimTablesStep(t.(staging := rows)).tables;
    CreateDimTablesSpec(t.(staging := rows));
    LoadFactTableSpec(u);
  }

  /** The stage a run reaches when the CSV is found and both
      transactional steps commit: the only tasks whose success is not
      certain once they start. */
  lemma CompletedStages(t: Tables, input: Option<seq<StagingRow>>, transient: Task -> nat, sqrt: real -> real)
    requires StateOf(1, t, input, transient, sqrt).Success?
    requires StateOf(4, t, input, transient, sqrt).Success?
    requires StateOf(5, t, input, transient, sqrt).Success?
    ensures input.Some?
    ensures var d := CreateDimTablesStep(t.(staging := input.value));
      d.Done? && LoadFactTableStep(d.tables).Done?
      && var v := RefreshStep(LoadFactTableStep(d.tables).tables, sqrt);
         var q := ReportAsWritten(v.volatilityWeekly);
         StageOf(7, t, input, sqrt) == Stage(v, None)
         && StageOf(|CHAIN|, t, input, sqrt) == Stage(v, if Renders(q) then Some(q) else None)
  {
    DimensionStageReached(t, input, transient, sqrt);
    LateStages(StageOf(5, t, input, sqrt), t, input, sqrt);
  }

  /** Once the CSV is found and the dimension step commits, the fifth
      stage is staging loaded and the dimensions extended. */
  lemma DimensionStageReached(t: Tables, input: Option<seq<StagingRow>>, transient: Task -> nat, sqrt: real -> real)
    requires StateOf(1, t, input, transient, sqrt).Success?
    requires StateOf(4, t, input, transient, sqrt).Success?
    ensures input.Some? && CreateDimTablesStep(t.(staging := input.value)).Done?
    ensures StageOf(5, t, input, sqrt) == Stage(CreateDimTablesStep(t.(staging := input.value)).tables, None)
  {
    assert Perform(LocateCsv, StageOf(1, t, input, sqrt), input, sqrt).0;
    EarlyStages(4, t, input, sqrt);
    assert StageOf(4, t, input, sqrt) == Stage(t.(staging := input.value), None);
  }

  /** The stages after the fifth when the fact step commits: the view is
      refreshed from the new facts, and the query's row is pushed when its
      average can be rendered. */
  lemma LateStages(s5: Stage, t: Tables, input: Option<seq<StagingRow>>, sqrt: real -> real)
    requires s5 == StageOf(5, t, input, sqrt) && s5.report.None?
    requires LoadFactTableStep(s5.tables).Done?
    ensures var v := RefreshStep(LoadFactTableStep(s5.tables).tables, sqrt);
      var q := ReportAsWritten(v.volatilityWeekly);
      StageOf(7, t, input, sqrt) == Stage(v, None)
      && StageOf(|CHAIN|, t, input, sqrt) == Stage(v, if Renders(q) then Some(q) else None)
  {
    FactStage(t, input, sqrt);
    ViewStage(t, input, sqrt);
    ReportStage(t, input, sqrt);
  }

  lemma FactStage(t: Tables, input: Option<seq<StagingRow>>, sqrt: real -> real)
    ensures var s5 := StageOf(5, t, input, sqrt);
      LoadFactTableStep(s5.tables).Done? ==>
        StageOf(6, t, input, sqrt) == s5.(tables := LoadFactTableStep(s5.tables).tables)
  {
    assert CHAIN[5] == LoadFactTable;
  }

  lemma ViewStage(t: Tables, input: Option<seq<StagingRow>>, sqrt: real -> real)
    ensures var s6 := StageOf(6, t, input, sqrt);
      StageOf(7, t, input, sqrt) == s6.(tables := RefreshStep(s6.tables, sqrt))
  {
    assert CHAIN[6] == CalculateVolatilityView;
  }

  /** The report task pushes the query's row when its average can be
      rendered, and commits nothing otherwise; the summary task writes
      nothing. */
  lemma ReportStage(t: Tables, input: Option<seq<StagingRow>>, sqrt: real -> real)
    ensures var s7 := StageOf(7, t, input, sqrt);
      var q := ReportAsWritten(s7.tables.volatilityWeekly);
      StageOf(9, t, input, sqrt) == (if Renders(q) then s7.(report := Some(q)) else s7)
  {
    StageStep(7, t, input, sqrt);
    StageStep(8, t, input, sqrt);
    assert CHAIN[7] == ReportTopVolatility && CHAIN[8] == LogExecutionSummary;
  }

  /** The report task succeeds exactly when its attempts are not all
      failed by passing causes and the query's average can be rendered. */
  lemma ReportTaskOutcome(t: Tables, input: Option<seq<StagingRow>>, transient: Task -> nat, sqrt: real -> real)
    ensures StateOf(7, t, input, transient, sqrt).Success?
      <==> transient(ReportTopVolatility) <= RETRIES && Renders(ReportAsWritten(StageOf(7, t, input, sqrt).tables.volatilityWeekly))
  {
    assert CHAIN[7] == ReportTopVolatility;
  }

  /** No report is pushed before the report task. */
  lemma {:induction false} NoReportBefore(k: nat, t: Tables, input: Option<seq<StagingRow>>, sqrt: real -> real)
    requires k <= 7
    ensures StageOf(k, t, input, sqrt).report.None?
  {
    if k > 0 {
      NoReportBefore(k - 1, t, input, sqrt);
      assert CHAIN[k - 1] != ReportTopVolatility;
    }
  }

  /** A successful run's report is the query's row on the view it built:
      no row exactly when the view is empty, and otherwise a ticker of the
      view with a non-NULL average that is the largest of all tickers'
      averages, every ticker having a measured week. */
  lemma RunReport(t: Tables, input: Option<seq<StagingRow>>, transient: Task -> nat, sqrt: real -> real)
    requires AllSucceeded(Run(t, input, transient, sqrt).states)
    ensures var r := Run(t, input, transient, sqrt);
      var view := r.tables.volatilityWeekly;
      r.report.Some?
      && (r.report.value == NoVolatilityData <==> |view| == 0)
      && (r.report.value.TopVolatility? ==>
            var a := r.report.value.avgVolatility;
            r.report.value.ticker in TickerSet(view) && a.Some? && AvgVol(view, r.report.value.ticker) == a
            && forall i | 0 <= i < |view| ::
                 AvgVol(view, view[i].ticker).Some? && AvgVol(view, view[i].ticker).value <= a.value)
  {
    RunEffect(t, input, transient, sqrt);
    ReportAsWrittenSpec(Run(t, input, transient, sqrt).tables.volatilityWeekly);
  }

  /** As written, a ticker whose every week has a NULL vol fails the
      report task: all of its attempts raise on the NULL average, the
      summary never runs, and no report is pushed. */
  lemma UnmeasuredTickerFailsReport(t: Tables, input: Option<seq<StagingRow>>, transient: Task -> nat, sqrt: real -> real)
    ensures var r := Run(t, input, transient, sqrt);
      var view := r.tables.volatilityWeekly;
      r.states[6].Success? && (exists i | 0 <= i < |view| :: AvgVol(view, view[i].ticker).None?) ==>
        r.states[7] == Failed(RETRIES + 1) && r.states[8] == UpstreamFailed && r.report.None?
  {
    var r := Run(t, input, transient, sqrt);
    var view := r.tables.volatilityWeekly;
    if r.states[6].Success? && exists i | 0 <= i < |view| :: AvgVol(view, view[i].ticker).None? {
      ReportTail(t, input, transient, sqrt);
      ReportAsWrittenSpec(view);
      ReportTaskOutcome(t, input, transient, sqrt);
      NoReportBefore(7, t, input, sqrt);
    }
  }

  /** Once the view task has succeeded, the run ends with the tables of
      the seventh stage, and the report task either succeeds or ends the
      run with the report as it was before it. */
  lemma ReportTail(t: Tables, input: Option<seq<StagingRow>>, transient: Task -> nat, sqrt: real -> real)
    requires Run(t, input, transient, sqrt).states[6].Success?
    ensures var r := Run(t, input, transient, sqrt);
      var s7 := StageOf(7, t, input, sqrt);
      r.tables == s7.tables
      && (r.states[7].Success? ==> StateOf(7, t, input, transient, sqrt).Success?)
      && (!r.states[7].Success? ==>
            r.states[7] == StateOf(7, t, input, transient, sqrt) && r.states[8] == UpstreamFailed && r.report == s7.report)
  {
    RunSpec(t, input, transient, sqrt);
    var f := FailureOf(t, input, transient, sqrt);
    assert f > 6;
    StageStep(7, t, input, sqrt);
    ReportStage(t, input, sqrt);
  }

  /** Re-running the pipeline on the same input after a successful run
      leaves the warehouse and the report exactly as the first run left
      them. */
  lemma RunIdempotent(t: Tables, input: Option<seq<StagingRow>>, transient: Task -> nat, again: Task -> nat, sqrt: real -> real)
    requires AllSucceeded(Run(t, input, transient, sqrt).states)
    requires AllSucceeded(Run(Run(t, input, transient, sqrt).tables, input, again, sqrt).states)
    ensures Run(Run(t, input, transient, sqrt).tables, input, again, sqrt).tables == Run(t, input, transient, sqrt).tables
    ensures Run(Run(t, input, transient, sqrt).tables, input, again, sqrt).report == Run(t, input, transient, sqrt).report
  {
    var r1 := Run(t, input, transient, sqrt);
    RunEffect(t, input, transient, sqrt);
    RunEffect(r1.tables, input, again, sqrt);
    InsertMissingIdempotent(t.dimInstrumento, Symbols(input.value).value, InstrumentOf);
    InsertMissingIdempotent(t.dimTempo, Dates(input.value).value, TempoOf);
  }

  lemma {:induction false} StagesKeepConstraints(k: nat, t: Tables, input: Option<seq<StagingRow>>, sqrt: real -> real)
    requires k <= |CHAIN| && ValidTables(t)
    ensures ValidTables(StageOf(k, t, input, sqrt).tables)
  {
    if k > 0 {
      StagesKeepConstraints(k - 1, t, input, sqrt);
      var s := StageOf(k - 1, t, input, sqrt);
      match CHAIN[k - 1]
      case CreateDimTables =>
        if CreateDimTablesStep(s.tables).Done? {
          CreateDimTablesSpec(s.tables);
        }
      case LoadFactTable =>
        LoadFactTableSpec(s.tables);
      case _ =>
    }
  }

  /** A run keeps the database's constraints: primary keys unique and fact
      rows referencing their dimensions. */
  lemma RunPreservesConstraints(t: Tables, input: Option<seq<StagingRow>>, transient: Task -> nat, sqrt: real -> real)
    requires ValidTables(t)
    ensures ValidTables(Run(t, input, transient, sqrt).tables)
  {
    RunSpec(t, input, transient, sqrt);
    StagesKeepConstraints(FailureOf(t, input, transient, sqrt), t, input, sqrt);
  }

  /** One attempt of `task` against the warehouse `w`, by its methods. */
  method Work(w: Warehouse, task: Task, report: Option<Report>, input: Option<seq<StagingRow>>, sqrt: real -> real)
    returns (ok: bool, report': Option<Report>)
    requires w.Valid()
    modifies w
    ensures w.Valid()
    ensures (ok, Stage(w.Snapshot(), report')) == Perform(task, Stage(old(w.Snapshot()), report), input, sqrt)
  {
    report' := report;
    match task
    case SetupStagingTable => ok := true;
    case LocateCsv => ok := input.Some?;
    case LoadStaging =>
      ok := input.Some?;
      if ok { w.LoadStaging(input.value); }
    case RunDataQualityChecks => ok := w.RunDataQualityChecks();
    case CreateDimTables =>
      var err := w.CreateDimTables();
      ok := err.None?;
    case LoadFactTable =>
      var err := w.LoadFactTable();
      ok := err.None?;
    case CalculateVolatilityView =>
      ok := true;
      w.CalculateVolatilityView(sqrt);
    case ReportTopVolatility =>
      var top := w.ReportTopVolatility();
      ok := Renders(top);
      if ok { report' := Some(top); }
    case LogExecutionSummary => ok := true;
  }

  /** Runs the DAG's tasks in chain order against the warehouse `w`. */
  method Execute(w: Warehouse, input: Option<seq<StagingRow>>, transient: Task -> nat, sqrt: real -> real)
    returns (states: seq<TaskState>, report: Option<Report>)
    requires w.Valid()
    modifies w
    ensures w.Valid()
    ensures var r := Run(old(w.Snapshot()), input, transient, sqrt);
      w.Snapshot() == r.tables && states == r.states && report == r.report
  {
    states, report := [], None;
    while |states| < |CHAIN|
      invariant |states| <= |CHAIN|
      invariant w.Valid()
      invariant Run(old(w.Snapshot()), input, transient, sqrt)
             == RunFrom(states, Stage(w.Snapshot(), report), Performer(input, sqrt), transient)
      decreases |CHAIN| - |states|
    {
      var task := CHAIN[|states|];
      if transient(task) > RETRIES {
        // every attempt fails and is rolled back
        states := Pad(states + [Failed(RETRIES + 1)]);
        return;
      }
      var ok;
      ok, report := Work(w, task, report, input, sqrt);
      var state := Attempt(transient(task), ok);
      if !state.Success? {
        states := Pad(states + [state]);
        return;
      }
      states := states + [state];
    }
  }
}
