/** How a benchmark run accounts for its executions. */
module Bench {
  import opened Sql

  datatype ErrorAction = Log | Raise | Ignore

  datatype Status = Ok | TimedOut | ExecutionError | OptimizationError

  /** What the database makes of an execution. */
  datatype Outcome = Successful(result: string, time: int) | TimeoutAfter(time: int) | Failed(reason: string)

  /** An execution with the time it starts at and the configuration it runs under. */
  datatype Execution = Execution(outcome: Outcome, now: int, config: string)

  /** A query of the workload: whether its optimization fails, and how its repetitions turn out. */
  datatype QueryRun = QueryRun(sqlLabel: string, optimizationError: Option<string>, executions: seq<Execution>)

  /** A row of the result table. */
  datatype Row = Row(execIndex: int, sqlLabel: string, workloadRep: nat, queryRep: nat,
    timestamp: Option<int>, status: Status, result: Option<string>, time: Option<int>, reason: string, config: string)

  function Repeat<T>(n: nat, x: T): seq<T> { seq(n, _ => x) }

  // ----- samples -----

  /** All executions of one query in one workload repetition. */
  class ResultSample {
    const sqlLabel: string
    const workloadRep: nat
    const maxQueryReps: nat
    const initialIdx: int
    var timestamps: seq<Option<int>>
    var status: seq<Status>
    var failureReasons: seq<string>
    var resultSets: seq<Option<string>>
    var execTimes: seq<Option<int>>
    var dbConfigs: seq<string>

    constructor (sqlLabel: string, initialIdx: int, workloadRep: nat, maxQueryReps: nat)
      ensures this.sqlLabel == sqlLabel && this.initialIdx == initialIdx
      ensures this.workloadRep == workloadRep && this.maxQueryReps == maxQueryReps
      ensures Even() && resultSets == []
      ensures timestamps == [] && status == [] && failureReasons == [] && execTimes == [] && dbConfigs == []
    {
      this.sqlLabel, this.initialIdx := sqlLabel, initialIdx;
      this.workloadRep, this.maxQueryReps := workloadRep, maxQueryReps;
      timestamps, status, failureReasons := [], [], [];
      resultSets, execTimes, dbConfigs := [], [], [];
    }

    /** All lists have the same length. */
    predicate Even()
      reads this
    {
      |timestamps| == |status| == |failureReasons| == |resultSets| == |execTimes| == |dbConfigs|
    }

    /** The lists that an execution's outcome is added to have the same length. */
    predicate OutcomesEven()
      reads this
    {
      |status| == |failureReasons| == |resultSets| == |execTimes| == |dbConfigs|
    }

    function NumExecutions(): nat
      reads this`resultSets
    {
      |resultSets|
    }

    method OptimizationFailure(reason: string)
      modifies this
      ensures timestamps == old(timestamps) + Repeat(maxQueryReps, None)
      ensures status == old(status) + Repeat(maxQueryReps, OptimizationError)
      ensures failureReasons == old(failureReasons) + Repeat(maxQueryReps, reason)
      ensures resultSets == old(resultSets) + Repeat(maxQueryReps, None)
      ensures execTimes == old(execTimes) + Repeat(maxQueryReps, None)
      ensures dbConfigs == old(dbConfigs) + Repeat(maxQueryReps, "")
    {
      timestamps := timestamps + Repeat(maxQueryReps, None);
      status := status + Repeat(maxQueryReps, OptimizationError);
      failureReasons := failureReasons + Repeat(maxQueryReps, reason);
      resultSets := resultSets + Repeat(maxQueryReps, None);
      execTimes := execTimes + Repeat(maxQueryReps, None);
      dbConfigs := dbConfigs + Repeat(maxQueryReps, "");
    }

    method StartExecution(now: int)
      modifies this`timestamps
      ensures timestamps == old(timestamps) + [Some(now)]
    {
      timestamps := timestamps + [Some(now)];
    }

    /** `add_exec_sample`, `add_exec_timeout` and `add_exec_failure` */
    method Add(outcome: Outcome, config: string)
      modifies this`status, this`failureReasons, this`resultSets, this`execTimes, this`dbConfigs
      ensures status == old(status) + [StatusOf(outcome)]
      ensures failureReasons == old(failureReasons) + [if outcome.Failed? then outcome.reason else ""]
      ensures resultSets == old(resultSets) + [if outcome.Successful? then Some(outcome.result) else None]
      ensures execTimes == old(execTimes) + [if outcome.Failed? then None else Some(outcome.time)]
      ensures dbConfigs == old(dbConfigs) + [config]
    {
      match outcome {
        case Successful(result, time) =>
          failureReasons := failureReasons + [""];
          resultSets := resultSets + [Some(result)];
          execTimes := execTimes + [Some(time)];
        case TimeoutAfter(time) =>
          failureReasons := failureReasons + [""];
          resultSets := resultSets + [None];
          execTimes := execTimes + [Some(time)];
        case Failed(reason) =>
          failureReasons := failureReasons + [reason];
          resultSets := resultSets + [None];
          execTimes := execTimes + [None];
      }
      status := status + [StatusOf(outcome)];
      dbConfigs := dbConfigs + [config];
    }

    function RowAt(i: nat): Row
      requires Even() && i < |resultSets|
      reads this
    {
      Row(initialIdx + i, sqlLabel, workloadRep, i + 1, timestamps[i], status[i], resultSets[i], execTimes[i],
        failureReasons[i], dbConfigs[i])
    }

    /** `to_df`; Failure stands for the error that columns of different lengths cause. */
    function ToRows(): (rows: Result<seq<Row>>)
      reads this
      ensures rows.Failure? <==> resultSets != [] && !Even()
      ensures rows.Success? ==> |rows.value| == |resultSets|
      ensures rows.Success? && resultSets != [] ==>
        Even() && forall i :: 0 <= i < |rows.value| ==> rows.value[i] == RowAt(i)
    {
      if resultSets == [] then Success([])
      else if !Even() then Failure
      else Success(seq(|resultSets|, i requires 0 <= i < |resultSets| && Even() reads this => RowAt(i)))
    }
  }

  function StatusOf(outcome: Outcome): Status {
    match outcome case Successful(_, _) => Ok case TimeoutAfter(_) => TimedOut case Failed(_) => ExecutionError
  }

  /** `_exec_ctl_loop`; the result is false if the run is aborted. */
  method ExecCtlLoop(e: Execution, sample: ResultSample, action: ErrorAction) returns (ok: bool)
    modifies sample
    ensures ok <==> !(e.outcome.Failed? && action == Raise)
    ensures sample.timestamps == old(sample.timestamps) + [Some(e.now)]
    ensures e.outcome.Successful? ==> sample.status == old(sample.status) + [Ok]
    ensures e.outcome.TimeoutAfter? ==> sample.status == old(sample.status) + [TimedOut]
    ensures e.outcome.Failed? && action == Log ==> sample.status == old(sample.status) + [ExecutionError]
    ensures !e.outcome.Failed? || action == Log ==>
      && sample.failureReasons == old(sample.failureReasons) + [if e.outcome.Failed? then e.outcome.reason else ""]
      && sample.resultSets == old(sample.resultSets) + [if e.outcome.Successful? then Some(e.outcome.result) else None]
      && sample.execTimes == old(sample.execTimes) + [if e.outcome.Failed? then None else Some(e.outcome.time)]
      && sample.dbConfigs == old(sample.dbConfigs) + [e.config]
    ensures e.outcome.Failed? && action != Log ==>
      && sample.status == old(sample.status) && sample.failureReasons == old(sample.failureReasons)
      && sample.resultSets == old(sample.resultSets) && sample.execTimes == old(sample.execTimes)
      && sample.dbConfigs == old(sample.dbConfigs)
  {
    sample.StartExecution(e.now);
    if !e.outcome.Failed? || action == Log {
      sample.Add(e.outcome, e.config);
      return true;
    }
    return action == Ignore;
  }

  // ----- runs -----

  ghost function EarlierOf(samples: seq<ResultSample>): seq<ResultSample> {
    if samples == [] then [] else samples[..|samples| - 1]
  }

  ghost predicate EndsBy(s: ResultSample, next: int)
    reads s`resultSets
  {
    s.initialIdx + |s.resultSets| <= next
  }

  ghost predicate EndsAt(s: ResultSample, next: int)
    reads s`resultSets
  {
    s.initialIdx + |s.resultSets| == next
  }

  /** Each sample starts after the executions of the sample before it; the last one starts by `counter`. */
  ghost predicate OrderedBy(samples: seq<ResultSample>, counter: int)
    reads EarlierOf(samples)
  {
    && (forall i, j :: 0 <= i < j < |samples| ==> samples[i] != samples[j])
    && (samples != [] ==> 1 <= samples[0].initialIdx && samples[|samples| - 1].initialIdx <= counter)
    && (samples == [] ==> 1 <= counter)
    && forall i :: 0 <= i < |EarlierOf(samples)| ==> EndsBy(EarlierOf(samples)[i], samples[i + 1].initialIdx)
  }

  ghost predicate ContiguousBy(samples: seq<ResultSample>, counter: int)
    reads EarlierOf(samples)
  {
    && (forall i, j :: 0 <= i < j < |samples| ==> samples[i] != samples[j])
    && (samples != [] ==> 1 == samples[0].initialIdx && samples[|samples| - 1].initialIdx == counter)
    && (samples == [] ==> 1 == counter)
    && forall i :: 0 <= i < |EarlierOf(samples)| ==> EndsAt(EarlierOf(samples)[i], samples[i + 1].initialIdx)
  }

  lemma {:induction false} OrderedGrows(known: seq<ResultSample>, counter: int, sample: ResultSample)
    requires sample !in known && OrderedBy(known, counter)
    requires sample.initialIdx == counter + if known == [] then 0 else |known[|known| - 1].resultSets|
    ensures OrderedBy(known + [sample], sample.initialIdx)
  {
    var all := known + [sample];
    assert EarlierOf(all) == known;
    forall i | 0 <= i < |known| ensures EndsBy(known[i], all[i + 1].initialIdx) {
      if i < |known| - 1 {
        assert EndsBy(EarlierOf(known)[i], known[i + 1].initialIdx);
      }
    }
  }

  lemma {:induction false} ContiguousGrows(known: seq<ResultSample>, counter: int, sample: ResultSample)
    requires sample !in known && ContiguousBy(known, counter)
    requires sample.initialIdx == counter + if known == [] then 0 else |known[|known| - 1].resultSets|
    ensures ContiguousBy(known + [sample], sample.initialIdx)
  {
    var all := known + [sample];
    assert EarlierOf(all) == known;
    forall i | 0 <= i < |known| ensures EndsAt(known[i], all[i + 1].initialIdx) {
      if i < |known| - 1 {
        assert EndsAt(EarlierOf(known)[i], known[i + 1].initialIdx);
      }
    }
  }

  lemma {:induction false} OrderedShrinks(known: seq<ResultSample>, counter: int)
    requires known != [] && OrderedBy(known, counter)
    ensures OrderedBy(known[..|known| - 1], counter)
  {
    var less := known[..|known| - 1];
    forall i | 0 <= i < |EarlierOf(less)| ensures EndsBy(EarlierOf(less)[i], less[i + 1].initialIdx) {
      assert EndsBy(EarlierOf(known)[i], known[i + 1].initialIdx);
    }
    forall i | 0 <= i < |less| ensures less[i].initialIdx <= counter {
      StartsBy(known, counter, i);
    }
  }

  lemma {:induction false} StartsBy(known: seq<ResultSample>, counter: int, i: nat)
    requires OrderedBy(known, counter) && i < |known|
    ensures known[i].initialIdx <= counter
    decreases |known| - i
  {
    if i < |known| - 1 {
      StartsBy(known, counter, i + 1);
      assert EndsBy(EarlierOf(known)[i], known[i + 1].initialIdx);
    }
  }

  class ExecutionResults {
    const queryReps: nat
    var executionCounter: int
    var workloadRep: nat
    var samples: seq<ResultSample>

    constructor (queryReps: nat)
      ensures this.queryReps == queryReps && samples == [] && workloadRep == 0 && executionCounter == 1
      ensures Ordered() && Contiguous()
    {
      this.queryReps := queryReps;
      executionCounter, workloadRep, samples := 1, 0, [];
    }

    /** All samples but the last. */
    ghost function Earlier(): seq<ResultSample>
      reads this`samples
    {
      EarlierOf(samples)
    }

    /** Every sample starts after the executions of the sample before it. */
    ghost predicate Ordered()
      reads this`samples, this`executionCounter, Earlier()
    {
      OrderedBy(samples, executionCounter)
    }

    /** Every sample starts right after the executions of the sample before it. */
    ghost predicate Contiguous()
      reads this`samples, this`executionCounter, Earlier()
    {
      ContiguousBy(samples, executionCounter)
    }

    method NextQuery(sqlLabel: string) returns (sample: ResultSample)
      requires Ordered()
      modifies this`executionCounter, this`samples
      ensures fresh(sample) && samples == old(samples) + [sample] && Ordered()
      ensures old(Contiguous()) ==> Contiguous()
      ensures sample.initialIdx == executionCounter
      ensures executionCounter == old(executionCounter) +
        if old(samples) == [] then 0 else |old(samples)[|old(samples)| - 1].resultSets|
      ensures sample.Even() && sample.resultSets == []
      ensures sample.maxQueryReps == queryReps && sample.sqlLabel == sqlLabel
      ensures sample.workloadRep == workloadRep && workloadRep == old(workloadRep)
      ensures sample.timestamps == [] && sample.status == [] && sample.failureReasons == [] && sample.execTimes == []
      ensures sample.dbConfigs == []
    {
      if samples != [] {
        executionCounter := executionCounter + samples[|samples| - 1].NumExecutions();
      }
      sample := new ResultSample(sqlLabel, executionCounter, workloadRep, queryReps);
      hide OrderedBy;
      hide ContiguousBy;
      hide ResultSample.Even;
      ghost var known := samples;
      samples := samples + [sample];
      OrderedGrows(known, old(executionCounter), sample);
      if ContiguousBy(known, old(executionCounter)) {
        ContiguousGrows(known, old(executionCounter), sample);
      }
    }

    method NextWorkloadRepetition()
      modifies this`workloadRep
      ensures workloadRep == old(workloadRep) + 1
      ensures old(Ordered()) ==> Ordered()
    {
      workloadRep := workloadRep + 1;
    }

    method ScratchLastSample()
      requires samples != [] && Ordered()
      modifies this`samples
      ensures samples == old(samples)[..|old(samples)| - 1] && Ordered()
    {
      OrderedShrinks(samples, executionCounter);
      hide OrderedBy;
      samples := samples[..|samples| - 1];
    }
  }

  // ----- the rows of a run without scratched samples -----

  /** A query in a workload repetition. */
  datatype Job = Job(query: QueryRun, rep: nat)

  /** The row of the `i`-th repetition of a job whose first row has the index `start`. */
  function RowFor(job: Job, start: int, i: nat): Row
    requires job.query.optimizationError.Some? || i < |job.query.executions|
  {
    match job.query.optimizationError
    case Some(reason) =>
      Row(start + i, job.query.sqlLabel, job.rep, i + 1, None, OptimizationError, None, None, reason, "")
    case None =>
      var e := job.query.executions[i];
      Row(start + i, job.query.sqlLabel, job.rep, i + 1, Some(e.now), StatusOf(e.outcome),
        if e.outcome.Successful? then Some(e.outcome.result) else None,
        if e.outcome.Failed? then None else Some(e.outcome.time),
        if e.outcome.Failed? then e.outcome.reason else "", e.config)
  }

  predicate Repeated(jobs: seq<Job>, reps: nat) {
    forall j :: j in jobs ==> |j.query.executions| == reps
  }

  /** The rows of all jobs, one after the other. */
  function JobRows(jobs: seq<Job>, reps: nat): seq<Row>
    requires Repeated(jobs, reps)
  {
    if jobs == [] then []
    else
      var front, last := JobRows(jobs[..|jobs| - 1], reps), jobs[|jobs| - 1];
      front + JobPiece(last, |front| + 1)
  }

  /** The rows of one job. */
  function JobPiece(job: Job, start: int): seq<Row> {
    seq(|job.query.executions|, i requires 0 <= i < |job.query.executions| => RowFor(job, start, i))
  }

  lemma {:induction false} JobRowsLast(jobs: seq<Job>, job: Job, reps: nat)
    requires Repeated(jobs, reps) && |job.query.executions| == reps
    ensures Repeated(jobs + [job], reps)
    ensures JobRows(jobs + [job], reps) == JobRows(jobs, reps) + JobPiece(job, |JobRows(jobs, reps)| + 1)
  {
    assert (jobs + [job])[..|jobs|] == jobs;
    hide JobPiece;
  }

  /** The jobs of the first repetitions of a run. */
  function RunJobs(runs: seq<seq<QueryRun>>): seq<Job> {
    if runs == [] then []
    else RunJobs(runs[..|runs| - 1]) + WorkloadJobs(runs[|runs| - 1], |runs|)
  }

  function WorkloadJobs(queries: seq<QueryRun>, rep: nat): seq<Job> {
    seq(|queries|, i requires 0 <= i < |queries| => Job(queries[i], rep))
  }

  /** As many rows as repetitions of all jobs, numbered from 1 without gaps. */
  lemma {:induction false} JobRowsAreNumbered(jobs: seq<Job>, reps: nat)
    requires Repeated(jobs, reps)
    ensures |JobRows(jobs, reps)| == |jobs| * reps
    ensures forall k :: 0 <= k < |JobRows(jobs, reps)| ==> JobRows(jobs, reps)[k].execIndex == k + 1
  {
    if jobs != [] {
      JobRowsAreNumbered(jobs[..|jobs| - 1], reps);
      OneMore(|jobs| - 1, reps);
    }
  }

  /** Repetitions times queries. */
  lemma {:induction false} RunJobsCount(runs: seq<seq<QueryRun>>, queries: nat)
    requires forall r :: r in runs ==> |r| == queries
    ensures |RunJobs(runs)| == |runs| * queries
  {
    if runs != [] {
      var front, last := runs[..|runs| - 1], runs[|runs| - 1];
      assert last in runs;
      RunJobsCount(front, queries);
      OneMore(|front|, queries);
      assert |RunJobs(runs)| == |RunJobs(front)| + |last|;
      hide RunJobs;
    }
  }

  lemma {:induction false} OneMore(n: nat, m: nat)
    ensures (n + 1) * m == n * m + m
  {}

  /** A whole run: repetitions times queries times per-query repetitions, numbered from 1. */
  lemma {:induction false} RunRowsAreNumbered(runs: seq<seq<QueryRun>>, queries: nat, reps: nat)
    requires (forall r :: r in runs ==> |r| == queries) && Repeated(RunJobs(runs), reps)
    ensures |JobRows(RunJobs(runs), reps)| == |runs| * queries * reps
    ensures forall k :: 0 <= k < |runs| * queries * reps ==> JobRows(RunJobs(runs), reps)[k].execIndex == k + 1
  {
    RunJobsCount(runs, queries);
    JobRowsAreNumbered(RunJobs(runs), reps);
  }

  /** A row says everything about an execution of a query: which one it is and how it turned out. */
  ghost predicate Reports(row: Row, q: QueryRun, rep: nat, k: nat)
    requires k < |q.executions|
  {
    var e := q.executions[k];
    && row.sqlLabel == q.sqlLabel && row.workloadRep == rep && row.queryRep == k + 1
    && row.timestamp == (if q.optimizationError.Some? then None else Some(e.now))
    && row.config == (if q.optimizationError.Some? then "" else e.config)
    && match (q.optimizationError, e.outcome)
       case (Some(why), _) =>
         row.status == OptimizationError && row.result.None? && row.time.None? && row.reason == why
       case (None, Successful(result, time)) =>
         row.status == Ok && row.result == Some(result) && row.time == Some(time) && row.reason == ""
       case (None, TimeoutAfter(time)) =>
         row.status == TimedOut && row.result.None? && row.time == Some(time) && row.reason == ""
       case (None, Failed(why)) =>
         row.status == ExecutionError && row.result.None? && row.time.None? && row.reason == why
  }

  lemma {:induction false} PieceReports(job: Job, start: int, k: nat)
    requires k < |job.query.executions|
    ensures |JobPiece(job, start)| == |job.query.executions|
    ensures Reports(JobPiece(job, start)[k], job.query, job.rep, k) && JobPiece(job, start)[k].execIndex == start + k
  {
  }

  /** The rows of the jobs report their executions, one job after the other. */
  lemma {:induction false} JobRowsReport(jobs: seq<Job>, reps: nat, i: nat, k: nat)
    requires Repeated(jobs, reps) && i < |jobs| && k < reps
    ensures i * reps + k < |JobRows(jobs, reps)|
    ensures Reports(JobRows(jobs, reps)[i * reps + k], jobs[i].query, jobs[i].rep, k)
  {
    hide Reports;
    var front, last := jobs[..|jobs| - 1], jobs[|jobs| - 1];
    JobRowsAreNumbered(front, reps);
    JobRowsLast(front, last, reps);
    assert front + [last] == jobs;
    var start := |JobRows(front, reps)| + 1;
    PieceReports(last, start, 0);
    if i == |front| {
      PieceReports(last, start, k);
    } else {
      JobRowsReport(front, reps, i, k);
    }
    hide JobPiece;
  }

  lemma {:induction false} RunJobAt(runs: seq<seq<QueryRun>>, queries: nat, i: nat, j: nat)
    requires (forall r :: r in runs ==> |r| == queries) && i < |runs| && j < queries
    ensures |runs[i]| == queries && i * queries + j < |RunJobs(runs)|
    ensures RunJobs(runs)[i * queries + j] == Job(runs[i][j], i + 1)
  {
    var front, last := runs[..|runs| - 1], runs[|runs| - 1];
    assert last in runs;
    RunJobsCount(front, queries);
    if i < |front| {
      RunJobAt(front, queries, i, j);
    }
  }

  /** Where the row of an execution stands in a whole run, and what it says. */
  lemma {:induction false} RunRowsReport(runs: seq<seq<QueryRun>>, queries: nat, reps: nat, i: nat, j: nat, k: nat)
    returns (job: int, place: int)
    requires (forall r :: r in runs ==> |r| == queries) && Repeated(RunJobs(runs), reps)
    requires i < |runs| && j < queries && k < reps
    ensures |runs[i]| == queries && |runs[i][j].executions| == reps
    ensures job == i * queries + j && place == job * reps + k
    ensures 0 <= place < |JobRows(RunJobs(runs), reps)|
    ensures Reports(JobRows(RunJobs(runs), reps)[place], runs[i][j], i + 1, k)
  {
    hide *;
    RunJobAt(runs, queries, i, j);
    job := i * queries + j;
    assert 0 <= job by {
      NotNegative(i, queries);
    }
    JobIsRepeated(RunJobs(runs), reps, job);
    JobRowsReport(RunJobs(runs), reps, job, k);
    place := job * reps + k;
    assert 0 <= place by {
      NotNegative(job, reps);
    }
  }

  lemma {:induction false} NotNegative(n: nat, m: nat)
    ensures 0 <= n * m
  {}

  lemma {:induction false} JobIsRepeated(jobs: seq<Job>, reps: nat, i: nat)
    requires Repeated(jobs, reps) && i < |jobs|
    ensures |jobs[i].query.executions| == reps
  {
    assert jobs[i] in jobs;
  }

  /** The sample holds everything that a job yields. */
  ghost predicate Holds(s: ResultSample, job: Job, reps: nat)
    reads s
  {
    && |job.query.executions| == reps
    && s.sqlLabel == job.query.sqlLabel && s.workloadRep == job.rep
    && s.Even() && |s.resultSets| == reps
    && forall i :: 0 <= i < reps ==> s.RowAt(i) == RowFor(job, s.initialIdx, i)
  }

  /** The samples hold what the jobs yield, without gaps. */
  ghost predicate HoldsRun(results: ExecutionResults, jobs: seq<Job>)
    reads results`samples, results`executionCounter, results.samples
  {
    && results.Contiguous() && |results.samples| == |jobs|
    && forall i :: 0 <= i < |jobs| ==> Holds(results.samples[i], jobs[i], results.queryReps)
  }

  // ----- the samples of a run that ignores errors -----

  /** How many executions do not fail. */
  function Successes(es: seq<Execution>): (n: nat)
    ensures n <= |es|
  {
    if es == [] then 0 else Successes(es[..|es| - 1]) + (if es[|es| - 1].outcome.Failed? then 0 else 1)
  }

  lemma {:induction false} SuccessesByCases(es: seq<Execution>)
    ensures Successes(es) == 0 <==> forall i :: 0 <= i < |es| ==> es[i].outcome.Failed?
    ensures Successes(es) == |es| <==> forall i :: 0 <= i < |es| ==> !es[i].outcome.Failed?
  {
    if es != [] {
      var front := es[..|es| - 1];
      SuccessesByCases(front);
      assert forall i :: 0 <= i < |front| ==> front[i] == es[i];
    }
  }

  /** A query that is left under the error action `Ignore`, and the index of its first row. */
  datatype Started = Started(job: Job, start: int)

  /** What a run that ignores errors has counted. */
  datatype Ledger = Ledger(counter: int, left: seq<Started>) {
    function LastCount(): nat { if left == [] then 0 else Successes(left[|left| - 1].job.query.executions) }
  }

  predicate Dropped(job: Job) { job.query.optimizationError.Some? }

  /** Every query starts after the executions of the query left before it, once more for every query dropped in
      between. */
  function LedgerOf(jobs: seq<Job>): Ledger {
    if jobs == [] then Ledger(1, [])
    else
      var front, last := LedgerOf(jobs[..|jobs| - 1]), jobs[|jobs| - 1];
      var start := front.counter + front.LastCount();
      Ledger(start, front.left + if Dropped(last) then [] else [Started(last, start)])
  }

  lemma {:induction false} LedgerStep(jobs: seq<Job>, job: Job)
    ensures var front := LedgerOf(jobs);
      var start := front.counter + front.LastCount();
      LedgerOf(jobs + [job]) ==
        if Dropped(job) then Ledger(start, front.left) else Ledger(start, front.left + [Started(job, start)])
  {
    assert (jobs + [job])[..|jobs|] == jobs;
  }

  /** The rows of all queries that are left and of which no execution fails. */
  function LedgerRows(left: seq<Started>): seq<Row> {
    if left == [] then []
    else
      var last := left[|left| - 1];
      LedgerRows(left[..|left| - 1]) + PieceOf(last)
  }

  function PieceOf(left: Started): seq<Row> {
    var es := left.job.query.executions;
    if Successes(es) == |es| then JobPiece(left.job, left.start) else []
  }

  lemma {:induction false} LedgerRowsLast(left: seq<Started>, last: Started)
    ensures LedgerRows(left + [last]) == LedgerRows(left) + PieceOf(last)
  {
    hide PieceOf;
    assert (left + [last])[..|left|] == left;
  }

  /** If all executions fail or none does, there is a row for every success. */
  lemma {:induction false} PieceIs(left: Started)
    requires AllOrNone(left.job)
    ensures |PieceOf(left)| == Successes(left.job.query.executions)
    ensures forall k :: 0 <= k < |PieceOf(left)| ==> PieceOf(left)[k].execIndex == left.start + k
  {
    SuccessesByCases(left.job.query.executions);
    hide Successes;
  }

  /** The sample holds what is left of a job. */
  ghost predicate Kept(s: ResultSample, left: Started)
    reads s
  {
    var es := left.job.query.executions;
    && left.job.query.optimizationError.None?
    && s.initialIdx == left.start && |s.resultSets| == Successes(es)
    && (s.Even() <==> Successes(es) == |es|)
    && (s.Even() ==> forall i :: 0 <= i < |es| ==> s.RowAt(i) == RowFor(left.job, left.start, i))
  }

  ghost predicate KeepsRun(results: ExecutionResults, jobs: seq<Job>)
    reads results`samples, results`executionCounter, results.samples
  {
    && results.executionCounter == LedgerOf(jobs).counter
    && |results.samples| == |LedgerOf(jobs).left|
    && forall i :: 0 <= i < |results.samples| ==> Kept(results.samples[i], LedgerOf(jobs).left[i])
  }

  // ----- numbers -----

  ghost predicate Gapless(rows: seq<Row>) { forall k :: 0 <= k < |rows| ==> rows[k].execIndex == k + 1 }

  /** Whether a job yields rows under the error action `Ignore`. */
  predicate Yields(job: Job) { !Dropped(job) && Successes(job.query.executions) > 0 }

  /** All executions of the job fail, or none does. */
  predicate AllOrNone(job: Job) {
    || (forall i :: 0 <= i < |job.query.executions| ==> job.query.executions[i].outcome.Failed?)
    || (forall i :: 0 <= i < |job.query.executions| ==> !job.query.executions[i].outcome.Failed?)
  }

  /** The jobs that are not dropped. */
  function Survivors(jobs: seq<Job>): seq<Job> {
    if jobs == [] then []
    else
      var last := jobs[|jobs| - 1];
      Survivors(jobs[..|jobs| - 1]) + if Dropped(last) then [] else [last]
  }

  /** Whether the `j`-th job is dropped, and the last job left before it yields rows. */
  predicate CountsAgain(jobs: seq<Job>, j: nat)
    requires j < |jobs|
  {
    var before := Survivors(jobs[..j]);
    Dropped(jobs[j]) && before != [] && Yields(before[|before| - 1])
  }

  /** How often executions have been counted more than once. */
  function Recounted(jobs: seq<Job>): nat {
    if jobs == [] then 0
    else
      var front := jobs[..|jobs| - 1];
      Recounted(front) + if Dropped(jobs[|jobs| - 1]) then LedgerOf(front).LastCount() else 0
  }

  lemma {:induction false} LedgerSurvivors(jobs: seq<Job>)
    ensures |LedgerOf(jobs).left| == |Survivors(jobs)|
    ensures forall i :: 0 <= i < |Survivors(jobs)| ==>
      LedgerOf(jobs).left[i].job == Survivors(jobs)[i] && !Dropped(Survivors(jobs)[i])
  {
    if jobs != [] {
      LedgerSurvivors(jobs[..|jobs| - 1]);
    }
  }

  lemma {:induction false} RecountedIff(jobs: seq<Job>)
    ensures Recounted(jobs) > 0 <==> exists j :: 0 <= j < |jobs| && CountsAgain(jobs, j)
  {
    hide *;
    NothingCounted();
    if jobs != [] {
      var front, last, n := jobs[..|jobs| - 1], jobs[|jobs| - 1], |jobs| - 1;
      assert jobs == front + [last];
      RecountedIff(front);
      RecountedStep(front, last);
      LastCountsAgain(front, last);
      forall j | 0 <= j < n ensures CountsAgain(front, j) <==> CountsAgain(jobs, j) {
        CountsAgainSame(front, last, j);
      }
      if Recounted(front) > 0 {
        var j :| 0 <= j < |front| && CountsAgain(front, j);
        assert CountsAgain(jobs, j);
      }
      if j :| 0 <= j < |jobs| && CountsAgain(jobs, j) {
        assert j < n ==> CountsAgain(front, j);
      }
    }
  }

  lemma {:induction false} LastCountsAgain(jobs: seq<Job>, job: Job)
    ensures CountsAgain(jobs + [job], |jobs|) <==> Dropped(job) && LedgerOf(jobs).LastCount() > 0
  {
    assert (jobs + [job])[..|jobs|] == jobs;
    LedgerSurvivors(jobs);
    hide LedgerOf;
    hide Survivors;
    hide Successes;
  }

  lemma {:induction false} RecountedStep(jobs: seq<Job>, job: Job)
    ensures Recounted(jobs + [job]) == Recounted(jobs) + if Dropped(job) then LedgerOf(jobs).LastCount() else 0
    ensures Survivors(jobs + [job]) == Survivors(jobs) + if Dropped(job) then [] else [job]
  {
    hide LedgerOf;
    assert (jobs + [job])[..|jobs|] == jobs;
  }

  lemma {:induction false} NothingCounted()
    ensures LedgerOf([]) == Ledger(1, []) && LedgerRows([]) == [] && Recounted([]) == 0
  {}

  /** The counter is ahead of the rows by what has been counted more than once. */
  lemma {:induction false} LedgerCounts(jobs: seq<Job>)
    requires forall j :: j in Survivors(jobs) ==> AllOrNone(j)
    ensures var a := LedgerOf(jobs); a.counter + a.LastCount() == 1 + |LedgerRows(a.left)| + Recounted(jobs)
  {
    if jobs == [] {
      NothingCounted();
    } else {
      var front, last := jobs[..|jobs| - 1], jobs[|jobs| - 1];
      assert jobs == front + [last];
      hide LedgerOf;
      hide LedgerRows;
      hide Recounted;
      hide Survivors;
      hide AllOrNone;
      hide Successes;
      hide PieceOf;
      RecountedStep(front, last);
      LedgerCounts(front);
      LedgerStep(front, last);
      if !Dropped(last) {
        var a := LedgerOf(front);
        var x := Started(last, a.counter + a.LastCount());
        PieceIs(x);
        LedgerRowsLast(a.left, x);
      }
    }
  }

  lemma {:induction false} GaplessAppend(rows: seq<Row>, piece: seq<Row>, start: int, ahead: nat)
    requires start == 1 + |rows| + ahead
    requires forall k :: 0 <= k < |piece| ==> piece[k].execIndex == start + k
    ensures Gapless(rows + piece) <==> Gapless(rows) && (piece == [] || ahead == 0)
  {
    var all := rows + piece;
    assert forall k :: 0 <= k < |rows| ==> all[k] == rows[k];
    assert forall k :: 0 <= k < |piece| ==> all[|rows| + k] == piece[k];
    if Gapless(all) && piece != [] {
      assert all[|rows|].execIndex == |rows| + 1;
    }
    if Gapless(rows) && ahead == 0 {
      forall k | 0 <= k < |all| ensures all[k].execIndex == k + 1 {
        if k >= |rows| {
          assert all[k] == piece[k - |rows|];
        }
      }
    }
  }

  lemma {:induction false} NoGap()
    ensures Gapless(LedgerRows(LedgerOf([]).left))
  {}

  lemma {:induction false} GapStep(jobs: seq<Job>, job: Job)
    requires forall j :: j in Survivors(jobs + [job]) ==> AllOrNone(j)
    ensures forall j :: j in Survivors(jobs) ==> AllOrNone(j)
    ensures Gapless(LedgerRows(LedgerOf(jobs + [job]).left)) <==>
      Gapless(LedgerRows(LedgerOf(jobs).left)) && (!Yields(job) || Recounted(jobs) == 0)
  {
    hide LedgerOf;
    hide LedgerRows;
    hide Recounted;
    hide Survivors;
    hide AllOrNone;
    hide Successes;
    hide PieceOf;
    hide Gapless;
    RecountedStep(jobs, job);
    LedgerCounts(jobs);
    LedgerStep(jobs, job);
    if !Dropped(job) {
      var a := LedgerOf(jobs);
      var x := Started(job, a.counter + a.LastCount());
      PieceIs(x);
      LedgerRowsLast(a.left, x);
      GaplessAppend(LedgerRows(a.left), PieceOf(x), x.start, Recounted(jobs));
    }
  }

  /** A dropped query stands right after a query with rows, and somewhere before another one. */
  ghost predicate HasGap(jobs: seq<Job>) {
    exists j, k :: 0 <= j < k < |jobs| && CountsAgain(jobs, j) && Yields(jobs[k])
  }

  lemma {:induction false} GapInPrefix(jobs: seq<Job>, job: Job, j: nat, k: nat)
    requires j < k < |jobs| && CountsAgain(jobs, j) && Yields(jobs[k])
    ensures HasGap(jobs + [job])
  {
    hide CountsAgain;
    hide Yields;
    CountsAgainSame(jobs, job, j);
    assert (jobs + [job])[k] == jobs[k];
  }

  lemma {:induction false} GapAtEnd(jobs: seq<Job>, job: Job, j: nat)
    requires j < |jobs| && CountsAgain(jobs, j) && Yields(job)
    ensures HasGap(jobs + [job])
  {
    hide CountsAgain;
    hide Yields;
    CountsAgainSame(jobs, job, j);
    assert (jobs + [job])[|jobs|] == job;
  }

  lemma {:induction false} GapFrom(jobs: seq<Job>, job: Job, j: nat, k: nat)
    requires j < k <= |jobs| && CountsAgain(jobs + [job], j) && Yields((jobs + [job])[k])
    ensures HasGap(jobs) || (Yields(job) && CountsAgain(jobs, j))
  {
    hide CountsAgain;
    hide Yields;
    CountsAgainSame(jobs, job, j);
    assert k < |jobs| ==> (jobs + [job])[k] == jobs[k];
  }

  lemma {:induction false} HasGapStep(jobs: seq<Job>, job: Job)
    ensures HasGap(jobs + [job]) <==> HasGap(jobs) || (Yields(job) && Recounted(jobs) > 0)
  {
    RecountedIff(jobs);
    hide CountsAgain;
    hide Yields;
    hide Recounted;
    var all := jobs + [job];
    if HasGap(all) {
      var j, k :| 0 <= j < k < |all| && CountsAgain(all, j) && Yields(all[k]);
      GapFrom(jobs, job, j, k);
    }
    if HasGap(jobs) {
      var j, k :| 0 <= j < k < |jobs| && CountsAgain(jobs, j) && Yields(jobs[k]);
      GapInPrefix(jobs, job, j, k);
    }
    if Yields(job) && Recounted(jobs) > 0 {
      var j :| 0 <= j < |jobs| && CountsAgain(jobs, j);
      GapAtEnd(jobs, job, j);
    }
  }

  /** Rows are numbered without gaps iff no dropped query stands between the rows of two others, right after a query
      with rows. */
  lemma {:induction false} GapsExactly(jobs: seq<Job>)
    requires forall j :: j in Survivors(jobs) ==> AllOrNone(j)
    ensures Gapless(LedgerRows(LedgerOf(jobs).left)) <==> !HasGap(jobs)
  {
    if jobs == [] {
      NoGap();
    } else {
      var front, last := jobs[..|jobs| - 1], jobs[|jobs| - 1];
      assert jobs == front + [last];
      hide *;
      GapStep(front, last);
      GapsExactly(front);
      HasGapStep(front, last);
    }
  }

  lemma {:induction false} CountsAgainSame(jobs: seq<Job>, job: Job, j: nat)
    requires j < |jobs|
    ensures CountsAgain(jobs, j) <==> CountsAgain(jobs + [job], j)
  {
    assert (jobs + [job])[..j] == jobs[..j];
    hide Survivors;
  }

  /** A query that fails under the error action `Raise`. */
  predicate Fails(q: QueryRun) {
    q.optimizationError.Some? || exists i :: 0 <= i < |q.executions| && q.executions[i].outcome.Failed?
  }

  // ----- control loops -----

  /** The repetitions of one query. */
  method RepeatQuery(q: QueryRun, sample: ResultSample, action: ErrorAction, ghost rep: nat) returns (ok: bool)
    requires sample.Even() && sample.resultSets == [] && q.optimizationError.None?
    requires sample.sqlLabel == q.sqlLabel && sample.workloadRep == rep
    modifies sample
    ensures action != Ignore && ok ==> Holds(sample, Job(q, rep), |q.executions|)
    ensures action != Raise ==> ok
    ensures ok && action == Raise ==> !Fails(q)
    ensures !ok ==> Fails(q)
    ensures action == Ignore ==> Kept(sample, Started(Job(q, rep), sample.initialIdx))
  {
    ghost var job := Job(q, rep);
    for i := 0 to |q.executions|
      invariant sample.OutcomesEven() && |sample.timestamps| == i && |sample.resultSets| <= i
      invariant sample.Even() <==> action == Log || forall j :: 0 <= j < i ==> !q.executions[j].outcome.Failed?
      invariant action == Ignore ==> |sample.resultSets| == Successes(q.executions[..i])
      invariant action == Raise ==> sample.Even()
      invariant sample.Even() ==> forall j :: 0 <= j < i ==> sample.RowAt(j) == RowFor(job, sample.initialIdx, j)
    {
      assert q.executions[..i + 1][..i] == q.executions[..i];
      ok := ExecCtlLoop(q.executions[i], sample, action);
      if !ok {
        return;
      }
    }
    ok := true;
    assert q.executions[..|q.executions|] == q.executions;
    SuccessesByCases(q.executions);
  }

  /** `_workload_ctl_loop`; the result is false if the run is aborted. */
  method WorkloadCtlLoop(queries: seq<QueryRun>, results: ExecutionResults, action: ErrorAction, ghost jobs: seq<Job>)
    returns (ok: bool)
    requires forall q :: q in queries ==> |q.executions| == results.queryReps
    requires results.Ordered() && (action != Ignore ==> HoldsRun(results, jobs))
    requires action == Ignore ==> KeepsRun(results, jobs)
    modifies results
    ensures results.Ordered() && results.workloadRep == old(results.workloadRep)
    ensures action == Ignore ==> KeepsRun(results, jobs + WorkloadJobs(queries, results.workloadRep))
    ensures !ok ==> exists q :: q in queries && Fails(q)
    ensures action != Raise ==> ok
    ensures ok && action != Ignore ==> HoldsRun(results, jobs + WorkloadJobs(queries, results.workloadRep))
    ensures ok && action == Raise ==> forall q :: q in queries ==> !Fails(q)
  {
    hide ExecutionResults.Ordered;
    hide HoldsRun;
    hide KeepsRun;
    hide Fails;
    ghost var rep := results.workloadRep;
    ok := true;
    assert jobs + WorkloadJobs(queries[..0], rep) == jobs;
    for i := 0 to |queries|
      invariant results.Ordered() && results.workloadRep == rep
      invariant action != Ignore ==> HoldsRun(results, jobs + WorkloadJobs(queries[..i], rep))
      invariant action == Ignore ==> KeepsRun(results, jobs + WorkloadJobs(queries[..i], rep))
      invariant action == Raise ==> forall j :: 0 <= j < i ==> !Fails(queries[j])
    {
      var q := queries[i];
      assert q in queries;
      NextJob(queries, i, rep, jobs);
      var goOn := RunQuery(q, results, action, jobs + WorkloadJobs(queries[..i], rep));
      if !goOn {
        return false;
      }
    }
    assert queries[..|queries|] == queries;
  }

  lemma {:induction false} NextJob(queries: seq<QueryRun>, i: nat, rep: nat, jobs: seq<Job>)
    requires i < |queries|
    ensures jobs + WorkloadJobs(queries[..i + 1], rep)
         == jobs + WorkloadJobs(queries[..i], rep) + [Job(queries[i], rep)]
  {}

  /** One turn of the loop of `_workload_ctl_loop`: the query is optimized and repeated. */
  method RunQuery(q: QueryRun, results: ExecutionResults, action: ErrorAction, ghost jobs: seq<Job>) returns (ok: bool)
    requires |q.executions| == results.queryReps
    requires results.Ordered() && (action != Ignore ==> HoldsRun(results, jobs))
    requires action == Ignore ==> KeepsRun(results, jobs)
    modifies results
    ensures results.Ordered() && results.workloadRep == old(results.workloadRep)
    ensures action == Ignore ==> KeepsRun(results, jobs + [Job(q, results.workloadRep)])
    ensures !ok ==> Fails(q)
    ensures action != Raise ==> ok
    ensures ok && action != Ignore ==> HoldsRun(results, jobs + [Job(q, results.workloadRep)])
    ensures ok && action == Raise ==> !Fails(q)
  {
    hide *;
    ghost var rep, known := results.workloadRep, results.samples;
    if action == Ignore {
      KeepsParts(results, jobs);
    } else {
      HoldsParts(results, jobs);
    }
    var sample := results.NextQuery(q.sqlLabel);
    EarlierIs(results, known, sample);
    if q.optimizationError.Some? {
      ok := RecordFailure(q, sample, results, action, rep);
    } else {
      ok := RepeatQuery(q, sample, action, rep);
    }
    if ok && action != Ignore {
      OneMoreHolds(results, known, sample, jobs, Job(q, rep));
    }
    if action == Ignore {
      OneMoreKept(results, known, sample, jobs, Job(q, rep));
    }
  }

  lemma {:induction false} EarlierIs(results: ExecutionResults, known: seq<ResultSample>, sample: ResultSample)
    requires results.samples == known + [sample] && results.Ordered()
    ensures results.Earlier() == known && sample !in known
    ensures (set s | s in results.Earlier()) == set s | s in known
  {}

  lemma {:induction false} HoldsParts(results: ExecutionResults, jobs: seq<Job>)
    requires HoldsRun(results, jobs)
    ensures results.Contiguous() && |results.samples| == |jobs|
    ensures forall i :: 0 <= i < |jobs| ==> Holds(results.samples[i], jobs[i], results.queryReps)
  {
    hide Holds;
    hide ExecutionResults.Contiguous;
  }

  lemma {:induction false} KeepsParts(results: ExecutionResults, jobs: seq<Job>)
    requires KeepsRun(results, jobs)
    ensures var a := LedgerOf(jobs);
      && results.executionCounter == a.counter && |results.samples| == |a.left|
      && (forall i :: 0 <= i < |a.left| ==> Kept(results.samples[i], a.left[i]))
      && a.LastCount() == if results.samples == [] then 0 else |results.samples[|results.samples| - 1].resultSets|
  {
    CountKept(results, jobs);
    hide Kept;
    hide LedgerOf;
  }

  lemma {:induction false} CountKept(results: ExecutionResults, jobs: seq<Job>)
    requires KeepsRun(results, jobs)
    ensures LedgerOf(jobs).LastCount()
         == if results.samples == [] then 0 else |results.samples[|results.samples| - 1].resultSets|
  {
    hide LedgerOf;
    hide ResultSample.Even;
    hide ResultSample.RowAt;
    hide RowFor;
  }

  lemma {:induction false} OneMoreKept(results: ExecutionResults, known: seq<ResultSample>, sample: ResultSample,
      jobs: seq<Job>, job: Job)
    requires var a := LedgerOf(jobs);
      && |known| == |a.left| && (forall i :: 0 <= i < |known| ==> Kept(known[i], a.left[i]))
      && results.executionCounter == a.counter + a.LastCount()
    requires results.samples == if job.query.optimizationError.Some? then known else known + [sample]
    requires job.query.optimizationError.None? ==>
      sample.initialIdx == results.executionCounter && Kept(sample, Started(job, sample.initialIdx))
    ensures KeepsRun(results, jobs + [job])
  {
    hide Kept;
    hide LedgerOf;
    LedgerStep(jobs, job);
  }

  /** A failed optimization is recorded, aborts the run, or is dropped with its sample. */
  method RecordFailure(q: QueryRun, sample: ResultSample, results: ExecutionResults, action: ErrorAction,
      ghost rep: nat)
    returns (ok: bool)
    requires q.optimizationError.Some? && |q.executions| == results.queryReps && results.Ordered()
    requires results.samples != [] && sample == results.samples[|results.samples| - 1] && sample !in results.Earlier()
    requires sample.sqlLabel == q.sqlLabel && sample.workloadRep == rep && sample.maxQueryReps == results.queryReps
    requires sample.timestamps == [] && sample.status == [] && sample.failureReasons == [] && sample.execTimes == []
    requires sample.dbConfigs == [] && sample.resultSets == []
    modifies sample, results`samples
    ensures results.Ordered() && (ok <==> action != Raise)
    ensures results.samples == if action == Ignore then old(results.Earlier()) else old(results.samples)
    ensures action == Log ==> Holds(sample, Job(q, rep), results.queryReps)
    ensures Fails(q)
  {
    hide ExecutionResults.Ordered;
    hide Holds;
    sample.OptimizationFailure(q.optimizationError.value);
    if action == Log {
      FailureHolds(sample, q, rep, results.queryReps);
    }
    if action == Ignore {
      results.ScratchLastSample();
    }
    ok := action != Raise;
  }

  lemma {:induction false} FailureHolds(s: ResultSample, q: QueryRun, rep: nat, reps: nat)
    requires q.optimizationError.Some? && |q.executions| == reps && s.sqlLabel == q.sqlLabel && s.workloadRep == rep
    requires s.timestamps == Repeat(reps, None) && s.execTimes == Repeat(reps, None)
    requires s.status == Repeat(reps, OptimizationError)
    requires s.failureReasons == Repeat(reps, q.optimizationError.value) && s.resultSets == Repeat(reps, None)
    requires s.dbConfigs == Repeat(reps, "")
    ensures Holds(s, Job(q, rep), reps)
  {}

  lemma {:induction false} OneMoreHolds(results: ExecutionResults, known: seq<ResultSample>, sample: ResultSample,
      jobs: seq<Job>, job: Job)
    requires results.samples == known + [sample] && results.Contiguous() && |known| == |jobs|
    requires forall i :: 0 <= i < |jobs| ==> Holds(known[i], jobs[i], results.queryReps)
    requires Holds(sample, job, results.queryReps)
    ensures HoldsRun(results, jobs + [job])
  {
    hide Holds;
    hide ExecutionResults.Contiguous;
  }

  // ----- the result table -----

  ghost predicate Increasing(rows: seq<Row>) {
    forall i, j :: 0 <= i < j < |rows| ==> rows[i].execIndex < rows[j].execIndex
  }

  /** The rows of the first `n` samples; samples that have none, or whose lists differ in length, are left out. */
  ghost function Pieces(samples: seq<ResultSample>, n: nat): seq<Row>
    requires n <= |samples|
    reads samples
  {
    if n == 0 then []
    else Pieces(samples, n - 1) + (if samples[n - 1].ToRows().Success? then samples[n - 1].ToRows().value else [])
  }

  /** The pieces of `to_df` are put together; Failure stands for the errors that no pieces, and pieces with columns
      of different lengths, cause. */
  method ToRows(results: ExecutionResults) returns (rows: Result<seq<Row>>)
    ensures rows.Failure? <==>
      results.samples == [] || exists s :: s in results.samples && s.resultSets != [] && !s.Even()
    ensures rows.Success? ==> rows.value == Pieces(results.samples, |results.samples|)
  {
    hide ResultSample.Even;
    hide ResultSample.RowAt;
    if results.samples == [] {
      return Failure;
    }
    var all: seq<Row> := [];
    for i := 0 to |results.samples|
      invariant forall j :: 0 <= j < i ==> results.samples[j].resultSets == [] || results.samples[j].Even()
      invariant all == Pieces(results.samples, i)
    {
      var sample := results.samples[i];
      assert sample in results.samples;
      var piece := sample.ToRows();
      if piece.Failure? {
        return Failure;
      }
      all := all + piece.value;
    }
    return Success(all);
  }

  /** The smallest index that the `i`-th sample can use. */
  ghost function NextIndex(results: ExecutionResults, i: nat): int
    requires i <= |results.samples|
    reads results`samples, results.samples
  {
    if i < |results.samples| then results.samples[i].initialIdx
    else if i == 0 then 1
    else results.samples[i - 1].initialIdx + |results.samples[i - 1].resultSets|
  }

  lemma {:induction false} PiecesIncrease(results: ExecutionResults, n: nat)
    requires results.Ordered() && n <= |results.samples|
    ensures Increasing(Pieces(results.samples, n))
    ensures forall k :: 0 <= k < |Pieces(results.samples, n)| ==>
      Pieces(results.samples, n)[k].execIndex < NextIndex(results, n)
  {
    if n > 0 {
      PiecesIncrease(results, n - 1);
      var s := results.samples[n - 1];
      var all := Pieces(results.samples, n - 1);
      if s.ToRows().Success? {
        SampleIndexes(s);
        IndexesGrow(results, n - 1);
        var piece := s.ToRows().value;
        hide Pieces;
        hide ExecutionResults.Ordered;
        hide ResultSample.ToRows;
        IncreasingAppend(all, piece, s.initialIdx, NextIndex(results, n));
      } else {
        IndexesGrow(results, n - 1);
      }
    }
  }

  lemma {:induction false} SampleIndexes(s: ResultSample)
    requires s.ToRows().Success?
    ensures |s.ToRows().value| == |s.resultSets|
    ensures forall k :: 0 <= k < |s.resultSets| ==> s.ToRows().value[k].execIndex == s.initialIdx + k
  {}

  lemma {:induction false} IndexesGrow(results: ExecutionResults, i: nat)
    requires results.Ordered() && i < |results.samples|
    ensures NextIndex(results, i) == results.samples[i].initialIdx
    ensures results.samples[i].initialIdx + |results.samples[i].resultSets| <= NextIndex(results, i + 1)
  {
    if i + 1 < |results.samples| {
      assert results.Earlier()[i] == results.samples[i];
    }
  }

  lemma {:induction false} IncreasingAppend(all: seq<Row>, piece: seq<Row>, start: int, next: int)
    requires Increasing(all) && forall k :: 0 <= k < |all| ==> all[k].execIndex < start
    requires forall k :: 0 <= k < |piece| ==> piece[k].execIndex == start + k
    requires start + |piece| <= next
    ensures Increasing(all + piece) && forall k :: 0 <= k < |all + piece| ==> (all + piece)[k].execIndex < next
  {}

  /** The samples of a run without dropped executions yield the rows of its jobs. */
  lemma {:induction false} PiecesAreJobRows(results: ExecutionResults, jobs: seq<Job>, n: nat)
    requires HoldsRun(results, jobs) && n <= |jobs| == |results.samples|
    ensures Repeated(jobs[..n], results.queryReps)
    ensures Pieces(results.samples, n) == JobRows(jobs[..n], results.queryReps)
  {
    hide *;
    var reps := results.queryReps;
    NoPieces(results.samples);
    NoJobRows(reps);
    if n > 0 {
      HoldsParts(results, jobs);
      var s, job := results.samples[n - 1], jobs[n - 1];
      PiecesAreJobRows(results, jobs, n - 1);
      PiecesStep(results.samples, n);
      StartOf(results, jobs, n - 1);
      JobRowsAreNumbered(jobs[..n - 1], reps);
      HeldRows(s, job, reps);
      JobRowsLast(jobs[..n - 1], job, reps);
      assert jobs[..n] == jobs[..n - 1] + [job];
    }
  }

  lemma {:induction false} NoJobRows(reps: nat)
    ensures Repeated([], reps) && JobRows([], reps) == []
  {}

  lemma {:induction false} HeldRows(s: ResultSample, job: Job, reps: nat)
    requires Holds(s, job, reps)
    ensures s.ToRows().Success? && |job.query.executions| == reps
    ensures s.ToRows().value == JobPiece(job, s.initialIdx)
  {
    hide RowFor;
    hide ResultSample.RowAt;
  }

  lemma {:induction false} StartOf(results: ExecutionResults, jobs: seq<Job>, i: nat)
    requires HoldsRun(results, jobs) && i < |jobs|
    ensures results.samples[i].initialIdx == i * results.queryReps + 1
  {
    if i > 0 {
      StartOf(results, jobs, i - 1);
      OneMore(i - 1, results.queryReps);
      assert Holds(results.samples[i - 1], jobs[i - 1], results.queryReps);
      assert results.Earlier()[i - 1] == results.samples[i - 1];
    }
  }

  /** All samples are even if they hold what their jobs yield. */
  lemma {:induction false} HeldAreEven(results: ExecutionResults, jobs: seq<Job>)
    requires HoldsRun(results, jobs)
    ensures results.samples == [] <==> jobs == []
    ensures forall s :: s in results.samples ==> s.Even()
  {
    forall s | s in results.samples ensures s.Even() {
      var i :| 0 <= i < |results.samples| && results.samples[i] == s;
      assert Holds(results.samples[i], jobs[i], results.queryReps);
    }
  }

  // ----- whole runs -----

  predicate NoneFails(jobs: seq<Job>) { forall j :: j in jobs ==> !Fails(j.query) }

  lemma {:induction false} RunStep(runs: seq<seq<QueryRun>>, i: nat)
    requires i < |runs|
    ensures RunJobs(runs[..i + 1]) == RunJobs(runs[..i]) + WorkloadJobs(runs[i], i + 1)
  {
    assert runs[..i + 1][..i] == runs[..i];
    hide WorkloadJobs;
  }

  lemma {:induction false} JobOfRun(runs: seq<seq<QueryRun>>, job: Job)
    ensures job in RunJobs(runs) <==> exists i :: 0 <= i < |runs| && job in WorkloadJobs(runs[i], i + 1)
  {
    if runs != [] {
      var front := runs[..|runs| - 1];
      JobOfRun(front, job);
      assert forall i :: 0 <= i < |front| ==> front[i] == runs[i];
      hide WorkloadJobs;
    }
  }

  lemma {:induction false} JobsOfRuns(runs: seq<seq<QueryRun>>, reps: nat)
    requires forall r, q :: r in runs && q in r ==> |q.executions| == reps
    ensures Repeated(RunJobs(runs), reps)
  {
    forall j | j in RunJobs(runs) ensures |j.query.executions| == reps {
      JobOfRun(runs, j);
      var i :| 0 <= i < |runs| && j in WorkloadJobs(runs[i], i + 1);
      assert runs[i] in runs && j.query in runs[i];
    }
  }

  lemma {:induction false} SomeFails(runs: seq<seq<QueryRun>>, i: nat)
    requires i < |runs| && exists q :: q in runs[i] && Fails(q)
    ensures !NoneFails(RunJobs(runs)) && RunJobs(runs) != []
  {
    hide Fails;
    hide RunJobs;
    var q :| q in runs[i] && Fails(q);
    var k :| 0 <= k < |runs[i]| && runs[i][k] == q;
    var job := Job(q, i + 1);
    assert WorkloadJobs(runs[i], i + 1)[k] == job;
    JobOfRun(runs, job);
  }

  /** The samples that are left make a table iff each of their queries fails in all executions or in none. */
  lemma {:induction false} KeptRows(results: ExecutionResults, jobs: seq<Job>)
    requires KeepsRun(results, jobs)
    ensures results.samples == [] <==> Survivors(jobs) == []
    ensures (exists s :: s in results.samples && s.resultSets != [] && !s.Even())
       <==> exists j :: j in Survivors(jobs) && !AllOrNone(j)
  {
    LedgerSurvivors(jobs);
    hide LedgerOf;
    hide Survivors;
    hide ResultSample.Even;
    hide ResultSample.RowAt;
    hide RowFor;
    hide AllOrNone;
    var left := Survivors(jobs);
    forall i | 0 <= i < |left|
      ensures results.samples[i].resultSets != [] && !results.samples[i].Even() <==> !AllOrNone(left[i])
    {
      assert Kept(results.samples[i], LedgerOf(jobs).left[i]);
      AllOrNoneBySuccesses(left[i]);
    }
    hide KeepsRun;
    assert |left| == |results.samples|;
    if s :| s in results.samples && s.resultSets != [] && !s.Even() {
      var i :| 0 <= i < |left| && results.samples[i] == s;
      assert left[i] in left;
    }
    if j :| j in left && !AllOrNone(j) {
      var i :| 0 <= i < |left| && left[i] == j;
      assert results.samples[i] in results.samples;
    }
  }

  lemma {:induction false} AllOrNoneBySuccesses(job: Job)
    ensures var es := job.query.executions; AllOrNone(job) <==> Successes(es) == 0 || Successes(es) == |es|
  {
    SuccessesByCases(job.query.executions);
  }

  /** The table has the rows of the queries that are left. */
  lemma {:induction false} PiecesAreLedgerRows(results: ExecutionResults, jobs: seq<Job>, n: nat)
    requires KeepsRun(results, jobs) && n <= |results.samples| == |LedgerOf(jobs).left|
    ensures Pieces(results.samples, n) == LedgerRows(LedgerOf(jobs).left[..n])
  {
    hide *;
    var left := LedgerOf(jobs).left;
    NothingCounted();
    NoPieces(results.samples);
    if n > 0 {
      KeepsParts(results, jobs);
      PiecesAreLedgerRows(results, jobs, n - 1);
      PiecesStep(results.samples, n);
      KeptPiece(results.samples[n - 1], left[n - 1]);
      LedgerRowsLast(left[..n - 1], left[n - 1]);
      assert left[..n] == left[..n - 1] + [left[n - 1]];
    }
  }

  lemma {:induction false} NoPieces(samples: seq<ResultSample>)
    ensures Pieces(samples, 0) == []
  {}

  lemma {:induction false} PiecesStep(samples: seq<ResultSample>, n: nat)
    requires 0 < n <= |samples|
    ensures var s := samples[n - 1];
      Pieces(samples, n) == Pieces(samples, n - 1) + if s.ToRows().Success? then s.ToRows().value else []
  {
    hide ResultSample.ToRows;
  }

  lemma {:induction false} KeptPiece(s: ResultSample, left: Started)
    requires Kept(s, left)
    ensures (if s.ToRows().Success? then s.ToRows().value else []) == PieceOf(left)
  {
    hide RowFor;
    hide ResultSample.RowAt;
    SuccessesByCases(left.job.query.executions);
  }

  /** The repetition loop of `execute_workload`; the result is false if the run is aborted. */
  method RepeatWorkload(runs: seq<seq<QueryRun>>, results: ExecutionResults, action: ErrorAction) returns (ok: bool)
    requires forall r, q :: r in runs && q in r ==> |q.executions| == results.queryReps
    requires results.Ordered() && results.Contiguous() && results.workloadRep == 0 && results.samples == []
    requires results.executionCounter == 1
    modifies results
    ensures results.Ordered()
    ensures !ok ==> action == Raise && !NoneFails(RunJobs(runs)) && RunJobs(runs) != []
    ensures ok && action != Ignore ==> HoldsRun(results, RunJobs(runs))
    ensures ok && action == Ignore ==> KeepsRun(results, RunJobs(runs))
    ensures ok && action == Raise ==> NoneFails(RunJobs(runs))
  {
    hide *;
    assert runs[..0] == [];
    NoJobs(results);
    NothingFails();
    for i := 0 to |runs|
      invariant results.Ordered() && results.workloadRep == i
      invariant action != Ignore ==> HoldsRun(results, RunJobs(runs[..i]))
      invariant action == Ignore ==> KeepsRun(results, RunJobs(runs[..i]))
      invariant action == Raise ==> NoneFails(RunJobs(runs[..i]))
    {
      assert runs[i] in runs;
      RunStep(runs, i);
      results.NextWorkloadRepetition();
      ok := WorkloadCtlLoop(runs[i], results, action, RunJobs(runs[..i]));
      if !ok {
        SomeFails(runs, i);
        return;
      }
      if action == Raise {
        NoneFailsAppend(RunJobs(runs[..i]), runs[i], i + 1);
      }
    }
    assert runs[..|runs|] == runs;
    ok := true;
  }

  lemma {:induction false} NoneFailsAppend(jobs: seq<Job>, queries: seq<QueryRun>, rep: nat)
    requires NoneFails(jobs) && forall q :: q in queries ==> !Fails(q)
    ensures NoneFails(jobs + WorkloadJobs(queries, rep))
  {
    hide Fails;
    forall j | j in WorkloadJobs(queries, rep) ensures j.query in queries {}
  }

  lemma {:induction false} NothingFails()
    ensures NoneFails(RunJobs([]))
  {}

  lemma {:induction false} NoJobs(results: ExecutionResults)
    requires results.samples == [] && results.executionCounter == 1 && results.Contiguous()
    ensures HoldsRun(results, RunJobs([])) && KeepsRun(results, RunJobs([]))
  {}

  /** `execute_workload`, from its repetition loop on. Failure stands for a run that raises an error. */
  method ExecuteWorkload(runs: seq<seq<QueryRun>>, reps: nat, action: ErrorAction) returns (rows: Result<seq<Row>>)
    requires forall r, q :: r in runs && q in r ==> |q.executions| == reps
    ensures RunJobs(runs) == [] ==> rows.Failure?
    ensures Repeated(RunJobs(runs), reps)
    ensures action == Log && RunJobs(runs) != [] ==> rows == Success(JobRows(RunJobs(runs), reps))
    ensures action == Raise && RunJobs(runs) != [] ==>
      rows == if NoneFails(RunJobs(runs)) then Success(JobRows(RunJobs(runs), reps)) else Failure
    ensures action == Ignore ==>
      (rows.Success? <==> Survivors(RunJobs(runs)) != [] && forall j :: j in Survivors(RunJobs(runs)) ==> AllOrNone(j))
    ensures action == Ignore && rows.Success? ==> rows.value == LedgerRows(LedgerOf(RunJobs(runs)).left)
    ensures rows.Success? ==> Increasing(rows.value)
  {
    hide *;
    JobsOfRuns(runs, reps);
    var results := new ExecutionResults(reps);
    var ok := RepeatWorkload(runs, results, action);
    if !ok {
      return Failure;
    }
    NoSurvivors();
    PiecesIncrease(results, |results.samples|);
    if action == Ignore {
      KeptRows(results, RunJobs(runs));
      KeptCount(results, RunJobs(runs));
      PiecesAreLedgerRows(results, RunJobs(runs), |results.samples|);
    } else {
      HeldAreEven(results, RunJobs(runs));
      HeldCount(results, RunJobs(runs));
      assert RunJobs(runs)[..|RunJobs(runs)|] == RunJobs(runs);
      PiecesAreJobRows(results, RunJobs(runs), |RunJobs(runs)|);
    }
    rows := ToRows(results);
  }

  lemma {:induction false} KeptCount(results: ExecutionResults, jobs: seq<Job>)
    requires KeepsRun(results, jobs)
    ensures |results.samples| == |LedgerOf(jobs).left|
    ensures LedgerOf(jobs).left[..|results.samples|] == LedgerOf(jobs).left
  {
    hide LedgerOf;
  }

  lemma {:induction false} HeldCount(results: ExecutionResults, jobs: seq<Job>)
    requires HoldsRun(results, jobs)
    ensures |results.samples| == |jobs|
  {}

  lemma {:induction false} NoSurvivors()
    ensures Survivors([]) == []
  {}

  /** A dropped query leaves a gap in the numbers: its predecessor's executions are counted again. */
  method DroppedQueryLeavesGap(e: Execution, reason: string) returns (rows: Result<seq<Row>>)
    requires e.outcome.Successful?
    ensures rows.Success? && |rows.value| == 2
    ensures rows.value[0].execIndex == 1 && rows.value[1].execIndex == 3
  {
    hide *;
    var results := new ExecutionResults(1);
    var good, bad := QueryRun("good", None, [e]), QueryRun("bad", Some(reason), [e]);
    var first := RunGood(good, results);
    Drop(bad, results);
    var third := RunGood(good, results);
    TwoPieces(first, third);
    assert results.samples == [first, third];
    assert forall s :: s in results.samples ==> s == first || s == third;
    rows := ToRows(results);
  }

  lemma {:induction false} TwoPieces(a: ResultSample, b: ResultSample)
    requires a.Even() && b.Even() && |a.resultSets| == 1 && |b.resultSets| == 1
    ensures |Pieces([a, b], 2)| == 2
    ensures Pieces([a, b], 2)[0].execIndex == a.initialIdx && Pieces([a, b], 2)[1].execIndex == b.initialIdx
  {
    SampleIndexes(a);
    SampleIndexes(b);
    hide ResultSample.RowAt;
    hide ResultSample.Even;
    assert Pieces([a, b], 1) == [] + a.ToRows().value;
    assert Pieces([a, b], 2) == [] + a.ToRows().value + b.ToRows().value;
  }

  /** A query whose optimization fails, under the error action `Ignore`. */
  method Drop(bad: QueryRun, results: ExecutionResults)
    requires bad.optimizationError.Some? && |bad.executions| == results.queryReps && results.Ordered()
    modifies results`executionCounter, results`samples
    ensures results.samples == old(results.samples) && results.Ordered()
    ensures results.executionCounter == old(results.executionCounter) +
      if old(results.samples) == [] then 0 else |old(results.samples[|results.samples| - 1].resultSets)|
  {
    var sample := results.NextQuery(bad.sqlLabel);
    assert results.Earlier() == old(results.samples) && sample !in old(results.samples);
    hide ExecutionResults.Ordered;
    var ok := RecordFailure(bad, sample, results, Ignore, sample.workloadRep);
  }

  method RunGood(good: QueryRun, results: ExecutionResults) returns (sample: ResultSample)
    requires good.optimizationError.None? && |good.executions| == 1 && good.executions[0].outcome.Successful?
    requires results.Ordered() && results.queryReps == 1
    modifies results`executionCounter, results`samples
    ensures fresh(sample) && results.samples == old(results.samples) + [sample] && results.Ordered()
    ensures sample.Even() && |sample.resultSets| == 1
    ensures sample.initialIdx == results.executionCounter
    ensures results.executionCounter == old(results.executionCounter) +
      if old(results.samples) == [] then 0 else |old(results.samples[|results.samples| - 1].resultSets)|
  {
    sample := results.NextQuery(good.sqlLabel);
    sample.StartExecution(good.executions[0].now);
    sample.Add(good.executions[0].outcome, good.executions[0].config);
  }
}
