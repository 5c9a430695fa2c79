/** A whole hook run: filtering, one of the two schedulers, and the report. */
module HookRun {
  import opened Wrappers
  import opened Dag
  import opened DagTheory
  import opened SchedulerSpec
  import opened SchedulerTheory
  import opened Runs
  import opened Executor

  // ---- What a scheduler may report ---------------------------------------------------------------------

  function CountUnplanned(jobs: seq<ResolvedJob>, bound: nat): nat
    requires bound <= |jobs|
  {
    if bound == 0 then 0
    else CountUnplanned(jobs, bound - 1) + if jobs[bound - 1].plan.None? then 1 else 0
  }

  /** All jobs are accounted for, and none of them went wrong. */
  ghost predicate Complete(env: Environment, jobs: seq<ResolvedJob>, parallel: bool, failFast: bool, summary: RunSummary) {
    && summary.jobsRun + summary.jobsSkipped == |jobs|
    && summary.jobsSkipped == CountUnplanned(jobs, |jobs|)
    && (forall i: nat | i < |jobs| :: !Errs(env, jobs, i, parallel, failFast))
  }

  /**
   * An error means that one of the jobs went wrong. A summary is ok exactly if no job fails, and it is complete unless
   * fail-fast cut the run short; even then only jobs with a plan count as run, only jobs without one as skipped.
   */
  ghost predicate RunsTo(env: Environment, jobs: seq<ResolvedJob>, parallel: bool, failFast: bool, r: Result<RunSummary, RunError>) {
    match r
    case Failure(e) => e == JobError && exists i: nat :: i < |jobs| && Errs(env, jobs, i, parallel, failFast)
    case Success(summary) =>
      && (summary.ok <==> forall i: nat | i < |jobs| :: !Fails(env, jobs, i, parallel, failFast))
      && summary.jobsSkipped <= CountUnplanned(jobs, |jobs|) && summary.jobsRun <= |jobs| - CountUnplanned(jobs, |jobs|)
      && (!summary.ok ==> summary.jobsRun > 0)
      && (summary.ok || !failFast ==> Complete(env, jobs, parallel, failFast, summary))
  }

  // ---- Sequential runner ---------------------------------------------------------------------------

  /** Job `i` ends the sequential run: it goes wrong or, under fail-fast, it fails. */
  predicate Ends(env: Environment, jobs: seq<ResolvedJob>, i: nat, failFast: bool) {
    Errs(env, jobs, i, false, failFast) || (failFast && Fails(env, jobs, i, false, failFast))
  }

  /** How many jobs are visited: those up to the first that ends the run, or all of them. */
  function Visited(env: Environment, jobs: seq<ResolvedJob>, failFast: bool, from: nat): (n: nat)
    requires from <= |jobs|
    ensures from <= n <= |jobs|
    ensures forall i: nat | from <= i < n - 1 ::
              !Errs(env, jobs, i, false, failFast) && !(failFast && Fails(env, jobs, i, false, failFast))
    ensures n == |jobs| || (n > from && (Errs(env, jobs, n - 1, false, failFast) || (failFast && Fails(env, jobs, n - 1, false, failFast))))
    decreases |jobs| - from
  {
    if from == |jobs| then from
    else if Ends(env, jobs, from, failFast) then from + 1
    else Visited(env, jobs, failFast, from + 1)
  }

  /**
   * The sequential run ends in an error exactly if the last visited job goes wrong; otherwise the summary counts the
   * visited jobs, those without a plan as skipped and the others as run, and fails exactly if one of them does.
   */
  ghost predicate Sequentially(env: Environment, jobs: seq<ResolvedJob>, failFast: bool, r: Result<RunSummary, RunError>) {
    var n := Visited(env, jobs, failFast, 0);
    && (r.Failure? <==> n > 0 && Errs(env, jobs, n - 1, false, failFast))
    && (r.Failure? ==> r.error == JobError)
    && (r.Success? ==>
          && r.value.jobsSkipped == CountUnplanned(jobs, n)
          && r.value.jobsRun + r.value.jobsSkipped == n
          && (r.value.ok <==> forall i: nat | i < n :: !Fails(env, jobs, i, false, failFast)))
  }

  /** `run_sequential` visits the jobs in order. */
  method RunSequential(env: Environment, jobs: seq<ResolvedJob>, failFast: bool) returns (r: Result<RunSummary, RunError>)
    ensures Sequentially(env, jobs, failFast, r)
  {
    hide CommandsResult, Errs, Fails, Ends, Visited, JobResult;
    var jobsRun, jobsSkipped, failed := 0, 0, false;
    ghost var total := Visited(env, jobs, failFast, 0);
    ghost var visited := 0;
    for i := 0 to |jobs|
      invariant visited == i && total == Visited(env, jobs, failFast, i)
      invariant jobsRun + jobsSkipped == i && jobsSkipped == CountUnplanned(jobs, i)
      invariant !failed <==> forall x: nat | x < i :: !Fails(env, jobs, x, false, failFast)
      invariant failFast ==> !failed
      invariant i > 0 ==> !Errs(env, jobs, i - 1, false, failFast)
      invariant i == |jobs| ==> total == i
    {
      SequentialTurn(env, jobs, failFast, i);
      if jobs[i].plan.None? {
        jobsSkipped := jobsSkipped + 1;
        visited := i + 1;
        continue;
      }
      if !env.snapshotOk(i) {
        return Failure(JobError);
      }
      var commands := jobs[i].plan.value.commands;
      var result := RunCommands(env, i, |commands|, failFast);
      if result.None? {
        return Failure(JobError);
      }
      var jobFailed := result.value;
      failed := failed || jobFailed;
      if !env.stageOk(i) {
        return Failure(JobError);
      }
      jobsRun := jobsRun + 1;
      visited := i + 1;
      if jobFailed && failFast {
        break;
      }
    }
    r := Success(RunSummary(!failed, jobsRun, jobsSkipped));
  }

  lemma SequentialTurn(env: Environment, jobs: seq<ResolvedJob>, failFast: bool, i: nat)
    requires i < |jobs|
    ensures jobs[i].plan.None? ==> !Fails(env, jobs, i, false, failFast) && !Errs(env, jobs, i, false, failFast)
    ensures jobs[i].plan.Some? ==>
              var commands := CommandsResult(env, i, 0, |jobs[i].plan.value.commands|, failFast);
              && (Errs(env, jobs, i, false, failFast) <==> !env.snapshotOk(i) || commands.None? || !env.stageOk(i))
              && (Fails(env, jobs, i, false, failFast) <==> env.snapshotOk(i) && commands == Some(true) && env.stageOk(i))
    ensures Visited(env, jobs, failFast, i) ==
            if Errs(env, jobs, i, false, failFast) || (failFast && Fails(env, jobs, i, false, failFast)) then i + 1
            else Visited(env, jobs, failFast, i + 1)
    ensures i + 1 == |jobs| ==> Visited(env, jobs, failFast, i + 1) == i + 1
  {
    hide CommandsResult;
  }

  /** The command loop of `run_sequential`, which goes on after a failing command unless fail-fast is set. */
  method RunCommands(env: Environment, i: nat, count: nat, failFast: bool) returns (result: Option<bool>)
    ensures result == CommandsResult(env, i, 0, count, failFast)
  {
    var jobFailed := false;
    for k := 0 to count
      invariant failFast ==> !jobFailed
      invariant CommandsResult(env, i, 0, count, failFast) == Joined(jobFailed, CommandsResult(env, i, k, count, failFast))
    {
      var exit := env.exit(i, k);
      if exit.None? {
        return None;
      }
      if exit.value != 0 {
        jobFailed := true;
        if failFast {
          break;
        }
      }
    }
    result := Some(jobFailed);
  }

  function Joined(failed: bool, rest: Option<bool>): Option<bool> {
    if rest.None? then None else Some(failed || rest.value)
  }

  lemma SequentialRunsTo(env: Environment, jobs: seq<ResolvedJob>, failFast: bool, r: Result<RunSummary, RunError>)
    requires Sequentially(env, jobs, failFast, r)
    ensures RunsTo(env, jobs, false, failFast, r)
  {
    hide JobResult;
    var n := Visited(env, jobs, failFast, 0);
    UnplannedUpTo(jobs, n);
    if r.Success? {
      SomePlanned(env, jobs, failFast, n);
      hide Errs, Fails;
      forall i: nat | i < n ensures !Errs(env, jobs, i, false, failFast) {
      }
    }
  }

  lemma {:induction false} UnplannedUpTo(jobs: seq<ResolvedJob>, n: nat)
    requires n <= |jobs|
    ensures CountUnplanned(jobs, n) <= CountUnplanned(jobs, |jobs|) <= CountUnplanned(jobs, n) + |jobs| - n
    decreases |jobs| - n
  {
    if n < |jobs| {
      UnplannedUpTo(jobs, n + 1);
    }
  }

  /** A failing job has a plan. */
  lemma {:induction false} SomePlanned(env: Environment, jobs: seq<ResolvedJob>, failFast: bool, n: nat)
    requires n <= |jobs|
    ensures CountUnplanned(jobs, n) <= n
    ensures CountUnplanned(jobs, n) == n ==> forall i: nat | i < n :: !Fails(env, jobs, i, false, failFast)
  {
    hide JobResult;
    if n > 0 {
      SomePlanned(env, jobs, failFast, n - 1);
    }
  }

  lemma {:induction false} CountsAgree(c: Instance, jobs: seq<ResolvedJob>, bound: nat)
    requires |c.planned| == |jobs| && bound <= |jobs|
    requires forall i: nat | i < |jobs| :: c.planned[i] == jobs[i].plan.Some?
    ensures |UnplannedBelow(c.planned, bound)| == CountUnplanned(jobs, bound)
  {
    if bound > 0 {
      CountsAgree(c, jobs, bound - 1);
      UnplannedSnoc(c.planned, bound - 1);
    }
  }

  lemma UnplannedSnoc(planned: seq<bool>, last: nat)
    requires last < |planned|
    ensures |UnplannedBelow(planned, last + 1)| == |UnplannedBelow(planned, last)| + if planned[last] then 0 else 1
  {
    var before, after := UnplannedBelow(planned, last), UnplannedBelow(planned, last + 1);
    assert last !in before;
    assert after == if planned[last] then before else before + {last};
  }

  ghost function UnplannedBelow(planned: seq<bool>, bound: nat): set<nat>
    requires bound <= |planned|
  {
    set i | i in Indices(bound) && !planned[i]
  }

  // ---- Parallel runner ------------------------------------------------------------------------------

  ghost function FailSet(env: Environment, jobs: seq<ResolvedJob>): set<nat> {
    set i | i in Indices(|jobs|) && Fails(env, jobs, i, true, false)
  }

  lemma OutcomesObserved(env: Environment, jobs: seq<ResolvedJob>, run: seq<Event>)
    requires AllObserved(env, jobs, run)
    ensures Outcomes(run, FailSet(env, jobs))
  {
    hide Fails;
    forall k | 0 <= k < |run| && (run[k].Hit? || run[k].Join?) ensures run[k].failing <==> run[k].i in FailSet(env, jobs) {
      assert Observed(env, jobs, run[k]);
    }
  }

  /** A processed job with a plan was replayed or joined at some turn. */
  lemma {:induction false} ProcessedByTurn(c: Instance, run: seq<Event>, s: State, i: nat) returns (k: nat)
    requires c.Valid() && Reaches(c, run, s) && i in s.processed && i < c.Size() && c.planned[i]
    ensures k < |run| && (run[k].Hit? || run[k].Join?) && run[k].i == i
    decreases |run|
  {
    hide WfGraph, Reaches, Release;
    assert run != [] by { StartsUnprocessed(c, run, s); }
    var before, e := LastStep(c, run, s);
    if i in before.processed {
      k := ProcessedByTurn(c, run[..|run| - 1], before, i);
    } else {
      k := |run| - 1;
    }
  }

  lemma StartsUnprocessed(c: Instance, run: seq<Event>, s: State)
    requires c.Valid() && Reaches(c, run, s)
    ensures run == [] ==> s.processed == {}
  {
  }

  /** A run that ended in an error ended at the turn of the job that went wrong. */
  lemma EndedBy(c: Instance, run: seq<Event>, s: State) returns (e: Event)
    requires c.Valid() && Reaches(c, run, s) && (s.phase.Errored? || s.phase.Stopped?)
    ensures run != [] && e == run[|run| - 1]
    ensures s.phase.Errored? ==> e.Fault?
    ensures s.phase.Stopped? ==> c.failFast && s.failed
  {
    hide WfGraph, Release;
    assert run != [];
    hide Reaches;
    var before;
    before, e := LastStep(c, run, s);
  }

  lemma FinishedSawNoError(c: Instance, run: seq<Event>, s: State, env: Environment, jobs: seq<ResolvedJob>, i: nat)
    requires c.Valid() && Reaches(c, run, s) && s.phase.Finished? && AllObserved(env, jobs, run)
    requires i < |jobs| == c.Size() && c.planned[i] == jobs[i].plan.Some?
    ensures !Errs(env, jobs, i, true, false)
  {
    hide WfGraph, Reaches, JobResult;
    if jobs[i].plan.Some? {
      FinishedMeansComplete(c, run, s);
      var k := ProcessedByTurn(c, run, s, i);
      assert Observed(env, jobs, run[k]);
    }
  }

  lemma ParallelRunsTo(globs: GlobEngine, env: Environment, jobs: seq<ResolvedJob>, limit: nat, failFast: bool,
                       run: seq<Event>, last: State, r: Result<RunSummary, RunError>)
    requires limit >= 1
    requires var c := InstanceOf(globs, jobs, limit, failFast);
             c.Valid() && Reaches(c, run, last) && !last.phase.Active? && AllObserved(env, jobs, run) && Reports(run, r)
    ensures RunsTo(env, jobs, true, failFast, r)
  {
    hide WfGraph, Inv, Reaches, DagOf, JobResult, AllObserved, Complete, RunTurns, SkipTurns, SawFailure;
    var c := InstanceOf(globs, jobs, limit, failFast);
    InstanceValid(globs, jobs, limit, failFast);
    CountersCount(c, run, last);
    ErroredMeansFault(c, run, last);
    forall i: nat | i < |jobs| ensures Fails(env, jobs, i, true, failFast) == Fails(env, jobs, i, true, false) {
    }
    hide Fails, Errs;
    if last.phase.Errored? {
      var e := EndedBy(c, run, last);
      FaultObserved(env, jobs, run, failFast);
    } else if last.phase.Stopped? {
      var e := EndedBy(c, run, last);
      StoppedReport(c, run, last, env, jobs);
    } else {
      FinishedReport(c, run, last, env, jobs);
      FinishedComplete(c, run, last, env, jobs, failFast);
    }
  }

  lemma FaultObserved(env: Environment, jobs: seq<ResolvedJob>, run: seq<Event>, failFast: bool)
    requires AllObserved(env, jobs, run) && run != [] && run[|run| - 1].Fault?
    ensures exists i: nat :: i < |jobs| && Errs(env, jobs, i, true, failFast)
  {
    hide JobResult;
    var e := run[|run| - 1];
    assert Observed(env, jobs, e);
    assert e.i < |jobs| && Errs(env, jobs, e.i, true, failFast);
  }

  lemma StoppedReport(c: Instance, run: seq<Event>, last: State, env: Environment, jobs: seq<ResolvedJob>)
    requires c.Valid() && Reaches(c, run, last) && last.failed && AllObserved(env, jobs, run) && |jobs| == c.Size()
    requires forall i: nat | i < |jobs| :: c.planned[i] == jobs[i].plan.Some?
    ensures exists i: nat :: i < |jobs| && Fails(env, jobs, i, true, false)
    ensures last.jobsSkipped <= CountUnplanned(jobs, |jobs|) && 0 < last.jobsRun <= |jobs| - CountUnplanned(jobs, |jobs|)
  {
    hide WfGraph, Reaches, Fails, AllObserved, Outcomes;
    ReachableInv(c, run, last);
    OutcomesObserved(env, jobs, run);
    FailuresExact(c, run, last, FailSet(env, jobs));
    ProcessedBounded(c, run, last);
    FailedMeansSome(c, last);
    var i :| i in last.failures;
    assert Fails(env, jobs, i, true, false);
    CountsAgree(c, jobs, |jobs|);
    assert UnplannedBelow(c.planned, |jobs|) == Unplanned(c);
  }

  lemma FailedMeansSome(c: Instance, s: State)
    requires c.Valid() && Inv(c, s) && s.failed && s.processed <= Indices(c.Size())
    ensures s.failures != {}
    ensures s.jobsSkipped <= |Unplanned(c)| && 0 < s.jobsRun <= c.Size() - |Unplanned(c)|
  {
    hide WfGraph, Scheduling, VisitedOnce;
    var skipped, ran, planned := s.processed * Unplanned(c), s.processed - Unplanned(c), Indices(c.Size()) - Unplanned(c);
    assert s.processed == skipped + ran && Indices(c.Size()) == Unplanned(c) + planned;
    SubsetSize(skipped, Unplanned(c));
    SubsetSize(ran, planned);
    SubsetSize(s.failures, ran);
  }

  lemma {:induction false} ProcessedBounded(c: Instance, run: seq<Event>, s: State)
    requires c.Valid() && Reaches(c, run, s)
    ensures s.processed <= Indices(c.Size()) && |s.processed| <= c.Size()
    decreases |run|
  {
    hide WfGraph, Apply;
    if run == [] {
      StartsUnprocessed(c, run, s);
    } else {
      hide Reaches;
      var before, e := LastStep(c, run, s);
      ProcessedBounded(c, run[..|run| - 1], before);
      EventEffects(c, before, e);
    }
    SubsetSize(s.processed, Indices(c.Size()));
  }

  lemma FinishedReport(c: Instance, run: seq<Event>, last: State, env: Environment, jobs: seq<ResolvedJob>)
    requires c.Valid() && Reaches(c, run, last) && last.phase.Finished? && AllObserved(env, jobs, run)
    requires |jobs| == c.Size() && forall i: nat | i < |jobs| :: c.planned[i] == jobs[i].plan.Some?
    ensures last.failed <==> exists i: nat :: i < |jobs| && Fails(env, jobs, i, true, false)
    ensures last.jobsSkipped == CountUnplanned(jobs, |jobs|) && last.jobsRun + last.jobsSkipped == |jobs|
    ensures last.failed ==> last.jobsRun > 0
  {
    hide WfGraph, Reaches, JobResult, AllObserved, Outcomes;
    if last.failed {
      ReachableInv(c, run, last);
      ProcessedBounded(c, run, last);
      FailedMeansSome(c, last);
    }
    OutcomesObserved(env, jobs, run);
    ReportIsDetermined(c, run, last, FailSet(env, jobs));
    CountsAgree(c, jobs, |jobs|);
    assert UnplannedBelow(c.planned, |jobs|) == Unplanned(c);
    if i: nat :| i < |jobs| && Fails(env, jobs, i, true, false) {
      assert i in FailSet(env, jobs) && c.planned[i];
    }
  }

  lemma FinishedComplete(c: Instance, run: seq<Event>, last: State, env: Environment, jobs: seq<ResolvedJob>, failFast: bool)
    requires c.Valid() && Reaches(c, run, last) && last.phase.Finished? && AllObserved(env, jobs, run)
    requires |jobs| == c.Size() && forall i: nat | i < |jobs| :: c.planned[i] == jobs[i].plan.Some?
    ensures Complete(env, jobs, true, failFast, RunSummary(!last.failed, last.jobsRun, last.jobsSkipped))
  {
    hide WfGraph, Reaches, AllObserved;
    FinishedReport(c, run, last, env, jobs);
    forall i: nat | i < |jobs| ensures !Errs(env, jobs, i, true, failFast) {
      FinishedSawNoError(c, run, last, env, jobs, i);
    }
  }

  // ---- The two schedulers ------------------------------------------------------------------------------

  /** Replaying gives what running the job would give. */
  ghost predicate CacheTruthful(env: Environment, jobs: seq<ResolvedJob>) {
    forall i: nat | i < |jobs| && jobs[i].plan.Some? && Replayed(env, jobs[i], i) ::
      JobResult(env, jobs[i], i, true) == Some(env.cached(i).value != 0)
  }

  /**
   * Without fail-fast, if the sequential runner reports a summary, the parallel one reports the same, at any limit, in
   * any join order, and from any cache that is truthful.
   */
  lemma SequentialAgreesWithParallel(env: Environment, jobs: seq<ResolvedJob>,
                                     sequential: Result<RunSummary, RunError>, parallel: Result<RunSummary, RunError>)
    requires CacheTruthful(env, jobs)
    requires RunsTo(env, jobs, false, false, sequential) && RunsTo(env, jobs, true, false, parallel)
    requires sequential.Success?
    ensures parallel == sequential
  {
    hide CommandsResult;
    forall i: nat | i < |jobs|
      ensures !Errs(env, jobs, i, true, false)
      ensures Fails(env, jobs, i, true, false) == Fails(env, jobs, i, false, false)
    {
      assert !Errs(env, jobs, i, false, false);
      if jobs[i].plan.Some? {
        StoppingAgrees(env, i, 0, |jobs[i].plan.value.commands|);
      }
    }
  }

  /** Without fail-fast the report is determined by what the jobs do; the limit and the join order do not enter. */
  lemma ReportDetermined(env: Environment, jobs: seq<ResolvedJob>, parallel: bool,
                         r: Result<RunSummary, RunError>, q: Result<RunSummary, RunError>)
    requires RunsTo(env, jobs, parallel, false, r) && RunsTo(env, jobs, parallel, false, q)
    ensures r == q
  {
    hide Errs, Fails;
  }

  // ---- Filtering and the report -----------------------------------------------------------------------

  datatype Options = Options(skip: seq<string>, only: seq<string>)

  predicate IsFiltered(options: Options, name: string) {
    if options.only != [] && name !in options.only then true else name in options.skip
  }

  datatype Hook = Hook(jobs: seq<Job>, parallel: bool, failFast: bool, parallelLimit: Option<nat>)

  /** The jobs that no filter removes, by position. */
  function Kept(options: Options, jobs: seq<Job>, bound: nat): (r: seq<nat>)
    requires bound <= |jobs|
    ensures forall i: nat :: i in r <==>
              i < bound && (options.only == [] || jobs[i].name in options.only) && jobs[i].name !in options.skip
    ensures |r| <= bound
  {
    if bound == 0 then []
    else if IsFiltered(options, jobs[bound - 1].name) then Kept(options, jobs, bound - 1)
    else Kept(options, jobs, bound - 1) + [bound - 1]
  }

  lemma {:induction false} KeptIsSelection(options: Options, jobs: seq<Job>, bound: nat)
    requires bound <= |jobs|
    ensures IsSelection(Kept(options, jobs, bound), bound)
  {
    if bound > 0 {
      KeptIsSelection(options, jobs, bound - 1);
      AscendingSnoc(Kept(options, jobs, bound - 1), bound - 1);
    }
  }

  /** The filtering loop keeps, in order, exactly the jobs that are not to be skipped and, if some are named, are named. */
  method FilterJobs(options: Options, jobs: seq<Job>) returns (kept: seq<nat>, filteredOut: nat)
    ensures kept == Kept(options, jobs, |jobs|) && IsSelection(kept, |jobs|)
    ensures forall i: nat :: i in kept <==>
              i < |jobs| && (options.only == [] || jobs[i].name in options.only) && jobs[i].name !in options.skip
    ensures |kept| + filteredOut == |jobs|
  {
    kept, filteredOut := [], 0;
    for i := 0 to |jobs|
      invariant kept == Kept(options, jobs, i)
      invariant |kept| + filteredOut == i
    {
      if IsFiltered(options, jobs[i].name) {
        filteredOut := filteredOut + 1;
      } else {
        kept := kept + [i];
      }
    }
    KeptIsSelection(options, jobs, |jobs|);
  }

  /** The answers to resolving the kept jobs: the error of the first that cannot be resolved, if any. */
  function PlanError(kept: seq<nat>, plans: nat -> Result<Option<JobPlan>, RunError>, from: nat): (r: Option<RunError>)
    requires from <= |kept|
    ensures r.None? <==> forall k | from <= k < |kept| :: plans(kept[k]).Success?
    decreases |kept| - from
  {
    if from == |kept| then None
    else if plans(kept[from]).Failure? then Some(plans(kept[from]).error)
    else PlanError(kept, plans, from + 1)
  }

  /** The error is that of the first kept job that cannot be resolved. */
  lemma {:induction false} FirstPlanError(kept: seq<nat>, plans: nat -> Result<Option<JobPlan>, RunError>, from: nat, k: nat)
    requires from <= k < |kept| && plans(kept[k]).Failure? && forall x | from <= x < k :: plans(kept[x]).Success?
    ensures PlanError(kept, plans, from) == Some(plans(kept[k]).error)
    decreases k - from
  {
    if from < k {
      FirstPlanError(kept, plans, from + 1, k);
    }
  }

  /** The resolved list of the kept jobs; the environment numbers jobs by their place in it. */
  function ResolvedOf(jobs: seq<Job>, kept: seq<nat>, plans: nat -> Result<Option<JobPlan>, RunError>): (r: seq<ResolvedJob>)
    requires forall k | 0 <= k < |kept| :: kept[k] < |jobs| && plans(kept[k]).Success?
    ensures |r| == |kept|
    ensures forall k | 0 <= k < |kept| :: r[k].job == jobs[kept[k]] && plans(kept[k]) == Success(r[k].plan)
  {
    seq(|kept|, k requires 0 <= k < |kept| => ResolvedJob(jobs[kept[k]], plans(kept[k]).value))
  }

  function ResolvedHook(hook: Hook, options: Options, plans: nat -> Result<Option<JobPlan>, RunError>): seq<ResolvedJob>
    requires PlanError(Kept(options, hook.jobs, |hook.jobs|), plans, 0).None?
  {
    var kept := Kept(options, hook.jobs, |hook.jobs|);
    assert forall k | 0 <= k < |kept| :: kept[k] in kept;
    ResolvedOf(hook.jobs, kept, plans)
  }

  /** The loop that resolves the kept jobs, up to the first that cannot be resolved. */
  method ResolvePlans(jobs: seq<Job>, kept: seq<nat>, plans: nat -> Result<Option<JobPlan>, RunError>)
    returns (r: Result<seq<ResolvedJob>, RunError>)
    requires forall k | 0 <= k < |kept| :: kept[k] < |jobs|
    ensures r.Failure? <==> PlanError(kept, plans, 0).Some?
    ensures r.Failure? ==> r.error == PlanError(kept, plans, 0).value
    ensures r.Success? ==> r.value == ResolvedOf(jobs, kept, plans)
  {
    var resolved: seq<ResolvedJob> := [];
    for k := 0 to |kept|
      invariant |resolved| == k
      invariant PlanError(kept, plans, 0) == PlanError(kept, plans, k)
      invariant forall x: nat | x < k :: plans(kept[x]).Success?
      invariant forall x: nat | x < k :: resolved[x] == ResolvedJob(jobs[kept[x]], plans(kept[x]).value)
    {
      var plan := plans(kept[k]);
      if plan.Failure? {
        return Failure(plan.error);
      }
      resolved := resolved + [ResolvedJob(jobs[kept[k]], plan.value)];
    }
    return Success(resolved);
  }

  /** What is reported of a scheduler's summary: filtered jobs count as skipped, and a failed pop is an error. */
  function Reported(summary: Result<RunSummary, RunError>, restored: bool, filteredOut: nat): Result<RunSummary, RunError> {
    if summary.Failure? then summary
    else if !restored then Failure(StashError)
    else Success(summary.value.(jobsSkipped := summary.value.jobsSkipped + filteredOut))
  }

  /**
   * `run_hook_with_options`, from the stash to the report. `plans` gives each job's resolved plan (or the error resolving
   * it); `pushed` and `restored` say whether pushing and popping the stash went well.
   */
  method RunHook(globs: GlobEngine, hook: Hook, options: Options, plans: nat -> Result<Option<JobPlan>, RunError>,
                 env: Environment, defaultLimit: nat, pushed: bool, restored: bool)
    returns (r: Result<RunSummary, RunError>)
    ensures !pushed ==> r == Failure(StashError)
    ensures var kept := Kept(options, hook.jobs, |hook.jobs|);
            var error := PlanError(kept, plans, 0);
            && (pushed && error.Some? ==> r == Failure(error.value))
            && (pushed && error.None? ==>
                  var jobs := ResolvedHook(hook, options, plans);
                  var bad := FirstUncompiled(globs, jobs, 0);
                  if hook.parallel && bad.Some? then r == Failure(DagFailed(CapabilityError(globs, jobs[bad.value].job)))
                  else exists summary ::
                    && RunsTo(env, jobs, hook.parallel, hook.failFast, summary)
                    && RanBy(globs, env, hook, jobs, defaultLimit, summary)
                    && r == Reported(summary, restored, |hook.jobs| - |kept|))
  {
    hide WfGraph, Reaches, RunsTo, RanBy, FirstUncompiled, CapabilityError, Kept, DagOf;
    if !pushed {
      return Failure(StashError);
    }
    var kept, filteredOut := FilterJobs(options, hook.jobs);
    assert forall k | 0 <= k < |kept| :: kept[k] in kept;
    var plan := ResolvePlans(hook.jobs, kept, plans);
    if plan.Failure? {
      return Failure(plan.error);
    }
    var resolved := plan.value;
    var summary := RunJobs(globs, env, hook, resolved, defaultLimit);
    if FirstUncompiled(globs, resolved, 0).None? || !hook.parallel {
      assert RunsTo(env, resolved, hook.parallel, hook.failFast, summary);
      assert RanBy(globs, env, hook, resolved, defaultLimit, summary);
    }
    r := Reported(summary, restored, filteredOut);
  }

  /** A run of the scheduler machine over these jobs, from its start to its end, that saw what the environment answers. */
  ghost predicate EndedRun(globs: GlobEngine, env: Environment, jobs: seq<ResolvedJob>, limit: nat, failFast: bool,
                           run: seq<Event>, last: State)
  {
    var c := InstanceOf(globs, jobs, limit, failFast);
    c.Valid() && Reaches(c, run, last) && !last.phase.Active? && AllObserved(env, jobs, run)
  }

  /** The answer of the scheduler the hook asks for: of the sequential run, or of some run of the parallel one. */
  ghost predicate RanBy(globs: GlobEngine, env: Environment, hook: Hook, jobs: seq<ResolvedJob>, defaultLimit: nat,
                        r: Result<RunSummary, RunError>)
  {
    if hook.parallel then
      exists run, last ::
        EndedRun(globs, env, jobs, EffectiveLimit(hook.parallelLimit, defaultLimit), hook.failFast, run, last) && Reports(run, r)
    else Sequentially(env, jobs, hook.failFast, r)
  }

  /** One of the two schedulers. */
  method RunJobs(globs: GlobEngine, env: Environment, hook: Hook, jobs: seq<ResolvedJob>, defaultLimit: nat)
    returns (r: Result<RunSummary, RunError>)
    ensures var bad := FirstUncompiled(globs, jobs, 0);
            if hook.parallel && bad.Some? then r == Failure(DagFailed(CapabilityError(globs, jobs[bad.value].job)))
            else RunsTo(env, jobs, hook.parallel, hook.failFast, r) && RanBy(globs, env, hook, jobs, defaultLimit, r)
  {
    hide WfGraph, Reaches, RunsTo, FirstUncompiled, CapabilityError, DagOf, AllObserved, Reports, KeepsLimit, Sequentially;
    if hook.parallel {
      ghost var run, last;
      r, run, last := RunParallel(globs, env, jobs, hook.parallelLimit, defaultLimit, hook.failFast);
      if FirstUncompiled(globs, jobs, 0).None? {
        ParallelRunsTo(globs, env, jobs, EffectiveLimit(hook.parallelLimit, defaultLimit), hook.failFast, run, last, r);
        assert EndedRun(globs, env, jobs, EffectiveLimit(hook.parallelLimit, defaultLimit), hook.failFast, run, last);
      }
    } else {
      r := RunSequential(env, jobs, hook.failFast);
      SequentialRunsTo(env, jobs, hook.failFast, r);
    }
  }

  /**
   * The report of such a hook: filtered jobs count as skipped; otherwise the sequential runner counts the jobs it visited,
   * and the parallel one the turns of its run.
   */
  lemma ReportCounts(globs: GlobEngine, env: Environment, hook: Hook, jobs: seq<ResolvedJob>, defaultLimit: nat,
                     summary: Result<RunSummary, RunError>, restored: bool, filteredOut: nat)
    requires RanBy(globs, env, hook, jobs, defaultLimit, summary) && Reported(summary, restored, filteredOut).Success?
    ensures var r := Reported(summary, restored, filteredOut).value;
            var n := Visited(env, jobs, hook.failFast, 0);
            !hook.parallel ==>
              && r.jobsSkipped == CountUnplanned(jobs, n) + filteredOut && r.jobsRun == n - CountUnplanned(jobs, n)
              && (r.ok <==> forall i: nat | i < n :: !Fails(env, jobs, i, false, hook.failFast))
    ensures var r := Reported(summary, restored, filteredOut).value;
            hook.parallel ==> exists run, last ::
              && EndedRun(globs, env, jobs, EffectiveLimit(hook.parallelLimit, defaultLimit), hook.failFast, run, last)
              && r.jobsSkipped == |SkipTurns(run)| + filteredOut && r.jobsRun == |RunTurns(run)| && (r.ok <==> !SawFailure(run))
  {
    hide Fails, Errs, EndedRun, Visited, SkipTurns, RunTurns, SawFailure;
  }

  /**
   * What a report says: it is ok exactly if no kept job with a plan fails, and then, or without fail-fast, it accounts
   * once for every job of the hook, filtered or not.
   */
  lemma ReportMeans(env: Environment, hook: Hook, options: Options, plans: nat -> Result<Option<JobPlan>, RunError>,
                    summary: Result<RunSummary, RunError>, restored: bool)
    requires PlanError(Kept(options, hook.jobs, |hook.jobs|), plans, 0).None?
    requires RunsTo(env, ResolvedHook(hook, options, plans), hook.parallel, hook.failFast, summary)
    ensures var jobs := ResolvedHook(hook, options, plans);
            var r := Reported(summary, restored, |hook.jobs| - |Kept(options, hook.jobs, |hook.jobs|)|);
            && (r.Success? ==> restored && (r.value.ok <==> forall i: nat | i < |jobs| :: !Fails(env, jobs, i, hook.parallel, hook.failFast)))
            && (r.Success? && (r.value.ok || !hook.failFast) ==>
                  r.value.jobsRun + r.value.jobsSkipped == |hook.jobs| && r.value.jobsRun == |jobs| - CountUnplanned(jobs, |jobs|))
            && (restored && !hook.failFast ==>
                  (r.Success? <==> forall i: nat | i < |jobs| :: !Errs(env, jobs, i, hook.parallel, false)))
  {
    hide Errs, Fails;
  }
}
