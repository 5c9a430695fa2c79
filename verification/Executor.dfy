/** The parallel executor as it runs: one job, and the scheduler loop over all of them. */
module Executor {
  import opened Wrappers
  import opened Dag
  import opened DagTheory
  import opened SchedulerSpec
  import opened SchedulerTheory
  import opened Runs

  datatype JobPlan = JobPlan(commands: seq<string>, files: seq<string>)

  /** A job with its plan; no plan means its template matched no files. */
  datatype ResolvedJob = ResolvedJob(job: Job, plan: Option<JobPlan>)

  datatype RunSummary = RunSummary(ok: bool, jobsRun: nat, jobsSkipped: nat)

  /** `JobError` stands for any error a job's own steps return. */
  datatype RunError = DagFailed(source: DagError) | JobError | StashError

  function JobsOf(resolved: seq<ResolvedJob>): seq<Job> {
    seq(|resolved|, i requires 0 <= i < |resolved| => resolved[i].job)
  }

  function PlannedOf(resolved: seq<ResolvedJob>): seq<bool> {
    seq(|resolved|, i requires 0 <= i < |resolved| => resolved[i].plan.Some?)
  }

  function EffectiveLimit(configured: Option<nat>, default: nat): (r: nat)
    ensures forall n | configured == Some(n) && n > 0 :: r == n
    ensures configured.None? && default > 0 ==> r == default
    ensures configured == Some(0) || (configured.None? && default == 0) ==> r == 1
  {
    var limit := if configured.Some? then configured.value else default;
    if limit == 0 then 1 else limit
  }

  function InstanceOf(globs: GlobEngine, resolved: seq<ResolvedJob>, limit: nat, failFast: bool): Instance {
    Instance(DagOf(globs, JobsOf(resolved)), PlannedOf(resolved), limit, failFast)
  }

  lemma InstanceValid(globs: GlobEngine, resolved: seq<ResolvedJob>, limit: nat, failFast: bool)
    requires limit >= 1
    ensures InstanceOf(globs, resolved, limit, failFast).Valid()
    ensures InstanceOf(globs, resolved, limit, failFast).Size() == |resolved|
  {
    DagIsWellFormed(globs, JobsOf(resolved));
  }

  /** What the scheduler answers after a run, told from its turns. */
  ghost predicate Reports(run: seq<Event>, r: Result<RunSummary, RunError>) {
    && (r.Failure? <==> run != [] && run[|run| - 1].Fault?)
    && (r.Failure? ==> r.error == JobError)
    && (r.Success? ==>
          && r.value.jobsRun == |RunTurns(run)|
          && r.value.jobsSkipped == |SkipTurns(run)|
          && (r.value.ok <==> !SawFailure(run)))
  }

  // ---- One job --------------------------------------------------------------------------------------------

  /**
   * How the outside answers job `i`: the snapshot of unstaged files, the exit code of its `k`-th command (None if it
   * cannot be run), the re-staging, and the exit code that a cache entry would replay.
   */
  datatype Environment = Environment(
    snapshotOk: nat -> bool,
    exit: (nat, nat) -> Option<int>,
    stageOk: nat -> bool,
    cached: nat -> Option<int>)

  /** Whether the commands from the `from`-th on fail; None if one of them cannot be run. `stop`: not past a failing one. */
  function CommandsResult(env: Environment, i: nat, from: nat, count: nat, stop: bool): Option<bool>
    requires from <= count
    decreases count - from
  {
    if from == count then Some(false)
    else if env.exit(i, from).None? then None
    else if env.exit(i, from).value == 0 then CommandsResult(env, i, from + 1, count, stop)
    else if stop then Some(true)
    else if CommandsResult(env, i, from + 1, count, stop).None? then None else Some(true)
  }

  /** Whether a planned job fails; None if one of its own steps goes wrong. */
  function JobResult(env: Environment, job: ResolvedJob, i: nat, stop: bool): Option<bool>
    requires job.plan.Some?
  {
    if !env.snapshotOk(i) then None
    else
      var commands := CommandsResult(env, i, 0, |job.plan.value.commands|, stop);
      if commands.None? || !env.stageOk(i) then None else commands
  }

  /** Run to the end, the commands fail exactly if one of them exits with another code than zero. */
  lemma {:induction false} AllCommandsMeaning(env: Environment, i: nat, from: nat, count: nat)
    requires from <= count
    ensures CommandsResult(env, i, from, count, false).None? <==> exists k: nat :: from <= k < count && env.exit(i, k).None?
    ensures CommandsResult(env, i, from, count, false) == Some(false) <==> forall k: nat | from <= k < count :: env.exit(i, k) == Some(0)
    decreases count - from
  {
    if from < count {
      AllCommandsMeaning(env, i, from + 1, count);
    }
  }

  /** Stopped early, the first command that does not exit with zero decides: it fails, or it cannot be run. */
  lemma {:induction false} FirstCommandDecides(env: Environment, i: nat, from: nat, count: nat, k: nat)
    requires from <= k <= count && forall x: nat | from <= x < k :: env.exit(i, x) == Some(0)
    requires k == count || env.exit(i, k) != Some(0)
    ensures CommandsResult(env, i, from, count, true) ==
            if k == count then Some(false) else if env.exit(i, k).None? then None else Some(true)
    decreases count - from
  {
    if from < k {
      FirstCommandDecides(env, i, from + 1, count, k);
    }
  }

  /** Stopping at the first failing command gives the same result, if all the commands can be run. */
  lemma {:induction false} StoppingAgrees(env: Environment, i: nat, from: nat, count: nat)
    requires from <= count
    ensures CommandsResult(env, i, from, count, false).Some? ==>
              CommandsResult(env, i, from, count, true) == CommandsResult(env, i, from, count, false)
    decreases count - from
  {
    if from < count {
      StoppingAgrees(env, i, from + 1, count);
    }
  }

  /**
   * A planned job ends well exactly if its snapshot, all its commands and its re-staging do. If these own steps go well, it
   * fails exactly if a command exits with another code than zero, where all commands, or if it stops at that command the
   * ones before it, can be run.
   */
  lemma JobMeaning(env: Environment, job: ResolvedJob, i: nat, stop: bool)
    requires job.plan.Some?
    ensures var count := |job.plan.value.commands|;
            && (JobResult(env, job, i, stop) == Some(false) <==>
                  env.snapshotOk(i) && env.stageOk(i) && forall k: nat | k < count :: env.exit(i, k) == Some(0))
            && (!stop ==> (JobResult(env, job, i, stop) == Some(true) <==>
                  && env.snapshotOk(i) && env.stageOk(i) && (forall k: nat | k < count :: env.exit(i, k).Some?)
                  && exists k: nat :: k < count && env.exit(i, k) != Some(0)))
            && (stop ==> (JobResult(env, job, i, stop) == Some(true) <==>
                  && env.snapshotOk(i) && env.stageOk(i)
                  && exists k: nat :: k < count && StopsAt(env, i, k) && env.exit(i, k).Some?))
  {
    var count := |job.plan.value.commands|;
    if stop {
      if k: nat :| k < count && StopsAt(env, i, k) {
        FirstCommandDecides(env, i, 0, count, k);
      } else {
        NoneStops(env, i, count);
        FirstCommandDecides(env, i, 0, count, count);
      }
    } else {
      FailingCommand(env, i, count);
    }
  }

  lemma FailingCommand(env: Environment, i: nat, count: nat)
    ensures CommandsResult(env, i, 0, count, false) == Some(false) <==> forall k: nat | k < count :: env.exit(i, k) == Some(0)
    ensures CommandsResult(env, i, 0, count, false) == Some(true) <==>
              (forall k: nat | k < count :: env.exit(i, k).Some?) && exists k: nat :: k < count && env.exit(i, k) != Some(0)
  {
    hide CommandsResult;
    AllCommandsMeaning(env, i, 0, count);
    var commands := CommandsResult(env, i, 0, count, false);
    if forall k: nat | k < count :: env.exit(i, k).Some? {
      assert commands.Some?;
      assert commands.value ==> commands == Some(true);
      assert !commands.value ==> commands == Some(false);
    }
  }

  /** The `k`-th command is the first that does not exit with zero. */
  predicate StopsAt(env: Environment, i: nat, k: nat) {
    env.exit(i, k) != Some(0) && forall x: nat | x < k :: env.exit(i, x) == Some(0)
  }

  lemma {:induction false} NoneStops(env: Environment, i: nat, count: nat)
    requires forall k: nat | k < count :: !StopsAt(env, i, k)
    ensures forall k: nat | k < count :: env.exit(i, k) == Some(0)
  {
    if count > 0 {
      NoneStops(env, i, count - 1);
      assert !StopsAt(env, i, count - 1);
    }
  }

  /** `execute_job_in_dag`, without its output and its cache entry. */
  method ExecuteJob(env: Environment, job: ResolvedJob, i: nat) returns (r: Result<bool, RunError>)
    requires job.plan.Some?
    ensures r == if JobResult(env, job, i, true).None? then Failure(JobError) else Success(JobResult(env, job, i, true).value)
  {
    if !env.snapshotOk(i) {
      return Failure(JobError);
    }
    var commands := job.plan.value.commands;
    var jobFailed := false;
    for k := 0 to |commands|
      invariant !jobFailed
      invariant CommandsResult(env, i, k, |commands|, true) == CommandsResult(env, i, 0, |commands|, true)
    {
      var exit := env.exit(i, k);
      if exit.None? {
        return Failure(JobError);
      }
      if exit.value != 0 {
        jobFailed := true;
        break;
      }
    }
    if !env.stageOk(i) {
      return Failure(JobError);
    }
    r := Success(jobFailed);
  }

  predicate Replayed(env: Environment, job: ResolvedJob, i: nat) {
    job.job.concurrentSafe && env.cached(i).Some?
  }

  /** Whether job `i` fails, spawned or replayed, in a hook run by the parallel scheduler or by the sequential one. */
  predicate Fails(env: Environment, jobs: seq<ResolvedJob>, i: nat, parallel: bool, failFast: bool) {
    && i < |jobs| && jobs[i].plan.Some?
    && if parallel && Replayed(env, jobs[i], i) then env.cached(i).value != 0
       else JobResult(env, jobs[i], i, parallel || failFast) == Some(true)
  }

  /** Whether one of the own steps of job `i` goes wrong. */
  predicate Errs(env: Environment, jobs: seq<ResolvedJob>, i: nat, parallel: bool, failFast: bool) {
    && i < |jobs| && jobs[i].plan.Some?
    && !(parallel && Replayed(env, jobs[i], i)) && JobResult(env, jobs[i], i, parallel || failFast).None?
  }

  /**
   * What makes a planned job fail or go wrong. The parallel scheduler replays a concurrent-safe job that the cache has, and
   * takes its exit code from there. Otherwise its own steps decide: the parallel scheduler, and the sequential one under
   * fail-fast, stop at the first command that does not exit with zero; without fail-fast the sequential one runs them all.
   */
  lemma FailsMeaning(env: Environment, jobs: seq<ResolvedJob>, i: nat, parallel: bool, failFast: bool)
    requires i < |jobs| && jobs[i].plan.Some?
    ensures var count := |jobs[i].plan.value.commands|;
            var steps := env.snapshotOk(i) && env.stageOk(i);
            && (parallel && jobs[i].job.concurrentSafe && env.cached(i).Some? ==>
                  && !Errs(env, jobs, i, parallel, failFast)
                  && (Fails(env, jobs, i, parallel, failFast) <==> env.cached(i) != Some(0)))
            && (!parallel && !failFast ==>
                  && (Fails(env, jobs, i, parallel, failFast) <==>
                        steps && (forall k: nat | k < count :: env.exit(i, k).Some?) && exists k: nat :: k < count && env.exit(i, k) != Some(0))
                  && (Errs(env, jobs, i, parallel, failFast) <==> !steps || exists k: nat :: k < count && env.exit(i, k).None?))
            && ((parallel && !(jobs[i].job.concurrentSafe && env.cached(i).Some?)) || (!parallel && failFast) ==>
                  && (Fails(env, jobs, i, parallel, failFast) <==>
                        steps && exists k: nat :: k < count && StopsAt(env, i, k) && env.exit(i, k).Some?)
                  && (Errs(env, jobs, i, parallel, failFast) <==>
                        !steps || exists k: nat :: k < count && StopsAt(env, i, k) && env.exit(i, k).None?))
  {
    hide CommandsResult;
    JobMeaning(env, jobs[i], i, parallel || failFast);
    JobErrs(env, jobs[i], i, parallel || failFast);
  }

  lemma JobErrs(env: Environment, job: ResolvedJob, i: nat, stop: bool)
    requires job.plan.Some?
    ensures var count := |job.plan.value.commands|;
            JobResult(env, job, i, stop).None? <==>
              || !env.snapshotOk(i) || !env.stageOk(i)
              || exists k: nat :: k < count && env.exit(i, k).None? && (stop ==> StopsAt(env, i, k))
  {
    var count := |job.plan.value.commands|;
    if !stop {
      AllCommandsMeaning(env, i, 0, count);
    } else if k: nat :| k < count && StopsAt(env, i, k) {
      FirstCommandDecides(env, i, 0, count, k);
    } else {
      NoneStops(env, i, count);
      FirstCommandDecides(env, i, 0, count, count);
    }
  }

  /** Each turn of the scheduler saw what the environment answers. */
  predicate Observed(env: Environment, jobs: seq<ResolvedJob>, e: Event) {
    match e
    case Hit(i, failing) => i < |jobs| && Replayed(env, jobs[i], i) && (failing <==> Fails(env, jobs, i, true, false))
    case Spawn(i) => i < |jobs| && !Replayed(env, jobs[i], i)
    case Join(i, failing) =>
      i < |jobs| && !Replayed(env, jobs[i], i) && !Errs(env, jobs, i, true, false) && (failing <==> Fails(env, jobs, i, true, false))
    case Fault(i) => Errs(env, jobs, i, true, false)
    case _ => true
  }

  predicate AllObserved(env: Environment, jobs: seq<ResolvedJob>, run: seq<Event>) {
    forall k | 0 <= k < |run| :: Observed(env, jobs, run[k])
  }

  // ---- The parallel loop ------------------------------------------------------------------------------

  lemma Extend(c: Instance, run: seq<Event>, s: State, e: Event)
    requires c.Valid() && Reaches(c, run, s) && Inv(c, s) && Enabled(c, s, e)
    ensures Reaches(c, run + [e], Apply(c, s, e)) && Inv(c, Apply(c, s, e))
    ensures |run| + 1 <= 2 * c.Size() + 1
  {
    assert (run + [e])[..|run|] == run;
    StepInv(c, s, e);
    RunsAreBounded(c, run + [e], Apply(c, s, e));
  }

  ghost predicate Describes(c: Instance, resolved: seq<ResolvedJob>) {
    && |resolved| == c.Size() == |c.planned|
    && (forall i: nat | i < |resolved| :: c.graph.nodes[i].job == resolved[i].job && c.planned[i] == resolved[i].plan.Some?)
  }

  // One lemma per turn of the loop: the event is enabled, and this is the state after it.

  lemma SkipTurn(c: Instance, resolved: seq<ResolvedJob>, run: seq<Event>, s: State, i: nat) returns (t: State)
    requires c.Valid() && Describes(c, resolved) && Reaches(c, run, s) && Inv(c, s)
    requires PopYields(c, s, i) && resolved[i].plan.None?
    ensures Reaches(c, run + [Skip(i)], t) && Inv(c, t)
    ensures i < c.Size() == |s.pending| == |s.started|
    ensures ReleaseAssertions(c.graph.nodes[i].children, s.pending, s.started[i := true], s.ready - multiset{i})
    ensures var r := Release(c, i, s.pending, s.started[i := true], s.ready - multiset{i});
            t == State(r.0, s.started[i := true], r.1, s.inflight, s.running, s.failed, s.jobsRun, s.jobsSkipped + 1,
                       s.cancelled, s.phase, s.processed + {i}, s.failures, s.visited + [i])
  {
    hide WfGraph, Inv, Reaches, ReleaseAll, HeapExact, ReleaseAssertions;
    InvFacts(c, s);
    PoppedHeap(c.Size(), i, s.pending, s.started, s.ready);
    ReleaseAssertionsHold(c, run, s, Skip(i));
    Extend(c, run, s, Skip(i));
    t := Apply(c, s, Skip(i));
  }

  lemma HitTurn(c: Instance, resolved: seq<ResolvedJob>, run: seq<Event>, s: State, i: nat, failing: bool) returns (t: State)
    requires c.Valid() && Describes(c, resolved) && Reaches(c, run, s) && Inv(c, s)
    requires PopYields(c, s, i) && resolved[i].plan.Some? && resolved[i].job.concurrentSafe
    ensures Reaches(c, run + [Hit(i, failing)], t) && Inv(c, t)
    ensures i < c.Size() == |s.pending| == |s.started|
    ensures ReleaseAssertions(c.graph.nodes[i].children, s.pending, s.started[i := true], s.ready - multiset{i})
    ensures var r := Release(c, i, s.pending, s.started[i := true], s.ready - multiset{i});
            t == State(r.0, s.started[i := true], r.1, s.inflight, s.running, s.failed || failing, s.jobsRun + 1,
                       s.jobsSkipped, s.cancelled || (failing && c.failFast), s.phase, s.processed + {i},
                       if failing then s.failures + {i} else s.failures, s.visited + [i])
  {
    hide WfGraph, Inv, Reaches, ReleaseAll, HeapExact, ReleaseAssertions;
    InvFacts(c, s);
    PoppedHeap(c.Size(), i, s.pending, s.started, s.ready);
    ReleaseAssertionsHold(c, run, s, Hit(i, failing));
    Extend(c, run, s, Hit(i, failing));
    t := Apply(c, s, Hit(i, failing));
  }

  lemma SpawnTurn(c: Instance, resolved: seq<ResolvedJob>, run: seq<Event>, s: State, i: nat) returns (t: State)
    requires c.Valid() && Describes(c, resolved) && Reaches(c, run, s) && Inv(c, s)
    requires PopYields(c, s, i) && resolved[i].plan.Some?
    ensures Reaches(c, run + [Spawn(i)], t) && Inv(c, t)
    ensures i < c.Size() == |s.started|
    ensures t == State(s.pending, s.started[i := true], s.ready - multiset{i}, s.inflight + {i}, s.running + 1, s.failed,
                       s.jobsRun, s.jobsSkipped, s.cancelled, s.phase, s.processed, s.failures, s.visited + [i])
  {
    hide WfGraph, Inv, Reaches, ReleaseAll, HeapExact, ReleaseAssertions;
    InvFacts(c, s);
    PoppedHeap(c.Size(), i, s.pending, s.started, s.ready);
    Extend(c, run, s, Spawn(i));
    t := Apply(c, s, Spawn(i));
  }

  lemma JoinTurn(c: Instance, run: seq<Event>, s: State, i: nat, failing: bool) returns (t: State)
    requires c.Valid() && Reaches(c, run, s) && Inv(c, s) && Drained(c, s) && i in s.inflight && !(failing && c.failFast)
    ensures Reaches(c, run + [Join(i, failing)], t) && Inv(c, t)
    ensures i < c.Size() == |s.pending| == |s.started| && s.running > 0
    ensures ReleaseAssertions(c.graph.nodes[i].children, s.pending, s.started, s.ready)
    ensures var r := Release(c, i, s.pending, s.started, s.ready);
            t == State(r.0, s.started, r.1, s.inflight - {i}, s.running - 1, s.failed || failing, s.jobsRun + 1,
                       s.jobsSkipped, s.cancelled, s.phase, s.processed + {i},
                       if failing then s.failures + {i} else s.failures, s.visited)
  {
    hide WfGraph, Inv, Reaches, ReleaseAll, HeapExact, ReleaseAssertions;
    InvFacts(c, s);
    ReleaseAssertionsHold(c, run, s, Join(i, failing));
    Extend(c, run, s, Join(i, failing));
    t := Apply(c, s, Join(i, failing));
  }

  lemma StopTurn(c: Instance, run: seq<Event>, s: State, i: nat) returns (t: State)
    requires c.Valid() && Reaches(c, run, s) && Inv(c, s) && Drained(c, s) && i in s.inflight && c.failFast
    ensures Reaches(c, run + [Join(i, true)], t) && Inv(c, t) && s.running > 0
    ensures t == State(s.pending, s.started, s.ready, {}, s.running - 1, true, s.jobsRun + 1, s.jobsSkipped,
                       true, Stopped, s.processed + {i}, s.failures + {i}, s.visited)
  {
    hide WfGraph, Inv, Reaches, ReleaseAll, HeapExact, ReleaseAssertions;
    InvFacts(c, s);
    Extend(c, run, s, Join(i, true));
    t := Apply(c, s, Join(i, true));
  }

  lemma InvFacts(c: Instance, s: State)
    requires c.Valid() && Inv(c, s)
    ensures Shaped(c, s)
    ensures s.phase.Active? ==> HeapExact(c.Size(), s.pending, s.started, s.ready) && |s.inflight| == s.running
    ensures s.phase.Active? ==> forall i | i in s.inflight :: i < c.Size()
  {
    if s.phase.Active? {
      assert s.inflight <= s.inflight + s.processed + {} <= Indices(c.Size());
    }
  }

  lemma ReleasesChildren(c: Instance, i: nat, pending: seq<nat>, started: seq<bool>, ready: multiset<nat>)
    requires c.Valid() && i < c.Size() == |pending| == |started|
    ensures var children := c.graph.nodes[i].children;
            && (forall k | 0 <= k < |children| :: children[k] < |pending|)
            && Release(c, i, pending, started, ready) == ReleaseAll(children, pending, started, ready)
  {
    assert forall k | 0 <= k < |c.graph.nodes[i].children| :: c.graph.nodes[i].children[k] in c.graph.nodes[i].children;
  }

  /** The local variables of `run_parallel`; `run` and `last` record the turns taken so far. */
  class ParallelLoop {
    const graph: JobGraph
    const resolved: seq<ResolvedJob>
    const limit: nat
    const failFast: bool
    var pending: seq<nat>
    var started: seq<bool>
    var ready: multiset<nat>
    var inflight: set<nat>
    var running: nat
    var failed: bool
    var jobsRun: nat
    var jobsSkipped: nat
    var cancelled: bool
    ghost var run: seq<Event>
    ghost var last: State

    ghost const problem: Instance

    ghost predicate Configured() {
      && problem.Valid() && problem.graph == graph && problem.limit == limit && problem.failFast == failFast
      && |resolved| == |graph.nodes| && Describes(problem, resolved)
    }

    /** The program variables are those of machine state `s`. */
    ghost predicate Mirrors(s: State)
      reads this
    {
      && s.pending == pending && s.started == started && s.ready == ready
      && s.inflight == inflight && s.running == running && s.failed == failed
      && s.jobsRun == jobsRun && s.jobsSkipped == jobsSkipped && s.cancelled == cancelled
    }

    ghost predicate Recorded()
      reads this
    {
      Configured() && Reaches(problem, run, last) && Inv(problem, last)
    }

    ghost predicate Valid()
      reads this
    {
      Recorded() && last.phase.Active? && Mirrors(last)
    }

    /** Node `idx` has just been taken out of the heap and marked as started. */
    ghost predicate Taken(idx: nat)
      reads this
    {
      && Recorded() && last.phase.Active? && Shaped(problem, last)
      && PopYields(problem, last, idx) && !last.started[idx]
      && Mirrors(Popped(last, idx))
    }

    constructor (graph: JobGraph, resolved: seq<ResolvedJob>, limit: nat, failFast: bool)
      requires WfGraph(graph) && |resolved| == |graph.nodes| && limit >= 1
      requires forall i: nat | i < |resolved| :: graph.nodes[i].job == resolved[i].job
      ensures Valid() && run == [] && inflight == {} && this.resolved == resolved
      ensures problem == Instance(graph, PlannedOf(resolved), limit, failFast)
    {
      hide WfGraph, Inv;
      this.graph, this.resolved, this.limit, this.failFast := graph, resolved, limit, failFast;
      pending := ParentCounts(graph);
      started := seq(|graph.nodes|, _ => false);
      ready := multiset(Roots(graph));
      inflight, running, failed, jobsRun, jobsSkipped, cancelled := {}, 0, false, 0, 0, false;
      problem := Instance(graph, PlannedOf(resolved), limit, failFast);
      run, last := [], Init(Instance(graph, PlannedOf(resolved), limit, failFast));
      new;
      InitInv(problem);
    }

    method ReleaseChild(child: nat)
      requires child < |pending| == |started|
      modifies this`pending, this`ready
      ensures (pending, ready) == SchedulerSpec.ReleaseChild(child, old(pending), started, old(ready))
    {
      if pending[child] == 0 {
        return;
      }
      pending := pending[child := pending[child] - 1];
      if pending[child] != 0 {
        return;
      }
      if started[child] {
        return;
      }
      ready := ready + multiset{child};
    }

    /** The assertions of `release_child` hold at each child. */
    method ReleaseChildren(idx: nat)
      requires idx < |graph.nodes| == |pending| == |started|
      requires ReleaseAssertions(graph.nodes[idx].children, pending, started, ready)
      modifies this`pending, this`ready
      ensures (pending, ready) == ReleaseAll(graph.nodes[idx].children, old(pending), started, old(ready))
    {
      var children := graph.nodes[idx].children;
      for k := 0 to |children|
        invariant |pending| == |started|
        invariant (pending, ready) == ReleaseAll(children[..k], old(pending), started, old(ready))
      {
        assert children[..k + 1][..k] == children[..k];
        assert pending[children[k]] > 0 && !started[children[k]];
        ReleaseChild(children[k]);
      }
      assert children[..|children|] == children;
    }

    /** `ready.pop()`. The stale entry the source guards against never occurs. */
    method Take() returns (idx: nat)
      requires Valid() && running < limit && ready != multiset{}
      modifies this`ready, this`started
      ensures Taken(idx) && idx < |graph.nodes|
    {
      hide WfGraph, Inv, Reaches, Describes, Before, HeapExact;
      ghost var top := HeapTop(problem, last);
      assert top in ready && IsLeast(graph, ready, top);
      hide IsLeast;
      idx :| idx in ready && IsLeast(graph, ready, idx);
      InvFacts(problem, last);
      PoppedHeap(|graph.nodes|, idx, last.pending, last.started, last.ready);
      ready := ready - multiset{idx};
      if started[idx] {
        assert false;
      }
      started := started[idx := true];
    }

    /** The taken node has no plan. */
    method FinishSkipped(idx: nat)
      requires Taken(idx) && idx < |graph.nodes| && resolved[idx].plan.None?
      modifies this
      ensures Valid() && run == old(run) + [Skip(idx)] && inflight == old(inflight)
    {
      hide WfGraph, Inv, Reaches, Release, ReleaseAll, ReleaseAssertions, Describes, PopYields;
      ghost var next := SkipTurn(problem, resolved, run, last, idx);
      jobsSkipped := jobsSkipped + 1;
      ReleasesChildren(problem, idx, pending, started, ready);
      ReleaseChildren(idx);
      run, last := run + [Skip(idx)], next;
    }

    /** A failing job makes the run fail and, under fail-fast, fires the cancellation. */
    method NoteOutcome(failing: bool)
      modifies this`failed, this`cancelled
      ensures failed == (old(failed) || failing)
      ensures cancelled == (old(cancelled) || (failing && failFast))
    {
      if failing {
        failed := true;
        if failFast {
          cancelled := true;
        }
      }
    }

    /** The taken node is replayed from the cache; it fails when its cached exit code is not zero. */
    method FinishCached(idx: nat, failing: bool)
      requires Taken(idx) && idx < |graph.nodes| && resolved[idx].plan.Some? && resolved[idx].job.concurrentSafe
      modifies this
      ensures Valid() && run == old(run) + [Hit(idx, failing)] && inflight == old(inflight)
    {
      hide WfGraph, Inv, Reaches, Release, ReleaseAll, ReleaseAssertions, Describes, PopYields;
      ghost var next := HitTurn(problem, resolved, run, last, idx, failing);
      NoteOutcome(failing);
      jobsRun := jobsRun + 1;
      ReleasesChildren(problem, idx, pending, started, ready);
      ReleaseChildren(idx);
      run, last := run + [Hit(idx, failing)], next;
    }

    /** The taken node is spawned. */
    method Launch(idx: nat)
      requires Taken(idx) && idx < |graph.nodes| && resolved[idx].plan.Some?
      modifies this
      ensures Valid() && run == old(run) + [Spawn(idx)] && inflight == old(inflight) + {idx}
    {
      hide WfGraph, Inv, Reaches, Describes, PopYields;
      ghost var next := SpawnTurn(problem, resolved, run, last, idx);
      running := running + 1;
      inflight := inflight + {idx};
      run, last := run + [Spawn(idx)], next;
    }

    /** A joined job, unless it stops the loop, releases its children. */
    method FinishJoined(idx: nat, failing: bool)
      requires Valid() && Drained(problem, last) && idx in inflight && !(failing && failFast)
      modifies this
      ensures Valid() && run == old(run) + [Join(idx, failing)] && inflight == old(inflight) - {idx}
    {
      hide WfGraph, Inv, Reaches, Release, ReleaseAll, ReleaseAssertions, Describes, Drained;
      ghost var next := JoinTurn(problem, run, last, idx, failing);
      run, last := run + [Join(idx, failing)], next;
      inflight := inflight - {idx};
      running := running - 1;
      jobsRun := jobsRun + 1;
      NoteOutcome(failing);
      ReleasesChildren(problem, idx, pending, started, ready);
      ReleaseChildren(idx);
      assert Mirrors(last);
    }

    /** Under fail-fast a failing job cancels the others, which are then drained without being counted. */
    method StopAfter(idx: nat)
      requires Valid() && Drained(problem, last) && idx in inflight && failFast
      modifies this
      ensures Recorded() && last.phase.Stopped? && run == old(run) + [Join(idx, true)]
      ensures last.failed == failed && last.jobsRun == jobsRun && last.jobsSkipped == jobsSkipped
    {
      hide WfGraph, Inv, Reaches, Describes, Drained;
      ghost var next := StopTurn(problem, run, last, idx);
      running := running - 1;
      jobsRun := jobsRun + 1;
      NoteOutcome(true);
      inflight := {};
      run, last := run + [Join(idx, true)], next;
    }

    /** The loop is left: nothing is in flight, or a spawned job returned an error. */
    ghost method Leave(e: Event)
      requires Valid() && Enabled(problem, last, e) && (e.Exit? || e.Fault?)
      modifies this`run, this`last
      ensures Recorded() && !last.phase.Active? && run == old(run) + [e]
      ensures last.phase.Errored? <==> e.Fault?
      ensures last.failed == failed && last.jobsRun == jobsRun && last.jobsSkipped == jobsSkipped
    {
      hide WfGraph, Inv, Reaches;
      Extend(problem, run, last, e);
      run, last := run + [e], Apply(problem, last, e);
    }

    lemma TurnsLeft()
      requires Valid()
      ensures |run| < 2 * |graph.nodes| + 1
    {
      RunsAreBounded(problem, run, last);
      ActiveWeight(problem, last);
    }
  }

  /** The first job whose capability globs do not compile. */
  function FirstUncompiled(globs: GlobEngine, jobs: seq<ResolvedJob>, from: nat): (r: Option<nat>)
    requires from <= |jobs|
    ensures r.Some? ==> from <= r.value < |jobs| && !CapabilitiesCompile(globs, jobs[r.value].job)
    ensures r.None? ==> forall i | from <= i < |jobs| :: CapabilitiesCompile(globs, jobs[i].job)
    ensures r.Some? ==> forall i | from <= i < r.value :: CapabilitiesCompile(globs, jobs[i].job)
    decreases |jobs| - from
  {
    if from == |jobs| then None
    else if !CapabilitiesCompile(globs, jobs[from].job) then Some(from)
    else FirstUncompiled(globs, jobs, from + 1)
  }

  lemma {:induction false} FirstUncompiledIs(globs: GlobEngine, jobs: seq<ResolvedJob>, from: nat, i: nat)
    requires from <= i < |jobs| && !CapabilitiesCompile(globs, JobsOf(jobs)[i])
    requires forall k | 0 <= k < i :: CapabilitiesCompile(globs, JobsOf(jobs)[k])
    ensures FirstUncompiled(globs, jobs, from) == Some(i)
    decreases i - from
  {
    hide CapabilitiesCompile;
    assert JobsOf(jobs)[i] == jobs[i].job;
    if from < i {
      assert JobsOf(jobs)[from] == jobs[from].job;
      FirstUncompiledIs(globs, jobs, from + 1, i);
    }
  }

  lemma AllCompile(globs: GlobEngine, jobs: seq<ResolvedJob>)
    requires FirstUncompiled(globs, jobs, 0).Some?
    ensures exists i | 0 <= i < |jobs| :: !CapabilitiesCompile(globs, JobsOf(jobs)[i])
  {
    hide CapabilitiesCompile;
    var i := FirstUncompiled(globs, jobs, 0).value;
    assert JobsOf(jobs)[i] == jobs[i].job;
  }

  /**
   * `run_parallel`. Which spawned job is joined next is arbitrary; `run` records the turns taken. Whatever it is, the
   * loop ends, the turns form a run of the scheduler machine, each saw what the environment answers, and the answer counts
   * them: run are the jobs replayed or joined, skipped are those skipped, and it is ok exactly if none of the former failed.
   * Under fail-fast the first failing join ends the run. A positive configured limit bounds the jobs in flight at every
   * turn, and is used up whenever a job that waits for no other has not begun; without one the default does, and 0 counts
   * as 1.
   */
  method RunParallel(globs: GlobEngine, env: Environment, resolved: seq<ResolvedJob>, configuredLimit: Option<nat>,
                     defaultLimit: nat, failFast: bool)
    returns (r: Result<RunSummary, RunError>, ghost run: seq<Event>, ghost last: State)
    ensures var bad := FirstUncompiled(globs, resolved, 0);
            bad.Some? ==> r == Failure(DagFailed(CapabilityError(globs, resolved[bad.value].job)))
    ensures FirstUncompiled(globs, resolved, 0).None? ==>
              var c := InstanceOf(globs, resolved, EffectiveLimit(configuredLimit, defaultLimit), failFast);
              c.Valid() && Reaches(c, run, last) && !last.phase.Active? && AllObserved(env, resolved, run)
    ensures FirstUncompiled(globs, resolved, 0).None? ==> Reports(run, r) && Whole(failFast, run)
    ensures var g := DagOf(globs, JobsOf(resolved));
            && (forall n | configuredLimit == Some(n) && n > 0 :: KeepsLimit(run, n) && UsesLimit(g, run, n))
            && (configuredLimit.None? && defaultLimit > 0 ==> KeepsLimit(run, defaultLimit) && UsesLimit(g, run, defaultLimit))
            && (configuredLimit == Some(0) ==> KeepsLimit(run, 1) && UsesLimit(g, run, 1))
  {
    hide WfGraph, Inv, Reaches, Apply, AllObserved, CapabilitiesCompile, FirstUncompiled, CapabilityError, KeepsLimit, UsesLimit, Reports, Whole;
    run := [];
    NothingSpawned(DagOf(globs, JobsOf(resolved)), EffectiveLimit(configuredLimit, defaultLimit));
    var limit := EffectiveLimit(configuredLimit, defaultLimit);
    InstanceValid(globs, resolved, limit, failFast);
    last := Init(InstanceOf(globs, resolved, limit, failFast));

    var built := BuildDag(globs, JobsOf(resolved));
    if built.Failure? {
      ghost var i :| 0 <= i < |resolved| && !CapabilitiesCompile(globs, JobsOf(resolved)[i])
                     && (forall k | 0 <= k < i :: CapabilitiesCompile(globs, JobsOf(resolved)[k]))
                     && built.error == CapabilityError(globs, JobsOf(resolved)[i]);
      FirstUncompiledIs(globs, resolved, 0, i);
      return Failure(DagFailed(built.error)), run, last;
    }
    if FirstUncompiled(globs, resolved, 0).Some? {
      AllCompile(globs, resolved);
    }
    GraphAdjacency(globs, JobsOf(resolved));
    var loop := new ParallelLoop(built.value, resolved, limit, failFast);
    r := RunLoop(loop, env);
    run, last := loop.run, loop.last;
    LimitKept(loop.problem, run, last);
    LimitUsed(loop.problem, run, last);
    EndsAtLastTurn(loop.problem, run, last);
  }

  lemma NothingSpawned(g: JobGraph, limit: nat)
    ensures KeepsLimit([], limit) && UsesLimit(g, [], limit)
  {
  }

  /** The turns so far saw what the environment answers, and no job in flight could have been replayed. */
  ghost predicate Seen(env: Environment, jobs: seq<ResolvedJob>, run: seq<Event>, inflight: set<nat>) {
    && AllObserved(env, jobs, run)
    && (forall i | i in inflight :: i < |jobs| && jobs[i].plan.Some? && !Replayed(env, jobs[i], i))
  }

  lemma SeenNext(env: Environment, jobs: seq<ResolvedJob>, run: seq<Event>, inflight: set<nat>, e: Event, inflight': set<nat>)
    requires Seen(env, jobs, run, inflight) && Observed(env, jobs, e)
    requires forall i | i in inflight' && i !in inflight :: i < |jobs| && jobs[i].plan.Some? && !Replayed(env, jobs[i], i)
    ensures Seen(env, jobs, run + [e], inflight')
  {
    hide Observed;
  }

  /** The inner loop: pops ready nodes while the limit allows. */
  method DrainReady(loop: ParallelLoop, env: Environment)
    requires loop.Valid() && Seen(env, loop.resolved, loop.run, loop.inflight)
    modifies loop
    ensures loop.Valid() && Seen(env, loop.resolved, loop.run, loop.inflight)
    ensures |loop.run| >= |old(loop.run)| && (loop.running >= loop.limit || loop.ready == multiset{})
  {
    hide WfGraph, Inv, Reaches, Seen, Observed, JobResult;
    while loop.running < loop.limit && loop.ready != multiset{}
      invariant loop.Valid() && |loop.run| >= |old(loop.run)|
      invariant Seen(env, loop.resolved, loop.run, loop.inflight)
      decreases 2 * |loop.graph.nodes| + 1 - |loop.run|
    {
      loop.TurnsLeft();
      ghost var run, inflight := loop.run, loop.inflight;
      var idx := loop.Take();
      if loop.resolved[idx].plan.None? {
        loop.FinishSkipped(idx);
        SkipSeen(env, loop.resolved, run, inflight, idx);
        continue;
      }
      if loop.resolved[idx].job.concurrentSafe {
        var cached := env.cached(idx);
        if cached.Some? {
          loop.FinishCached(idx, cached.value != 0);
          HitSeen(env, loop.resolved, run, inflight, idx);
          continue;
        }
      }
      loop.Launch(idx);
      SpawnSeen(env, loop.resolved, run, inflight, idx);
    }
  }

  lemma SkipSeen(env: Environment, jobs: seq<ResolvedJob>, run: seq<Event>, inflight: set<nat>, i: nat)
    requires Seen(env, jobs, run, inflight)
    ensures Seen(env, jobs, run + [Skip(i)], inflight)
  {
    SeenNext(env, jobs, run, inflight, Skip(i), inflight);
  }

  lemma HitSeen(env: Environment, jobs: seq<ResolvedJob>, run: seq<Event>, inflight: set<nat>, i: nat)
    requires Seen(env, jobs, run, inflight) && i < |jobs| && jobs[i].plan.Some? && Replayed(env, jobs[i], i)
    ensures Seen(env, jobs, run + [Hit(i, env.cached(i).value != 0)], inflight)
  {
    SeenNext(env, jobs, run, inflight, Hit(i, env.cached(i).value != 0), inflight);
  }

  lemma SpawnSeen(env: Environment, jobs: seq<ResolvedJob>, run: seq<Event>, inflight: set<nat>, i: nat)
    requires Seen(env, jobs, run, inflight) && i < |jobs| && jobs[i].plan.Some? && !Replayed(env, jobs[i], i)
    ensures Seen(env, jobs, run + [Spawn(i)], inflight + {i})
  {
    SeenNext(env, jobs, run, inflight, Spawn(i), inflight + {i});
  }

  lemma JoinSeen(env: Environment, jobs: seq<ResolvedJob>, run: seq<Event>, inflight: set<nat>, i: nat, inflight': set<nat>)
    requires Seen(env, jobs, run, inflight) && i in inflight && inflight' <= inflight
    ensures i < |jobs| && jobs[i].plan.Some?
    ensures var result := JobResult(env, jobs[i], i, true);
            if result.None? then Seen(env, jobs, run + [Fault(i)], inflight')
            else Seen(env, jobs, run + [Join(i, result.value)], inflight')
  {
    var result := JobResult(env, jobs[i], i, true);
    SeenNext(env, jobs, run, inflight, if result.None? then Fault(i) else Join(i, result.value), inflight');
  }

  method RunLoop(loop: ParallelLoop, env: Environment) returns (r: Result<RunSummary, RunError>)
    requires loop.Valid() && loop.run == [] && loop.inflight == {}
    modifies loop
    ensures loop.Recorded() && !loop.last.phase.Active? && Reports(loop.run, r)
    ensures AllObserved(env, loop.resolved, loop.run)
  {
    hide WfGraph, Inv, Reaches, Seen, JobResult, AllObserved, Describes, Reports;
    SeenNothing(env, loop.resolved);
    while true
      invariant loop.Valid() && Seen(env, loop.resolved, loop.run, loop.inflight)
      decreases 2 * |loop.graph.nodes| + 1 - |loop.run|
    {
      DrainReady(loop, env);
      ghost var run, inflight := loop.run, loop.inflight;
      InvFacts(loop.problem, loop.last);
      if loop.inflight == {} {
        loop.Leave(Exit);
        ExitSeen(env, loop.resolved, run, inflight);
        break;
      }
      loop.TurnsLeft();
      var idx :| idx in loop.inflight;
      JoinSeen(env, loop.resolved, run, inflight, idx, {});
      var outcome := ExecuteJob(env, loop.resolved[idx], idx);
      if outcome.Failure? {
        loop.Leave(Fault(idx));
        SeenIsObserved(env, loop.resolved, loop.run, {});
        FaultReports(loop.run);
        return Failure(JobError);
      }
      if outcome.value && loop.failFast {
        loop.StopAfter(idx);
        SeenIsObserved(env, loop.resolved, loop.run, {});
        break;
      }
      JoinSeen(env, loop.resolved, run, inflight, idx, inflight - {idx});
      loop.FinishJoined(idx, outcome.value);
    }
    LastReports(loop.problem, loop.run, loop.last);
    return Success(RunSummary(!loop.failed, loop.jobsRun, loop.jobsSkipped));
  }

  lemma FaultReports(run: seq<Event>)
    requires run != [] && run[|run| - 1].Fault?
    ensures Reports(run, Failure(JobError))
  {
  }

  lemma LastReports(c: Instance, run: seq<Event>, last: State)
    requires c.Valid() && Reaches(c, run, last) && run != [] && !run[|run| - 1].Fault?
    ensures Reports(run, Success(RunSummary(!last.failed, last.jobsRun, last.jobsSkipped)))
  {
    hide WfGraph, Reaches, RunTurns, SkipTurns, SawFailure;
    CountersCount(c, run, last);
  }

  lemma SeenNothing(env: Environment, jobs: seq<ResolvedJob>)
    ensures Seen(env, jobs, [], {})
  {
  }

  lemma ExitSeen(env: Environment, jobs: seq<ResolvedJob>, run: seq<Event>, inflight: set<nat>)
    requires Seen(env, jobs, run, inflight)
    ensures AllObserved(env, jobs, run + [Exit])
  {
    SeenNext(env, jobs, run, inflight, Exit, inflight);
  }

  lemma SeenIsObserved(env: Environment, jobs: seq<ResolvedJob>, run: seq<Event>, inflight: set<nat>)
    requires Seen(env, jobs, run, inflight)
    ensures AllObserved(env, jobs, run)
  {
  }
}
