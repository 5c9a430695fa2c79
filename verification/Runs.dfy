/** What a run of the scheduler shows in its turns alone, without looking at the scheduler's variables. */
module Runs {
  import opened Wrappers
  import opened Dag
  import opened DagTheory
  import opened SchedulerSpec
  import opened SchedulerTheory

  // ---- Counting turns --------------------------------------------------------------------------------------------

  /** The turns at which a job ran to its end: replayed, or joined. */
  function RunTurns(run: seq<Event>): set<nat> {
    set k: nat | k < |run| && (run[k].Hit? || run[k].Join?)
  }

  function SkipTurns(run: seq<Event>): set<nat> {
    set k: nat | k < |run| && run[k].Skip?
  }

  function SpawnTurns(run: seq<Event>): set<nat> {
    set k: nat | k < |run| && run[k].Spawn?
  }

  function JoinTurns(run: seq<Event>): set<nat> {
    set k: nat | k < |run| && run[k].Join?
  }

  /** A job that ran to its end failed. */
  ghost predicate SawFailure(run: seq<Event>) {
    exists k: nat :: k < |run| && (run[k].Hit? || run[k].Join?) && run[k].failing
  }

  lemma TurnsSnoc(run: seq<Event>, e: Event)
    ensures RunTurns(run + [e]) == RunTurns(run) + if e.Hit? || e.Join? then {|run|} else {}
    ensures SkipTurns(run + [e]) == SkipTurns(run) + if e.Skip? then {|run|} else {}
    ensures SpawnTurns(run + [e]) == SpawnTurns(run) + if e.Spawn? then {|run|} else {}
    ensures JoinTurns(run + [e]) == JoinTurns(run) + if e.Join? then {|run|} else {}
    ensures |run| !in RunTurns(run) + SkipTurns(run) + SpawnTurns(run) + JoinTurns(run)
  {
  }

  lemma FailureSnoc(run: seq<Event>, e: Event)
    ensures SawFailure(run + [e]) <==> SawFailure(run) || ((e.Hit? || e.Join?) && e.failing)
  {
    var more := run + [e];
    if k: nat :| k < |run| && (run[k].Hit? || run[k].Join?) && run[k].failing {
      assert more[k] == run[k];
    }
    assert more[|run|] == e;
  }

  /** What one event does to the counters. */
  lemma CounterEffects(c: Instance, s: State, e: Event)
    requires c.Valid() && Enabled(c, s, e)
    ensures var t := Apply(c, s, e);
      && t.jobsRun == s.jobsRun + (if e.Hit? || e.Join? then 1 else 0)
      && t.jobsSkipped == s.jobsSkipped + (if e.Skip? then 1 else 0)
      && t.running == s.running + (if e.Spawn? then 1 else 0) - (if e.Join? then 1 else 0)
      && t.failed == (s.failed || ((e.Hit? || e.Join?) && e.failing))
    ensures s.phase.Active? && (e.Spawn? ==> s.running < c.limit) && (e.Join? ==> s.running > 0)
  {
    hide WfGraph, Release;
  }

  /**
   * The counters count turns: a run reports as run the jobs it replayed or joined, as skipped those it skipped, as failed
   * that one of the former failed; the jobs in flight are those spawned and not joined, and never more than the limit.
   */
  lemma {:induction false} CountersCount(c: Instance, run: seq<Event>, s: State)
    requires c.Valid() && Reaches(c, run, s)
    ensures s.jobsRun == |RunTurns(run)| && s.jobsSkipped == |SkipTurns(run)|
    ensures s.failed <==> SawFailure(run)
    ensures |SpawnTurns(run)| == |JoinTurns(run)| + s.running && s.running <= c.limit
    decreases |run|
  {
    hide WfGraph, Apply, Enabled, SawFailure;
    if run == [] {
      CountersStart(c, s);
    } else {
      var before, e := LastStep(c, run, s);
      var front := run[..|run| - 1];
      assert run == front + [e];
      CountersCount(c, front, before);
      CounterEffects(c, before, e);
      TurnsSnoc(front, e);
      FailureSnoc(front, e);
    }
  }

  lemma CountersStart(c: Instance, s: State)
    requires c.Valid() && Reaches(c, [], s)
    ensures s.jobsRun == |RunTurns([])| && s.jobsSkipped == |SkipTurns([])|
    ensures s.failed <==> SawFailure([])
    ensures |SpawnTurns([])| == |JoinTurns([])| + s.running && s.running <= c.limit
  {
  }

  /** A run has ended in an error exactly if its last turn found a job that went wrong. */
  lemma ErroredMeansFault(c: Instance, run: seq<Event>, s: State)
    requires c.Valid() && Reaches(c, run, s)
    ensures s.phase.Errored? <==> run != [] && run[|run| - 1].Fault?
  {
    hide WfGraph, Release;
    if run != [] {
      var before, e := LastStep(c, run, s);
      EventEffects(c, before, e);
    }
  }

  /** A turn that ends the loop: nothing was in flight, a job went wrong, or a job failed under fail-fast. */
  predicate EndsLoop(failFast: bool, e: Event) {
    e.Exit? || e.Fault? || (failFast && e.Join? && e.failing)
  }

  /** The last turn, and no other, ends the loop. */
  predicate Whole(failFast: bool, run: seq<Event>) {
    && run != [] && EndsLoop(failFast, run[|run| - 1])
    && forall k: nat | k < |run| - 1 :: !EndsLoop(failFast, run[k])
  }

  /** Nothing happens after a turn that ends the loop, and the loop ends at no other turn. */
  lemma EndsAtLastTurn(c: Instance, run: seq<Event>, s: State)
    requires c.Valid() && Reaches(c, run, s)
    ensures !s.phase.Active? <==> Whole(c.failFast, run)
    ensures forall k: nat | k < |run| - 1 :: !EndsLoop(c.failFast, run[k])
  {
    hide WfGraph, Apply, Reaches;
    if run == [] {
      StartsActive(c, s);
    } else {
      StillActive(c, run, s);
      var before, e := LastStep(c, run, s);
      EventEffects(c, before, e);
    }
  }

  lemma StartsActive(c: Instance, s: State)
    requires c.Valid() && Reaches(c, [], s)
    ensures s.phase.Active?
  {
  }

  lemma StillActive(c: Instance, run: seq<Event>, s: State)
    requires c.Valid() && Reaches(c, run, s)
    ensures forall k: nat | k < |run| - 1 :: !EndsLoop(c.failFast, run[k])
  {
    hide WfGraph, Apply, Reaches, Enabled;
    forall k: nat | k < |run| - 1 ensures !EndsLoop(c.failFast, run[k]) {
      var t := PrefixReaches(c, run, s, k + 1);
      CounterEffects(c, t, run[k + 1]);
      var before, e := LastStep(c, run[..k + 1], t);
      EventEffects(c, before, e);
    }
  }

  /** Only jobs without a plan are skipped, only jobs with one are run, and only concurrent-safe ones are replayed. */
  lemma TurnsFit(c: Instance, run: seq<Event>, s: State, k: nat)
    requires c.Valid() && Reaches(c, run, s) && k < |run| && (IsStart(run[k]) || run[k].Join?)
    ensures run[k].i < c.Size() && (run[k].Skip? <==> !c.planned[run[k].i])
    ensures run[k].Hit? ==> c.graph.nodes[run[k].i].job.concurrentSafe
  {
    hide WfGraph, Reaches, Scheduling, Counted, VisitedOnce;
    var t := PrefixReaches(c, run, s, k);
    ReachableInv(c, run[..k], t);
    if run[k].Join? {
      assert run[k].i !in Unplanned(c);
    }
  }

  // ---- The limit -------------------------------------------------------------------------------------------------

  lemma {:induction false} PrefixReaches(c: Instance, run: seq<Event>, s: State, k: nat) returns (t: State)
    requires c.Valid() && Reaches(c, run, s) && k <= |run|
    ensures Reaches(c, run[..k], t)
    ensures k < |run| ==> Enabled(c, t, run[k])
    decreases |run|
  {
    hide WfGraph, Apply, Enabled, Reaches;
    if k == |run| {
      t := s;
      assert run[..k] == run;
    } else {
      var before, e := LastStep(c, run, s);
      if k == |run| - 1 {
        t := before;
      } else {
        t := PrefixReaches(c, run[..|run| - 1], before, k);
        assert run[..|run| - 1][..k] == run[..k];
      }
    }
  }

  /** At every moment of the run at most `limit` jobs have been spawned and not yet joined. */
  ghost predicate KeepsLimit(run: seq<Event>, limit: nat) {
    forall k: nat | k <= |run| :: |SpawnTurns(run[..k])| <= |JoinTurns(run[..k])| + limit
  }

  lemma LimitKept(c: Instance, run: seq<Event>, s: State)
    requires c.Valid() && Reaches(c, run, s)
    ensures KeepsLimit(run, c.limit)
  {
    hide WfGraph, Reaches, SpawnTurns, JoinTurns;
    forall k: nat | k <= |run| ensures |SpawnTurns(run[..k])| <= |JoinTurns(run[..k])| + c.limit {
      var t := PrefixReaches(c, run, s, k);
      CountersCount(c, run[..k], t);
    }
  }

  /** Job `i` has been skipped, replayed or spawned. */
  ghost predicate Begun(run: seq<Event>, i: nat) {
    exists k: nat :: k < |run| && IsStart(run[k]) && run[k].i == i
  }

  /** Job `i` has been skipped, replayed or joined. */
  ghost predicate Done(run: seq<Event>, i: nat) {
    exists k: nat :: k < |run| && IsDone(run[k]) && run[k].i == i
  }

  lemma BegunSnoc(run: seq<Event>, e: Event, i: nat)
    ensures Begun(run + [e], i) <==> Begun(run, i) || (IsStart(e) && e.i == i)
    ensures Done(run + [e], i) <==> Done(run, i) || (IsDone(e) && e.i == i)
  {
    var more := run + [e];
    assert more[|run|] == e;
    if k: nat :| k < |run| && IsStart(run[k]) && run[k].i == i {
      assert more[k] == run[k];
    }
    if k: nat :| k < |run| && IsDone(run[k]) && run[k].i == i {
      assert more[k] == run[k];
    }
  }

  /** The scheduler's records say what the turns show. */
  lemma {:induction false} RecordsAreTurns(c: Instance, run: seq<Event>, s: State, i: nat)
    requires c.Valid() && Reaches(c, run, s) && i < c.Size()
    ensures |s.started| == c.Size() && (s.started[i] <==> Begun(run, i))
    ensures i in s.processed <==> Done(run, i)
    decreases |run|
  {
    hide WfGraph, Apply, Begun, Done;
    if run == [] {
      RecordsStart(c, s, i);
    } else {
      var before, e := LastStep(c, run, s);
      var front := run[..|run| - 1];
      assert run == front + [e];
      RecordsAreTurns(c, front, before, i);
      EventEffects(c, before, e);
      BegunSnoc(front, e, i);
    }
  }

  lemma RecordsStart(c: Instance, s: State, i: nat)
    requires c.Valid() && Reaches(c, [], s) && i < c.Size()
    ensures |s.started| == c.Size() && !s.started[i] && i !in s.processed
    ensures !Begun([], i) && !Done([], i)
  {
  }

  /** If the loop is left normally, every job is done. */
  lemma AllDoneAtExit(c: Instance, run: seq<Event>, s: State, i: nat)
    requires c.Valid() && Reaches(c, run, s) && run != [] && run[|run| - 1].Exit? && i < c.Size()
    ensures Done(run, i)
  {
    hide WfGraph, Apply, Reaches, Done;
    var before, e := LastStep(c, run, s);
    EventEffects(c, before, e);
    FinishedMeansComplete(c, run, s);
    RecordsAreTurns(c, run, s, i);
  }

  /**
   * Whenever a job is joined, as many jobs as the limit allows were in flight, or every job not begun had a parent in the
   * graph that was not done.
   */
  ghost predicate UsesLimit(g: JobGraph, run: seq<Event>, limit: nat) {
    forall k: nat, i: nat | k < |run| && run[k].Join? && i < |g.nodes| && !Begun(run[..k], i) ::
      || |SpawnTurns(run[..k])| == |JoinTurns(run[..k])| + limit
      || exists p: nat :: p < |g.nodes| && HasEdge(g, p, i) && !Done(run[..k], p)
  }

  /** The scheduler waits for a job to end only if it may not spawn another one, or none can be. */
  lemma LimitUsed(c: Instance, run: seq<Event>, s: State)
    requires c.Valid() && Reaches(c, run, s)
    ensures UsesLimit(c.graph, run, c.limit)
  {
    hide Reaches, SpawnTurns, JoinTurns, Begun, Done, WfGraph, IsStart;
    forall k: nat, i: nat | k < |run| && run[k].Join? && i < c.Size() && !Begun(run[..k], i)
      ensures || |SpawnTurns(run[..k])| == |JoinTurns(run[..k])| + c.limit
              || exists p: nat :: p < c.Size() && HasEdge(c.graph, p, i) && !Done(run[..k], p)
    {
      WaitsForParent(c, run, s, k, i);
    }
  }

  lemma WaitsForParent(c: Instance, run: seq<Event>, s: State, k: nat, i: nat)
    requires c.Valid() && Reaches(c, run, s) && k < |run| && run[k].Join?
    requires i < c.Size() && !Begun(run[..k], i)
    ensures || |SpawnTurns(run[..k])| == |JoinTurns(run[..k])| + c.limit
            || exists p: nat :: p < c.Size() && HasEdge(c.graph, p, i) && !Done(run[..k], p)
  {
    hide Reaches, SpawnTurns, JoinTurns, Begun, Done;
    var t := PrefixReaches(c, run, s, k);
    CountersCount(c, run[..k], t);
    RecordsAreTurns(c, run[..k], t, i);
    ReachableInv(c, run[..k], t);
    if t.running < c.limit {
      var p := OpenParent(c, t, i);
      RecordsAreTurns(c, run[..k], t, p);
    }
  }

  /** If nothing is ready, a job not begun has a parent that is not processed. */
  lemma OpenParent(c: Instance, s: State, i: nat) returns (p: nat)
    requires c.Valid() && Inv(c, s) && s.phase.Active? && s.ready == multiset{} && i < c.Size() && !s.started[i]
    ensures p < c.Size() && HasEdge(c.graph, p, i) && p !in s.processed
  {
    hide Placed, ParentsFirst, Counted, VisitedOnce;
    var parents := c.graph.nodes[i].parents;
    assert s.ready[i] == 0;
    assert s.pending[i] == Open(parents, s.processed) > 0;
    OpenZero(parents, s.processed);
    p :| p in parents && p !in s.processed;
  }

  // ---- Conflicts -------------------------------------------------------------------------------------------------

  /**
   * In every run, a job is begun only when each job that conflicts with it and comes first, by priority and then by its
   * place in the list, is done.
   */
  lemma ConflictsAwaited(globs: GlobEngine, jobs: seq<Job>, c: Instance, run: seq<Event>, s: State, i: nat, j: nat, y: nat)
    requires c.Valid() && c.graph == DagOf(globs, jobs) && Reaches(c, run, s)
    requires i < |jobs| && j < |jobs| && PairConflicts(globs, jobs[i], jobs[j])
    requires jobs[i].priority < jobs[j].priority || (jobs[i].priority == jobs[j].priority && i < j)
    requires y < |run| && IsStart(run[y]) && run[y].i == j
    ensures Done(run[..y], i)
  {
    FirstOfConflict(globs, jobs, i, j);
    var t := PrefixReaches(c, run, s, y);
    hide Reaches, Done, WfGraph, PairConflicts, Enabled, DagOf;
    ReachableInv(c, run[..y], t);
    ReadyIsFree(c, t, run[y], i);
    RecordsAreTurns(c, run[..y], t, i);
  }

  lemma FirstOfConflict(globs: GlobEngine, jobs: seq<Job>, i: nat, j: nat)
    requires i < |jobs| && j < |jobs| && PairConflicts(globs, jobs[i], jobs[j])
    requires jobs[i].priority < jobs[j].priority || (jobs[i].priority == jobs[j].priority && i < j)
    ensures |DagOf(globs, jobs).nodes| == |jobs| && HasEdge(DagOf(globs, jobs), i, j)
  {
    hide PairConflicts, DagOf;
    GraphAdjacency(globs, jobs);
  }

  lemma ReadyIsFree(c: Instance, s: State, e: Event, p: nat)
    requires c.Valid() && Inv(c, s) && Enabled(c, s, e) && IsStart(e)
    requires p < c.Size() && e.i < c.Size() && HasEdge(c.graph, p, e.i)
    ensures p in s.processed
  {
    hide Placed, ParentsFirst, Counted, VisitedOnce;
    var parents := c.graph.nodes[e.i].parents;
    assert s.ready[e.i] > 0;
    assert s.pending[e.i] == Open(parents, s.processed) == 0;
    OpenZero(parents, s.processed);
    assert p in parents;
  }
}
