/**
 * The parallel scheduler as an event machine. One event is one turn of a loop in the executor:
 * popping a ready node (and skipping it, replaying it from the cache, or spawning it), joining one
 * spawned job, or leaving the loop. Which spawned job finishes next, and how, is left open.
 */
module SchedulerSpec {
  import opened Wrappers
  import opened Dag
  import opened DagTheory

  /** A resolved hook: `planned[i]` is false when job `i` matched no files. */
  datatype Instance = Instance(graph: JobGraph, planned: seq<bool>, limit: nat, failFast: bool) {
    function Size(): nat { |graph.nodes| }

    ghost predicate Valid() {
      WfGraph(graph) && |planned| == Size() && limit >= 1
    }
  }

  /** Where the loop stands: running, left normally, stopped by fail-fast, or left with an error. */
  datatype Phase = Active | Finished | Stopped | Errored

  /** The local variables of the loop; the last three components record history. */
  datatype State = State(
    pending: seq<nat>,
    started: seq<bool>,
    ready: multiset<nat>,
    inflight: set<nat>,
    running: nat,
    failed: bool,
    jobsRun: nat,
    jobsSkipped: nat,
    cancelled: bool,
    phase: Phase,
    processed: set<nat>,
    failures: set<nat>,
    visited: seq<nat>)

  datatype Event =
    | Stale(i: nat)                // popped, but already started
    | Skip(i: nat)                 // popped, no plan
    | Hit(i: nat, failing: bool)   // popped, replayed from the cache
    | Spawn(i: nat)                // popped, spawned
    | Join(i: nat, failing: bool)  // a spawned job finished
    | Fault(i: nat)                // a spawned job returned an error
    | Exit                         // nothing in flight after draining

  // ---- Releasing children ----------------------------------------------------------------------

  function ReleaseChild(child: nat, pending: seq<nat>, started: seq<bool>, ready: multiset<nat>)
    : (r: (seq<nat>, multiset<nat>))
    requires |pending| == |started| && child < |pending|
    ensures |r.0| == |pending|
  {
    if pending[child] == 0 then (pending, ready)
    else
      var lowered := pending[child := pending[child] - 1];
      if lowered[child] != 0 || started[child] then (lowered, ready)
      else (lowered, ready + multiset{child})
  }

  function ReleaseAll(children: seq<nat>, pending: seq<nat>, started: seq<bool>, ready: multiset<nat>)
    : (r: (seq<nat>, multiset<nat>))
    requires |pending| == |started| && forall k | 0 <= k < |children| :: children[k] < |pending|
    ensures |r.0| == |pending|
  {
    if children == [] then (pending, ready)
    else
      var front := ReleaseAll(children[..|children| - 1], pending, started, ready);
      ReleaseChild(children[|children| - 1], front.0, started, front.1)
  }

  // ---- The machine -------------------------------------------------------------------------------

  function ParentCounts(g: JobGraph): seq<nat> {
    seq(|g.nodes|, i requires 0 <= i < |g.nodes| => |g.nodes[i].parents|)
  }

  function Init(c: Instance): State {
    State(ParentCounts(c.graph), seq(c.Size(), _ => false), multiset(Roots(c.graph)), {}, 0,
          false, 0, 0, false, Active, {}, {}, [])
  }

  predicate Shaped(c: Instance, s: State) {
    |s.pending| == |s.started| == |c.planned| == c.Size()
  }

  /** `i` is on the heap and comes before everything else on it. */
  predicate IsLeast(g: JobGraph, ready: multiset<nat>, i: nat) {
    && i < |g.nodes| && i in ready
    && (forall j | j in ready && j != i :: j < |g.nodes| && Before(g, i, j))
  }

  /** The loop may pop, and `i` is the node the heap yields. */
  predicate PopYields(c: Instance, s: State, i: nat) {
    s.phase.Active? && s.running < c.limit && IsLeast(c.graph, s.ready, i)
  }

  /** The inner loop has stopped popping. */
  predicate Drained(c: Instance, s: State) {
    s.phase.Active? && (s.running >= c.limit || s.ready == multiset{})
  }

  predicate Enabled(c: Instance, s: State, e: Event) {
    Shaped(c, s) &&
    match e
    case Stale(i) => PopYields(c, s, i) && s.started[i]
    case Skip(i) => PopYields(c, s, i) && !s.started[i] && !c.planned[i]
    case Hit(i, _) => PopYields(c, s, i) && !s.started[i] && c.planned[i] && c.graph.nodes[i].job.concurrentSafe
    case Spawn(i) => PopYields(c, s, i) && !s.started[i] && c.planned[i]
    case Join(i, _) => Drained(c, s) && i < c.Size() && i in s.inflight && s.running > 0
    case Fault(i) => Drained(c, s) && i in s.inflight
    case Exit => Drained(c, s) && s.inflight == {}
  }

  function Popped(s: State, i: nat): State
    requires i < |s.started|
  {
    s.(ready := s.ready - multiset{i}, started := s.started[i := true], visited := s.visited + [i])
  }

  /** Node `i` is done with: each of its children has one pending parent less. */
  function Release(c: Instance, i: nat, pending: seq<nat>, started: seq<bool>, ready: multiset<nat>)
    : (r: (seq<nat>, multiset<nat>))
    requires c.Valid() && i < c.Size() == |pending| == |started|
    ensures |r.0| == |pending|
  {
    var children := c.graph.nodes[i].children;
    assert forall k | 0 <= k < |children| :: children[k] in children;
    ReleaseAll(children, pending, started, ready)
  }

  function Apply(c: Instance, s: State, e: Event): State
    requires c.Valid() && Enabled(c, s, e)
  {
    match e
    case Stale(i) => s.(ready := s.ready - multiset{i})
    case Skip(i) =>
      var r := Release(c, i, s.pending, s.started[i := true], s.ready - multiset{i});
      s.(pending := r.0, started := s.started[i := true], ready := r.1, jobsSkipped := s.jobsSkipped + 1,
         processed := s.processed + {i}, visited := s.visited + [i])
    case Hit(i, failing) =>
      var r := Release(c, i, s.pending, s.started[i := true], s.ready - multiset{i});
      s.(pending := r.0, started := s.started[i := true], ready := r.1, jobsRun := s.jobsRun + 1,
         failed := s.failed || failing, cancelled := s.cancelled || (failing && c.failFast),
         processed := s.processed + {i}, failures := if failing then s.failures + {i} else s.failures,
         visited := s.visited + [i])
    case Spawn(i) =>
      s.(started := s.started[i := true], ready := s.ready - multiset{i}, inflight := s.inflight + {i},
         running := s.running + 1, visited := s.visited + [i])
    case Join(i, failing) =>
      if failing && c.failFast then
        s.(inflight := {}, running := s.running - 1, jobsRun := s.jobsRun + 1, failed := true, cancelled := true,
           processed := s.processed + {i}, failures := s.failures + {i}, phase := Stopped)
      else
        var r := Release(c, i, s.pending, s.started, s.ready);
        s.(pending := r.0, ready := r.1, inflight := s.inflight - {i}, running := s.running - 1,
           jobsRun := s.jobsRun + 1, failed := s.failed || failing,
           processed := s.processed + {i}, failures := if failing then s.failures + {i} else s.failures)
    case Fault(i) => s.(phase := Errored, inflight := {})
    case Exit => s.(phase := Finished)
  }

  /** The state after a run of events, if each of them was enabled when its turn came. */
  ghost function After(c: Instance, run: seq<Event>): Option<State>
    requires c.Valid()
  {
    if run == [] then Some(Init(c))
    else
      var last := |run| - 1;
      var before := After(c, run[..last]);
      if before.Some? && Enabled(c, before.value, run[last]) then Some(Apply(c, before.value, run[last])) else None
  }

  ghost predicate Reaches(c: Instance, run: seq<Event>, s: State)
    requires c.Valid()
  {
    After(c, run) == Some(s)
  }

  // ---- The invariant -----------------------------------------------------------------------------

  /** How many of the listed nodes are not in `processed`. */
  function Open(nodes: seq<nat>, processed: set<nat>): nat {
    if nodes == [] then 0
    else Open(nodes[..|nodes| - 1], processed) + if nodes[|nodes| - 1] in processed then 0 else 1
  }

  function Unplanned(c: Instance): set<nat>
    requires |c.planned| == c.Size()
  {
    set i | i in Indices(c.Size()) && !c.planned[i]
  }

  /** Every node is waiting or ready (not started), in flight, processed, or just leaving; never two at once. */
  ghost predicate Placed(n: nat, leaving: set<nat>, started: seq<bool>, inflight: set<nat>, processed: set<nat>) {
    && |started| == n
    && inflight !! processed && leaving !! inflight + processed
    && inflight + processed + leaving <= Indices(n)
    && (forall i: nat | i < n :: started[i] <==> i in inflight + processed + leaving)
  }

  /** The heap holds, once each, exactly the unstarted nodes without pending parents. */
  ghost predicate HeapExact(n: nat, pending: seq<nat>, started: seq<bool>, ready: multiset<nat>) {
    && |pending| == |started| == n
    && (forall i: nat :: ready[i] == if i < n && !started[i] && pending[i] == 0 then 1 else 0)
  }

  /** `pending[i]` counts the parents of `i` not yet processed. */
  ghost predicate PendingExact(g: JobGraph, pending: seq<nat>, processed: set<nat>) {
    && |pending| == |g.nodes|
    && (forall i: nat | i < |g.nodes| :: pending[i] == Open(g.nodes[i].parents, processed))
  }

  /** A node starts only after all its parents are processed. */
  ghost predicate ParentsFirst(g: JobGraph, started: seq<bool>, processed: set<nat>) {
    && |started| == |g.nodes|
    && (forall i: nat, p: nat | i < |g.nodes| && started[i] && p in g.nodes[i].parents :: p in processed)
  }

  /** The scheduling variables; `leaving` is the node, if any, whose children are about to be released. */
  ghost predicate Scheduling(c: Instance, leaving: set<nat>, pending: seq<nat>, started: seq<bool>,
                             ready: multiset<nat>, inflight: set<nat>, processed: set<nat>, running: nat)
  {
    && Placed(c.Size(), leaving, started, inflight, processed)
    && HeapExact(c.Size(), pending, started, ready)
    && PendingExact(c.graph, pending, processed)
    && ParentsFirst(c.graph, started, processed)
    && |inflight| == running <= c.limit
  }

  /** The report variables. */
  ghost predicate Counted(c: Instance, processed: set<nat>, failures: set<nat>,
                          jobsRun: nat, jobsSkipped: nat, failed: bool, cancelled: bool)
    requires |c.planned| == c.Size()
  {
    && jobsRun + jobsSkipped == |processed|
    && jobsSkipped == |processed * Unplanned(c)|
    && failures <= processed - Unplanned(c)
    && (failed <==> failures != {})
    && (cancelled <==> failures != {} && c.failFast)
  }

  /** `visited` lists each started node once. */
  ghost predicate VisitedOnce(visited: seq<nat>, started: seq<bool>) {
    && (forall x, y | 0 <= x < y < |visited| :: visited[x] != visited[y])
    && (forall i: nat :: i in visited <==> i < |started| && started[i])
  }

  ghost predicate Inv(c: Instance, s: State)
    requires c.Valid()
  {
    && Shaped(c, s)
    && s.inflight !! Unplanned(c)
    && Counted(c, s.processed, s.failures, s.jobsRun, s.jobsSkipped, s.failed, s.cancelled)
    && VisitedOnce(s.visited, s.started)
    && (s.phase.Active? || s.phase.Finished? ==>
          Scheduling(c, {}, s.pending, s.started, s.ready, s.inflight, s.processed, s.running))
    && (s.phase.Finished? ==> s.inflight == {} && s.ready == multiset{})
  }
}
