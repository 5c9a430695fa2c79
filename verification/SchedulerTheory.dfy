/** Safety, completeness, order and accounting of every run of the parallel scheduler. */
module SchedulerTheory {
  import opened Wrappers
  import opened Dag
  import opened DagTheory
  import opened SchedulerSpec

  // ---- One release ---------------------------------------------------------------------------------

  /** One less pending parent for each listed child, and a push for each child that reaches zero. */
  ghost predicate Released(children: seq<nat>, pending: seq<nat>, started: seq<bool>, ready: multiset<nat>,
                           pending': seq<nat>, ready': multiset<nat>)
    requires |pending| == |started|
  {
    && |pending'| == |pending|
    && (forall i: nat | i < |pending| :: pending'[i] == pending[i] - if i in children && pending[i] > 0 then 1 else 0)
    && (forall i: nat :: ready'[i] ==
          ready[i] + if i in children && i < |pending| && pending[i] == 1 && !started[i] then 1 else 0)
  }

  lemma ReleasedSnoc(front: seq<nat>, last: nat, pending: seq<nat>, started: seq<bool>, ready: multiset<nat>,
                     pending': seq<nat>, ready': multiset<nat>)
    requires |pending| == |started| && last < |pending| && last !in front
    requires Released(front, pending, started, ready, pending', ready')
    ensures var r := ReleaseChild(last, pending', started, ready');
            Released(front + [last], pending, started, ready, r.0, r.1)
  {
    var r := ReleaseChild(last, pending', started, ready');
    var all := front + [last];
    assert pending'[last] == pending[last];
    forall i: nat | i < |pending|
      ensures r.0[i] == pending[i] - if i in all && pending[i] > 0 then 1 else 0
    {
      assert i in all <==> i in front || i == last;
    }
    forall i: nat
      ensures r.1[i] == ready[i] + if i in all && i < |pending| && pending[i] == 1 && !started[i] then 1 else 0
    {
      assert i in all <==> i in front || i == last;
    }
  }

  /** The net effect of releasing a duplicate-free list of children, one after another. */
  lemma {:induction false} ReleaseEffect(children: seq<nat>, pending: seq<nat>, started: seq<bool>, ready: multiset<nat>)
    requires |pending| == |started| && Ascending(children)
    requires forall k | 0 <= k < |children| :: children[k] < |pending|
    ensures var r := ReleaseAll(children, pending, started, ready);
            Released(children, pending, started, ready, r.0, r.1)
  {
    if children == [] {
      assert Released(children, pending, started, ready, pending, ready);
    } else {
      hide Released, ReleaseChild, Ascending;
      var front, last := children[..|children| - 1], children[|children| - 1];
      FrontAscending(children, |pending|);
      ReleaseEffect(front, pending, started, ready);
      var r := ReleaseAll(front, pending, started, ready);
      ReleasedSnoc(front, last, pending, started, ready, r.0, r.1);
    }
  }

  lemma FrontAscending(children: seq<nat>, n: nat)
    requires children != [] && Ascending(children) && forall k | 0 <= k < |children| :: children[k] < n
    ensures var front, last := children[..|children| - 1], children[|children| - 1];
            && Ascending(front) && last < n && last !in front && children == front + [last]
            && forall k | 0 <= k < |front| :: front[k] < n
  {
    assert forall k | 0 <= k < |children| - 1 :: children[k] < children[|children| - 1];
  }

  lemma {:induction false} OpenStep(nodes: seq<nat>, processed: set<nat>, i: nat)
    requires Ascending(nodes) && i !in processed
    ensures Open(nodes, processed) == Open(nodes, processed + {i}) + if i in nodes then 1 else 0
  {
    if nodes != [] {
      var front, last := nodes[..|nodes| - 1], nodes[|nodes| - 1];
      OpenStep(front, processed, i);
      assert nodes == front + [last];
      assert last !in front by {
        assert forall k | 0 <= k < |front| :: nodes[k] < last;
      }
    }
  }

  lemma {:induction false} OpenZero(nodes: seq<nat>, processed: set<nat>)
    ensures Open(nodes, processed) == 0 <==> forall p | p in nodes :: p in processed
  {
    if nodes != [] {
      var front, last := nodes[..|nodes| - 1], nodes[|nodes| - 1];
      OpenZero(front, processed);
      assert nodes == front + [last];
    }
  }

  lemma {:induction false} OpenNone(nodes: seq<nat>)
    ensures Open(nodes, {}) == |nodes|
  {
    if nodes != [] {
      OpenNone(nodes[..|nodes| - 1]);
    }
  }

  // ---- The invariant holds throughout ----------------------------------------------------------------

  lemma InitHeap(c: Instance)
    requires c.Valid()
    ensures var s := Init(c); HeapExact(c.Size(), s.pending, s.started, s.ready)
  {
    var s, roots := Init(c), Roots(c.graph);
    forall i: nat ensures s.ready[i] == if i in roots then 1 else 0 {
      DistinctOnce(roots, i);
    }
  }

  lemma InitPending(c: Instance)
    requires c.Valid()
    ensures PendingExact(c.graph, Init(c).pending, {})
  {
    hide WfGraph, Roots;
    forall i: nat | i < c.Size() {
      OpenNone(c.graph.nodes[i].parents);
    }
  }

  lemma InitInv(c: Instance)
    requires c.Valid()
    ensures Inv(c, Init(c))
  {
    hide WfGraph, HeapExact, PendingExact, Roots, ParentCounts;
    InitHeap(c);
    InitPending(c);
  }

  lemma {:induction false} DistinctOnce(s: seq<nat>, i: nat)
    requires Ascending(s)
    ensures multiset(s)[i] == if i in s then 1 else 0
  {
    if s != [] {
      var front, last := s[..|s| - 1], s[|s| - 1];
      DistinctOnce(front, i);
      assert s == front + [last];
      assert last !in front by {
        assert forall k | 0 <= k < |front| :: s[k] < last;
      }
    }
  }

  lemma ReleasePending(g: JobGraph, i: nat, pending: seq<nat>, started: seq<bool>, ready: multiset<nat>, processed: set<nat>)
    requires WfGraph(g) && i < |g.nodes| && i !in processed
    requires PendingExact(g, pending, processed) && |started| == |pending|
    ensures var children := g.nodes[i].children;
            && (forall k | 0 <= k < |children| :: children[k] < |pending| && pending[children[k]] > 0)
            && var r := ReleaseAll(children, pending, started, ready);
               PendingExact(g, r.0, processed + {i})
  {
    var children := g.nodes[i].children;
    assert forall k | 0 <= k < |children| :: children[k] in children;
    ReleaseEffect(children, pending, started, ready);
    forall k: nat | k < |g.nodes|
      ensures pending[k] == Open(g.nodes[k].parents, processed + {i}) + if k in children then 1 else 0
    {
      OpenStep(g.nodes[k].parents, processed, i);
      assert HasEdge(g, i, k) <==> i in g.nodes[k].parents;
    }
  }

  lemma ReleaseUnstarted(g: JobGraph, i: nat, started: seq<bool>, processed: set<nat>)
    requires WfGraph(g) && i < |g.nodes| && i !in processed && ParentsFirst(g, started, processed)
    ensures forall k | k in g.nodes[i].children :: k < |started| && !started[k]
  {
    forall k | k in g.nodes[i].children ensures k < |started| && !started[k] {
      assert HasEdge(g, i, k);
    }
  }

  lemma ReleaseHeap(n: nat, children: seq<nat>, pending: seq<nat>, started: seq<bool>, ready: multiset<nat>)
    requires HeapExact(n, pending, started, ready) && Ascending(children)
    requires forall k | 0 <= k < |children| :: children[k] < n && pending[children[k]] > 0
    ensures var r := ReleaseAll(children, pending, started, ready);
            HeapExact(n, r.0, started, r.1)
  {
    ReleaseEffect(children, pending, started, ready);
    var r := ReleaseAll(children, pending, started, ready);
    forall i: nat ensures r.1[i] == if i < n && !started[i] && r.0[i] == 0 then 1 else 0 {
      assert ready[i] == if i < n && !started[i] && pending[i] == 0 then 1 else 0;
    }
  }

  /** Releasing the children of a node that is leaving restores the scheduling invariant. */
  lemma LeavingDone(c: Instance, i: nat, pending: seq<nat>, started: seq<bool>, ready: multiset<nat>,
                    inflight: set<nat>, processed: set<nat>, running: nat)
    requires c.Valid() && i < c.Size()
    requires Scheduling(c, {i}, pending, started, ready, inflight, processed, running)
    ensures && |pending| == |started| == c.Size()
            && var r := Release(c, i, pending, started, ready);
               Scheduling(c, {}, r.0, started, r.1, inflight, processed + {i}, running)
  {
    hide WfGraph, Placed, HeapExact, PendingExact, ParentsFirst, ReleaseAll, Ascending;
    ChildrenAscend(c.graph, i);
    LeavingPlaced(c.Size(), i, started, inflight, processed);
    ParentsFirstMore(c.graph, i, started, processed);
    SameSizes(c, pending, started, ready);
    ReleasePending(c.graph, i, pending, started, ready, processed);
    ReleaseHeap(c.Size(), c.graph.nodes[i].children, pending, started, ready);
  }

  lemma ChildrenAscend(g: JobGraph, i: nat)
    requires WfGraph(g) && i < |g.nodes|
    ensures Ascending(g.nodes[i].children)
  {
  }

  lemma LeavingPlaced(n: nat, i: nat, started: seq<bool>, inflight: set<nat>, processed: set<nat>)
    requires Placed(n, {i}, started, inflight, processed)
    ensures Placed(n, {}, started, inflight, processed + {i}) && i !in processed
  {
    assert inflight + processed + {i} == inflight + (processed + {i}) + {};
  }

  lemma ParentsFirstMore(g: JobGraph, i: nat, started: seq<bool>, processed: set<nat>)
    requires ParentsFirst(g, started, processed)
    ensures ParentsFirst(g, started, processed + {i})
  {
  }

  lemma SameSizes(c: Instance, pending: seq<nat>, started: seq<bool>, ready: multiset<nat>)
    requires HeapExact(c.Size(), pending, started, ready)
    ensures |pending| == |started| == c.Size()
  {
  }

  /** What `release_child` asserts, at each of the children in turn: its count is positive and it has not been started. */
  ghost predicate ReleaseAssertions(children: seq<nat>, pending: seq<nat>, started: seq<bool>, ready: multiset<nat>)
    requires |pending| == |started|
  {
    && (forall k | 0 <= k < |children| :: children[k] < |pending|)
    && (forall k | 0 <= k < |children| ::
          ReleaseAll(children[..k], pending, started, ready).0[children[k]] > 0 && !started[children[k]])
  }

  lemma ReleasesChild(c: Instance, i: nat, k: nat, pending: seq<nat>, started: seq<bool>, ready: multiset<nat>, processed: set<nat>)
    requires c.Valid() && i < c.Size() == |started| && i !in processed && k < |c.graph.nodes[i].children|
    requires PendingExact(c.graph, pending, processed) && ParentsFirst(c.graph, started, processed)
    ensures var children := c.graph.nodes[i].children;
            && (forall x | 0 <= x < |children| :: children[x] < |pending|)
            && ReleaseAll(children[..k], pending, started, ready).0[children[k]] > 0
            && !started[children[k]]
  {
    var children := c.graph.nodes[i].children;
    ReleasePending(c.graph, i, pending, started, ready, processed);
    ReleaseUnstarted(c.graph, i, started, processed);
    ReleaseEffect(children[..k], pending, started, ready);
    assert children[k] !in children[..k] by {
      assert forall x | 0 <= x < k :: children[x] < children[k];
    }
    assert children[k] in children;
  }

  lemma LeavingReleases(c: Instance, i: nat, pending: seq<nat>, started: seq<bool>, ready: multiset<nat>,
                        inflight: set<nat>, processed: set<nat>, running: nat)
    requires c.Valid() && i < c.Size()
    requires Scheduling(c, {i}, pending, started, ready, inflight, processed, running)
    ensures ReleaseAssertions(c.graph.nodes[i].children, pending, started, ready)
  {
    hide WfGraph, HeapExact, PendingExact, ParentsFirst, ReleaseAll;
    var children := c.graph.nodes[i].children;
    assert |pending| == |started| == c.Size() by { SameSizes(c, pending, started, ready); }
    assert i !in processed;
    if children != [] {
      ReleasesChild(c, i, 0, pending, started, ready, processed);
    }
    forall k | 0 <= k < |children|
      ensures ReleaseAll(children[..k], pending, started, ready).0[children[k]] > 0 && !started[children[k]]
    {
      ReleasesChild(c, i, k, pending, started, ready, processed);
    }
  }

  lemma PoppedHeap(n: nat, i: nat, pending: seq<nat>, started: seq<bool>, ready: multiset<nat>)
    requires HeapExact(n, pending, started, ready) && i in ready
    ensures i < n && !started[i] && pending[i] == 0
    ensures HeapExact(n, pending, started[i := true], ready - multiset{i})
  {
    assert ready[i] > 0;
    var ready', started' := ready - multiset{i}, started[i := true];
    forall k: nat ensures ready'[k] == if k < n && !started'[k] && pending[k] == 0 then 1 else 0 {
      assert ready[k] == if k < n && !started[k] && pending[k] == 0 then 1 else 0;
    }
  }

  /** Taking node `i` out of the heap. */
  lemma PoppedLeaving(c: Instance, i: nat, pending: seq<nat>, started: seq<bool>, ready: multiset<nat>,
                      inflight: set<nat>, processed: set<nat>, running: nat)
    requires i in ready
    requires Scheduling(c, {}, pending, started, ready, inflight, processed, running)
    ensures i < c.Size() && !started[i] && i !in inflight && i !in processed
    ensures forall p | p in c.graph.nodes[i].parents :: p in processed
    ensures Scheduling(c, {i}, pending, started[i := true], ready - multiset{i}, inflight, processed, running)
  {
    PoppedHeap(c.Size(), i, pending, started, ready);
    OpenZero(c.graph.nodes[i].parents, processed);
    assert inflight + processed + {} == inflight + processed;
  }

  /** A leaving node may instead stay in flight. */
  lemma LeavingSpawned(c: Instance, i: nat, pending: seq<nat>, started: seq<bool>, ready: multiset<nat>,
                       inflight: set<nat>, processed: set<nat>, running: nat)
    requires running < c.limit
    requires Scheduling(c, {i}, pending, started, ready, inflight, processed, running)
    ensures Scheduling(c, {}, pending, started, ready, inflight + {i}, processed, running + 1)
  {
    assert inflight + {i} + processed + {} == inflight + processed + {i};
  }

  /** A joined node is leaving. */
  lemma JoinedLeaving(c: Instance, i: nat, pending: seq<nat>, started: seq<bool>, ready: multiset<nat>,
                      inflight: set<nat>, processed: set<nat>, running: nat)
    requires i in inflight && running > 0
    requires Scheduling(c, {}, pending, started, ready, inflight, processed, running)
    ensures i < c.Size() && i !in processed
    ensures Scheduling(c, {i}, pending, started, ready, inflight - {i}, processed, running - 1)
  {
    assert inflight - {i} + processed + {i} == inflight + processed + {};
  }

  lemma PoppedVisited(visited: seq<nat>, started: seq<bool>, i: nat)
    requires VisitedOnce(visited, started) && i < |started| && !started[i]
    ensures VisitedOnce(visited + [i], started[i := true])
  {
    var v := visited + [i];
    assert i !in visited;
    forall x, y | 0 <= x < y < |v| ensures v[x] != v[y] {
      assert v[x] == visited[x] && visited[x] in visited;
    }
    forall k: nat ensures k in v <==> k in visited || k == i {
    }
  }

  lemma CountStep(c: Instance, processed: set<nat>, i: nat)
    requires c.Valid() && i < c.Size() && i !in processed
    ensures |processed + {i}| == |processed| + 1
    ensures |(processed + {i}) * Unplanned(c)| == |processed * Unplanned(c)| + if c.planned[i] then 0 else 1
  {
    if c.planned[i] {
      assert (processed + {i}) * Unplanned(c) == processed * Unplanned(c);
    } else {
      assert (processed + {i}) * Unplanned(c) == processed * Unplanned(c) + {i};
    }
  }

  /** A planned job that is done counts as run, and as failed if it failed. */
  lemma CountRun(c: Instance, processed: set<nat>, failures: set<nat>, jobsRun: nat, jobsSkipped: nat, failed: bool,
                 cancelled: bool, i: nat, failing: bool)
    requires c.Valid() && i < c.Size() && i !in processed && c.planned[i]
    requires Counted(c, processed, failures, jobsRun, jobsSkipped, failed, cancelled)
    ensures Counted(c, processed + {i}, if failing then failures + {i} else failures, jobsRun + 1, jobsSkipped,
                    failed || failing, cancelled || (failing && c.failFast))
  {
    hide WfGraph;
    CountStep(c, processed, i);
  }

  lemma StepSkip(c: Instance, s: State, i: nat)
    requires c.Valid() && Inv(c, s) && Enabled(c, s, Skip(i))
    ensures Inv(c, Apply(c, s, Skip(i)))
  {
    hide WfGraph, Scheduling, Release, ReleaseAll, Placed, HeapExact, PendingExact, ParentsFirst, VisitedOnce;
    PoppedLeaving(c, i, s.pending, s.started, s.ready, s.inflight, s.processed, s.running);
    PoppedVisited(s.visited, s.started, i);
    CountStep(c, s.processed, i);
    var t := Popped(s, i);
    LeavingDone(c, i, t.pending, t.started, t.ready, t.inflight, t.processed, t.running);
  }

  lemma StepHit(c: Instance, s: State, i: nat, failing: bool)
    requires c.Valid() && Inv(c, s) && Enabled(c, s, Hit(i, failing))
    ensures Inv(c, Apply(c, s, Hit(i, failing)))
  {
    hide WfGraph, Scheduling, Release, ReleaseAll, Placed, HeapExact, PendingExact, ParentsFirst, VisitedOnce, Counted;
    PoppedLeaving(c, i, s.pending, s.started, s.ready, s.inflight, s.processed, s.running);
    PoppedVisited(s.visited, s.started, i);
    CountRun(c, s.processed, s.failures, s.jobsRun, s.jobsSkipped, s.failed, s.cancelled, i, failing);
    var t := Popped(s, i);
    LeavingDone(c, i, t.pending, t.started, t.ready, t.inflight, t.processed, t.running);
  }

  lemma StepSpawn(c: Instance, s: State, i: nat)
    requires c.Valid() && Inv(c, s) && Enabled(c, s, Spawn(i))
    ensures Inv(c, Apply(c, s, Spawn(i)))
  {
    hide WfGraph, Scheduling, ReleaseAll, Placed, HeapExact, PendingExact, ParentsFirst, VisitedOnce;
    PoppedLeaving(c, i, s.pending, s.started, s.ready, s.inflight, s.processed, s.running);
    PoppedVisited(s.visited, s.started, i);
    var t := Popped(s, i);
    LeavingSpawned(c, i, t.pending, t.started, t.ready, t.inflight, t.processed, t.running);
  }

  lemma JoinedPlace(c: Instance, s: State, i: nat)
    requires c.Valid() && Inv(c, s) && s.phase.Active? && i in s.inflight && s.running > 0
    ensures i < c.Size() && i !in s.processed && c.planned[i]
    ensures Scheduling(c, {i}, s.pending, s.started, s.ready, s.inflight - {i}, s.processed, s.running - 1)
  {
    hide WfGraph, Scheduling, Counted, VisitedOnce;
    JoinedLeaving(c, i, s.pending, s.started, s.ready, s.inflight, s.processed, s.running);
    assert i !in Unplanned(c);
  }

  lemma StepStop(c: Instance, s: State, i: nat)
    requires c.Valid() && Inv(c, s) && Enabled(c, s, Join(i, true)) && c.failFast
    ensures Inv(c, Apply(c, s, Join(i, true)))
  {
    hide WfGraph, Scheduling, VisitedOnce, Counted;
    JoinedPlace(c, s, i);
    CountRun(c, s.processed, s.failures, s.jobsRun, s.jobsSkipped, s.failed, s.cancelled, i, true);
  }

  lemma StepJoin(c: Instance, s: State, i: nat, failing: bool)
    requires c.Valid() && Inv(c, s) && Enabled(c, s, Join(i, failing)) && !(failing && c.failFast)
    ensures Inv(c, Apply(c, s, Join(i, failing)))
  {
    hide WfGraph, Scheduling, Release, ReleaseAll, VisitedOnce, Counted;
    JoinedPlace(c, s, i);
    CountRun(c, s.processed, s.failures, s.jobsRun, s.jobsSkipped, s.failed, s.cancelled, i, failing);
    LeavingDone(c, i, s.pending, s.started, s.ready, s.inflight - {i}, s.processed, s.running - 1);
  }

  /** Every event keeps the invariant, and a node already started never comes out of the heap. */
  lemma StepInv(c: Instance, s: State, e: Event)
    requires c.Valid() && Inv(c, s) && Enabled(c, s, e)
    ensures Inv(c, Apply(c, s, e))
    ensures !e.Stale?
  {
    match e
    case Stale(i) =>
      PoppedHeap(c.Size(), i, s.pending, s.started, s.ready);
      assert false;
    case Skip(i) => StepSkip(c, s, i);
    case Hit(i, failing) => StepHit(c, s, i, failing);
    case Spawn(i) => StepSpawn(c, s, i);
    case Join(i, failing) =>
      if failing && c.failFast {
        StepStop(c, s, i);
      } else {
        StepJoin(c, s, i, failing);
      }
    case Fault(i) =>
    case Exit =>
  }

  /** The invariant holds after every run. */
  lemma {:induction false} ReachableInv(c: Instance, run: seq<Event>, s: State)
    requires c.Valid() && Reaches(c, run, s)
    ensures Inv(c, s)
    decreases |run|
  {
    if run == [] {
      InitInv(c);
    } else {
      var last := |run| - 1;
      var before := After(c, run[..last]).value;
      ReachableInv(c, run[..last], before);
      StepInv(c, before, run[last]);
    }
  }

  /** A turn after which a node's children are released. */
  predicate Releases(c: Instance, e: Event) {
    IsDone(e) && !(e.Join? && e.failing && c.failFast)
  }

  /** Both debug assertions of `release_child` hold at every child, at every release of every run. */
  lemma ReleaseAssertionsHold(c: Instance, run: seq<Event>, s: State, e: Event)
    requires c.Valid() && Reaches(c, run, s) && Enabled(c, s, e) && Releases(c, e)
    ensures e.i < c.Size() == |s.started| == |s.pending|
    ensures if e.Join? then ReleaseAssertions(c.graph.nodes[e.i].children, s.pending, s.started, s.ready)
            else ReleaseAssertions(c.graph.nodes[e.i].children, s.pending, s.started[e.i := true], s.ready - multiset{e.i})
  {
    hide WfGraph, Reaches, Placed, HeapExact, PendingExact, ParentsFirst, ReleaseAssertions;
    ReachableInv(c, run, s);
    if e.Join? {
      JoinedLeaving(c, e.i, s.pending, s.started, s.ready, s.inflight, s.processed, s.running);
      LeavingReleases(c, e.i, s.pending, s.started, s.ready, s.inflight - {e.i}, s.processed, s.running - 1);
    } else {
      PoppedLeaving(c, e.i, s.pending, s.started, s.ready, s.inflight, s.processed, s.running);
      LeavingReleases(c, e.i, s.pending, s.started[e.i := true], s.ready - multiset{e.i}, s.inflight, s.processed, s.running);
    }
  }

  /** The last event of a run, and the state it was applied to. */
  lemma LastStep(c: Instance, run: seq<Event>, s: State) returns (before: State, e: Event)
    requires c.Valid() && Reaches(c, run, s) && run != []
    ensures e == run[|run| - 1]
    ensures Reaches(c, run[..|run| - 1], before) && Enabled(c, before, e) && s == Apply(c, before, e)
  {
    e := run[|run| - 1];
    before := After(c, run[..|run| - 1]).value;
  }

  predicate IsStart(e: Event) {
    e.Skip? || e.Hit? || e.Spawn?
  }

  predicate IsDone(e: Event) {
    e.Skip? || e.Hit? || e.Join?
  }

  /** What one event does to the variables the later results are about. */
  lemma EventEffects(c: Instance, s: State, e: Event)
    requires c.Valid() && Enabled(c, s, e)
    ensures var t := Apply(c, s, e);
      && t.started == (if IsStart(e) then s.started[e.i := true] else s.started)
      && t.visited == (if IsStart(e) then s.visited + [e.i] else s.visited)
      && t.processed == (if IsDone(e) then s.processed + {e.i} else s.processed)
      && t.failures == (if (e.Hit? || e.Join?) && e.failing then s.failures + {e.i} else s.failures)
      && t.inflight == (if e.Spawn? then s.inflight + {e.i}
                        else if e.Fault? || (e.Join? && e.failing && c.failFast) then {}
                        else if e.Join? then s.inflight - {e.i} else s.inflight)
      && t.phase == (if e.Exit? then Finished else if e.Fault? then Errored
                     else if e.Join? && e.failing && c.failFast then Stopped else s.phase)
      && (e.Exit? ==> t == s.(phase := Finished))
  {
    hide WfGraph, Apply, Enabled;
    StartEffects(c, s, e);
    OutcomeEffects(c, s, e);
    PlaceEffects(c, s, e);
  }

  lemma StartEffects(c: Instance, s: State, e: Event)
    requires c.Valid() && Enabled(c, s, e)
    ensures IsStart(e) ==> e.i < |s.started|
    ensures Apply(c, s, e).started == if IsStart(e) then s.started[e.i := true] else s.started
    ensures Apply(c, s, e).visited == if IsStart(e) then s.visited + [e.i] else s.visited
    ensures e.Exit? ==> Apply(c, s, e) == s.(phase := Finished)
  {
    hide WfGraph, Release;
  }

  lemma OutcomeEffects(c: Instance, s: State, e: Event)
    requires c.Valid() && Enabled(c, s, e)
    ensures Apply(c, s, e).processed == if IsDone(e) then s.processed + {e.i} else s.processed
    ensures Apply(c, s, e).failures == if (e.Hit? || e.Join?) && e.failing then s.failures + {e.i} else s.failures
  {
    hide WfGraph, Release;
  }

  lemma PlaceEffects(c: Instance, s: State, e: Event)
    requires c.Valid() && Enabled(c, s, e)
    ensures Apply(c, s, e).inflight ==
            if e.Spawn? then s.inflight + {e.i}
            else if e.Fault? || (e.Join? && e.failing && c.failFast) then {}
            else if e.Join? then s.inflight - {e.i} else s.inflight
    ensures Apply(c, s, e).phase ==
            if e.Exit? then Finished else if e.Fault? then Errored
            else if e.Join? && e.failing && c.failFast then Stopped else s.phase
  {
    hide WfGraph, Release;
  }

  // ---- Safety ---------------------------------------------------------------------------------------

  /** Two conflicting jobs are never in flight together, whatever the limit and the completion order. */
  lemma ConflictingNeverTogether(globs: GlobEngine, jobs: seq<Job>, c: Instance, run: seq<Event>, s: State, i: nat, j: nat)
    requires c.Valid() && c.graph == DagOf(globs, jobs) && Reaches(c, run, s)
    requires i in s.inflight && j in s.inflight && i != j
    ensures i < |jobs| && j < |jobs| && !PairConflicts(globs, jobs[i], jobs[j])
  {
    ReachableInv(c, run, s);
    if s.phase.Active? || s.phase.Finished? {
      assert Scheduling(c, {}, s.pending, s.started, s.ready, s.inflight, s.processed, s.running);
      assert i in s.inflight + s.processed + {} && j in s.inflight + s.processed + {};
      OneEdgePerConflict(globs, jobs, i, j);
      assert HasEdge(c.graph, i, j) <==> i in c.graph.nodes[j].parents;
      assert HasEdge(c.graph, j, i) <==> j in c.graph.nodes[i].parents;
    } else {
      InflightEmptied(c, run, s);
      assert false;
    }
  }

  lemma InflightEmptied(c: Instance, run: seq<Event>, s: State)
    requires c.Valid() && Reaches(c, run, s) && (s.phase.Stopped? || s.phase.Errored?)
    ensures s.inflight == {}
  {
    assert run != [];
    var before, e := LastStep(c, run, s);
    EventEffects(c, before, e);
  }

  lemma {:induction false} StartedStays(c: Instance, run: seq<Event>, s: State, x: nat)
    requires c.Valid() && Reaches(c, run, s) && x < |run| && IsStart(run[x])
    ensures run[x].i < |s.started| && s.started[run[x].i]
    decreases |run|
  {
    hide WfGraph, Reaches, Apply;
    var before, e := LastStep(c, run, s);
    EventEffects(c, before, e);
    if x < |run| - 1 {
      StartedStays(c, run[..|run| - 1], before, x);
    }
  }

  /** No job is skipped, replayed or spawned a second time. */
  lemma {:induction false} NoJobStartsTwice(c: Instance, run: seq<Event>, s: State, x: nat, y: nat)
    requires c.Valid() && Reaches(c, run, s)
    requires x < y < |run| && IsStart(run[x]) && IsStart(run[y])
    ensures run[x].i != run[y].i
    decreases |run|
  {
    hide WfGraph, Reaches, Apply, IsLeast;
    var before, e := LastStep(c, run, s);
    if y == |run| - 1 {
      StartedStays(c, run[..y], before, x);
    } else {
      NoJobStartsTwice(c, run[..|run| - 1], before, x, y);
    }
  }

  // ---- Completeness -----------------------------------------------------------------------------------

  /** If nothing is in flight, the first unstarted node is ready. */
  lemma FirstUnstartedReady(c: Instance, s: State) returns (m: nat)
    requires c.Valid() && Inv(c, s) && s.phase.Active? && s.inflight == {}
    requires exists i: nat :: i < c.Size() && !s.started[i]
    ensures m < c.Size() && !s.started[m] && m in s.ready
    ensures forall j: nat | j < c.Size() && !s.started[j] && j != m :: Before(c.graph, m, j)
  {
    var unstarted := set i | i in Indices(c.Size()) && !s.started[i];
    var w: nat :| w < c.Size() && !s.started[w];
    assert w in unstarted;
    m := FirstOf(c.graph, unstarted);
    var g := c.graph;
    forall p | p in g.nodes[m].parents ensures p in s.processed {
      assert HasEdge(g, p, m) && Before(g, p, m);
      if p in unstarted {
        BeforeTotal(g, p, m);
        assert false;
      }
      assert p in s.inflight + s.processed + {};
    }
    OpenZero(g.nodes[m].parents, s.processed);
    assert s.ready[m] == 1;
  }

  lemma NothingUnstarted(c: Instance, s: State)
    requires c.Valid() && Inv(c, s) && s.phase.Active? && s.inflight == {} && s.ready == multiset{}
    ensures s.processed == Indices(c.Size())
  {
    if exists i: nat :: i < c.Size() && !s.started[i] {
      var m := FirstUnstartedReady(c, s);
      assert false;
    }
    forall i | i in Indices(c.Size()) ensures i in s.processed {
      assert s.started[i];
      assert i in s.inflight + s.processed + {};
    }
  }

  /** The loop is left normally only when every node has been processed: there is no deadlock. */
  lemma FinishedMeansComplete(c: Instance, run: seq<Event>, s: State)
    requires c.Valid() && Reaches(c, run, s) && s.phase.Finished?
    ensures s.processed == Indices(c.Size())
  {
    assert run != [];
    var before, e := LastStep(c, run, s);
    EventEffects(c, before, e);
    ReachableInv(c, run[..|run| - 1], before);
    assert e.Exit? && before.phase.Active?;
    NothingUnstarted(c, before);
  }

  /** The least ready node in (priority, index) order. */
  lemma HeapTop(c: Instance, s: State) returns (i: nat)
    requires c.Valid() && Inv(c, s) && s.phase.Active? && s.running < c.limit && s.ready != multiset{}
    ensures PopYields(c, s, i)
  {
    var w :| w in s.ready;
    var heap := set i | i in s.ready;
    assert w in heap;
    forall i | i in heap ensures i < c.Size() {
      assert s.ready[i] > 0;
    }
    i := FirstOf(c.graph, heap);
  }

  /** Some event is always enabled until the loop has been left. */
  lemma Progress(c: Instance, run: seq<Event>, s: State)
    requires c.Valid() && Reaches(c, run, s) && s.phase.Active?
    ensures exists e :: Enabled(c, s, e)
  {
    ReachableInv(c, run, s);
    if s.running < c.limit && s.ready != multiset{} {
      var i := HeapTop(c, s);
      PoppedHeap(c.Size(), i, s.pending, s.started, s.ready);
      if c.planned[i] {
        assert Enabled(c, s, Spawn(i));
      } else {
        assert Enabled(c, s, Skip(i));
      }
    } else if s.inflight == {} {
      assert Enabled(c, s, Exit);
    } else {
      var i :| i in s.inflight;
      assert i in Indices(c.Size());
      assert Enabled(c, s, Join(i, false));
    }
  }

  function Weight(c: Instance, s: State): int {
    if s.phase.Active? then 1 + 2 * (c.Size() - |s.processed|) - |s.inflight| else 0
  }

  /** Every run is finite: with `n` jobs it takes at most `2n + 1` turns of the loops. */
  lemma {:induction false} RunsAreBounded(c: Instance, run: seq<Event>, s: State)
    requires c.Valid() && Reaches(c, run, s)
    ensures |run| + Weight(c, s) <= 2 * c.Size() + 1
    ensures |run| <= 2 * c.Size() + 1
    decreases |run|
  {
    ReachableInv(c, run, s);
    if s.phase.Active? {
      ActiveWeight(c, s);
    }
    if run != [] {
      var before, e := LastStep(c, run, s);
      RunsAreBounded(c, run[..|run| - 1], before);
      ReachableInv(c, run[..|run| - 1], before);
      StepInv(c, before, e);
      StepWeight(c, before, e);
    }
  }

  lemma ActiveWeight(c: Instance, s: State)
    requires c.Valid() && Inv(c, s) && s.phase.Active?
    ensures Weight(c, s) >= 1
  {
    var all := s.inflight + s.processed;
    assert all <= Indices(c.Size());
    SubsetSize(all, Indices(c.Size()));
    assert |all| == |s.inflight| + |s.processed|;
  }

  lemma SubsetSize(a: set<nat>, b: set<nat>)
    requires a <= b
    ensures |a| <= |b|
  {
    assert |b| == |a| + |b - a| by {
      assert b == a + (b - a);
    }
  }

  lemma Placing(c: Instance, s: State, e: Event)
    requires c.Valid() && Inv(c, s) && Enabled(c, s, e)
    ensures IsStart(e) ==> e.i !in s.processed && e.i !in s.inflight
    ensures e.Join? ==> e.i !in s.processed && e.i in s.inflight
    ensures s.phase.Active?
  {
    if IsStart(e) {
      PoppedLeaving(c, e.i, s.pending, s.started, s.ready, s.inflight, s.processed, s.running);
    }
  }

  lemma StepWeight(c: Instance, s: State, e: Event)
    requires c.Valid() && Inv(c, s) && Enabled(c, s, e) && !e.Stale?
    ensures Weight(c, Apply(c, s, e)) < Weight(c, s)
  {
    hide WfGraph, Apply, Inv, Scheduling;
    ActiveWeight(c, s);
    Placing(c, s, e);
    EventEffects(c, s, e);
  }

  // ---- Determinism of the report ------------------------------------------------------------------------

  /** The outcome of each job that runs or is replayed is the one `fails` gives. */
  ghost predicate Outcomes(run: seq<Event>, fails: set<nat>) {
    forall k | 0 <= k < |run| && (run[k].Hit? || run[k].Join?) :: run[k].failing <==> run[k].i in fails
  }

  lemma {:induction false} FailuresExact(c: Instance, run: seq<Event>, s: State, fails: set<nat>)
    requires c.Valid() && Reaches(c, run, s) && Outcomes(run, fails)
    ensures s.failures == (s.processed - Unplanned(c)) * fails
    decreases |run|
  {
    if run != [] {
      var before, e := LastStep(c, run, s);
      FailuresExact(c, run[..|run| - 1], before, fails);
      ReachableInv(c, run[..|run| - 1], before);
      FailureStep(c, before, e, fails);
    }
  }

  lemma FailureStep(c: Instance, s: State, e: Event, fails: set<nat>)
    requires c.Valid() && Inv(c, s) && Enabled(c, s, e)
    requires s.failures == (s.processed - Unplanned(c)) * fails
    requires e.Hit? || e.Join? ==> (e.failing <==> e.i in fails)
    ensures var t := Apply(c, s, e); t.failures == (t.processed - Unplanned(c)) * fails
  {
    hide WfGraph, Apply, Enabled, Inv;
    EventEffects(c, s, e);
    if IsDone(e) {
      DonePlanned(c, s, e);
    }
  }

  lemma DonePlanned(c: Instance, s: State, e: Event)
    requires c.Valid() && Inv(c, s) && Enabled(c, s, e) && IsDone(e)
    ensures e.Skip? <==> e.i in Unplanned(c)
  {
  }

  /**
   * A run that is left normally accounts for every job, and its report depends only on the jobs and
   * their outcomes: not on the limit, and not on the order in which jobs finished.
   */
  lemma ReportIsDetermined(c: Instance, run: seq<Event>, s: State, fails: set<nat>)
    requires c.Valid() && Reaches(c, run, s) && s.phase.Finished? && Outcomes(run, fails)
    ensures s.jobsSkipped == |Unplanned(c)|
    ensures s.jobsRun == c.Size() - |Unplanned(c)|
    ensures s.failed <==> exists i: nat :: i < c.Size() && c.planned[i] && i in fails
  {
    ReachableInv(c, run, s);
    FinishedMeansComplete(c, run, s);
    FailuresExact(c, run, s, fails);
    assert Indices(c.Size()) * Unplanned(c) == Unplanned(c);
    if s.failed {
      var i :| i in s.failures;
      assert i < c.Size() && c.planned[i];
    }
    if i: nat :| i < c.Size() && c.planned[i] && i in fails {
      assert i in s.failures;
    }
  }

  // ---- Order under limit one -----------------------------------------------------------------------------

  /** Visited nodes come in (priority, index) order, ahead of every node not yet visited. */
  ghost predicate VisitedInOrder(g: JobGraph, visited: seq<nat>) {
    && (forall x | 0 <= x < |visited| :: visited[x] < |g.nodes|)
    && (forall x, y | 0 <= x < y < |visited| :: Before(g, visited[x], visited[y]))
    && (forall x, j: nat | 0 <= x < |visited| && j < |g.nodes| && j !in visited :: Before(g, visited[x], j))
  }

  lemma VisitNext(g: JobGraph, visited: seq<nat>, i: nat)
    requires VisitedInOrder(g, visited) && i < |g.nodes| && i !in visited
    requires forall j: nat | j < |g.nodes| && j !in visited && j != i :: Before(g, i, j)
    ensures VisitedInOrder(g, visited + [i])
  {
    var v := visited + [i];
    forall x, j: nat | 0 <= x < |v| && j < |g.nodes| && j !in v ensures Before(g, v[x], j) {
      assert j !in visited && j != i by {
        assert i in v && forall k | k in visited :: k in v;
      }
    }
  }

  lemma LimitOneStarts(c: Instance, s: State, i: nat)
    requires c.Valid() && c.limit == 1 && Inv(c, s) && PopYields(c, s, i)
    ensures i !in s.visited
    ensures forall j: nat | j < c.Size() && j !in s.visited && j != i :: Before(c.graph, i, j)
  {
    assert s.inflight == {};
    assert s.ready[i] == 1;
    var m := FirstUnstartedReady(c, s);
    if m != i {
      BeforeTotal(c.graph, m, i);
      assert false;
    }
  }

  /** With a limit of one, jobs are started or skipped in exactly ascending (priority, index) order. */
  lemma {:induction false} LimitOneKeepsPriorityOrder(c: Instance, run: seq<Event>, s: State)
    requires c.Valid() && c.limit == 1 && Reaches(c, run, s)
    ensures VisitedInOrder(c.graph, s.visited)
    decreases |run|
  {
    if run != [] {
      var before, e := LastStep(c, run, s);
      LimitOneKeepsPriorityOrder(c, run[..|run| - 1], before);
      ReachableInv(c, run[..|run| - 1], before);
      EventEffects(c, before, e);
      if IsStart(e) {
        LimitOneStarts(c, before, e.i);
        VisitNext(c.graph, before.visited, e.i);
      }
    }
  }

  /** The job list is already in running order, as `lower_hook` leaves it. */
  ghost predicate InRunningOrder(g: JobGraph) {
    forall i: nat, j: nat | i < j < |g.nodes| :: Before(g, i, j)
  }

  lemma {:induction false} OrderedVisits(g: JobGraph, visited: seq<nat>, k: nat)
    requires InRunningOrder(g) && VisitedInOrder(g, visited) && k < |visited|
    ensures visited[k] == k
    decreases k
  {
    var v := visited[k];
    forall x: nat | x < k ensures visited[x] == x && Before(g, x, v) {
      OrderedVisits(g, visited, x);
      assert Before(g, visited[x], visited[k]);
    }
    assert !Before(g, v, v);
    assert v >= k;
    if v > k {
      assert Before(g, k, v) && !Before(g, v, k);
      assert k in visited;
      var y :| 0 <= y < |visited| && visited[y] == k;
      assert false;
    }
  }

  /** On a lowered hook, a limit of one visits jobs 0, 1, 2, ... as the sequential runner does. */
  lemma LimitOneIsSequential(c: Instance, run: seq<Event>, s: State)
    requires c.Valid() && c.limit == 1 && InRunningOrder(c.graph) && Reaches(c, run, s)
    ensures forall k | 0 <= k < |s.visited| :: s.visited[k] == k
    ensures s.phase.Finished? ==> |s.visited| == c.Size()
  {
    ReachableInv(c, run, s);
    LimitOneKeepsPriorityOrder(c, run, s);
    forall k | 0 <= k < |s.visited| ensures s.visited[k] == k {
      OrderedVisits(c.graph, s.visited, k);
    }
    if s.phase.Finished? {
      FinishedMeansComplete(c, run, s);
      forall u: nat ensures u in s.visited <==> u < c.Size() {
        assert u in s.inflight + s.processed + {} <==> u in Indices(c.Size());
      }
      assert |s.visited| in s.visited <==> |s.visited| < c.Size();
      assert |s.visited| > 0 ==> s.visited[|s.visited| - 1] in s.visited;
    }
  }
}
