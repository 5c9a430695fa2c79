/** What the scheduler, and a user reading `betterhook explain`, may rely on about the graph. */
module DagTheory {
  import opened Dag

  predicate Before(g: JobGraph, i: nat, j: nat)
    requires i < |g.nodes| && j < |g.nodes|
  {
    OrderFirst(g.nodes[i].job, i, g.nodes[j].job, j)
  }

  predicate HasEdge(g: JobGraph, from: nat, to: nat)
    requires from < |g.nodes|
  {
    to in g.nodes[from].children
  }

  predicate Ascending(s: seq<nat>) {
    forall x, y | 0 <= x < y < |s| :: s[x] < s[y]
  }

  /** Parents and children mirror each other, without repeats, and every edge respects the order. */
  ghost predicate WfGraph(g: JobGraph) {
    && (forall i: nat | i < |g.nodes| ::
          && g.nodes[i].index == i
          && Ascending(g.nodes[i].parents)
          && Ascending(g.nodes[i].children)
          && (forall j | j in g.nodes[i].parents :: j < |g.nodes|)
          && (forall j | j in g.nodes[i].children :: j < |g.nodes|))
    && (forall i: nat, j: nat | i < |g.nodes| && j < |g.nodes| ::
          HasEdge(g, i, j) <==> i in g.nodes[j].parents)
    && (forall i: nat, j: nat | i < |g.nodes| && j < |g.nodes| && HasEdge(g, i, j) ::
          i != j && Before(g, i, j))
  }

  // ---- The order -------------------------------------------------------------------------------

  lemma BeforeTotal(g: JobGraph, i: nat, j: nat)
    requires i < |g.nodes| && j < |g.nodes| && i != j
    ensures Before(g, i, j) != Before(g, j, i)
  {
  }

  lemma BeforeTransitive(g: JobGraph, i: nat, j: nat, k: nat)
    requires i < |g.nodes| && j < |g.nodes| && k < |g.nodes|
    requires Before(g, i, j) && Before(g, j, k)
    ensures Before(g, i, k) && i != k
  {
  }

  /** Every non-empty set of nodes has one that comes before all the others. */
  lemma {:induction false} FirstOf(g: JobGraph, s: set<nat>) returns (m: nat)
    requires s != {} && forall i | i in s :: i < |g.nodes|
    ensures m in s && forall j | j in s && j != m :: Before(g, m, j)
    decreases |s|
  {
    var x :| x in s;
    if s == {x} {
      m := x;
    } else {
      var rest := s - {x};
      assert s == rest + {x};
      var y := FirstOf(g, rest);
      m := if Before(g, x, y) then x else y;
      forall j | j in s && j != m ensures Before(g, m, j) {
        if j != x && j != y {
          assert j in rest;
        }
      }
    }
  }

  // ---- Adjacency lists ---------------------------------------------------------------------------

  lemma {:induction false} AdjacencyBelow(globs: GlobEngine, jobs: seq<Job>, i: nat, bound: nat)
    requires i < |jobs| && bound <= |jobs|
    ensures var ps := ParentsBelow(globs, jobs, i, bound);
            Ascending(ps) && forall j: nat :: j in ps <==> j < bound && Edge(globs, jobs, j, i)
    ensures var cs := ChildrenBelow(globs, jobs, i, bound);
            Ascending(cs) && forall j: nat :: j in cs <==> j < bound && Edge(globs, jobs, i, j)
  {
    if bound > 0 {
      AdjacencyBelow(globs, jobs, i, bound - 1);
      AscendingSnoc(ParentsBelow(globs, jobs, i, bound - 1), bound - 1);
      AscendingSnoc(ChildrenBelow(globs, jobs, i, bound - 1), bound - 1);
    }
  }

  lemma AscendingSnoc(s: seq<nat>, last: nat)
    requires Ascending(s) && forall k | k in s :: k < last
    ensures Ascending(s + [last])
  {
    forall x, y | 0 <= x < y < |s + [last]| ensures (s + [last])[x] < (s + [last])[y] {
      assert s[x] in s;
    }
  }

  /** The numbers below `n`. */
  function Indices(n: nat): (r: set<nat>)
    ensures |r| == n && forall i: nat :: i in r <==> i < n
  {
    if n == 0 then {} else Indices(n - 1) + {n - 1}
  }

  lemma GraphAdjacency(globs: GlobEngine, jobs: seq<Job>)
    ensures var g := DagOf(globs, jobs); |g.nodes| == |jobs| && forall i: nat, j: nat | i < |jobs| && j < |jobs| ::
      && g.nodes[i].job == jobs[i]
      && (HasEdge(g, i, j) <==> Edge(globs, jobs, i, j))
      && (i in g.nodes[j].parents <==> Edge(globs, jobs, i, j))
  {
    forall i: nat | i < |jobs| {
      AdjacencyBelow(globs, jobs, i, |jobs|);
    }
  }

  /** What `build_dag` returns is a well-formed graph. */
  lemma DagIsWellFormed(globs: GlobEngine, jobs: seq<Job>)
    ensures WfGraph(DagOf(globs, jobs))
  {
    GraphAdjacency(globs, jobs);
    forall i: nat | i < |jobs| {
      AdjacencyBelow(globs, jobs, i, |jobs|);
    }
  }

  /** Two distinct jobs are joined by exactly one edge when they conflict, and by none when they do not. */
  lemma OneEdgePerConflict(globs: GlobEngine, jobs: seq<Job>, i: nat, j: nat)
    requires i < |jobs| && j < |jobs| && i != j
    ensures var g := DagOf(globs, jobs);
            && |g.nodes| == |jobs|
            && (PairConflicts(globs, jobs[i], jobs[j]) ==> HasEdge(g, i, j) != HasEdge(g, j, i))
            && (!PairConflicts(globs, jobs[i], jobs[j]) ==> !HasEdge(g, i, j) && !HasEdge(g, j, i))
            && (HasEdge(g, i, j) ==> OrderFirst(jobs[i], i, jobs[j], j))
  {
    GraphAdjacency(globs, jobs);
  }

  // ---- No cycles ----------------------------------------------------------------------------------

  ghost predicate IsPath(g: JobGraph, p: seq<nat>) {
    && |p| > 0
    && (forall k | 0 <= k < |p| :: p[k] < |g.nodes|)
    && (forall k | 0 <= k < |p| - 1 :: HasEdge(g, p[k], p[k + 1]))
  }

  /** Following edges always moves forward in (priority, index) order. */
  lemma {:induction false} PathsAscend(g: JobGraph, p: seq<nat>)
    requires WfGraph(g) && IsPath(g, p) && |p| > 1
    ensures p[0] != p[|p| - 1] && Before(g, p[0], p[|p| - 1])
    decreases |p|
  {
    assert HasEdge(g, p[0], p[0 + 1]);
    if |p| > 2 {
      var rest := p[1..];
      forall k | 0 <= k < |rest| - 1 ensures HasEdge(g, rest[k], rest[k + 1]) {
        assert HasEdge(g, p[k + 1], p[k + 1 + 1]);
      }
      PathsAscend(g, rest);
      BeforeTransitive(g, p[0], p[1], p[|p| - 1]);
    }
  }

  /** No path leads from a node back to itself. */
  lemma Acyclic(globs: GlobEngine, jobs: seq<Job>, p: seq<nat>)
    requires IsPath(DagOf(globs, jobs), p) && |p| > 1
    ensures p[0] != p[|p| - 1]
  {
    DagIsWellFormed(globs, jobs);
    PathsAscend(DagOf(globs, jobs), p);
  }

  /** Indices of the nodes without parents. */
  function RootsFrom(g: JobGraph, i: nat): (r: seq<nat>)
    requires i <= |g.nodes|
    ensures forall k :: k in r <==> i <= k < |g.nodes| && g.nodes[k].parents == []
    ensures Ascending(r)
    decreases |g.nodes| - i
  {
    if i == |g.nodes| then []
    else
      var rest := RootsFrom(g, i + 1);
      assert forall x | 0 <= x < |rest| :: rest[x] in rest;
      if g.nodes[i].parents == [] then [i] + rest else rest
  }

  function Roots(g: JobGraph): seq<nat> {
    RootsFrom(g, 0)
  }

  /** A non-empty job list always gives the scheduler something to start with. */
  lemma RootsExist(globs: GlobEngine, jobs: seq<Job>)
    requires jobs != []
    ensures Roots(DagOf(globs, jobs)) != []
  {
    var g := DagOf(globs, jobs);
    DagIsWellFormed(globs, jobs);
    var all := Indices(|g.nodes|);
    assert 0 in all;
    var m := FirstOf(g, all);
    if g.nodes[m].parents != [] {
      assert WfGraph(g);
      var parent := g.nodes[m].parents[0];
      assert parent in g.nodes[m].parents;
      assert HasEdge(g, parent, m) && Before(g, parent, m);
      BeforeTotal(g, parent, m);
      assert false;
    }
    assert m in Roots(g);
  }

  // ---- Listing the edges ---------------------------------------------------------------------------

  function EdgeCountFrom(g: JobGraph, i: nat): nat
    requires i <= |g.nodes|
    decreases |g.nodes| - i
  {
    if i == |g.nodes| then 0 else |g.nodes[i].children| + EdgeCountFrom(g, i + 1)
  }

  function EdgeCount(g: JobGraph): nat {
    EdgeCountFrom(g, 0)
  }

  /** `edges()` lists every edge once, and as many as `edge_count()` says. */
  method Edges(g: JobGraph) returns (out: seq<(nat, nat)>)
    requires WfGraph(g)
    ensures |out| == EdgeCount(g)
    ensures forall e :: e in out <==> e.0 < |g.nodes| && HasEdge(g, e.0, e.1)
    ensures forall x, y | 0 <= x < y < |out| :: out[x] != out[y]
  {
    out := [];
    for i := 0 to |g.nodes|
      invariant |out| + EdgeCountFrom(g, i) == EdgeCount(g)
      invariant forall e :: e in out <==> e.0 < i && HasEdge(g, e.0, e.1)
      invariant forall x, y | 0 <= x < y < |out| :: out[x] != out[y]
    {
      var children := g.nodes[i].children;
      ghost var prefix := |out|;
      for k := 0 to |children|
        invariant |out| == prefix + k
        invariant forall e :: e in out <==>
          (e.0 < i && HasEdge(g, e.0, e.1)) || (e.0 == i && e.1 in children[..k])
        invariant forall x, y | 0 <= x < y < |out| :: out[x] != out[y]
      {
        assert children[..k + 1] == children[..k] + [children[k]];
        assert children[k] !in children[..k];
        assert (g.nodes[i].index, children[k]) !in out;
        out := out + [(g.nodes[i].index, children[k])];
      }
      assert children[..|children|] == children;
    }
  }

  // ---- Filtering jobs ---------------------------------------------------------------------------

  /** `kept` lists, in order, the positions of the jobs that survive `--skip` and `--only`. */
  predicate IsSelection(kept: seq<nat>, n: nat) {
    Ascending(kept) && forall k | k in kept :: k < n
  }

  function Select(jobs: seq<Job>, kept: seq<nat>): (r: seq<Job>)
    requires IsSelection(kept, |jobs|)
  {
    assert forall x | 0 <= x < |kept| :: kept[x] in kept;
    seq(|kept|, i requires 0 <= i < |kept| => jobs[kept[i]])
  }

  /** Filtering yields the induced subgraph: the jobs that remain keep exactly the edges they had. */
  lemma FilteringInduces(globs: GlobEngine, jobs: seq<Job>, kept: seq<nat>, i: nat, j: nat)
    requires IsSelection(kept, |jobs|) && i < |kept| && j < |kept|
    requires kept[i] in kept && kept[j] in kept
    ensures var whole, part := DagOf(globs, jobs), DagOf(globs, Select(jobs, kept));
            && |part.nodes| == |kept| && |whole.nodes| == |jobs|
            && part.nodes[i].job == whole.nodes[kept[i]].job
            && (HasEdge(part, i, j) <==> HasEdge(whole, kept[i], kept[j]))
            && (Before(part, i, j) <==> Before(whole, kept[i], kept[j]))
  {
    GraphAdjacency(globs, jobs);
    GraphAdjacency(globs, Select(jobs, kept));
    if i < j {
      assert kept[i] < kept[j];
    } else if j < i {
      assert kept[j] < kept[i];
    }
  }
}
