/**
 * Running jobs in parallel leaves the files as running them one by one would.
 *
 * A job is a program of atomic steps over a shared file store. The steps of all jobs in flight
 * interleave in any way; a job only looks at and changes files of its declared footprint, and jobs
 * without an edge between them have footprints that do not meet.
 */
module Serialisability {
  import opened Wrappers
  import opened Dag
  import opened DagTheory
  import opened SchedulerSpec
  import opened SchedulerTheory

  type Path = string
  type Store = map<Path, string>

  function Look(store: Store, p: Path): Option<string> {
    if p in store then Some(store[p]) else None
  }

  /** A job: its steps, when it is over, whether it then counts as failed, and its footprint. */
  datatype Program<!L> = Program(
    init: L,
    step: (L, Store) -> (L, Store),
    finished: L -> bool,
    failed: L -> bool,
    reading: iset<Path>,
    writing: iset<Path>)
  {
    ghost function Footprint(): iset<Path> { reading + writing }
  }

  ghost predicate Agree(ps: iset<Path>, a: Store, b: Store) {
    forall p | p in ps :: Look(a, p) == Look(b, p)
  }

  /** Steps change only written files, and depend only on the footprint. */
  ghost predicate Confined<L(!new)>(prog: Program<L>) {
    && (forall l, s, p | p !in prog.writing :: Look(prog.step(l, s).1, p) == Look(s, p))
    && (forall l, s, s' | Agree(prog.Footprint(), s, s') ::
          prog.step(l, s).0 == prog.step(l, s').0 && Agree(prog.writing, prog.step(l, s).1, prog.step(l, s').1))
  }

  // ---- One job alone ---------------------------------------------------------------------------------

  /** `t` steps of a job from `s`; a finished job takes no more steps. */
  function Iter<L>(prog: Program<L>, s: Store, t: nat): (L, Store) {
    if t == 0 then (prog.init, s)
    else
      var (l, s1) := Iter(prog, s, t - 1);
      if prog.finished(l) then (l, s1) else prog.step(l, s1)
  }

  ghost predicate Halts<L>(prog: Program<L>, s: Store) {
    exists t: nat :: prog.finished(Iter(prog, s, t).0)
  }

  /** Running a job to its end. */
  ghost function RunOf<L>(prog: Program<L>, s: Store): (L, Store) {
    if Halts(prog, s) then
      var t: nat :| prog.finished(Iter(prog, s, t).0);
      Iter(prog, s, t)
    else (prog.init, s)
  }

  lemma {:induction false} IterStable<L>(prog: Program<L>, s: Store, t: nat, u: nat)
    requires t <= u && prog.finished(Iter(prog, s, t).0)
    ensures Iter(prog, s, u) == Iter(prog, s, t)
    decreases u - t
  {
    if t < u {
      IterStable(prog, s, t, u - 1);
    }
  }

  lemma RunOfIter<L>(prog: Program<L>, s: Store, t: nat)
    requires prog.finished(Iter(prog, s, t).0)
    ensures Halts(prog, s) && RunOf(prog, s) == Iter(prog, s, t)
  {
    var u: nat :| prog.finished(Iter(prog, s, u).0) && RunOf(prog, s) == Iter(prog, s, u);
    if t <= u {
      IterStable(prog, s, t, u);
    } else {
      IterStable(prog, s, u, t);
    }
  }

  lemma {:induction false} IterConfined<L(!new)>(prog: Program<L>, s: Store, t: nat, p: Path)
    requires Confined(prog) && p !in prog.writing
    ensures Look(Iter(prog, s, t).1, p) == Look(s, p)
  {
    if t > 0 {
      IterConfined(prog, s, t - 1, p);
    }
  }

  lemma RunConfined<L(!new)>(prog: Program<L>, s: Store, p: Path)
    requires Confined(prog) && p !in prog.writing
    ensures Look(RunOf(prog, s).1, p) == Look(s, p)
  {
    if t: nat :| prog.finished(Iter(prog, s, t).0) {
      RunOfIter(prog, s, t);
      IterConfined(prog, s, t, p);
    }
  }

  /** One step from stores that agree on the footprint gives stores that agree on it. */
  lemma StepAgrees<L(!new)>(prog: Program<L>, l: L, s: Store, s': Store)
    requires Confined(prog) && Agree(prog.Footprint(), s, s')
    ensures prog.step(l, s).0 == prog.step(l, s').0
    ensures Agree(prog.Footprint(), prog.step(l, s).1, prog.step(l, s').1)
  {
    forall p | p in prog.Footprint() ensures Look(prog.step(l, s).1, p) == Look(prog.step(l, s').1, p) {
      if p !in prog.writing {
        assert Look(prog.step(l, s).1, p) == Look(s, p);
        assert Look(prog.step(l, s').1, p) == Look(s', p);
      }
    }
  }

  lemma {:induction false} IterAgrees<L(!new)>(prog: Program<L>, s: Store, s': Store, t: nat)
    requires Confined(prog) && Agree(prog.Footprint(), s, s')
    ensures Iter(prog, s, t).0 == Iter(prog, s', t).0
    ensures Agree(prog.Footprint(), Iter(prog, s, t).1, Iter(prog, s', t).1)
  {
    if t > 0 {
      IterAgrees(prog, s, s', t - 1);
      StepAgrees(prog, Iter(prog, s, t - 1).0, Iter(prog, s, t - 1).1, Iter(prog, s', t - 1).1);
    }
  }

  // ---- The serial run -----------------------------------------------------------------------------------

  /** All jobs, in ascending (priority, index) order. */
  ghost predicate SerialOrder(g: JobGraph, order: seq<nat>) {
    && (forall i: nat :: i in order <==> i < |g.nodes|)
    && (forall x | 0 <= x < |order| :: order[x] < |g.nodes|)
    && (forall x, y | 0 <= x < y < |order| :: order[x] != order[y] && Before(g, order[x], order[y]))
  }

  /** Every graph has a serial order. */
  lemma {:induction false} SerialOrderExists(g: JobGraph, rest: set<nat>, before: seq<nat>) returns (order: seq<nat>)
    requires forall i: nat :: i in rest || i in before <==> i < |g.nodes|
    requires forall x | 0 <= x < |before| :: before[x] < |g.nodes| && before[x] !in rest
    requires forall x, y | 0 <= x < y < |before| :: before[x] != before[y] && Before(g, before[x], before[y])
    requires forall x, j | 0 <= x < |before| && j in rest :: j < |g.nodes| && Before(g, before[x], j)
    ensures SerialOrder(g, order) && before <= order
    decreases |rest|
  {
    if rest == {} {
      order := before;
    } else {
      var m := FirstOf(g, rest);
      var longer := before + [m];
      forall i: nat ensures i in rest - {m} || i in longer <==> i < |g.nodes| {
        assert i in longer <==> i in before || i == m;
      }
      order := SerialOrderExists(g, rest - {m}, longer);
    }
  }

  /** For a job list in running order, as `lower_hook` leaves it, the serial order is the list itself. */
  lemma RunningOrderIsSerial(g: JobGraph)
    requires InRunningOrder(g)
    ensures SerialOrder(g, seq(|g.nodes|, i requires 0 <= i < |g.nodes| => i))
  {
    var order := seq(|g.nodes|, i requires 0 <= i < |g.nodes| => i);
    forall i: nat ensures i in order <==> i < |g.nodes| {
      if i < |g.nodes| {
        assert order[i] == i;
      }
    }
  }

  ghost function Position(order: seq<nat>, i: nat): (k: nat)
    requires i in order
    ensures k < |order| && order[k] == i
  {
    var k :| 0 <= k < |order| && order[k] == i;
    k
  }

  /** The jobs with their graph, their serial order and the files they start from. */
  datatype Problem<!L> = Problem(c: Instance, progs: seq<Program<L>>, order: seq<nat>, start: Store)

  ghost predicate Ordered<L(!new)>(m: Problem<L>) {
    && m.c.Valid() && |m.progs| == m.c.Size() && SerialOrder(m.c.graph, m.order)
    && (forall i: nat | i < |m.progs| :: Confined(m.progs[i]))
  }

  /** Jobs without an edge between them do not write what the other reads or writes. */
  ghost predicate Separated<L(!new)>(m: Problem<L>)
    requires Ordered(m)
  {
    forall i: nat, j: nat | i < m.c.Size() && j < m.c.Size() && i != j &&
        !HasEdge(m.c.graph, i, j) && !HasEdge(m.c.graph, j, i) ::
      m.progs[i].writing !! m.progs[j].Footprint()
  }

  /** The files after the first `k` jobs have run one by one. */
  ghost function Serial<L(!new)>(m: Problem<L>, k: nat): Store
    requires Ordered(m) && k <= |m.order|
  {
    if k == 0 then m.start
    else
      var i := m.order[k - 1];
      if m.c.planned[i] then RunOf(m.progs[i], Serial(m, k - 1)).1 else Serial(m, k - 1)
  }

  /** Whether job `i` fails in the serial run. */
  ghost predicate SerialFails<L(!new)>(m: Problem<L>, i: nat)
    requires Ordered(m) && i < m.c.Size()
  {
    var before := Serial(m, Position(m.order, i));
    m.c.planned[i] && Halts(m.progs[i], before) && m.progs[i].failed(RunOf(m.progs[i], before).0)
  }

  ghost predicate Writes<L(!new)>(m: Problem<L>, i: nat, p: Path)
    requires Ordered(m) && i < m.c.Size()
  {
    m.c.planned[i] && p in m.progs[i].writing
  }

  lemma {:induction false} NoWriters<L(!new)>(m: Problem<L>, j: nat, k: nat, p: Path)
    requires Ordered(m) && j <= k <= |m.order|
    requires forall x | j <= x < k :: !Writes(m, m.order[x], p)
    ensures Look(Serial(m, k), p) == Look(Serial(m, j), p)
    decreases k - j
  {
    if j < k {
      NoWriters(m, j, k - 1, p);
      var i := m.order[k - 1];
      assert !Writes(m, i, p);
      if m.c.planned[i] {
        RunConfined(m.progs[i], Serial(m, k - 1), p);
      }
    }
  }
}
