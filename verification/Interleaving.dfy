/** The parallel run over a shared store, and its equivalence with the serial run. */
module Interleaving {
  import opened Wrappers
  import opened Dag
  import opened DagTheory
  import opened SchedulerSpec
  import opened SchedulerTheory
  import opened Serialisability

  /** Scheduler state, files, and the local state and step count of each spawned job. */
  datatype World<!L> = World(sched: State, store: Store, locals: map<nat, L>, steps: map<nat, nat>)

  /** A turn of the scheduler loop, or one atomic step of a job in flight. */
  datatype Act = Turn(e: Event) | Micro(i: nat)

  function Begin<L>(m: Problem<L>): World<L> {
    World(Init(m.c), m.start, map[], map[])
  }

  /** Replaying job `i` is allowed when running it now would change no file and end the same way. */
  ghost predicate Transparent<L(!new)>(prog: Program<L>, store: Store, failing: bool) {
    && Halts(prog, store)
    && (forall p :: Look(RunOf(prog, store).1, p) == Look(store, p))
    && (prog.failed(RunOf(prog, store).0) <==> failing)
  }

  ghost predicate CanAct<L(!new)>(m: Problem<L>, w: World<L>, a: Act)
    requires Ordered(m)
  {
    match a
    case Micro(i) =>
      && w.sched.phase.Active? && i in w.sched.inflight && i < |m.progs|
      && i in w.locals && i in w.steps && !m.progs[i].finished(w.locals[i])
    case Turn(e) =>
      && Enabled(m.c, w.sched, e)
      && (e.Join? ==> e.i in w.locals && m.progs[e.i].finished(w.locals[e.i]) &&
                      (e.failing <==> m.progs[e.i].failed(w.locals[e.i])))
      && (e.Hit? ==> Transparent(m.progs[e.i], w.store, e.failing))
  }

  function Perform<L(!new)>(m: Problem<L>, w: World<L>, a: Act): World<L>
    requires Ordered(m) && CanAct(m, w, a)
  {
    match a
    case Micro(i) =>
      var (l, s) := m.progs[i].step(w.locals[i], w.store);
      w.(store := s, locals := w.locals[i := l], steps := w.steps[i := w.steps[i] + 1])
    case Turn(e) =>
      var next := w.(sched := Apply(m.c, w.sched, e));
      if e.Spawn? then next.(locals := w.locals[e.i := m.progs[e.i].init], steps := w.steps[e.i := 0]) else next
  }

  /** The world after a sequence of acts, if each was possible when its turn came. */
  ghost function Play<L(!new)>(m: Problem<L>, acts: seq<Act>): Option<World<L>>
    requires Ordered(m)
  {
    if acts == [] then Some(Begin(m))
    else
      var last := |acts| - 1;
      var before := Play(m, acts[..last]);
      if before.Some? && CanAct(m, before.value, acts[last]) then Some(Perform(m, before.value, acts[last])) else None
  }

  // ---- The simulation invariant ------------------------------------------------------------------------

  /** The writers of `p` are processed up to serial position `k`, and not started from there on. */
  ghost predicate Settled<L(!new)>(m: Problem<L>, s: State, p: Path, k: nat)
    requires Ordered(m) && k <= |m.order|
  {
    forall x | 0 <= x < |m.order| && Writes(m, m.order[x], p) ::
      if x < k then m.order[x] in s.processed
      else m.order[x] !in s.processed && m.order[x] !in s.inflight
  }

  /** A file whose writers are settled at `k` has its content after `k` serial jobs. */
  ghost predicate FilesMatch<L(!new)>(m: Problem<L>, w: World<L>)
    requires Ordered(m)
  {
    forall p: Path, k: nat | k <= |m.order| && Settled(m, w.sched, p, k) :: Look(w.store, p) == Look(Serial(m, k), p)
  }

  /** A job in flight is where it would be after as many steps of its serial run. */
  ghost predicate JobMatches<L(!new)>(m: Problem<L>, w: World<L>, i: nat)
    requires Ordered(m) && i < m.c.Size()
  {
    && i in w.locals && i in w.steps
    && var at := Iter(m.progs[i], Serial(m, Position(m.order, i)), w.steps[i]);
       w.locals[i] == at.0 && Agree(m.progs[i].Footprint(), w.store, at.1)
  }

  /** Files, jobs in flight and recorded outcomes all match the serial run. */
  ghost predicate Matches<L(!new)>(m: Problem<L>, w: World<L>)
    requires Ordered(m)
  {
    && FilesMatch(m, w)
    && (forall i | i in w.sched.inflight :: i < m.c.Size() && m.c.planned[i] && JobMatches(m, w, i))
    && (forall i | i in w.sched.processed :: i < m.c.Size() && (i in w.sched.failures <==> SerialFails(m, i)))
  }

  ghost predicate Simulates<L(!new)>(m: Problem<L>, w: World<L>)
    requires Ordered(m)
  {
    Inv(m.c, w.sched) && (w.sched.phase.Active? || w.sched.phase.Finished? ==> Matches(m, w))
  }

  lemma PositionUnique(g: JobGraph, order: seq<nat>, x: nat)
    requires SerialOrder(g, order) && x < |order|
    ensures Position(order, order[x]) == x
  {
  }

  lemma OrderedPositions<L(!new)>(m: Problem<L>, x: nat, y: nat)
    requires Ordered(m) && x < |m.order| && y < |m.order|
    ensures x < y <==> m.order[x] != m.order[y] && Before(m.c.graph, m.order[x], m.order[y])
  {
    if y < x {
      BeforeTotal(m.c.graph, m.order[y], m.order[x]);
    }
  }

  /** Two jobs that meet on a file one of them writes are joined by an edge, in serial order. */
  lemma MeetingHasEdge<L(!new)>(m: Problem<L>, i: nat, j: nat, p: Path)
    requires Ordered(m) && Separated(m) && i < m.c.Size() && j < m.c.Size() && i != j
    requires p in m.progs[i].writing && p in m.progs[j].Footprint()
    ensures if Position(m.order, i) < Position(m.order, j) then i in m.c.graph.nodes[j].parents
            else j in m.c.graph.nodes[i].parents
  {
    var g := m.c.graph;
    OrderedPositions(m, Position(m.order, i), Position(m.order, j));
    OrderedPositions(m, Position(m.order, j), Position(m.order, i));
    assert HasEdge(g, i, j) <==> i in g.nodes[j].parents;
    assert HasEdge(g, j, i) <==> j in g.nodes[i].parents;
    var apart := m.progs[i].writing !! m.progs[j].Footprint();
    assert !apart;
    assert HasEdge(g, i, j) || HasEdge(g, j, i) || apart;
    BeforeTotal(g, i, j);
  }

  /** What the scheduler guarantees about the parents of jobs. */
  ghost predicate StartedAfterParents(c: Instance, s: State) {
    && (forall i, p | i in s.inflight + s.processed && i < c.Size() && p in c.graph.nodes[i].parents :: p in s.processed)
    && s.inflight !! s.processed
  }

  lemma SchedulerFacts(c: Instance, s: State)
    requires c.Valid() && Inv(c, s) && (s.phase.Active? || s.phase.Finished?)
    ensures StartedAfterParents(c, s)
  {
    forall i, p | i in s.inflight + s.processed && i < c.Size() && p in c.graph.nodes[i].parents ensures p in s.processed {
      assert i in s.inflight + s.processed + {};
    }
  }

  /** When all parents of an unstarted job are processed, every file it touches is settled at its position. */
  lemma SettledAtStart<L(!new)>(m: Problem<L>, s: State, i: nat, p: Path)
    requires Ordered(m) && Separated(m) && StartedAfterParents(m.c, s)
    requires i < m.c.Size() && i !in s.inflight && i !in s.processed
    requires forall q | q in m.c.graph.nodes[i].parents :: q in s.processed
    requires p in m.progs[i].Footprint()
    ensures Settled(m, s, p, Position(m.order, i))
  {
    var k := Position(m.order, i);
    forall x | 0 <= x < |m.order| && Writes(m, m.order[x], p)
      ensures if x < k then m.order[x] in s.processed else m.order[x] !in s.processed && m.order[x] !in s.inflight
    {
      var j := m.order[x];
      PositionUnique(m.c.graph, m.order, x);
      if j != i {
        MeetingHasEdge(m, j, i, p);
      }
    }
  }

  lemma AgreeAtStart<L(!new)>(m: Problem<L>, w: World<L>, i: nat)
    requires Ordered(m) && Separated(m) && FilesMatch(m, w) && StartedAfterParents(m.c, w.sched)
    requires i < m.c.Size() && i !in w.sched.inflight && i !in w.sched.processed
    requires forall q | q in m.c.graph.nodes[i].parents :: q in w.sched.processed
    ensures Agree(m.progs[i].Footprint(), w.store, Serial(m, Position(m.order, i)))
  {
    forall p | p in m.progs[i].Footprint() ensures Look(w.store, p) == Look(Serial(m, Position(m.order, i)), p) {
      SettledAtStart(m, w.sched, i, p);
    }
  }

  /**
   * Once job `i` is processed and a file it writes is settled at `k`, nobody writes that file between
   * `i` and position `k`, so the content after `i` is the content after `k` jobs.
   */
  lemma SettledAfter<L(!new)>(m: Problem<L>, s: State, i: nat, p: Path, k: nat)
    requires Ordered(m) && Separated(m) && StartedAfterParents(m.c, s)
    requires i < m.c.Size() && i !in s.processed && Writes(m, i, p)
    requires k <= |m.order| && Settled(m, s.(processed := s.processed + {i}, inflight := s.inflight - {i}), p, k)
    ensures Position(m.order, i) < k
    ensures Look(Serial(m, k), p) == Look(Serial(m, Position(m.order, i) + 1), p)
  {
    var at := Position(m.order, i);
    assert Writes(m, m.order[at], p);
    forall x | at + 1 <= x < k ensures !Writes(m, m.order[x], p) {
      var j := m.order[x];
      PositionUnique(m.c.graph, m.order, x);
      assert Writes(m, j, p) ==> j in s.processed;
      if Writes(m, j, p) {
        MeetingHasEdge(m, i, j, p);
        assert false;
      }
    }
    NoWriters(m, at + 1, k, p);
  }

  /** Settledness of a file depends only on where its writers are. */
  lemma SettledSame<L(!new)>(m: Problem<L>, s: State, s': State, i: nat, p: Path, k: nat)
    requires Ordered(m) && k <= |m.order| && i < m.c.Size() && !Writes(m, i, p)
    requires forall j | j != i :: (j in s.processed <==> j in s'.processed) && (j in s.inflight <==> j in s'.inflight)
    requires Settled(m, s', p, k)
    ensures Settled(m, s, p, k)
  {
  }

  // ---- Each act keeps the simulation --------------------------------------------------------------------

  /** The stepping job keeps pace with its serial run. */
  lemma OwnStepMatches<L(!new)>(m: Problem<L>, w: World<L>, i: nat, w': World<L>)
    requires Ordered(m) && i < m.c.Size() && JobMatches(m, w, i) && !m.progs[i].finished(w.locals[i])
    requires w'.locals == w.locals[i := m.progs[i].step(w.locals[i], w.store).0]
    requires w'.store == m.progs[i].step(w.locals[i], w.store).1 && w'.steps == w.steps[i := w.steps[i] + 1]
    ensures JobMatches(m, w', i)
  {
    var from := Serial(m, Position(m.order, i));
    var at := Iter(m.progs[i], from, w.steps[i]);
    StepAgrees(m.progs[i], at.0, w.store, at.1);
    assert Iter(m.progs[i], from, w.steps[i] + 1) == m.progs[i].step(at.0, at.1);
  }

  lemma MicroFiles<L(!new)>(m: Problem<L>, w: World<L>, i: nat)
    requires Ordered(m) && FilesMatch(m, w) && StartedAfterParents(m.c, w.sched) && CanAct(m, w, Micro(i))
    requires i < m.c.Size() && m.c.planned[i]
    ensures FilesMatch(m, Perform(m, w, Micro(i)))
  {
    var w' := Perform(m, w, Micro(i));
    forall p: Path, k: nat | k <= |m.order| && Settled(m, w'.sched, p, k)
      ensures Look(w'.store, p) == Look(Serial(m, k), p)
    {
      assert !Writes(m, m.order[Position(m.order, i)], p);
      assert Look(m.progs[i].step(w.locals[i], w.store).1, p) == Look(w.store, p);
    }
  }

  lemma MicroKeeps<L(!new)>(m: Problem<L>, w: World<L>, i: nat)
    requires Ordered(m) && Separated(m) && Simulates(m, w) && CanAct(m, w, Micro(i))
    ensures Simulates(m, Perform(m, w, Micro(i)))
  {
    hide WfGraph, Inv, Confined, FilesMatch, StartedAfterParents, SerialFails;
    var w' := Perform(m, w, Micro(i));
    SchedulerFacts(m.c, w.sched);
    MicroFiles(m, w, i);
    OwnStepMatches(m, w, i, w');
    forall j | j in w'.sched.inflight ensures JobMatches(m, w', j) {
      if j != i {
        OthersUntouched(m, w, i, j);
        assert JobMatches(m, w, j);
      }
    }
  }

  /** A step of one job in flight leaves the footprints of the others alone. */
  lemma OthersUntouched<L(!new)>(m: Problem<L>, w: World<L>, i: nat, j: nat)
    requires Ordered(m) && Separated(m) && StartedAfterParents(m.c, w.sched) && CanAct(m, w, Micro(i))
    requires i < m.c.Size() && j < m.c.Size() && j in w.sched.inflight && j != i
    ensures Agree(m.progs[j].Footprint(), m.progs[i].step(w.locals[i], w.store).1, w.store)
  {
    forall p | p in m.progs[j].Footprint()
      ensures Look(m.progs[i].step(w.locals[i], w.store).1, p) == Look(w.store, p)
    {
      if p in m.progs[i].writing {
        MeetingHasEdge(m, i, j, p);
        assert false;
      }
    }
  }

  lemma ReadyToStart(c: Instance, s: State, e: Event)
    requires c.Valid() && Inv(c, s) && Enabled(c, s, e) && IsStart(e)
    ensures e.i < c.Size() && e.i !in s.inflight && e.i !in s.processed && e.i !in s.failures
    ensures forall q | q in c.graph.nodes[e.i].parents :: q in s.processed
    ensures c.planned[e.i] <==> !e.Skip?
  {
    PoppedLeaving(c, e.i, s.pending, s.started, s.ready, s.inflight, s.processed, s.running);
  }

  /** Job `i` joins those in flight, at the start of its program. */
  lemma SpawnMatches<L(!new)>(m: Problem<L>, w: World<L>, i: nat, w': World<L>)
    requires Ordered(m) && Separated(m) && Matches(m, w) && StartedAfterParents(m.c, w.sched)
    requires i < m.c.Size() && m.c.planned[i] && i !in w.sched.inflight && i !in w.sched.processed
    requires forall q | q in m.c.graph.nodes[i].parents :: q in w.sched.processed
    requires w'.store == w.store && w'.locals == w.locals[i := m.progs[i].init] && w'.steps == w.steps[i := 0]
    requires w'.sched.inflight == w.sched.inflight + {i}
    requires w'.sched.processed == w.sched.processed && w'.sched.failures == w.sched.failures
    ensures Matches(m, w')
  {
    AgreeAtStart(m, w, i);
    assert JobMatches(m, w', i);
    forall j | j in w'.sched.inflight && j != i ensures JobMatches(m, w', j) {
      assert JobMatches(m, w, j);
    }
    forall p: Path, k: nat | k <= |m.order| && Settled(m, w'.sched, p, k)
      ensures Look(w'.store, p) == Look(Serial(m, k), p)
    {
      assert Settled(m, w.sched, p, k);
    }
  }

  lemma SpawnKeeps<L(!new)>(m: Problem<L>, w: World<L>, i: nat)
    requires Ordered(m) && Separated(m) && Simulates(m, w) && CanAct(m, w, Turn(Spawn(i)))
    ensures Simulates(m, Perform(m, w, Turn(Spawn(i))))
  {
    hide WfGraph, Apply, Inv, Matches, Confined;
    StepInv(m.c, w.sched, Spawn(i));
    SchedulerFacts(m.c, w.sched);
    ReadyToStart(m.c, w.sched, Spawn(i));
    EventEffects(m.c, w.sched, Spawn(i));
    SpawnMatches(m, w, i, Perform(m, w, Turn(Spawn(i))));
  }

  /** Job `i` is processed; what it writes is as after its serial run, and it ended as it does there. */
  lemma FinishMatches<L(!new)>(m: Problem<L>, w: World<L>, i: nat, w': World<L>)
    requires Ordered(m) && Separated(m) && Matches(m, w) && StartedAfterParents(m.c, w.sched)
    requires i < m.c.Size() && i !in w.sched.processed && i !in w.sched.failures
    requires w' == w.(sched := w'.sched)
    requires w'.sched.processed == w.sched.processed + {i} && w'.sched.inflight == w.sched.inflight - {i}
    requires w'.sched.failures == if SerialFails(m, i) then w.sched.failures + {i} else w.sched.failures
    requires forall p | Writes(m, i, p) :: Look(w.store, p) == Look(Serial(m, Position(m.order, i) + 1), p)
    ensures Matches(m, w')
  {
    forall p: Path, k: nat | k <= |m.order| && Settled(m, w'.sched, p, k)
      ensures Look(w'.store, p) == Look(Serial(m, k), p)
    {
      if Writes(m, i, p) {
        assert Settled(m, w.sched.(processed := w.sched.processed + {i}, inflight := w.sched.inflight - {i}), p, k);
        SettledAfter(m, w.sched, i, p, k);
      } else {
        SettledSame(m, w.sched, w'.sched, i, p, k);
      }
    }
    forall j | j in w'.sched.inflight ensures JobMatches(m, w', j) {
      assert JobMatches(m, w, j);
    }
  }

  lemma SkipKeeps<L(!new)>(m: Problem<L>, w: World<L>, i: nat)
    requires Ordered(m) && Separated(m) && Simulates(m, w) && CanAct(m, w, Turn(Skip(i)))
    ensures Simulates(m, Perform(m, w, Turn(Skip(i))))
  {
    hide WfGraph, Apply, Inv, Matches, Confined;
    var w' := Perform(m, w, Turn(Skip(i)));
    StepInv(m.c, w.sched, Skip(i));
    SchedulerFacts(m.c, w.sched);
    ReadyToStart(m.c, w.sched, Skip(i));
    EventEffects(m.c, w.sched, Skip(i));
    assert w'.sched.inflight == w.sched.inflight - {i};
    FinishMatches(m, w, i, w');
  }

  /** A job in flight that is over has written what it writes in the serial run, and ends as it does there. */
  lemma OverAsInSerial<L(!new)>(m: Problem<L>, w: World<L>, i: nat)
    requires Ordered(m) && i < m.c.Size() && m.c.planned[i] && JobMatches(m, w, i) && m.progs[i].finished(w.locals[i])
    ensures m.progs[i].failed(w.locals[i]) <==> SerialFails(m, i)
    ensures forall p | Writes(m, i, p) :: Look(w.store, p) == Look(Serial(m, Position(m.order, i) + 1), p)
  {
    RunOfIter(m.progs[i], Serial(m, Position(m.order, i)), w.steps[i]);
  }

  lemma JoinKeeps<L(!new)>(m: Problem<L>, w: World<L>, i: nat, failing: bool)
    requires Ordered(m) && Separated(m) && Simulates(m, w) && CanAct(m, w, Turn(Join(i, failing)))
    requires !m.c.failFast
    ensures Simulates(m, Perform(m, w, Turn(Join(i, failing))))
  {
    hide WfGraph, Apply, Inv, Confined, FilesMatch, JobMatches, SerialFails;
    var w' := Perform(m, w, Turn(Join(i, failing)));
    StepInv(m.c, w.sched, Join(i, failing));
    SchedulerFacts(m.c, w.sched);
    Placing(m.c, w.sched, Join(i, failing));
    FailuresProcessed(m.c, w.sched, i);
    EventEffects(m.c, w.sched, Join(i, failing));
    OverAsInSerial(m, w, i);
    FinishMatches(m, w, i, w');
  }

  lemma FailuresProcessed(c: Instance, s: State, i: nat)
    requires c.Valid() && Inv(c, s) && i !in s.processed
    ensures i !in s.failures
  {
  }

  /** A transparent replay has the outcome of the serial run, which would write nothing new. */
  lemma ReplayAsInSerial<L(!new)>(m: Problem<L>, w: World<L>, i: nat, failing: bool)
    requires Ordered(m) && i < m.c.Size() && m.c.planned[i] && Transparent(m.progs[i], w.store, failing)
    requires Agree(m.progs[i].Footprint(), w.store, Serial(m, Position(m.order, i)))
    ensures failing <==> SerialFails(m, i)
    ensures forall p | Writes(m, i, p) :: Look(w.store, p) == Look(Serial(m, Position(m.order, i) + 1), p)
  {
    var from := Serial(m, Position(m.order, i));
    var t: nat :| m.progs[i].finished(Iter(m.progs[i], w.store, t).0);
    RunOfIter(m.progs[i], w.store, t);
    IterAgrees(m.progs[i], w.store, from, t);
    RunOfIter(m.progs[i], from, t);
  }

  lemma HitKeeps<L(!new)>(m: Problem<L>, w: World<L>, i: nat, failing: bool)
    requires Ordered(m) && Separated(m) && Simulates(m, w) && CanAct(m, w, Turn(Hit(i, failing)))
    ensures Simulates(m, Perform(m, w, Turn(Hit(i, failing))))
  {
    hide WfGraph, Apply, Inv, Confined, FilesMatch, JobMatches, SerialFails, Transparent;
    var w' := Perform(m, w, Turn(Hit(i, failing)));
    StepInv(m.c, w.sched, Hit(i, failing));
    SchedulerFacts(m.c, w.sched);
    ReadyToStart(m.c, w.sched, Hit(i, failing));
    EventEffects(m.c, w.sched, Hit(i, failing));
    AgreeAtStart(m, w, i);
    ReplayAsInSerial(m, w, i, failing);
    assert w'.sched.inflight == w.sched.inflight - {i};
    FinishMatches(m, w, i, w');
  }

  lemma ActKeeps<L(!new)>(m: Problem<L>, w: World<L>, a: Act)
    requires Ordered(m) && Separated(m) && Simulates(m, w) && CanAct(m, w, a) && !m.c.failFast
    ensures Simulates(m, Perform(m, w, a))
  {
    match a
    case Micro(i) => MicroKeeps(m, w, i);
    case Turn(Stale(i)) => StepInv(m.c, w.sched, Stale(i)); assert false;
    case Turn(Spawn(i)) => SpawnKeeps(m, w, i);
    case Turn(Skip(i)) => SkipKeeps(m, w, i);
    case Turn(Hit(i, failing)) => HitKeeps(m, w, i, failing);
    case Turn(Join(i, failing)) => JoinKeeps(m, w, i, failing);
    case Turn(Fault(i)) => StepInv(m.c, w.sched, Fault(i));
    case Turn(Exit) => ExitKeeps(m, w);
  }

  lemma ExitKeeps<L(!new)>(m: Problem<L>, w: World<L>)
    requires Ordered(m) && Simulates(m, w) && CanAct(m, w, Turn(Exit))
    ensures Simulates(m, Perform(m, w, Turn(Exit)))
  {
    var w' := Perform(m, w, Turn(Exit));
    StepInv(m.c, w.sched, Exit);
    forall p: Path, k: nat | k <= |m.order| && Settled(m, w'.sched, p, k)
      ensures Look(w'.store, p) == Look(Serial(m, k), p)
    {
      assert Settled(m, w.sched, p, k);
    }
  }

  lemma BeginSimulates<L(!new)>(m: Problem<L>)
    requires Ordered(m)
    ensures Simulates(m, Begin(m))
  {
    InitInv(m.c);
    var w := Begin(m);
    forall p: Path, k: nat | k <= |m.order| && Settled(m, w.sched, p, k)
      ensures Look(w.store, p) == Look(Serial(m, k), p)
    {
      forall x | 0 <= x < k ensures !Writes(m, m.order[x], p) {
      }
      NoWriters(m, 0, k, p);
    }
  }

  lemma {:induction false} PlaySimulates<L(!new)>(m: Problem<L>, acts: seq<Act>, w: World<L>)
    requires Ordered(m) && Separated(m) && !m.c.failFast && Play(m, acts) == Some(w)
    ensures Simulates(m, w)
    decreases |acts|
  {
    if acts == [] {
      BeginSimulates(m);
    } else {
      var last := |acts| - 1;
      var before := Play(m, acts[..last]).value;
      PlaySimulates(m, acts[..last], before);
      ActKeeps(m, before, acts[last]);
    }
  }

  // ---- The theorem -----------------------------------------------------------------------------------------

  /** The turns among the acts. */
  function Turns(acts: seq<Act>): seq<Event> {
    if acts == [] then []
    else
      var last := |acts| - 1;
      if acts[last].Turn? then Turns(acts[..last]) + [acts[last].e] else Turns(acts[..last])
  }

  lemma OneTurnMore(c: Instance, run: seq<Event>, s: State, e: Event)
    requires c.Valid() && Reaches(c, run, s) && Enabled(c, s, e)
    ensures Reaches(c, run + [e], Apply(c, s, e))
  {
    hide WfGraph, Apply, Enabled;
    assert (run + [e])[..|run|] == run;
  }

  /** The turns of a play are a run of the scheduler. */
  lemma {:induction false} TurnsAreARun<L(!new)>(m: Problem<L>, acts: seq<Act>, w: World<L>)
    requires Ordered(m) && Play(m, acts) == Some(w)
    ensures Reaches(m.c, Turns(acts), w.sched)
    decreases |acts|
  {
    hide WfGraph, Apply, Enabled, Confined, SerialOrder;
    if acts != [] {
      hide Reaches;
      var last := |acts| - 1;
      var before := Play(m, acts[..last]).value;
      TurnsAreARun(m, acts[..last], before);
      if acts[last].Turn? {
        OneTurnMore(m.c, Turns(acts[..last]), before.sched, acts[last].e);
      }
    }
  }

  lemma FinalFiles<L(!new)>(m: Problem<L>, w: World<L>)
    requires Ordered(m) && FilesMatch(m, w) && w.sched.processed == Indices(m.c.Size())
    ensures w.store == Serial(m, |m.order|)
  {
    hide Serial, Writes, Confined, WfGraph;
    var n := |m.order|;
    forall p: Path ensures Look(w.store, p) == Look(Serial(m, n), p) {
      assert forall x | 0 <= x < n :: m.order[x] in m.order;
      assert Settled(m, w.sched, p, n);
    }
    SameFiles(w.store, Serial(m, n));
  }

  lemma FinalReport<L(!new)>(m: Problem<L>, w: World<L>)
    requires Ordered(m) && Simulates(m, w) && w.sched.phase.Finished? && w.sched.processed == Indices(m.c.Size())
    ensures w.sched.failed <==> exists i: nat :: i < m.c.Size() && SerialFails(m, i)
    ensures w.sched.jobsSkipped == |Unplanned(m.c)| && w.sched.jobsRun == m.c.Size() - |Unplanned(m.c)|
  {
    hide FilesMatch, SerialFails, Confined, WfGraph, Scheduling, SerialOrder;
    assert w.sched.processed * Unplanned(m.c) == Unplanned(m.c);
    if w.sched.failed {
      var i :| i in w.sched.failures;
      assert i in w.sched.processed;
      assert SerialFails(m, i);
    }
  }

  /**
   * Serialisability. Without fail-fast, for every limit, every interleaving of job steps and every order
   * of completion, a run that is left normally ends with exactly the files, and exactly the report, of
   * running the jobs one by one in (priority, index) order.
   */
  lemma ParallelIsSerial<L(!new)>(m: Problem<L>, acts: seq<Act>, w: World<L>)
    requires Ordered(m) && Separated(m) && !m.c.failFast
    requires Play(m, acts) == Some(w) && w.sched.phase.Finished?
    ensures w.store == Serial(m, |m.order|)
    ensures w.sched.failed <==> exists i: nat :: i < m.c.Size() && SerialFails(m, i)
    ensures w.sched.jobsSkipped == |Unplanned(m.c)| && w.sched.jobsRun == m.c.Size() - |Unplanned(m.c)|
  {
    hide WfGraph, Reaches, Play, Serial, Separated, Turns, SerialFails, Confined, SerialOrder, FilesMatch, Inv, Unplanned;
    PlaySimulates(m, acts, w);
    TurnsAreARun(m, acts, w);
    FinishedMeansComplete(m.c, Turns(acts), w.sched);
    FinalFiles(m, w);
    FinalReport(m, w);
  }

  lemma SameFiles(a: Store, b: Store)
    requires forall p: Path :: Look(a, p) == Look(b, p)
    ensures a == b
  {
    forall p: Path ensures p in a <==> p in b {
      assert Look(a, p) == Look(b, p);
    }
    forall p | p in a ensures a[p] == b[p] {
      assert Look(a, p) == Look(b, p);
    }
  }

  /** The hypothesis in terms of jobs: conflict-free pairs do not write what the other touches. */
  lemma SeparatedWhenDisjoint<L(!new)>(globs: GlobEngine, jobs: seq<Job>, m: Problem<L>)
    requires Ordered(m) && m.c.graph == DagOf(globs, jobs)
    requires forall i: nat, j: nat | i < |jobs| && j < |jobs| && i != j && !PairConflicts(globs, jobs[i], jobs[j]) ::
               i < |m.progs| && j < |m.progs| && m.progs[i].writing !! m.progs[j].Footprint()
    ensures Separated(m)
  {
    forall i: nat, j: nat | i < m.c.Size() && j < m.c.Size() && i != j &&
        !HasEdge(m.c.graph, i, j) && !HasEdge(m.c.graph, j, i)
      ensures m.progs[i].writing !! m.progs[j].Footprint()
    {
      OneEdgePerConflict(globs, jobs, i, j);
    }
  }
}
