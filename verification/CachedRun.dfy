/** A parallel run that replays and records cache entries leaves the files as running every job one by one would. */
module CachedRun {
  import opened Wrappers
  import opened Serialisability
  import opened SchedulerTheory
  import D = Dag
  import C = SchedulerSpec
  import I = Interleaving
  import K = CacheKeys
  import T = CacheStore
  import L = CacheLookup

  // ---- What a cacheable job is --------------------------------------------------------------------------------------

  /** The program that a job's fields, its tool and its file list stand for, and the events it has printed by its end. */
  datatype Library<!V> = Library(
    behaviour: (string, K.Fields, seq<string>) -> Program<V>,
    events: V -> seq<string>)

  /** Run in these files, the program would end well and leave every file as it is. */
  ghost predicate Quiet<V(!new)>(prog: Program<V>, store: Store) {
    I.Transparent(prog, store, false)
  }

  /**
   * A checker or a formatter: it keeps to the files it is given, and where it has just ended well it would find nothing
   * more to do.
   */
  ghost predicate Repeatable<V(!new)>(prog: Program<V>, files: seq<string>) {
    && Confined(prog)
    && (forall p | p in prog.Footprint() :: p in files)
    && (forall s: Store :: Halts(prog, s) && !prog.failed(RunOf(prog, s).0) ==> Quiet(prog, RunOf(prog, s).1))
  }

  ghost predicate AllRepeatable<V(!new)>(lib: Library<V>) {
    forall tool: string, f: K.Fields, files: seq<string> :: Repeatable(lib.behaviour(tool, f, files), files)
  }

  /** A program that changes nothing is repeatable. */
  lemma CheckersAreRepeatable<V(!new)>(prog: Program<V>, files: seq<string>)
    requires Confined(prog) && prog.writing == iset{} && forall p | p in prog.reading :: p in files
    ensures Repeatable(prog, files)
  {
    hide Confined;
    forall s: Store | Halts(prog, s) && !prog.failed(RunOf(prog, s).0) ensures Quiet(prog, RunOf(prog, s).1) {
      forall q ensures Look(RunOf(prog, s).1, q) == Look(s, q) {
        RunConfined(prog, s, q);
      }
      forall q ensures Look(RunOf(prog, RunOf(prog, s).1).1, q) == Look(RunOf(prog, s).1, q) {
        RunConfined(prog, RunOf(prog, s).1, q);
      }
      var t: nat :| prog.finished(Iter(prog, s, t).0);
      IterAgrees(prog, s, RunOf(prog, s).1, t);
      RunOfIter(prog, s, t);
      RunOfIter(prog, RunOf(prog, s).1, t);
    }
  }

  /** Whether a program would be quiet depends on its footprint only. */
  lemma QuietAlike<V(!new)>(prog: Program<V>, a: Store, b: Store)
    requires Confined(prog) && Agree(prog.Footprint(), a, b) && Quiet(prog, a)
    ensures Quiet(prog, b)
  {
    hide Confined;
    var t: nat :| prog.finished(Iter(prog, a, t).0);
    IterAgrees(prog, a, b, t);
    RunOfIter(prog, a, t);
    RunOfIter(prog, b, t);
    forall q ensures Look(RunOf(prog, b).1, q) == Look(b, q) {
      if q !in prog.writing {
        RunConfined(prog, b, q);
      } else {
        assert q in prog.Footprint();
      }
    }
  }

  // ---- One hook run with the cache ------------------------------------------------------------------------------------

  /** A parallel run: its jobs as the scheduler and the file store see them, and as the cache sees them. */
  datatype Session<!V> = Session(
    m: Problem<V>, jobs: seq<L.CacheableJob>, files: seq<seq<string>>, tools: string -> string, hasher: K.Hasher)

  /** Concurrent-safe jobs behave as the library says for their fields, tool and files. */
  ghost predicate WellPosed<V(!new)>(lib: Library<V>, p: Session<V>) {
    && Ordered(p.m) && Separated(p.m) && !p.m.c.failFast
    && |p.jobs| == |p.files| == p.m.c.Size()
    && (forall i: nat | i < |p.jobs| :: p.jobs[i].concurrentSafe == p.m.c.graph.nodes[i].job.concurrentSafe)
    && (forall i: nat | i < |p.jobs| && p.jobs[i].concurrentSafe :: Cacheable(lib, p, i))
  }

  ghost predicate Cacheable<V(!new)>(lib: Library<V>, p: Session<V>, i: nat)
    requires i < |p.jobs| && i < |p.files| && i < |p.m.progs|
  {
    && L.Request(p.jobs[i].fields, p.files[i])
    && p.m.progs[i] == lib.behaviour(p.tools(p.jobs[i].fields.run), p.jobs[i].fields, p.files[i])
  }

  /** The files with modification times, and the tools. */
  function WorldOf(store: Store, mtime: string -> T.Time, tools: string -> string): L.World {
    L.World(map q | q in store :: L.FileState(store[q], mtime(q)), tools)
  }

  datatype CachedWorld<!V> = CachedWorld(world: I.World<V>, cache: L.Contents)

  /** An act of the run, or the recording of a job that has just ended well. Modification times are whatever they are. */
  datatype CachedAct =
    | Do(a: I.Act, mtime: string -> T.Time)
    | Save(i: nat, mtime: string -> T.Time, now: T.Time)

  predicate IsHit(a: I.Act) {
    a.Turn? && a.e.Hit?
  }

  function Found<V>(p: Session<V>, w: CachedWorld<V>, i: nat, mtime: string -> T.Time): Option<T.CachedResult>
    requires i < |p.jobs| && i < |p.files|
  {
    L.Lookup(p.hasher, w.cache, WorldOf(w.world.store, mtime, p.tools), p.jobs[i].fields, p.files[i])
  }

  /** A job is replayed only if the lookup finds an entry for it, and it fails as that entry says. */
  ghost predicate CanStep<V(!new)>(lib: Library<V>, p: Session<V>, w: CachedWorld<V>, x: CachedAct)
    requires WellPosed(lib, p)
  {
    match x
    case Do(a, mtime) =>
      if IsHit(a) then
        && C.Enabled(p.m.c, w.world.sched, a.e) && a.e.i < |p.jobs|
        && var found := Found(p, w, a.e.i, mtime); found.Some? && (a.e.failing <==> found.value.exit != 0)
      else I.CanAct(p.m, w.world, a)
    case Save(i, _, _) =>
      && w.world.sched.phase.Active? && i in w.world.sched.inflight && i < |p.jobs|
      && p.jobs[i].concurrentSafe && p.files[i] != []
      && i in w.world.locals && p.m.progs[i].finished(w.world.locals[i]) && !p.m.progs[i].failed(w.world.locals[i])
  }

  ghost function Step<V(!new)>(lib: Library<V>, p: Session<V>, w: CachedWorld<V>, x: CachedAct): CachedWorld<V>
    requires WellPosed(lib, p) && CanStep(lib, p, w, x)
  {
    match x
    case Do(a, _) =>
      if IsHit(a) then w.(world := w.world.(sched := C.Apply(p.m.c, w.world.sched, a.e)))
      else w.(world := I.Perform(p.m, w.world, a))
    case Save(i, mtime, now) =>
      w.(cache := L.Recorded(p.hasher, w.cache, WorldOf(w.world.store, mtime, p.tools), p.jobs[i], p.files[i],
                             L.Outcome(0, lib.events(w.world.locals[i])), now))
  }

  ghost function PlayCached<V(!new)>(lib: Library<V>, p: Session<V>, cache: L.Contents, xs: seq<CachedAct>): Option<CachedWorld<V>>
    requires WellPosed(lib, p)
  {
    if xs == [] then Some(CachedWorld(I.Begin(p.m), cache))
    else
      var last := |xs| - 1;
      var before := PlayCached(lib, p, cache, xs[..last]);
      if before.Some? && CanStep(lib, p, before.value, xs[last]) then Some(Step(lib, p, before.value, xs[last])) else None
  }

  /** The acts of the run itself. */
  function ActsOf(xs: seq<CachedAct>): seq<I.Act> {
    if xs == [] then []
    else
      var last := |xs| - 1;
      if xs[last].Do? then ActsOf(xs[..last]) + [xs[last].a] else ActsOf(xs[..last])
  }

  /** The key is that of a job in files in which it would be quiet. */
  ghost predicate KeyOfQuiet<V(!new)>(lib: Library<V>, h: K.Hasher, key: K.CacheKey) {
    exists w: L.World, f: K.Fields, files: seq<string> ::
      L.Request(f, files) && L.DeriveKey(h, w, f, files) == key && Quiet(lib.behaviour(w.toolHash(f.run), f, files), L.DiskOf(w))
  }

  /** Every entry replays the success of a job where it would be quiet. */
  ghost predicate Sane<V(!new)>(lib: Library<V>, h: K.Hasher, cache: L.Contents) {
    L.OnlySuccesses(cache) && forall key | key in cache :: KeyOfQuiet(lib, h, key)
  }

  // ---- Hits are transparent ---------------------------------------------------------------------------------------------

  lemma DiskOfWorld(store: Store, mtime: string -> T.Time, tools: string -> string)
    ensures L.DiskOf(WorldOf(store, mtime, tools)) == store
  {
  }

  /** A job whose key is that of a quiet one is quiet itself, in the present files. */
  lemma KeyTellsQuiet<V(!new)>(lib: Library<V>, h: K.Hasher, w: L.World, f: K.Fields, files: seq<string>)
    requires AllRepeatable(lib) && K.CollisionFree(h) && L.Request(f, files)
    requires KeyOfQuiet(lib, h, L.DeriveKey(h, w, f, files))
    ensures Quiet(lib.behaviour(w.toolHash(f.run), f, files), L.DiskOf(w))
  {
    hide L.DeriveKey, K.CollisionFree, L.Request, Quiet, Confined;
    var key := L.DeriveKey(h, w, f, files);
    var v, g, list :| L.Request(g, list) && L.DeriveKey(h, v, g, list) == key
                      && Quiet(lib.behaviour(v.toolHash(g.run), g, list), L.DiskOf(v));
    L.EqualKeys(h, w, f, files, v, g, list);
    var prog := lib.behaviour(w.toolHash(f.run), f, files);
    assert Repeatable(prog, files);
    QuietAlike(prog, L.DiskOf(v), L.DiskOf(w));
  }

  /** A hit on a sane cache never fails, and stands for a run that would change no file and end the same way. */
  lemma HitIsTransparent<V(!new)>(lib: Library<V>, p: Session<V>, w: CachedWorld<V>, i: nat, mtime: string -> T.Time)
    requires AllRepeatable(lib) && K.CollisionFree(p.hasher) && Sane(lib, p.hasher, w.cache)
    requires |p.jobs| == |p.files| == |p.m.progs| && i < |p.jobs| && Cacheable(lib, p, i) && Found(p, w, i, mtime).Some?
    ensures Found(p, w, i, mtime).value.exit == 0
    ensures I.Transparent(p.m.progs[i], w.world.store, false)
  {
    hide AllRepeatable, K.CollisionFree, KeyOfQuiet, L.DeriveKey, I.Transparent;
    DiskOfWorld(w.world.store, mtime, p.tools);
    KeyTellsQuiet(lib, p.hasher, WorldOf(w.world.store, mtime, p.tools), p.jobs[i].fields, p.files[i]);
  }

  // ---- What is recorded is sane -------------------------------------------------------------------------------------------

  /** Where a job in flight has ended well, it is quiet now: nobody else has touched what it looks at or writes. */
  lemma EndedIsQuiet<V(!new)>(m: Problem<V>, w: I.World<V>, i: nat, files: seq<string>)
    requires Ordered(m) && i < m.c.Size() && Repeatable(m.progs[i], files) && I.JobMatches(m, w, i)
    requires m.progs[i].finished(w.locals[i]) && !m.progs[i].failed(w.locals[i])
    ensures Quiet(m.progs[i], w.store)
  {
    hide Confined, Serial, SerialOrder, Quiet;
    var prog, from, t := m.progs[i], Serial(m, Position(m.order, i)), w.steps[i];
    RunOfIter(prog, from, t);
    QuietAlike(prog, RunOf(prog, from).1, w.store);
  }

  lemma SaveIsSane<V(!new)>(lib: Library<V>, p: Session<V>, w: CachedWorld<V>, x: CachedAct)
    requires AllRepeatable(lib) && WellPosed(lib, p) && Sane(lib, p.hasher, w.cache)
    requires x.Save? && CanStep(lib, p, w, x) && I.Simulates(p.m, w.world)
    ensures Sane(lib, p.hasher, Step(lib, p, w, x).cache)
  {
    hide SerialOrder, Confined, Separated, L.DeriveKey, L.SnapshotInputs, L.Request;
    hide Quiet, Repeatable, I.FilesMatch, C.Inv, I.JobMatches;
    var i, now := x.i, WorldOf(w.world.store, x.mtime, p.tools);
    var f, files := p.jobs[i].fields, p.files[i];
    assert Repeatable(lib.behaviour(p.tools(f.run), f, files), files);
    DiskOfWorld(w.world.store, x.mtime, p.tools);
    EndedIsQuiet(p.m, w.world, i, files);
    assert KeyOfQuiet(lib, p.hasher, L.DeriveKey(p.hasher, now, f, files));
    hide KeyOfQuiet;
  }

  // ---- The cached run is a run ----------------------------------------------------------------------------------------------

  lemma {:induction false} CachedIsPlayed<V(!new)>(lib: Library<V>, p: Session<V>, cache: L.Contents, xs: seq<CachedAct>, w: CachedWorld<V>)
    requires AllRepeatable(lib) && K.CollisionFree(p.hasher) && WellPosed(lib, p) && Sane(lib, p.hasher, cache)
    requires PlayCached(lib, p, cache, xs) == Some(w)
    ensures I.Play(p.m, ActsOf(xs)) == Some(w.world)
    ensures Sane(lib, p.hasher, w.cache)
    decreases |xs|
  {
    hide AllRepeatable, K.CollisionFree, Ordered, Separated, Sane, I.CanAct, I.Perform, C.Apply, C.Enabled, Found, L.Recorded, Cacheable;
    if xs != [] {
      var last := |xs| - 1;
      var before, x := PlayCached(lib, p, cache, xs[..last]).value, xs[last];
      CachedIsPlayed(lib, p, cache, xs[..last], before);
      var acts := ActsOf(xs[..last]);
      I.PlaySimulates(p.m, acts, before.world);
      if x.Save? {
        SaveIsSane(lib, p, before, x);
      } else {
        if IsHit(x.a) {
          HitCanAct(lib, p, before, x);
        }
        assert (acts + [x.a])[..|acts|] == acts;
      }
    }
  }

  lemma HitCanAct<V(!new)>(lib: Library<V>, p: Session<V>, w: CachedWorld<V>, x: CachedAct)
    requires AllRepeatable(lib) && K.CollisionFree(p.hasher) && WellPosed(lib, p) && Sane(lib, p.hasher, w.cache)
    requires x.Do? && IsHit(x.a) && CanStep(lib, p, w, x)
    ensures I.CanAct(p.m, w.world, x.a) && I.Perform(p.m, w.world, x.a) == Step(lib, p, w, x).world
    ensures !x.a.e.failing
  {
    hide AllRepeatable, K.CollisionFree, Sane, Found, I.Transparent, C.Apply, Separated, Confined, SerialOrder;
    assert p.jobs[x.a.e.i].concurrentSafe;
    HitIsTransparent(lib, p, w, x.a.e.i, x.mtime);
  }

  /**
   * A parallel run without fail-fast that replays jobs from a sane cache, for every limit, completion order and
   * interleaving, leaves all files exactly as running every job one by one does, without the cache; it fails exactly if
   * one of those fails, and the cache it leaves is sane again.
   */
  lemma CachedParallelIsSerial<V(!new)>(lib: Library<V>, p: Session<V>, cache: L.Contents, xs: seq<CachedAct>, w: CachedWorld<V>)
    requires AllRepeatable(lib) && K.CollisionFree(p.hasher) && WellPosed(lib, p) && Sane(lib, p.hasher, cache)
    requires PlayCached(lib, p, cache, xs) == Some(w) && w.world.sched.phase.Finished?
    ensures w.world.store == Serial(p.m, |p.m.order|)
    ensures w.world.sched.failed <==> exists i: nat :: i < p.m.c.Size() && SerialFails(p.m, i)
    ensures Sane(lib, p.hasher, w.cache)
  {
    hide AllRepeatable, Sane, Serial, SerialFails, Ordered, Separated, I.Play, PlayCached;
    CachedIsPlayed(lib, p, cache, xs, w);
    I.ParallelIsSerial(p.m, ActsOf(xs), w.world);
  }

  // ---- Many hook runs ---------------------------------------------------------------------------------------------------------

  datatype HookRun<!V> = HookRun(p: Session<V>, acts: seq<CachedAct>)

  /** The cache after hook runs one after another, from an empty one; files and tools may change in between. */
  ghost function CacheAfter<V(!new)>(lib: Library<V>, runs: seq<HookRun<V>>): Option<L.Contents>
    requires forall k | 0 <= k < |runs| :: WellPosed(lib, runs[k].p)
  {
    if runs == [] then Some(map[])
    else
      var last := |runs| - 1;
      var before := CacheAfter(lib, runs[..last]);
      if before.None? then None
      else
        var end := PlayCached(lib, runs[last].p, before.value, runs[last].acts);
        if end.None? then None else Some(end.value.cache)
  }

  lemma {:induction false} CachesStaySane<V(!new)>(lib: Library<V>, h: K.Hasher, runs: seq<HookRun<V>>)
    requires AllRepeatable(lib) && K.CollisionFree(h)
    requires forall k | 0 <= k < |runs| :: WellPosed(lib, runs[k].p) && runs[k].p.hasher == h
    requires CacheAfter(lib, runs).Some?
    ensures Sane(lib, h, CacheAfter(lib, runs).value)
    decreases |runs|
  {
    hide AllRepeatable, WellPosed, K.CollisionFree, PlayCached, KeyOfQuiet;
    if runs != [] {
      hide Sane;
      var last := |runs| - 1;
      var before := CacheAfter(lib, runs[..last]).value;
      CachesStaySane(lib, h, runs[..last]);
      CachedIsPlayed(lib, runs[last].p, before, runs[last].acts, PlayCached(lib, runs[last].p, before, runs[last].acts).value);
    }
  }

  /**
   * Over any number of hook runs that share the cache, with any edits and tool changes between them, each run that
   * finishes has done exactly what running its jobs one by one without the cache would have done.
   */
  lemma EveryRunIsSerial<V(!new)>(lib: Library<V>, h: K.Hasher, earlier: seq<HookRun<V>>, now: HookRun<V>, w: CachedWorld<V>)
    requires AllRepeatable(lib) && K.CollisionFree(h)
    requires forall k | 0 <= k < |earlier| :: WellPosed(lib, earlier[k].p) && earlier[k].p.hasher == h
    requires WellPosed(lib, now.p) && now.p.hasher == h && CacheAfter(lib, earlier).Some?
    requires PlayCached(lib, now.p, CacheAfter(lib, earlier).value, now.acts) == Some(w) && w.world.sched.phase.Finished?
    ensures w.world.store == Serial(now.p.m, |now.p.m.order|)
    ensures w.world.sched.failed <==> exists i: nat :: i < now.p.m.c.Size() && SerialFails(now.p.m, i)
  {
    hide AllRepeatable, Sane, K.CollisionFree, PlayCached, CacheAfter;
    CachesStaySane(lib, h, earlier);
    CachedParallelIsSerial(lib, now.p, CacheAfter(lib, earlier).value, now.acts, w);
  }
}
