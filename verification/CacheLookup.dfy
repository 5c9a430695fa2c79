/** Cache lookups and stores, and that a hit is as good as a run. */
module CacheLookup {
  import opened Wrappers
  import opened CacheKeys
  import opened CacheStore

  datatype FileState = FileState(content: string, mtime: Time)

  /** The files on disk, and the hash of the tool that a run string resolves to. */
  datatype World = World(files: map<string, FileState>, toolHash: string -> string)

  function DiskOf(w: World): Disk {
    map p | p in w.files :: w.files[p].content
  }

  function DeriveKey(h: Hasher, w: World, f: Fields, files: seq<string>): CacheKey {
    CacheKey(ContentHash(h, DiskOf(w), files), w.toolHash(f.run), h.digest(Terminated(Lines(f))))
  }

  ghost predicate Sound(h: Hasher, w: World) {
    CollisionFree(h) && forall run: string :: IsHex(w.toolHash(run))
  }

  lemma KeyWellFormed(h: Hasher, w: World, f: Fields, files: seq<string>)
    requires Sound(h, w)
    ensures WellFormed(DeriveKey(h, w, f, files))
  {
    hide IsHex, ContentHash, Lines;
    assert IsHex(ContentHash(h, DiskOf(w), files)) by { DigestIsHex(h, w, files); }
  }

  lemma DigestIsHex(h: Hasher, w: World, files: seq<string>)
    requires CollisionFree(h)
    ensures IsHex(ContentHash(h, DiskOf(w), files))
  {
    hide IsHex;
  }

  // ---- Snapshots ---------------------------------------------------------------------------------------------------------

  function SnapshotOf(w: World, path: string): CachedInput {
    CachedInput(path, if path in w.files then Some(w.files[path].mtime) else None)
  }

  function SnapshotInputs(w: World, files: seq<string>): (r: seq<CachedInput>)
    ensures |r| == |files|
  {
    seq(|files|, i requires 0 <= i < |files| => SnapshotOf(w, files[i]))
  }

  /** Present, recorded, both times after the epoch, and equal to the second. */
  predicate InputFresh(w: World, input: CachedInput) {
    && input.path in w.files && input.modifiedAt.Some?
    && w.files[input.path].mtime >= 0 && input.modifiedAt.value >= 0
    && w.files[input.path].mtime / NANOS_PER_SEC == input.modifiedAt.value / NANOS_PER_SEC
  }

  predicate AllFresh(w: World, inputs: seq<CachedInput>) {
    forall i | 0 <= i < |inputs| :: InputFresh(w, inputs[i])
  }

  method InputsFresh(w: World, cached: seq<CachedInput>) returns (upToDate: bool)
    ensures upToDate == AllFresh(w, cached)
  {
    for i := 0 to |cached|
      invariant forall k | 0 <= k < i :: InputFresh(w, cached[k])
    {
      var input := cached[i];
      if input.path !in w.files {
        return false;
      }
      var current := w.files[input.path].mtime;
      if input.modifiedAt.None? {
        return false;
      }
      if current < 0 {
        return false;
      }
      if input.modifiedAt.value < 0 {
        return false;
      }
      if current / NANOS_PER_SEC != input.modifiedAt.value / NANOS_PER_SEC {
        return false;
      }
    }
    return true;
  }

  // ---- Lookup and store ---------------------------------------------------------------------------------------------------

  type Contents = map<CacheKey, CachedResult>

  function Lookup(h: Hasher, contents: Contents, w: World, f: Fields, files: seq<string>): Option<CachedResult> {
    var key := DeriveKey(h, w, f, files);
    if key !in contents then None
    else if contents[key].inputs != [] && !AllFresh(w, contents[key].inputs) then None
    else Some(contents[key])
  }

  method LookupBlocking(store: Store, h: Hasher, w: World, f: Fields, files: seq<string>) returns (r: Option<CachedResult>)
    requires store.Valid() && Sound(h, w)
    ensures r == Lookup(h, store.contents, w, f, files)
  {
    KeyWellFormed(h, w, f, files);
    hide WellFormed, ContentHash, Lines, AllFresh;
    var result := store.Get(DeriveKey(h, w, f, files));
    if result.None? {
      return None;
    }
    var upToDate := InputsFresh(w, result.value.inputs);
    if result.value.inputs != [] && !upToDate {
      return None;
    }
    return result;
  }

  method StoreBlocking(store: Store, h: Hasher, w: World, f: Fields, files: seq<string>, result: CachedResult)
    requires store.Valid() && Sound(h, w)
    modifies store
    ensures store.Valid() && store.contents == old(store.contents)[DeriveKey(h, w, f, files) := Persisted(result)]
  {
    KeyWellFormed(h, w, f, files);
    store.Put(DeriveKey(h, w, f, files), result);
  }

  // ---- A job and its cache entry --------------------------------------------------------------------------------------------

  datatype Outcome = Outcome(exit: int, events: seq<string>)

  datatype CacheableJob = CacheableJob(fields: Fields, concurrentSafe: bool)

  /** The cache-write rule at the end of a job, `w` being the world after it. */
  function Recorded(h: Hasher, contents: Contents, w: World, job: CacheableJob, files: seq<string>,
                    outcome: Outcome, now: Time): Contents
  {
    if job.concurrentSafe && outcome.exit == 0 && files != [] then
      contents[DeriveKey(h, w, job.fields, files) := Persisted(CachedResult(0, outcome.events, now, SnapshotInputs(w, files)))]
    else contents
  }

  method RecordRun(store: Store, h: Hasher, w: World, job: CacheableJob, files: seq<string>, outcome: Outcome, now: Time)
    requires store.Valid() && Sound(h, w)
    modifies store
    ensures store.Valid() && store.contents == Recorded(h, old(store.contents), w, job, files, outcome, now)
  {
    hide WellFormed, ContentHash, Lines, Persisted;
    if job.concurrentSafe && outcome.exit == 0 && files != [] {
      StoreBlocking(store, h, w, job.fields, files, CachedResult(0, outcome.events, now, SnapshotInputs(w, files)));
    }
  }

  /** The second in which a recorded time lies; entries keep times before the epoch as the epoch itself. */
  function RecordedSecond(t: Time): Time {
    if t < 0 then 0 else t / NANOS_PER_SEC
  }

  /** The file existed when the job was recorded and exists now, with a time in the second that was recorded. */
  predicate Untouched(w: World, w': World, p: string) {
    && p in w.files && p in w'.files
    && w'.files[p].mtime >= 0 && w'.files[p].mtime / NANOS_PER_SEC == RecordedSecond(w.files[p].mtime)
  }

  lemma PersistedSnapshotFresh(w: World, w': World, files: seq<string>)
    ensures AllFresh(w', Persisted(CachedResult(0, [], 0, SnapshotInputs(w, files))).inputs) <==>
            forall p | p in files :: Untouched(w, w', p)
  {
    var inputs := Persisted(CachedResult(0, [], 0, SnapshotInputs(w, files))).inputs;
    forall i | 0 <= i < |files| ensures InputFresh(w', inputs[i]) <==> Untouched(w, w', files[i]) {
      assert inputs[i] == PersistedInput(SnapshotOf(w, files[i]));
      if files[i] in w.files {
        RoundedSecond(w.files[files[i]].mtime);
      }
    }
    if AllFresh(w', inputs) {
      forall p | p in files ensures Untouched(w, w', p) {
        var i :| 0 <= i < |files| && files[i] == p;
        assert InputFresh(w', inputs[i]);
      }
    }
  }

  lemma RoundedSecond(t: Time)
    ensures WholeSeconds(t) >= 0 && WholeSeconds(t) / NANOS_PER_SEC == RecordedSecond(t)
  {
  }

  lemma SameKey(h: Hasher, w: World, w': World, f: Fields, files: seq<string>)
    requires w'.toolHash(f.run) == w.toolHash(f.run) && SameContents(DiskOf(w), DiskOf(w'), files)
    ensures DeriveKey(h, w, f, files) == DeriveKey(h, w', f, files)
  {
    SortPathsSorts(files);
    var sorted := SortPaths(files);
    forall p | p in sorted ensures p in files {
      assert p in multiset(sorted);
    }
    ContentsAlone(h, DiskOf(w), DiskOf(w'), sorted);
  }

  /**
   * A job recorded in one state of the disk and looked up in another, with the same tool and contents, is found exactly if
   * every input exists, its time now is not before the epoch, and it lies in the second that was recorded.
   */
  lemma RecordThenLookup(h: Hasher, contents: Contents, w: World, w': World, job: CacheableJob, files: seq<string>,
                         outcome: Outcome, now: Time)
    requires job.concurrentSafe && outcome.exit == 0 && files != []
    requires w'.toolHash(job.fields.run) == w.toolHash(job.fields.run) && SameContents(DiskOf(w), DiskOf(w'), files)
    ensures var r := Lookup(h, Recorded(h, contents, w, job, files, outcome, now), w', job.fields, files);
            && (r.Some? <==> forall p | p in files ::
                  && p in w.files && p in w'.files && w'.files[p].mtime >= 0
                  && w'.files[p].mtime / NANOS_PER_SEC == if w.files[p].mtime < 0 then 0 else w.files[p].mtime / NANOS_PER_SEC)
            && (r.Some? ==> Outcome(r.value.exit, r.value.events) == outcome)
            && (r.Some? ==> r.value.createdAt == if now < 0 then 0 else now / NANOS_PER_SEC * NANOS_PER_SEC)
  {
    hide DeriveKey, AllFresh;
    SameKey(h, w, w', job.fields, files);
    PersistedSnapshotFresh(w, w', files);
  }

  /** Recording a job changes no lookup with another tool, other contents, other files or other fields. */
  lemma RecordLeavesOthers(h: Hasher, contents: Contents, w: World, w': World, job: CacheableJob, files: seq<string>,
                           outcome: Outcome, now: Time, f': Fields, files': seq<string>)
    requires CollisionFree(h) && Request(job.fields, files) && Request(f', files')
    requires f' != job.fields || files' != files || !SameInputs(w, w', f', files')
    ensures Lookup(h, Recorded(h, contents, w, job, files, outcome, now), w', f', files') == Lookup(h, contents, w', f', files')
  {
    hide AllFresh, DeriveKey, SameInputs, Request;
    if DeriveKey(h, w, job.fields, files) == DeriveKey(h, w', f', files') {
      EqualKeys(h, w, job.fields, files, w', f', files');
      assert false;
    }
  }

  // ---- Transparency -----------------------------------------------------------------------------------------------------------

  /** What running a job prints and returns in a world. */
  type Runner = (World, Fields, seq<string>) -> Outcome

  /** Nothing a job can observe differs: its tool and the contents of its files. */
  ghost predicate SameInputs(w: World, w': World, f: Fields, files: seq<string>) {
    w.toolHash(f.run) == w'.toolHash(f.run) && SameContents(DiskOf(w), DiskOf(w'), files)
  }

  /** The outcome is decided by the hashed fields, the tool and the contents. */
  ghost predicate Determined(run: Runner) {
    forall w: World, w': World, f: Fields, files: seq<string> ::
      SameInputs(w, w', f, files) ==> run(w, f, files) == run(w', f, files)
  }

  /** Fields as they are hashed injectively; file lists as git prints them, in order. */
  predicate Request(f: Fields, files: seq<string>) {
    Clean(f) && NulFree(files) && Sorted(files)
  }

  datatype State = State(world: World, contents: Contents)

  datatype Event =
    | Change(world: World)                                                        // edits, checkouts, tool upgrades
    | Execute(job: CacheableJob, files: seq<string>, after: World, now: Time)     // a job runs, and is recorded
    | Discard(key: CacheKey)
    | DiscardAll

  function Apply(h: Hasher, run: Runner, s: State, e: Event): State {
    match e
    case Change(w) => s.(world := w)
    case Execute(job, files, after, now) =>
      State(after, Recorded(h, s.contents, after, job, files, run(s.world, job.fields, files), now))
    case Discard(key) => s.(contents := s.contents - {key})
    case DiscardAll => s.(contents := map[])
  }

  function Run(h: Hasher, run: Runner, start: World, history: seq<Event>): State {
    if history == [] then State(start, map[]) else Apply(h, run, Run(h, run, start, history[..|history| - 1]), history[|history| - 1])
  }

  /** The job's inputs look the same to it after its run, when it is recorded, as before. */
  predicate Settled(run: Runner, before: World, e: Event) {
    e.Execute? ==> run(e.after, e.job.fields, e.files) == run(before, e.job.fields, e.files)
  }

  predicate Proper(e: Event) {
    e.Execute? ==> Request(e.job.fields, e.files)
  }

  ghost predicate History(h: Hasher, run: Runner, start: World, history: seq<Event>) {
    forall i | 0 <= i < |history| :: Proper(history[i]) && Settled(run, Run(h, run, start, history[..i]).world, history[i])
  }

  /** The entry is what some run of that key gave. */
  ghost predicate FromRun(h: Hasher, run: Runner, key: CacheKey, r: CachedResult) {
    exists w: World, f: Fields, files: seq<string> ::
      && Request(f, files) && DeriveKey(h, w, f, files) == key && run(w, f, files) == Outcome(r.exit, r.events)
  }

  ghost predicate Faithful(h: Hasher, run: Runner, contents: Contents) {
    forall k | k in contents :: FromRun(h, run, k, contents[k])
  }

  /** Equal keys mean equal fields and files, and worlds that look the same to the job. */
  lemma EqualKeys(h: Hasher, w: World, f: Fields, files: seq<string>, w': World, f': Fields, files': seq<string>)
    requires CollisionFree(h) && Request(f, files) && Request(f', files')
    requires DeriveKey(h, w, f, files) == DeriveKey(h, w', f', files')
    ensures f == f' && files == files' && SameInputs(w, w', f, files)
  {
    hide ContentHash, Lines, Terminated, Sorted, NulFree, Clean, SameContents;
    FieldsHashInjective(h, f, f');
    ContentHashExact(h, DiskOf(w), DiskOf(w'), files, files');
    SortedUnique(files, files');
  }

  lemma EntryIsCurrent(h: Hasher, run: Runner, w: World, f: Fields, files: seq<string>, r: CachedResult)
    requires CollisionFree(h) && Determined(run) && Request(f, files)
    requires FromRun(h, run, DeriveKey(h, w, f, files), r)
    ensures run(w, f, files) == Outcome(r.exit, r.events)
  {
    hide DeriveKey, Request, SameInputs;
    var w', f', files' :| Request(f', files') && DeriveKey(h, w', f', files') == DeriveKey(h, w, f, files)
                          && run(w', f', files') == Outcome(r.exit, r.events);
    EqualKeys(h, w, f, files, w', f', files');
    assert run(w, f, files) == run(w', f, files);
  }

  lemma StepFaithful(h: Hasher, run: Runner, s: State, e: Event)
    requires Faithful(h, run, s.contents) && Proper(e) && Settled(run, s.world, e)
    ensures Faithful(h, run, Apply(h, run, s, e).contents)
  {
    hide DeriveKey, Request, FromRun, SnapshotInputs;
    if e.Execute? {
      var outcome := run(s.world, e.job.fields, e.files);
      if e.job.concurrentSafe && outcome.exit == 0 && e.files != [] {
        RecordedFromRun(h, run, e, outcome);
      }
    }
  }

  lemma RecordedFromRun(h: Hasher, run: Runner, e: Event, outcome: Outcome)
    requires e.Execute? && Proper(e) && outcome.exit == 0 && run(e.after, e.job.fields, e.files) == outcome
    ensures FromRun(h, run, DeriveKey(h, e.after, e.job.fields, e.files),
                    Persisted(CachedResult(0, outcome.events, e.now, SnapshotInputs(e.after, e.files))))
  {
    hide DeriveKey, Request, SnapshotInputs;
    assert Outcome(0, outcome.events) == outcome;
  }

  lemma {:induction false} HistoryFaithful(h: Hasher, run: Runner, start: World, history: seq<Event>)
    requires History(h, run, start, history)
    ensures Faithful(h, run, Run(h, run, start, history).contents)
  {
    hide Settled, Proper, FromRun;
    if history != [] {
      var shorter := history[..|history| - 1];
      forall i | 0 <= i < |shorter| ensures Proper(shorter[i]) && Settled(run, Run(h, run, start, shorter[..i]).world, shorter[i]) {
        assert shorter[..i] == history[..i] && shorter[i] == history[i];
      }
      HistoryFaithful(h, run, start, shorter);
      StepFaithful(h, run, Run(h, run, start, shorter), history[|history| - 1]);
    }
  }

  /** Every entry replays exit code 0. */
  predicate OnlySuccesses(contents: Contents) {
    forall k | k in contents :: contents[k].exit == 0
  }

  /** Only successful runs are ever recorded, so after any history no hit can fail. */
  lemma {:induction false} HitsNeverFail(h: Hasher, run: Runner, start: World, history: seq<Event>)
    ensures OnlySuccesses(Run(h, run, start, history).contents)
  {
    if history != [] {
      HitsNeverFail(h, run, start, history[..|history| - 1]);
      SuccessesOnly(h, run, Run(h, run, start, history[..|history| - 1]), history[|history| - 1]);
    }
  }

  lemma SuccessesOnly(h: Hasher, run: Runner, s: State, e: Event)
    requires OnlySuccesses(s.contents)
    ensures OnlySuccesses(Apply(h, run, s, e).contents)
  {
    hide DeriveKey, SnapshotInputs;
  }

  /** Every entry comes from a run of a concurrent-safe job with files that ended with exit code 0, and has its events. */
  lemma {:induction false} EntryHasRun(h: Hasher, run: Runner, start: World, history: seq<Event>, key: CacheKey) returns (i: nat)
    requires key in Run(h, run, start, history).contents
    ensures i < |history| && history[i].Execute?
    ensures var e := history[i];
            var outcome := run(Run(h, run, start, history[..i]).world, e.job.fields, e.files);
            && e.job.concurrentSafe && e.files != [] && outcome.exit == 0
            && key == DeriveKey(h, e.after, e.job.fields, e.files)
            && Run(h, run, start, history).contents[key].events == outcome.events
  {
    hide DeriveKey, SnapshotInputs;
    var last := |history| - 1;
    var before, e := Run(h, run, start, history[..last]), history[last];
    if e.Execute? && e.job.concurrentSafe && e.files != [] && run(before.world, e.job.fields, e.files).exit == 0
       && key == DeriveKey(h, e.after, e.job.fields, e.files) {
      i := last;
    } else {
      i := EntryHasRun(h, run, start, history[..last], key);
      assert history[..last][..i] == history[..i];
    }
  }

  /**
   * After any history of edits, runs and evictions, a hit replays the exit code and the events that running the job now
   * would give.
   */
  lemma CacheIsTransparent(h: Hasher, run: Runner, start: World, history: seq<Event>, f: Fields, files: seq<string>)
    requires CollisionFree(h) && Determined(run) && History(h, run, start, history) && Request(f, files)
    ensures var s := Run(h, run, start, history);
            var hit := Lookup(h, s.contents, s.world, f, files);
            hit.Some? ==> run(s.world, f, files) == Outcome(hit.value.exit, hit.value.events)
  {
    hide DeriveKey, Request, Determined, FromRun, History, Run;
    var s := Run(h, run, start, history);
    HistoryFaithful(h, run, start, history);
    if Lookup(h, s.contents, s.world, f, files).Some? {
      EntryIsCurrent(h, run, s.world, f, files, s.contents[DeriveKey(h, s.world, f, files)]);
    }
  }

  /**
   * The condition on runs cannot be dropped: a job that is recorded although a new run would give something else is
   * replayed wrongly by the very next lookup, if all its inputs exist.
   */
  lemma UnsettledRunIsReplayedWrongly(h: Hasher, run: Runner, s: State, e: Event)
    requires e.Execute? && e.job.concurrentSafe && e.files != [] && run(s.world, e.job.fields, e.files).exit == 0
    requires forall p | p in e.files :: p in e.after.files && e.after.files[p].mtime >= 0
    ensures var t := Apply(h, run, s, e);
            var hit := Lookup(h, t.contents, t.world, e.job.fields, e.files);
            && hit.Some?
            && (Settled(run, s.world, e) <==> run(t.world, e.job.fields, e.files) == Outcome(hit.value.exit, hit.value.events))
  {
    hide DeriveKey, Lookup, Recorded;
    RecordThenLookup(h, s.contents, e.after, e.after, e.job, e.files, run(s.world, e.job.fields, e.files), e.now);
  }
}
