/** From a flattened configuration to the ordered job list of one hook. */
module Lowering {
  import opened Wrappers
  import opened Merge
  import opened Dag
  import DagTheory
  import SchedulerSpec
  import SchedulerTheory
  import Executor

  const U32_MAX: nat := 0xFFFF_FFFF

  datatype BuiltinMeta = BuiltinMeta(
    run: string, fix: Option<string>, glob: seq<string>, readGlobs: seq<string>, writeGlobs: seq<string>,
    network: bool, concurrentSafe: bool)

  /** The libraries lowering consults: the builtin table, the duration parser and the glob parser. */
  datatype Library = Library(
    builtin: string -> Option<BuiltinMeta>, durationParses: string -> bool, globParses: string -> bool)

  datatype TargetDir = PerWorktree | At(path: string)

  datatype IsolateSpec = Tool(name: string) | Sharded(name: string, slots: nat) | ToolPath(tool: string, targetDir: TargetDir)

  /** A lowered job; `raw` carries the fields that lowering copies. */
  datatype Lowered = Lowered(
    job: Job, run: string, isolate: Option<IsolateSpec>, stageFixed: bool, interactive: bool, raw: RawJob)

  datatype LowerError =
    | UnknownBuiltin(job: string, id: string)
    | MissingRun(job: string)
    | BadDuration(job: string, input: string)
    | ZeroSlots(job: string)
    | EmptyIsolate(job: string)
    | BadGlob(job: string, pattern: string)

  // ---- One job -------------------------------------------------------------------------------------------

  /** What a builtin contributes, as a configuration layer. */
  function BuiltinLayer(meta: BuiltinMeta): RawJob {
    RawJob(Some(meta.run), meta.fix, meta.glob, [], [], None, None, map[], None, None, None, None, None, None,
           meta.readGlobs, meta.writeGlobs, Some(meta.network), Some(meta.concurrentSafe), None)
  }

  /** The job with its builtin, if it names one, laid underneath. */
  function Effective(lib: Library, raw: RawJob): RawJob {
    if raw.builtin.Some? && lib.builtin(raw.builtin.value).Some? then
      MergeJob(BuiltinLayer(lib.builtin(raw.builtin.value).value), raw)
    else raw
  }

  function LowerIsolate(job: string, raw: RawIsolate): Result<IsolateSpec, LowerError> {
    match raw
    case Name(name) => Success(Tool(name))
    case Table(name, tool, slots, targetDir) =>
      if tool.Some? then
        Success(ToolPath(tool.value,
          if targetDir.None? || targetDir.value == "per-worktree" then PerWorktree else At(targetDir.value)))
      else if name.Some? then
        if slots.None? then Success(Tool(name.value))
        else if slots.value == 0 then Failure(ZeroSlots(job))
        else Success(Sharded(name.value, slots.value))
      else Failure(EmptyIsolate(job))
  }

  /** The first pattern the glob library rejects. */
  function FirstBadGlob(lib: Library, patterns: seq<string>): (r: Option<string>)
    ensures r.None? <==> forall p | p in patterns :: lib.globParses(p)
  {
    if patterns == [] then None
    else if lib.globParses(patterns[0]) then FirstBadGlob(lib, patterns[1..])
    else Some(patterns[0])
  }

  function Finish(lib: Library, name: string, priority: nat, raw: RawJob): Result<Lowered, LowerError> {
    if raw.run.None? then Failure(MissingRun(name))
    else if raw.timeout.Some? && !lib.durationParses(raw.timeout.value) then Failure(BadDuration(name, raw.timeout.value))
    else
      var isolate: Result<Option<IsolateSpec>, LowerError> :=
        if raw.isolate.None? then Success(None)
        else
          var spec := LowerIsolate(name, raw.isolate.value);
          if spec.Failure? then Failure(spec.error) else Success(Some(spec.value));
      if isolate.Failure? then Failure(isolate.error)
      else
        var bad := FirstBadGlob(lib, raw.readGlobs + raw.writeGlobs);
        if bad.Some? then Failure(BadGlob(name, bad.value))
        else
          Success(Lowered(
            Job(name, priority, raw.readGlobs, raw.writeGlobs,
                raw.network.Some? && raw.network.value, raw.concurrentSafe.Some? && raw.concurrentSafe.value),
            raw.run.value, isolate.value, raw.stageFixed.Some? && raw.stageFixed.value,
            raw.interactive.Some? && raw.interactive.value, raw))
  }

  function LoweredJob(lib: Library, name: string, raw: RawJob, priority: nat): Result<Lowered, LowerError> {
    if raw.builtin.Some? && lib.builtin(raw.builtin.value).None? then Failure(UnknownBuiltin(name, raw.builtin.value))
    else Finish(lib, name, priority, Effective(lib, raw))
  }

  lemma FilledIn(user: RawJob, meta: BuiltinMeta, raw: RawJob)
    requires raw == user.(run := Over(Some(meta.run), user.run), fix := Over(meta.fix, user.fix),
                          glob := OverList(meta.glob, user.glob), readGlobs := OverList(meta.readGlobs, user.readGlobs),
                          writeGlobs := OverList(meta.writeGlobs, user.writeGlobs), network := Over(Some(meta.network), user.network),
                          concurrentSafe := Over(Some(meta.concurrentSafe), user.concurrentSafe))
    ensures raw == MergeJob(BuiltinLayer(meta), user)
  {
    var merged := MergeJob(BuiltinLayer(meta), user);
    assert map[] + user.env == user.env;
    assert raw.skip == merged.skip && raw.only == merged.only && raw.root == merged.root && raw.isolate == merged.isolate;
  }

  /** A builtin fills in what the user left out: lowering lays it beneath the user's job. */
  method LowerJob(lib: Library, name: string, user: RawJob, priority: nat) returns (r: Result<Lowered, LowerError>)
    ensures r == LoweredJob(lib, name, user, priority)
  {
    hide Finish;
    if user.builtin.None? {
      return Finish(lib, name, priority, user);
    }
    var found := lib.builtin(user.builtin.value);
    if found.None? {
      return Failure(UnknownBuiltin(name, user.builtin.value));
    }
    var meta := found.value;
    var run, fix, glob := user.run, user.fix, user.glob;
    var readGlobs, writeGlobs := user.readGlobs, user.writeGlobs;
    var network, concurrentSafe := user.network, user.concurrentSafe;
    if run.None? { run := Some(meta.run); }
    if fix.None? { fix := meta.fix; }
    if glob == [] { glob := meta.glob; }
    if readGlobs == [] { readGlobs := meta.readGlobs; }
    if writeGlobs == [] { writeGlobs := meta.writeGlobs; }
    if network.None? { network := Some(meta.network); }
    if concurrentSafe.None? { concurrentSafe := Some(meta.concurrentSafe); }
    var raw := user.(run := run, fix := fix, glob := glob, readGlobs := readGlobs, writeGlobs := writeGlobs,
                     network := network, concurrentSafe := concurrentSafe);
    FilledIn(user, meta, raw);
    r := Finish(lib, name, priority, raw);
  }

  // ---- Where each lowered field comes from -------------------------------------------------------------------------

  /** What a builtin can provide: the user's field where set, otherwise the builtin's, otherwise nothing. */
  lemma LoweredFields(lib: Library, name: string, user: RawJob, priority: nat)
    requires LoweredJob(lib, name, user, priority).Success?
    ensures var r := LoweredJob(lib, name, user, priority).value;
            && r.job.name == name && r.job.priority == priority
            && r.stageFixed == (user.stageFixed == Some(true)) && r.interactive == (user.interactive == Some(true))
            && (user.run.Some? ==> r.run == user.run.value)
            && (user.readGlobs != [] ==> r.job.readGlobs == user.readGlobs)
            && (user.writeGlobs != [] ==> r.job.writeGlobs == user.writeGlobs)
            && (user.network.Some? ==> r.job.network == user.network.value)
            && (user.concurrentSafe.Some? ==> r.job.concurrentSafe == user.concurrentSafe.value)
            && (user.fix.Some? ==> r.raw.fix == user.fix) && (user.glob != [] ==> r.raw.glob == user.glob)
    ensures var r := LoweredJob(lib, name, user, priority).value;
            user.builtin.None? ==>
              && user.run.Some? && r.raw == user
              && r.job.readGlobs == user.readGlobs && r.job.writeGlobs == user.writeGlobs
              && r.job.network == (user.network == Some(true)) && r.job.concurrentSafe == (user.concurrentSafe == Some(true))
    ensures var r := LoweredJob(lib, name, user, priority).value;
            user.builtin.Some? ==>
              && lib.builtin(user.builtin.value).Some?
              && var meta := lib.builtin(user.builtin.value).value;
              && (user.run.None? ==> r.run == meta.run)
              && (user.readGlobs == [] ==> r.job.readGlobs == meta.readGlobs)
              && (user.writeGlobs == [] ==> r.job.writeGlobs == meta.writeGlobs)
              && (user.network.None? ==> r.job.network == meta.network)
              && (user.concurrentSafe.None? ==> r.job.concurrentSafe == meta.concurrentSafe)
              && (user.fix.None? ==> r.raw.fix == meta.fix) && (user.glob == [] ==> r.raw.glob == meta.glob)
    ensures var r := LoweredJob(lib, name, user, priority).value;
            r.raw == user.(run := r.raw.run, fix := r.raw.fix, glob := r.raw.glob, readGlobs := r.raw.readGlobs,
                           writeGlobs := r.raw.writeGlobs, network := r.raw.network, concurrentSafe := r.raw.concurrentSafe)
  {
    hide Effective, Finish;
    EffectiveFields(lib, user);
    FinishedFields(lib, name, priority, Effective(lib, user));
  }

  lemma EffectiveFields(lib: Library, user: RawJob)
    requires user.builtin.Some? ==> lib.builtin(user.builtin.value).Some?
    ensures user.builtin.None? ==> Effective(lib, user) == user
    ensures user.builtin.Some? ==>
              var raw, meta := Effective(lib, user), lib.builtin(user.builtin.value).value;
              && raw == user.(run := raw.run, fix := raw.fix, glob := raw.glob, readGlobs := raw.readGlobs,
                              writeGlobs := raw.writeGlobs, network := raw.network, concurrentSafe := raw.concurrentSafe)
              && raw.run == (if user.run.Some? then user.run else Some(meta.run))
              && raw.fix == (if user.fix.Some? then user.fix else meta.fix)
              && raw.glob == (if user.glob != [] then user.glob else meta.glob)
              && raw.readGlobs == (if user.readGlobs != [] then user.readGlobs else meta.readGlobs)
              && raw.writeGlobs == (if user.writeGlobs != [] then user.writeGlobs else meta.writeGlobs)
              && raw.network == (if user.network.Some? then user.network else Some(meta.network))
              && raw.concurrentSafe == (if user.concurrentSafe.Some? then user.concurrentSafe else Some(meta.concurrentSafe))
  {
    assert map[] + user.env == user.env;
  }

  lemma FinishedFields(lib: Library, name: string, priority: nat, raw: RawJob)
    requires Finish(lib, name, priority, raw).Success?
    ensures var r := Finish(lib, name, priority, raw).value;
            && r.job == Job(name, priority, raw.readGlobs, raw.writeGlobs, raw.network == Some(true), raw.concurrentSafe == Some(true))
            && Some(r.run) == raw.run && r.raw == raw
            && r.stageFixed == (raw.stageFixed == Some(true)) && r.interactive == (raw.interactive == Some(true))
  {
    hide FirstBadGlob, LowerIsolate;
  }

  /** The isolation a lowered job asks for. */
  lemma LoweredIsolation(lib: Library, name: string, user: RawJob, priority: nat)
    requires LoweredJob(lib, name, user, priority).Success?
    ensures var isolate := LoweredJob(lib, name, user, priority).value.isolate;
            && (isolate.None? <==> user.isolate.None?)
            && (forall tool :: user.isolate == Some(Name(tool)) ==> isolate == Some(Tool(tool)))
            && (forall n, tool, slots, dir :: user.isolate == Some(Table(n, Some(tool), slots, Some(dir))) && dir != "per-worktree" ==>
                  isolate == Some(ToolPath(tool, At(dir))))
            && (forall n, tool, slots, dir :: user.isolate == Some(Table(n, Some(tool), slots, dir)) ==>
                  (isolate == Some(ToolPath(tool, PerWorktree)) <==> dir.None? || dir == Some("per-worktree")))
            && (forall n, dir :: user.isolate == Some(Table(Some(n), None, None, dir)) ==> isolate == Some(Tool(n)))
            && (forall n, slots, dir :: user.isolate == Some(Table(Some(n), None, Some(slots), dir)) ==>
                  slots > 0 && isolate == Some(Sharded(n, slots)))
  {
  }

  /** An isolation that names neither a tool nor a lock, or a lock without slots. */
  predicate BadIsolate(isolate: Option<RawIsolate>) {
    && isolate.Some? && isolate.value.Table? && isolate.value.tableTool.None?
    && (isolate.value.name.None? || isolate.value.slots == Some(0))
  }

  /** A job is refused exactly for one of these reasons, and the first of them in this order gives the error. */
  lemma LoweringFails(lib: Library, name: string, user: RawJob, priority: nat)
    ensures var r := LoweredJob(lib, name, user, priority);
            var patterns := Effective(lib, user).readGlobs + Effective(lib, user).writeGlobs;
            if user.builtin.Some? && lib.builtin(user.builtin.value).None? then
              r == Failure(UnknownBuiltin(name, user.builtin.value))
            else if user.run.None? && user.builtin.None? then r == Failure(MissingRun(name))
            else if user.timeout.Some? && !lib.durationParses(user.timeout.value) then
              r == Failure(BadDuration(name, user.timeout.value))
            else if BadIsolate(user.isolate) then
              r == Failure(if user.isolate.value.name.None? then EmptyIsolate(name) else ZeroSlots(name))
            else if exists p :: p in patterns && !lib.globParses(p) then
              exists k :: 0 <= k < |patterns| && r == Failure(BadGlob(name, patterns[k])) && !lib.globParses(patterns[k])
                          && forall x | 0 <= x < k :: lib.globParses(patterns[x])
            else r.Success?
  {
    hide Effective, Finish, BadIsolate;
    if user.builtin.Some? ==> lib.builtin(user.builtin.value).Some? {
      EffectiveFields(lib, user);
      FinishFails(lib, name, priority, Effective(lib, user));
    }
  }

  lemma FinishFails(lib: Library, name: string, priority: nat, raw: RawJob)
    ensures var r := Finish(lib, name, priority, raw);
            var patterns := raw.readGlobs + raw.writeGlobs;
            if raw.run.None? then r == Failure(MissingRun(name))
            else if raw.timeout.Some? && !lib.durationParses(raw.timeout.value) then
              r == Failure(BadDuration(name, raw.timeout.value))
            else if BadIsolate(raw.isolate) then
              r == Failure(if raw.isolate.value.name.None? then EmptyIsolate(name) else ZeroSlots(name))
            else if exists p :: p in patterns && !lib.globParses(p) then
              exists k :: 0 <= k < |patterns| && r == Failure(BadGlob(name, patterns[k])) && !lib.globParses(patterns[k])
                          && forall x | 0 <= x < k :: lib.globParses(patterns[x])
            else r.Success?
  {
    hide FirstBadGlob;
    var patterns := raw.readGlobs + raw.writeGlobs;
    if exists p :: p in patterns && !lib.globParses(p) {
      var k := BadGlobIsFirst(lib, patterns);
    }
  }

  lemma {:induction false} BadGlobIsFirst(lib: Library, patterns: seq<string>) returns (k: nat)
    requires exists p :: p in patterns && !lib.globParses(p)
    ensures k < |patterns| && FirstBadGlob(lib, patterns) == Some(patterns[k]) && !lib.globParses(patterns[k])
    ensures forall x | 0 <= x < k :: lib.globParses(patterns[x])
  {
    if lib.globParses(patterns[0]) {
      var p :| p in patterns && !lib.globParses(p);
      assert p in patterns[1..];
      k := BadGlobIsFirst(lib, patterns[1..]);
      k := k + 1;
    } else {
      k := 0;
    }
  }

  // ---- Order of names and of jobs ----------------------------------------------------------------------------

  /** Lexicographic order on names. */
  predicate Less(a: string, b: string) {
    if b == "" then false
    else if a == "" then true
    else if a[0] == b[0] then Less(a[1..], b[1..])
    else a[0] < b[0]
  }

  lemma {:induction false} LessTotal(a: string, b: string)
    ensures if a == b then !Less(a, b) else Less(a, b) != Less(b, a)
  {
    if a != "" && b != "" && a[0] == b[0] {
      LessTotal(a[1..], b[1..]);
      assert a == [a[0]] + a[1..] && b == [b[0]] + b[1..];
    }
  }

  lemma {:induction false} LessTransitive(a: string, b: string, c: string)
    requires Less(a, b) && Less(b, c)
    ensures Less(a, c)
  {
    if a != "" && a[0] == b[0] == c[0] {
      LessTransitive(a[1..], b[1..], c[1..]);
    }
  }

  /** A name comes before another at the first place where they differ, or where it ends and the other goes on. */
  lemma {:induction false} LessMeaning(a: string, b: string)
    ensures Less(a, b) <==> exists k: nat :: k <= |a| && k < |b| && a[..k] == b[..k] && (k == |a| || a[k] < b[k])
  {
    if a == "" || b == "" || a[0] != b[0] {
      assert a[..0] == b[..0];
    } else {
      LessMeaning(a[1..], b[1..]);
      forall k: nat | k < |a| && k < |b| ensures a[..k + 1] == b[..k + 1] <==> a[1..][..k] == b[1..][..k] {
        assert a[..k + 1] == [a[0]] + a[1..][..k] && b[..k + 1] == [b[0]] + b[1..][..k];
      }
      if k: nat :| k <= |a| && k < |b| && a[..k] == b[..k] && (k == |a| || a[k] < b[k]) {
        assert k > 0;
        assert a[..k - 1 + 1] == b[..k - 1 + 1];
        assert k == |a| || a[1..][k - 1] < b[1..][k - 1];
      }
      if k: nat :| k <= |a[1..]| && k < |b[1..]| && a[1..][..k] == b[1..][..k] && (k == |a[1..]| || a[1..][k] < b[1..][k]) {
        assert k + 1 == |a| || a[k + 1] < b[k + 1];
      }
    }
  }

  predicate RunsBefore(a: Job, b: Job) {
    a.priority < b.priority || (a.priority == b.priority && Less(a.name, b.name))
  }

  lemma RunsBeforeTransitive(a: Job, b: Job, c: Job)
    requires RunsBefore(a, b) && RunsBefore(b, c)
    ensures RunsBefore(a, c)
  {
    if a.priority == c.priority {
      LessTransitive(a.name, b.name, c.name);
    }
  }

  predicate InOrder(jobs: seq<Lowered>) {
    forall x, y | 0 <= x < y < |jobs| :: RunsBefore(jobs[x].job, jobs[y].job)
  }

  predicate HasName(jobs: seq<Lowered>, name: string) {
    exists k | 0 <= k < |jobs| :: jobs[k].job.name == name
  }

  function Insert(x: Lowered, jobs: seq<Lowered>): seq<Lowered> {
    if jobs == [] then [x]
    else if RunsBefore(jobs[0].job, x.job) then [jobs[0]] + Insert(x, jobs[1..])
    else [x] + jobs
  }

  /** `jobs.sort_by(priority then name)`. */
  function SortJobs(jobs: seq<Lowered>): seq<Lowered> {
    if jobs == [] then [] else Insert(jobs[0], SortJobs(jobs[1..]))
  }

  lemma {:induction false} InsertElements(x: Lowered, jobs: seq<Lowered>)
    ensures multiset(Insert(x, jobs)) == multiset(jobs) + multiset{x}
  {
    hide RunsBefore;
    if jobs != [] {
      InsertElements(x, jobs[1..]);
      assert jobs == [jobs[0]] + jobs[1..];
    }
  }

  lemma {:induction false} InsertKeepsOrder(x: Lowered, jobs: seq<Lowered>)
    requires InOrder(jobs) && !HasName(jobs, x.job.name)
    ensures InOrder(Insert(x, jobs))
  {
    hide RunsBefore;
    if jobs == [] {
    } else if RunsBefore(jobs[0].job, x.job) {
      var rest := jobs[1..];
      assert forall k | 0 <= k < |rest| :: rest[k] == jobs[k + 1];
      InsertKeepsOrder(x, rest);
      InsertElements(x, rest);
      var tail := Insert(x, rest);
      forall y | 0 <= y < |tail| ensures RunsBefore(jobs[0].job, tail[y].job) {
        assert tail[y] in multiset(tail);
        assert tail[y] == x || tail[y] in rest;
      }
      OrderCons(jobs[0], tail);
    } else {
      RunsBeforeTotal(x.job, jobs[0].job);
      forall y | 0 <= y < |jobs| ensures RunsBefore(x.job, jobs[y].job) {
        if y > 0 {
          RunsBeforeTransitive(x.job, jobs[0].job, jobs[y].job);
        }
      }
      OrderCons(x, jobs);
    }
  }

  lemma OrderCons(first: Lowered, rest: seq<Lowered>)
    requires InOrder(rest) && forall y | 0 <= y < |rest| :: RunsBefore(first.job, rest[y].job)
    ensures InOrder([first] + rest)
  {
    hide RunsBefore;
  }

  lemma RunsBeforeTotal(a: Job, b: Job)
    requires a.name != b.name
    ensures RunsBefore(a, b) != RunsBefore(b, a)
  {
    LessTotal(a.name, b.name);
  }

  lemma OrderedByPriority(jobs: seq<Lowered>)
    requires InOrder(jobs)
    ensures forall x, y | 0 <= x < y < |jobs| ::
              var a, b := jobs[x].job, jobs[y].job;
              a.priority < b.priority || (a.priority == b.priority && Less(a.name, b.name))
  {
    hide Less;
  }

  lemma EmptyInOrder()
    ensures InOrder([])
  {
  }

  lemma {:induction false} SortSorts(jobs: seq<Lowered>)
    requires forall x, y | 0 <= x < y < |jobs| :: jobs[x].job.name != jobs[y].job.name
    ensures InOrder(SortJobs(jobs)) && multiset(SortJobs(jobs)) == multiset(jobs)
  {
    hide RunsBefore, Insert, InOrder;
    if jobs == [] {
      EmptyInOrder();
    } else {
      var rest := jobs[1..];
      SortSorts(rest);
      var sorted := SortJobs(rest);
      forall k | 0 <= k < |sorted| ensures sorted[k].job.name != jobs[0].job.name {
        assert sorted[k] in multiset(sorted);
        assert sorted[k] in rest;
      }
      InsertKeepsOrder(jobs[0], sorted);
      InsertElements(jobs[0], sorted);
      assert jobs == [jobs[0]] + rest;
    }
  }

  // ---- The hook -------------------------------------------------------------------------------------------------

  function Saturate(i: nat): nat {
    if i <= U32_MAX then i else U32_MAX
  }

  /** The position of the last mention of `name`; a job not mentioned comes after those that are. */
  function PriorityOf(listed: seq<string>, name: string, unlisted: nat): nat {
    if listed == [] then unlisted
    else if listed[|listed| - 1] == name then Saturate(|listed| - 1)
    else PriorityOf(listed[..|listed| - 1], name, unlisted)
  }

  function PriorityIn(raw: RawHook, name: string): nat {
    PriorityOf(raw.priority, name, Saturate(|raw.priority|))
  }

  /** Job `name` of the hook, lowered. */
  function JobOf(lib: Library, raw: RawHook, name: string): Result<Lowered, LowerError>
    requires name in raw.jobs
  {
    LoweredJob(lib, name, raw.jobs[name], PriorityIn(raw, name))
  }

  method PriorityIndex(raw: RawHook) returns (index: map<string, nat>)
    ensures forall name: string :: (if name in index then index[name] else Saturate(|raw.priority|)) == PriorityIn(raw, name)
  {
    index := map[];
    var unlisted := Saturate(|raw.priority|);
    for i := 0 to |raw.priority|
      invariant forall name: string ::
                  (if name in index then index[name] else unlisted) == PriorityOf(raw.priority[..i], name, unlisted)
    {
      assert raw.priority[..i + 1][..i] == raw.priority[..i];
      index := index[raw.priority[i] := Saturate(i)];
    }
    assert raw.priority[..|raw.priority|] == raw.priority;
  }

  lemma {:induction false} LeastName(names: set<string>) returns (least: string)
    requires names != {}
    ensures least in names && forall n | n in names :: n == least || Less(least, n)
    decreases |names|
  {
    var x :| x in names;
    if names == {x} {
      least := x;
    } else {
      var rest := names - {x};
      assert names == rest + {x};
      var y := LeastName(rest);
      LessTotal(x, y);
      least := if Less(x, y) then x else y;
      forall n | n in names ensures n == least || Less(least, n) {
        if Less(x, y) && n != x && n != y {
          LessTransitive(x, y, n);
        }
      }
    }
  }

  /** Every job of the hook is lowered once, and the list is strictly ordered by priority, then name. */
  method LowerHook(lib: Library, raw: RawHook) returns (r: Result<seq<Lowered>, LowerError>)
    ensures r.Success? <==> forall name | name in raw.jobs :: JobOf(lib, raw, name).Success?
    ensures r.Success? ==> forall x, y | 0 <= x < y < |r.value| ::
              var a, b := r.value[x].job, r.value[y].job;
              a.priority < b.priority || (a.priority == b.priority && Less(a.name, b.name))
    ensures r.Success? ==> forall name: string :: name in raw.jobs <==> HasName(r.value, name)
    ensures r.Success? ==> forall k | 0 <= k < |r.value| ::
              && r.value[k].job.name in raw.jobs && JobOf(lib, raw, r.value[k].job.name) == Success(r.value[k])
              && r.value[k].job.priority == PriorityIn(raw, r.value[k].job.name)
    ensures r.Failure? ==> exists name | name in raw.jobs ::
              && JobOf(lib, raw, name) == Failure(r.error)
              && forall n | n in raw.jobs && Less(n, name) :: JobOf(lib, raw, n).Success?
  {
    hide Less, LoweredJob, InOrder, SortJobs, Collected;
    r := LowerJobs(lib, raw);
    if r.Success? {
      var jobs := r.value;
      CollectedAll(lib, raw, jobs);
      SortSorts(jobs);
      r := Success(SortJobs(jobs));
      SortedHook(lib, raw, jobs, r.value);
      OrderedByPriority(r.value);
      forall k | 0 <= k < |r.value| ensures r.value[k].job.priority == PriorityIn(raw, r.value[k].job.name) {
        assert FromHook(lib, raw, {}, r.value[k]);
        NameKept(lib, r.value[k].job.name, raw.jobs[r.value[k].job.name], PriorityIn(raw, r.value[k].job.name));
      }
    }
  }

  /** The jobs whose names are not in `rest` are lowered, each once; their names come before those in `rest`. */
  ghost predicate Collected(lib: Library, raw: RawHook, rest: set<string>, jobs: seq<Lowered>) {
    && rest <= raw.jobs.Keys
    && (forall n | n in raw.jobs && n !in rest :: JobOf(lib, raw, n).Success? && JobOf(lib, raw, n).value in jobs)
    && (forall n, m | n in raw.jobs && n !in rest && m in rest :: Less(n, m))
    && (forall k | 0 <= k < |jobs| :: FromHook(lib, raw, rest, jobs[k]))
    && (forall x, y | 0 <= x < y < |jobs| :: jobs[x].job.name != jobs[y].job.name)
  }

  lemma CollectNext(lib: Library, raw: RawHook, rest: set<string>, jobs: seq<Lowered>, name: string)
    requires Collected(lib, raw, rest, jobs) && name in rest && forall n | n in rest :: n == name || Less(name, n)
    requires name in raw.jobs && JobOf(lib, raw, name).Success?
    ensures Collected(lib, raw, rest - {name}, jobs + [JobOf(lib, raw, name).value])
  {
    hide Less, LoweredJob;
    NameKept(lib, name, raw.jobs[name], PriorityIn(raw, name));
  }

  lemma CollectFails(lib: Library, raw: RawHook, rest: set<string>, jobs: seq<Lowered>, name: string)
    requires Collected(lib, raw, rest, jobs) && name in rest && forall n | n in rest :: n == name || Less(name, n)
    ensures forall n | n in raw.jobs && Less(n, name) :: JobOf(lib, raw, n).Success?
  {
    hide Less, LoweredJob;
    forall n | n in raw.jobs && Less(n, name) ensures n !in rest {
      LessTotal(n, name);
    }
  }

  lemma CollectedAll(lib: Library, raw: RawHook, jobs: seq<Lowered>)
    requires Collected(lib, raw, {}, jobs)
    ensures forall n | n in raw.jobs :: JobOf(lib, raw, n).Success? && JobOf(lib, raw, n).value in jobs
    ensures forall k | 0 <= k < |jobs| :: FromHook(lib, raw, {}, jobs[k])
    ensures forall x, y | 0 <= x < y < |jobs| :: jobs[x].job.name != jobs[y].job.name
  {
    hide Less, LoweredJob;
  }

  /** Lowering the jobs in name order, up to the first error. */
  method LowerJobs(lib: Library, raw: RawHook) returns (r: Result<seq<Lowered>, LowerError>)
    ensures r.Success? ==> Collected(lib, raw, {}, r.value)
    ensures r.Failure? ==> exists name | name in raw.jobs ::
              && JobOf(lib, raw, name) == Failure(r.error)
              && forall n | n in raw.jobs && Less(n, name) :: JobOf(lib, raw, n).Success?
  {
    hide Less, LoweredJob, Collected;
    var priorityIndex := PriorityIndex(raw);
    var unlisted := Saturate(|raw.priority|);
    var jobs: seq<Lowered> := [];
    var rest := raw.jobs.Keys;
    NothingCollected(lib, raw);
    while rest != {}
      invariant rest <= raw.jobs.Keys && Collected(lib, raw, rest, jobs)
      decreases |rest|
    {
      ghost var first := LeastName(rest);
      var name :| name in rest && forall n | n in rest :: n == name || Less(name, n);
      var priority := if name in priorityIndex then priorityIndex[name] else unlisted;
      var job := LowerJob(lib, name, raw.jobs[name], priority);
      if job.Failure? {
        CollectFails(lib, raw, rest, jobs, name);
        return Failure(job.error);
      }
      CollectNext(lib, raw, rest, jobs, name);
      jobs := jobs + [job.value];
      rest := rest - {name};
    }
    r := Success(jobs);
  }

  lemma NothingCollected(lib: Library, raw: RawHook)
    ensures Collected(lib, raw, raw.jobs.Keys, [])
  {
  }

  lemma SortedHook(lib: Library, raw: RawHook, jobs: seq<Lowered>, sorted: seq<Lowered>)
    requires multiset(sorted) == multiset(jobs)
    requires forall n | n in raw.jobs :: JobOf(lib, raw, n).Success? && JobOf(lib, raw, n).value in jobs
    requires forall k | 0 <= k < |jobs| :: FromHook(lib, raw, {}, jobs[k])
    ensures forall k | 0 <= k < |sorted| :: FromHook(lib, raw, {}, sorted[k])
    ensures forall name: string :: name in raw.jobs <==> HasName(sorted, name)
  {
    hide LoweredJob;
    forall k | 0 <= k < |sorted| ensures FromHook(lib, raw, {}, sorted[k]) {
      assert sorted[k] in multiset(sorted);
      assert sorted[k] in jobs;
    }
    forall name | name in raw.jobs ensures HasName(sorted, name) {
      var job := JobOf(lib, raw, name).value;
      assert job in multiset(sorted);
      NameKept(lib, name, raw.jobs[name], PriorityIn(raw, name));
      var k :| 0 <= k < |sorted| && sorted[k] == job;
    }
  }

  predicate FromHook(lib: Library, raw: RawHook, rest: set<string>, job: Lowered) {
    var name := job.job.name;
    name in raw.jobs && name !in rest && JobOf(lib, raw, name) == Success(job)
  }

  lemma NameKept(lib: Library, name: string, raw: RawJob, priority: nat)
    requires LoweredJob(lib, name, raw, priority).Success?
    ensures LoweredJob(lib, name, raw, priority).value.job.name == name
    ensures LoweredJob(lib, name, raw, priority).value.job.priority == priority
  {
  }

  // ---- What the order gives -----------------------------------------------------------------------------------

  /**
   * A job's priority is the position of its last mention in the hook's list, and that of a job not mentioned the position
   * after the list; both as far as 32 bits go.
   */
  lemma PriorityMeaning(raw: RawHook, name: string)
    ensures name !in raw.priority ==> PriorityIn(raw, name) == if |raw.priority| < 0x1_0000_0000 then |raw.priority| else 0xFFFF_FFFF
    ensures name in raw.priority ==> exists k :: 0 <= k < |raw.priority| && raw.priority[k] == name && name !in raw.priority[k + 1..]
                                                 && PriorityIn(raw, name) == if k < 0x1_0000_0000 then k else 0xFFFF_FFFF
  {
    LastMention(raw.priority, name, Saturate(|raw.priority|));
  }

  lemma {:induction false} LastMention(listed: seq<string>, name: string, unlisted: nat)
    ensures name !in listed ==> PriorityOf(listed, name, unlisted) == unlisted
    ensures name in listed ==> exists k ::
              0 <= k < |listed| && listed[k] == name && PriorityOf(listed, name, unlisted) == Saturate(k) && name !in listed[k + 1..]
  {
    if listed != [] {
      var last := |listed| - 1;
      var front := listed[..last];
      assert listed == front + [listed[last]];
      if listed[last] == name {
        assert name !in listed[last + 1..];
      } else {
        LastMention(front, name, unlisted);
        if name in listed {
          var k :| 0 <= k < |front| && front[k] == name && PriorityOf(front, name, unlisted) == Saturate(k) && name !in front[k + 1..];
          assert listed[k + 1..] == front[k + 1..] + [listed[last]];
        }
      }
    }
  }

  /** On a lowered job list, any subset of it included, the (priority, index) order is the list order. */
  lemma LoweredListsRunInOrder(globs: GlobEngine, jobs: seq<Lowered>, kept: seq<nat>)
    requires InOrder(jobs) && DagTheory.IsSelection(kept, |jobs|)
    ensures SchedulerTheory.InRunningOrder(DagOf(globs, DagTheory.Select(JobsIn(jobs), kept)))
  {
    assert forall x | 0 <= x < |kept| :: kept[x] in kept;
  }

  function JobsIn(jobs: seq<Lowered>): (r: seq<Job>)
    ensures |r| == |jobs|
  {
    seq(|jobs|, i requires 0 <= i < |jobs| => jobs[i].job)
  }

  /**
   * Whatever jobs of a lowered hook survive filtering, the parallel scheduler with a limit of one takes them in list
   * order, as the sequential runner does, and all of them when it finishes.
   */
  lemma LimitOneFollowsTheList(globs: GlobEngine, jobs: seq<Lowered>, kept: seq<nat>, resolved: seq<Executor.ResolvedJob>,
                               failFast: bool, run: seq<SchedulerSpec.Event>, s: SchedulerSpec.State)
    requires InOrder(jobs) && DagTheory.IsSelection(kept, |jobs|)
    requires Executor.JobsOf(resolved) == DagTheory.Select(JobsIn(jobs), kept)
    requires var c := Executor.InstanceOf(globs, resolved, 1, failFast); c.Valid() && SchedulerSpec.Reaches(c, run, s)
    ensures forall k | 0 <= k < |s.visited| :: s.visited[k] == k
    ensures s.phase.Finished? ==> |s.visited| == |resolved|
  {
    hide SchedulerSpec.Reaches, DagOf, InOrder;
    LoweredListsRunInOrder(globs, jobs, kept);
    Executor.InstanceValid(globs, resolved, 1, failFast);
    SchedulerTheory.LimitOneIsSequential(Executor.InstanceOf(globs, resolved, 1, failFast), run, s);
  }
}
