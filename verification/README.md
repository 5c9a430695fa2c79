# Verification of betterhook's core

betterhook runs git hooks: a hook is a list of jobs with declared capabilities, run one by one or in parallel along a
conflict graph, with a content-addressed cache, a lock daemon shared between worktrees and a stash of the changes that
are not being committed. This project models those parts in Dafny and proves what they promise.

## The parts

- `Dag`, `DagTheory`, `ProbeTest`: which jobs conflict, which of two runs first, the graph built from that, and how far the
  overlap test can be trusted (`runner/dag.rs`).
- `SchedulerSpec`, `SchedulerTheory`, `Runs`, `Executor`: the parallel scheduler. `SchedulerSpec` is an event machine whose
  events are the turns of the loop, with completion order, outcomes and cache hits left open; `SchedulerTheory` proves what
  holds over all its runs, and `Runs` what their turns alone show; `Executor` is the loop itself, as a class over the loop's
  variables, each method tied to the machine (`runner/executor.rs`).
- `HookRun`: the sequential runner, filtering and the final report.
- `Serialisability`, `Interleaving`, `CachedRun`: jobs as programs over a file store, interleaved step by step with the
  scheduler. The main theorems are `Interleaving.ParallelIsSerial` and, with lookups and stores in the cache as part of the
  run, `CachedRun.EveryRunIsSerial`.
- `Merge`, `Layers`, `Extends`, `ExtendsTheory`, `Lowering`: configuration overlay and its algebra, which layer each setting
  comes from, inheritance through `extends`, and the ordered job list of a hook (`config/`).
- `LockDaemon`, `CancelLatch` (in `Cancel.dfy`), `Stash`: three protocols as transition systems with any number of actors.
- `Shell`, `FileSet`, `FileSetTheory`: quoting, template expansion and chunking (`git/fileset.rs`). The word splitter
  follows POSIX.1-2017, Shell and Utilities, sections 2.2.1, 2.2.2, 2.3 and 2.6.7, and gives up on unquoted characters that
  mean more than themselves.
- `CacheKeys`, `CacheStore`, `CacheLookup`: what is hashed, the sharded store, and that a hit is as good as a run (`cache/`).
- `Dispatch`: routing files to packages and merging their hooks (`dispatch.rs`).
- `Text`, `Wrappers`: string operations of the standard library, and Option and Result.

## Assumptions

- Jobs without an edge between them have disjoint footprints, neither writing what the other reads or writes
  (`Serialisability.Separated`). The glob library is a parameter, and the graph alone does not imply this: `ProbeTest` says
  when the overlap test is exact and gives a pair that it misses.
- A concurrent-safe job keeps to the files it is given, and where it has just ended well it would find nothing more to do,
  as a checker or a formatter (`CachedRun.Repeatable`). That a cache hit is transparent is then proved.
- Hashes are ideal: hex digests without collisions. Texts are compared as characters; their UTF-8 form
  determines them (`Text.Utf8Injective`).
- For replayed events (`CacheLookup.CacheIsTransparent`): a job's exit code and events are decided by its hashed fields, its
  tool and the contents of its files (`CacheLookup.Determined`), and a run is recorded while its inputs look to it as they
  did before it (`CacheLookup.Settled`); that this cannot be dropped is proved. File lists come in git's order
  (`CacheLookup.Request`).
- A `notified()` future receives every notification sent after its creation, as tokio documents.
- Two names of one file parse alike (only where duplicates of a file are discussed), and the parser reads finitely many files.

## Where the code and its documentation disagree

The model follows the code.

- `runner/dag.rs:14-16` says network jobs conflict when neither is concurrent-safe; the code makes them conflict unless both
  are (`runner/dag.rs:186`): `ProbeTest.NetworkRule` says when the two differ, `ProbeTest.OneSafeNetworkJobIsOrdered` gives a pair.
- `runner/dag.rs:28-31` calls the probe test pessimistic; `ProbeTest.FooIsMissed` is an overlap it misses, and
  `ProbeTest.LiteralSideIsPessimistic` and `ProbeTest.ProbeTestExact` are conditions under which it is right.
- `lock/protocol.rs:26-29` and `daemon/registry.rs:23-24` say an acquire with other permits than the first is rejected; since
  keys are compared in full it is simply another lock.
- `git/fileset.rs:108-113` presents the four variables alike, but they are replaced one after the other, so that a file name
  can be taken for a later variable: `FileSetTheory.VariableExactIff` says exactly when.

## Model

| member | source | states |
|---|---|---|
| Dag.BuildDag | apps/betterhook/src/runner/dag.rs:104-174 | Building the graph succeeds exactly when every job's capability globs compile, and then gives, for each node, the conflicting nodes before it as parents and after it as children; otherwise the error names the first job with a glob that does not compile. |
| Dag.BuildGlobset | apps/betterhook/src/runner/dag.rs:165-174 | A list of patterns is refused if and only if it is not empty and does not compile, and the error names the job and the first pattern. |
| Dag.RefusedJob | apps/betterhook/src/runner/dag.rs:120-125 | A job is refused if and only if its write patterns, or its read and write patterns together, are not empty and do not compile; the error names the first pattern of the list that failed. |
| DagTheory.GraphAdjacency | apps/betterhook/src/runner/dag.rs:127-151 | For every job list, being a parent, being a child and conflicting in (priority, index) order are the same relation. |
| DagTheory.DagIsWellFormed | apps/betterhook/src/runner/dag.rs:104-154 | Parents and children mirror each other without duplicates, and every edge goes forward in (priority, index) order. |
| DagTheory.OneEdgePerConflict | apps/betterhook/src/runner/dag.rs:8-22 | Two conflicting jobs have exactly one edge between them, two others have none, and an edge starts at the job that comes first. |
| DagTheory.PathsAscend | apps/betterhook/src/runner/dag.rs:18-22 | Along every path of edges the last node comes after the first. |
| DagTheory.Acyclic | apps/betterhook/src/runner/dag.rs:18-22 | No path leads from a node back to itself. |
| DagTheory.RootsExist | apps/betterhook/src/runner/dag.rs:70-80 | A non-empty job list has a job without parents, so the scheduler always has somewhere to start. |
| DagTheory.Edges | apps/betterhook/src/runner/dag.rs:82-99 | The listed edges are exactly the graph's, each once, and as many as `edge_count` says. |
| DagTheory.FilteringInduces | apps/betterhook/src/runner/executor.rs:138-156 | Leaving jobs out with --skip/--only gives the induced subgraph: the remaining jobs keep exactly their edges and their order. |
| ProbeTest.LiteralSideIsPessimistic | apps/betterhook/src/runner/dag.rs:24-31 | The probe test misses no shared file when either side spells its files out without `*`. |
| ProbeTest.OverlapIsReal | apps/betterhook/src/runner/dag.rs:196-227 | Where patterns match their own probes, an overlap that the test reports is a file both sides match. |
| ProbeTest.ProbeTestExact | apps/betterhook/src/runner/dag.rs:196-227 | With one side spelled out and the other matching its own probes, the test reports an overlap if and only if some file is matched by both sides. |
| ProbeTest.SpelledOutJobsAreOrdered | apps/betterhook/src/runner/dag.rs:24-31 | Two jobs that share a file one of them writes get exactly one edge, if either side of the overlap spells its globs out. |
| ProbeTest.ProbeHeuristicMissesOverlap | apps/betterhook/src/runner/dag.rs:24-31 | For every directory, base name and extension, a writer of `dir*ext` and a reader of `**/base ext`, which can share the file `dir base ext`, conflict if and only if one set happens to match the other's probe. |
| ProbeTest.PlainLiteralsMatchThemselves | apps/betterhook/src/runner/dag.rs:24-31 | The conditions of these results can be met: with a plain matcher, patterns without `*` match the files they spell out and no others. |
| ProbeTest.FooIsMissed | apps/betterhook/src/runner/dag.rs:229-233 | At `src/*.ts` and `**/foo.ts`, with a plain matcher, both match `src/foo.ts`, the jobs do not conflict, and the graph has no edge between them. |
| ProbeTest.NetworkRule | apps/betterhook/src/runner/dag.rs:184-188 | Two network jobs without overlapping globs conflict if and only if not both are concurrent-safe; that is the documented rule if and only if both or neither are. |
| ProbeTest.OneSafeNetworkJobIsOrdered | apps/betterhook/src/runner/dag.rs:14-16 | One safe and one unsafe network job get an edge, although the documentation lets them run together. |
| SchedulerTheory.StepInv | apps/betterhook/src/runner/executor.rs:343-450 | Every turn of the loop keeps the scheduling invariant: pending counts are the unprocessed parents, each node is in exactly one place, the heap holds exactly the ready nodes, the in-flight set has `running` members and at most `limit`; and a node already started is never popped. |
| SchedulerTheory.ReachableInv | apps/betterhook/src/runner/executor.rs:322-450 | The invariant holds after every run of events, for every limit, completion order and outcome. |
| SchedulerTheory.ReleaseEffect | apps/betterhook/src/runner/executor.rs:462-501 | Releasing a list of distinct children lowers exactly their counts by one and pushes exactly those that reach zero and are not started. |
| SchedulerTheory.ReleaseAssertionsHold | apps/betterhook/src/runner/executor.rs:474-498 | In every run, whenever a skip, a cache hit or a join releases children, both debug assertions hold at each child in turn: its count is positive and it has not been started. |
| SchedulerTheory.ConflictingNeverTogether | apps/betterhook/src/runner/executor.rs:343-450 | Two conflicting jobs are never in flight together. |
| SchedulerTheory.NoJobStartsTwice | apps/betterhook/src/runner/executor.rs:346-353 | No job is started or skipped twice in any run. |
| SchedulerTheory.FinishedMeansComplete | apps/betterhook/src/runner/executor.rs:424-429 | When the loop leaves because nothing is in flight, every node has been processed: there is no deadlock. |
| SchedulerTheory.Progress | apps/betterhook/src/runner/executor.rs:343-431 | In every reachable active state some event is possible: the loop never gets stuck. |
| SchedulerTheory.RunsAreBounded | apps/betterhook/src/runner/executor.rs:343-450 | Every run has at most two turns per job and one more, so the loop terminates. |
| SchedulerTheory.FailuresExact | apps/betterhook/src/runner/executor.rs:377-444 | Over every run, the recorded failures are exactly the processed jobs whose outcome was a failure. |
| SchedulerTheory.ReportIsDetermined | apps/betterhook/src/runner/executor.rs:343-456 | A run that finishes reports the same ok, jobs_run and jobs_skipped for every limit and every join order, as a function of the job outcomes alone, and jobs_run + jobs_skipped is the number of jobs. |
| SchedulerTheory.LimitOneKeepsPriorityOrder | apps/betterhook/src/runner/executor.rs:326-353 | With a limit of one, jobs are started or skipped in exactly ascending (priority, index) order. |
| SchedulerTheory.LimitOneIsSequential | apps/betterhook/src/runner/executor.rs:240-290 | On a job list in running order, a limit of one visits jobs 0, 1, 2, ... as the sequential runner does, and all of them if it finishes. |
| Runs.CountersCount | apps/betterhook/src/runner/executor.rs:322-456 | Over every run the loop's counters count its turns: run are the jobs replayed or joined, skipped those skipped, failed says that one of the former failed, and the jobs spawned and not joined are `running`, at most the limit. |
| Runs.ErroredMeansFault | apps/betterhook/src/runner/executor.rs:433 | A run ends in an error if and only if its last turn joined a job that went wrong. |
| Runs.EndsAtLastTurn | apps/betterhook/src/runner/executor.rs:424-444 | A run has ended if and only if its last turn found nothing in flight, joined a job that went wrong or, under fail-fast, joined a failing one; no earlier turn did. |
| Runs.TurnsFit | apps/betterhook/src/runner/executor.rs:361-421 | In every run only jobs without a plan are skipped, only jobs with one are run, and only concurrent-safe ones are replayed. |
| Runs.LimitKept | apps/betterhook/src/runner/executor.rs:344 | At every moment of every run at most `limit` jobs have been spawned and not joined. |
| Runs.LimitUsed | apps/betterhook/src/runner/executor.rs:343-431 | Whenever the loop waits for a job, `limit` jobs are in flight or every job not begun has a conflicting predecessor that is not done: no job is held back for nothing. |
| Runs.RecordsAreTurns | apps/betterhook/src/runner/executor.rs:343-450 | A job is marked started if and only if some turn skipped, replayed or spawned it, and counts as processed if and only if some turn skipped, replayed or joined it. |
| Runs.AllDoneAtExit | apps/betterhook/src/runner/executor.rs:424-429 | A run that ends because nothing is in flight has skipped, replayed or joined every job. |
| Runs.ConflictsAwaited | apps/betterhook/src/runner/dag.rs:8-22 | In every run a job is skipped, replayed or spawned only after each job that conflicts with it and comes first, by priority and then by place in the list, is done. |
| Executor.ParallelLoop.constructor | apps/betterhook/src/runner/executor.rs:320-341 | The loop variables start as the initial state of the machine. |
| Executor.ParallelLoop.ReleaseChild | apps/betterhook/src/runner/executor.rs:474-501 | `release_child` in place computes the release function. |
| Executor.ParallelLoop.ReleaseChildren | apps/betterhook/src/runner/executor.rs:462-472 | `release_children` in place releases every child in order, and the assertions of `release_child` hold at each. |
| Executor.ParallelLoop.Take | apps/betterhook/src/runner/executor.rs:346-353 | Popping takes the least ready node in (priority, index) order, not started before, and marks it started. |
| Executor.ParallelLoop.FinishSkipped | apps/betterhook/src/runner/executor.rs:361-372 | A job without a plan counts as skipped and releases its children; the new state is the machine's. |
| Executor.ParallelLoop.NoteOutcome | apps/betterhook/src/runner/executor.rs:391-396 | A failure makes the run fail and fires the cancellation only under fail-fast; both flags latch. |
| Executor.ParallelLoop.FinishCached | apps/betterhook/src/runner/executor.rs:377-400 | A cache hit counts as run, may fail the run, and releases its children; the new state is the machine's. |
| Executor.ParallelLoop.Launch | apps/betterhook/src/runner/executor.rs:406-421 | A spawned job goes in flight and nothing else changes. |
| Executor.ParallelLoop.FinishJoined | apps/betterhook/src/runner/executor.rs:431-449 | A joined job leaves the in-flight set, is counted and releases its children; the new state is the machine's. |
| Executor.ParallelLoop.StopAfter | apps/betterhook/src/runner/executor.rs:437-443 | Under fail-fast a failing job cancels and drains the others, and no other job is counted. |
| Executor.ExecuteJob | apps/betterhook/src/runner/executor.rs:525-608 | A job stops at the first command that does not exit with zero, and fails or goes wrong as that command, its snapshot or its re-staging does. |
| Executor.JobMeaning | apps/betterhook/src/runner/executor.rs:535-588 | A job ends well if and only if its snapshot, all its commands and its re-staging do; if its own steps go well it fails if and only if a command exits with another code than zero, every command before it, or without stopping every command, being runnable. |
| Executor.FailsMeaning | apps/betterhook/src/runner/executor.rs:259-396 | A concurrent-safe job that the cache has fails in the parallel scheduler as its recorded exit code says; otherwise the parallel scheduler, and the sequential one under fail-fast, decide at the first command that does not exit with zero, and without fail-fast the sequential one runs all commands. |
| Executor.AllCommandsMeaning | apps/betterhook/src/runner/executor.rs:259-279 | Run to the end, the commands of a job go wrong if and only if one cannot be run, and otherwise succeed if and only if all exit with zero. |
| Executor.FirstCommandDecides | apps/betterhook/src/runner/executor.rs:557-574 | Stopped early, the first command that does not exit with zero decides: the job fails or goes wrong with it. |
| Executor.StoppingAgrees | apps/betterhook/src/runner/executor.rs:272-278 | If all commands can be run, stopping at the first failing one gives the same result as running all. |
| Executor.RunParallel | apps/betterhook/src/runner/executor.rs:307-457 | Every execution of the loop is a run of the machine that has ended, and each turn saw what the environment answers. The result is an error if and only if the last turn met a job that went wrong; otherwise jobs_run is the number of jobs replayed or joined, jobs_skipped the number skipped, and ok says that none of the former failed, also after a fail-fast stop. Under fail-fast the first failing join ends the run, and otherwise no join does. A positive configured limit bounds the jobs in flight at every turn and is used up whenever a job without pending predecessors has not begun; zero counts as one, and without one the default holds. The first job whose globs do not compile is the error if there is one. |
| Executor.DrainReady | apps/betterhook/src/runner/executor.rs:344-422 | The inner loop pops ready jobs until the limit is reached or none is ready, skipping, replaying or spawning each as its plan and the cache say. |
| Executor.RunLoop | apps/betterhook/src/runner/executor.rs:343-456 | The main loop terminates, follows the machine from its first to its last turn, and its answer counts those turns. |
| HookRun.RunSequential | apps/betterhook/src/runner/executor.rs:232-297 | The sequential runner visits the jobs up to the first that goes wrong or, under fail-fast, fails; it ends in an error if and only if the last visited one goes wrong, and otherwise counts the visited jobs, those without a plan as skipped and the others as run, and is ok exactly if none of them failed. |
| HookRun.RunCommands | apps/betterhook/src/runner/executor.rs:259-279 | The command loop goes on after a failing command unless fail-fast is set. |
| HookRun.SequentialRunsTo | apps/betterhook/src/runner/executor.rs:232-297 | A sequential summary is ok if and only if no job fails, never counts more than the jobs with and without a plan, has run a job if it is not ok, and is complete unless fail-fast cut it short; an error means a job went wrong. |
| HookRun.ParallelRunsTo | apps/betterhook/src/runner/executor.rs:307-457 | The same holds of every run of the parallel scheduler, at every limit, join order and cache. |
| HookRun.ReportDetermined | apps/betterhook/src/runner/executor.rs:343-456 | Without fail-fast the result, summary or error, is determined by what the jobs do. |
| HookRun.SequentialAgreesWithParallel | apps/betterhook/src/runner/executor.rs:232-456 | Without fail-fast, if the sequential runner reports a summary, the parallel one reports the same, at every limit and join order and from every truthful cache. |
| HookRun.FilterJobs | apps/betterhook/src/runner/executor.rs:138-156 | Filtering keeps, in order, exactly the jobs that `skip` does not name and that `only` names if it is not empty, and counts the others. |
| HookRun.FirstPlanError | apps/betterhook/src/runner/executor.rs:138-156 | The error of resolving is that of the first kept job that cannot be resolved. |
| HookRun.RunJobs | apps/betterhook/src/runner/executor.rs:167-171 | Either scheduler, as the hook says: the answer is that of the sequential run, or of some ended run of the parallel machine that saw what the environment answers. |
| HookRun.RunHook | apps/betterhook/src/runner/executor.rs:96-212 | The result of a hook: a stash error if pushing fails, else the error of the first kept job that cannot be resolved, else the graph error of the first kept job whose globs do not compile, else the report of the sequential run or of an ended run of the parallel machine, with a failed pop as an error and filtered jobs counted as skipped. |
| HookRun.ReportCounts | apps/betterhook/src/runner/executor.rs:187-211 | In that report, fail-fast or not, the sequential runner's counts are those of the visited prefix, and the parallel scheduler's those of the turns of one of its runs, with the filtered jobs added to the skipped ones. |
| HookRun.ReportMeans | apps/betterhook/src/runner/executor.rs:187-211 | A hook's report is ok if and only if no kept planned job fails; then, or without fail-fast, it accounts once for every job of the hook; and without fail-fast there is a report if and only if no kept job goes wrong and the pop succeeds. |
| Serialisability.SerialOrderExists | apps/betterhook/src/runner/dag.rs:18-22 | Every graph has an order of its jobs by (priority, index). |
| Serialisability.RunningOrderIsSerial | apps/betterhook/src/config/schema.rs:461 | For a list in running order, that serial order is the list itself. |
| Serialisability.IterAgrees | apps/betterhook/src/runner/executor.rs:525-609 | A job that runs alone cannot tell two file stores apart that agree on its footprint, and leaves them agreeing on it. |
| Interleaving.ActKeeps | apps/betterhook/src/runner/executor.rs:343-450 | Every act, one step of one running job or one turn of the scheduler, keeps the correspondence with the serial run: settled files have their serial contents, and jobs in flight are where they would be in it. |
| Interleaving.TurnsAreARun | apps/betterhook/src/runner/executor.rs:343-450 | The scheduler's part of every interleaved execution is a run of the scheduling machine. |
| Interleaving.ParallelIsSerial | apps/betterhook/src/runner/executor.rs:343-456 | Without fail-fast, for every limit, every completion order and every interleaving of the jobs' own steps, a finished parallel run leaves all files exactly as running the jobs one by one in (priority, index) order does, and fails exactly if one of those fails; replayed jobs are those that would change no file and end the same way, which the next rows derive from the cache. |
| CachedRun.CheckersAreRepeatable | apps/betterhook/src/runner/executor.rs:374-376 | A job that changes no file finds nothing more to do after it has ended. |
| CachedRun.HitIsTransparent | apps/betterhook/src/runner/executor.rs:377-400 | A hit on a cache filled by earlier runs never fails, and stands for a run that would change no file and end well. |
| CachedRun.SaveIsSane | apps/betterhook/src/runner/executor.rs:590-606 | What a job that has just ended well records is such an entry, whatever the other jobs are doing. |
| CachedRun.CachedIsPlayed | apps/betterhook/src/runner/executor.rs:343-450 | A parallel run with its lookups and stores is one of the runs above, and leaves the cache sound. |
| CachedRun.CachedParallelIsSerial | apps/betterhook/src/runner/executor.rs:343-456 | Without fail-fast, a finished parallel run that replays from the cache leaves all files exactly as running every job one by one without the cache does, fails exactly if one of those fails, and leaves the cache sound. |
| CachedRun.EveryRunIsSerial | apps/betterhook/src/cache/lookup.rs:145-205 | So does every run after any number of earlier hook runs sharing the cache, finished or not, with any edits and tool changes between them. |
| Interleaving.SeparatedWhenDisjoint | apps/betterhook/src/runner/dag.rs:24-31 | The hypothesis of that theorem follows when jobs that the graph finds no conflict between write nothing the other reads or writes. |
| Merge.OverlayEntries | apps/betterhook/src/config/schema.rs:581-602 | Overlaying entry by entry gives the key-wise merge: all keys of both sides, merged where both have one. |
| Merge.MergedConfig.MergeOverlay | apps/betterhook/src/config/schema.rs:574-603 | Merging in place computes the merge of the old value and the overlay, ignoring the overlay's extends list. |
| Merge.JobLaws | apps/betterhook/src/config/schema.rs:644-686 | Merging jobs is associative and idempotent, and x+y+x is y+x, through every optional field, list and environment variable. |
| Merge.HookLaws | apps/betterhook/src/config/schema.rs:617-642 | The same laws hold for hooks, with jobs merged by name. |
| Merge.PackageLaws | apps/betterhook/src/config/schema.rs:587-602 | The same laws hold for packages. |
| Merge.BlankIdentity | apps/betterhook/src/config/schema.rs:617-686 | A job or hook that sets nothing changes nothing on either side. |
| Merge.MergeAssociative | apps/betterhook/src/config/schema.rs:569-604 | Layering three configurations does not depend on the bracketing. |
| Merge.MergeIdentity | apps/betterhook/src/config/schema.rs:569-604 | The default configuration is an identity on both sides, up to the extends list. |
| Merge.MergeAbsorbs | apps/betterhook/src/config/schema.rs:569-604 | A configuration overlaid again last need not have been there first. |
| Layers.LastLayerWins | apps/betterhook/src/config/schema.rs:569-573 | A setting that merging takes from the overlay when the overlay has it comes from the last layer, of any number, that has it. |
| Layers.MergedPackage | apps/betterhook/src/config/schema.rs:587-602 | A merged package has the overlay's path and exactly the hooks of either side, merged where both have one; a package without hooks is neutral on either side. |
| Layers.HookMerges | apps/betterhook/src/config/schema.rs:581-602 | At the top level and in every package, no hook of either side is lost, and one of both is merged. |
| Layers.JobMerges | apps/betterhook/src/config/schema.rs:617-642 | The same of every job, addressed by package, hook and name. |
| Layers.FieldsOverlay | apps/betterhook/src/config/schema.rs:644-686 | Every field of a job, optional fields, replaced lists and single environment variables, is a setting that the overlay wins when it sets it. |
| Layers.JobSettingsLayer | apps/betterhook/src/config/schema.rs:569-573 | So every such field of a job, at the top level or in a package, comes from the last layer that sets it. |
| Layers.JobPresenceLayers | apps/betterhook/src/config/schema.rs:634-640 | A job is there if and only if some layer has it. |
| Layers.HookFieldsOverlay | apps/betterhook/src/config/schema.rs:617-633 | Every flag, limit and priority list of a hook is such a setting. |
| Layers.HookSettingsLayer | apps/betterhook/src/config/schema.rs:569-573 | So every such setting of a hook comes from the last layer that sets it. |
| Layers.PathsAndMetaLayer | apps/betterhook/src/config/schema.rs:575-615 | A package's path comes from the last layer that has the package, and `version` and `min_betterhook` each from the last that sets it. |
| Extends.FindLocalOverride | apps/betterhook/src/config/extends.rs:73-93 | The local override is the one candidate file that exists, none if none does, and an error naming the first two if there are several. |
| Extends.Resolver.ResolveImpl | apps/betterhook/src/config/extends.rs:25-71 | The recursive resolver terminates on every finite set of files, computes the resolution and puts `seen` back as it was when it succeeds. |
| Extends.Resolve | apps/betterhook/src/config/extends.rs:18-23 | Resolution starts with nothing seen and applies the local override. |
| ExtendsTheory.SuccessMeansNoCycle | apps/betterhook/src/config/extends.rs:30-39 | If resolution succeeds, every chain of extends from the root leads to a readable file not met before on the chain. |
| ExtendsTheory.FailureWitness | apps/betterhook/src/config/extends.rs:30-41 | If it fails, there is a chain that ends in a file met before or an unreadable one, and the error is about that file. |
| ExtendsTheory.ResolvesIffNoCycle | apps/betterhook/src/config/extends.rs:25-71 | Resolution succeeds if and only if every chain of extends from the root leads to a readable file not met before: diamonds are accepted, cycles never. |
| ExtendsTheory.ResolvedIsFold | apps/betterhook/src/config/extends.rs:44-67 | The resolved configuration is the left-to-right overlay of the files in depth-first post-order and then the local override, and keeping only the last mention of each file gives the same. |
| ExtendsTheory.DuplicatesDoNotMatter | apps/betterhook/src/config/extends.rs:44-59 | Dropping all but the last mention of each file does not change the overlay of any list of files. |
| ExtendsTheory.KeepLastIsExact | apps/betterhook/src/config/extends.rs:44-59 | Dropping earlier mentions keeps every file, once. |
| ExtendsTheory.WithoutLocal | apps/betterhook/src/config/extends.rs:60-67 | If none of the five candidates is a file, the result is that of the chain itself. |
| ExtendsTheory.WithOneLocal | apps/betterhook/src/config/extends.rs:60-67 | If exactly one is, it is laid over the resolved chain, or is the error if it cannot be read. |
| ExtendsTheory.WithManyLocals | apps/betterhook/src/config/extends.rs:73-93 | If several are, the error names the first two. |
| Lowering.LowerJob | apps/betterhook/src/config/schema.rs:476-563 | A builtin fills in what the user left out: lowering is that of the user's job overlaid on the builtin's fields, with the error of the first check that fails. |
| Lowering.LoweredFields | apps/betterhook/src/config/schema.rs:476-563 | Every lowered field is the user's where the user set it, otherwise the builtin's where a builtin is named and has one, and otherwise off; the remaining fields are the user's. |
| Lowering.LoweredIsolation | apps/betterhook/src/config/schema.rs:688-716 | The lowered isolation is the tool, the tool with its target directory (per worktree unless another is named), or the lock with its positive number of slots, as the user wrote it. |
| Lowering.LoweringFails | apps/betterhook/src/config/schema.rs:480-537 | A job is refused if and only if it names an unknown builtin, has no command, a duration that does not parse, an isolation without name and tool or with no slots, or a capability glob that does not parse; the first of these gives the error. |
| Lowering.LessMeaning | apps/betterhook/src/config/schema.rs:461 | Names are compared at the first place where they differ, a proper prefix coming first. |
| Lowering.LowerHook | apps/betterhook/src/config/schema.rs:435-474 | Lowering a hook gives every job once, with the priority of its place in the list, strictly ordered by priority and then name, or the error of the first job by name that cannot be lowered. |
| Lowering.PriorityMeaning | apps/betterhook/src/config/schema.rs:440-456 | A job's priority is the position of its last mention in the list, capped to 32 bits; unmentioned jobs come after the list. |
| Lowering.LoweredListsRunInOrder | apps/betterhook/src/config/schema.rs:461 | On a lowered job list, and any filtered part of it, (priority, index) order is list order. |
| Lowering.LimitOneFollowsTheList | apps/betterhook/src/runner/executor.rs:240-353 | On any filtered lowered hook the parallel scheduler with a limit of one takes the jobs in list order, as the sequential runner does. |
| LockDaemon.Daemon.Semaphore | apps/betterhook/src/daemon/registry.rs:34-51 | A key's semaphore is found or created with the key's permits; only an unknown key with zero permits is an error. |
| LockDaemon.Daemon.BeginAcquire | apps/betterhook/src/daemon/server.rs:143-153 | An acquire either is refused at once, changing nothing, or waits on the key's semaphore. |
| LockDaemon.Daemon.GrantPermit | apps/betterhook/src/daemon/server.rs:154-164 | A granted permit leaves the semaphore and belongs to the waiting handler. |
| LockDaemon.Daemon.ExpireWait | apps/betterhook/src/daemon/server.rs:165-173 | A wait that times out changes no lock and ends the request. |
| LockDaemon.Daemon.DrawToken | apps/betterhook/src/daemon/server.rs:175 | The handler takes the counter's old value as its token, and the counter wraps at 2^64. |
| LockDaemon.Daemon.RecordPermit | apps/betterhook/src/daemon/server.rs:176-179 | The permit is held under the handler's token, which the reply names; a permit held there before goes back to its semaphore. |
| LockDaemon.Daemon.ReleaseToken | apps/betterhook/src/daemon/server.rs:131-134 | A release gives back the permit the connection holds under the token, if any. |
| LockDaemon.Daemon.DropConnection | apps/betterhook/src/daemon/server.rs:102-105 | When a handler returns, everything its connection held goes back, permit by permit. |
| LockDaemon.Daemon.Snapshot | apps/betterhook/src/daemon/registry.rs:53-66 | The snapshot lists exactly the permits in use of every known lock, and its subtraction does not underflow. |
| LockDaemon.Serve | apps/betterhook/src/daemon/server.rs:91-180 | The daemon driven through any possible interleaving of its handlers ends in the state the machine ends in. |
| LockDaemon.ConservedStep | apps/betterhook/src/daemon/server.rs:91-180 | No event creates or loses a permit of any lock. |
| LockDaemon.PermitsConserved | apps/betterhook/src/daemon/registry.rs:35-66 | In every reachable state, permits held, permits granted but not yet recorded and permits available add up to the key's permits. |
| LockDaemon.HoldersBounded | apps/betterhook/src/lock/protocol.rs:26-35 | The permits of a lock in use never exceed its capacity, and a lock with one permit is a mutex between connections. |
| LockDaemon.WaitsOnlyWhenFull | apps/betterhook/src/daemon/server.rs:154-164 | A waiting handler can be granted a permit if and only if not all permits of its lock are in use. |
| LockDaemon.IdleMeansFree | apps/betterhook/src/daemon/server.rs:102-105 | When no connection uses a lock, all its permits are available. |
| LockDaemon.RefusedIffZero | apps/betterhook/src/daemon/registry.rs:34-51 | In every reachable state an acquire is refused if and only if it asks for a lock of zero permits. |
| LockDaemon.MismatchedPermitsAreDistinctLocks | apps/betterhook/src/lock/protocol.rs:26-35 | Two clients that name the same lock with different permits are both granted it: the keys are different locks. |
| LockDaemon.CounterCounts | apps/betterhook/src/daemon/server.rs:54 | The counter is one more than the number of tokens drawn, modulo 2^64. |
| LockDaemon.DrawnInOrder | apps/betterhook/src/daemon/server.rs:175 | The handlers that draw a token get 1, 2, 3 and so on, modulo 2^64, in the order of drawing. |
| LockDaemon.RepliesWhatItDrew | apps/betterhook/src/daemon/server.rs:175-179 | Every reply grants the token its handler drew in this request. |
| LockDaemon.ReplyAnswersRequest | apps/betterhook/src/daemon/server.rs:143-179 | In every run a handler that replies has, for its connection's last request, been granted a permit of the lock asked for and drawn a token since; a request whose wait expired is never granted. |
| LockDaemon.TokensDistinct | apps/betterhook/src/daemon/server.rs:175 | In every run two handlers draw the same token if and only if they draw a multiple of 2^64 drawings apart. |
| LockDaemon.TokensInUseDistinct | apps/betterhook/src/daemon/server.rs:175-179 | As long as fewer than 2^64 tokens have been drawn, the tokens that all connections hold permits under, or are about to, are pairwise distinct. |
| LockDaemon.GrantIsReleasable | apps/betterhook/src/daemon/server.rs:131-179 | After a grant the permit is held under the token of the reply, and releasing that token gives it back; as long as fewer than 2^64 tokens have been drawn, recording it displaces nothing. |
| LockDaemon.ReleaseFreesOwnPermit | apps/betterhook/src/daemon/server.rs:131-134 | A release frees at most one permit, and only one held by the same connection under that token; repeating it changes nothing, and other connections keep all they hold. |
| LockDaemon.HangUpReturnsAll | apps/betterhook/src/daemon/server.rs:102-105 | Closing a connection returns to every lock exactly what the connection held of it. |
| LockDaemon.ActiveIsExact | apps/betterhook/src/daemon/server.rs:66-78 | The connection counter is the number of connections whose task has not ended. |
| LockDaemon.DepartNeverUnderflows | apps/betterhook/src/daemon/server.rs:77 | The counter is positive whenever a task ends, so the subtraction does not wrap. |
| CancelLatch.Latch.NotifyWaiters | apps/betterhook/src/runner/proc.rs:57-60 | A notification makes every future ready that was created before it. |
| CancelLatch.Latch.Poll | apps/betterhook/src/runner/proc.rs:70-84 | One poll of `cancelled` returns if and only if the flag is set, unless the waiter already waits unnotified, in which case it goes on waiting. |
| CancelLatch.StepInv | apps/betterhook/src/runner/proc.rs:57-84 | Every statement of every caller keeps: the flag is set once stored and stays set, and a waiter that waits created its future before any notification. |
| CancelLatch.NoLostWakeup | apps/betterhook/src/runner/proc.rs:57-84 | In every interleaving of any number of `cancel` calls and waiters, once one call has returned, every waiter has returned or can go on. |
| CancelLatch.FlagStaysSet | apps/betterhook/src/runner/proc.rs:62-66 | Once the flag is set or a waiter has returned, the flag is set in every later state. |
| CancelLatch.WaiterTakesFiveSteps | apps/betterhook/src/runner/proc.rs:70-84 | In every run a waiter executes at most five statements: its loop never turns twice. |
| CancelLatch.PollIsEvents | apps/betterhook/src/runner/proc.rs:70-84 | A poll is a sequence of the waiter's own events in the machine. |
| CancelLatch.Interleave | apps/betterhook/src/runner/proc.rs:50-85 | The latch driven through any possible interleaving of its callers ends in the state the machine ends in. |
| CancelLatch.PollOutcome | apps/betterhook/src/runner/proc.rs:246-280 | The biased select gives cancellation if and only if the waiter can see a set latch, and otherwise prefers the timeout to the child's exit. |
| CancelLatch.PollCommand | apps/betterhook/src/runner/proc.rs:246-308 | A command whose latch is set, and whose waiter can see it, is killed and reports 130 whatever its child has done; otherwise, with or without a latch, one that timed out is killed and reports 124, one that exited reports its code, or -1 for a signal, one that runs reports nothing, and a failed wait is an error. |
| Stash.Repository.FindStashIndex | apps/betterhook/src/git/stash.rs:141-150 | The index found is that of the first listed line containing the message, and none is found only if no line does. |
| Stash.NamedByBranchOrMessage | apps/betterhook/src/git/stash.rs:141-150 | The search reads whole lines, so an entry is found by its message and also by text that its branch's name contains. |
| Stash.Repository.Push | apps/betterhook/src/git/stash.rs:36-71 | A clean tree adds nothing, a partly staged one is refused, and a saved one puts its entry on top. |
| Stash.Repository.Pop | apps/betterhook/src/git/stash.rs:79-102 | A pop removes the top entry if it is the first line with the guard's message, and otherwise reports why and changes nothing. |
| Stash.PushAnswers | apps/betterhook/src/git/stash.rs:36-71 | A push is refused if and only if the tree is partly staged or git fails, and then saves nothing; otherwise the guard remembers the message if and only if the tree was not clean, and a saved entry with that message goes on top. |
| Stash.PopAnswers | apps/betterhook/src/git/stash.rs:79-102 | A pop has nothing to do without an entry of its own; otherwise it answers by the first line that carries the message: gone if there is none, buried if it is below the top, and else restored, or a conflict. |
| Stash.ReachableInv | apps/betterhook/src/runner/executor.rs:120-185 | With no other stash user, one run at a time holds the lock, and between its push and pop the stack is what it found with its own entry on top. |
| Stash.OneRunAtATime | apps/betterhook/src/runner/stage.rs:20-33 | Whatever other users do to the stash, two runs are never both between push and pop. |
| Stash.PopRestoresStack | apps/betterhook/src/runner/executor.rs:173-185 | With any number of runs and no other stash user, a run that saved its tree finds its own entry at index 0, its pop is not refused, and unless git reports a conflict the stack is as it was when the run took the lock, above whatever earlier runs left. |
| Stash.CleanRunKeepsStack | apps/betterhook/src/git/stash.rs:34-43 | A run that found a clean tree leaves the stack alone. |
| Stash.NoEntryLost | apps/betterhook/src/runner/executor.rs:123-185 | The entries present at the start stay at the bottom, and there is one more for each run that has not popped yet or ended without popping. |
| Stash.PopTakesOnlyNamedTop | apps/betterhook/src/git/stash.rs:73-101 | Whatever other users do to the stash, a pop never removes anything but a top entry whose line carries the run's message. |
| Shell.ShellEscape | apps/betterhook/src/git/fileset.rs:83-106 | Escaping loops over the characters and gives the quoted form. |
| Shell.LeftAsTheyAre | apps/betterhook/src/git/fileset.rs:83-93 | Exactly the non-empty names of ASCII letters, digits and seven further characters are left as they are; the others are put in quotes. |
| Shell.QuotingRoundTrip | apps/betterhook/src/git/fileset.rs:83-106 | A POSIX shell splits the quoted, space-joined names back into exactly those words, for every list of names: empty ones, embedded quotes, blanks, newlines and non-ASCII characters included. |
| Shell.NamesAreWords | apps/betterhook/src/git/fileset.rs:151-159 | Between blanks in a command, the expansion contributes exactly the names between the words before and after it. |
| FileSet.ListingRoundTrip | apps/betterhook/src/git/fileset.rs:48-54 | Parsing a NUL-terminated listing gives back its names. |
| FileSet.SubstituteOnce | apps/betterhook/src/git/fileset.rs:117-125 | Substitution replaces the four variables one after the other. |
| FileSet.ExpandTemplate | apps/betterhook/src/git/fileset.rs:127-162 | Expansion gives one command per group of a greedy grouping whose groups, in order, are the files; one command without a template or without files; never none. What that is for each variable is said by the theorems below. |
| FileSet.ChunkFiles | apps/betterhook/src/git/fileset.rs:142-161 | The chunking loop keeps non-empty groups that fit, each of which could not have taken the next file. |
| Text.Utf8Injective | apps/betterhook/src/git/fileset.rs:142-148 | Lengths are those of the UTF-8 form of a text (RFC 3629, section 3), which determines the text. |
| FileSetTheory.GreedyIsUnique | apps/betterhook/src/git/fileset.rs:147-157 | There is only one such grouping, so the chunks are determined by the files and the command's length. |
| FileSetTheory.FilesIsExact | apps/betterhook/src/git/fileset.rs:117-125 | A command with one `{files}` gets exactly the expansion in its place, whatever the files are called. |
| FileSetTheory.VariableExactIff | apps/betterhook/src/git/fileset.rs:108-125 | With any variable as the only braces of a command, the command comes out as intended if and only if no file name mentions a later variable. |
| FileSetTheory.StagedFileNamedFiles | apps/betterhook/src/git/fileset.rs:117-125 | A staged file named `{files}` makes `{staged_files}` expand to something else. |
| FileSetTheory.ChunkFitsLimit | apps/betterhook/src/git/fileset.rs:16-19 | For a command with one `{files}`, a chunk of two or more files stays under 128 KiB, by eight bytes. |
| FileSetTheory.NextNameDidNotFit | apps/betterhook/src/git/fileset.rs:147-157 | A chunk is closed only when the command with the next name quoted and joined by a space would have taken more than 128 KiB. |
| FileSetTheory.PlainCommandStays | apps/betterhook/src/git/fileset.rs:135-137 | A command without braces is returned alone and unchanged, whatever the files are. |
| FileSetTheory.VariableIsExpanded | apps/betterhook/src/git/fileset.rs:108-162 | For each of the four variables between texts without braces, and `{files}` also elsewhere as the only variable: without files it is replaced by nothing, and otherwise there is one command for each greedy group, with the group's quoted names in its place, if no name mentions a later variable. |
| FileSetTheory.EveryMentionIsReplaced | apps/betterhook/src/git/fileset.rs:117-125 | A variable mentioned any number of times is replaced at each mention: `{files}` by any expansion, the others by one without braces. |
| FileSetTheory.EveryFileReachesACommand | apps/betterhook/src/git/fileset.rs:21-54 | For a command with such a variable between blanks, and names that mention no later variable, the names git lists reach the shell as whole words, each in exactly one command of the expansion, in listing order. |
| CacheKeys.IdealHashExists | apps/betterhook/src/cache/hash.rs:48-52 | The assumption that hashes do not collide can be met. |
| CacheKeys.ArgsHash | apps/betterhook/src/cache/hash.rs:71-80 | The argument hash is that of the NUL-terminated list. |
| CacheKeys.ArgsHashInjective | apps/betterhook/src/cache/hash.rs:67-80 | Argument lists without NULs hash alike if and only if they are equal, order and grouping included. |
| CacheKeys.FieldsHash | apps/betterhook/src/cache/hash.rs:86-114 | The job hash is that of its tagged, NUL-terminated fields. |
| CacheKeys.FieldsHashInjective | apps/betterhook/src/cache/hash.rs:82-114 | Jobs without NULs in their fields or `=` in their variable names hash alike if and only if run, fix, glob, exclude and env are all equal. |
| CacheKeys.HashFileSet | apps/betterhook/src/cache/lookup.rs:22-37 | The content hash is that of the sorted paths with the digest of each, or a sentinel. |
| CacheKeys.ContentHashExact | apps/betterhook/src/cache/lookup.rs:18-37 | Two file sets hash alike if and only if they list the same paths, in any order, and each path has the same content or is missing in both. |
| CacheKeys.RelativePathInjective | apps/betterhook/src/cache/hash.rs:35-45 | Distinct keys are stored in distinct files. |
| CacheStore.Store.Get | apps/betterhook/src/cache/store.rs:158-174 | A get answers as a plain map from keys to results would. |
| CacheStore.Store.Put | apps/betterhook/src/cache/store.rs:176-203 | A put changes the map at its key only, times cut to whole seconds. |
| CacheStore.Store.Remove | apps/betterhook/src/cache/store.rs:205-214 | A remove deletes the key's entry and says whether there was one. |
| CacheStore.Store.Walk | apps/betterhook/src/cache/store.rs:226-257 | The walk over the shards meets every file exactly once. |
| CacheStore.Store.Len | apps/betterhook/src/cache/store.rs:259-271 | The length is the number of keys. |
| CacheStore.Store.Clear | apps/betterhook/src/cache/store.rs:306-319 | Clearing leaves no key and returns how many there were. |
| CacheLookup.InputsFresh | apps/betterhook/src/cache/lookup.rs:79-115 | Inputs are fresh if and only if each exists, was recorded, and has the same modification second, neither time before the epoch. |
| CacheLookup.LookupBlocking | apps/betterhook/src/cache/lookup.rs:147-163 | A lookup on the sharded store answers as on a plain map: the key's entry, unless its inputs are stale. |
| CacheLookup.StoreBlocking | apps/betterhook/src/cache/lookup.rs:194-205 | A store sets the entry of the key derived at that moment. |
| CacheLookup.RecordRun | apps/betterhook/src/runner/executor.rs:590-606 | Only a successful run of a concurrent-safe job with files is recorded. |
| CacheLookup.RecordThenLookup | apps/betterhook/src/cache/lookup.rs:66-163 | A job recorded in one state of the disk and looked up in another, with the same tool and contents, is found if and only if every input exists in both, its time now is not before the epoch, and it lies in the second that was recorded (a recorded time before the epoch counts as the epoch); then with its own outcome. |
| CacheLookup.RecordLeavesOthers | apps/betterhook/src/cache/lookup.rs:58-64 | Recording a job changes no lookup with other fields, other files, another tool or other contents. |
| CacheLookup.EqualKeys | apps/betterhook/src/cache/lookup.rs:58-64 | Equal keys mean equal job fields, equal file lists, the same tool and the same contents. |
| CacheLookup.HitsNeverFail | apps/betterhook/src/runner/executor.rs:592-599 | After any history every entry has exit code 0, so a hit never fails. |
| CacheLookup.EntryHasRun | apps/betterhook/src/runner/executor.rs:590-606 | After any history every entry comes from a run of a concurrent-safe job with files that ended with exit code 0, and has that run's events. |
| CacheLookup.CacheIsTransparent | apps/betterhook/src/cache/lookup.rs:145-205 | After any history of edits, runs, stores and evictions, a hit gives the exit code and events that running the job now would give. |
| CacheLookup.UnsettledRunIsReplayedWrongly | apps/betterhook/src/runner/executor.rs:590-606 | The condition on runs is exact: a recorded run whose outcome differs from a new run's is replayed wrongly by the next lookup. |
| Dispatch.OwnerIsLongestMatch | apps/betterhook/src/dispatch.rs:104-130 | A file belongs to the package with the longest path among those whose components are the file's first ones, the first by name among equals, and to the root if and only if there is none. |
| Dispatch.OwnerIsDeepestMatch | apps/betterhook/src/dispatch.rs:89-91 | Where nested paths are written longer, that package is the deepest one. |
| Dispatch.ResolvePackages | apps/betterhook/src/dispatch.rs:98-142 | The groups are the files of the root and of each package, in their original order, empty groups left out; without packages there is one root group. |
| Dispatch.FilesArePartitioned | apps/betterhook/src/dispatch.rs:115-141 | The files of the returned groups are together a rearrangement of the files given: none is lost or repeated. |
| Dispatch.GroupsByOwner | apps/betterhook/src/dispatch.rs:115-141 | A returned group is exactly the files whose owner is that group's package, or none for the root's, in their original order. |
| Dispatch.GroupsInOrder | apps/betterhook/src/dispatch.rs:132-142 | The root's group comes first and the others in the order of the packages; with packages, none is empty. |
| Dispatch.WebExample | apps/betterhook/src/dispatch.rs:115-130 | A package at `web` gets `web/a.ts`, and `website/a.ts` goes to the root. |
| Dispatch.MergeHooks | apps/betterhook/src/dispatch.rs:180-224 | Hook flags come from the package where it declares them and from the root otherwise. |
| Dispatch.MergedJobsExact | apps/betterhook/src/dispatch.rs:186-200 | The merged job list is in running order and has each job name once: the package's job where it has one, the root's otherwise. |

## Left out

- Glob compilation and matching: a parameter, with the probe test modelled exactly.
- Subprocesses, pipes, output sinks, colours and JSON lines; a job is a program over files with an outcome.
- Interleaving.ParallelIsSerial: for runs without fail-fast, because a job killed on cancellation may leave anything on disk; under fail-fast only the scheduler's accounting is modelled.
- Re-staging fixed files and the git index lock; snapshots and re-staging can only fail, in the sequential runner.
- Parsing of TOML, YAML, JSON and KDL; configurations are values. Builtin tables, durations and glob syntax are parameters of lowering.
- Nested overlays inside one entry are computed on values; only the configuration itself and the loop over its entries are in place.
- Sorting is an insertion function where the code calls the library's stable sort, and paths are ordered as text, not by component.
- Migration and the metadata, defaults and flags of lowered hooks other than job order.
- bincode framing, hello, ping and status requests, the fairness of semaphores, and the idle exit of the daemon, which re-arms only at a turn of the accept loop.
- Crashes of the daemon; the stack of other repositories; the working tree that a stash entry holds, of which only the entry is modelled.
- A stash left behind when a plan cannot be resolved is modelled as the code has it, by an early return without a pop.
- Stash.NoEntryLost: for runs in which every push that git accepts saves an entry, because a run that saved nothing may pop another run's entry if it finds its message in that line.
- A cached failure under fail-fast does not stop the loop from spawning, as in the code, and is modelled so.
- Diagnostics of builtins, which are not recorded with the events and so are not replayed.
- Job names, `root` and the hook name passed to commands, none of which is hashed: jobs that differ only there share entries, and replayed events carry the first one's name.
- Tool resolution and its memoisation; the tool hash is a function of the world and the run string.
- Corrupt cache entries, I/O errors of the store, and its size and age statistics.
- Template variables other than `{files}` when the command has further braces, and commands with several different variables; non-UTF-8 names, which are converted lossily before quoting.
- A report of the parallel scheduler where the sequential one ends in an error: after a failing command it runs no other, and so does not meet one that cannot be run; the two are compared where the sequential one reports.
- What a cache entry says under fail-fast runs, which CachedRun does not include, and events in CachedRun, which CacheLookup treats.
- Dispatch outcomes without work, install and uninstall, wrapper scripts, services, the watcher, speculation, importers and the command line.
