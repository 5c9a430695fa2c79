/** Which layer each setting of a flattened configuration comes from. */
module Layers {
  import opened Wrappers
  import opened Merge
  import opened ExtendsTheory

  /** The last value set, if any. */
  function LastSet<T>(values: seq<Option<T>>): Option<T> {
    if values == [] then None
    else if values[|values| - 1].Some? then values[|values| - 1]
    else LastSet(values[..|values| - 1])
  }

  /** A setting that merging takes from the overlay when the overlay has it, and from the base otherwise. */
  ghost predicate LayerWins<T(!new)>(get: RawConfig -> Option<T>) {
    && get(DEFAULT).None?
    && (forall a: RawConfig, b: RawConfig :: get(MergeConfig(a, b)) == Over(get(a), get(b)))
  }

  /** Such a setting comes from the last layer, of any number, that has it. */
  lemma {:induction false} LastLayerWins<T(!new)>(layers: seq<RawConfig>, get: RawConfig -> Option<T>)
    requires LayerWins(get)
    ensures get(Layered(DEFAULT, layers)) == LastSet(Values(layers, get))
  {
    hide MergeConfig, LayerWins;
    Layer(DEFAULT, DEFAULT, get);
    if layers != [] {
      var front, last := layers[..|layers| - 1], layers[|layers| - 1];
      LastLayerWins(front, get);
      assert Values(layers, get)[..|layers| - 1] == Values(front, get);
      Layer(Layered(DEFAULT, front), last, get);
    }
  }

  lemma Layer<T(!new)>(base: RawConfig, overlay: RawConfig, get: RawConfig -> Option<T>)
    requires LayerWins(get)
    ensures get(MergeConfig(base, overlay)) == Over(get(base), get(overlay)) && get(DEFAULT).None?
  {
    hide MergeConfig;
  }

  /** The setting in each layer. */
  function Values<T>(layers: seq<RawConfig>, get: RawConfig -> Option<T>): (r: seq<Option<T>>)
    ensures |r| == |layers| && forall i | 0 <= i < |layers| :: r[i] == get(layers[i])
  {
    seq(|layers|, i requires 0 <= i < |layers| => get(layers[i]))
  }

  // ---- Hooks and jobs, of the root and of packages ----------------------------------------------------------------------

  /** Where a hook stands: at the top level or in a package. */
  datatype Place = TopLevel | In(package: string)

  function HooksAt(c: RawConfig, place: Place): map<string, RawHook> {
    match place
    case TopLevel => c.hooks
    case In(package) => if package in c.packages then c.packages[package].hooks else map[]
  }

  function HookAt(c: RawConfig, place: Place, hook: string): Option<RawHook> {
    if hook in HooksAt(c, place) then Some(HooksAt(c, place)[hook]) else None
  }

  function JobAt(c: RawConfig, place: Place, hook: string, job: string): Option<RawJob> {
    if hook in HooksAt(c, place) && job in HooksAt(c, place)[hook].jobs then Some(HooksAt(c, place)[hook].jobs[job]) else None
  }

  lemma NothingByDefault(place: Place, hook: string, job: string)
    ensures HookAt(DEFAULT, place, hook).None? && JobAt(DEFAULT, place, hook, job).None?
  {
  }

  /** A package is overlaid hook by hook, and its path is replaced. */
  lemma MergedPackage(base: RawPackage, overlay: RawPackage, hook: string)
    ensures var merged := MergePackage(base, overlay);
            && merged.path == overlay.path
            && merged.hooks.Keys == base.hooks.Keys + overlay.hooks.Keys
            && (hook in base.hooks && hook in overlay.hooks ==>
                  merged.hooks[hook] == MergeHook(base.hooks[hook], overlay.hooks[hook]))
            && (hook in base.hooks && hook !in overlay.hooks ==> merged.hooks[hook] == base.hooks[hook])
            && (hook !in base.hooks && hook in overlay.hooks ==> merged.hooks[hook] == overlay.hooks[hook])
    ensures MergePackage(base, RawPackage(base.path, map[])) == base
    ensures MergePackage(RawPackage(overlay.path, map[]), overlay) == overlay
  {
  }

  /** No hook of either side is lost, wherever it stands. */
  lemma HookMerges(a: RawConfig, b: RawConfig, place: Place, hook: string)
    ensures var x, y := HookAt(a, place, hook), HookAt(b, place, hook);
            HookAt(MergeConfig(a, b), place, hook) ==
              if x.Some? && y.Some? then Some(MergeHook(x.value, y.value)) else if x.Some? then x else y
  {
  }

  /** No job of either side is lost. */
  lemma JobMerges(a: RawConfig, b: RawConfig, place: Place, hook: string, job: string)
    ensures var x, y := JobAt(a, place, hook, job), JobAt(b, place, hook, job);
            JobAt(MergeConfig(a, b), place, hook, job) ==
              if x.Some? && y.Some? then Some(MergeJob(x.value, y.value)) else if x.Some? then x else y
  {
    hide MergeConfig, HooksAt;
    HookMerges(a, b, place, hook);
  }

  // ---- The settings of a job ------------------------------------------------------------------------------------------------

  /** A field that merging two jobs takes from the overlay when the overlay sets it. */
  ghost predicate OverlayWins<T(!new)>(field: RawJob -> Option<T>) {
    forall x: RawJob, y: RawJob :: field(MergeJob(x, y)) == Over(field(x), field(y))
  }

  // The settings of a job: its optional fields, its lists where they are not empty, and its variables one by one.

  function RunOf(j: RawJob): Option<string> { j.run }

  function FixOf(j: RawJob): Option<string> { j.fix }

  function SkipOf(j: RawJob): Option<string> { j.skip }

  function OnlyOf(j: RawJob): Option<string> { j.only }

  function RootOf(j: RawJob): Option<string> { j.root }

  function StageFixedOf(j: RawJob): Option<bool> { j.stageFixed }

  function IsolateOf(j: RawJob): Option<RawIsolate> { j.isolate }

  function TimeoutOf(j: RawJob): Option<string> { j.timeout }

  function InteractiveOf(j: RawJob): Option<bool> { j.interactive }

  function FailTextOf(j: RawJob): Option<string> { j.failText }

  function NetworkOf(j: RawJob): Option<bool> { j.network }

  function ConcurrentSafeOf(j: RawJob): Option<bool> { j.concurrentSafe }

  function BuiltinOf(j: RawJob): Option<string> { j.builtin }

  function Given<T(==)>(list: seq<T>): Option<seq<T>> { if list == [] then None else Some(list) }

  function GlobOf(j: RawJob): Option<seq<string>> { Given(j.glob) }

  function ExcludeOf(j: RawJob): Option<seq<string>> { Given(j.exclude) }

  function TagsOf(j: RawJob): Option<seq<string>> { Given(j.tags) }

  function ReadsOf(j: RawJob): Option<seq<string>> { Given(j.readGlobs) }

  function WritesOf(j: RawJob): Option<seq<string>> { Given(j.writeGlobs) }

  function VariableOf(variable: string): RawJob -> Option<string> {
    (j: RawJob) => if variable in j.env then Some(j.env[variable]) else None
  }

  lemma OptionsOfMerged(x: RawJob, y: RawJob)
    ensures RunOf(MergeJob(x, y)) == Over(RunOf(x), RunOf(y))
    ensures FixOf(MergeJob(x, y)) == Over(FixOf(x), FixOf(y))
    ensures SkipOf(MergeJob(x, y)) == Over(SkipOf(x), SkipOf(y))
    ensures OnlyOf(MergeJob(x, y)) == Over(OnlyOf(x), OnlyOf(y))
    ensures RootOf(MergeJob(x, y)) == Over(RootOf(x), RootOf(y))
    ensures StageFixedOf(MergeJob(x, y)) == Over(StageFixedOf(x), StageFixedOf(y))
    ensures IsolateOf(MergeJob(x, y)) == Over(IsolateOf(x), IsolateOf(y))
    ensures TimeoutOf(MergeJob(x, y)) == Over(TimeoutOf(x), TimeoutOf(y))
    ensures InteractiveOf(MergeJob(x, y)) == Over(InteractiveOf(x), InteractiveOf(y))
    ensures FailTextOf(MergeJob(x, y)) == Over(FailTextOf(x), FailTextOf(y))
    ensures NetworkOf(MergeJob(x, y)) == Over(NetworkOf(x), NetworkOf(y))
    ensures ConcurrentSafeOf(MergeJob(x, y)) == Over(ConcurrentSafeOf(x), ConcurrentSafeOf(y))
    ensures BuiltinOf(MergeJob(x, y)) == Over(BuiltinOf(x), BuiltinOf(y))
  {
  }

  lemma ListsOfMerged(x: RawJob, y: RawJob, variable: string)
    ensures GlobOf(MergeJob(x, y)) == Over(GlobOf(x), GlobOf(y))
    ensures ExcludeOf(MergeJob(x, y)) == Over(ExcludeOf(x), ExcludeOf(y))
    ensures TagsOf(MergeJob(x, y)) == Over(TagsOf(x), TagsOf(y))
    ensures ReadsOf(MergeJob(x, y)) == Over(ReadsOf(x), ReadsOf(y))
    ensures WritesOf(MergeJob(x, y)) == Over(WritesOf(x), WritesOf(y))
    ensures VariableOf(variable)(MergeJob(x, y)) == Over(VariableOf(variable)(x), VariableOf(variable)(y))
  {
    assert MergeJob(x, y).env == x.env + y.env;
  }

  /** Every field of a job is such a setting: options, replaced lists, and single environment variables. */
  lemma FieldsOverlay(variable: string)
    ensures OverlayWins(RunOf) && OverlayWins(FixOf) && OverlayWins(SkipOf) && OverlayWins(OnlyOf)
    ensures OverlayWins(RootOf) && OverlayWins(StageFixedOf) && OverlayWins(IsolateOf) && OverlayWins(TimeoutOf)
    ensures OverlayWins(InteractiveOf) && OverlayWins(FailTextOf) && OverlayWins(NetworkOf) && OverlayWins(ConcurrentSafeOf)
    ensures OverlayWins(BuiltinOf)
    ensures OverlayWins(GlobOf) && OverlayWins(ExcludeOf) && OverlayWins(TagsOf) && OverlayWins(ReadsOf)
    ensures OverlayWins(WritesOf)
    ensures OverlayWins(VariableOf(variable))
  {
    hide MergeJob, Over, VariableOf, RunOf, FixOf, SkipOf, OnlyOf, RootOf, StageFixedOf, IsolateOf, TimeoutOf, InteractiveOf, FailTextOf, NetworkOf, ConcurrentSafeOf, BuiltinOf, GlobOf, ExcludeOf, TagsOf, ReadsOf, WritesOf;
    forall x: RawJob, y: RawJob {
      OptionsOfMerged(x, y);
    }
    forall x: RawJob, y: RawJob {
      ListsOfMerged(x, y, variable);
    }
  }

  /** A setting of one job, read from one configuration: None where the job or the setting is absent. */
  function JobSetting<T>(place: Place, hook: string, job: string, field: RawJob -> Option<T>): RawConfig -> Option<T> {
    (c: RawConfig) => if JobAt(c, place, hook, job).Some? then field(JobAt(c, place, hook, job).value) else None
  }

  lemma JobSettingsLayer<T(!new)>(place: Place, hook: string, job: string, field: RawJob -> Option<T>)
    requires OverlayWins(field)
    ensures LayerWins(JobSetting(place, hook, job, field))
  {
    hide MergeConfig, MergeJob;
    var get := JobSetting(place, hook, job, field);
    NothingByDefault(place, hook, job);
    forall a: RawConfig, b: RawConfig ensures get(MergeConfig(a, b)) == Over(get(a), get(b)) {
      JobMerges(a, b, place, hook, job);
    }
  }

  /** A job is there at all if any layer has it. */
  function JobPresent(place: Place, hook: string, job: string): RawConfig -> Option<()> {
    (c: RawConfig) => if JobAt(c, place, hook, job).Some? then Some(()) else None
  }

  lemma JobPresenceLayers(place: Place, hook: string, job: string)
    ensures LayerWins(JobPresent(place, hook, job))
  {
    hide MergeConfig, MergeJob;
    var get := JobPresent(place, hook, job);
    forall a: RawConfig, b: RawConfig ensures get(MergeConfig(a, b)) == Over(get(a), get(b)) {
      JobMerges(a, b, place, hook, job);
    }
  }

  // ---- The settings of a hook -----------------------------------------------------------------------------------------------

  ghost predicate HookOverlayWins<T(!new)>(field: RawHook -> Option<T>) {
    forall x: RawHook, y: RawHook :: field(MergeHook(x, y)) == Over(field(x), field(y))
  }

  function ParallelOf(h: RawHook): Option<bool> { h.parallel }

  function FailFastOf(h: RawHook): Option<bool> { h.failFast }

  function PriorityOf(h: RawHook): Option<seq<string>> { Given(h.priority) }

  function StashUntrackedOf(h: RawHook): Option<bool> { h.stashUntracked }

  function ParallelLimitOf(h: RawHook): Option<nat> { h.parallelLimit }

  /** Every field of a hook but its jobs is such a setting. */
  lemma HookFieldsOverlay()
    ensures HookOverlayWins(ParallelOf) && HookOverlayWins(FailFastOf) && HookOverlayWins(PriorityOf)
    ensures HookOverlayWins(StashUntrackedOf) && HookOverlayWins(ParallelLimitOf)
  {
    hide MergeHook;
    forall x: RawHook, y: RawHook
      ensures ParallelOf(MergeHook(x, y)) == Over(ParallelOf(x), ParallelOf(y))
      ensures FailFastOf(MergeHook(x, y)) == Over(FailFastOf(x), FailFastOf(y))
      ensures PriorityOf(MergeHook(x, y)) == Over(PriorityOf(x), PriorityOf(y))
      ensures StashUntrackedOf(MergeHook(x, y)) == Over(StashUntrackedOf(x), StashUntrackedOf(y))
      ensures ParallelLimitOf(MergeHook(x, y)) == Over(ParallelLimitOf(x), ParallelLimitOf(y))
    {
      FieldsOfMergedHook(x, y);
    }
  }

  lemma FieldsOfMergedHook(x: RawHook, y: RawHook)
    ensures ParallelOf(MergeHook(x, y)) == Over(ParallelOf(x), ParallelOf(y))
    ensures FailFastOf(MergeHook(x, y)) == Over(FailFastOf(x), FailFastOf(y))
    ensures PriorityOf(MergeHook(x, y)) == Over(PriorityOf(x), PriorityOf(y))
    ensures StashUntrackedOf(MergeHook(x, y)) == Over(StashUntrackedOf(x), StashUntrackedOf(y))
    ensures ParallelLimitOf(MergeHook(x, y)) == Over(ParallelLimitOf(x), ParallelLimitOf(y))
  {
  }

  function HookSetting<T>(place: Place, hook: string, field: RawHook -> Option<T>): RawConfig -> Option<T> {
    (c: RawConfig) => if HookAt(c, place, hook).Some? then field(HookAt(c, place, hook).value) else None
  }

  lemma HookSettingsLayer<T(!new)>(place: Place, hook: string, field: RawHook -> Option<T>)
    requires HookOverlayWins(field)
    ensures LayerWins(HookSetting(place, hook, field))
  {
    hide MergeConfig, MergeHook;
    var get := HookSetting(place, hook, field);
    NothingByDefault(place, hook, "");
    forall a: RawConfig, b: RawConfig ensures get(MergeConfig(a, b)) == Over(get(a), get(b)) {
      HookMerges(a, b, place, hook);
    }
  }

  // ---- Package paths and the meta table ---------------------------------------------------------------------------------------

  function PathOf(package: string): RawConfig -> Option<string> {
    (c: RawConfig) => if package in c.packages then Some(c.packages[package].path) else None
  }

  function VersionOf(c: RawConfig): Option<nat> { if c.meta.Some? then c.meta.value.version else None }

  function MinBetterhookOf(c: RawConfig): Option<string> { if c.meta.Some? then c.meta.value.minBetterhook else None }

  /** A package's path comes from the last layer that has the package, each meta field from the last that sets it. */
  lemma PathsAndMetaLayer(package: string)
    ensures LayerWins(PathOf(package)) && LayerWins(VersionOf) && LayerWins(MinBetterhookOf)
  {
    var path := PathOf(package);
    forall a: RawConfig, b: RawConfig
      ensures path(MergeConfig(a, b)) == Over(path(a), path(b))
    {
    }
    forall a: RawConfig, b: RawConfig
      ensures VersionOf(MergeConfig(a, b)) == Over(VersionOf(a), VersionOf(b))
    {
    }
    forall a: RawConfig, b: RawConfig
      ensures MinBetterhookOf(MergeConfig(a, b)) == Over(MinBetterhookOf(a), MinBetterhookOf(b))
    {
    }
  }
}
