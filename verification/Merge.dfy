/** Overlaying one configuration on another, and the algebra the `extends` resolver relies on. */
module Merge {
  import opened Wrappers

  datatype RawIsolate =
    | Name(tool: string)
    | Table(name: Option<string>, tableTool: Option<string>, slots: Option<nat>, targetDir: Option<string>)

  datatype RawJob = RawJob(
    run: Option<string>, fix: Option<string>,
    glob: seq<string>, exclude: seq<string>, tags: seq<string>,
    skip: Option<string>, only: Option<string>,
    env: map<string, string>,
    root: Option<string>, stageFixed: Option<bool>, isolate: Option<RawIsolate>,
    timeout: Option<string>, interactive: Option<bool>, failText: Option<string>,
    readGlobs: seq<string>, writeGlobs: seq<string>,
    network: Option<bool>, concurrentSafe: Option<bool>, builtin: Option<string>)

  datatype RawHook = RawHook(
    parallel: Option<bool>, failFast: Option<bool>, priority: seq<string>,
    stashUntracked: Option<bool>, parallelLimit: Option<nat>, jobs: map<string, RawJob>)

  datatype RawPackage = RawPackage(path: string, hooks: map<string, RawHook>)

  datatype RawMeta = RawMeta(version: Option<nat>, minBetterhook: Option<string>)

  datatype RawConfig = RawConfig(
    meta: Option<RawMeta>, extends_: seq<string>,
    hooks: map<string, RawHook>, packages: map<string, RawPackage>)

  const DEFAULT := RawConfig(None, [], map[], map[])

  // ---- The merge, as a function of base and overlay ---------------------------------------------------

  function Over<T>(base: Option<T>, overlay: Option<T>): Option<T> {
    if overlay.Some? then overlay else base
  }

  function OverList<T(==)>(base: seq<T>, overlay: seq<T>): seq<T> {
    if overlay != [] then overlay else base
  }

  /** Keys of either side; values merge where both have the key. */
  function MergeMaps<V>(f: (V, V) -> V, base: map<string, V>, overlay: map<string, V>): map<string, V> {
    map k | k in base.Keys + overlay.Keys ::
      if k in base && k in overlay then f(base[k], overlay[k])
      else if k in overlay then overlay[k]
      else base[k]
  }

  function MergeJob(base: RawJob, overlay: RawJob): RawJob {
    RawJob(
      Over(base.run, overlay.run), Over(base.fix, overlay.fix),
      OverList(base.glob, overlay.glob), OverList(base.exclude, overlay.exclude), OverList(base.tags, overlay.tags),
      Over(base.skip, overlay.skip), Over(base.only, overlay.only),
      base.env + overlay.env,
      Over(base.root, overlay.root), Over(base.stageFixed, overlay.stageFixed), Over(base.isolate, overlay.isolate),
      Over(base.timeout, overlay.timeout), Over(base.interactive, overlay.interactive), Over(base.failText, overlay.failText),
      OverList(base.readGlobs, overlay.readGlobs), OverList(base.writeGlobs, overlay.writeGlobs),
      Over(base.network, overlay.network), Over(base.concurrentSafe, overlay.concurrentSafe), Over(base.builtin, overlay.builtin))
  }

  function MergeHook(base: RawHook, overlay: RawHook): RawHook {
    RawHook(
      Over(base.parallel, overlay.parallel), Over(base.failFast, overlay.failFast),
      OverList(base.priority, overlay.priority), Over(base.stashUntracked, overlay.stashUntracked),
      Over(base.parallelLimit, overlay.parallelLimit), MergeMaps(MergeJob, base.jobs, overlay.jobs))
  }

  function MergePackage(base: RawPackage, overlay: RawPackage): RawPackage {
    RawPackage(overlay.path, MergeMaps(MergeHook, base.hooks, overlay.hooks))
  }

  function MergeMeta(base: RawMeta, overlay: RawMeta): RawMeta {
    RawMeta(Over(base.version, overlay.version), Over(base.minBetterhook, overlay.minBetterhook))
  }

  /** `merge_overlay`. The overlay's own `extends` list is ignored. */
  function MergeConfig(base: RawConfig, overlay: RawConfig): RawConfig {
    RawConfig(
      if base.meta.Some? && overlay.meta.Some? then Some(MergeMeta(base.meta.value, overlay.meta.value))
      else Over(base.meta, overlay.meta),
      base.extends_,
      MergeMaps(MergeHook, base.hooks, overlay.hooks),
      MergeMaps(MergePackage, base.packages, overlay.packages))
  }

  // ---- In place -----------------------------------------------------------------------------------------

  /** `for (k, v) in overlay { base.entry(k).and_modify(merge).or_insert(v) }`. */
  method OverlayEntries<V>(f: (V, V) -> V, base: map<string, V>, overlay: map<string, V>) returns (m: map<string, V>)
    ensures m == MergeMaps(f, base, overlay)
  {
    m := base;
    var keys := overlay.Keys;
    while keys != {}
      invariant keys <= overlay.Keys
      invariant m.Keys == base.Keys + (overlay.Keys - keys)
      invariant forall k | k in m :: m[k] == if k in keys then base[k] else MergeMaps(f, base, overlay)[k]
      decreases |keys|
    {
      var k :| k in keys;
      if k in m {
        m := m[k := f(m[k], overlay[k])];
      } else {
        m := m[k := overlay[k]];
      }
      keys := keys - {k};
    }
  }

  /** A configuration being assembled by the resolver. */
  class MergedConfig {
    var meta: Option<RawMeta>
    var extends_: seq<string>
    var hooks: map<string, RawHook>
    var packages: map<string, RawPackage>

    function Value(): RawConfig
      reads this
    {
      RawConfig(meta, extends_, hooks, packages)
    }

    constructor ()
      ensures Value() == DEFAULT
    {
      meta, extends_, hooks, packages := None, [], map[], map[];
    }

    method MergeOverlay(overlay: RawConfig)
      modifies this
      ensures Value() == MergeConfig(old(Value()), overlay)
    {
      if overlay.meta.Some? {
        if meta.Some? {
          meta := Some(MergeMeta(meta.value, overlay.meta.value));
        } else {
          meta := overlay.meta;
        }
      }
      hooks := OverlayEntries(MergeHook, hooks, overlay.hooks);
      packages := OverlayEntries(MergePackage, packages, overlay.packages);
    }
  }

  // ---- The algebra -----------------------------------------------------------------------------------------

  /** Associative, idempotent, and an earlier copy of something repeated later does not matter. */
  ghost predicate RightRegularBand<V(!new)>(f: (V, V) -> V) {
    && (forall x, y, z :: f(f(x, y), z) == f(x, f(y, z)))
    && (forall x :: f(x, x) == x)
    && (forall x, y :: f(f(x, y), x) == f(y, x))
  }

  /** Key-wise merging keeps the laws of the merge of the values. */
  lemma MapsAssociative<V(!new)>(f: (V, V) -> V, a: map<string, V>, b: map<string, V>, c: map<string, V>)
    requires RightRegularBand(f)
    ensures MergeMaps(f, MergeMaps(f, a, b), c) == MergeMaps(f, a, MergeMaps(f, b, c))
  {
    var l, r := MergeMaps(f, MergeMaps(f, a, b), c), MergeMaps(f, a, MergeMaps(f, b, c));
    forall k | k in l ensures k in r && l[k] == r[k] {
      if k in a && k in b && k in c {
        assert f(f(a[k], b[k]), c[k]) == f(a[k], f(b[k], c[k]));
      }
    }
  }

  lemma MapsAbsorb<V(!new)>(f: (V, V) -> V, a: map<string, V>, b: map<string, V>)
    requires RightRegularBand(f)
    ensures MergeMaps(f, a, a) == a
    ensures MergeMaps(f, MergeMaps(f, a, b), a) == MergeMaps(f, b, a)
    ensures MergeMaps(f, map[], a) == a && MergeMaps(f, a, map[]) == a
  {
    var l, r := MergeMaps(f, MergeMaps(f, a, b), a), MergeMaps(f, b, a);
    forall k | k in l ensures k in r && l[k] == r[k] {
      if k in a && k in b {
        assert f(f(a[k], b[k]), a[k]) == f(b[k], a[k]);
      } else if k in a {
        assert f(a[k], a[k]) == a[k];
      }
    }
    forall k | k in a ensures MergeMaps(f, a, a)[k] == a[k] {
      assert f(a[k], a[k]) == a[k];
    }
  }

  lemma JobLaws()
    ensures RightRegularBand(MergeJob)
  {
    forall x: RawJob, y: RawJob, z: RawJob ensures MergeJob(MergeJob(x, y), z) == MergeJob(x, MergeJob(y, z)) {
      assert (x.env + y.env) + z.env == x.env + (y.env + z.env);
    }
    forall x: RawJob, y: RawJob ensures MergeJob(MergeJob(x, y), x) == MergeJob(y, x) {
      assert (x.env + y.env) + x.env == y.env + x.env;
    }
    forall x: RawJob ensures MergeJob(x, x) == x {
      assert x.env + x.env == x.env;
    }
  }

  lemma HookLaws()
    ensures RightRegularBand(MergeHook)
  {
    JobLaws();
    forall x: RawHook, y: RawHook, z: RawHook ensures MergeHook(MergeHook(x, y), z) == MergeHook(x, MergeHook(y, z)) {
      MapsAssociative(MergeJob, x.jobs, y.jobs, z.jobs);
    }
    forall x: RawHook, y: RawHook ensures MergeHook(MergeHook(x, y), x) == MergeHook(y, x) {
      MapsAbsorb(MergeJob, x.jobs, y.jobs);
    }
    forall x: RawHook ensures MergeHook(x, x) == x {
      MapsAbsorb(MergeJob, x.jobs, x.jobs);
    }
  }

  lemma PackageLaws()
    ensures RightRegularBand(MergePackage)
  {
    HookLaws();
    forall x: RawPackage, y: RawPackage, z: RawPackage
      ensures MergePackage(MergePackage(x, y), z) == MergePackage(x, MergePackage(y, z))
    {
      MapsAssociative(MergeHook, x.hooks, y.hooks, z.hooks);
    }
    forall x: RawPackage, y: RawPackage ensures MergePackage(MergePackage(x, y), x) == MergePackage(y, x) {
      MapsAbsorb(MergeHook, x.hooks, y.hooks);
    }
    forall x: RawPackage ensures MergePackage(x, x) == x {
      MapsAbsorb(MergeHook, x.hooks, x.hooks);
    }
  }

  const BLANK_JOB := RawJob(None, None, [], [], [], None, None, map[], None, None, None, None, None, None, [], [], None, None, None)

  const BLANK_HOOK := RawHook(None, None, [], None, None, map[])

  /** A job or hook that sets nothing changes nothing, on either side. */
  lemma BlankIdentity(job: RawJob, hook: RawHook)
    ensures MergeJob(BLANK_JOB, job) == job && MergeJob(job, BLANK_JOB) == job
    ensures MergeHook(BLANK_HOOK, hook) == hook && MergeHook(hook, BLANK_HOOK) == hook
  {
    JobLaws();
    assert map[] + job.env == job.env && job.env + map[] == job.env;
    MapsAbsorb(MergeJob, hook.jobs, hook.jobs);
  }

  /** Layering three configurations does not depend on which two are merged first. */
  lemma MergeAssociative(a: RawConfig, b: RawConfig, c: RawConfig)
    ensures MergeConfig(MergeConfig(a, b), c) == MergeConfig(a, MergeConfig(b, c))
  {
    HookLaws();
    PackageLaws();
    MapsAssociative(MergeHook, a.hooks, b.hooks, c.hooks);
    MapsAssociative(MergePackage, a.packages, b.packages, c.packages);
  }

  /** The default configuration changes nothing, on either side, up to the `extends` list. */
  lemma MergeIdentity(a: RawConfig)
    ensures MergeConfig(a, DEFAULT) == a
    ensures MergeConfig(DEFAULT, a) == a.(extends_ := [])
  {
    HookLaws();
    PackageLaws();
    MapsAbsorb(MergeHook, a.hooks, a.hooks);
    MapsAbsorb(MergePackage, a.packages, a.packages);
  }

  /** Overlaying twice is overlaying once, and what is overlaid again last need not be there first. */
  lemma MergeAbsorbs(a: RawConfig, b: RawConfig)
    ensures MergeConfig(a, a) == a
    ensures MergeConfig(MergeConfig(a, b), a) == MergeConfig(b, a).(extends_ := a.extends_)
  {
    HookLaws();
    PackageLaws();
    MapsAbsorb(MergeHook, a.hooks, b.hooks);
    MapsAbsorb(MergePackage, a.packages, b.packages);
  }
}
