/** Flattening `extends` chains and applying the sibling local override. */
module Extends {
  import opened Wrappers
  import opened Merge

  type Path = string

  /**
   * The file system as the resolver sees it. `canonical` already falls back to the path itself, `locate(p, e)` is
   * `e` made absolute against the directory of `p`, and `files` is a finite set of canonical names covering every
   * path that parses.
   */
  datatype Fs = Fs(
    files: set<Path>,
    canonical: Path -> Path,
    parsed: Path -> Option<RawConfig>,
    locate: (Path, string) -> Path,
    sibling: (Path, string) -> Path,
    isFile: Path -> bool)
  {
    ghost predicate Valid() {
      forall p: Path :: parsed(p).Some? ==> canonical(p) in files
    }
  }

  datatype ConfigError =
    | Circular(path: Path, canonical: Path)
    | Unreadable(path: Path)
    | ManyLocals(first: Path, second: Path)

  /** A file's content without its `extends` list. */
  function Own(c: RawConfig): RawConfig {
    c.(extends_ := [])
  }

  // ---- What the resolver computes --------------------------------------------------------------------------

  /** Resolution of one file, `seen` being the files on the path that led to it. */
  function Resolved(fs: Fs, path: Path, seen: set<Path>): Result<RawConfig, ConfigError>
    requires fs.Valid()
    decreases fs.files - seen, 0
  {
    var c := fs.canonical(path);
    if c in seen then Failure(Circular(path, c))
    else if fs.parsed(path).None? then Failure(Unreadable(path))
    else
      var main := fs.parsed(path).value;
      assert c in fs.files - seen && c !in fs.files - (seen + {c});
      var below := ResolvedAll(fs, path, main.extends_, seen + {c});
      if below.Failure? then below else Success(MergeConfig(below.value, Own(main)))
  }

  /** The bases a file names, resolved and merged in order. */
  function ResolvedAll(fs: Fs, path: Path, bases: seq<string>, seen: set<Path>): Result<RawConfig, ConfigError>
    requires fs.Valid()
    decreases fs.files - seen, |bases|
  {
    if bases == [] then Success(DEFAULT)
    else
      var last := |bases| - 1;
      var front := ResolvedAll(fs, path, bases[..last], seen);
      if front.Failure? then front
      else
        var base := Resolved(fs, fs.locate(path, bases[last]), seen);
        if base.Failure? then base else Success(MergeConfig(front.value, base.value))
  }

  const LOCAL_CANDIDATE_EXTENSIONS := ["toml", "yml", "yaml", "json", "kdl"]

  /** The local override files present next to `path`, in candidate order. */
  function Locals(fs: Fs, path: Path, extensions: seq<string>): seq<Path> {
    if extensions == [] then []
    else
      var front := Locals(fs, path, extensions[..|extensions| - 1]);
      var candidate := fs.sibling(path, extensions[|extensions| - 1]);
      if fs.isFile(candidate) then front + [candidate] else front
  }

  function WithLocal(fs: Fs, path: Path, merged: RawConfig): Result<RawConfig, ConfigError> {
    var locals := Locals(fs, path, LOCAL_CANDIDATE_EXTENSIONS);
    if |locals| > 1 then Failure(ManyLocals(locals[0], locals[1]))
    else if locals == [] then Success(merged)
    else if fs.parsed(locals[0]).None? then Failure(Unreadable(locals[0]))
    else Success(MergeConfig(merged, fs.parsed(locals[0]).value))
  }

  function Outcome(fs: Fs, path: Path, seen: set<Path>, applyLocal: bool): Result<RawConfig, ConfigError>
    requires fs.Valid()
  {
    var merged := Resolved(fs, path, seen);
    if merged.Success? && applyLocal then WithLocal(fs, path, merged.value) else merged
  }

  // ---- The resolver as it runs -------------------------------------------------------------------------------

  method FindLocalOverride(fs: Fs, path: Path) returns (r: Result<Option<Path>, ConfigError>)
    ensures var locals := Locals(fs, path, LOCAL_CANDIDATE_EXTENSIONS);
            r == if locals == [] then Success(None)
                 else if |locals| == 1 then Success(Some(locals[0]))
                 else Failure(ManyLocals(locals[0], locals[1]))
  {
    var found: Option<Path> := None;
    var all := LOCAL_CANDIDATE_EXTENSIONS;
    for i := 0 to |all|
      invariant Locals(fs, path, all[..i]) == if found.Some? then [found.value] else []
    {
      var candidate := fs.sibling(path, all[i]);
      assert all[..i + 1][..i] == all[..i];
      if fs.isFile(candidate) {
        if found.Some? {
          LocalsGrow(fs, path, all, i + 1);
          return Failure(ManyLocals(found.value, candidate));
        }
        found := Some(candidate);
      }
    }
    assert all[..|all|] == all;
    return Success(found);
  }

  lemma {:induction false} LocalsGrow(fs: Fs, path: Path, all: seq<string>, i: nat)
    requires i <= |all|
    ensures Locals(fs, path, all[..i]) <= Locals(fs, path, all)
    decreases |all|
  {
    if i == |all| {
      assert all[..i] == all;
    } else {
      var front := all[..|all| - 1];
      assert front[..i] == all[..i];
      LocalsGrow(fs, path, front, i);
    }
  }

  /** One resolution; `seen` holds the canonical names of the files being resolved. */
  class Resolver {
    const fs: Fs
    var seen: set<Path>

    constructor (fs: Fs)
      ensures this.fs == fs && seen == {}
    {
      this.fs, seen := fs, {};
    }

    method ResolveImpl(path: Path, applyLocal: bool) returns (r: Result<RawConfig, ConfigError>)
      requires fs.Valid()
      modifies this
      ensures r == Outcome(fs, path, old(seen), applyLocal)
      ensures r.Success? ==> seen == old(seen)
      decreases fs.files - seen
    {
      hide MergeConfig;
      var canonical := fs.canonical(path);
      if canonical in seen {
        return Failure(Circular(path, canonical));
      }
      seen := seen + {canonical};
      if fs.parsed(path).None? {
        return Failure(Unreadable(path));
      }
      var main := fs.parsed(path).value;
      assert canonical in fs.files - old(seen) && canonical !in fs.files - seen;
      var merged := new MergedConfig();
      for i := 0 to |main.extends_|
        invariant seen == old(seen) + {canonical} && fresh(merged)
        invariant ResolvedAll(fs, path, main.extends_[..i], seen) == Success(merged.Value())
      {
        assert main.extends_[..i + 1][..i] == main.extends_[..i];
        var resolved := ResolveImpl(fs.locate(path, main.extends_[i]), false);
        if resolved.Failure? {
          AllFails(fs, path, main.extends_, i + 1, old(seen) + {canonical});
          return resolved;
        }
        merged.MergeOverlay(resolved.value);
      }
      assert main.extends_[..|main.extends_|] == main.extends_;
      merged.MergeOverlay(Own(main));
      if applyLocal {
        var localPath := FindLocalOverride(fs, path);
        if localPath.Failure? {
          return Failure(localPath.error);
        }
        if localPath.value.Some? {
          var local := fs.parsed(localPath.value.value);
          if local.None? {
            return Failure(Unreadable(localPath.value.value));
          }
          merged.MergeOverlay(local.value);
        }
      }
      seen := seen - {canonical};
      return Success(merged.Value());
    }
  }

  /** A failing prefix of the bases decides the whole list. */
  lemma {:induction false} AllFails(fs: Fs, path: Path, bases: seq<string>, i: nat, seen: set<Path>)
    requires fs.Valid() && i <= |bases| && ResolvedAll(fs, path, bases[..i], seen).Failure?
    ensures ResolvedAll(fs, path, bases, seen) == ResolvedAll(fs, path, bases[..i], seen)
    decreases |bases|
  {
    if i == |bases| {
      assert bases[..i] == bases;
    } else {
      var front := bases[..|bases| - 1];
      assert front[..i] == bases[..i];
      AllFails(fs, path, front, i, seen);
    }
  }

  method Resolve(fs: Fs, path: Path) returns (r: Result<RawConfig, ConfigError>)
    requires fs.Valid()
    ensures r == Outcome(fs, path, {}, true)
  {
    var resolver := new Resolver(fs);
    r := resolver.ResolveImpl(path, true);
  }
}
