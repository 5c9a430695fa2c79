/** When `extends` resolution succeeds, and what the flattened configuration then is. */
module ExtendsTheory {
  import opened Wrappers
  import opened Merge
  import opened Extends

  // ---- Success and cycles --------------------------------------------------------------------------------------

  predicate ExtendsDirectly(fs: Fs, from: Path, to: Path) {
    fs.parsed(from).Some? && exists e | e in fs.parsed(from).value.extends_ :: to == fs.locate(from, e)
  }

  ghost predicate IsChain(fs: Fs, chain: seq<Path>) {
    |chain| > 0 && forall k | 0 <= k < |chain| - 1 :: ExtendsDirectly(fs, chain[k], chain[k + 1])
  }

  /** Some file of the chain but the last has canonical name `c`. */
  predicate MetBefore(fs: Fs, chain: seq<Path>, c: Path) {
    exists k :: 0 <= k < |chain| - 1 && fs.canonical(chain[k]) == c
  }

  /** The last file of the chain is in `seen`, or an earlier file of the chain. */
  predicate Revisits(fs: Fs, chain: seq<Path>, seen: set<Path>)
    requires |chain| > 0
  {
    var c := fs.canonical(chain[|chain| - 1]);
    c in seen || MetBefore(fs, chain, c)
  }

  /** The last file of the chain can be read and has not been met before. */
  predicate EndsWell(fs: Fs, chain: seq<Path>, seen: set<Path>)
    requires |chain| > 0
  {
    fs.parsed(chain[|chain| - 1]).Some? && !Revisits(fs, chain, seen)
  }

  ghost predicate AllChainsEndWell(fs: Fs, path: Path, seen: set<Path>) {
    forall chain: seq<Path> :: IsChain(fs, chain) && chain[0] == path ==> EndsWell(fs, chain, seen)
  }

  lemma {:induction false} BaseSucceeds(fs: Fs, path: Path, bases: seq<string>, seen: set<Path>, e: string)
    requires fs.Valid() && ResolvedAll(fs, path, bases, seen).Success? && e in bases
    ensures Resolved(fs, fs.locate(path, e), seen).Success?
    decreases |bases|
  {
    var last := |bases| - 1;
    if e != bases[last] {
      assert bases == bases[..last] + [bases[last]];
      BaseSucceeds(fs, path, bases[..last], seen, e);
    }
  }

  lemma {:induction false} FailingBase(fs: Fs, path: Path, bases: seq<string>, seen: set<Path>) returns (e: string)
    requires fs.Valid() && ResolvedAll(fs, path, bases, seen).Failure?
    ensures e in bases
    ensures Resolved(fs, fs.locate(path, e), seen) == ResolvedAll(fs, path, bases, seen)
    decreases |bases|
  {
    var last := |bases| - 1;
    if ResolvedAll(fs, path, bases[..last], seen).Failure? {
      e := FailingBase(fs, path, bases[..last], seen);
      assert bases == bases[..last] + [bases[last]];
    } else {
      e := bases[last];
    }
  }

  lemma LongerMetBefore(fs: Fs, path: Path, rest: seq<Path>, c: Path)
    requires |rest| > 0
    ensures MetBefore(fs, [path] + rest, c) <==> fs.canonical(path) == c || MetBefore(fs, rest, c)
  {
    var chain := [path] + rest;
    assert forall k | 0 <= k < |rest| :: chain[k + 1] == rest[k];
    if fs.canonical(path) == c {
      assert fs.canonical(chain[0]) == c;
    }
    if k :| 0 <= k < |rest| - 1 && fs.canonical(rest[k]) == c {
      assert fs.canonical(chain[k + 1]) == c;
    }
  }

  lemma LongerChain(fs: Fs, path: Path, rest: seq<Path>, seen: set<Path>)
    requires IsChain(fs, rest) && ExtendsDirectly(fs, path, rest[0])
    ensures IsChain(fs, [path] + rest)
    ensures Revisits(fs, [path] + rest, seen) <==> Revisits(fs, rest, seen + {fs.canonical(path)})
  {
    hide ExtendsDirectly, MetBefore;
    var chain := [path] + rest;
    assert forall k | 0 <= k < |rest| :: chain[k + 1] == rest[k];
    forall k | 0 <= k < |chain| - 1 ensures ExtendsDirectly(fs, chain[k], chain[k + 1]) {
      if k > 0 {
        assert ExtendsDirectly(fs, rest[k - 1], rest[k - 1 + 1]);
      }
    }
    LongerMetBefore(fs, path, rest, fs.canonical(rest[|rest| - 1]));
  }

  lemma {:induction false} SuccessMeansNoCycle(fs: Fs, path: Path, seen: set<Path>, chain: seq<Path>)
    requires fs.Valid() && Resolved(fs, path, seen).Success?
    requires IsChain(fs, chain) && chain[0] == path
    ensures EndsWell(fs, chain, seen)
    decreases |chain|
  {
    if |chain| > 1 {
      assert ExtendsDirectly(fs, chain[0], chain[0 + 1]);
      var main := fs.parsed(path).value;
      var e :| e in main.extends_ && chain[1] == fs.locate(path, e);
      var within := seen + {fs.canonical(path)};
      BaseSucceeds(fs, path, main.extends_, within, e);
      var rest := chain[1..];
      forall k | 0 <= k < |rest| - 1 ensures ExtendsDirectly(fs, rest[k], rest[k + 1]) {
        assert ExtendsDirectly(fs, chain[k + 1], chain[k + 1 + 1]);
      }
      SuccessMeansNoCycle(fs, chain[1], within, rest);
      assert chain == [path] + rest;
      LongerChain(fs, path, rest, seen);
    }
  }

  /** What resolution reports for a chain that does not end well. */
  ghost function ChainError(fs: Fs, chain: seq<Path>, seen: set<Path>): ConfigError
    requires |chain| > 0
  {
    var last := chain[|chain| - 1];
    if Revisits(fs, chain, seen) then Circular(last, fs.canonical(last)) else Unreadable(last)
  }

  /** A failed resolution names the last file of a chain that revisits a file or cannot be read. */
  lemma {:induction false} FailureWitness(fs: Fs, path: Path, seen: set<Path>) returns (chain: seq<Path>)
    requires fs.Valid() && Resolved(fs, path, seen).Failure?
    ensures IsChain(fs, chain) && chain[0] == path && !EndsWell(fs, chain, seen)
    ensures Resolved(fs, path, seen).error == ChainError(fs, chain, seen)
    decreases fs.files - seen
  {
    hide MergeConfig;
    var c := fs.canonical(path);
    if c in seen || fs.parsed(path).None? {
      chain := [path];
    } else {
      hide EndsWell, Revisits;
      var main := fs.parsed(path).value;
      assert c in fs.files - seen && c !in fs.files - (seen + {c});
      var e := FailingBase(fs, path, main.extends_, seen + {c});
      var rest := FailureWitness(fs, fs.locate(path, e), seen + {c});
      assert ExtendsDirectly(fs, path, rest[0]);
      LongerChain(fs, path, rest, seen);
      chain := [path] + rest;
    }
  }

  /**
   * Resolution succeeds exactly when every chain of `extends` from the root leads to a readable file that the chain
   * has not met before: a file reached twice along different chains (a diamond) is accepted, a cycle never is.
   */
  lemma ResolvesIffNoCycle(fs: Fs, path: Path)
    requires fs.Valid()
    ensures Resolved(fs, path, {}).Success? <==> AllChainsEndWell(fs, path, {})
  {
    if Resolved(fs, path, {}).Success? {
      forall chain: seq<Path> | IsChain(fs, chain) && chain[0] == path ensures EndsWell(fs, chain, {}) {
        SuccessMeansNoCycle(fs, path, {}, chain);
      }
    } else {
      var chain := FailureWitness(fs, path, {});
    }
  }

  // ---- The flattened configuration --------------------------------------------------------------------------------

  /** Layers applied left to right on top of `base`. */
  function Layered(base: RawConfig, layers: seq<RawConfig>): RawConfig {
    if layers == [] then base else MergeConfig(Layered(base, layers[..|layers| - 1]), layers[|layers| - 1])
  }

  /** The same layers, bracketed from the right. */
  function Stacked(layers: seq<RawConfig>): RawConfig {
    if layers == [] then DEFAULT else MergeConfig(layers[0], Stacked(layers[1..]))
  }

  ghost predicate Plain(layers: seq<RawConfig>) {
    forall i | 0 <= i < |layers| :: layers[i].extends_ == []
  }

  lemma {:induction false} StackedConcat(a: seq<RawConfig>, b: seq<RawConfig>)
    requires Plain(a) && Plain(b)
    ensures Stacked(a + b) == MergeConfig(Stacked(a), Stacked(b))
    ensures Stacked(a).extends_ == []
  {
    if a == [] {
      assert a + b == b;
      StackedPlain(b);
      MergeIdentity(Stacked(b));
    } else {
      assert (a + b)[1..] == a[1..] + b;
      StackedConcat(a[1..], b);
      MergeAssociative(a[0], Stacked(a[1..]), Stacked(b));
    }
  }

  lemma StackedPlain(layers: seq<RawConfig>)
    requires Plain(layers)
    ensures Stacked(layers).extends_ == []
  {
  }

  lemma {:induction false} LayeredIsStacked(layers: seq<RawConfig>)
    requires Plain(layers)
    ensures Layered(DEFAULT, layers) == Stacked(layers)
  {
    if layers != [] {
      var front, last := layers[..|layers| - 1], layers[|layers| - 1];
      LayeredIsStacked(front);
      assert front + [last] == layers;
      StackedConcat(front, [last]);
      MergeIdentity(last);
    }
  }

  /** A layer that is repeated later adds nothing where it stands first. */
  lemma {:induction false} StackedAbsorbs(x: RawConfig, layers: seq<RawConfig>)
    requires x.extends_ == [] && Plain(layers) && x in layers
    ensures MergeConfig(x, Stacked(layers)) == Stacked(layers)
  {
    var y, rest := layers[0], Stacked(layers[1..]);
    if x == y {
      MergeAssociative(x, x, rest);
      MergeAbsorbs(x, x);
    } else {
      StackedAbsorbs(x, layers[1..]);
      MergeAssociative(y, x, rest);
      MergeAssociative(x, y, MergeConfig(x, rest));
      MergeAssociative(x, y, x);
      MergeAbsorbs(x, y);
      MergeAssociative(MergeConfig(x, y), x, rest);
    }
  }

  /** The files that make up a resolved configuration, depth first, each after the files it extends. */
  function Files(fs: Fs, path: Path, seen: set<Path>): seq<Path>
    requires fs.Valid()
    decreases fs.files - seen, 0
  {
    var c := fs.canonical(path);
    if c in seen || fs.parsed(path).None? then []
    else
      assert c in fs.files - seen && c !in fs.files - (seen + {c});
      FilesOfAll(fs, path, fs.parsed(path).value.extends_, seen + {c}) + [path]
  }

  function FilesOfAll(fs: Fs, path: Path, bases: seq<string>, seen: set<Path>): seq<Path>
    requires fs.Valid()
    decreases fs.files - seen, |bases|
  {
    if bases == [] then []
    else
      FilesOfAll(fs, path, bases[..|bases| - 1], seen) + Files(fs, fs.locate(path, bases[|bases| - 1]), seen)
  }

  function Content(fs: Fs, path: Path): (r: RawConfig)
    ensures r.extends_ == []
  {
    if fs.parsed(path).Some? then Own(fs.parsed(path).value) else DEFAULT
  }

  function Contents(fs: Fs, paths: seq<Path>): (r: seq<RawConfig>)
    ensures |r| == |paths| && forall i | 0 <= i < |r| :: r[i] == Content(fs, paths[i])
  {
    seq(|paths|, i requires 0 <= i < |paths| => Content(fs, paths[i]))
  }

  lemma ContentsConcat(fs: Fs, a: seq<Path>, b: seq<Path>)
    ensures Contents(fs, a + b) == Contents(fs, a) + Contents(fs, b)
  {
  }

  lemma {:induction false} ResolvedIsStacked(fs: Fs, path: Path, seen: set<Path>)
    requires fs.Valid() && Resolved(fs, path, seen).Success?
    ensures Resolved(fs, path, seen).value == Stacked(Contents(fs, Files(fs, path, seen)))
    decreases fs.files - seen, 0
  {
    hide MergeConfig;
    var c, main := fs.canonical(path), fs.parsed(path).value;
    assert c in fs.files - seen && c !in fs.files - (seen + {c});
    ResolvedAllIsStacked(fs, path, main.extends_, seen + {c});
    var below := FilesOfAll(fs, path, main.extends_, seen + {c});
    ContentsConcat(fs, below, [path]);
    StackedConcat(Contents(fs, below), Contents(fs, [path]));
    MergeIdentity(Own(main));
    assert Contents(fs, [path])[1..] == [];
  }

  lemma {:induction false} ResolvedAllIsStacked(fs: Fs, path: Path, bases: seq<string>, seen: set<Path>)
    requires fs.Valid() && ResolvedAll(fs, path, bases, seen).Success?
    ensures ResolvedAll(fs, path, bases, seen).value == Stacked(Contents(fs, FilesOfAll(fs, path, bases, seen)))
    decreases fs.files - seen, |bases|
  {
    hide MergeConfig;
    if bases != [] {
      var last := |bases| - 1;
      var base := fs.locate(path, bases[last]);
      ResolvedAllIsStacked(fs, path, bases[..last], seen);
      ResolvedIsStacked(fs, base, seen);
      var front, files := FilesOfAll(fs, path, bases[..last], seen), Files(fs, base, seen);
      ContentsConcat(fs, front, files);
      StackedConcat(Contents(fs, front), Contents(fs, files));
    }
  }

  predicate Mentions(fs: Fs, paths: seq<Path>, p: Path) {
    exists i | 0 <= i < |paths| :: fs.canonical(paths[i]) == fs.canonical(p)
  }

  /** Drops every mention of a file, by canonical name, that is mentioned again later. */
  function KeepLast(fs: Fs, paths: seq<Path>): seq<Path> {
    if paths == [] then []
    else if Mentions(fs, paths[1..], paths[0]) then KeepLast(fs, paths[1..])
    else [paths[0]] + KeepLast(fs, paths[1..])
  }

  /** The same files, each once. */
  lemma {:induction false} KeepLastIsExact(fs: Fs, paths: seq<Path>)
    ensures forall p: Path :: Mentions(fs, KeepLast(fs, paths), p) <==> Mentions(fs, paths, p)
    ensures forall x, y | 0 <= x < y < |KeepLast(fs, paths)| ::
              fs.canonical(KeepLast(fs, paths)[x]) != fs.canonical(KeepLast(fs, paths)[y])
  {
    if paths != [] {
      var first, rest := paths[0], paths[1..];
      var kept := KeepLast(fs, rest);
      KeepLastIsExact(fs, rest);
      forall p: Path ensures Mentions(fs, KeepLast(fs, paths), p) <==> Mentions(fs, paths, p) {
        MentionsCons(fs, first, rest, p);
        MentionsCons(fs, first, kept, p);
        assert [first] + rest == paths;
      }
      if !Mentions(fs, rest, first) {
        forall x, y | 0 <= x < y < |[first] + kept| ensures fs.canonical(([first] + kept)[x]) != fs.canonical(([first] + kept)[y]) {
          assert !Mentions(fs, kept, first);
        }
      }
    }
  }

  lemma MentionsCons(fs: Fs, first: Path, rest: seq<Path>, p: Path)
    ensures Mentions(fs, [first] + rest, p) <==> fs.canonical(first) == fs.canonical(p) || Mentions(fs, rest, p)
  {
    var all := [first] + rest;
    if fs.canonical(first) == fs.canonical(p) {
      assert all[0] == first;
    }
    if Mentions(fs, rest, p) {
      var i :| 0 <= i < |rest| && fs.canonical(rest[i]) == fs.canonical(p);
      assert all[i + 1] == rest[i];
    }
  }

  /** Names of the same file parse alike. */
  ghost predicate Consistent(fs: Fs) {
    forall p: Path, q: Path :: fs.canonical(p) == fs.canonical(q) ==> fs.parsed(p) == fs.parsed(q)
  }

  lemma {:induction false} DuplicatesDoNotMatter(fs: Fs, paths: seq<Path>)
    requires Consistent(fs)
    ensures Stacked(Contents(fs, KeepLast(fs, paths))) == Stacked(Contents(fs, paths))
  {
    hide MergeConfig, Consistent, Content, Mentions;
    if paths != [] {
      var first, rest := paths[0], paths[1..];
      DuplicatesDoNotMatter(fs, rest);
      StackedCons(fs, first, rest);
      assert [first] + rest == paths;
      if Mentions(fs, rest, first) {
        MentionedAbsorbs(fs, first, rest);
      } else {
        StackedCons(fs, first, KeepLast(fs, rest));
      }
    }
  }

  lemma StackedCons(fs: Fs, first: Path, rest: seq<Path>)
    ensures Stacked(Contents(fs, [first] + rest)) == MergeConfig(Content(fs, first), Stacked(Contents(fs, rest)))
    ensures rest == ([first] + rest)[1..]
  {
    hide MergeConfig;
    assert Contents(fs, [first] + rest)[1..] == Contents(fs, rest);
  }

  lemma MentionedAbsorbs(fs: Fs, p: Path, paths: seq<Path>)
    requires Consistent(fs) && Mentions(fs, paths, p)
    ensures MergeConfig(Content(fs, p), Stacked(Contents(fs, paths))) == Stacked(Contents(fs, paths))
  {
    hide MergeConfig;
    var i :| 0 <= i < |paths| && fs.canonical(paths[i]) == fs.canonical(p);
    SameContent(fs, p, paths[i]);
    assert Contents(fs, paths)[i] == Content(fs, p);
    StackedAbsorbs(Content(fs, p), Contents(fs, paths));
  }

  lemma SameContent(fs: Fs, p: Path, q: Path)
    requires Consistent(fs) && fs.canonical(p) == fs.canonical(q)
    ensures Content(fs, p) == Content(fs, q)
  {
  }

  /** The override file next to `path`, if exactly one exists. */
  function Overrides(fs: Fs, path: Path): seq<Path> {
    Locals(fs, path, LOCAL_CANDIDATE_EXTENSIONS)
  }

  /**
   * The resolved configuration is the left-to-right overlay of the files in depth-first post-order, then the local
   * override; leaving out all but the last mention of each file gives the same result.
   */
  lemma ResolvedIsFold(fs: Fs, path: Path)
    requires fs.Valid() && Outcome(fs, path, {}, true).Success?
    ensures var files := Files(fs, path, {});
            && |Overrides(fs, path)| <= 1
            && Outcome(fs, path, {}, true).value == Layered(DEFAULT, Contents(fs, files + Overrides(fs, path)))
            && (Consistent(fs) ==>
                  Outcome(fs, path, {}, true).value == Layered(DEFAULT, Contents(fs, KeepLast(fs, files) + Overrides(fs, path))))
  {
    hide MergeConfig, Resolved, Consistent;
    var files, locals := Files(fs, path, {}), Overrides(fs, path);
    ResolvedIsStacked(fs, path, {});
    assert Outcome(fs, path, {}, true).value == MergeConfig(Stacked(Contents(fs, files)), Stacked(Contents(fs, locals))) by {
      LocalIsLayer(fs, path, Stacked(Contents(fs, files)));
    }
    AppendLocals(fs, files, locals);
    if Consistent(fs) {
      DuplicatesDoNotMatter(fs, files);
      AppendLocals(fs, KeepLast(fs, files), locals);
    }
  }

  lemma AppendLocals(fs: Fs, files: seq<Path>, locals: seq<Path>)
    ensures Layered(DEFAULT, Contents(fs, files + locals)) == MergeConfig(Stacked(Contents(fs, files)), Stacked(Contents(fs, locals)))
  {
    hide MergeConfig;
    ContentsConcat(fs, files, locals);
    LayeredIsStacked(Contents(fs, files + locals));
    StackedConcat(Contents(fs, files), Contents(fs, locals));
  }

  lemma LocalIsLayer(fs: Fs, path: Path, merged: RawConfig)
    requires WithLocal(fs, path, merged).Success?
    ensures |Overrides(fs, path)| <= 1
    ensures WithLocal(fs, path, merged).value == MergeConfig(merged, Stacked(Contents(fs, Overrides(fs, path))))
  {
    var locals := Overrides(fs, path);
    if locals == [] {
      MergeIdentity(merged);
      assert Contents(fs, locals) == [];
    } else {
      var local := fs.parsed(locals[0]).value;
      assert Contents(fs, locals) == [Own(local)];
      assert Contents(fs, locals)[1..] == [];
      MergeIdentity(Own(local));
      assert MergeConfig(merged, local) == MergeConfig(merged, Own(local));
    }
  }

  // ---- The local override ----------------------------------------------------------------------------------------------

  /** The `k`-th candidate for a local override is there. */
  predicate Present(fs: Fs, path: Path, k: nat) {
    k < 5 && fs.isFile(fs.sibling(path, ["toml", "yml", "yaml", "json", "kdl"][k]))
  }

  lemma NextLocal(fs: Fs, path: Path, k: nat)
    requires k < 5
    ensures Locals(fs, path, LOCAL_CANDIDATE_EXTENSIONS[..k + 1]) ==
            Locals(fs, path, LOCAL_CANDIDATE_EXTENSIONS[..k]) +
            if Present(fs, path, k) then [fs.sibling(path, LOCAL_CANDIDATE_EXTENSIONS[k])] else []
  {
    var all := LOCAL_CANDIDATE_EXTENSIONS;
    assert all[..k + 1][..k] == all[..k];
  }

  /** Without a candidate the outcome is that of the chain itself. */
  lemma WithoutLocal(fs: Fs, path: Path)
    requires fs.Valid() && forall k: nat :: !Present(fs, path, k)
    ensures Outcome(fs, path, {}, true) == Resolved(fs, path, {})
  {
    hide Resolved, MergeConfig;
    var all := LOCAL_CANDIDATE_EXTENSIONS;
    for k := 0 to 5
      invariant Locals(fs, path, all[..k]) == []
    {
      NextLocal(fs, path, k);
    }
    assert all[..5] == all;
  }

  /** A single candidate is laid over the chain; it is an error if it cannot be read. */
  lemma WithOneLocal(fs: Fs, path: Path, i: nat)
    requires fs.Valid() && i < 5 && Resolved(fs, path, {}).Success?
    requires forall k: nat :: Present(fs, path, k) <==> k == i
    ensures var local := fs.sibling(path, ["toml", "yml", "yaml", "json", "kdl"][i]);
            Outcome(fs, path, {}, true) ==
              if fs.parsed(local).None? then Failure(Unreadable(local))
              else Success(MergeConfig(Resolved(fs, path, {}).value, fs.parsed(local).value))
  {
    hide Resolved, MergeConfig;
    var all := LOCAL_CANDIDATE_EXTENSIONS;
    for k := 0 to 5
      invariant Locals(fs, path, all[..k]) == if i < k then [fs.sibling(path, all[i])] else []
    {
      NextLocal(fs, path, k);
    }
    assert all[..5] == all;
  }

  /** Of several candidates the first two are named in the error. */
  lemma WithManyLocals(fs: Fs, path: Path, i: nat, j: nat)
    requires fs.Valid() && i < j < 5 && Resolved(fs, path, {}).Success?
    requires Present(fs, path, i) && Present(fs, path, j) && forall k: nat | k < j && k != i :: !Present(fs, path, k)
    ensures Outcome(fs, path, {}, true) ==
            Failure(ManyLocals(fs.sibling(path, ["toml", "yml", "yaml", "json", "kdl"][i]),
                               fs.sibling(path, ["toml", "yml", "yaml", "json", "kdl"][j])))
  {
    hide Resolved, MergeConfig;
    var all := LOCAL_CANDIDATE_EXTENSIONS;
    for k := 0 to j + 1
      invariant Locals(fs, path, all[..k]) ==
                (if i < k then [fs.sibling(path, all[i])] else []) + if j < k then [fs.sibling(path, all[j])] else []
    {
      NextLocal(fs, path, k);
    }
    LocalsGrow(fs, path, all, j + 1);
  }
}
