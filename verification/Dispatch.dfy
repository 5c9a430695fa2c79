/** Routing staged files to packages, and the hook each package runs. */
module Dispatch {
  import opened Wrappers
  import opened Lowering
  import opened Dag

  /** A path by its components, as prefixes are compared. */
  type Components = seq<string>

  /** `bytes` is the length of the path as it is written, which is what packages are sorted by. */
  datatype Package = Package(path: Components, bytes: nat, hooks: map<string, Hook>)

  datatype Hook = Hook(
    parallel: bool, parallelExplicit: bool, failFast: bool, failFastExplicit: bool, parallelLimit: Option<nat>,
    stashUntracked: bool, stashUntrackedExplicit: bool, jobs: seq<Lowered>)

  datatype PackageMatch = Root(files: seq<Components>) | InPackage(index: nat, files: seq<Components>)

  // ---- Which package owns a file ---------------------------------------------------------------------------------------

  predicate StartsWith(file: Components, prefix: Components) {
    prefix <= file
  }

  predicate Longer(packages: seq<Package>, i: nat, j: nat)
    requires i < |packages| && j < |packages|
  {
    packages[i].bytes > packages[j].bytes
  }

  /** Stable insertion of package `i`, which comes before all those in `order` by name. */
  function InsertByLength(packages: seq<Package>, i: nat, order: seq<nat>): (r: seq<nat>)
    requires i < |packages| && forall k | k in order :: k < |packages|
    ensures |r| == |order| + 1 && forall k: nat :: k in r <==> k == i || k in order
  {
    if order == [] then [i]
    else
      assert order[0] in order && order == [order[0]] + order[1..];
      assert forall k | k in order[1..] :: k in order;
      if Longer(packages, order[0], i) then [order[0]] + InsertByLength(packages, i, order[1..]) else [i] + order
  }

  /** The packages from the `from`-th on, longest path first, ties in name order. */
  function ByLength(packages: seq<Package>, from: nat): (r: seq<nat>)
    requires from <= |packages|
    ensures forall k: nat :: k in r <==> from <= k < |packages|
    decreases |packages| - from
  {
    if from == |packages| then [] else InsertByLength(packages, from, ByLength(packages, from + 1))
  }

  function FirstMatch(packages: seq<Package>, order: seq<nat>, file: Components): (r: Option<nat>)
    requires forall k | k in order :: k < |packages|
    ensures r.Some? ==> r.value in order
  {
    if order == [] then None
    else
      assert order[0] in order && forall k | k in order[1..] :: k in order;
      if StartsWith(file, packages[order[0]].path) then Some(order[0]) else FirstMatch(packages, order[1..], file)
  }

  function Owner(packages: seq<Package>, file: Components): (r: Option<nat>)
    ensures r.Some? ==> r.value < |packages|
  {
    FirstMatch(packages, ByLength(packages, 0), file)
  }

  /** Package `i` takes precedence over `j`. */
  predicate Precedes(packages: seq<Package>, i: nat, j: nat)
    requires i < |packages| && j < |packages|
  {
    Longer(packages, i, j) || (packages[i].bytes == packages[j].bytes && i <= j)
  }

  ghost predicate Ranked(packages: seq<Package>, order: seq<nat>) {
    && (forall k | k in order :: k < |packages|)
    && (forall x, y | 0 <= x < y < |order| :: order[x] < |packages| && order[y] < |packages| && Precedes(packages, order[x], order[y]))
  }

  lemma {:induction false} InsertRanked(packages: seq<Package>, i: nat, order: seq<nat>)
    requires i < |packages| && Ranked(packages, order) && forall k | k in order :: i < k
    ensures Ranked(packages, InsertByLength(packages, i, order))
  {
    if order != [] {
      var first, rest := order[0], order[1..];
      assert first in order && order == [first] + rest;
      assert forall k | k in rest :: k in order;
      if Longer(packages, first, i) {
        InsertRanked(packages, i, rest);
        var tail := InsertByLength(packages, i, rest);
        forall y | 0 <= y < |tail| ensures tail[y] < |packages| && Precedes(packages, first, tail[y]) {
          assert tail[y] in tail;
          if tail[y] != i {
            var z :| 0 <= z < |rest| && rest[z] == tail[y];
            assert order[z + 1] == tail[y];
          }
        }
        RankedCons(packages, first, tail);
      } else {
        forall y | 0 <= y < |order| ensures order[y] < |packages| && Precedes(packages, i, order[y]) {
          assert order[y] in order;
          assert y > 0 ==> Precedes(packages, order[0], order[y]);
        }
        RankedCons(packages, i, order);
      }
    }
  }

  lemma RankedCons(packages: seq<Package>, first: nat, rest: seq<nat>)
    requires first < |packages| && Ranked(packages, rest)
    requires forall y | 0 <= y < |rest| :: rest[y] < |packages| && Precedes(packages, first, rest[y])
    ensures Ranked(packages, [first] + rest)
  {
  }

  lemma {:induction false} ByLengthRanked(packages: seq<Package>, from: nat)
    requires from <= |packages|
    ensures Ranked(packages, ByLength(packages, from))
    decreases |packages| - from
  {
    if from < |packages| {
      ByLengthRanked(packages, from + 1);
      InsertRanked(packages, from, ByLength(packages, from + 1));
    }
  }

  lemma {:induction false} FirstMatchWins(packages: seq<Package>, order: seq<nat>, file: Components)
    requires Ranked(packages, order)
    ensures var m := FirstMatch(packages, order, file);
            && (m.None? <==> forall k | k in order :: !StartsWith(file, packages[k].path))
            && (m.Some? ==> m.value in order && StartsWith(file, packages[m.value].path))
            && (m.Some? ==> forall k | k in order && StartsWith(file, packages[k].path) :: Precedes(packages, m.value, k))
  {
    if order != [] {
      assert order == [order[0]] + order[1..];
      assert forall k | k in order[1..] :: exists y :: 0 < y < |order| && order[y] == k;
      FirstMatchWins(packages, order[1..], file);
    }
  }

  /** The path's components are the first ones of the file's. */
  predicate LiesIn(file: Components, path: Components) {
    |path| <= |file| && forall k | 0 <= k < |path| :: file[k] == path[k]
  }

  /**
   * A file belongs to the package with the longest written path among those it lies in, component by component; to the first
   * of them by name if several paths are as long; and to the root exactly if it lies in none.
   */
  lemma OwnerIsLongestMatch(packages: seq<Package>, file: Components)
    ensures var owner := Owner(packages, file);
            && (owner.None? <==> forall k | 0 <= k < |packages| :: !LiesIn(file, packages[k].path))
            && (owner.Some? ==> LiesIn(file, packages[owner.value].path))
            && (owner.Some? ==> forall k | 0 <= k < |packages| && LiesIn(file, packages[k].path) ::
                  || packages[owner.value].bytes > packages[k].bytes
                  || (packages[owner.value].bytes == packages[k].bytes && owner.value <= k))
  {
    ByLengthRanked(packages, 0);
    FirstMatchWins(packages, ByLength(packages, 0), file);
    assert forall k | 0 <= k < |packages| :: LiesIn(file, packages[k].path) <==> StartsWith(file, packages[k].path);
  }

  /**
   * Written lengths stand in for depth: where a path inside another is always written longer, as it is without redundant
   * separators, the owner is the deepest package the file lies in.
   */
  lemma OwnerIsDeepestMatch(packages: seq<Package>, file: Components)
    requires forall i, j | 0 <= i < |packages| && 0 <= j < |packages| ::
               |packages[i].path| < |packages[j].path| && packages[i].path <= packages[j].path ==> packages[i].bytes < packages[j].bytes
    ensures var owner := Owner(packages, file);
            owner.Some? ==> forall k | 0 <= k < |packages| && LiesIn(file, packages[k].path) ::
                              |packages[k].path| <= |packages[owner.value].path|
  {
    OwnerIsLongestMatch(packages, file);
    var owner := Owner(packages, file);
    if owner.Some? {
      forall k | 0 <= k < |packages| && LiesIn(file, packages[k].path)
        ensures |packages[k].path| <= |packages[owner.value].path|
      {
        var a, b := packages[owner.value].path, packages[k].path;
        assert |a| <= |b| ==> a <= b;
      }
    }
  }

  // ---- Grouping ----------------------------------------------------------------------------------------------------------

  /** The files of one owner, in their original order. */
  function OwnedBy(packages: seq<Package>, files: seq<Components>, owner: Option<nat>): seq<Components> {
    if files == [] then []
    else
      var front, last := OwnedBy(packages, files[..|files| - 1], owner), files[|files| - 1];
      if Owner(packages, last) == owner then front + [last] else front
  }

  function PackageMatches(packages: seq<Package>, files: seq<Components>, bound: nat): seq<PackageMatch> {
    if bound == 0 then []
    else
      var front, own := PackageMatches(packages, files, bound - 1), OwnedBy(packages, files, Some(bound - 1));
      if own == [] then front else front + [InPackage(bound - 1, own)]
  }

  /** Without packages everything is one root match, even of no files; otherwise empty groups are left out. */
  function Groups(packages: seq<Package>, files: seq<Components>): seq<PackageMatch> {
    if packages == [] then [Root(files)]
    else
      var root := OwnedBy(packages, files, None);
      (if root == [] then [] else [Root(root)]) + PackageMatches(packages, files, |packages|)
  }

  /** The inner loop: the first package, longest path first, that the file lies in. */
  method FindPackage(packages: seq<Package>, order: seq<nat>, file: Components) returns (found: Option<nat>)
    requires forall k | k in order :: k < |packages|
    ensures found == FirstMatch(packages, order, file)
  {
    hide StartsWith;
    for k := 0 to |order|
      invariant forall x | x in order[k..] :: x in order
      invariant FirstMatch(packages, order[k..], file) == FirstMatch(packages, order, file)
    {
      assert order[k..][1..] == order[k + 1..];
      assert order[k] in order;
      if StartsWith(file, packages[order[k]].path) {
        return Some(order[k]);
      }
    }
    return None;
  }

  lemma OwnedNext(packages: seq<Package>, files: seq<Components>, f: nat, owner: Option<nat>)
    requires f < |files|
    ensures OwnedBy(packages, files[..f + 1], owner) ==
            OwnedBy(packages, files[..f], owner) + if Owner(packages, files[f]) == owner then [files[f]] else []
  {
    hide Owner;
    assert files[..f + 1][..f] == files[..f];
  }

  method ResolvePackages(packages: seq<Package>, files: seq<Components>) returns (out: seq<PackageMatch>)
    ensures out == Groups(packages, files)
  {
    if packages == [] {
      return [Root(files)];
    }
    hide FirstMatch, OwnedBy, Owner, Bucketed, ByLength, PackageMatches;
    var order := ByLength(packages, 0);
    var buckets: map<nat, seq<Components>> := map[];
    var rootBucket: seq<Components> := [];
    BucketsEmpty(packages);
    assert files[..0] == [];
    for f := 0 to |files|
      invariant Bucketed(packages, files[..f], buckets, rootBucket)
    {
      BucketNext(packages, files, f, buckets, rootBucket);
      var found := FindPackage(packages, order, files[f]);
      OwnerByOrder(packages, files[f]);
      if found.Some? {
        var idx := found.value;
        buckets := buckets[idx := In(buckets, idx) + [files[f]]];
      } else {
        rootBucket := rootBucket + [files[f]];
      }
    }
    assert files[..|files|] == files;
    out := Assemble(packages, files, buckets, rootBucket);
  }

  /** Root first, then the packages by name, leaving out those without files. */
  method Assemble(packages: seq<Package>, ghost files: seq<Components>, buckets: map<nat, seq<Components>>,
                  rootBucket: seq<Components>) returns (out: seq<PackageMatch>)
    requires Bucketed(packages, files, buckets, rootBucket)
    ensures out == (if OwnedBy(packages, files, None) == [] then [] else [Root(OwnedBy(packages, files, None))])
                   + PackageMatches(packages, files, |packages|)
  {
    hide OwnedBy, Bucketed, PackageMatches;
    BucketFacts(packages, files, buckets, rootBucket);
    out := if rootBucket != [] then [Root(rootBucket)] else [];
    ghost var root := out;
    MatchesStart(packages, files);
    for i := 0 to |packages|
      invariant out == root + PackageMatches(packages, files, i)
    {
      MatchesNext(packages, files, i);
      if i in buckets {
        out := out + [InPackage(i, buckets[i])];
      }
    }
  }

  lemma OwnerByOrder(packages: seq<Package>, file: Components)
    ensures Owner(packages, file) == FirstMatch(packages, ByLength(packages, 0), file)
  {
  }

  lemma MatchesStart(packages: seq<Package>, files: seq<Components>)
    ensures PackageMatches(packages, files, 0) == []
  {
  }

  lemma MatchesNext(packages: seq<Package>, files: seq<Components>, i: nat)
    ensures var own := OwnedBy(packages, files, Some(i));
            PackageMatches(packages, files, i + 1) ==
              PackageMatches(packages, files, i) + if own == [] then [] else [InPackage(i, own)]
  {
    hide OwnedBy;
  }

  function In(buckets: map<nat, seq<Components>>, i: nat): seq<Components> {
    if i in buckets then buckets[i] else []
  }

  /** The buckets after some files: one for each package that owns any of them. */
  ghost predicate Bucketed(packages: seq<Package>, files: seq<Components>, buckets: map<nat, seq<Components>>, root: seq<Components>) {
    && root == OwnedBy(packages, files, None)
    && (forall i: nat :: In(buckets, i) == OwnedBy(packages, files, Some(i)))
    && (forall i | i in buckets :: buckets[i] != [])
  }

  lemma BucketsEmpty(packages: seq<Package>)
    ensures Bucketed(packages, [], map[], [])
  {
    forall owner {
      NoFiles(packages, owner);
    }
  }

  lemma BucketNext(packages: seq<Package>, files: seq<Components>, f: nat, buckets: map<nat, seq<Components>>, root: seq<Components>)
    requires f < |files| && Bucketed(packages, files[..f], buckets, root)
    ensures var owner := Owner(packages, files[f]);
            if owner.Some? then
              Bucketed(packages, files[..f + 1], buckets[owner.value := In(buckets, owner.value) + [files[f]]], root)
            else Bucketed(packages, files[..f + 1], buckets, root + [files[f]])
  {
    hide OwnedBy, Owner;
    forall owner {
      OwnedNext(packages, files, f, owner);
    }
  }

  lemma BucketFacts(packages: seq<Package>, files: seq<Components>, buckets: map<nat, seq<Components>>, root: seq<Components>)
    requires Bucketed(packages, files, buckets, root)
    ensures root == OwnedBy(packages, files, None)
    ensures forall i: nat :: (i in buckets <==> OwnedBy(packages, files, Some(i)) != [])
    ensures forall i | i in buckets :: buckets[i] == OwnedBy(packages, files, Some(i))
  {
    hide OwnedBy;
    assert forall i: nat :: In(buckets, i) == OwnedBy(packages, files, Some(i));
  }

  lemma NoFiles(packages: seq<Package>, owner: Option<nat>)
    ensures OwnedBy(packages, [], owner) == []
  {
  }

  // ---- Nothing is lost ----------------------------------------------------------------------------------------------------

  /** The files of all the groups, with repetitions. */
  function FilesOf(groups: seq<PackageMatch>): multiset<Components> {
    if groups == [] then multiset{} else FilesOf(groups[..|groups| - 1]) + multiset(groups[|groups| - 1].files)
  }

  lemma FilesOfSnoc(groups: seq<PackageMatch>, last: PackageMatch)
    ensures FilesOf(groups + [last]) == FilesOf(groups) + multiset(last.files)
  {
    assert (groups + [last])[..|groups|] == groups;
  }

  function Bag(packages: seq<Package>, files: seq<Components>, owner: Option<nat>): multiset<Components> {
    multiset(OwnedBy(packages, files, owner))
  }

  /** The bags of the root and of the packages before `bound`. */
  function Bags(packages: seq<Package>, files: seq<Components>, bound: nat): multiset<Components> {
    if bound == 0 then Bag(packages, files, None)
    else Bags(packages, files, bound - 1) + Bag(packages, files, Some(bound - 1))
  }

  function Once(present: bool, file: Components): multiset<Components> {
    if present then multiset{file} else multiset{}
  }

  /** One more file goes to the bag of its owner. */
  lemma BagSnoc(packages: seq<Package>, files: seq<Components>, last: Components, owner: Option<nat>)
    ensures Bag(packages, files + [last], owner) == Bag(packages, files, owner) + Once(Owner(packages, last) == owner, last)
  {
    hide Owner;
    assert (files + [last])[..|files|] == files;
  }

  lemma Regroup(a: multiset<Components>, b: multiset<Components>, p: bool, q: bool, file: Components)
    requires !(p && q)
    ensures (a + Once(p, file)) + (b + Once(q, file)) == (a + b) + Once(p || q, file)
  {
  }

  lemma {:induction false} BagsSnoc(packages: seq<Package>, files: seq<Components>, last: Components, bound: nat)
    ensures var owner := Owner(packages, last);
            Bags(packages, files + [last], bound) == Bags(packages, files, bound) + Once(owner.None? || owner.value < bound, last)
  {
    hide Owner, Bag, Once;
    var owner := Owner(packages, last);
    if bound == 0 {
      BagSnoc(packages, files, last, None);
    } else {
      BagsSnoc(packages, files, last, bound - 1);
      BagSnoc(packages, files, last, Some(bound - 1));
      Regroup(Bags(packages, files, bound - 1), Bag(packages, files, Some(bound - 1)),
              owner.None? || owner.value < bound - 1, owner == Some(bound - 1), last);
    }
  }

  lemma {:induction false} BagsAreFiles(packages: seq<Package>, files: seq<Components>)
    ensures Bags(packages, files, |packages|) == multiset(files)
  {
    hide Owner, Bag, Bags;
    if files == [] {
      EmptyBags(packages, |packages|);
    } else {
      var front, last := files[..|files| - 1], files[|files| - 1];
      assert files == front + [last];
      BagsAreFiles(packages, front);
      BagsSnoc(packages, front, last, |packages|);
      assert Owner(packages, last).None? || Owner(packages, last).value < |packages|;
    }
  }

  lemma {:induction false} EmptyBags(packages: seq<Package>, bound: nat)
    ensures Bags(packages, [], bound) == multiset{}
  {
    NoFiles(packages, if bound == 0 then None else Some(bound - 1));
    if bound > 0 {
      EmptyBags(packages, bound - 1);
    }
  }

  lemma {:induction false} GroupsAreBags(packages: seq<Package>, files: seq<Components>, root: seq<PackageMatch>, bound: nat)
    requires FilesOf(root) == Bag(packages, files, None)
    ensures FilesOf(root + PackageMatches(packages, files, bound)) == Bags(packages, files, bound)
  {
    hide OwnedBy, FilesOf;
    if bound == 0 {
      assert root + PackageMatches(packages, files, 0) == root;
    } else {
      GroupsAreBags(packages, files, root, bound - 1);
      var front, own := PackageMatches(packages, files, bound - 1), OwnedBy(packages, files, Some(bound - 1));
      if own == [] {
        assert Bag(packages, files, Some(bound - 1)) == multiset{};
      } else {
        FilesOfSnoc(root + front, InPackage(bound - 1, own));
        assert root + (front + [InPackage(bound - 1, own)]) == root + front + [InPackage(bound - 1, own)];
      }
    }
  }

  /** Every file lands in exactly one of the returned groups: together they are a rearrangement of the files. */
  lemma FilesArePartitioned(packages: seq<Package>, files: seq<Components>)
    ensures FilesOf(Groups(packages, files)) == multiset(files)
  {
    hide OwnedBy, PackageMatches, Bags;
    FilesOfNone();
    if packages == [] {
      FilesOfSnoc([], Root(files));
      assert [] + [Root(files)] == [Root(files)];
    } else {
      var own := OwnedBy(packages, files, None);
      var root := if own == [] then [] else [Root(own)];
      FilesOfSnoc([], Root(own));
      assert [] + [Root(own)] == [Root(own)];
      GroupsAreBags(packages, files, root, |packages|);
      BagsAreFiles(packages, files);
    }
  }

  lemma FilesOfNone()
    ensures FilesOf([]) == multiset{}
  {
  }

  function OwnerOf(m: PackageMatch): Option<nat> {
    if m.Root? then None else Some(m.index)
  }

  /** The positions in the file list of one owner's files, in order. */
  lemma {:induction false} OwnedByOwner(packages: seq<Package>, files: seq<Components>, owner: Option<nat>) returns (at: seq<nat>)
    ensures |at| == |OwnedBy(packages, files, owner)|
    ensures forall k | 0 <= k < |at| :: at[k] < |files| && OwnedBy(packages, files, owner)[k] == files[at[k]]
    ensures forall j, k | 0 <= j < k < |at| :: at[j] < at[k]
    ensures forall f: nat :: f in at <==> f < |files| && Owner(packages, files[f]) == owner
  {
    hide Owner;
    if files == [] {
      at := [];
    } else {
      var last := |files| - 1;
      at := OwnedByOwner(packages, files[..last], owner);
      if Owner(packages, files[last]) == owner {
        at := at + [last];
      }
    }
  }

  lemma {:induction false} MatchesByOwner(packages: seq<Package>, files: seq<Components>, bound: nat)
    ensures forall m | m in PackageMatches(packages, files, bound) ::
              m.InPackage? && m.index < bound && m.files != [] && m.files == OwnedBy(packages, files, Some(m.index))
  {
    hide OwnedBy;
    if bound > 0 {
      MatchesByOwner(packages, files, bound - 1);
    }
  }

  /** A returned group is the files that belong to its package, or to none if it is the root's, in their original order. */
  lemma GroupsByOwner(packages: seq<Package>, files: seq<Components>, m: PackageMatch) returns (at: seq<nat>)
    requires m in Groups(packages, files)
    ensures |at| == |m.files| && forall k | 0 <= k < |at| :: at[k] < |files| && m.files[k] == files[at[k]]
    ensures forall j, k | 0 <= j < k < |at| :: at[j] < at[k]
    ensures forall f: nat :: f in at <==> f < |files| && Owner(packages, files[f]) == OwnerOf(m)
  {
    if packages == [] {
      at := seq(|files|, i => i);
    } else {
      hide OwnedBy, Owner, PackageMatches;
      MatchesByOwner(packages, files, |packages|);
      at := OwnedByOwner(packages, files, OwnerOf(m));
    }
  }

  predicate InPackageOrder(groups: seq<PackageMatch>) {
    forall x, y | 0 <= x < y < |groups| :: groups[y].InPackage? && (groups[x].Root? || groups[x].index < groups[y].index)
  }

  /** The root's group comes first and the others in the order of the packages; with packages, none is empty. */
  lemma GroupsInOrder(packages: seq<Package>, files: seq<Components>)
    ensures InPackageOrder(Groups(packages, files))
    ensures packages != [] ==> forall m | m in Groups(packages, files) :: m.files != []
  {
    hide OwnedBy, PackageMatches;
    if packages != [] {
      MatchesInOrder(packages, files, |packages|);
      MatchesByOwner(packages, files, |packages|);
      RootFirst(OwnedBy(packages, files, None), PackageMatches(packages, files, |packages|), |packages|);
    }
  }

  lemma RootFirst(root: seq<Components>, matches: seq<PackageMatch>, bound: nat)
    requires Ascending(matches, bound)
    ensures InPackageOrder((if root == [] then [] else [Root(root)]) + matches)
  {
  }

  predicate Ascending(matches: seq<PackageMatch>, bound: nat) {
    && (forall x | 0 <= x < |matches| :: matches[x].InPackage? && matches[x].index < bound)
    && (forall x, y | 0 <= x < y < |matches| :: matches[x].index < matches[y].index)
  }

  lemma {:induction false} MatchesInOrder(packages: seq<Package>, files: seq<Components>, bound: nat)
    ensures Ascending(PackageMatches(packages, files, bound), bound)
  {
    if bound > 0 {
      MatchesInOrder(packages, files, bound - 1);
      MatchesNext(packages, files, bound - 1);
      hide PackageMatches, OwnedBy;
    }
  }

  /** A package at `web` gets `web/a.ts`; `website/a.ts` goes to the root. */
  lemma WebExample(hooks: map<string, Hook>)
    ensures Groups([Package(["web"], 3, hooks)], [["web", "a.ts"], ["website", "a.ts"]]) ==
            [Root([["website", "a.ts"]]), InPackage(0, [["web", "a.ts"]])]
  {
    var packages, files := [Package(["web"], 3, hooks)], [["web", "a.ts"], ["website", "a.ts"]];
    OwnerIsLongestMatch(packages, files[0]);
    OwnerIsLongestMatch(packages, files[1]);
    assert LiesIn(files[0], packages[0].path);
    assert "web" != "website" by {
      assert |"web"| != |"website"|;
    }
    assert !LiesIn(files[1], packages[0].path) by {
      assert files[1][0] != packages[0].path[0];
    }
    hide Owner, OwnedBy;
    assert files[..0] == [] && files[..2] == files;
    forall owner: Option<nat> | true
      ensures OwnedBy(packages, files, owner) ==
              (if Owner(packages, files[0]) == owner then [files[0]] else []) + if Owner(packages, files[1]) == owner then [files[1]] else []
    {
      NoFiles(packages, owner);
      OwnedNext(packages, files, 0, owner);
      OwnedNext(packages, files, 1, owner);
    }
    assert OwnedBy(packages, files, None) == [files[1]] && OwnedBy(packages, files, Some(0)) == [files[0]];
    MatchesStart(packages, files);
    MatchesNext(packages, files, 0);
  }

  // ---- The hook of a match --------------------------------------------------------------------------------------------------

  /** The base jobs that the overlay does not replace. */
  function Kept(base: seq<Lowered>, overlay: seq<Lowered>): (r: seq<Lowered>)
    ensures forall j :: j in r <==> j in base && !HasName(overlay, j.job.name)
  {
    if base == [] then []
    else
      var front, last := Kept(base[..|base| - 1], overlay), base[|base| - 1];
      assert base == base[..|base| - 1] + [last];
      if HasName(overlay, last.job.name) then front else front + [last]
  }

  function MergedJobs(base: seq<Lowered>, overlay: seq<Lowered>): seq<Lowered> {
    SortJobs(Kept(base, overlay) + overlay)
  }

  /** Flags come from the package where it declares them, jobs from both. */
  method MergeHooks(base: Hook, overlay: Hook) returns (hook: Hook)
    ensures hook.jobs == MergedJobs(base.jobs, overlay.jobs)
    ensures hook.parallel == if overlay.parallelExplicit then overlay.parallel else base.parallel
    ensures hook.failFast == if overlay.failFastExplicit then overlay.failFast else base.failFast
    ensures hook.stashUntracked == if overlay.stashUntrackedExplicit then overlay.stashUntracked else base.stashUntracked
    ensures hook.parallelLimit == if overlay.parallelLimit.Some? then overlay.parallelLimit else base.parallelLimit
    ensures hook.parallelExplicit == (base.parallelExplicit || overlay.parallelExplicit)
    ensures hook.failFastExplicit == (base.failFastExplicit || overlay.failFastExplicit)
    ensures hook.stashUntrackedExplicit == (base.stashUntrackedExplicit || overlay.stashUntrackedExplicit)
  {
    var jobs: seq<Lowered> := [];
    for i := 0 to |base.jobs|
      invariant jobs == Kept(base.jobs[..i], overlay.jobs)
    {
      assert base.jobs[..i + 1][..i] == base.jobs[..i];
      if HasName(overlay.jobs, base.jobs[i].job.name) {
        continue;
      }
      jobs := jobs + [base.jobs[i]];
    }
    assert base.jobs[..|base.jobs|] == base.jobs;
    jobs := jobs + overlay.jobs;
    jobs := SortJobs(jobs);
    hook := Hook(
      if overlay.parallelExplicit then overlay.parallel else base.parallel,
      base.parallelExplicit || overlay.parallelExplicit,
      if overlay.failFastExplicit then overlay.failFast else base.failFast,
      base.failFastExplicit || overlay.failFastExplicit,
      if overlay.parallelLimit.Some? then overlay.parallelLimit else base.parallelLimit,
      if overlay.stashUntrackedExplicit then overlay.stashUntracked else base.stashUntracked,
      base.stashUntrackedExplicit || overlay.stashUntrackedExplicit,
      jobs);
  }

  predicate DistinctNames(jobs: seq<Lowered>) {
    forall x, y | 0 <= x < y < |jobs| :: jobs[x].job.name != jobs[y].job.name
  }

  lemma {:induction false} KeptDistinct(base: seq<Lowered>, overlay: seq<Lowered>)
    requires DistinctNames(base)
    ensures DistinctNames(Kept(base, overlay))
  {
    if base != [] {
      var front, last := base[..|base| - 1], base[|base| - 1];
      KeptDistinct(front, overlay);
      forall x | 0 <= x < |Kept(front, overlay)| ensures Kept(front, overlay)[x].job.name != last.job.name {
        assert Kept(front, overlay)[x] in front;
      }
    }
  }

  /**
   * Overlaying one ordered job list on another gives an ordered list that has each name of either once: the package's
   * job where the package has one, the root's otherwise.
   */
  lemma MergedJobsExact(base: seq<Lowered>, overlay: seq<Lowered>)
    requires DistinctNames(base) && DistinctNames(overlay)
    ensures InOrder(MergedJobs(base, overlay))
    ensures forall j :: j in MergedJobs(base, overlay) <==> j in overlay || (j in base && !HasName(overlay, j.job.name))
  {
    hide InOrder, SortJobs;
    var kept := Kept(base, overlay);
    var all := kept + overlay;
    KeptDistinct(base, overlay);
    forall x, y | 0 <= x < y < |all| ensures all[x].job.name != all[y].job.name {
      if x < |kept| && y >= |kept| {
        assert kept[x] in kept;
        assert all[y] == overlay[y - |kept|];
      }
    }
    SortSorts(all);
    forall j ensures j in SortJobs(all) <==> j in all {
      assert j in SortJobs(all) <==> j in multiset(SortJobs(all));
      assert j in all <==> j in multiset(all);
    }
  }
}
