/** The cache directory: one file per key, two levels deep, behaving as a map from keys to results. */
module CacheStore {
  import opened Wrappers
  import opened CacheKeys

  /** Nanoseconds since the epoch; files can be older than the epoch. */
  type Time = int

  const NANOS_PER_SEC: nat := 1_000_000_000

  datatype CachedInput = CachedInput(path: string, modifiedAt: Option<Time>)

  datatype CachedResult = CachedResult(exit: int, events: seq<string>, createdAt: Time, inputs: seq<CachedInput>)

  /** Times are written as whole seconds, and as zero when they lie before the epoch. */
  function WholeSeconds(t: Time): Time {
    if t < 0 then 0 else t / NANOS_PER_SEC * NANOS_PER_SEC
  }

  function PersistedInput(i: CachedInput): CachedInput {
    i.(modifiedAt := if i.modifiedAt.Some? then Some(WholeSeconds(i.modifiedAt.value)) else None)
  }

  /** What reading an entry back gives. */
  function Persisted(r: CachedResult): CachedResult {
    CachedResult(r.exit, r.events, WholeSeconds(r.createdAt),
                 seq(|r.inputs|, i requires 0 <= i < |r.inputs| => PersistedInput(r.inputs[i])))
  }

  type Shards = map<string, map<string, CachedResult>>

  predicate HasFile(tree: Shards, path: (string, string)) {
    path.0 in tree && path.1 in tree[path.0]
  }

  function WithFile(tree: Shards, path: (string, string), entry: CachedResult): Shards {
    tree[path.0 := (if path.0 in tree then tree[path.0] else map[])[path.1 := entry]]
  }

  function WithoutFile(tree: Shards, path: (string, string)): Shards
    requires HasFile(tree, path)
  {
    tree[path.0 := tree[path.0] - {path.1}]
  }

  ghost predicate OwnsFile(keys: set<CacheKey>, path: (string, string)) {
    exists k | k in keys :: WellFormed(k) && RelativePath(k) == path
  }

  ghost predicate Stores(tree: Shards, key: CacheKey, entry: CachedResult) {
    && WellFormed(key) && HasFile(tree, RelativePath(key))
    && tree[RelativePath(key).0][RelativePath(key).1] == entry
  }

  /** The files are exactly those of the keys in `contents`. */
  ghost predicate Matches(tree: Shards, contents: map<CacheKey, CachedResult>) {
    && (forall k | k in contents :: Stores(tree, k, contents[k]))
    && (forall path | HasFile(tree, path) :: OwnsFile(contents.Keys, path))
  }

  lemma FileMeansKey(tree: Shards, contents: map<CacheKey, CachedResult>, key: CacheKey)
    requires Matches(tree, contents) && WellFormed(key)
    ensures HasFile(tree, RelativePath(key)) <==> key in contents
    ensures key in contents ==> Stores(tree, key, contents[key])
  {
    hide RelativePath, WellFormed, HasFile;
    if HasFile(tree, RelativePath(key)) {
      assert OwnsFile(contents.Keys, RelativePath(key));
      var k :| k in contents.Keys && WellFormed(k) && RelativePath(k) == RelativePath(key);
      RelativePathInjective(k, key);
    } else {
      assert key in contents ==> Stores(tree, key, contents[key]);
    }
  }

  lemma PutMatches(tree: Shards, contents: map<CacheKey, CachedResult>, key: CacheKey, entry: CachedResult)
    requires Matches(tree, contents) && WellFormed(key)
    ensures Matches(WithFile(tree, RelativePath(key), entry), contents[key := entry])
  {
    hide RelativePath, WellFormed;
    var path := RelativePath(key);
    var tree', contents' := WithFile(tree, path, entry), contents[key := entry];
    forall k | k in contents' ensures Stores(tree', k, contents'[k]) {
      if k != key {
        assert Stores(tree, k, contents[k]);
        if RelativePath(k) == path {
          RelativePathInjective(k, key);
        }
      }
    }
    forall q | HasFile(tree', q) ensures OwnsFile(contents'.Keys, q) {
      if q == path {
        assert key in contents'.Keys;
      } else {
        assert HasFile(tree, q);
        var k :| k in contents.Keys && WellFormed(k) && RelativePath(k) == q;
        assert k in contents'.Keys;
      }
    }
  }

  lemma RemoveMatches(tree: Shards, contents: map<CacheKey, CachedResult>, key: CacheKey)
    requires Matches(tree, contents) && key in contents && WellFormed(key) && HasFile(tree, RelativePath(key))
    ensures Matches(WithoutFile(tree, RelativePath(key)), contents - {key})
  {
    hide RelativePath, WellFormed;
    var path := RelativePath(key);
    var tree', contents' := WithoutFile(tree, path), contents - {key};
    forall k | k in contents' ensures Stores(tree', k, contents'[k]) {
      assert Stores(tree, k, contents[k]);
      if RelativePath(k) == path {
        RelativePathInjective(k, key);
      }
    }
    forall q | HasFile(tree', q) ensures OwnsFile(contents'.Keys, q) {
      assert HasFile(tree, q) && q != path;
      var k :| k in contents.Keys && WellFormed(k) && RelativePath(k) == q;
      assert k in contents'.Keys;
    }
  }

  function Files(keys: set<CacheKey>): set<(string, string)>
    requires forall k | k in keys :: WellFormed(k)
  {
    set k | k in keys :: RelativePath(k)
  }

  lemma {:induction false} OneFilePerKey(keys: set<CacheKey>)
    requires forall k | k in keys :: WellFormed(k)
    ensures |Files(keys)| == |keys|
    decreases |keys|
  {
    hide RelativePath, WellFormed;
    if keys == {} {
      assert Files(keys) == {};
    } else {
      var key :| key in keys;
      var rest := keys - {key};
      OneFilePerKey(rest);
      assert Files(keys) == Files(rest) + {RelativePath(key)};
      if RelativePath(key) in Files(rest) {
        var k :| k in rest && RelativePath(k) == RelativePath(key);
        RelativePathInjective(k, key);
        assert false;
      }
    }
  }

  /** A walk that meets every file once meets as many files as there are keys. */
  lemma WalkCounts(tree: Shards, contents: map<CacheKey, CachedResult>, visited: set<(string, string)>)
    requires Matches(tree, contents)
    requires forall path :: path in visited <==> HasFile(tree, path)
    ensures |visited| == |contents|
  {
    hide RelativePath, WellFormed;
    forall k | k in contents.Keys ensures WellFormed(k) && HasFile(tree, RelativePath(k)) {
      assert Stores(tree, k, contents[k]);
    }
    forall path ensures path in visited <==> path in Files(contents.Keys) {
      if path in visited {
        assert OwnsFile(contents.Keys, path);
      }
    }
    assert visited == Files(contents.Keys);
    OneFilePerKey(contents.Keys);
  }

  class Store {
    var tree: Shards
    ghost var contents: map<CacheKey, CachedResult>

    ghost predicate Valid()
      reads this
    {
      Matches(tree, contents)
    }

    constructor ()
      ensures Valid() && contents == map[]
    {
      tree, contents := map[], map[];
    }

    method Get(key: CacheKey) returns (r: Option<CachedResult>)
      requires Valid() && WellFormed(key)
      ensures r == if key in contents then Some(contents[key]) else None
    {
      hide Matches, RelativePath, WellFormed;
      var path := RelativePath(key);
      FileMeansKey(tree, contents, key);
      if HasFile(tree, path) {
        return Some(tree[path.0][path.1]);
      }
      return None;
    }

    /** Creates the shard directory if need be, and replaces the entry's file. */
    method Put(key: CacheKey, result: CachedResult)
      requires Valid() && WellFormed(key)
      modifies this
      ensures Valid() && contents == old(contents)[key := Persisted(result)]
    {
      hide Matches, RelativePath, WellFormed, Persisted;
      var path := RelativePath(key);
      var entry := Persisted(result);
      PutMatches(tree, contents, key, entry);
      if path.0 !in tree {
        tree := tree[path.0 := map[]];
      }
      tree := tree[path.0 := tree[path.0][path.1 := entry]];
      contents := contents[key := entry];
      assert tree == WithFile(old(tree), path, entry);
    }

    method Remove(key: CacheKey) returns (existed: bool)
      requires Valid() && WellFormed(key)
      modifies this
      ensures Valid() && existed == (key in old(contents)) && contents == old(contents) - {key}
    {
      hide Matches, RelativePath, WellFormed;
      var path := RelativePath(key);
      FileMeansKey(tree, contents, key);
      existed := HasFile(tree, path);
      if existed {
        RemoveMatches(tree, contents, key);
        tree := WithoutFile(tree, path);
      }
      contents := contents - {key};
      assert !existed ==> contents == old(contents);
    }

    /** `for_each_entry`: the files of every shard, each met once. */
    method Walk() returns (visited: seq<(string, string)>)
      ensures forall path :: path in visited <==> HasFile(tree, path)
      ensures forall x, y | 0 <= x < y < |visited| :: visited[x] != visited[y]
    {
      visited := [];
      var shards := tree.Keys;
      while shards != {}
        invariant shards <= tree.Keys
        invariant forall path :: path in visited <==> HasFile(tree, path) && path.0 !in shards
        invariant forall x, y | 0 <= x < y < |visited| :: visited[x] != visited[y]
        decreases |shards|
      {
        var shard :| shard in shards;
        var names := tree[shard].Keys;
        while names != {}
          invariant names <= tree[shard].Keys
          invariant forall path :: path in visited <==>
                      HasFile(tree, path) && (path.0 !in shards || (path.0 == shard && path.1 !in names))
          invariant forall x, y | 0 <= x < y < |visited| :: visited[x] != visited[y]
          decreases |names|
        {
          var name :| name in names;
          assert (shard, name) !in visited;
          visited := visited + [(shard, name)];
          names := names - {name};
        }
        shards := shards - {shard};
      }
    }

    method Len() returns (count: nat)
      requires Valid()
      ensures count == |contents|
    {
      hide Matches;
      var visited := Walk();
      count := |visited|;
      DistinctCount(visited);
      WalkCounts(tree, contents, set path | path in visited);
    }

    /** The shard directories stay; their files go. */
    method Clear() returns (removed: nat)
      requires Valid()
      modifies this
      ensures Valid() && contents == map[] && removed == |old(contents)|
    {
      hide WithoutFile, HasFile, Matches;
      var visited := Walk();
      DistinctCount(visited);
      WalkCounts(tree, contents, set path | path in visited);
      removed := 0;
      assert visited[0..] == visited;
      for i := 0 to |visited|
        invariant removed == i
        invariant forall path :: HasFile(tree, path) <==> path in visited[i..]
      {
        var gone := visited[i];
        DistinctRest(visited, i);
        DeleteLeaves(tree, gone);
        tree := WithoutFile(tree, gone);
        removed := removed + 1;
      }
      contents := map[];
      EmptyMatches(tree);
    }
  }

  lemma EmptyMatches(tree: Shards)
    requires forall path :: !HasFile(tree, path)
    ensures Matches(tree, map[])
  {
  }

  lemma DistinctRest<T>(s: seq<T>, i: nat)
    requires i < |s| && forall x, y | 0 <= x < y < |s| :: s[x] != s[y]
    ensures forall p :: p in s[i + 1..] <==> p in s[i..] && p != s[i]
  {
    var rest := s[i + 1..];
    assert s[i..] == [s[i]] + rest;
    assert forall y | 0 <= y < |rest| :: rest[y] == s[i + 1 + y];
    assert s[i] !in rest;
  }

  lemma DeleteLeaves(tree: Shards, gone: (string, string))
    requires HasFile(tree, gone)
    ensures forall path :: HasFile(WithoutFile(tree, gone), path) <==> HasFile(tree, path) && path != gone
  {
  }

  lemma {:induction false} DistinctCount<T>(s: seq<T>)
    requires forall x, y | 0 <= x < y < |s| :: s[x] != s[y]
    ensures |set x | x in s| == |s|
  {
    if s != [] {
      var front, last := s[..|s| - 1], s[|s| - 1];
      DistinctCount(front);
      assert s == front + [last];
      assert (set x | x in s) == (set x | x in front) + {last};
    }
  }
}
