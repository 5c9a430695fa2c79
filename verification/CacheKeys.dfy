/** What goes into a cache key, and that nothing is lost on the way into the hash. */
module CacheKeys {
  import opened Wrappers
  import FileSet
  import Lowering

  /** The fields of a job that are hashed; `env` lists the variables in key order. */
  datatype Fields = Fields(
    run: string, fix: Option<string>, glob: seq<string>, exclude: seq<string>, env: seq<(string, string)>)

  /** A hash function, and its hex rendering. */
  datatype Hasher = Hasher(digest: string -> string)

  const NUL := '\0'
  const MISSING := "<missing>"

  /** Lower-case hex digits. A real digest has 64 of them; nothing here depends on how many there are beyond two. */
  predicate IsHex(s: string) {
    |s| >= 2 && forall i | 0 <= i < |s| :: '0' <= s[i] <= '9' || 'a' <= s[i] <= 'f'
  }

  /** The ideal hash: digests are hex, and no two texts collide. */
  ghost predicate CollisionFree(h: Hasher) {
    && (forall s: string :: IsHex(h.digest(s)))
    && (forall s: string, t: string :: h.digest(s) == h.digest(t) ==> s == t)
  }

  /** An ideal hash exists: spell every character out in unary. */
  function Spelled(s: string): string {
    if s == "" then "00" else Strokes(s[0] as int) + "b" + Spelled(s[1..])
  }

  function Strokes(n: nat): string {
    if n == 0 then "" else "a" + Strokes(n - 1)
  }

  lemma {:induction false} StrokesApart(m: nat, n: nat, x: string, y: string)
    requires Strokes(m) + "b" + x == Strokes(n) + "b" + y
    ensures m == n && x == y
  {
    var l, r := Strokes(m) + "b" + x, Strokes(n) + "b" + y;
    if m > 0 && n > 0 {
      assert l[1..] == Strokes(m - 1) + "b" + x && r[1..] == Strokes(n - 1) + "b" + y;
      StrokesApart(m - 1, n - 1, x, y);
    } else {
      assert l[0] == (if m > 0 then 'a' else 'b') && r[0] == (if n > 0 then 'a' else 'b');
      assert m == 0 == n;
      assert l[1..] == x && r[1..] == y;
    }
  }

  lemma {:induction false} StrokesAreHex(n: nat)
    ensures forall i | 0 <= i < |Strokes(n)| :: Strokes(n)[i] == 'a'
  {
    if n > 0 {
      StrokesAreHex(n - 1);
    }
  }

  lemma {:induction false} SpelledIsHex(s: string)
    ensures IsHex(Spelled(s))
  {
    if s != "" {
      StrokesAreHex(s[0] as int);
      SpelledIsHex(s[1..]);
    }
  }

  lemma {:induction false} SpelledInjective(s: string, t: string)
    requires Spelled(s) == Spelled(t)
    ensures s == t
  {
    if s != "" && t != "" {
      StrokesApart(s[0] as int, t[0] as int, Spelled(s[1..]), Spelled(t[1..]));
      SpelledInjective(s[1..], t[1..]);
      assert s == [s[0]] + s[1..] && t == [t[0]] + t[1..];
    } else {
      NotJustZeros(s);
      NotJustZeros(t);
    }
  }

  lemma NotJustZeros(s: string)
    ensures s != "" ==> Spelled(s)[0] != '0'
  {
    if s != "" {
      var n := s[0] as int;
      assert n > 0 ==> Strokes(n)[0] == 'a';
    }
  }

  /** The assumption on hashes made below can be met. */
  lemma IdealHashExists() returns (h: Hasher)
    ensures CollisionFree(h)
  {
    h := Hasher(Spelled);
    forall s: string ensures IsHex(h.digest(s)) {
      SpelledIsHex(s);
    }
    forall s: string, t: string | h.digest(s) == h.digest(t) ensures s == t {
      SpelledInjective(s, t);
    }
  }

  // ---- NUL-terminated fields -------------------------------------------------------------------------------------------

  /** Each part followed by a NUL. */
  function Terminated(parts: seq<string>): string {
    FileSet.Listing(parts, NUL)
  }

  predicate NulFree(parts: seq<string>) {
    forall i | 0 <= i < |parts| :: NUL !in parts[i]
  }

  lemma {:induction false} SplitTerminated(parts: seq<string>)
    requires NulFree(parts)
    ensures FileSet.Split(Terminated(parts), NUL) == parts + [[]]
  {
    if parts != [] {
      FileSet.SplitName(parts[0], NUL, Terminated(parts[1..]));
      SplitTerminated(parts[1..]);
    }
  }

  lemma TerminatedInjective(a: seq<string>, b: seq<string>)
    requires NulFree(a) && NulFree(b) && Terminated(a) == Terminated(b)
    ensures a == b
  {
    SplitTerminated(a);
    SplitTerminated(b);
    assert (a + [[]])[..|a|] == a && (b + [[]])[..|b|] == b;
    assert |a + [[]]| == |b + [[]]|;
  }

  lemma {:induction false} TerminatedSnoc(parts: seq<string>, last: string)
    ensures Terminated(parts + [last]) == Terminated(parts) + last + [NUL]
  {
    if parts == [] {
      assert [last][1..] == [];
    } else {
      assert (parts + [last])[1..] == parts[1..] + [last];
      TerminatedSnoc(parts[1..], last);
      assert parts[0] + [NUL] + (Terminated(parts[1..]) + last + [NUL]) == parts[0] + [NUL] + Terminated(parts[1..]) + last + [NUL];
    }
  }

  /** `args_hash`: what is hashed is the terminated argument list. */
  method ArgsHash(h: Hasher, args: seq<string>) returns (hash: string)
    ensures hash == h.digest(Terminated(args))
  {
    var joined := "";
    for i := 0 to |args|
      invariant joined == Terminated(args[..i])
    {
      assert args[..i + 1] == args[..i] + [args[i]];
      TerminatedSnoc(args[..i], args[i]);
      joined := joined + args[i] + [NUL];
    }
    assert args[..|args|] == args;
    hash := h.digest(joined);
  }

  /** Argument lists without NULs hash alike only if they are the same list, order and grouping included. */
  lemma ArgsHashInjective(h: Hasher, a: seq<string>, b: seq<string>)
    requires CollisionFree(h) && NulFree(a) && NulFree(b)
    ensures h.digest(Terminated(a)) == h.digest(Terminated(b)) <==> a == b
  {
    if h.digest(Terminated(a)) == h.digest(Terminated(b)) {
      TerminatedInjective(a, b);
    }
  }

  // ---- Job fields -------------------------------------------------------------------------------------------------------

  function WithTag(tag: string, values: seq<string>): (r: seq<string>)
    ensures |r| == |values|
  {
    seq(|values|, i requires 0 <= i < |values| => tag + values[i])
  }

  function Assignments(env: seq<(string, string)>): (r: seq<string>)
    ensures |r| == |env|
  {
    seq(|env|, i requires 0 <= i < |env| => env[i].0 + "=" + env[i].1)
  }

  function OptionalField(o: Option<string>): seq<string> {
    if o.Some? then [o.value] else []
  }

  /** The lines that `args_hash_from_fields` feeds to the hasher. */
  function Lines(f: Fields): seq<string> {
    ["run:" + f.run] + WithTag("fix:", OptionalField(f.fix)) + WithTag("glob:", f.glob)
    + WithTag("exclude:", f.exclude) + WithTag("env:", Assignments(f.env))
  }

  method FieldsHash(h: Hasher, f: Fields) returns (hash: string)
    ensures hash == h.digest(Terminated(Lines(f)))
  {
    hide FileSet.Listing;
    var fed := "run:" + f.run + [NUL];
    ghost var lines := ["run:" + f.run];
    TerminatedSnoc([], "run:" + f.run);
    NothingTerminated();
    assert [] + lines == lines && "" + ("run:" + f.run) == "run:" + f.run;
    if f.fix.Some? {
      fed := fed + "fix:" + f.fix.value + [NUL];
      FedLine(lines, "fix:", f.fix.value);
    }
    assert f.fix.None? ==> lines + WithTag("fix:", OptionalField(f.fix)) == lines;
    lines := lines + WithTag("fix:", OptionalField(f.fix));
    assert fed == Terminated(lines);
    fed := Feed(fed, lines, "glob:", f.glob);
    lines := lines + WithTag("glob:", f.glob);
    fed := Feed(fed, lines, "exclude:", f.exclude);
    lines := lines + WithTag("exclude:", f.exclude);
    fed := Feed(fed, lines, "env:", Assignments(f.env));
    hash := h.digest(fed);
  }

  lemma NothingTerminated()
    ensures Terminated([]) == ""
  {
  }

  lemma FedLine(lines: seq<string>, tag: string, value: string)
    ensures Terminated(lines + [tag + value]) == Terminated(lines) + tag + value + [NUL]
    ensures WithTag(tag, [value]) == [tag + value]
  {
    TerminatedSnoc(lines, tag + value);
    assert Terminated(lines) + (tag + value) == Terminated(lines) + tag + value;
  }

  /** One of the loops over a list field. */
  method Feed(before: string, ghost lines: seq<string>, tag: string, values: seq<string>) returns (fed: string)
    requires before == Terminated(lines)
    ensures fed == Terminated(lines + WithTag(tag, values))
  {
    hide FileSet.Listing;
    fed := before;
    assert lines + WithTag(tag, []) == lines;
    for i := 0 to |values|
      invariant fed == Terminated(lines + WithTag(tag, values[..i]))
    {
      FedLine(lines + WithTag(tag, values[..i]), tag, values[i]);
      assert lines + WithTag(tag, values[..i + 1]) == lines + WithTag(tag, values[..i]) + [tag + values[i]];
      fed := fed + tag + values[i] + [NUL];
    }
    assert values[..|values|] == values;
  }

  /** No field holds a NUL, and no variable name holds `=`. */
  predicate Clean(f: Fields) {
    && NUL !in f.run && (f.fix.Some? ==> NUL !in f.fix.value)
    && NulFree(f.glob) && NulFree(f.exclude)
    && (forall i | 0 <= i < |f.env| :: NUL !in f.env[i].0 && NUL !in f.env[i].1 && '=' !in f.env[i].0)
  }

  /** The values of the lines that carry a tag. */
  function Tagged(lines: seq<string>, tag: string): seq<string> {
    if lines == [] then []
    else (if tag <= lines[0] then [lines[0][|tag|..]] else []) + Tagged(lines[1..], tag)
  }

  lemma {:induction false} TaggedConcat(a: seq<string>, b: seq<string>, tag: string)
    ensures Tagged(a + b, tag) == Tagged(a, tag) + Tagged(b, tag)
  {
    if a == [] {
      assert a + b == b;
    } else {
      assert (a + b)[1..] == a[1..] + b;
      TaggedConcat(a[1..], b, tag);
    }
  }

  lemma {:induction false} TaggedOwn(tag: string, values: seq<string>)
    ensures Tagged(WithTag(tag, values), tag) == values
  {
    if values != [] {
      TaggedOwn(tag, values[1..]);
      assert WithTag(tag, values)[1..] == WithTag(tag, values[1..]);
      assert (tag + values[0])[|tag|..] == values[0];
    }
  }

  lemma {:induction false} TaggedOther(tag: string, other: string, values: seq<string>)
    requires |tag| > 1 && |other| > 1 && tag[1] != other[1]
    ensures Tagged(WithTag(other, values), tag) == []
  {
    if values != [] {
      TaggedOther(tag, other, values[1..]);
      assert WithTag(other, values)[1..] == WithTag(other, values[1..]);
      assert (other + values[0])[1] == other[1];
    }
  }

  /** The lines give the fields back. */
  lemma LinesDecode(f: Fields)
    ensures Tagged(Lines(f), "run:") == [f.run]
    ensures Tagged(Lines(f), "fix:") == OptionalField(f.fix)
    ensures Tagged(Lines(f), "glob:") == f.glob
    ensures Tagged(Lines(f), "exclude:") == f.exclude
    ensures Tagged(Lines(f), "env:") == Assignments(f.env)
  {
    hide Tagged, WithTag, OptionalField, Assignments, Lines;
    var r, x, g, e, n := [f.run], OptionalField(f.fix), f.glob, f.exclude, Assignments(f.env);
    LinesParts(f);
    TaggedParts(r, x, g, e, n, "run:");
    TaggedParts(r, x, g, e, n, "fix:");
    TaggedParts(r, x, g, e, n, "glob:");
    TaggedParts(r, x, g, e, n, "exclude:");
    TaggedParts(r, x, g, e, n, "env:");
  }

  lemma LinesParts(f: Fields)
    ensures Lines(f) == WithTag("run:", [f.run]) + WithTag("fix:", OptionalField(f.fix)) + WithTag("glob:", f.glob)
                        + WithTag("exclude:", f.exclude) + WithTag("env:", Assignments(f.env))
  {
    RunLine(f.run);
  }

  function Only(keep: bool, values: seq<string>): seq<string> {
    if keep then values else []
  }

  lemma OneKept(k: seq<bool>, r: seq<string>, x: seq<string>, g: seq<string>, e: seq<string>, n: seq<string>)
    requires |k| == 5 && forall i, j | 0 <= i < j < 5 :: !(k[i] && k[j])
    ensures Only(k[0], r) + Only(k[1], x) + Only(k[2], g) + Only(k[3], e) + Only(k[4], n) ==
            if k[0] then r else if k[1] then x else if k[2] then g else if k[3] then e else Only(k[4], n)
  {
  }

  lemma TaggedParts(r: seq<string>, x: seq<string>, g: seq<string>, e: seq<string>, n: seq<string>, tag: string)
    requires tag in ["run:", "fix:", "glob:", "exclude:", "env:"]
    ensures Tagged(WithTag("run:", r) + WithTag("fix:", x) + WithTag("glob:", g) + WithTag("exclude:", e) + WithTag("env:", n), tag)
            == if tag[1] == 'u' then r else if tag[1] == 'i' then x else if tag[1] == 'l' then g else if tag[1] == 'x' then e else n
  {
    hide Tagged, WithTag, Only;
    var c := tag[1];
    assert c == 'u' || c == 'i' || c == 'l' || c == 'x' || c == 'n';
    FiveTagged(WithTag("run:", r), WithTag("fix:", x), WithTag("glob:", g), WithTag("exclude:", e), WithTag("env:", n), tag);
    TaggedValues(tag, "run:", r);
    TaggedValues(tag, "fix:", x);
    TaggedValues(tag, "glob:", g);
    TaggedValues(tag, "exclude:", e);
    TaggedValues(tag, "env:", n);
    OneKept([c == 'u', c == 'i', c == 'l', c == 'x', c == 'n'], r, x, g, e, n);
    assert Only(true, n) == n by { OnlyKept(n); }
  }

  lemma FiveTagged(r: seq<string>, x: seq<string>, g: seq<string>, e: seq<string>, n: seq<string>, tag: string)
    ensures Tagged(r + x + g + e + n, tag) == Tagged(r, tag) + Tagged(x, tag) + Tagged(g, tag) + Tagged(e, tag) + Tagged(n, tag)
  {
    hide Tagged;
    TaggedConcat(r + x + g + e, n, tag);
    TaggedConcat(r + x + g, e, tag);
    TaggedConcat(r + x, g, tag);
    TaggedConcat(r, x, tag);
  }

  lemma OnlyKept(values: seq<string>)
    ensures Only(true, values) == values
  {
  }

  lemma RunLine(run: string)
    ensures WithTag("run:", [run]) == ["run:" + run]
  {
  }

  lemma TaggedValues(tag: string, other: string, values: seq<string>)
    requires |tag| > 1 && |other| > 1 && (tag == other || tag[1] != other[1])
    ensures Tagged(WithTag(other, values), tag) == Only(tag[1] == other[1], values)
  {
    if tag == other {
      TaggedOwn(tag, values);
    } else {
      TaggedOther(tag, other, values);
    }
  }

  /** A text splits at the first occurrence of a separator in one way. */
  lemma SeparatorSplits(c: char, a: string, x: string, b: string, y: string)
    requires c !in a && c !in b && a + [c] + x == b + [c] + y
    ensures a == b && x == y
  {
    var s := a + [c] + x;
    assert s[|a|] == c && s[|b|] == c;
    assert forall i | 0 <= i < |a| :: s[i] == a[i];
    assert forall i | 0 <= i < |b| :: s[i] == b[i];
    assert |a| == |b|;
    assert a == s[..|a|] == b;
    assert x == s[|a| + 1..] == y;
  }

  lemma LinesNulFree(f: Fields)
    requires Clean(f)
    ensures NulFree(Lines(f))
  {
  }

  /** Jobs whose fields hold no NULs, and whose variable names hold no `=`, hash alike only if all fields are equal. */
  lemma FieldsHashInjective(h: Hasher, f: Fields, g: Fields)
    requires CollisionFree(h) && Clean(f) && Clean(g)
    ensures h.digest(Terminated(Lines(f))) == h.digest(Terminated(Lines(g))) <==> f == g
  {
    hide Lines, Tagged, FileSet.Listing;
    if h.digest(Terminated(Lines(f))) == h.digest(Terminated(Lines(g))) {
      LinesNulFree(f);
      LinesNulFree(g);
      TerminatedInjective(Lines(f), Lines(g));
      LinesDecode(f);
      LinesDecode(g);
      assert f.run == [f.run][0] == [g.run][0] == g.run;
      assert |f.env| == |g.env|;
      forall i | 0 <= i < |f.env| ensures f.env[i] == g.env[i] {
        assert Assignments(f.env)[i] == Assignments(g.env)[i];
        SeparatorSplits('=', f.env[i].0, f.env[i].1, g.env[i].0, g.env[i].1);
      }
      assert f.env == g.env;
    }
  }

  // ---- File sets -------------------------------------------------------------------------------------------------------

  /** Contents of the files that exist. */
  type Disk = map<string, string>

  function InsertPath(p: string, paths: seq<string>): seq<string> {
    if paths == [] then [p]
    else if Lowering.Less(paths[0], p) then [paths[0]] + InsertPath(p, paths[1..])
    else [p] + paths
  }

  /** `paths.sort()`. */
  function SortPaths(paths: seq<string>): seq<string> {
    if paths == [] then [] else InsertPath(paths[0], SortPaths(paths[1..]))
  }

  function FileDigest(h: Hasher, disk: Disk, path: string): string {
    if path in disk then h.digest(disk[path]) else MISSING
  }

  /** Path and digest, alternating. */
  function SetParts(h: Hasher, disk: Disk, sorted: seq<string>): seq<string> {
    if sorted == [] then []
    else
      var last := |sorted| - 1;
      SetParts(h, disk, sorted[..last]) + [sorted[last], FileDigest(h, disk, sorted[last])]
  }

  function ContentHash(h: Hasher, disk: Disk, files: seq<string>): string {
    h.digest(Terminated(SetParts(h, disk, SortPaths(files))))
  }

  method HashFileSet(h: Hasher, disk: Disk, files: seq<string>) returns (hash: string)
    ensures hash == ContentHash(h, disk, files)
  {
    hide FileSet.Listing;
    var paths := SortPaths(files);
    var fed := "";
    NothingTerminated();
    for i := 0 to |paths|
      invariant fed == Terminated(SetParts(h, disk, paths[..i]))
    {
      assert paths[..i + 1][..i] == paths[..i];
      var before := SetParts(h, disk, paths[..i]);
      var digest := if paths[i] in disk then h.digest(disk[paths[i]]) else MISSING;
      TerminatedSnoc(before, paths[i]);
      TerminatedSnoc(before + [paths[i]], digest);
      assert before + [paths[i]] + [digest] == before + [paths[i], digest];
      fed := fed + paths[i] + [NUL];
      fed := fed + digest + [NUL];
    }
    assert paths[..|paths|] == paths;
    hash := h.digest(fed);
  }

  predicate AtMost(a: string, b: string) {
    a == b || Lowering.Less(a, b)
  }

  predicate Sorted(paths: seq<string>) {
    forall x, y | 0 <= x < y < |paths| :: AtMost(paths[x], paths[y])
  }

  lemma AtMostOrder(a: string, b: string, c: string)
    ensures AtMost(a, b) || AtMost(b, a)
    ensures AtMost(a, b) && AtMost(b, a) ==> a == b
    ensures AtMost(a, b) && AtMost(b, c) ==> AtMost(a, c)
    ensures Lowering.Less(a, b) <==> !AtMost(b, a)
  {
    Lowering.LessTotal(a, b);
    if Lowering.Less(a, b) && Lowering.Less(b, c) {
      Lowering.LessTransitive(a, b, c);
    }
  }

  lemma {:induction false} InsertedPaths(p: string, paths: seq<string>)
    ensures multiset(InsertPath(p, paths)) == multiset(paths) + multiset{p}
  {
    if paths != [] {
      InsertedPaths(p, paths[1..]);
      assert paths == [paths[0]] + paths[1..];
    }
  }

  lemma {:induction false} InsertSorted(p: string, paths: seq<string>)
    requires Sorted(paths)
    ensures Sorted(InsertPath(p, paths))
  {
    hide AtMost, Lowering.Less;
    if paths == [] {
      assert InsertPath(p, paths) == [p];
    } else {
      var first, rest := paths[0], paths[1..];
      AtMostOrder(first, p, p);
      if Lowering.Less(first, p) {
        InsertSorted(p, rest);
        InsertedPaths(p, rest);
        var tail := InsertPath(p, rest);
        forall y | 0 <= y < |tail| ensures AtMost(first, tail[y]) {
          assert tail[y] in multiset(tail);
          AtMostOrder(p, first, first);
          if tail[y] != p {
            assert tail[y] in rest;
          }
        }
        SortedCons(first, tail);
      } else {
        forall y | 0 <= y < |paths| ensures AtMost(p, paths[y]) {
          AtMostOrder(p, first, paths[y]);
          AtMostOrder(first, first, first);
        }
        SortedCons(p, paths);
      }
    }
  }

  lemma SortedCons(first: string, rest: seq<string>)
    requires Sorted(rest) && forall y | 0 <= y < |rest| :: AtMost(first, rest[y])
    ensures Sorted([first] + rest)
  {
    hide AtMost;
  }

  lemma {:induction false} SortPathsSorts(paths: seq<string>)
    ensures Sorted(SortPaths(paths)) && multiset(SortPaths(paths)) == multiset(paths)
  {
    hide Sorted, InsertPath;
    if paths == [] {
      NoneSorted();
    } else {
      SortPathsSorts(paths[1..]);
      InsertSorted(paths[0], SortPaths(paths[1..]));
      InsertedPaths(paths[0], SortPaths(paths[1..]));
      assert paths == [paths[0]] + paths[1..];
    }
  }

  lemma NoneSorted()
    ensures Sorted([])
  {
  }

  lemma SameLeast(a: seq<string>, b: seq<string>)
    requires Sorted(a) && Sorted(b) && multiset(a) == multiset(b) && a != []
    ensures b != [] && a[0] == b[0]
  {
    hide AtMost;
    assert a[0] in multiset(b);
    assert b != [];
    assert b[0] in multiset(a);
    var x :| 0 <= x < |b| && b[x] == a[0];
    var y :| 0 <= y < |a| && a[y] == b[0];
    AtMostOrder(a[0], b[0], b[0]);
  }

  lemma TailElements(a: seq<string>)
    requires a != []
    ensures multiset(a[1..]) == multiset(a) - multiset{a[0]}
  {
    assert a == [a[0]] + a[1..];
  }

  lemma {:induction false} SortedUnique(a: seq<string>, b: seq<string>)
    requires Sorted(a) && Sorted(b) && multiset(a) == multiset(b)
    ensures a == b
    decreases |a|
  {
    hide AtMost;
    if a == [] {
      assert |multiset(b)| == 0;
    } else {
      SameLeast(a, b);
      TailElements(a);
      TailElements(b);
      SortedUnique(a[1..], b[1..]);
      assert a == [a[0]] + a[1..] && b == [b[0]] + b[1..];
    }
  }

  lemma SortedSame(a: seq<string>, b: seq<string>)
    requires multiset(a) == multiset(b)
    ensures SortPaths(a) == SortPaths(b)
  {
    SortPathsSorts(a);
    SortPathsSorts(b);
    SortedUnique(SortPaths(a), SortPaths(b));
  }

  lemma DigestTells(h: Hasher, disk: Disk, disk': Disk, path: string)
    requires CollisionFree(h)
    ensures FileDigest(h, disk, path) == FileDigest(h, disk', path) <==>
            (path in disk <==> path in disk') && (path in disk ==> disk[path] == disk'[path])
    ensures NUL !in FileDigest(h, disk, path)
  {
    NotMissing(h, disk, path);
    NotMissing(h, disk', path);
  }

  /** No digest is the sentinel for a missing file. */
  lemma NotMissing(h: Hasher, disk: Disk, path: string)
    requires CollisionFree(h)
    ensures path in disk <==> FileDigest(h, disk, path) != MISSING
    ensures NUL !in FileDigest(h, disk, path)
  {
    assert MISSING[0] == '<';
    if path in disk {
      assert IsHex(h.digest(disk[path]));
      assert h.digest(disk[path])[0] != '<';
    }
  }

  /** The same files, as far as the listed paths show. */
  ghost predicate SameContents(disk: Disk, disk': Disk, files: seq<string>) {
    forall p | p in files :: (p in disk <==> p in disk') && (p in disk ==> disk[p] == disk'[p])
  }

  /** What is hashed of a set of files depends on their contents only. */
  lemma {:induction false} ContentsAlone(h: Hasher, disk: Disk, disk': Disk, files: seq<string>)
    requires SameContents(disk, disk', files)
    ensures SetParts(h, disk, files) == SetParts(h, disk', files)
  {
    if files != [] {
      var last := |files| - 1;
      ContentsAlone(h, disk, disk', files[..last]);
      assert files[last] in files;
    }
  }

  lemma {:induction false} PartsNulFree(h: Hasher, disk: Disk, files: seq<string>)
    requires CollisionFree(h) && NulFree(files)
    ensures NulFree(SetParts(h, disk, files)) && |SetParts(h, disk, files)| == 2 * |files|
  {
    hide FileDigest, CollisionFree;
    if files != [] {
      var last := |files| - 1;
      PartsNulFree(h, disk, files[..last]);
      DigestTells(h, disk, disk, files[last]);
    }
  }

  lemma PairsAppended(x: seq<string>, y: seq<string>, a: string, b: string, c: string, d: string)
    requires |x| == |y|
    ensures x + [a, b] == y + [c, d] <==> x == y && a == c && b == d
  {
    var s, t := x + [a, b], y + [c, d];
    assert s[..|x|] == x && t[..|y|] == y;
    assert s[|x|] == a && s[|x| + 1] == b && t[|y|] == c && t[|y| + 1] == d;
  }

  lemma {:induction false} PartsTell(h: Hasher, disk: Disk, disk': Disk, a: seq<string>, b: seq<string>)
    requires CollisionFree(h) && NulFree(a) && NulFree(b)
    ensures SetParts(h, disk, a) == SetParts(h, disk', b) <==> a == b && SameContents(disk, disk', a)
    decreases |a|
  {
    hide FileDigest, CollisionFree, NulFree, SameContents;
    PartsNulFree(h, disk, a);
    PartsNulFree(h, disk', b);
    NoContents(disk, disk');
    if a != [] && |a| == |b| {
      var last := |a| - 1;
      var p, q := a[..last], b[..last];
      assert a == p + [a[last]] && b == q + [b[last]];
      FrontNulFree(a);
      FrontNulFree(b);
      PartsTell(h, disk, disk', p, q);
      PartsNulFree(h, disk, p);
      PartsNulFree(h, disk', q);
      PairsAppended(SetParts(h, disk, p), SetParts(h, disk', q), a[last], FileDigest(h, disk, a[last]),
                    b[last], FileDigest(h, disk', b[last]));
      DigestTells(h, disk, disk', a[last]);
      SameSnoc(disk, disk', p, a[last]);
      OneContent(disk, disk', a[last]);
    }
  }

  lemma NoContents(disk: Disk, disk': Disk)
    ensures SameContents(disk, disk', [])
  {
  }

  lemma OneContent(disk: Disk, disk': Disk, p: string)
    ensures SameContents(disk, disk', [p]) <==> (p in disk <==> p in disk') && (p in disk ==> disk[p] == disk'[p])
  {
    assert forall q :: q in [p] <==> q == p;
  }

  lemma FrontNulFree(parts: seq<string>)
    requires parts != [] && NulFree(parts)
    ensures NulFree(parts[..|parts| - 1])
  {
  }

  lemma SameSnoc(disk: Disk, disk': Disk, files: seq<string>, last: string)
    ensures SameContents(disk, disk', files + [last]) <==> SameContents(disk, disk', files) && SameContents(disk, disk', [last])
  {
    assert forall p :: p in files + [last] <==> p in files || p == last;
  }

  lemma NulFreeSorted(files: seq<string>)
    requires NulFree(files)
    ensures NulFree(SortPaths(files))
    ensures forall p :: p in SortPaths(files) <==> p in files
  {
    SortPathsSorts(files);
    var sorted := SortPaths(files);
    forall p ensures p in sorted <==> p in files {
      assert p in multiset(sorted) <==> p in multiset(files);
    }
    forall i | 0 <= i < |sorted| ensures NUL !in sorted[i] {
      assert sorted[i] in files;
    }
  }

  /** Two file sets hash alike exactly when they list the same paths, in any order, and every path has the same content. */
  lemma ContentHashExact(h: Hasher, disk: Disk, disk': Disk, a: seq<string>, b: seq<string>)
    requires CollisionFree(h) && NulFree(a) && NulFree(b)
    ensures ContentHash(h, disk, a) == ContentHash(h, disk', b) <==> multiset(a) == multiset(b) && SameContents(disk, disk', a)
  {
    hide Sorted, FileSet.Listing, SetParts, SortPaths, NulFree;
    var x, y := SortPaths(a), SortPaths(b);
    NulFreeSorted(a);
    NulFreeSorted(b);
    SortPathsSorts(a);
    SortPathsSorts(b);
    PartsTell(h, disk, disk', x, y);
    PartsNulFree(h, disk, x);
    PartsNulFree(h, disk', y);
    if multiset(a) == multiset(b) {
      SortedSame(a, b);
    }
    if ContentHash(h, disk, a) == ContentHash(h, disk', b) {
      TerminatedInjective(SetParts(h, disk, x), SetParts(h, disk', y));
    }
  }

  // ---- The key -----------------------------------------------------------------------------------------------------------

  datatype CacheKey = CacheKey(content: string, tool: string, args: string)

  predicate WellFormed(k: CacheKey) {
    IsHex(k.content) && IsHex(k.tool) && IsHex(k.args)
  }

  /** `relative_path`: the shard directory and the file name in it. */
  function RelativePath(k: CacheKey): (string, string)
    requires WellFormed(k)
  {
    (k.tool[..2], k.tool[2..] + "__" + k.content + "__" + k.args + ".json")
  }

  /** Distinct keys are stored in distinct files. */
  lemma RelativePathInjective(k: CacheKey, l: CacheKey)
    requires WellFormed(k) && WellFormed(l) && RelativePath(k) == RelativePath(l)
    ensures k == l
  {
    hide IsHex;
    PathParts(k);
    PathParts(l);
    SeparatorSplits('_', k.tool[2..], "_" + k.content + "_" + "_" + k.args + ".json",
                    l.tool[2..], "_" + l.content + "_" + "_" + l.args + ".json");
    Unprefixed(k.content + "_" + "_" + k.args + ".json", l.content + "_" + "_" + l.args + ".json");
    SeparatorSplits('_', k.content, "_" + k.args + ".json", l.content, "_" + l.args + ".json");
    Unprefixed(k.args + ".json", l.args + ".json");
    assert k.args == (k.args + ".json")[..|k.args|] && l.args == (l.args + ".json")[..|l.args|];
    assert |k.args + ".json"| == |l.args + ".json"|;
    assert k.tool == k.tool[..2] + k.tool[2..] && l.tool == l.tool[..2] + l.tool[2..];
  }

  lemma Unprefixed(x: string, y: string)
    requires "_" + x == "_" + y
    ensures x == y
  {
    assert ("_" + x)[1..] == x && ("_" + y)[1..] == y;
  }

  lemma PathParts(k: CacheKey)
    requires WellFormed(k)
    ensures |k.tool| >= 2 && '_' !in k.tool[2..] && '_' !in k.content && '_' !in k.args
    ensures RelativePath(k).1 == k.tool[2..] + ['_'] + ("_" + k.content + "_" + "_" + k.args + ".json")
    ensures "_" + k.content + "_" + "_" + k.args + ".json" == "_" + (k.content + ['_'] + ("_" + k.args + ".json"))
    ensures k.content + "_" + "_" + k.args + ".json" == k.content + ['_'] + ("_" + k.args + ".json")
    ensures "_" + k.args + ".json" == "_" + (k.args + ".json")
    ensures "_" + k.content + "_" + "_" + k.args + ".json" == "_" + (k.content + "_" + "_" + k.args + ".json")
  {
    assert "__" == "_" + "_";
  }
}
