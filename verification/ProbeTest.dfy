/** How far the probe test for overlapping globs can be trusted, and the network rule. */
module ProbeTest {
  import opened Dag
  import opened DagTheory
  import opened Text

  // ---- Where it is pessimistic --------------------------------------------------------------------------------

  predicate Literal(patterns: seq<string>) {
    forall p | p in patterns :: '*' !in p
  }

  /** The list matches the files it spells out and no others, as patterns without metacharacters do. */
  ghost predicate MatchesItself(globs: GlobEngine, patterns: seq<string>) {
    forall f: string :: IsMatch(globs, patterns, f) <==> f in patterns
  }

  /** Every pattern matches its own probe. */
  predicate MatchesItsProbes(globs: GlobEngine, patterns: seq<string>) {
    forall p | p in patterns :: IsMatch(globs, patterns, ProbeFilename(p))
  }

  ghost predicate ShareFile(globs: GlobEngine, writer: seq<string>, other: seq<string>) {
    exists f: string :: IsMatch(globs, writer, f) && IsMatch(globs, other, f)
  }

  lemma ProbeOfLiteral(p: string)
    requires '*' !in p
    ensures ProbeFilename(p) == p
  {
    AbsentCharacter(p, "**", 0);
    ReplaceAbsent(p, "**", "a/a");
    AbsentCharacter(p, "*", 0);
    ReplaceAbsent(p, "*", "a");
  }

  /** A shared file is never missed when either side is spelled out without `*`. */
  lemma LiteralSideIsPessimistic(globs: GlobEngine, writer: seq<string>, other: seq<string>, f: string)
    requires || (Literal(writer) && MatchesItself(globs, writer))
             || (Literal(other) && MatchesItself(globs, other))
    requires IsMatch(globs, writer, f) && IsMatch(globs, other, f)
    ensures GlobsetsOverlap(globs, writer, other)
  {
    if Literal(writer) && MatchesItself(globs, writer) {
      assert f in writer;
      ProbeOfLiteral(f);
    } else {
      assert f in other;
      ProbeOfLiteral(f);
    }
  }

  /** Where patterns match their own probes, an overlap that the test reports is real: the probe is a shared file. */
  lemma OverlapIsReal(globs: GlobEngine, writer: seq<string>, other: seq<string>)
    requires MatchesItsProbes(globs, writer) && MatchesItsProbes(globs, other)
    requires GlobsetsOverlap(globs, writer, other)
    ensures ShareFile(globs, writer, other)
  {
    if p :| p in other && IsMatch(globs, writer, ProbeFilename(p)) {
      assert IsMatch(globs, other, ProbeFilename(p));
    } else {
      var q :| q in writer && IsMatch(globs, other, ProbeFilename(q));
      assert IsMatch(globs, writer, ProbeFilename(q));
    }
  }

  /** With one side spelled out and the other matching its own probes, the test is exact. */
  lemma ProbeTestExact(globs: GlobEngine, writer: seq<string>, other: seq<string>)
    requires || (Literal(writer) && MatchesItself(globs, writer) && MatchesItsProbes(globs, other))
             || (Literal(other) && MatchesItself(globs, other) && MatchesItsProbes(globs, writer))
    ensures GlobsetsOverlap(globs, writer, other) <==> ShareFile(globs, writer, other)
  {
    if Literal(writer) && MatchesItself(globs, writer) && MatchesItsProbes(globs, other) {
      LiteralMatchesProbes(globs, writer);
    } else {
      LiteralMatchesProbes(globs, other);
    }
    if GlobsetsOverlap(globs, writer, other) {
      OverlapIsReal(globs, writer, other);
    }
    if ShareFile(globs, writer, other) {
      var f :| IsMatch(globs, writer, f) && IsMatch(globs, other, f);
      LiteralSideIsPessimistic(globs, writer, other, f);
    }
  }

  lemma LiteralMatchesProbes(globs: GlobEngine, patterns: seq<string>)
    requires Literal(patterns) && MatchesItself(globs, patterns)
    ensures MatchesItsProbes(globs, patterns)
  {
    forall p | p in patterns ensures IsMatch(globs, patterns, ProbeFilename(p)) {
      ProbeOfLiteral(p);
    }
  }

  /** Two jobs that share a file which one of them writes get an edge, if either spells its globs out. */
  lemma SpelledOutJobsAreOrdered(globs: GlobEngine, jobs: seq<Job>, i: nat, j: nat, f: string)
    requires i < |jobs| && j < |jobs| && i != j
    requires var writer, other := jobs[i].writeGlobs, jobs[j].readGlobs + jobs[j].writeGlobs;
             && ((Literal(writer) && MatchesItself(globs, writer)) || (Literal(other) && MatchesItself(globs, other)))
             && IsMatch(globs, writer, f) && IsMatch(globs, other, f)
    ensures var g := DagOf(globs, jobs); |g.nodes| == |jobs| && HasEdge(g, i, j) != HasEdge(g, j, i)
  {
    LiteralSideIsPessimistic(globs, jobs[i].writeGlobs, jobs[j].readGlobs + jobs[j].writeGlobs, f);
    OneEdgePerConflict(globs, jobs, i, j);
  }

  // ---- Where it is not ------------------------------------------------------------------------------------------

  /**
   * A job writing `dir*ext` and a job reading `**` + `/base ext` can share the file `dir base ext`. They conflict exactly
   * when one of the two sets happens to match the other's probe.
   */
  lemma ProbeHeuristicMissesOverlap(globs: GlobEngine, writer: Job, reader: Job, dir: string, base: string, ext: string)
    requires '*' !in dir + base + ext
    requires writer.writeGlobs == [dir + "*" + ext] && writer.readGlobs == [] && !writer.network
    requires reader.readGlobs == ["**/" + base + ext] && reader.writeGlobs == []
    ensures PairConflicts(globs, writer, reader) <==>
            IsMatch(globs, writer.writeGlobs, "a/a/" + base + ext) || IsMatch(globs, reader.readGlobs, dir + "a" + ext)
  {
    hide ReplaceAll, ProbeFilename;
    ProbeOfStar(dir, ext);
    ProbeOfDoubleStar("/" + base + ext);
    assert "**" + ("/" + base + ext) == "**/" + base + ext;
    assert "a/a" + ("/" + base + ext) == "a/a/" + base + ext;
    var p, q := dir + "*" + ext, "**/" + base + ext;
    assert reader.readGlobs + reader.writeGlobs == [q];
    assert p in writer.writeGlobs && q in [q];
    assert forall x | x in writer.writeGlobs :: x == p;
    assert forall x | x in [q] :: x == q;
  }

  lemma ProbeOfStar(dir: string, ext: string)
    requires '*' !in dir && '*' !in ext
    ensures ProbeFilename(dir + "*" + ext) == dir + "a" + ext
  {
    var s := dir + "*" + ext;
    forall k: nat | k <= |s| ensures !OccursAt(s, "**", k) {
      if k + 2 <= |s| {
        assert s[k..k + 2][1] == s[k + 1] && s[k..k + 2][0] == s[k];
        assert k < |dir| ==> s[k] == dir[k];
        assert k > |dir| ==> s[k] == ext[k - |dir| - 1];
        assert k == |dir| ==> s[k + 1] == ext[0];
      }
    }
    ReplaceAbsent(s, "**", "a/a");
    forall k: nat | k < |dir| ensures !OccursAt(s, "*", k) {
      assert s[k..k + 1][0] == s[k] == dir[k];
    }
    AbsentCharacter(ext, "*", 0);
    ReplaceSingle(dir, "*", ext, "a");
  }

  lemma ProbeOfDoubleStar(rest: string)
    requires '*' !in rest
    ensures ProbeFilename("**" + rest) == "a/a" + rest
  {
    AbsentCharacter(rest, "**", 0);
    ReplaceSingle("", "**", rest, "a/a");
    assert "" + "**" + rest == "**" + rest && "" + "a/a" + rest == "a/a" + rest;
    AbsentCharacter("a/a" + rest, "*", 0);
    ReplaceAbsent("a/a" + rest, "*", "a");
  }

  // ---- At an input ------------------------------------------------------------------------------------------------

  /** A plain matcher: `*` stands for any text, and a double star before a slash for any directories or none. */
  predicate Glob(p: string, f: string)
    decreases |p|
  {
    if p == "" then f == ""
    else if "**/" <= p then
      Glob(p[3..], f) || exists k | 0 <= k < |f| :: f[k] == '/' && Glob(p[3..], f[k + 1..])
    else if p[0] == '*' then exists k | 0 <= k <= |f| :: Glob(p[1..], f[k..])
    else f != "" && f[0] == p[0] && Glob(p[1..], f[1..])
  }

  const PLAIN := GlobEngine((patterns: seq<string>) => true,
                            (patterns: seq<string>, f: string) => exists p | p in patterns :: Glob(p, f))

  lemma {:induction false} GlobAfter(p: string, q: string, f: string)
    requires '*' !in p
    ensures Glob(p + q, f) <==> p <= f && Glob(q, f[|p|..])
    decreases |p|
  {
    if p == "" {
      assert p + q == q && f[0..] == f;
    } else {
      assert (p + q)[0] == p[0] && (p + q)[1..] == p[1..] + q;
      if f != "" {
        GlobAfter(p[1..], q, f[1..]);
        assert p == [p[0]] + p[1..] && f == [f[0]] + f[1..];
        if |p| <= |f| {
          assert f[1..][|p| - 1..] == f[|p|..];
        }
      }
    }
  }

  lemma GlobLiteral(p: string, f: string)
    requires '*' !in p
    ensures Glob(p, f) <==> p == f
  {
    GlobAfter(p, "", f);
    assert p + "" == p;
  }

  lemma GlobLiterals(p: string)
    requires '*' !in p
    ensures forall f: string :: Glob(p, f) <==> p == f
  {
    hide Glob;
    forall f: string {
      GlobLiteral(p, f);
    }
  }

  lemma StarAlone(rest: string, f: string)
    requires '*' !in rest
    ensures Glob("*" + rest, f) <==> exists k | 0 <= k <= |f| :: Glob(rest, f[k..])
  {
    hide Glob;
    var p := "*" + rest;
    assert p[0] == '*' && p[1..] == rest;
    assert !("**/" <= p) by {
      assert '*' in "**/"[1..];
    }
    StarUnfolds(p, f);
  }

  lemma StarUnfolds(p: string, f: string)
    requires p != "" && p[0] == '*' && !("**/" <= p)
    ensures Glob(p, f) <==> exists k | 0 <= k <= |f| :: Glob(p[1..], f[k..])
  {
  }

  predicate EndsIn(f: string, ext: string) {
    |ext| <= |f| && f[|f| - |ext|..] == ext
  }

  lemma GlobSuffix(ext: string, f: string)
    requires '*' !in ext
    ensures Glob("*" + ext, f) <==> EndsIn(f, ext)
  {
    hide Glob;
    StarAlone(ext, f);
    GlobLiterals(ext);
    if EndsIn(f, ext) {
      assert Glob(ext, f[|f| - |ext|..]);
    }
  }

  lemma GlobStar(dir: string, ext: string, f: string)
    requires '*' !in dir && '*' !in ext
    ensures Glob(dir + "*" + ext, f) <==> dir <= f && EndsIn(f[|dir|..], ext)
  {
    hide Glob, EndsIn;
    Appended(dir, "*", ext);
    GlobAfter(dir, "*" + ext, f);
    if dir <= f {
      GlobSuffix(ext, f[|dir|..]);
    }
  }

  lemma Appended(a: string, b: string, c: string)
    ensures a + (b + c) == a + b + c
  {
  }

  predicate InDirectory(name: string, f: string, k: nat) {
    k < |f| && f[k] == '/' && f[k + 1..] == name
  }

  lemma GlobAnywhere(name: string, f: string)
    requires '*' !in name
    ensures Glob("**/" + name, f) <==> f == name || exists k: nat | k < |f| :: InDirectory(name, f, k)
  {
    var p := "**/" + name;
    assert p[3..] == name && "**/" <= p;
    GlobLiterals(name);
    assert Glob(p, f) <==> Glob(p[3..], f) || exists k | 0 <= k < |f| :: f[k] == '/' && Glob(p[3..], f[k + 1..]);
    if k: nat :| k < |f| && InDirectory(name, f, k) {
      assert f[k] == '/' && Glob(p[3..], f[k + 1..]);
    }
    if k :| 0 <= k < |f| && f[k] == '/' && Glob(p[3..], f[k + 1..]) {
      assert InDirectory(name, f, k);
    }
  }

  /** The plain matcher meets the assumptions made above on lists without `*`. */
  lemma PlainLiteralsMatchThemselves(patterns: seq<string>)
    requires Literal(patterns)
    ensures MatchesItself(PLAIN, patterns)
  {
    forall f: string ensures IsMatch(PLAIN, patterns, f) <==> f in patterns {
      forall p | p in patterns ensures Glob(p, f) <==> p == f {
        GlobLiteral(p, f);
      }
    }
  }

  const TS_WRITER := Job("fmt", 0, [], ["src/*.ts"], false, false)
  const FOO_READER := Job("lint", 0, ["**/foo.ts"], [], false, false)

  // What the plain matcher says about the file and about the probes of the two patterns.

  lemma WriterMatches()
    ensures Glob("src/*.ts", "src/foo.ts") && !Glob("src/*.ts", "a/a/foo.ts")
  {
    hide Glob;
    assert "src/" + "*" + ".ts" == "src/*.ts";
    GlobStar("src/", ".ts", "src/foo.ts");
    GlobStar("src/", ".ts", "a/a/foo.ts");
    assert "src/foo.ts"[4..] == "foo.ts" && "foo.ts"[3..] == ".ts";
    assert "a/a/foo.ts"[0] != "src/"[0];
  }

  lemma ReaderMatches()
    ensures Glob("**/foo.ts", "src/foo.ts") && !Glob("**/foo.ts", "src/a.ts")
  {
    hide Glob;
    var s := "src/a.ts";
    assert "**/" + "foo.ts" == "**/foo.ts";
    GlobAnywhere("foo.ts", "src/foo.ts");
    GlobAnywhere("foo.ts", s);
    assert InDirectory("foo.ts", "src/foo.ts", 3);
    forall k: nat | k < |s| ensures !InDirectory("foo.ts", s, k) {
      assert |s[k + 1..]| == 7 - k;
      assert s[1] == 'r';
    }
  }

  lemma FooConflict()
    ensures !PairConflicts(PLAIN, TS_WRITER, FOO_READER)
  {
    hide Glob, ProbeFilename, IsMatch, PairConflicts;
    WriterMatches();
    ReaderMatches();
    OnePattern("src/*.ts");
    OnePattern("**/foo.ts");
    assert "a/a/" + "foo" + ".ts" == "a/a/foo.ts" && "src/" + "a" + ".ts" == "src/a.ts";
    assert "src/" + "*" + ".ts" == "src/*.ts" && "**/" + "foo" + ".ts" == "**/foo.ts";
    ProbeHeuristicMissesOverlap(PLAIN, TS_WRITER, FOO_READER, "src/", "foo", ".ts");
  }

  lemma FooShared()
    ensures ShareFile(PLAIN, TS_WRITER.writeGlobs, FOO_READER.readGlobs + FOO_READER.writeGlobs)
  {
    hide Glob, IsMatch;
    WriterMatches();
    ReaderMatches();
    OnePattern("src/*.ts");
    OnePattern("**/foo.ts");
    assert FOO_READER.readGlobs + FOO_READER.writeGlobs == ["**/foo.ts"];
    assert IsMatch(PLAIN, ["src/*.ts"], "src/foo.ts") && IsMatch(PLAIN, ["**/foo.ts"], "src/foo.ts");
  }

  // `src/*.ts` and a `foo.ts` in any directory share `src/foo.ts`, and get no edge.
  lemma FooIsMissed()
    ensures ShareFile(PLAIN, TS_WRITER.writeGlobs, FOO_READER.readGlobs + FOO_READER.writeGlobs)
    ensures !PairConflicts(PLAIN, TS_WRITER, FOO_READER)
    ensures var g := DagOf(PLAIN, [TS_WRITER, FOO_READER]);
            |g.nodes| == 2 && !HasEdge(g, 0, 1) && !HasEdge(g, 1, 0)
  {
    hide ShareFile, DagOf, PairConflicts, HasEdge, PLAIN;
    FooShared();
    FooConflict();
    OneEdgePerConflict(PLAIN, [TS_WRITER, FOO_READER], 0, 1);
  }

  lemma OnePattern(p: string)
    ensures forall f: string :: IsMatch(PLAIN, [p], f) <==> Glob(p, f)
  {
    hide Glob;
    assert p in [p];
  }

  // ---- The network rule ------------------------------------------------------------------------------------------

  /** The condition as it is documented: neither job is safe to run concurrently. */
  predicate NeitherSafe(a: Job, b: Job) {
    !a.concurrentSafe && !b.concurrentSafe
  }

  /**
   * Two network jobs whose globs do not overlap conflict unless both are concurrent-safe; that is the documented rule
   * exactly when both or neither of them are.
   */
  lemma NetworkRule(globs: GlobEngine, a: Job, b: Job)
    requires a.network && b.network
    requires !GlobsetsOverlap(globs, a.writeGlobs, b.readGlobs + b.writeGlobs)
    requires !GlobsetsOverlap(globs, b.writeGlobs, a.readGlobs + a.writeGlobs)
    ensures PairConflicts(globs, a, b) <==> !(a.concurrentSafe && b.concurrentSafe)
    ensures (PairConflicts(globs, a, b) <==> NeitherSafe(a, b)) <==> a.concurrentSafe == b.concurrentSafe
  {
  }

  /** One safe and one unsafe network job, without any globs, are ordered although the documentation lets them run together. */
  lemma OneSafeNetworkJobIsOrdered(globs: GlobEngine)
    ensures var jobs := [Job("fetch", 0, [], [], true, true), Job("push", 1, [], [], true, false)];
            var g := DagOf(globs, jobs);
            !NeitherSafe(jobs[0], jobs[1]) && |g.nodes| == 2 && HasEdge(g, 0, 1)
  {
    var jobs := [Job("fetch", 0, [], [], true, true), Job("push", 1, [], [], true, false)];
    GraphAdjacency(globs, jobs);
    assert Edge(globs, jobs, 0, 1);
  }
}
