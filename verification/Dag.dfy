/** The capability graph: which jobs conflict, and which of two conflicting jobs runs first. */
module Dag {
  import opened Wrappers
  import opened Text

  /** The fields of a job that the graph and the scheduler read. `priority` is a u32 in the source. */
  datatype Job = Job(
    name: string,
    priority: nat,
    readGlobs: seq<string>,
    writeGlobs: seq<string>,
    network: bool,
    concurrentSafe: bool)

  /** The glob library: whether a pattern list compiles, and whether a compiled list matches a file. */
  datatype GlobEngine = GlobEngine(
    compiles: seq<string> -> bool,
    matches: (seq<string>, string) -> bool)

  datatype DagError = Glob(job: string, pattern: string)

  datatype DagNode = DagNode(index: nat, job: Job, parents: seq<nat>, children: seq<nat>)

  datatype JobGraph = JobGraph(nodes: seq<DagNode>)

  // ---- The pairwise rule ---------------------------------------------------------------------

  /** `**` stands for `a/a` and any remaining `*` for `a`. */
  function ProbeFilename(pattern: string): string {
    ReplaceAll(ReplaceAll(pattern, "**", "a/a"), "*", "a")
  }

  /** An empty pattern list compiles to "no set", which matches nothing. */
  predicate Compiles(globs: GlobEngine, patterns: seq<string>) {
    patterns == [] || globs.compiles(patterns)
  }

  predicate IsMatch(globs: GlobEngine, patterns: seq<string>, file: string) {
    patterns != [] && globs.matches(patterns, file)
  }

  predicate GlobsetsOverlap(globs: GlobEngine, writer: seq<string>, other: seq<string>) {
    || (exists p | p in other :: IsMatch(globs, writer, ProbeFilename(p)))
    || (writer != [] && exists p | p in writer :: IsMatch(globs, other, ProbeFilename(p)))
  }

  predicate PairConflicts(globs: GlobEngine, a: Job, b: Job) {
    || (a.network && b.network && !(a.concurrentSafe && b.concurrentSafe))
    || GlobsetsOverlap(globs, a.writeGlobs, b.readGlobs + b.writeGlobs)
    || GlobsetsOverlap(globs, b.writeGlobs, a.readGlobs + a.writeGlobs)
  }

  /** `a` runs before `b`: lower priority number first, ties by declaration index. */
  predicate OrderFirst(a: Job, i: nat, b: Job, j: nat) {
    if a.priority < b.priority then true
    else if a.priority > b.priority then false
    else i < j
  }

  predicate Edge(globs: GlobEngine, jobs: seq<Job>, from: nat, to: nat)
    requires from < |jobs| && to < |jobs|
  {
    from != to && PairConflicts(globs, jobs[from], jobs[to]) && OrderFirst(jobs[from], from, jobs[to], to)
  }

  // ---- The graph as a function of the job list -------------------------------------------------

  function ParentsBelow(globs: GlobEngine, jobs: seq<Job>, i: nat, bound: nat): (r: seq<nat>)
    requires i < |jobs| && bound <= |jobs|
  {
    if bound == 0 then []
    else if Edge(globs, jobs, bound - 1, i) then ParentsBelow(globs, jobs, i, bound - 1) + [bound - 1]
    else ParentsBelow(globs, jobs, i, bound - 1)
  }

  function ChildrenBelow(globs: GlobEngine, jobs: seq<Job>, i: nat, bound: nat): (r: seq<nat>)
    requires i < |jobs| && bound <= |jobs|
  {
    if bound == 0 then []
    else if Edge(globs, jobs, i, bound - 1) then ChildrenBelow(globs, jobs, i, bound - 1) + [bound - 1]
    else ChildrenBelow(globs, jobs, i, bound - 1)
  }

  function NodeBelow(globs: GlobEngine, jobs: seq<Job>, i: nat, bound: nat): DagNode
    requires i < |jobs| && bound <= |jobs|
  {
    DagNode(i, jobs[i], ParentsBelow(globs, jobs, i, bound), ChildrenBelow(globs, jobs, i, bound))
  }

  function DagOf(globs: GlobEngine, jobs: seq<Job>): JobGraph {
    JobGraph(seq(|jobs|, i requires 0 <= i < |jobs| => NodeBelow(globs, jobs, i, |jobs|)))
  }

  // ---- Building it -------------------------------------------------------------------------------

  predicate CapabilitiesCompile(globs: GlobEngine, job: Job) {
    Compiles(globs, job.writeGlobs) && Compiles(globs, job.readGlobs + job.writeGlobs)
  }

  function CapabilityError(globs: GlobEngine, job: Job): DagError
    requires !CapabilitiesCompile(globs, job)
  {
    if !Compiles(globs, job.writeGlobs) then Glob(job.name, job.writeGlobs[0])
    else Glob(job.name, (job.readGlobs + job.writeGlobs)[0])
  }

  /** How far node `x` has been paired when the nested loops stand at `(a, b)`. */
  function PairedBound(x: nat, a: nat, b: nat, n: nat): nat {
    if x < a then n else if x == a then b else if x < b then a + 1 else a
  }

  /** `build_globset`: an empty list needs no set; the error names the list's first pattern. */
  method BuildGlobset(globs: GlobEngine, job: string, patterns: seq<string>) returns (r: Result<(), DagError>)
    ensures r.Success? <==> patterns == [] || globs.compiles(patterns)
    ensures r.Failure? ==> patterns != [] && r.error == Glob(job, patterns[0])
  {
    if patterns == [] || globs.compiles(patterns) {
      return Success(());
    }
    return Failure(Glob(job, patterns[0]));
  }

  /** A job is refused if its write patterns, or its patterns together, do not compile; the error names the first of them. */
  lemma RefusedJob(globs: GlobEngine, job: Job)
    ensures CapabilitiesCompile(globs, job) <==>
              && (job.writeGlobs == [] || globs.compiles(job.writeGlobs))
              && (job.readGlobs + job.writeGlobs == [] || globs.compiles(job.readGlobs + job.writeGlobs))
    ensures !CapabilitiesCompile(globs, job) ==>
              CapabilityError(globs, job) ==
                if job.readGlobs == [] || (job.writeGlobs != [] && !globs.compiles(job.writeGlobs)) then Glob(job.name, job.writeGlobs[0])
                else Glob(job.name, job.readGlobs[0])
  {
    if job.readGlobs == [] {
      assert job.readGlobs + job.writeGlobs == job.writeGlobs;
    }
  }

  method BuildDag(globs: GlobEngine, jobs: seq<Job>) returns (r: Result<JobGraph, DagError>)
    ensures r.Success? <==> forall i | 0 <= i < |jobs| :: CapabilitiesCompile(globs, jobs[i])
    ensures r.Success? ==> r.value == DagOf(globs, jobs)
    ensures r.Failure? ==> exists i | 0 <= i < |jobs| ::
      && !CapabilitiesCompile(globs, jobs[i])
      && (forall k | 0 <= k < i :: CapabilitiesCompile(globs, jobs[k]))
      && r.error == CapabilityError(globs, jobs[i])
  {
    hide PairConflicts, OrderFirst, GlobsetsOverlap;
    var nodes: seq<DagNode> := seq(|jobs|, i requires 0 <= i < |jobs| => DagNode(i, jobs[i], [], []));
    for i := 0 to |nodes|
      invariant forall k | 0 <= k < i :: CapabilitiesCompile(globs, jobs[k])
    {
      var job := nodes[i].job;
      var writes := BuildGlobset(globs, job.name, job.writeGlobs);
      if writes.Failure? {
        return Failure(writes.error);
      }
      var combined := BuildGlobset(globs, job.name, job.readGlobs + job.writeGlobs);
      if combined.Failure? {
        return Failure(combined.error);
      }
    }
    var n := |jobs|;
    for a := 0 to n
      invariant |nodes| == n
      invariant forall x: nat | x < n :: nodes[x] == NodeBelow(globs, jobs, x, if x < a then n else a)
    {
      RowStart(globs, jobs, nodes, a);
      for b := a + 1 to n
        invariant PairedUpTo(globs, jobs, nodes, a, b)
      {
        PairStep(globs, jobs, nodes, a, b);
        if PairConflicts(globs, nodes[a].job, nodes[b].job) {
          var (parent, child) := if OrderFirst(nodes[a].job, a, nodes[b].job, b) then (a, b) else (b, a);
          nodes := Link(nodes, parent, child);
        }
      }
    }
    assert nodes == DagOf(globs, jobs).nodes;
    return Success(JobGraph(nodes));
  }

  /** One edge: the child is appended to the parent's list and the parent to the child's. */
  function Link(nodes: seq<DagNode>, parent: nat, child: nat): seq<DagNode>
    requires parent < |nodes| && child < |nodes|
  {
    var linked := nodes[parent := nodes[parent].(children := nodes[parent].children + [child])];
    linked[child := linked[child].(parents := linked[child].parents + [parent])]
  }

  ghost predicate PairedUpTo(globs: GlobEngine, jobs: seq<Job>, nodes: seq<DagNode>, a: nat, b: nat) {
    && |nodes| == |jobs|
    && forall x: nat | x < |jobs| && a < |jobs| && b <= |jobs| ::
         nodes[x] == NodeBelow(globs, jobs, x, PairedBound(x, a, b, |jobs|))
  }

  lemma PairStep(globs: GlobEngine, jobs: seq<Job>, nodes: seq<DagNode>, a: nat, b: nat)
    requires a < b < |jobs| && PairedUpTo(globs, jobs, nodes, a, b)
    ensures PairConflicts(globs, jobs[a], jobs[b]) && OrderFirst(jobs[a], a, jobs[b], b) ==>
              PairedUpTo(globs, jobs, Link(nodes, a, b), a, b + 1)
    ensures PairConflicts(globs, jobs[a], jobs[b]) && !OrderFirst(jobs[a], a, jobs[b], b) ==>
              PairedUpTo(globs, jobs, Link(nodes, b, a), a, b + 1)
    ensures !PairConflicts(globs, jobs[a], jobs[b]) ==> PairedUpTo(globs, jobs, nodes, a, b + 1)
  {
    assert PairConflicts(globs, jobs[b], jobs[a]) == PairConflicts(globs, jobs[a], jobs[b]);
    assert nodes[a] == NodeBelow(globs, jobs, a, b);
    assert nodes[b] == NodeBelow(globs, jobs, b, a);
    forall x: nat | x < |jobs| && x != a && x != b
      ensures PairedBound(x, a, b, |jobs|) == PairedBound(x, a, b + 1, |jobs|)
    {
    }
  }

  lemma RowStart(globs: GlobEngine, jobs: seq<Job>, nodes: seq<DagNode>, a: nat)
    requires a < |jobs| == |nodes|
    requires forall x: nat | x < |jobs| :: nodes[x] == NodeBelow(globs, jobs, x, if x < a then |jobs| else a)
    ensures PairedUpTo(globs, jobs, nodes, a, a + 1)
  {
    assert !Edge(globs, jobs, a, a);
    assert NodeBelow(globs, jobs, a, a + 1) == NodeBelow(globs, jobs, a, a);
  }
}
