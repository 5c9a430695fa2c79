/**
 * The stash discipline: runs in linked worktrees share one stash stack, and each brackets its jobs between a push and a
 * pop under the repository-wide stash lock.
 */
module Stash {
  import opened Wrappers
  import opened Text

  datatype Entry = Entry(branch: string, message: string)

  datatype Guard = Guard(message: string, created: bool)

  /** What the working tree and `git stash push` answer. `SavedNothing` is a push that succeeds without an entry. */
  datatype Tree = Clean | PartlyStaged | PushFails | Saved(branch: string) | SavedNothing

  datatype PushError = PartiallyStaged | GitFailed

  datatype PopResult = Restored | NothingToPop | Disappeared | Buried(index: nat) | Conflicted

  // ---- The guard -----------------------------------------------------------------------------------------------

  function Digits(n: nat): string {
    if n < 10 then [['0', '1', '2', '3', '4', '5', '6', '7', '8', '9'][n]] else Digits(n / 10) + Digits(n % 10)
  }

  /** A line of `git stash list`; entries are numbered from the top. */
  function Line(index: nat, e: Entry): string {
    "stash@{" + Digits(index) + "}: On " + e.branch + ": " + e.message
  }

  predicate Names(stack: seq<Entry>, index: nat, needle: string)
    requires index < |stack|
  {
    Contains(Line(index, stack[index]), needle)
  }

  lemma LineNamesMessage(index: nat, e: Entry)
    ensures Contains(Line(index, e), e.message)
  {
    var line := Line(index, e);
    var k := |line| - |e.message|;
    assert line[k..k + |e.message|] == e.message;
    assert OccursAt(line, e.message, k);
  }

  /** The search reads whole lines: an entry is also found by text that its branch's name contains. */
  lemma NamedByBranchOrMessage(stack: seq<Entry>, index: nat, needle: string)
    requires index < |stack| && (Contains(stack[index].branch, needle) || Contains(stack[index].message, needle))
    ensures Names(stack, index, needle)
  {
    var e := stack[index];
    var number := "stash@{" + Digits(index) + "}: On ";
    assert Line(index, e) == number + e.branch + (": " + e.message);
    assert Line(index, e) == (number + e.branch + ": ") + e.message + "";
    if Contains(e.branch, needle) {
      ContainedInside(number, e.branch, ": " + e.message, needle);
    } else {
      ContainedInside(number + e.branch + ": ", e.message, "", needle);
    }
  }

  lemma ContainedInside(pre: string, text: string, post: string, needle: string)
    requires Contains(text, needle)
    ensures Contains(pre + text + post, needle)
  {
    var k: nat :| k <= |text| && OccursAt(text, needle, k);
    assert (pre + text + post)[|pre| + k..|pre| + k + |needle|] == text[k..k + |needle|];
    assert OccursAt(pre + text + post, needle, |pre| + k);
  }

  /** The stash stack of a repository, top first. */
  class Repository {
    var stack: seq<Entry>

    constructor (stack: seq<Entry>)
      ensures this.stack == stack
    {
      this.stack := stack;
    }

    /** The first listed line that contains `needle`. */
    method FindStashIndex(needle: string) returns (found: Option<nat>)
      ensures found.None? ==> forall i: nat | i < |stack| :: !Names(stack, i, needle)
      ensures found.Some? ==> found.value < |stack| && Names(stack, found.value, needle)
      ensures found.Some? ==> forall i: nat | i < found.value :: !Names(stack, i, needle)
    {
      for i := 0 to |stack|
        invariant forall k: nat | k < i :: !Names(stack, k, needle)
      {
        if Contains(Line(i, stack[i]), needle) {
          return Some(i);
        }
      }
      return None;
    }

    method Push(tree: Tree, message: string) returns (r: Result<Guard, PushError>)
      modifies this
      ensures (stack, r) == Pushed(old(stack), tree, message)
    {
      if tree.Clean? {
        return Success(Guard("", false));
      }
      if tree.PartlyStaged? {
        return Failure(PartiallyStaged);
      }
      if tree.PushFails? {
        return Failure(GitFailed);
      }
      if tree.Saved? {
        stack := [Entry(tree.branch, message)] + stack;
      }
      return Success(Guard(message, true));
    }

    /** `conflict`: `git stash pop` fails and leaves the entry where it is. */
    method Pop(guard: Guard, conflict: bool) returns (r: PopResult)
      modifies this
      ensures (stack, r) == Popped(old(stack), guard, conflict)
    {
      if !guard.created {
        return NothingToPop;
      }
      var index := FindStashIndex(guard.message);
      assert index == FirstNaming(stack, 0, guard.message) by {
        FirstNamingIs(stack, 0, guard.message, index);
      }
      if index.None? {
        return Disappeared;
      }
      if index.value != 0 {
        return Buried(index.value);
      }
      if conflict {
        return Conflicted;
      }
      stack := stack[1..];
      return Restored;
    }
  }

  function FirstNaming(stack: seq<Entry>, from: nat, needle: string): (r: Option<nat>)
    requires from <= |stack|
    ensures r.Some? ==> from <= r.value < |stack|
    decreases |stack| - from
  {
    if from == |stack| then None
    else if Names(stack, from, needle) then Some(from)
    else FirstNaming(stack, from + 1, needle)
  }

  lemma {:induction false} FirstNamingIs(stack: seq<Entry>, from: nat, needle: string, found: Option<nat>)
    requires from <= |stack|
    requires found.None? ==> forall i: nat | from <= i < |stack| :: !Names(stack, i, needle)
    requires found.Some? ==> from <= found.value < |stack| && Names(stack, found.value, needle)
    requires found.Some? ==> forall i: nat | from <= i < found.value :: !Names(stack, i, needle)
    ensures FirstNaming(stack, from, needle) == found
    decreases |stack| - from
  {
    if from < |stack| && !Names(stack, from, needle) {
      FirstNamingIs(stack, from + 1, needle, found);
    }
  }

  function Pushed(stack: seq<Entry>, tree: Tree, message: string): (seq<Entry>, Result<Guard, PushError>) {
    match tree
    case Clean => (stack, Success(Guard("", false)))
    case PartlyStaged => (stack, Failure(PartiallyStaged))
    case PushFails => (stack, Failure(GitFailed))
    case Saved(branch) => ([Entry(branch, message)] + stack, Success(Guard(message, true)))
    case SavedNothing => (stack, Success(Guard(message, true)))
  }

  function Popped(stack: seq<Entry>, guard: Guard, conflict: bool): (seq<Entry>, PopResult) {
    if !guard.created then (stack, NothingToPop)
    else
      var index := FirstNaming(stack, 0, guard.message);
      if index.None? then (stack, Disappeared)
      else if index.value != 0 then (stack, Buried(index.value))
      else if conflict then (stack, Conflicted)
      else (stack[1..], Restored)
  }

  // ---- Runs -----------------------------------------------------------------------------------------------------

  /**
   * Where a hook run with `stash_untracked` stands. `base` is the stack when it took the lock, `saved` says whether its
   * push added an entry, and an ended run may have left that entry behind.
   */
  datatype Run =
    | Starting
    | Locked(base: seq<Entry>)
    | Holding(base: seq<Entry>, guard: Guard, saved: Option<Entry>)
    | Ended(left: bool)

  datatype State = State(stack: seq<Entry>, holder: Option<nat>, runs: seq<Run>)

  datatype Event =
    | Acquire(r: nat)                          // the repo-stash file lock
    | DoPush(r: nat, tree: Tree, message: string)
    | GiveUp(r: nat)                           // a plan fails to resolve, or the process dies: no pop
    | DoPop(r: nat, conflict: bool)
    | ForeignPush(e: Entry)                    // somebody else uses the stash
    | ForeignDrop(index: nat)

  predicate Enabled(s: State, e: Event) {
    match e
    case Acquire(r) => r < |s.runs| && s.runs[r].Starting? && s.holder.None?
    case DoPush(r, _, _) => r < |s.runs| && s.runs[r].Locked?
    case GiveUp(r) => r < |s.runs| && (s.runs[r].Locked? || s.runs[r].Holding?)
    case DoPop(r, _) => r < |s.runs| && s.runs[r].Holding?
    case ForeignPush(_) => true
    case ForeignDrop(index) => index < |s.stack|
  }

  function Apply(s: State, e: Event): State
    requires Enabled(s, e)
  {
    match e
    case Acquire(r) => State(s.stack, Some(r), s.runs[r := Locked(s.stack)])
    case DoPush(r, tree, message) =>
      var (stack, result) := Pushed(s.stack, tree, message);
      if result.Failure? then State(stack, None, s.runs[r := Ended(false)])
      else
        var saved := if tree.Saved? then Some(Entry(tree.branch, message)) else None;
        State(stack, s.holder, s.runs[r := Holding(s.runs[r].base, result.value, saved)])
    case GiveUp(r) => State(s.stack, None, s.runs[r := Ended(s.runs[r].Holding? && s.runs[r].saved.Some?)])
    case DoPop(r, conflict) =>
      var (stack, result) := Popped(s.stack, s.runs[r].guard, conflict);
      State(stack, None, s.runs[r := Ended(s.runs[r].saved.Some? && !result.Restored?)])
    case ForeignPush(e) => s.(stack := [e] + s.stack)
    case ForeignDrop(index) => s.(stack := s.stack[..index] + s.stack[index + 1..])
  }

  function Begin(stack: seq<Entry>, runs: nat): State {
    State(stack, None, seq(runs, _ => Starting))
  }

  ghost function After(start: State, events: seq<Event>): Option<State> {
    if events == [] then Some(start)
    else
      var before := After(start, events[..|events| - 1]);
      if before.Some? && Enabled(before.value, events[|events| - 1]) then Some(Apply(before.value, events[|events| - 1])) else None
  }

  predicate Undisturbed(events: seq<Event>) {
    forall e | e in events :: !e.ForeignPush? && !e.ForeignDrop?
  }

  // ---- The lock ------------------------------------------------------------------------------------------------------

  /** The lock's holder is the run between taking the lock and ending. */
  ghost predicate LockHeld(s: State) {
    forall r: nat | r < |s.runs| :: s.holder == Some(r) <==> s.runs[r].Locked? || s.runs[r].Holding?
  }

  lemma LockStep(s: State, e: Event)
    requires LockHeld(s) && Enabled(s, e)
    ensures LockHeld(Apply(s, e))
  {
    hide Popped, Pushed;
    if !e.ForeignPush? && !e.ForeignDrop? {
      assert s.holder == Some(e.r) || e.Acquire?;
    }
  }

  lemma {:induction false} ReachableLock(stack: seq<Entry>, runs: nat, events: seq<Event>, s: State)
    requires After(Begin(stack, runs), events) == Some(s)
    ensures LockHeld(s)
  {
    hide LockHeld, Apply, Enabled;
    if events == [] {
      NobodyHolds(stack, runs);
    } else {
      var shorter := events[..|events| - 1];
      var before := After(Begin(stack, runs), shorter).value;
      ReachableLock(stack, runs, shorter, before);
      LockStep(before, events[|events| - 1]);
    }
  }

  lemma NobodyHolds(stack: seq<Entry>, runs: nat)
    ensures LockHeld(Begin(stack, runs))
  {
  }

  /** Whatever other users do to the stash, at most one run is between its push and its pop. */
  lemma OneRunAtATime(stack: seq<Entry>, runs: nat, events: seq<Event>, s: State, q: nat, r: nat)
    requires After(Begin(stack, runs), events) == Some(s)
    requires q < |s.runs| && r < |s.runs| && s.runs[q].Holding? && s.runs[r].Holding?
    ensures q == r
  {
    ReachableLock(stack, runs, events, s);
    assert s.holder == Some(q) && s.holder == Some(r);
  }

  // ---- With no other stash user --------------------------------------------------------------------------------------

  /** Between a run's push and its pop the stack is what it found, with its own entry on top. */
  ghost predicate Bracketed(s: State, r: nat)
    requires r < |s.runs|
  {
    match s.runs[r]
    case Locked(base) => s.stack == base
    case Holding(base, guard, saved) =>
      && s.stack == (if saved.Some? then [saved.value] else []) + base
      && (saved.Some? ==> guard == Guard(saved.value.message, true))
    case _ => true
  }

  ghost predicate Inv(s: State) {
    && LockHeld(s)
    && (forall r: nat | r < |s.runs| :: Bracketed(s, r))
  }

  /** A stack whose top entry carries the message is found at index 0, whatever lies below. */
  lemma OwnEntryOnTop(stack: seq<Entry>, message: string)
    requires stack != [] && stack[0].message == message
    ensures FirstNaming(stack, 0, message) == Some(0)
  {
    LineNamesMessage(0, stack[0]);
  }

  lemma StepInv(s: State, e: Event)
    requires Inv(s) && Enabled(s, e) && !e.ForeignPush? && !e.ForeignDrop?
    ensures Inv(Apply(s, e))
  {
    hide FirstNaming, Names;
    var t := Apply(s, e);
    forall r: nat | r < |t.runs| && r != e.r ensures Bracketed(t, r) {
      assert s.holder == Some(r) <==> s.runs[r].Locked? || s.runs[r].Holding?;
      assert s.holder == Some(e.r) || e.Acquire?;
    }
    assert Bracketed(s, e.r);
    if e.DoPush? && t.runs[e.r].Holding? && t.runs[e.r].saved.None? {
      assert [] + s.stack == s.stack;
    }
  }

  lemma {:induction false} ReachableInv(stack: seq<Entry>, runs: nat, events: seq<Event>, s: State)
    requires Undisturbed(events) && After(Begin(stack, runs), events) == Some(s)
    ensures Inv(s)
  {
    if events != [] {
      var shorter := events[..|events| - 1];
      var before := After(Begin(stack, runs), shorter).value;
      assert events == shorter + [events[|events| - 1]];
      ReachableInv(stack, runs, shorter, before);
      StepInv(before, events[|events| - 1]);
    }
  }

  /**
   * A run that saved its tree finds its own entry at index 0, so its pop is never refused; unless `git stash pop` itself
   * conflicts, the stack is then exactly what it was when the run took the lock, entries left by earlier runs included.
   */
  lemma PopRestoresStack(stack: seq<Entry>, runs: nat, events: seq<Event>, s: State, r: nat, conflict: bool)
    requires Undisturbed(events) && After(Begin(stack, runs), events) == Some(s)
    requires r < |s.runs| && s.runs[r].Holding? && s.runs[r].saved.Some?
    ensures FirstNaming(s.stack, 0, s.runs[r].guard.message) == Some(0)
    ensures Popped(s.stack, s.runs[r].guard, conflict).1 == if conflict then Conflicted else Restored
    ensures !conflict ==> Apply(s, DoPop(r, conflict)).stack == s.runs[r].base
  {
    ReachableInv(stack, runs, events, s);
    assert Bracketed(s, r);
    OwnEntryOnTop(s.stack, s.runs[r].guard.message);
    assert s.stack[1..] == s.runs[r].base;
  }

  /** A run that found a clean tree leaves the stack alone. */
  lemma CleanRunKeepsStack(stack: seq<Entry>, runs: nat, events: seq<Event>, s: State, r: nat, conflict: bool)
    requires Undisturbed(events) && After(Begin(stack, runs), events) == Some(s)
    requires r < |s.runs| && s.runs[r].Holding? && !s.runs[r].guard.created
    ensures Apply(s, DoPop(r, conflict)).stack == s.stack == s.runs[r].base
  {
    ReachableInv(stack, runs, events, s);
    assert Bracketed(s, r);
  }

  // ---- What is left on the stack ------------------------------------------------------------------------------------

  /** Entries a run accounts for: one while it holds a saved tree, or if it ended without popping it. */
  function Owed(r: Run): nat {
    if (r.Holding? && r.saved.Some?) || (r.Ended? && r.left) then 1 else 0
  }

  function TotalOwed(runs: seq<Run>): nat {
    if runs == [] then 0 else TotalOwed(runs[..|runs| - 1]) + Owed(runs[|runs| - 1])
  }

  lemma {:induction false} OwedUpdate(runs: seq<Run>, r: nat, x: Run)
    requires r < |runs|
    ensures TotalOwed(runs[r := x]) == TotalOwed(runs) - Owed(runs[r]) + Owed(x)
  {
    var last := |runs| - 1;
    if r == last {
      assert runs[r := x][..last] == runs[..last];
    } else {
      OwedUpdate(runs[..last], r, x);
      assert runs[r := x][..last] == runs[..last][r := x];
    }
  }

  lemma {:induction false} NothingOwed(n: nat)
    ensures TotalOwed(seq(n, _ => Starting)) == 0
  {
    if n > 0 {
      NothingOwed(n - 1);
      assert seq(n, _ => Starting)[..n - 1] == seq(n - 1, _ => Starting);
    }
  }

  ghost predicate EndsIn(stack: seq<Entry>, extra: nat, bottom: seq<Entry>) {
    |stack| == extra + |bottom| && stack[extra..] == bottom
  }

  /**
   * The entries present at the start are never lost, and each extra one belongs to a run that has not popped yet or
   * that ended without popping.
   */
  lemma {:induction false} NoEntryLost(stack: seq<Entry>, runs: nat, events: seq<Event>, s: State)
    requires Undisturbed(events) && After(Begin(stack, runs), events) == Some(s)
    requires forall e | e in events :: e.DoPush? ==> !e.tree.SavedNothing?
    ensures EndsIn(s.stack, TotalOwed(s.runs), stack)
    ensures forall r | 0 <= r < |s.runs| && s.runs[r].Holding? :: s.runs[r].guard.created ==> s.runs[r].saved.Some?
  {
    if events == [] {
      NothingOwed(runs);
    } else {
      var shorter, e := events[..|events| - 1], events[|events| - 1];
      var before := After(Begin(stack, runs), shorter).value;
      assert events == shorter + [e];
      NoEntryLost(stack, runs, shorter, before);
      ReachableInv(stack, runs, shorter, before);
      StepOwed(before, e, stack);
    }
  }

  lemma PopOwed(s: State, r: nat, conflict: bool)
    requires Inv(s) && Enabled(s, DoPop(r, conflict))
    requires s.runs[r].guard.created ==> s.runs[r].saved.Some?
    ensures var t := Apply(s, DoPop(r, conflict));
            && Owed(t.runs[r]) <= Owed(s.runs[r])
            && t.stack == (if Owed(t.runs[r]) < Owed(s.runs[r]) then s.stack[1..] else s.stack)
            && (Owed(t.runs[r]) < Owed(s.runs[r]) ==> s.stack != [])
  {
    hide FirstNaming, Names;
    assert Bracketed(s, r);
    if s.runs[r].saved.Some? {
      OwnEntryOnTop(s.stack, s.runs[r].guard.message);
    }
  }

  lemma StepOwed(s: State, e: Event, bottom: seq<Entry>)
    requires Inv(s) && Enabled(s, e) && !e.ForeignPush? && !e.ForeignDrop?
    requires EndsIn(s.stack, TotalOwed(s.runs), bottom)
    requires forall r | 0 <= r < |s.runs| && s.runs[r].Holding? :: s.runs[r].guard.created ==> s.runs[r].saved.Some?
    requires e.DoPush? ==> !e.tree.SavedNothing?
    ensures EndsIn(Apply(s, e).stack, TotalOwed(Apply(s, e).runs), bottom)
  {
    hide FirstNaming, Names, TotalOwed, Inv, Popped;
    var t := Apply(s, e);
    OwedUpdate(s.runs, e.r, t.runs[e.r]);
    assert t.runs == s.runs[e.r := t.runs[e.r]];
    if e.DoPop? {
      PopOwed(s, e.r, e.conflict);
    }
  }

  // ---- With other stash users ---------------------------------------------------------------------------------------

  /**
   * A push is refused exactly for a partly staged tree or if git fails, and then nothing is stashed. Otherwise the guard
   * remembers the message exactly if the tree was not clean, and an entry with that message goes on top if git saved one.
   */
  lemma PushAnswers(stack: seq<Entry>, tree: Tree, message: string)
    ensures var (after, result) := Pushed(stack, tree, message);
            && (result.Failure? <==> tree.PartlyStaged? || tree.PushFails?)
            && (result.Failure? ==> result.error == if tree.PartlyStaged? then PartiallyStaged else GitFailed)
            && (result.Success? ==> (result.value.created <==> !tree.Clean?))
            && (result.Success? && result.value.created ==> result.value.message == message)
            && (tree.Saved? ==> after != [] && after[0] == Entry(tree.branch, message) && after[1..] == stack)
            && (!tree.Saved? ==> after == stack)
  {
  }

  /**
   * What a pop answers: nothing to do without an entry of the run's own; otherwise it depends on the first line that carries
   * the message: none, one below the top, or the top one.
   */
  lemma PopAnswers(stack: seq<Entry>, guard: Guard, conflict: bool)
    ensures var result := Popped(stack, guard, conflict).1;
            && (result.NothingToPop? <==> !guard.created)
            && (guard.created ==> (result.Disappeared? <==> forall i: nat | i < |stack| :: !Names(stack, i, guard.message)))
            && (guard.created ==> forall i: nat | i < |stack| && Names(stack, i, guard.message)
                                                  && (forall k: nat | k < i :: !Names(stack, k, guard.message)) ::
                  result == if i > 0 then Buried(i) else if conflict then Conflicted else Restored)
  {
    hide Names;
    FirstNamed(stack, 0, guard.message);
  }

  lemma {:induction false} FirstNamed(stack: seq<Entry>, from: nat, needle: string)
    requires from <= |stack|
    ensures var r := FirstNaming(stack, from, needle);
            && (r.None? <==> forall i: nat | from <= i < |stack| :: !Names(stack, i, needle))
            && (r.Some? ==> Names(stack, r.value, needle) && forall i: nat | from <= i < r.value :: !Names(stack, i, needle))
    decreases |stack| - from
  {
    hide Names;
    if from < |stack| && !Names(stack, from, needle) {
      FirstNamed(stack, from + 1, needle);
    }
  }

  /**
   * Whatever else happens to the stack, a pop removes nothing but a top entry whose line carries the run's message; an
   * entry buried under others or gone is reported, and the stack is left as it is.
   */
  lemma PopTakesOnlyNamedTop(stack: seq<Entry>, guard: Guard, conflict: bool)
    ensures var (after, result) := Popped(stack, guard, conflict);
            if result.Restored? then
              stack != [] && after == stack[1..] && Names(stack, 0, guard.message)
            else after == stack
    ensures guard.created && !conflict ==>
              (Popped(stack, guard, conflict).1.Restored? <==> stack != [] && Names(stack, 0, guard.message))
  {
  }
}
