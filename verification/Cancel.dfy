/** The cancellation latch: any number of `cancel` calls against any number of `cancelled` waiters. */
module CancelLatch {
  import opened Wrappers

  const EXIT_TIMEOUT: int := 124
  const EXIT_CANCELLED: int := 130

  /** A call of `cancel`: not begun, between the store and the notification, or returned. */
  datatype Canceller = Calling | Stored | Returned

  /**
   * A call of `cancelled`, by the statement it is about to execute. A `notified()` future remembers how many
   * `notify_waiters` calls there had been when it was created, and is ready once there have been more.
   */
  datatype Waiter =
    | FirstCheck
    | Create
    | SecondCheck(since: nat)
    | Awaiting(since: nat)
    | ThirdCheck
    | Done

  datatype State = State(flag: bool, notified: nat, cancellers: seq<Canceller>, waiters: seq<Waiter>)

  datatype Event = Cancel(c: nat) | Wait(w: nat)

  predicate Ready(w: Waiter, notified: nat) {
    !w.Done? && (w.Awaiting? ==> w.since != notified)
  }

  /** The waiter's next statement. */
  function Advance(w: Waiter, flag: bool, notified: nat): Waiter
    requires Ready(w, notified)
  {
    match w
    case FirstCheck => if flag then Done else Create
    case Create => SecondCheck(notified)
    case SecondCheck(since) => if flag then Done else Awaiting(since)
    case Awaiting(_) => ThirdCheck
    case ThirdCheck => if flag then Done else FirstCheck
  }

  predicate Enabled(s: State, e: Event) {
    match e
    case Cancel(c) => c < |s.cancellers| && !s.cancellers[c].Returned?
    case Wait(w) => w < |s.waiters| && Ready(s.waiters[w], s.notified)
  }

  function Apply(s: State, e: Event): State
    requires Enabled(s, e)
  {
    match e
    case Cancel(c) =>
      if s.cancellers[c].Calling? then s.(flag := true, cancellers := s.cancellers[c := Stored])
      else s.(notified := s.notified + 1, cancellers := s.cancellers[c := Returned])
    case Wait(w) => s.(waiters := s.waiters[w := Advance(s.waiters[w], s.flag, s.notified)])
  }

  function Begin(cancellers: nat, waiters: nat): State {
    State(false, 0, seq(cancellers, _ => Calling), seq(waiters, _ => FirstCheck))
  }

  ghost function After(start: State, run: seq<Event>): Option<State> {
    if run == [] then Some(start)
    else
      var before := After(start, run[..|run| - 1]);
      if before.Some? && Enabled(before.value, run[|run| - 1]) then Some(Apply(before.value, run[|run| - 1])) else None
  }

  // ---- The latch as it runs --------------------------------------------------------------------------------------

  class Latch {
    var cancelled: bool
    var notified: nat

    constructor ()
      ensures !cancelled && notified == 0
    {
      cancelled, notified := false, 0;
    }

    /** The first half of `cancel`. */
    method Store()
      modifies this`cancelled
      ensures cancelled
    {
      cancelled := true;
    }

    /** The second half: every future created before now becomes ready. */
    method NotifyWaiters()
      modifies this`notified
      ensures notified == old(notified) + 1
      ensures forall w: Waiter | w.Awaiting? && w.since <= old(notified) :: Ready(w, notified)
    {
      notified := notified + 1;
    }

    /** One statement of `cancelled`. */
    method Step(w: Waiter) returns (next: Waiter)
      requires Ready(w, notified)
      ensures next == Advance(w, cancelled, notified)
    {
      match w {
        case FirstCheck => next := if cancelled then Done else Create;
        case Create => next := SecondCheck(notified);
        case SecondCheck(since) => next := if cancelled then Done else Awaiting(since);
        case Awaiting(_) => next := ThirdCheck;
        case ThirdCheck => next := if cancelled then Done else FirstCheck;
      }
    }

    /**
     * One poll of a `cancelled` future: it runs on until it returns or waits for a notification. It returns if the flag
     * is set, unless it already waits and has not been notified.
     */
    method Poll(start: Waiter) returns (w: Waiter)
      ensures w.Done? || (w.Awaiting? && w.since == notified)
      ensures start.Done? || Ready(start, notified) ==> (w.Done? <==> start.Done? || cancelled)
      ensures !start.Done? && !Ready(start, notified) ==> w == start
      ensures w == RunOn(start, cancelled, notified)
    {
      w := start;
      while Ready(w, notified)
        invariant RunOn(w, cancelled, notified) == RunOn(start, cancelled, notified)
        invariant !start.Done? && !Ready(start, notified) ==> w == start
        invariant w.Done? && !start.Done? ==> cancelled
        invariant cancelled && Ready(start, notified) ==> Ready(w, notified) || w.Done?
        invariant start.Done? ==> w == start
        decreases Remaining(w, notified)
      {
        w := Step(w);
      }
    }
  }

  /** How many statements a waiter can still execute while nothing else happens. */
  function Remaining(w: Waiter, notified: nat): nat {
    match w
    case Done => 0
    case Awaiting(since) => if since == notified then 0 else 5
    case SecondCheck(since) => if since == notified then 1 else 6
    case Create => 2
    case FirstCheck => 3
    case ThirdCheck => 4
  }

  /** The waiter's statements, one after another, for as long as it can go on. */
  function RunOn(w: Waiter, flag: bool, notified: nat): Waiter
    decreases Remaining(w, notified)
  {
    if Ready(w, notified) then RunOn(Advance(w, flag, notified), flag, notified) else w
  }

  /** A poll is a sequence of the waiter's own events in the machine. */
  lemma {:induction false} PollIsEvents(start: State, run: seq<Event>, s: State, w: nat) returns (longer: seq<Event>)
    requires After(start, run) == Some(s) && w < |s.waiters|
    ensures run <= longer && forall k | |run| <= k < |longer| :: longer[k] == Wait(w)
    ensures After(start, longer) == Some(s.(waiters := s.waiters[w := RunOn(s.waiters[w], s.flag, s.notified)]))
    decreases Remaining(s.waiters[w], s.notified)
  {
    if Ready(s.waiters[w], s.notified) {
      var next := run + [Wait(w)];
      assert next[..|run|] == run;
      var t := Apply(s, Wait(w));
      longer := PollIsEvents(start, next, t, w);
      assert t.waiters[w := RunOn(t.waiters[w], t.flag, t.notified)] == s.waiters[w := RunOn(s.waiters[w], s.flag, s.notified)];
    } else {
      longer := run;
      assert s.waiters[w := s.waiters[w]] == s.waiters;
    }
  }

  // ---- Any interleaving ------------------------------------------------------------------------------------------------

  lemma {:induction false} PrefixHappens(start: State, run: seq<Event>, k: nat)
    requires After(start, run).Some? && k <= |run|
    ensures After(start, run[..k]).Some?
    ensures k < |run| ==> Enabled(After(start, run[..k]).value, run[k])
                          && After(start, run[..k + 1]) == Some(Apply(After(start, run[..k]).value, run[k]))
    decreases |run|
  {
    hide Apply, Enabled;
    if k == |run| {
      assert run[..k] == run;
    } else {
      var last := |run| - 1;
      if k < last {
        PrefixHappens(start, run[..last], k);
        assert run[..last][..k] == run[..k] && run[..last][..k + 1] == run[..k + 1];
      } else {
        assert run[..k + 1] == run;
      }
    }
  }

  /** The latch driven through any possible interleaving of its callers ends as the machine does. */
  method Interleave(cancellers: nat, waiters: nat, schedule: seq<Event>)
    returns (latch: Latch, calls: seq<Canceller>, waits: seq<Waiter>)
    requires After(Begin(cancellers, waiters), schedule).Some?
    ensures After(Begin(cancellers, waiters), schedule) == Some(State(latch.cancelled, latch.notified, calls, waits))
  {
    ghost var start := Begin(cancellers, waiters);
    latch := new Latch();
    calls, waits := seq(cancellers, _ => Calling), seq(waiters, _ => FirstCheck);
    assert schedule[..0] == [];
    for k := 0 to |schedule|
      invariant fresh(latch)
      invariant After(start, schedule[..k]) == Some(State(latch.cancelled, latch.notified, calls, waits))
    {
      PrefixHappens(start, schedule, k);
      match schedule[k] {
        case Cancel(c) =>
          if calls[c].Calling? {
            latch.Store();
            calls := calls[c := Stored];
          } else {
            latch.NotifyWaiters();
            calls := calls[c := Returned];
          }
        case Wait(w) =>
          var next := latch.Step(waits[w]);
          waits := waits[w := next];
      }
    }
    assert schedule[..|schedule|] == schedule;
  }

  // ---- No lost wakeup ------------------------------------------------------------------------------------------------

  function CountReturned(cancellers: seq<Canceller>): nat {
    if cancellers == [] then 0
    else CountReturned(cancellers[..|cancellers| - 1]) + if cancellers[|cancellers| - 1].Returned? then 1 else 0
  }

  /** The flag is set as soon as some call has stored it, and a waiter that waits began before any notification. */
  ghost predicate Inv(s: State) {
    && (s.flag <==> exists c :: 0 <= c < |s.cancellers| && !s.cancellers[c].Calling?)
    && s.notified == CountReturned(s.cancellers)
    && (s.notified > 0 ==> s.flag)
    && (forall w | 0 <= w < |s.waiters| ::
          && (s.waiters[w].Awaiting? ==> s.waiters[w].since == 0)
          && (s.waiters[w].SecondCheck? ==> s.waiters[w].since <= s.notified)
          && (s.waiters[w].ThirdCheck? || s.waiters[w].Done? ==> s.flag))
  }

  lemma {:induction false} CountUpdate(cancellers: seq<Canceller>, c: nat, x: Canceller)
    requires c < |cancellers|
    ensures CountReturned(cancellers[c := x]) ==
            CountReturned(cancellers) - (if cancellers[c].Returned? then 1 else 0) + if x.Returned? then 1 else 0
    ensures cancellers[c].Returned? ==> CountReturned(cancellers) > 0
  {
    var last := |cancellers| - 1;
    if c == last {
      assert cancellers[c := x][..last] == cancellers[..last];
    } else {
      CountUpdate(cancellers[..last], c, x);
      assert cancellers[c := x][..last] == cancellers[..last][c := x];
    }
  }

  lemma StepInv(s: State, e: Event)
    requires Inv(s) && Enabled(s, e)
    ensures Inv(Apply(s, e))
    ensures s.flag ==> Apply(s, e).flag
  {
    var t := Apply(s, e);
    if e.Cancel? {
      CountUpdate(s.cancellers, e.c, t.cancellers[e.c]);
      assert !t.cancellers[e.c].Calling?;
    }
  }

  lemma {:induction false} NoneReturned(n: nat)
    ensures CountReturned(seq(n, _ => Calling)) == 0
  {
    if n > 0 {
      NoneReturned(n - 1);
      assert seq(n, _ => Calling)[..n - 1] == seq(n - 1, _ => Calling);
    }
  }

  lemma {:induction false} ReachableInv(cancellers: nat, waiters: nat, run: seq<Event>, s: State)
    requires After(Begin(cancellers, waiters), run) == Some(s)
    ensures Inv(s)
  {
    if run == [] {
      NoneReturned(cancellers);
    } else {
      var before := After(Begin(cancellers, waiters), run[..|run| - 1]).value;
      ReachableInv(cancellers, waiters, run[..|run| - 1], before);
      StepInv(before, run[|run| - 1]);
    }
  }

  /** Once any `cancel` has returned, no waiter stays blocked: each has returned or can go on. */
  lemma NoLostWakeup(cancellers: nat, waiters: nat, run: seq<Event>, s: State, c: nat, w: nat)
    requires After(Begin(cancellers, waiters), run) == Some(s)
    requires c < |s.cancellers| && s.cancellers[c].Returned? && w < |s.waiters|
    ensures s.flag && (s.waiters[w].Done? || Enabled(s, Wait(w)))
  {
    ReachableInv(cancellers, waiters, run, s);
    CountUpdate(s.cancellers, c, s.cancellers[c]);
  }

  /** A waiter returns only after some call has set the flag, and then every later check sees it. */
  lemma {:induction false} FlagStaysSet(cancellers: nat, waiters: nat, run: seq<Event>, s: State, longer: seq<Event>, t: State)
    requires After(Begin(cancellers, waiters), run) == Some(s)
    requires run <= longer && After(Begin(cancellers, waiters), longer) == Some(t)
    requires s.flag || exists w :: 0 <= w < |s.waiters| && s.waiters[w].Done?
    ensures t.flag
    decreases |longer|
  {
    ReachableInv(cancellers, waiters, run, s);
    if longer != run {
      var shorter := longer[..|longer| - 1];
      var before := After(Begin(cancellers, waiters), shorter).value;
      assert run <= shorter;
      FlagStaysSet(cancellers, waiters, run, s, shorter, before);
      ReachableInv(cancellers, waiters, shorter, before);
      StepInv(before, longer[|longer| - 1]);
    }
  }

  // ---- Waiters do not spin ----------------------------------------------------------------------------------------------

  /** Statements a waiter has left at most: the loop is never taken a second time. */
  function Left(w: Waiter): nat {
    match w
    case FirstCheck => 5
    case Create => 4
    case SecondCheck(_) => 3
    case Awaiting(_) => 2
    case ThirdCheck => 1
    case Done => 0
  }

  function StepsOf(run: seq<Event>, w: nat): nat {
    if run == [] then 0 else StepsOf(run[..|run| - 1], w) + if run[|run| - 1] == Wait(w) then 1 else 0
  }

  /** In every run a waiter executes at most five statements. */
  lemma {:induction false} WaiterTakesFiveSteps(cancellers: nat, waiters: nat, run: seq<Event>, s: State, w: nat)
    requires After(Begin(cancellers, waiters), run) == Some(s) && w < waiters
    ensures |s.waiters| == waiters && StepsOf(run, w) + Left(s.waiters[w]) <= 5
  {
    if run != [] {
      var before := After(Begin(cancellers, waiters), run[..|run| - 1]).value;
      WaiterTakesFiveSteps(cancellers, waiters, run[..|run| - 1], before, w);
      ReachableInv(cancellers, waiters, run[..|run| - 1], before);
    }
  }

  // ---- What a running command reports -------------------------------------------------------------------------------------

  datatype Outcome = Finished(code: int) | Cancelled | TimedOut | WaitErr

  /** How the child stands: running, exited (None for a signal), or its wait failed. */
  datatype Child = Running | Exited(code: Option<int>) | WaitFailed

  /** There is a latch, and the waiter can return: the latch is set, and the waiter does not wait for a notification to come. */
  ghost predicate Sees(latch: Option<Latch>, w: Waiter)
    reads if latch.Some? then {latch.value} else {}
  {
    latch.Some? && (w.Done? || (latch.value.cancelled && Ready(w, latch.value.notified)))
  }

  /** One poll of the biased select: cancellation, then the timer if there is one, then the child. */
  method PollOutcome(latch: Option<Latch>, w: Waiter, timer: Option<bool>, child: Child)
    returns (outcome: Option<Outcome>, w': Waiter)
    ensures outcome == Some(Cancelled) <==> Sees(latch, w)
    ensures outcome != Some(Cancelled) ==>
              outcome == if timer == Some(true) then Some(TimedOut)
                         else match child
                              case Running => None
                              case Exited(code) => Some(Finished(if code.Some? then code.value else -1))
                              case WaitFailed => Some(WaitErr)
  {
    w' := w;
    if latch.Some? {
      w' := latch.value.Poll(w);
      if w'.Done? {
        return Some(Cancelled), w';
      }
    }
    if timer == Some(true) {
      return Some(TimedOut), w';
    }
    match child
    case Running => outcome := None;
    case Exited(code) => outcome := Some(Finished(if code.Some? then code.value else -1));
    case WaitFailed => outcome := Some(WaitErr);
  }

  /** The exit code reported, and whether the child was killed for it; None if its wait failed. */
  function ResolveExit(outcome: Outcome): (r: Option<(int, bool)>)
    ensures r.None? <==> outcome.WaitErr?
    ensures r.Some? ==> (r.value.1 <==> outcome.Cancelled? || outcome.TimedOut?)
  {
    match outcome
    case Finished(code) => Some((code, false))
    case Cancelled => Some((EXIT_CANCELLED, true))
    case TimedOut => Some((EXIT_TIMEOUT, true))
    case WaitErr => None
  }

  /**
   * One poll of a running command. Once the latch is set and the waiter can see it, the command is killed and reports 130
   * even if its child has already exited or timed out. Otherwise, with or without a latch, a timeout reports 124 even if the
   * child has exited, and a child that has exited its own code, -1 if a signal ended it.
   */
  method PollCommand(latch: Option<Latch>, w: Waiter, timer: Option<bool>, child: Child)
    returns (exit: Option<Option<(int, bool)>>, w': Waiter)
    ensures Sees(latch, w) ==> exit == Some(Some((130, true)))
    ensures !Sees(latch, w) && timer == Some(true) ==> exit == Some(Some((124, true)))
    ensures !Sees(latch, w) && timer != Some(true) && child.Exited? ==>
              exit == Some(Some((if child.code.Some? then child.code.value else -1, false)))
    ensures !Sees(latch, w) && timer != Some(true) && child.Running? ==> exit == None
    ensures !Sees(latch, w) && timer != Some(true) && child.WaitFailed? ==> exit == Some(None)
  {
    var outcome;
    outcome, w' := PollOutcome(latch, w, timer, child);
    exit := if outcome.None? then None else Some(ResolveExit(outcome.value));
  }
}
