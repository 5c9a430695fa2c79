/**
 * The coordinator daemon: a registry of semaphores and any number of connections, each handling its requests one at a
 * time. An event is one section of a handler that no other handler can interrupt.
 */
module LockDaemon {
  import opened Wrappers

  datatype Scope = ScopeTool | ScopeToolPath

  /** Keys are compared in full, so `permits` (a u32) is part of a lock's identity. */
  datatype LockKey = LockKey(scope: Scope, name: string, permits: nat)

  type Token = nat

  const TOKENS: nat := 0x1_0000_0000_0000_0000

  datatype Response = Granted(token: Token) | TimedOut | Released | LockError(message: string)

  /** Where a handler stands: between requests, or at one of the awaits of an acquire, or done. */
  datatype Stage =
    | Idle
    | Waiting(key: LockKey)
    | Permitted(key: LockKey)
    | Numbered(key: LockKey, token: Token)
    | HungUp
    | Gone

  datatype Connection = Connection(stage: Stage, held: map<Token, LockKey>)

  /** `slots` maps each known lock to its available permits; `next` is the next token. */
  datatype State = State(
    slots: map<LockKey, nat>, next: Token, connections: seq<Connection>, active: nat)

  datatype Event =
    | Accept
    | Fetch(c: nat, key: LockKey)    // an acquire request: find or create the semaphore
    | Grant(c: nat)                  // the semaphore hands over a permit
    | Expire(c: nat)                 // the timeout fires first
    | Draw(c: nat)                   // `next_token.fetch_add(1)`
    | Record(c: nat)                 // `held.insert(token, permit)`
    | Release(c: nat, token: Token)
    | HangUp(c: nat)                 // the handler returns: everything it held is dropped
    | Depart(c: nat)                 // `active.fetch_sub(1)`

  const START := State(map[], 1, [], 0)

  predicate Enabled(s: State, e: Event) {
    match e
    case Accept => true
    case Fetch(c, _) => c < |s.connections| && s.connections[c].stage.Idle?
    case Grant(c) =>
      && c < |s.connections| && s.connections[c].stage.Waiting?
      && var key := s.connections[c].stage.key; key in s.slots && s.slots[key] > 0
    case Expire(c) => c < |s.connections| && s.connections[c].stage.Waiting?
    case Draw(c) => c < |s.connections| && s.connections[c].stage.Permitted?
    case Record(c) => c < |s.connections| && s.connections[c].stage.Numbered?
    case Release(c, _) => c < |s.connections| && s.connections[c].stage.Idle?
    case HangUp(c) => c < |s.connections| && s.connections[c].stage.Idle?
    case Depart(c) => c < |s.connections| && s.connections[c].stage.HungUp? && s.active > 0
  }

  // ---- One event ----------------------------------------------------------------------------------------------

  function TokensFor(held: map<Token, LockKey>, key: LockKey): set<Token> {
    set t | t in held && held[t] == key
  }

  function Count(held: map<Token, LockKey>, key: LockKey): nat {
    |TokensFor(held, key)|
  }

  /** Dropping a permit puts it back. */
  function GiveBack(slots: map<LockKey, nat>, key: LockKey): map<LockKey, nat> {
    if key in slots then slots[key := slots[key] + 1] else slots
  }

  function At(s: State, c: nat, x: Connection): State
    requires c < |s.connections|
  {
    s.(connections := s.connections[c := x])
  }

  function Apply(s: State, e: Event): State
    requires Enabled(s, e)
  {
    match e
    case Accept => s.(connections := s.connections + [Connection(Idle, map[])], active := s.active + 1)
    case Fetch(c, key) =>
      if key in s.slots then At(s, c, Connection(Waiting(key), s.connections[c].held))
      else if key.permits == 0 then s
      else State(s.slots[key := key.permits], s.next, s.connections[c := Connection(Waiting(key), s.connections[c].held)],
                 s.active)
    case Grant(c) =>
      var key := s.connections[c].stage.key;
      State(s.slots[key := s.slots[key] - 1], s.next, s.connections[c := Connection(Permitted(key), s.connections[c].held)],
            s.active)
    case Expire(c) => At(s, c, Connection(Idle, s.connections[c].held))
    case Draw(c) =>
      var key := s.connections[c].stage.key;
      State(s.slots, (s.next + 1) % TOKENS, s.connections[c := Connection(Numbered(key, s.next), s.connections[c].held)],
            s.active)
    case Record(c) =>
      var x := s.connections[c];
      var t := x.stage.token;
      State(if t in x.held then GiveBack(s.slots, x.held[t]) else s.slots, s.next,
            s.connections[c := Connection(Idle, x.held[t := x.stage.key])], s.active)
    case Release(c, token) =>
      var x := s.connections[c];
      if token !in x.held then s
      else State(GiveBack(s.slots, x.held[token]), s.next, s.connections[c := Connection(Idle, x.held - {token})],
                 s.active)
    case HangUp(c) =>
      var x := s.connections[c];
      State(map k | k in s.slots :: s.slots[k] + Count(x.held, k), s.next,
            s.connections[c := Connection(HungUp, map[])], s.active)
    case Depart(c) =>
      State(s.slots, s.next, s.connections[c := Connection(Gone, s.connections[c].held)], s.active - 1)
  }

  ghost function After(run: seq<Event>): Option<State> {
    if run == [] then Some(START)
    else
      var before := After(run[..|run| - 1]);
      if before.Some? && Enabled(before.value, run[|run| - 1]) then Some(Apply(before.value, run[|run| - 1])) else None
  }

  // ---- The daemon as it runs --------------------------------------------------------------------------------------

  class Daemon {
    var slots: map<LockKey, nat>
    var nextToken: Token
    var connections: seq<Connection>
    var active: nat

    ghost function Now(): State
      reads this
    {
      State(slots, nextToken, connections, active)
    }

    constructor ()
      ensures Now() == START
    {
      slots, nextToken, connections, active := map[], 1, [], 0;
    }

    method AcceptConnection() returns (c: nat)
      modifies this
      ensures c == |old(connections)| && Now() == Apply(old(Now()), Accept)
    {
      c := |connections|;
      active := active + 1;
      connections := connections + [Connection(Idle, map[])];
    }

    /** `Registry::semaphore`: an existing semaphore is returned whatever its state; a new one needs a permit. */
    method Semaphore(key: LockKey) returns (r: Result<(), string>)
      modifies this`slots
      ensures r.Failure? <==> key !in old(slots) && key.permits == 0
      ensures slots == if key in old(slots) || key.permits == 0 then old(slots) else old(slots)[key := key.permits]
    {
      if key in slots {
        return Success(());
      }
      if key.permits == 0 {
        return Failure("lock permits must be > 0");
      }
      slots := slots[key := key.permits];
      return Success(());
    }

    /** The start of `handle_acquire`; None means the handler now waits. */
    method BeginAcquire(c: nat, key: LockKey) returns (r: Option<Response>)
      requires Enabled(Now(), Fetch(c, key))
      modifies this
      ensures Now() == Apply(old(Now()), Fetch(c, key))
      ensures r.Some? <==> key !in old(slots) && key.permits == 0
    {
      var semaphore := Semaphore(key);
      if semaphore.Failure? {
        return Some(LockError(semaphore.error));
      }
      connections := connections[c := Connection(Waiting(key), connections[c].held)];
      return None;
    }

    method GrantPermit(c: nat)
      requires Enabled(Now(), Grant(c))
      modifies this
      ensures Now() == Apply(old(Now()), Grant(c))
    {
      var key := connections[c].stage.key;
      slots := slots[key := slots[key] - 1];
      connections := connections[c := Connection(Permitted(key), connections[c].held)];
    }

    method ExpireWait(c: nat) returns (r: Response)
      requires Enabled(Now(), Expire(c))
      modifies this
      ensures Now() == Apply(old(Now()), Expire(c)) && r == TimedOut
    {
      connections := connections[c := Connection(Idle, connections[c].held)];
      r := TimedOut;
    }

    method DrawToken(c: nat)
      requires Enabled(Now(), Draw(c))
      modifies this
      ensures Now() == Apply(old(Now()), Draw(c))
    {
      var token := nextToken;
      nextToken := (nextToken + 1) % TOKENS;
      connections := connections[c := Connection(Numbered(connections[c].stage.key, token), connections[c].held)];
    }

    /** Inserting under a token the connection still holds drops the permit stored there. */
    method RecordPermit(c: nat) returns (r: Response)
      requires Enabled(Now(), Record(c))
      modifies this
      ensures Now() == Apply(old(Now()), Record(c)) && r == Granted(old(connections)[c].stage.token)
    {
      var stage, held := connections[c].stage, connections[c].held;
      if stage.token in held {
        slots := GiveBack(slots, held[stage.token]);
      }
      connections := connections[c := Connection(Idle, held[stage.token := stage.key])];
      r := Granted(stage.token);
    }

    method ReleaseToken(c: nat, token: Token) returns (r: Response)
      requires Enabled(Now(), Release(c, token))
      modifies this
      ensures Now() == Apply(old(Now()), Release(c, token)) && r == Released
    {
      var held := connections[c].held;
      if token in held {
        slots := GiveBack(slots, held[token]);
        connections := connections[c := Connection(Idle, held - {token})];
      }
      r := Released;
    }

    /** Dropping the handler's `held` map: its permits go back one by one. */
    method DropConnection(c: nat)
      requires Enabled(Now(), HangUp(c))
      modifies this
      ensures Now() == Apply(old(Now()), HangUp(c))
    {
      hide Count;
      var held := connections[c].held;
      while held != map[]
        invariant slots.Keys == old(slots).Keys && connections == old(connections)
        invariant nextToken == old(nextToken) && active == old(active)
        invariant forall k | k in slots :: slots[k] + Count(held, k) == old(slots)[k] + Count(old(connections)[c].held, k)
        decreases |held|
      {
        assert held.Keys != {};
        var t :| t in held;
        forall k {
          CountRemove(held, t, k);
        }
        slots := GiveBack(slots, held[t]);
        held := held - {t};
      }
      forall k {
        CountNothing(k);
      }
      connections := connections[c := Connection(HungUp, map[])];
    }

    method Leave(c: nat)
      requires Enabled(Now(), Depart(c))
      modifies this
      ensures Now() == Apply(old(Now()), Depart(c))
    {
      active := active - 1;
      connections := connections[c := Connection(Gone, connections[c].held)];
    }

    /** `Registry::snapshot`: the permits in use of every known lock, by an unsigned subtraction. */
    method Snapshot() returns (locks: map<LockKey, nat>)
      requires Conserved(Now())
      ensures locks.Keys == slots.Keys
      ensures forall k | k in locks :: locks[k] == InUse(connections, k)
    {
      locks := map k | k in slots :: k.permits - slots[k];
    }
  }

  lemma {:induction false} PrefixHappens(run: seq<Event>, k: nat)
    requires After(run).Some? && k <= |run|
    ensures After(run[..k]).Some?
    ensures k < |run| ==> Enabled(After(run[..k]).value, run[k]) && After(run[..k + 1]) == Some(Apply(After(run[..k]).value, run[k]))
    decreases |run|
  {
    hide Apply, Enabled;
    if k == |run| {
      assert run[..k] == run;
    } else {
      var last := |run| - 1;
      if k < last {
        PrefixHappens(run[..last], k);
        assert run[..last][..k] == run[..k] && run[..last][..k + 1] == run[..k + 1];
      } else {
        assert run[..k + 1] == run;
      }
    }
  }

  /** The daemon driven through any possible interleaving of its handlers ends in the state the machine ends in. */
  method Serve(schedule: seq<Event>) returns (daemon: Daemon)
    requires After(schedule).Some?
    ensures fresh(daemon) && After(schedule) == Some(daemon.Now())
  {
    hide Apply, Enabled, After;
    daemon := new Daemon();
    StartsIdle();
    assert schedule[..0] == [];
    for k := 0 to |schedule|
      invariant fresh(daemon) && After(schedule[..k]) == Some(daemon.Now())
    {
      PrefixHappens(schedule, k);
      Handle(daemon, schedule[k]);
    }
    assert schedule[..|schedule|] == schedule;
  }

  lemma StartsIdle()
    ensures After([]) == Some(START)
  {
  }

  /** One section of one handler. */
  method Handle(daemon: Daemon, e: Event)
    requires Enabled(daemon.Now(), e)
    modifies daemon
    ensures daemon.Now() == Apply(old(daemon.Now()), e)
  {
    hide Apply, Enabled;
    match e {
      case Accept => var c := daemon.AcceptConnection();
      case Fetch(c, key) => var refusal := daemon.BeginAcquire(c, key);
      case Grant(c) => daemon.GrantPermit(c);
      case Expire(c) => var reply := daemon.ExpireWait(c);
      case Draw(c) => daemon.DrawToken(c);
      case Record(c) => var reply := daemon.RecordPermit(c);
      case Release(c, token) => var reply := daemon.ReleaseToken(c, token);
      case HangUp(c) => daemon.DropConnection(c);
      case Depart(c) => daemon.Leave(c);
    }
  }

  // ---- Conservation ------------------------------------------------------------------------------------------------

  /** Permits of `key` a connection accounts for: recorded ones, and one granted but not yet recorded. */
  function Uses(x: Connection, key: LockKey): nat {
    Count(x.held, key) + if (x.stage.Permitted? || x.stage.Numbered?) && x.stage.key == key then 1 else 0
  }

  function InUse(connections: seq<Connection>, key: LockKey): nat {
    if connections == [] then 0
    else InUse(connections[..|connections| - 1], key) + Uses(connections[|connections| - 1], key)
  }

  /** Held, granted and available permits of every lock add up to its capacity, and nothing else is in use. */
  ghost predicate Conserved(s: State) {
    && (forall k | k in s.slots :: k.permits > 0 && s.slots[k] + InUse(s.connections, k) == k.permits)
    && (forall k | k !in s.slots :: InUse(s.connections, k) == 0)
    && (forall c | 0 <= c < |s.connections| && s.connections[c].stage.Waiting? :: s.connections[c].stage.key in s.slots)
  }

  lemma CountNothing(key: LockKey)
    ensures Count(map[], key) == 0
  {
    assert TokensFor(map[], key) == {};
  }

  lemma CountRemove(held: map<Token, LockKey>, t: Token, key: LockKey)
    requires t in held
    ensures Count(held - {t}, key) == Count(held, key) - if held[t] == key then 1 else 0
  {
    assert TokensFor(held - {t}, key) == TokensFor(held, key) - {t};
  }

  lemma CountInsert(held: map<Token, LockKey>, t: Token, new_: LockKey, key: LockKey)
    ensures Count(held[t := new_], key) ==
            Count(held, key) - (if t in held && held[t] == key then 1 else 0) + if new_ == key then 1 else 0
  {
    var before := TokensFor(held, key);
    assert TokensFor(held[t := new_], key) == if new_ == key then before + {t} else before - {t};
  }

  /** Changing one connection changes the sum by the difference. */
  lemma {:induction false} InUseUpdate(connections: seq<Connection>, c: nat, x: Connection, key: LockKey)
    requires c < |connections|
    ensures InUse(connections[c := x], key) == InUse(connections, key) - Uses(connections[c], key) + Uses(x, key)
    ensures InUse(connections, key) >= Uses(connections[c], key)
  {
    var last := |connections| - 1;
    var updated := connections[c := x];
    if c == last {
      assert updated[..last] == connections[..last];
    } else {
      InUseUpdate(connections[..last], c, x, key);
      assert updated[..last] == connections[..last][c := x];
    }
  }

  function Available(s: State, key: LockKey): nat {
    if key in s.slots then s.slots[key] else 0
  }

  lemma InUseIsKnown(s: State, c: nat, key: LockKey)
    requires Conserved(s) && c < |s.connections| && Uses(s.connections[c], key) > 0
    ensures key in s.slots
  {
    InUseUpdate(s.connections, c, s.connections[c], key);
  }

  /** What one event moves between a connection and the semaphore of `k`; only creating a lock adds permits. */
  lemma Transfers(s: State, e: Event, k: LockKey)
    requires Conserved(s) && Enabled(s, e) && !e.Accept?
    ensures var t := Apply(s, e);
            && |t.connections| == |s.connections| > e.c
            && Uses(t.connections[e.c], k) + Available(t, k) ==
                 Uses(s.connections[e.c], k) + Available(s, k) + if k in s.slots || k !in t.slots then 0 else k.permits
  {
    hide Conserved, InUse, Count;
    var x := s.connections[e.c];
    match e
    case Record(c) =>
      CountInsert(x.held, x.stage.token, x.stage.key, k);
      if x.stage.token in x.held {
        KnownWhenHeld(s, c, x.stage.token);
      }
    case Release(c, token) =>
      if token in x.held {
        CountRemove(x.held, token, k);
        KnownWhenHeld(s, c, token);
      }
    case HangUp(c) =>
      CountNothing(k);
      if Count(x.held, k) > 0 {
        InUseIsKnown(s, c, k);
      }
    case _ =>
  }

  lemma KnownWhenHeld(s: State, c: nat, token: Token)
    requires Conserved(s) && c < |s.connections| && token in s.connections[c].held
    ensures s.connections[c].held[token] in s.slots
  {
    var held := s.connections[c].held;
    assert token in TokensFor(held, held[token]);
    InUseIsKnown(s, c, held[token]);
  }

  lemma OneConnectionKeeps(s: State, c: nat, t: State)
    requires Conserved(s) && c < |s.connections| == |t.connections|
    requires t.connections == s.connections[c := t.connections[c]]
    requires s.slots.Keys <= t.slots.Keys && forall k | k in t.slots && k !in s.slots :: k.permits > 0
    requires forall k :: Uses(t.connections[c], k) + Available(t, k) ==
               Uses(s.connections[c], k) + Available(s, k) + if k in s.slots || k !in t.slots then 0 else k.permits
    requires t.connections[c].stage.Waiting? ==> t.connections[c].stage.key in t.slots
    ensures Conserved(t)
  {
    hide Uses, InUse;
    forall k ensures InUse(t.connections, k) + Available(t, k) ==
                     InUse(s.connections, k) + Available(s, k) + if k in s.slots || k !in t.slots then 0 else k.permits
    {
      InUseUpdate(s.connections, c, t.connections[c], k);
    }
  }

  lemma AcceptKeeps(s: State)
    requires Conserved(s)
    ensures Conserved(Apply(s, Accept))
  {
    var t := Apply(s, Accept);
    forall k ensures InUse(t.connections, k) == InUse(s.connections, k) {
      CountNothing(k);
      assert t.connections[..|s.connections|] == s.connections;
    }
  }

  /** No event creates or loses a permit. */
  lemma ConservedStep(s: State, e: Event)
    requires Conserved(s) && Enabled(s, e)
    ensures Conserved(Apply(s, e))
  {
    hide InUse, Count;
    if e.Accept? {
      AcceptKeeps(s);
    } else {
      forall k {
        Transfers(s, e, k);
      }
      hide Uses;
      OneConnectionKeeps(s, e.c, Apply(s, e));
    }
  }

  lemma LastEvent(run: seq<Event>, s: State) returns (before: State)
    requires run != [] && After(run) == Some(s)
    ensures After(run[..|run| - 1]) == Some(before)
    ensures Enabled(before, run[|run| - 1]) && s == Apply(before, run[|run| - 1])
  {
    before := After(run[..|run| - 1]).value;
  }

  /** In every reachable state permits are conserved, so `snapshot` never subtracts more than there is. */
  lemma {:induction false} PermitsConserved(run: seq<Event>, s: State)
    requires After(run) == Some(s)
    ensures Conserved(s)
  {
    if run != [] {
      var before := LastEvent(run, s);
      PermitsConserved(run[..|run| - 1], before);
      ConservedStep(before, run[|run| - 1]);
    }
  }

  lemma {:induction false} TwoUses(connections: seq<Connection>, c: nat, d: nat, key: LockKey)
    requires c < d < |connections|
    ensures InUse(connections, key) >= Uses(connections[c], key) + Uses(connections[d], key)
  {
    var last := |connections| - 1;
    if d == last {
      InUseUpdate(connections[..last], c, connections[c], key);
    } else {
      TwoUses(connections[..last], c, d, key);
    }
  }

  /** The connections using a lock never exceed its capacity; a lock with one permit is a mutex. */
  lemma HoldersBounded(run: seq<Event>, s: State, key: LockKey)
    requires After(run) == Some(s)
    ensures InUse(s.connections, key) <= key.permits
    ensures key.permits == 1 ==> forall c, d | 0 <= c < d < |s.connections| ::
              Uses(s.connections[c], key) == 0 || Uses(s.connections[d], key) == 0
  {
    PermitsConserved(run, s);
    forall c, d | 0 <= c < d < |s.connections|
      ensures InUse(s.connections, key) >= Uses(s.connections[c], key) + Uses(s.connections[d], key)
    {
      TwoUses(s.connections, c, d, key);
    }
  }

  /** A waiting handler is kept waiting only while every permit of its lock is in use. */
  lemma WaitsOnlyWhenFull(run: seq<Event>, s: State, c: nat)
    requires After(run) == Some(s) && c < |s.connections| && s.connections[c].stage.Waiting?
    ensures Enabled(s, Grant(c)) <==> InUse(s.connections, s.connections[c].stage.key) < s.connections[c].stage.key.permits
  {
    PermitsConserved(run, s);
  }

  /** Once no connection holds or is owed anything, every lock has all its permits back. */
  lemma IdleMeansFree(run: seq<Event>, s: State, key: LockKey)
    requires After(run) == Some(s) && key in s.slots
    requires forall c | 0 <= c < |s.connections| :: Uses(s.connections[c], key) == 0
    ensures s.slots[key] == key.permits
  {
    PermitsConserved(run, s);
    NoUses(s.connections, key);
  }

  lemma {:induction false} NoUses(connections: seq<Connection>, key: LockKey)
    requires forall c | 0 <= c < |connections| :: Uses(connections[c], key) == 0
    ensures InUse(connections, key) == 0
  {
    if connections != [] {
      NoUses(connections[..|connections| - 1], key);
    }
  }

  // ---- Which acquires are refused -------------------------------------------------------------------------------------

  /** The only acquire the daemon refuses outright is one for zero permits. */
  lemma RefusedIffZero(run: seq<Event>, s: State, c: nat, key: LockKey)
    requires After(run) == Some(s) && Enabled(s, Fetch(c, key))
    ensures Apply(s, Fetch(c, key)).connections[c].stage.Idle? <==> key.permits == 0
  {
    PermitsConserved(run, s);
  }

  /**
   * Naming one lock with two capacities is not refused: the two keys are two locks, and clients that disagree about
   * `permits` do not exclude each other.
   */
  lemma MismatchedPermitsAreDistinctLocks(scope: Scope, name: string, p: nat, q: nat) returns (run: seq<Event>, s: State)
    requires 0 < p && 0 < q && p != q
    ensures After(run) == Some(s) && |s.connections| == 2
    ensures s.connections[0].stage == Permitted(LockKey(scope, name, p))
    ensures s.connections[1].stage == Permitted(LockKey(scope, name, q))
  {
    var a, b := LockKey(scope, name, p), LockKey(scope, name, q);
    run, s := [], START;
    run, s := Then(run, s, Accept);
    run, s := Then(run, s, Accept);
    run, s := Then(run, s, Fetch(0, a));
    run, s := Then(run, s, Grant(0));
    run, s := Then(run, s, Fetch(1, b));
    run, s := Then(run, s, Grant(1));
  }

  lemma Then(run: seq<Event>, s: State, e: Event) returns (longer: seq<Event>, t: State)
    requires After(run) == Some(s) && Enabled(s, e)
    ensures longer == run + [e] && t == Apply(s, e) && After(longer) == Some(t)
  {
    longer, t := run + [e], Apply(s, e);
    assert longer[..|run|] == run;
  }

  // ---- Requests and replies ------------------------------------------------------------------------------------------

  /** The events of one connection, in order. */
  function Own(run: seq<Event>, c: nat): seq<Event> {
    if run == [] then []
    else
      var front, last := Own(run[..|run| - 1], c), run[|run| - 1];
      if !last.Accept? && last.c == c then front + [last] else front
  }

  predicate EndsWith(events: seq<Event>, last: seq<Event>) {
    |last| <= |events| && events[|events| - |last|..] == last
  }

  /** What a stage says about the events of its connection so far. */
  predicate Told(stage: Stage, own: seq<Event>, c: nat) {
    && (stage.Waiting? ==> EndsWith(own, [Fetch(c, stage.key)]))
    && (stage.Permitted? ==> EndsWith(own, [Fetch(c, stage.key), Grant(c)]))
    && (stage.Numbered? ==> EndsWith(own, [Fetch(c, stage.key), Grant(c), Draw(c)]))
  }

  lemma EndsWithNext(own: seq<Event>, last: seq<Event>, e: Event)
    requires EndsWith(own, last)
    ensures EndsWith(own + [e], last + [e])
  {
    assert (own + [e])[|own| - |last|..] == own[|own| - |last|..] + [e];
  }

  lemma ToldNext(s: State, e: Event, own: seq<Event>)
    requires Enabled(s, e) && !e.Accept? && Told(s.connections[e.c].stage, own, e.c)
    ensures e.c < |Apply(s, e).connections| && Told(Apply(s, e).connections[e.c].stage, own + [e], e.c)
  {
    hide EndsWith, Count, GiveBack;
    var stage := s.connections[e.c].stage;
    match e
    case Fetch(c, key) => EndsAtLast(own, e);
    case Grant(c) =>
      EndsWithNext(own, [Fetch(c, stage.key)], e);
      assert [Fetch(c, stage.key)] + [e] == [Fetch(c, stage.key), e];
    case Draw(c) =>
      EndsWithNext(own, [Fetch(c, stage.key), Grant(c)], e);
      assert [Fetch(c, stage.key), Grant(c)] + [e] == [Fetch(c, stage.key), Grant(c), e];
    case _ =>
  }

  lemma EndsAtLast(own: seq<Event>, e: Event)
    ensures EndsWith(own + [e], [e])
  {
  }

  lemma OthersStay(s: State, e: Event, c: nat)
    requires Enabled(s, e) && c < |Apply(s, e).connections|
    ensures e.Accept? || e.c != c ==>
              Apply(s, e).connections[c].stage == if c < |s.connections| then s.connections[c].stage else Idle
  {
    hide Count, GiveBack;
  }

  /**
   * A handler that waits does so for its connection's last request, and one about to reply has been granted a permit of that
   * request's lock and has drawn a token since; a request whose wait expired is never granted.
   */
  lemma {:induction false} ReplyAnswersRequest(run: seq<Event>, s: State, c: nat)
    requires After(run) == Some(s) && c < |s.connections|
    ensures var stage := s.connections[c].stage;
            && (stage.Waiting? ==> EndsWith(Own(run, c), [Fetch(c, stage.key)]))
            && (stage.Permitted? ==> EndsWith(Own(run, c), [Fetch(c, stage.key), Grant(c)]))
            && (stage.Numbered? ==> EndsWith(Own(run, c), [Fetch(c, stage.key), Grant(c), Draw(c)]))
  {
    hide EndsWith, Apply, Enabled;
    if run != [] {
      var before := LastEvent(run, s);
      var e := run[|run| - 1];
      OthersStay(before, e, c);
      if c < |before.connections| {
        ReplyAnswersRequest(run[..|run| - 1], before, c);
        if !e.Accept? && e.c == c {
          ToldNext(before, e, Own(run[..|run| - 1], c));
        }
      }
    }
  }

  // ---- Tokens ---------------------------------------------------------------------------------------------------------

  /** How many tokens have been drawn. */
  function Draws(run: seq<Event>): nat {
    if run == [] then 0 else Draws(run[..|run| - 1]) + if run[|run| - 1].Draw? then 1 else 0
  }

  /** The counter is at 1 plus the number of tokens drawn, modulo 2^64. */
  lemma {:induction false} CounterCounts(run: seq<Event>, s: State)
    requires After(run) == Some(s)
    ensures s.next == (1 + Draws(run)) % TOKENS
  {
    hide Count, GiveBack;
    if run != [] {
      var before := LastEvent(run, s);
      CounterCounts(run[..|run| - 1], before);
      NextResidue(1 + Draws(run[..|run| - 1]));
    }
  }

  lemma NextResidue(a: nat)
    ensures (a % TOKENS + 1) % TOKENS == (a + 1) % TOKENS
  {
  }

  /** The handler that has just drawn a token carries 1, 2, 3, ... modulo 2^64, in the order of drawing. */
  lemma DrawnInOrder(run: seq<Event>, s: State)
    requires After(run) == Some(s) && run != [] && run[|run| - 1].Draw?
    ensures var c := run[|run| - 1].c;
            c < |s.connections| && s.connections[c].stage.Numbered? && s.connections[c].stage.token == Draws(run) % TOKENS
  {
    hide Apply, GiveBack, Count;
    var before := LastEvent(run, s);
    CounterCounts(run[..|run| - 1], before);
    DrawNumbers(before, run[|run| - 1].c);
  }

  lemma DrawNumbers(s: State, c: nat)
    requires Enabled(s, Draw(c))
    ensures |Apply(s, Draw(c)).connections| == |s.connections|
    ensures Apply(s, Draw(c)).connections[c].stage == Numbered(s.connections[c].stage.key, s.next)
  {
  }

  lemma NumberKept(s: State, e: Event, c: nat)
    requires Enabled(s, e) && c < |Apply(s, e).connections| && Apply(s, e).connections[c].stage.Numbered? && e != Draw(c)
    ensures e.Accept? || e.c != c
    ensures c < |s.connections| && s.connections[c].stage == Apply(s, e).connections[c].stage
  {
    hide Count, GiveBack;
  }

  /** Between drawing its token and replying, a handler does nothing else: the token it carries is the one it drew. */
  lemma {:induction false} CarriesWhatItDrew(run: seq<Event>, s: State, c: nat) returns (k: nat)
    requires After(run) == Some(s) && c < |s.connections| && s.connections[c].stage.Numbered?
    ensures k < |run| && run[k] == Draw(c)
    ensures s.connections[c].stage.token == Draws(run[..k + 1]) % TOKENS
    ensures forall j | k < j < |run| :: run[j].Accept? || run[j].c != c
  {
    var last := |run| - 1;
    assert run != [];
    hide Apply, Enabled, After;
    var before := LastEvent(run, s);
    if run[last] == Draw(c) {
      k := last;
      assert run[..k + 1] == run;
      DrawnInOrder(run, s);
    } else {
      NumberKept(before, run[last], c);
      k := CarriesWhatItDrew(run[..last], before, c);
      assert run[..last][..k + 1] == run[..k + 1];
    }
  }

  /** A reply grants the token its handler drew, after which that handler had done nothing else. */
  lemma RepliesWhatItDrew(run: seq<Event>, s: State, c: nat) returns (k: nat)
    requires After(run) == Some(s) && Enabled(s, Record(c))
    ensures k < |run| && run[k] == Draw(c)
    ensures s.connections[c].stage.token == Draws(run[..k + 1]) % TOKENS
    ensures forall j | k < j < |run| :: run[j].Accept? || run[j].c != c
  {
    k := CarriesWhatItDrew(run, s, c);
  }

  lemma {:induction false} DrawsGrow(run: seq<Event>, k: nat)
    requires k <= |run|
    ensures Draws(run[..k]) <= Draws(run)
    decreases |run|
  {
    if k < |run| {
      DrawsGrow(run[..|run| - 1], k);
      assert run[..|run| - 1][..k] == run[..k];
    } else {
      assert run[..k] == run;
    }
  }

  /** Two drawings give the same token exactly when they lie a multiple of 2^64 drawings apart. */
  lemma TokensDistinct(run: seq<Event>, j: nat, k: nat, s: State, t: State)
    requires j < k < |run| && run[j].Draw? && run[k].Draw?
    requires After(run[..j + 1]) == Some(s) && After(run[..k + 1]) == Some(t)
    ensures run[j].c < |s.connections| && s.connections[run[j].c].stage.Numbered?
    ensures run[k].c < |t.connections| && t.connections[run[k].c].stage.Numbered?
    ensures s.connections[run[j].c].stage.token == t.connections[run[k].c].stage.token <==>
              (Draws(run[..k + 1]) - Draws(run[..j + 1])) % TOKENS == 0
    ensures Draws(run[..k + 1]) > Draws(run[..j + 1])
  {
    DrawnInOrder(run[..j + 1], s);
    DrawnInOrder(run[..k + 1], t);
    assert run[..k + 1][..k] == run[..k];
    DrawsGrow(run[..k], j + 1);
    assert run[..k][..j + 1] == run[..j + 1];
    SameResidue(Draws(run[..j + 1]), Draws(run[..k + 1]));
  }

  lemma SameResidue(a: nat, b: nat)
    requires a <= b
    ensures a % TOKENS == b % TOKENS <==> (b - a) % TOKENS == 0
  {
  }

  /** The connection holds a permit under the token, or is about to. */
  predicate Carries(x: Connection, token: Token) {
    token in x.held || (x.stage.Numbered? && x.stage.token == token)
  }

  /** Every token in use is one of the first `n`, and in use once. */
  ghost predicate TokensUnique(connections: seq<Connection>, n: nat) {
    && (forall c: nat, t: Token | c < |connections| && Carries(connections[c], t) :: 0 < t <= n)
    && (forall c: nat, d: nat, t: Token | c < d < |connections| && Carries(connections[c], t) :: !Carries(connections[d], t))
    && (forall c: nat | c < |connections| :: NothingDisplaced(connections[c]))
  }

  /** The token about to be recorded is not one the connection already holds a permit under. */
  predicate NothingDisplaced(x: Connection) {
    x.stage.Numbered? ==> x.stage.token !in x.held
  }

  lemma UniqueStep(s: State, e: Event, n: nat)
    requires Enabled(s, e) && TokensUnique(s.connections, n)
    requires e.Draw? ==> s.next == n + 1
    ensures TokensUnique(Apply(s, e).connections, if e.Draw? then n + 1 else n)
  {
    if e.Accept? {
      assert forall token :: !Carries(Connection(Idle, map[]), token);
    } else {
      var y := OneConnectionChanges(s, e, n);
      UniqueUpdate(s.connections, e.c, y, n, if e.Draw? then n + 1 else n);
    }
  }

  /** An event other than a drawing brings its connection no token; a drawing brings it the counter's value. */
  lemma OneConnectionChanges(s: State, e: Event, n: nat) returns (y: Connection)
    requires Enabled(s, e) && TokensUnique(s.connections, n) && !e.Accept?
    requires e.Draw? ==> s.next == n + 1
    ensures e.c < |s.connections| && Apply(s, e).connections == s.connections[e.c := y]
    ensures forall t: Token | Carries(y, t) :: Carries(s.connections[e.c], t) || (e.Draw? && t == n + 1)
    ensures NothingDisplaced(y)
  {
    hide Count, GiveBack;
    y := Apply(s, e).connections[e.c];
    if e.Draw? {
      assert !Carries(s.connections[e.c], n + 1);
    }
  }

  lemma UniqueUpdate(connections: seq<Connection>, c: nat, y: Connection, n: nat, m: nat)
    requires c < |connections| && TokensUnique(connections, n) && n <= m && NothingDisplaced(y)
    requires forall t: Token | Carries(y, t) :: Carries(connections[c], t) || n < t <= m
    ensures TokensUnique(connections[c := y], m)
  {
    hide Carries, NothingDisplaced;
  }

  /** As long as no more than 2^64 - 1 tokens have been drawn, no two permits are held under the same token, anywhere. */
  lemma {:induction false} TokensInUseDistinct(run: seq<Event>, s: State)
    requires After(run) == Some(s) && Draws(run) < TOKENS
    ensures TokensUnique(s.connections, Draws(run))
  {
    hide TokensUnique, Apply, Enabled;
    if run == [] {
      NoTokens();
    } else {
      var before := LastEvent(run, s);
      TokensInUseDistinct(run[..|run| - 1], before);
      CounterCounts(run[..|run| - 1], before);
      UniqueStep(before, run[|run| - 1], Draws(run[..|run| - 1]));
    }
  }

  lemma NoTokens()
    ensures TokensUnique([], 0)
  {
  }

  /**
   * A granted permit is held under the token of the reply, and releasing that token gives it back. As long as no more than
   * 2^64 - 1 tokens have been drawn, recording it displaces nothing.
   */
  lemma GrantIsReleasable(run: seq<Event>, s: State, c: nat)
    requires After(run) == Some(s) && Enabled(s, Record(c))
    ensures var token, key := s.connections[c].stage.token, s.connections[c].stage.key;
            var t := Apply(s, Record(c));
            && c < |t.connections| && token in t.connections[c].held && t.connections[c].held[token] == key
            && Enabled(t, Release(c, token))
            && key in t.slots && Apply(t, Release(c, token)).slots == t.slots[key := t.slots[key] + 1]
            && token !in Apply(t, Release(c, token)).connections[c].held
            && (Draws(run) < TOKENS ==> t.slots == s.slots && t.connections[c].held.Keys == s.connections[c].held.Keys + {token}
                                        && token !in s.connections[c].held)
  {
    hide TokensUnique, Conserved, Apply, Enabled;
    PermitsConserved(run, s);
    HoldsThenReleases(s, c);
    if Draws(run) < TOKENS {
      TokensInUseDistinct(run, s);
      DisplacesNothing(s, c, Draws(run));
    }
  }

  lemma HoldsThenReleases(s: State, c: nat)
    requires Conserved(s) && Enabled(s, Record(c))
    ensures var token, key := s.connections[c].stage.token, s.connections[c].stage.key;
            var t := Apply(s, Record(c));
            && c < |t.connections| && token in t.connections[c].held && t.connections[c].held[token] == key
            && Enabled(t, Release(c, token))
            && key in t.slots && Apply(t, Release(c, token)).slots == t.slots[key := t.slots[key] + 1]
            && token !in Apply(t, Release(c, token)).connections[c].held
  {
    assert Uses(s.connections[c], s.connections[c].stage.key) > 0;
    InUseIsKnown(s, c, s.connections[c].stage.key);
    hide Count, Conserved;
  }

  lemma DisplacesNothing(s: State, c: nat, n: nat)
    requires TokensUnique(s.connections, n) && Enabled(s, Record(c))
    ensures var token, t := s.connections[c].stage.token, Apply(s, Record(c));
            && token !in s.connections[c].held && t.slots == s.slots
            && c < |t.connections| && t.connections[c].held.Keys == s.connections[c].held.Keys + {token}
  {
    hide Count, GiveBack;
    assert NothingDisplaced(s.connections[c]);
  }

  // ---- Releasing --------------------------------------------------------------------------------------------------------

  /**
   * A release frees at most one permit, and only one its own connection holds under that token; the other connections
   * keep everything, and repeating it changes nothing more.
   */
  lemma ReleaseFreesOwnPermit(run: seq<Event>, s: State, c: nat, token: Token)
    requires After(run) == Some(s) && Enabled(s, Release(c, token))
    ensures token in s.connections[c].held ==> s.connections[c].held[token] in s.slots
    ensures var t := Apply(s, Release(c, token));
            && t.slots.Keys == s.slots.Keys
            && (forall k | k in s.slots :: t.slots[k] ==
                  s.slots[k] + if token in s.connections[c].held && s.connections[c].held[token] == k then 1 else 0)
            && (forall d | 0 <= d < |s.connections| && d != c :: t.connections[d] == s.connections[d])
            && t.connections[c].held == s.connections[c].held - {token}
            && Apply(t, Release(c, token)) == t
  {
    PermitsConserved(run, s);
    if token in s.connections[c].held {
      KnownWhenHeld(s, c, token);
    } else {
      assert s.connections[c].held - {token} == s.connections[c].held;
    }
  }

  /** When a handler returns, each lock gets back exactly the permits the connection held. */
  lemma HangUpReturnsAll(run: seq<Event>, s: State, c: nat, key: LockKey)
    requires After(run) == Some(s) && Enabled(s, HangUp(c))
    ensures var t := Apply(s, HangUp(c));
            && Available(t, key) == Available(s, key) + Uses(s.connections[c], key)
            && Uses(t.connections[c], key) == 0
            && (forall d | 0 <= d < |s.connections| && d != c :: t.connections[d] == s.connections[d])
  {
    PermitsConserved(run, s);
    Transfers(s, HangUp(c), key);
    CountNothing(key);
  }

  // ---- The connection counter ----------------------------------------------------------------------------------------------

  function Present(connections: seq<Connection>): nat {
    if connections == [] then 0
    else Present(connections[..|connections| - 1]) + if connections[|connections| - 1].stage.Gone? then 0 else 1
  }

  lemma {:induction false} PresentUpdate(connections: seq<Connection>, c: nat, x: Connection)
    requires c < |connections|
    ensures Present(connections[c := x]) ==
            Present(connections) - (if connections[c].stage.Gone? then 0 else 1) + if x.stage.Gone? then 0 else 1
    ensures !connections[c].stage.Gone? ==> Present(connections) > 0
  {
    var last := |connections| - 1;
    if c == last {
      assert connections[c := x][..last] == connections[..last];
    } else {
      PresentUpdate(connections[..last], c, x);
      assert connections[c := x][..last] == connections[..last][c := x];
    }
  }

  /** `active` counts the connections whose task has not ended. */
  lemma {:induction false} ActiveIsExact(run: seq<Event>, s: State)
    requires After(run) == Some(s)
    ensures s.active == Present(s.connections)
  {
    hide Count, GiveBack;
    if run != [] {
      var before := LastEvent(run, s);
      var e := run[|run| - 1];
      ActiveIsExact(run[..|run| - 1], before);
      if e.Accept? {
        assert s.connections[..|before.connections|] == before.connections;
      } else {
        PresentUpdate(before.connections, e.c, s.connections[e.c]);
        assert s.connections == before.connections[e.c := s.connections[e.c]];
      }
    }
  }

  /** A task that is about to end is still counted. */
  lemma DepartNeverUnderflows(run: seq<Event>, s: State, c: nat)
    requires After(run) == Some(s) && c < |s.connections| && s.connections[c].stage.HungUp?
    ensures Enabled(s, Depart(c))
  {
    ActiveIsExact(run, s);
    PresentUpdate(s.connections, c, s.connections[c]);
  }
}
