/** The two-lock warm cache: api/cache.py, as interleaved steps of callers, one refresher and
    callers of `start`. Taking a lock is a step of its own; what a thread does while it holds the
    payload lock, and releasing it, is the next one. A computed value is named by the moment its
    computation started, on a clock that ticks with every computation. */
module WarmCache {
  import opened Wrappers

  type Tid = nat

  /** The refresher's thread id; callers have others. */
  const REFRESHER: Tid := 0

  /** Who runs `_refresh`. A caller carries whether the cache was warm when its `get` began. */
  datatype Who = Caller(warm: bool) | Refresher(first: bool)

  datatype Pc =
    | Idle                                     // between calls
    | PeekWant(warm: bool)                     // get: wants the payload lock
    | PeekHeld(warm: bool)                     // get: holds it
    | RefreshWant(who: Who)                    // _refresh: wants the refresh lock
    | CheckWant(who: Who)                      // holds the refresh lock, wants the payload lock
    | CheckHeld(who: Who)                      // holds both, about to recheck
    | Computing(who: Who, started: nat)        // holds the refresh lock only
    | StoreWant(who: Who, started: nat)
    | StoreHeld(who: Who, started: nat)
    | Leaving(who: Who, result: nat)           // about to release the refresh lock and return
    | Sleeping(first: bool)                    // the refresher between rounds
    | StartWant                                // start: wants the payload lock
    | StartHeld
    | Spawning                                 // start: about to start the thread

  /** The locks and fields of the object, and what has been observed of it so far. */
  datatype Shared = Shared(
    lock: Option<Tid>, refreshLock: Option<Tid>, value: nat, hasValue: bool, started: bool,
    spawner: Option<Tid>,   // who is about to start the refresher
    spawned: bool,          // the refresher exists
    clock: nat,             // computations begun so far
    coldComputes: nat)      // successful computations under only_if_missing

  datatype Cache = Cache(shared: Shared, threads: map<Tid, Pc>)

  const INITIAL := Cache(Shared(None, None, 0, false, false, None, false, 0, 0), map[])

  predicate OnlyIfMissing(who: Who) {
    who.Caller? || who.first
  }

  /** One step of thread `t` at `pc`. `choice` picks what an idle thread calls (`get` or `start`) and
      whether a computation succeeds. A thread that waits for a taken lock does not move. */
  function Advance(s: Shared, t: Tid, pc: Pc, choice: bool): (Shared, Pc) {
    match pc
    case Idle => (s, if choice then PeekWant(s.hasValue) else StartWant)
    case PeekWant(warm) =>
      if s.lock.None? then (s.(lock := Some(t)), PeekHeld(warm)) else (s, pc)
    case PeekHeld(warm) =>
      if s.hasValue then (s.(lock := None), Idle)
      else (s.(lock := None), RefreshWant(Caller(warm)))
    case RefreshWant(who) =>
      if s.refreshLock.None? then (s.(refreshLock := Some(t)), CheckWant(who)) else (s, pc)
    case CheckWant(who) =>
      if s.lock.None? then (s.(lock := Some(t)), CheckHeld(who)) else (s, pc)
    case CheckHeld(who) =>
      if OnlyIfMissing(who) && s.hasValue then (s.(lock := None), Leaving(who, s.value))
      else (s.(lock := None, clock := s.clock + 1), Computing(who, s.clock + 1))
    case Computing(who, started) =>
      if choice then (s, StoreWant(who, started))
      else // the exception leaves through the refresh lock
        (s.(refreshLock := None), if who.Caller? then Idle else Sleeping(who.first))
    case StoreWant(who, started) =>
      if s.lock.None? then (s.(lock := Some(t)), StoreHeld(who, started)) else (s, pc)
    case StoreHeld(who, started) =>
      (s.(lock := None, value := started, hasValue := true,
          coldComputes := s.coldComputes + (if OnlyIfMissing(who) then 1 else 0)),
       Leaving(who, started))
    case Leaving(who, result) =>
      if who.Caller? then (s.(refreshLock := None), Idle)
      else (s.(refreshLock := None), Sleeping(false))
    case Sleeping(first) => (s, RefreshWant(Refresher(first)))
    case StartWant =>
      if s.lock.None? then (s.(lock := Some(t)), StartHeld) else (s, pc)
    case StartHeld =>
      if s.started then (s.(lock := None), Idle)
      else (s.(lock := None, started := true, spawner := Some(t)), Spawning)
    case Spawning => (s.(spawner := None, spawned := true), Idle)
  }

  /** One step of the system: a thread moves, and a spawning one adds the refresher; an unknown
      thread id is a new caller. */
  function Next(c: Cache, t: Tid, choice: bool): Cache {
    if t !in c.threads then
      if t == REFRESHER then c else c.(threads := c.threads[t := Idle])
    else
      var (s, pc) := Advance(c.shared, t, c.threads[t], choice);
      var threads := c.threads[t := pc];
      Cache(s, if c.threads[t].Spawning? then threads[REFRESHER := RefreshWant(Refresher(true))] else threads)
  }

  datatype Step = Step(t: Tid, choice: bool)

  function Execute(steps: seq<Step>): Cache {
    if steps == [] then INITIAL
    else
      var last := steps[|steps| - 1];
      Next(Execute(steps[..|steps| - 1]), last.t, last.choice)
  }

  // ----- the invariant ------------------------------------------------------------------

  predicate HoldsLock(pc: Pc) {
    pc.PeekHeld? || pc.CheckHeld? || pc.StoreHeld? || pc.StartHeld?
  }

  predicate HoldsRefreshLock(pc: Pc) {
    || pc.CheckWant? || pc.CheckHeld? || pc.Computing?
    || pc.StoreWant? || pc.StoreHeld? || pc.Leaving?
  }

  ghost predicate SharedOk(s: Shared) {
    && s.value <= s.clock
    && (s.hasValue <==> s.value >= 1)
    && (!s.hasValue ==> s.coldComputes == 0)
    && s.coldComputes <= 1
    && (s.started <==> s.spawner.Some? || s.spawned)
    && !(s.spawner.Some? && s.spawned)
  }

  /** A thread in `_refresh` on behalf of a caller did not find the cache warm. */
  ghost predicate WhoOk(s: Shared, t: Tid, who: Who) {
    match who
    case Caller(warm) => t != REFRESHER && !warm
    case Refresher(_) => t == REFRESHER
  }

  /** The running computation is the last one begun, and one that runs only because the value was
      missing still finds it missing. */
  ghost predicate NewestComputation(s: Shared, who: Who, started: nat) {
    && started == s.clock
    && s.value < started
    && (OnlyIfMissing(who) ==> !s.hasValue)
  }

  ghost predicate ThreadOk(s: Shared, t: Tid, pc: Pc) {
    && (HoldsLock(pc) <==> s.lock == Some(t))
    && (HoldsRefreshLock(pc) <==> s.refreshLock == Some(t))
    && (pc.Spawning? <==> s.spawner == Some(t))
    && (t == REFRESHER ==> s.spawned)
    && match pc
       case Idle => t != REFRESHER
       case PeekWant(warm) => t != REFRESHER && (warm ==> s.hasValue)
       case PeekHeld(warm) => t != REFRESHER && (warm ==> s.hasValue)
       case RefreshWant(who) => WhoOk(s, t, who)
       case CheckWant(who) => WhoOk(s, t, who)
       case CheckHeld(who) => WhoOk(s, t, who)
       case Computing(who, started) => WhoOk(s, t, who) && NewestComputation(s, who, started)
       case StoreWant(who, started) => WhoOk(s, t, who) && NewestComputation(s, who, started)
       case StoreHeld(who, started) => WhoOk(s, t, who) && NewestComputation(s, who, started)
       case Leaving(who, result) => WhoOk(s, t, who) && s.hasValue && result == s.value
       case Sleeping(_) => t == REFRESHER
       case StartWant => t != REFRESHER
       case StartHeld => t != REFRESHER
       case Spawning => t != REFRESHER
  }

  ghost predicate Invariant(c: Cache) {
    && SharedOk(c.shared)
    && (c.shared.lock.Some? ==> c.shared.lock.value in c.threads)
    && (c.shared.refreshLock.Some? ==> c.shared.refreshLock.value in c.threads)
    && (c.shared.spawner.Some? ==> c.shared.spawner.value in c.threads)
    && (REFRESHER in c.threads <==> c.shared.spawned)
    && forall t :: t in c.threads ==> ThreadOk(c.shared, t, c.threads[t])
  }

  /** The thread that moves. */
  lemma MoverKept(s: Shared, t: Tid, pc: Pc, choice: bool)
    requires SharedOk(s) && ThreadOk(s, t, pc)
    ensures SharedOk(Advance(s, t, pc, choice).0)
    ensures ThreadOk(Advance(s, t, pc, choice).0, t, Advance(s, t, pc, choice).1)
  {
  }

  /** The others: whoever is inside `_refresh` holds the refresh lock, so nobody else changes the
      value or begins a computation under it. */
  lemma OtherKept(s: Shared, t: Tid, pc: Pc, choice: bool, u: Tid, other: Pc)
    requires SharedOk(s) && ThreadOk(s, t, pc) && ThreadOk(s, u, other) && t != u
    ensures ThreadOk(Advance(s, t, pc, choice).0, u, other)
  {
  }

  lemma LockHolders(s: Shared, t: Tid, pc: Pc, choice: bool)
    ensures var next := Advance(s, t, pc, choice).0;
      && (next.lock == s.lock || next.lock.None? || next.lock == Some(t))
      && (next.refreshLock == s.refreshLock || next.refreshLock.None? || next.refreshLock == Some(t))
      && (next.spawner == s.spawner || next.spawner.None? || next.spawner == Some(t))
      && (next.spawned <==> s.spawned || pc.Spawning?)
  {
  }

  lemma NextKeepsInvariant(c: Cache, t: Tid, choice: bool)
    requires Invariant(c)
    ensures Invariant(Next(c, t, choice))
  {
    if t in c.threads {
      var s, pc := c.shared, c.threads[t];
      MoverKept(s, t, pc, choice);
      LockHolders(s, t, pc, choice);
      forall u | u in c.threads && u != t ensures ThreadOk(Advance(s, t, pc, choice).0, u, c.threads[u]) {
        OtherKept(s, t, pc, choice, u, c.threads[u]);
      }
    }
  }

  lemma {:induction false} AlwaysInvariant(steps: seq<Step>)
    ensures Invariant(Execute(steps))
  {
    if steps != [] {
      var last := steps[|steps| - 1];
      AlwaysInvariant(steps[..|steps| - 1]);
      NextKeepsInvariant(Execute(steps[..|steps| - 1]), last.t, last.choice);
    }
  }

  // ----- what every interleaving promises -----------------------------------------------

  /** At most one computation runs at a time. */
  lemma OneComputationAtATime(steps: seq<Step>, t: Tid, u: Tid)
    requires var c := Execute(steps);
      t in c.threads && u in c.threads && c.threads[t].Computing? && c.threads[u].Computing?
    ensures t == u
  {
    AlwaysInvariant(steps);
  }

  /** However many callers arrive cold, and counting the refresher's own first round, at most one
      computation under only_if_missing ever succeeds. */
  lemma ColdCallersComputeOnce(steps: seq<Step>)
    ensures Execute(steps).shared.coldComputes <= 1
    ensures Execute(steps).shared.coldComputes == 1 ==> Execute(steps).shared.hasValue
  {
    AlwaysInvariant(steps);
  }

  lemma StepMonotone(c: Cache, t: Tid, choice: bool)
    requires Invariant(c)
    ensures c.shared.hasValue ==> Next(c, t, choice).shared.hasValue
    ensures c.shared.value <= Next(c, t, choice).shared.value
  {
  }

  /** Once there is a value there always is one, and it is only ever replaced by a newer one. */
  lemma {:induction false} ValueNeverReverts(steps: seq<Step>, n: nat)
    requires n <= |steps|
    ensures Execute(steps[..n]).shared.hasValue ==> Execute(steps).shared.hasValue
    ensures Execute(steps[..n]).shared.value <= Execute(steps).shared.value
  {
    if n < |steps| {
      var earlier, last := steps[..|steps| - 1], steps[|steps| - 1];
      assert steps[..n] == earlier[..n];
      ValueNeverReverts(earlier, n);
      AlwaysInvariant(earlier);
      StepMonotone(Execute(earlier), last.t, last.choice);
    } else {
      assert steps[..n] == steps;
    }
  }

  /** The value a `get` is about to return at its next step. */
  function Returning(c: Cache, t: Tid): Option<nat>
    requires t in c.threads
  {
    match c.threads[t]
    case PeekHeld(_) => if c.shared.hasValue then Some(c.shared.value) else None
    case Leaving(who, result) => if who.Caller? then Some(result) else None
    case _ => None
  }

  /** What the i-th step of a run returns from a `get`, if it does. */
  function ReturnedAt(steps: seq<Step>, i: nat): Option<nat>
    requires i < |steps|
  {
    var c, t := Execute(steps[..i]), steps[i].t;
    if t in c.threads then Returning(c, t) else None
  }

  /** Over any run: of two `get` calls, cold or warm and whoever makes them, the one that returns later
      never returns an older value; in particular a `get` that begins after another returned does not.
      The step that returns ends the call. */
  lemma ReadsAreMonotone(steps: seq<Step>, i: nat, j: nat)
    requires i <= j < |steps| && ReturnedAt(steps, i).Some? && ReturnedAt(steps, j).Some?
    ensures 1 <= ReturnedAt(steps, i).value <= ReturnedAt(steps, j).value
    ensures var after := Execute(steps[..i + 1]);
      steps[i].t in after.threads && after.threads[steps[i].t] == Idle
  {
    AlwaysInvariant(steps[..i]);
    AlwaysInvariant(steps[..j]);
    assert steps[..j][..i] == steps[..i];
    ValueNeverReverts(steps[..j], i);
    assert steps[..i + 1][..i] == steps[..i];
  }

  /** A `get` that begins on a warm cache returns as soon as it has the payload lock; it is never
      anywhere in `_refresh`, so it never waits for a computation. */
  lemma WarmGetSkipsRefresh(steps: seq<Step>, t: Tid, choice: bool)
    requires t in Execute(steps).threads
    ensures var c := Execute(steps);
      match c.threads[t]
      case PeekHeld(warm) => warm ==> Next(c, t, choice).threads[t] == Idle
      case RefreshWant(who) => who.Caller? ==> !who.warm
      case CheckWant(who) => who.Caller? ==> !who.warm
      case CheckHeld(who) => who.Caller? ==> !who.warm
      case Computing(who, _) => who.Caller? ==> !who.warm
      case StoreWant(who, _) => who.Caller? ==> !who.warm
      case StoreHeld(who, _) => who.Caller? ==> !who.warm
      case Leaving(who, _) => who.Caller? ==> !who.warm
      case _ => true
  {
    AlwaysInvariant(steps);
  }

  /** `start` is idempotent: at most one thread is ever about to start the refresher, and none once
      it exists. */
  lemma RefresherStartsOnce(steps: seq<Step>, t: Tid, u: Tid)
    requires t in Execute(steps).threads && Execute(steps).threads[t].Spawning?
    requires u in Execute(steps).threads
    ensures REFRESHER !in Execute(steps).threads
    ensures Execute(steps).threads[u].Spawning? ==> t == u
  {
    AlwaysInvariant(steps);
  }

  /** A failed computation leaves the value alone and gives the refresh lock back. */
  lemma FailureKeepsLastValue(steps: seq<Step>, t: Tid)
    requires t in Execute(steps).threads && Execute(steps).threads[t].Computing?
    ensures var c, next := Execute(steps), Next(Execute(steps), t, false);
      && next.shared.value == c.shared.value && next.shared.hasValue == c.shared.hasValue
      && next.shared.refreshLock.None?
      && (next.threads[t].Idle? || next.threads[t].Sleeping?)
  {
  }

  /** A thread is in the middle of a call. */
  predicate Active(pc: Pc) {
    !pc.Idle? && !pc.Sleeping?
  }

  /** A thread is waiting for a lock that another thread has. */
  predicate Blocked(s: Shared, pc: Pc) {
    || ((pc.PeekWant? || pc.CheckWant? || pc.StoreWant? || pc.StartWant?) && s.lock.Some?)
    || (pc.RefreshWant? && s.refreshLock.Some?)
  }

  /** No deadlock is reachable: while any call is in progress, some call can go on. */
  lemma NoDeadlock(steps: seq<Step>, t: Tid) returns (u: Tid)
    requires t in Execute(steps).threads && Active(Execute(steps).threads[t])
    ensures u in Execute(steps).threads
    ensures Active(Execute(steps).threads[u]) && !Blocked(Execute(steps).shared, Execute(steps).threads[u])
  {
    AlwaysInvariant(steps);
    var c := Execute(steps);
    u := t;
    if c.shared.lock.Some? {
      u := c.shared.lock.value;
    } else if c.threads[t].RefreshWant? && c.shared.refreshLock.Some? {
      u := c.shared.refreshLock.value;
    }
  }

  /** The payload lock is never held for long: its holder releases it in its very next step,
      whatever anybody else does. */
  lemma PayloadLockIsShort(steps: seq<Step>, choice: bool)
    requires Execute(steps).shared.lock.Some?
    ensures var c := Execute(steps);
      Next(c, c.shared.lock.value, choice).shared.lock.None?
  {
    AlwaysInvariant(steps);
  }

  // ----- what gets done -----------------------------------------------------------------

  /** n steps of one thread with nobody else moving and every computation succeeding. */
  function RunAlone(c: Cache, t: Tid, n: nat): Cache
    decreases n
  {
    if n == 0 then c else RunAlone(Next(c, t, true), t, n - 1)
  }

  lemma RunAloneStep(c: Cache, t: Tid, n: nat, next: Cache)
    requires n > 0 && next == Next(c, t, true)
    ensures RunAlone(c, t, n) == RunAlone(next, t, n - 1)
  {
  }

  /** A thread of the cache moved to a place of its program. */
  function At(s: Shared, threads: map<Tid, Pc>, t: Tid, pc: Pc): Cache { Cache(s, threads[t := pc]) }

  lemma StepAt(s: Shared, threads: map<Tid, Pc>, t: Tid, pc: Pc)
    requires !pc.Spawning?
    ensures var (after, next) := Advance(s, t, pc, true);
      Next(At(s, threads, t, pc), t, true) == At(after, threads, t, next)
  {
    var (after, next) := Advance(s, t, pc, true);
    assert threads[t := pc][t := next] == threads[t := next];
  }

  /** Inside the refresh lock with nothing to find: three steps to the computation. */
  lemma BeginsAlone(s: Shared, threads: map<Tid, Pc>, t: Tid, who: Who, n: nat)
    requires s.lock.None? && s.refreshLock.None? && !(OnlyIfMissing(who) && s.hasValue) && n >= 3
    ensures RunAlone(At(s, threads, t, RefreshWant(who)), t, n)
      == RunAlone(At(s.(refreshLock := Some(t), clock := s.clock + 1), threads, t, Computing(who, s.clock + 1)),
                  t, n - 3)
  {
    var held := s.(refreshLock := Some(t));
    var both := held.(lock := Some(t));
    StepAt(s, threads, t, RefreshWant(who));
    RunAloneStep(At(s, threads, t, RefreshWant(who)), t, n, At(held, threads, t, CheckWant(who)));
    StepAt(held, threads, t, CheckWant(who));
    RunAloneStep(At(held, threads, t, CheckWant(who)), t, n - 1, At(both, threads, t, CheckHeld(who)));
    StepAt(both, threads, t, CheckHeld(who));
    assert both.(lock := None, clock := s.clock + 1) == s.(refreshLock := Some(t), clock := s.clock + 1);
    RunAloneStep(At(both, threads, t, CheckHeld(who)), t, n - 2,
                 At(s.(refreshLock := Some(t), clock := s.clock + 1), threads, t, Computing(who, s.clock + 1)));
  }

  ghost predicate Stored(s: Shared, done: Shared, value: nat) {
    done.value == value && done.hasValue && done.clock == s.clock && done.lock.None? && done.refreshLock.None?
  }

  /** From a computation that succeeds, four steps to the value stored and the refresh lock let go. */
  lemma StoresAlone(s: Shared, threads: map<Tid, Pc>, t: Tid, who: Who, value: nat)
    requires s.lock.None?
    ensures var done := RunAlone(At(s, threads, t, Computing(who, value)), t, 4);
      && Stored(s, done.shared, value)
      && done.threads == threads[t := if who.Caller? then Idle else Sleeping(false)]
  {
    var both := s.(lock := Some(t));
    StepAt(s, threads, t, Computing(who, value));
    RunAloneStep(At(s, threads, t, Computing(who, value)), t, 4, At(s, threads, t, StoreWant(who, value)));
    StepAt(s, threads, t, StoreWant(who, value));
    RunAloneStep(At(s, threads, t, StoreWant(who, value)), t, 3, At(both, threads, t, StoreHeld(who, value)));
    LeavesAlone(both, threads, t, who, value);
  }

  lemma LeavesAlone(s: Shared, threads: map<Tid, Pc>, t: Tid, who: Who, value: nat)
    ensures var done := RunAlone(At(s, threads, t, StoreHeld(who, value)), t, 2);
      && Stored(s, done.shared, value)
      && done.threads == threads[t := if who.Caller? then Idle else Sleeping(false)]
  {
    var (after, pc) := Advance(s, t, StoreHeld(who, value), true);
    StepAt(s, threads, t, StoreHeld(who, value));
    RunAloneStep(At(s, threads, t, StoreHeld(who, value)), t, 2, At(after, threads, t, pc));
    var (last, out) := Advance(after, t, pc, true);
    StepAt(after, threads, t, pc);
    RunAloneStep(At(after, threads, t, pc), t, 1, At(last, threads, t, out));
  }

  /** Inside the refresh lock with nothing to find: seven steps compute, store and leave. */
  lemma ComputesAlone(s: Shared, threads: map<Tid, Pc>, t: Tid, who: Who)
    requires s.lock.None? && s.refreshLock.None? && !(OnlyIfMissing(who) && s.hasValue)
    ensures var done := RunAlone(At(s, threads, t, RefreshWant(who)), t, 7);
      && done.shared.value == s.clock + 1 && done.shared.hasValue && done.shared.clock == s.clock + 1
      && done.shared.lock.None? && done.shared.refreshLock.None?
      && done.threads == threads[t := if who.Caller? then Idle else Sleeping(false)]
  {
    BeginsAlone(s, threads, t, who, 7);
    StoresAlone(s.(refreshLock := Some(t), clock := s.clock + 1), threads, t, who, s.clock + 1);
  }

  /** After a success the refresher's next round computes again, whatever value there is, and its success
      replaces that value by a newer one. */
  lemma RefresherReplaces(c: Cache)
    requires REFRESHER in c.threads && c.threads[REFRESHER] == Sleeping(false)
    requires c.shared.lock.None? && c.shared.refreshLock.None?
    ensures var done := RunAlone(c, REFRESHER, 8);
      && done.shared.value == c.shared.clock + 1 && done.shared.hasValue
      && REFRESHER in done.threads && done.threads[REFRESHER] == Sleeping(false)
      && done.shared.lock.None? && done.shared.refreshLock.None?
  {
    assert c == At(c.shared, c.threads, REFRESHER, Sleeping(false)) by {
      assert c.threads[REFRESHER := Sleeping(false)] == c.threads;
    }
    StepAt(c.shared, c.threads, REFRESHER, Sleeping(false));
    RunAloneStep(c, REFRESHER, 8, At(c.shared, c.threads, REFRESHER, RefreshWant(Refresher(false))));
    ComputesAlone(c.shared, c.threads, REFRESHER, Refresher(false));
  }

  /** A caller that arrives cold and is left alone computes the value itself and returns. */
  lemma ColdCallerComputes(c: Cache, t: Tid)
    requires t in c.threads && c.threads[t] == Idle && !c.shared.hasValue
    requires c.shared.lock.None? && c.shared.refreshLock.None?
    ensures var done := RunAlone(c, t, 10);
      done.shared.value == c.shared.clock + 1 && done.shared.hasValue && t in done.threads && done.threads[t] == Idle
  {
    var s, threads := c.shared, c.threads;
    assert c == At(s, threads, t, Idle) by { assert threads[t := Idle] == threads; }
    var held := s.(lock := Some(t));
    StepAt(s, threads, t, Idle);
    StepAt(s, threads, t, PeekWant(false));
    StepAt(held, threads, t, PeekHeld(false));
    RunAloneStep(c, t, 10, At(s, threads, t, PeekWant(false)));
    RunAloneStep(At(s, threads, t, PeekWant(false)), t, 9, At(held, threads, t, PeekHeld(false)));
    RunAloneStep(At(held, threads, t, PeekHeld(false)), t, 8, At(s, threads, t, RefreshWant(Caller(false))));
    ComputesAlone(s, threads, t, Caller(false));
  }

  /** The refresher starts on its first round, which a failure leaves unfinished and a success ends. */
  lemma FirstRoundLasts(c: Cache, t: Tid, first: bool, started: nat)
    requires t in c.threads
    ensures c.threads[t].Spawning? ==> var next := Next(c, t, true);
      REFRESHER in next.threads && next.threads[REFRESHER] == RefreshWant(Refresher(true))
    ensures c.threads[t] == Computing(Refresher(first), started) ==>
      Next(c, t, false).threads[t] == Sleeping(first)
    ensures c.threads[t] == Leaving(Refresher(first), started) ==> Next(c, t, true).threads[t] == Sleeping(false)
    ensures c.threads[t] == Sleeping(first) ==> Next(c, t, true).threads[t] == RefreshWant(Refresher(first))
  {
  }

  /** On that round the refresher leaves a value that a caller stored alone. */
  lemma FirstRoundSkips(s: Shared, threads: map<Tid, Pc>)
    requires s.lock.None? && s.refreshLock.None? && s.hasValue
    ensures var done := RunAlone(At(s, threads, REFRESHER, RefreshWant(Refresher(true))), REFRESHER, 4);
      done.shared == s && done.threads == threads[REFRESHER := Sleeping(false)]
  {
    var t, who := REFRESHER, Refresher(true);
    var held := s.(refreshLock := Some(t));
    var both := held.(lock := Some(t));
    StepAt(s, threads, t, RefreshWant(who));
    RunAloneStep(At(s, threads, t, RefreshWant(who)), t, 4, At(held, threads, t, CheckWant(who)));
    StepAt(held, threads, t, CheckWant(who));
    RunAloneStep(At(held, threads, t, CheckWant(who)), t, 3, At(both, threads, t, CheckHeld(who)));
    StepAt(both, threads, t, CheckHeld(who));
    assert both.(lock := None) == held && held.(refreshLock := None) == s;
    RunAloneStep(At(both, threads, t, CheckHeld(who)), t, 2, At(held, threads, t, Leaving(who, s.value)));
    StepAt(held, threads, t, Leaving(who, s.value));
    RunAloneStep(At(held, threads, t, Leaving(who, s.value)), t, 1, At(s, threads, t, Sleeping(false)));
  }
}
