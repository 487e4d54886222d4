/**
 One session seen by many gateways.

 The store is shared; each gateway has a private cached state that nothing re-validates, and a reader
 or writer touches the store and its gateway's cache in separate steps. A step is one such touch, so a
 run is any interleaving. The clock is shared and never goes back, and every gateway has the same idle TTL.
 */
module SessionFence {
  import opened Scopes
  import opened Records
  import opened SessionStore

  type Gateway = nat
  type ThreadId = nat

  /**
   Where a call is. `late` records that it began after the first close had committed.
   - Missed: Get found no cached state.        - Loaded: the store answered, the cache is not written yet.
   - Answered: Get returned.                   - Checked: a heartbeat's validation has passed.
   - Beating/Closing: the time is read, the store not yet called.
   - Saved: the store answered a write, the cache is not written yet.
   */
  datatype Thread =
    | Missed(gateway: Gateway, late: bool)
    | Loaded(gateway: Gateway, state: SessionState, late: bool)
    | Answered(gateway: Gateway, answer: Option<SessionState>, late: bool)
    | Checked(gateway: Gateway)
    | Beating(gateway: Gateway, now: int)
    | Closing(gateway: Gateway, mode: string, now: int)
    | Saved(gateway: Gateway, state: SessionState)

  /** `ttl` is the idle TTL, and `closedSince` the clock when the first close reached the store. */
  datatype World = World(
    scope: Scope,
    ttl: int,
    clock: int,
    stored: Option<SessionState>,
    cached: map<Gateway, SessionState>,
    threads: map<ThreadId, Thread>,
    closedSince: Option<int>)

  datatype Step =
    | Tick(to: int)
    | StartGet(t: ThreadId, g: Gateway)
    | Load(t: ThreadId)
    | FillCache(t: ThreadId)
    | Return(t: ThreadId)
    | Check(t: ThreadId)
    | StartHeartbeat(t: ThreadId)
    | SaveHeartbeat(t: ThreadId)
    | StartClose(t: ThreadId, g: Gateway, mode: string)
    | SaveClose(t: ThreadId)
    | CacheSaved(t: ThreadId)
    | WholeHeartbeat(g: Gateway)

  predicate Expired(s: SessionState, now: int, ttl: int)
  {
    s.status.Active? && s.lastHeartbeatAt != ZERO_TIME && now - s.lastHeartbeatAt > ttl
  }

  /** `validateSessionState`: closed or idle sessions are refused, an unknown session passes. */
  predicate Rejects(answer: Option<SessionState>, now: int, ttl: int)
  {
    answer.Some? && (answer.value.status.Closed? || Expired(answer.value, now, ttl))
  }

  predicate Enabled(w: World, a: Step)
  {
    match a
    case Tick(to) => w.clock <= to
    case StartGet(t, _) => t !in w.threads
    case Load(t) => t in w.threads && w.threads[t].Missed?
    case FillCache(t) => t in w.threads && w.threads[t].Loaded?
    case Return(t) => t in w.threads && w.threads[t].Answered?
    case Check(t) => t in w.threads && w.threads[t].Answered? && !Rejects(w.threads[t].answer, w.clock, w.ttl)
    case StartHeartbeat(t) => t in w.threads && w.threads[t].Checked?
    case SaveHeartbeat(t) => t in w.threads && w.threads[t].Beating?
    case StartClose(t, _, _) => t !in w.threads
    case SaveClose(t) => t in w.threads && w.threads[t].Closing?
    case CacheSaved(t) => t in w.threads && w.threads[t].Saved?
    case WholeHeartbeat(_) => true
  }

  function AnswerOf(w: World, g: Gateway): Option<SessionState>
  {
    if g in w.cached then Some(w.cached[g]) else w.stored
  }

  function Next(w: World, a: Step): World
    requires Enabled(w, a)
  {
    match a
    case Tick(to) => w.(clock := to)
    case StartGet(t, g) =>
      var late := w.closedSince.Some?;
      w.(threads := w.threads[t := if g in w.cached then Answered(g, Some(w.cached[g]), late) else Missed(g, late)])
    case Load(t) =>
      var th := w.threads[t];
      w.(threads := w.threads[t :=
        if w.stored.None? then Answered(th.gateway, None, th.late) else Loaded(th.gateway, w.stored.value, th.late)])
    case FillCache(t) =>
      var th := w.threads[t];
      w.(cached := w.cached[th.gateway := th.state],
        threads := w.threads[t := Answered(th.gateway, Some(th.state), th.late)])
    case Return(t) => w.(threads := w.threads - {t})
    case Check(t) => w.(threads := w.threads[t := Checked(w.threads[t].gateway)])
    case StartHeartbeat(t) => w.(threads := w.threads[t := Beating(w.threads[t].gateway, w.clock)])
    case SaveHeartbeat(t) =>
      var th := w.threads[t];
      var s := AfterHeartbeat(w.stored, w.scope, th.now);
      w.(stored := Some(s), threads := w.threads[t := Saved(th.gateway, s)])
    case StartClose(t, g, mode) => w.(threads := w.threads[t := Closing(g, mode, w.clock)])
    case SaveClose(t) =>
      var th := w.threads[t];
      var s := AfterClose(w.stored, w.scope, th.mode, th.now);
      w.(stored := Some(s), threads := w.threads[t := Saved(th.gateway, s)],
         closedSince := if w.closedSince.Some? then w.closedSince else Some(w.clock))
    case CacheSaved(t) =>
      var th := w.threads[t];
      w.(cached := w.cached[th.gateway := th.state], threads := w.threads - {t})
    case WholeHeartbeat(g) =>
      var answer := AnswerOf(w, g);
      if Rejects(answer, w.clock, w.ttl) then
        w.(cached := w.cached[g := answer.value])
      else
        var s := AfterHeartbeat(w.stored, w.scope, w.clock);
        w.(stored := Some(s), cached := w.cached[g := s])
  }

  predicate ValidRun(w: World, run: seq<Step>)
    decreases |run|
  {
    run == [] || (Enabled(w, run[0]) && ValidRun(Next(w, run[0]), run[1..]))
  }

  function After(w: World, run: seq<Step>): World
    requires ValidRun(w, run)
    decreases |run|
  {
    if run == [] then w else After(Next(w, run[0]), run[1..])
  }

  // The registry's calls are these steps in a row.

  function GetInARow(w: World, t: ThreadId, g: Gateway): World
    requires t !in w.threads
  {
    var w1 := Next(w, StartGet(t, g));
    var w2 := if w1.threads[t].Missed? then Next(w1, Load(t)) else w1;
    if w2.threads[t].Loaded? then Next(w2, FillCache(t)) else w2
  }

  /** A Get alone answers from the cache, else from the store, and leaves what it answers in the cache. */
  lemma GetIsStepsInARow(w: World, t: ThreadId, g: Gateway)
    requires t !in w.threads
    ensures var answer := if g in w.cached then Some(w.cached[g]) else w.stored;
            GetInARow(w, t, g)
            == w.(cached := if answer.Some? then w.cached[g := answer.value] else w.cached,
                  threads := w.threads[t := Answered(g, answer, w.closedSince.Some?)])
  {
    assert g in w.cached ==> w.cached[g := w.cached[g]] == w.cached;
  }

  /** A close alone stores the closed state, at the time it began, and caches what the store returned. */
  lemma CloseIsStepsInARow(w: World, t: ThreadId, g: Gateway, mode: string)
    requires t !in w.threads
    ensures var state := AfterClose(w.stored, w.scope, mode, w.clock);
            Next(Next(Next(w, StartClose(t, g, mode)), SaveClose(t)), CacheSaved(t))
            == w.(stored := Some(state), cached := w.cached[g := state],
                  closedSince := if w.closedSince.Some? then w.closedSince else Some(w.clock))
  {
  }

  lemma PassedHeartbeatInARow(w: World, t: ThreadId)
    requires Enabled(w, Check(t))
    ensures var g, state := w.threads[t].gateway, AfterHeartbeat(w.stored, w.scope, w.clock);
            Next(Next(Next(Next(w, Check(t)), StartHeartbeat(t)), SaveHeartbeat(t)), CacheSaved(t))
            == w.(stored := Some(state), cached := w.cached[g := state], threads := w.threads - {t})
  {
    var g, state := w.threads[t].gateway, AfterHeartbeat(w.stored, w.scope, w.clock);
    var w1 := w.(threads := w.threads[t := Checked(g)]);
    assert Next(w, Check(t)) == w1;
    var w2 := w.(threads := w.threads[t := Beating(g, w.clock)]);
    assert Next(w1, StartHeartbeat(t)) == w2;
    assert Next(w2, SaveHeartbeat(t)) == w.(stored := Some(state), threads := w.threads[t := Saved(g, state)]);
  }

  /** A heartbeat alone gets, checks, and if it passes stores and caches the active state: the whole step. */
  lemma HeartbeatIsStepsInARow(w: World, t: ThreadId, g: Gateway)
    requires t !in w.threads
    ensures var got := GetInARow(w, t, g);
            if Enabled(got, Check(t)) then
              Next(Next(Next(Next(got, Check(t)), StartHeartbeat(t)), SaveHeartbeat(t)), CacheSaved(t))
              == Next(w, WholeHeartbeat(g))
            else Enabled(got, Return(t)) && Next(got, Return(t)) == Next(w, WholeHeartbeat(g))
  {
    GetIsStepsInARow(w, t, g);
    var got, answer := GetInARow(w, t, g), AnswerOf(w, g);
    assert got.threads - {t} == w.threads;
    if Enabled(got, Check(t)) {
      PassedHeartbeatInARow(got, t);
      var state := AfterHeartbeat(w.stored, w.scope, w.clock);
      assert got.cached[g := state] == w.cached[g := state];
    }
  }

  function Fresh(scope: Scope, ttl: int, clock: int): World
  {
    World(scope, ttl, clock, None, map[], map[], None)
  }

  /** The latest heartbeat an active state may still carry. */
  function Horizon(w: World): int
  {
    if w.closedSince.Some? then w.closedSince.value else w.clock
  }

  /** A state some gateway holds: a closed one is the stored one, an active one is not newer than the first close. */
  predicate Held(w: World, s: SessionState)
  {
    match s.status
    case Closed => w.stored == Some(s)
    case Active => w.stored.Some? && ZERO_TIME < s.lastHeartbeatAt <= Horizon(w)
  }

  predicate ThreadOk(w: World, th: Thread)
  {
    match th
    case Missed(_, late) => late ==> w.closedSince.Some?
    case Loaded(_, s, late) => Held(w, s) && (late ==> w.closedSince.Some?)
    case Answered(_, answer, late) => (answer.Some? ==> Held(w, answer.value))
      && (late ==> w.closedSince.Some? && answer.Some?)
    case Checked(_) => true
    case Beating(_, now) => ZERO_TIME < now <= w.clock
    case Closing(_, _, now) => true
    case Saved(_, s) => Held(w, s)
  }

  ghost predicate Inv(w: World)
  {
    && ZERO_TIME < w.clock
    && (w.closedSince.Some? <==> IsClosed(w.stored))
    && (w.closedSince.Some? ==> w.closedSince.value <= w.clock)
    && (w.stored.Some? ==> Held(w, w.stored.value))
    && (forall g :: g in w.cached ==> Held(w, w.cached[g]))
    && (forall t :: t in w.threads ==> ThreadOk(w, w.threads[t]))
  }

  lemma HeldPersists(w: World, a: Step, s: SessionState)
    requires Inv(w) && Enabled(w, a) && Held(w, s)
    ensures Held(Next(w, a), s)
  {
  }

  lemma ThreadOkPersists(w: World, a: Step, th: Thread)
    requires Inv(w) && Enabled(w, a) && ThreadOk(w, th)
    ensures ThreadOk(Next(w, a), th)
  {
    match th
    case Loaded(_, s, _) => HeldPersists(w, a, s);
    case Answered(_, Some(s), _) => HeldPersists(w, a, s);
    case Saved(_, s) => HeldPersists(w, a, s);
    case _ =>
  }

  lemma StepKeepsThreads(w: World, a: Step, t: ThreadId)
    requires Inv(w) && Enabled(w, a) && t in Next(w, a).threads
    ensures ThreadOk(Next(w, a), Next(w, a).threads[t])
  {
    if t in w.threads {
      ThreadOkPersists(w, a, w.threads[t]);
    }
  }

  lemma StepKeepsCaches(w: World, a: Step, g: Gateway)
    requires Inv(w) && Enabled(w, a) && g in Next(w, a).cached
    ensures Held(Next(w, a), Next(w, a).cached[g])
  {
    if g in w.cached {
      HeldPersists(w, a, w.cached[g]);
    }
  }

  lemma StepKeepsInv(w: World, a: Step)
    requires Inv(w) && Enabled(w, a)
    ensures Inv(Next(w, a))
  {
    forall t | t in Next(w, a).threads
      ensures ThreadOk(Next(w, a), Next(w, a).threads[t])
    {
      StepKeepsThreads(w, a, t);
    }
    forall g | g in Next(w, a).cached
      ensures Held(Next(w, a), Next(w, a).cached[g])
    {
      StepKeepsCaches(w, a, g);
    }
  }

  lemma {:induction false} RunKeepsInv(w: World, run: seq<Step>)
    requires Inv(w) && ValidRun(w, run)
    ensures Inv(After(w, run))
    decreases |run|
  {
    if run != [] {
      StepKeepsInv(w, run[0]);
      RunKeepsInv(Next(w, run[0]), run[1..]);
    }
  }

  /**
   The fence, one idle TTL late: once a close has committed at `c`, every check that starts afterwards on
   any gateway and validates later than `c + ttl` rejects, however stale that gateway's cache is.
   */
  lemma CloseFencesEveryGateway(scope: Scope, ttl: int, clock: int, run: seq<Step>, t: ThreadId, now: int)
    requires ZERO_TIME < clock && ttl >= 0 && ValidRun(Fresh(scope, ttl, clock), run)
    requires var w := After(Fresh(scope, ttl, clock), run);
             && t in w.threads && w.threads[t].Answered? && w.threads[t].late
             && w.closedSince.Some? && now > w.closedSince.value + ttl
    ensures Rejects(After(Fresh(scope, ttl, clock), run).threads[t].answer, now, ttl)
  {
    RunKeepsInv(Fresh(scope, ttl, clock), run);
    var w := After(Fresh(scope, ttl, clock), run);
    assert ThreadOk(w, w.threads[t]);
  }

  lemma {:induction false} ClosedIsForever(w: World, run: seq<Step>)
    requires Inv(w) && IsClosed(w.stored) && ValidRun(w, run)
    ensures After(w, run).stored == w.stored && After(w, run).closedSince == w.closedSince
    decreases |run|
  {
    if run != [] {
      StepKeepsInv(w, run[0]);
      ClosedIsForever(Next(w, run[0]), run[1..]);
    }
  }

  /**
   The first close wins in every interleaving: status, mode, closing time and last heartbeat never change
   again, and a gateway that has the session cached as closed has exactly that state.
   */
  lemma FirstCloseWins(scope: Scope, ttl: int, clock: int, run: seq<Step>, more: seq<Step>)
    requires ZERO_TIME < clock && ValidRun(Fresh(scope, ttl, clock), run)
    requires var w := After(Fresh(scope, ttl, clock), run); IsClosed(w.stored) && ValidRun(w, more)
    ensures var w := After(Fresh(scope, ttl, clock), run);
            var w' := After(w, more);
            && w'.stored == w.stored && w'.closedSince == w.closedSince
            && forall g :: g in w'.cached && w'.cached[g].status.Closed? ==> Some(w'.cached[g]) == w.stored
  {
    var w := After(Fresh(scope, ttl, clock), run);
    RunKeepsInv(Fresh(scope, ttl, clock), run);
    RunKeepsInv(w, more);
    ClosedIsForever(w, more);
    forall g | g in After(w, more).cached && After(w, more).cached[g].status.Closed?
      ensures Some(After(w, more).cached[g]) == w.stored
    {
      assert Held(After(w, more), After(w, more).cached[g]);
    }
  }

  // Idle expiry.

  /** The stored session is closed or has gone idle. */
  predicate Dead(w: World)
  {
    w.stored.Some? && (IsClosed(w.stored) || Expired(w.stored.value, w.clock, w.ttl))
  }

  /**
   The ways to bring an idle session back: a heartbeat that has passed its check saves a time that is not
   idle yet, or a heartbeat is made on a gateway whose cached state still passes the check.
   */
  predicate Revives(w: World, a: Step)
    requires Enabled(w, a)
  {
    !IsClosed(w.stored) &&
    match a
    case SaveHeartbeat(t) => w.clock - w.threads[t].now <= w.ttl
    case WholeHeartbeat(g) => !Rejects(AnswerOf(w, g), w.clock, w.ttl)
    case _ => false
  }

  lemma StepRevivesExactly(w: World, a: Step)
    requires Inv(w) && Dead(w) && w.ttl >= 0 && Enabled(w, a)
    ensures Dead(Next(w, a)) <==> !Revives(w, a)
  {
    if a.SaveHeartbeat? {
      assert ThreadOk(w, w.threads[a.t]);
    }
  }

  predicate StaysDead(w: World, run: seq<Step>)
    requires ValidRun(w, run)
    decreases |run|
  {
    Dead(w) && (run != [] ==> StaysDead(Next(w, run[0]), run[1..]))
  }

  predicate NeverRevives(w: World, run: seq<Step>)
    requires ValidRun(w, run)
    decreases |run|
  {
    run != [] ==> !Revives(w, run[0]) && NeverRevives(Next(w, run[0]), run[1..])
  }

  lemma TtlIsFixed(w: World, a: Step)
    requires Enabled(w, a)
    ensures Next(w, a).ttl == w.ttl
  {
  }

  lemma {:induction false} StaysDeadExactly(w: World, run: seq<Step>)
    requires Inv(w) && Dead(w) && w.ttl >= 0 && ValidRun(w, run)
    ensures StaysDead(w, run) <==> NeverRevives(w, run)
    decreases |run|
  {
    if run != [] {
      StepKeepsInv(w, run[0]);
      StepRevivesExactly(w, run[0]);
      TtlIsFixed(w, run[0]);
      if Dead(Next(w, run[0])) {
        StaysDeadExactly(Next(w, run[0]), run[1..]);
      }
    }
  }

  lemma {:induction false} RunKeepsTtl(w: World, run: seq<Step>)
    requires ValidRun(w, run)
    ensures After(w, run).ttl == w.ttl
    decreases |run|
  {
    if run != [] {
      TtlIsFixed(w, run[0]);
      RunKeepsTtl(Next(w, run[0]), run[1..]);
    }
  }

  /** In every interleaving an idle session stays idle or closed exactly as long as no step revives it. */
  lemma ExpiryHoldsExactly(scope: Scope, ttl: int, clock: int, run: seq<Step>, more: seq<Step>)
    requires ZERO_TIME < clock && ttl >= 0 && ValidRun(Fresh(scope, ttl, clock), run)
    requires var w := After(Fresh(scope, ttl, clock), run); Dead(w) && ValidRun(w, more)
    ensures var w := After(Fresh(scope, ttl, clock), run); StaysDead(w, more) <==> NeverRevives(w, more)
  {
    RunKeepsInv(Fresh(scope, ttl, clock), run);
    RunKeepsTtl(Fresh(scope, ttl, clock), run);
    StaysDeadExactly(After(Fresh(scope, ttl, clock), run), more);
  }

  // Whole heartbeats: a heartbeat's check and its save are one step, and then nothing revives.

  predicate WholeHeartbeats(run: seq<Step>)
  {
    forall i :: 0 <= i < |run| ==> !run[i].StartHeartbeat?
  }

  /** While the stored session is active, `s` does not claim a later heartbeat than it. */
  predicate NotNewer(w: World, s: SessionState)
  {
    s.status.Active? && w.stored.Some? && w.stored.value.status.Active? ==>
      s.lastHeartbeatAt <= w.stored.value.lastHeartbeatAt
  }

  predicate ThreadNotNewer(w: World, th: Thread)
  {
    match th
    case Loaded(_, s, _) => NotNewer(w, s)
    case Answered(_, Some(s), _) => NotNewer(w, s)
    case Saved(_, s) => NotNewer(w, s)
    case Beating(_, _) => false
    case _ => true
  }

  ghost predicate CachesBehind(w: World)
  {
    && (forall g :: g in w.cached ==> NotNewer(w, w.cached[g]))
    && (forall t :: t in w.threads ==> ThreadNotNewer(w, w.threads[t]))
  }

  lemma NotNewerPersists(w: World, a: Step, s: SessionState)
    requires Inv(w) && Enabled(w, a) && !a.StartHeartbeat? && !a.SaveHeartbeat?
    requires Held(w, s) && NotNewer(w, s)
    ensures NotNewer(Next(w, a), s)
  {
  }

  lemma StepKeepsThreadsBehind(w: World, a: Step, t: ThreadId)
    requires Inv(w) && CachesBehind(w) && Enabled(w, a) && !a.StartHeartbeat? && t in Next(w, a).threads
    ensures ThreadNotNewer(Next(w, a), Next(w, a).threads[t])
  {
    if t in w.threads {
      assert ThreadOk(w, w.threads[t]) && ThreadNotNewer(w, w.threads[t]);
      match w.threads[t]
      case Loaded(_, s, _) => NotNewerPersists(w, a, s);
      case Answered(_, Some(s), _) => NotNewerPersists(w, a, s);
      case Saved(_, s) => NotNewerPersists(w, a, s);
      case _ =>
    }
  }

  lemma StepKeepsCachesBehind(w: World, a: Step)
    requires Inv(w) && CachesBehind(w) && Enabled(w, a) && !a.StartHeartbeat?
    ensures CachesBehind(Next(w, a))
  {
    assert !a.SaveHeartbeat?;
    forall t | t in Next(w, a).threads
      ensures ThreadNotNewer(Next(w, a), Next(w, a).threads[t])
    {
      StepKeepsThreadsBehind(w, a, t);
    }
    forall g | g in Next(w, a).cached
      ensures NotNewer(Next(w, a), Next(w, a).cached[g])
    {
      if g in w.cached {
        NotNewerPersists(w, a, w.cached[g]);
      }
    }
  }

  lemma {:induction false} RunKeepsCachesBehind(w: World, run: seq<Step>)
    requires Inv(w) && CachesBehind(w) && ValidRun(w, run) && WholeHeartbeats(run)
    ensures Inv(After(w, run)) && CachesBehind(After(w, run))
    decreases |run|
  {
    if run != [] {
      StepKeepsInv(w, run[0]);
      StepKeepsCachesBehind(w, run[0]);
      RunKeepsCachesBehind(Next(w, run[0]), run[1..]);
    }
  }

  /** With every cache behind the store, a gateway that still passes the check would have to pass it on the store. */
  lemma NothingToRevive(w: World, a: Step)
    requires Inv(w) && CachesBehind(w) && Dead(w) && Enabled(w, a) && !a.StartHeartbeat?
    ensures !Revives(w, a)
  {
    assert !a.SaveHeartbeat?;
    if a.WholeHeartbeat? && a.g in w.cached {
      assert Held(w, w.cached[a.g]) && NotNewer(w, w.cached[a.g]);
    }
  }

  lemma {:induction false} WholeRunNeverRevives(w: World, run: seq<Step>)
    requires Inv(w) && CachesBehind(w) && Dead(w) && w.ttl >= 0 && ValidRun(w, run) && WholeHeartbeats(run)
    ensures NeverRevives(w, run)
    decreases |run|
  {
    if run != [] {
      StepKeepsInv(w, run[0]);
      StepKeepsCachesBehind(w, run[0]);
      NothingToRevive(w, run[0]);
      StepRevivesExactly(w, run[0]);
      TtlIsFixed(w, run[0]);
      WholeRunNeverRevives(Next(w, run[0]), run[1..]);
    }
  }

  /** The stored session has gone idle and is still as `s` left it, or has been closed since. */
  predicate ExpiredOrClosed(w: World, s: SessionState)
  {
    && w.stored.Some? && w.stored.value.lastHeartbeatAt == s.lastHeartbeatAt
    && (IsClosed(w.stored) || (w.stored == Some(s) && Expired(s, w.clock, w.ttl)))
  }

  lemma StepKeepsExpired(w: World, a: Step, s: SessionState)
    requires Inv(w) && CachesBehind(w) && Enabled(w, a) && !a.StartHeartbeat? && ExpiredOrClosed(w, s)
    ensures ExpiredOrClosed(Next(w, a), s)
  {
    assert !a.SaveHeartbeat?;
    NothingToRevive(w, a);
  }

  lemma {:induction false} RunKeepsExpired(w: World, run: seq<Step>, s: SessionState)
    requires Inv(w) && CachesBehind(w) && ValidRun(w, run) && WholeHeartbeats(run) && ExpiredOrClosed(w, s)
    ensures ExpiredOrClosed(After(w, run), s)
    decreases |run|
  {
    if run != [] {
      StepKeepsInv(w, run[0]);
      StepKeepsCachesBehind(w, run[0]);
      StepKeepsExpired(w, run[0], s);
      RunKeepsExpired(Next(w, run[0]), run[1..], s);
    }
  }

  /**
   With whole heartbeats an idle session is never revived by any gateway: it stays as it was or becomes
   closed, with the same last heartbeat.
   */
  lemma ExpiryIsAbsorbing(scope: Scope, ttl: int, clock: int, run: seq<Step>, more: seq<Step>)
    requires ZERO_TIME < clock && ttl >= 0 && WholeHeartbeats(run) && WholeHeartbeats(more)
    requires ValidRun(Fresh(scope, ttl, clock), run)
    requires var w := After(Fresh(scope, ttl, clock), run);
             w.stored.Some? && Expired(w.stored.value, w.clock, ttl) && ValidRun(w, more)
    ensures var w := After(Fresh(scope, ttl, clock), run);
            StaysDead(w, more) && ExpiredOrClosed(After(w, more), w.stored.value)
  {
    var w := After(Fresh(scope, ttl, clock), run);
    RunKeepsCachesBehind(Fresh(scope, ttl, clock), run);
    RunKeepsTtl(Fresh(scope, ttl, clock), run);
    WholeRunNeverRevives(w, more);
    ExpiryHoldsExactly(scope, ttl, clock, run, more);
    RunKeepsExpired(w, more, w.stored.value);
  }

  // Both ways of reviving do happen when a heartbeat is split.

  lemma {:induction false} Then(w: World, run: seq<Step>, a: Step) returns (longer: seq<Step>)
    requires ValidRun(w, run) && Enabled(After(w, run), a)
    ensures ValidRun(w, longer) && After(w, longer) == Next(After(w, run), a) && run <= longer
    decreases |run|
  {
    if run == [] {
      longer := [a];
      assert longer[1..] == [];
    } else {
      var tail := Then(Next(w, run[0]), run[1..], a);
      longer := [run[0]] + tail;
      assert longer[1..] == tail;
    }
  }

  /** A heartbeat on gateway `g` up to the reading of its time; `t` is its thread. */
  lemma BeatOn(w: World, run: seq<Step>, t: ThreadId, g: Gateway) returns (longer: seq<Step>)
    requires ValidRun(w, run) && After(w, run).stored.None? && g !in After(w, run).cached && t !in After(w, run).threads
    ensures ValidRun(w, longer)
    ensures var w' := After(w, run); After(w, longer) == w'.(threads := w'.threads[t := Beating(g, w'.clock)])
  {
    longer := Then(w, run, StartGet(t, g));
    longer := Then(w, longer, Load(t));
    longer := Then(w, longer, Check(t));
    longer := Then(w, longer, StartHeartbeat(t));
  }

  /**
   Whatever the TTL and the times: a heartbeat that passes its check at `t0`, and reads the clock and saves
   only at `t1`, when the session has been idle for longer than the TTL, makes it active again.
   */
  lemma SplitHeartbeatRevives(scope: Scope, ttl: int, t0: int, t1: int) returns (run: seq<Step>)
    requires ZERO_TIME < t0 && ttl >= 0 && t1 > t0 + ttl
    ensures var start := Fresh(scope, ttl, t0);
            && ValidRun(start, run)
            && var w := After(start, run);
               && Dead(w) && Enabled(w, SaveHeartbeat(0)) && Revives(w, SaveHeartbeat(0))
               && Next(w, SaveHeartbeat(0)).stored == Some(SessionState(scope, Active, "", ZERO_TIME, t1))
  {
    var start := Fresh(scope, ttl, t0);
    run := Then(start, [], WholeHeartbeat(0));
    run := Then(start, run, StartGet(0, 0));
    run := Then(start, run, Check(0));
    run := Then(start, run, Tick(t1));
    run := Then(start, run, StartHeartbeat(0));
  }

  /**
   A second way: two heartbeats whose saves arrive in the opposite order take the stored heartbeat back from
   `t1` to `t0`. The session is then idle in the store, while the gateway that cached `t1` still lets a
   heartbeat pass.
   */
  lemma OutOfOrderSavesRevive(scope: Scope, ttl: int, t0: int, t1: int) returns (earlier: seq<Step>, run: seq<Step>)
    requires ZERO_TIME < t0 && ttl >= 0 && t1 > t0 + ttl
    ensures var start := Fresh(scope, ttl, t0);
            && ValidRun(start, earlier)
              && After(start, earlier).stored == Some(SessionState(scope, Active, "", ZERO_TIME, t1))
            && ValidRun(start, run) && earlier <= run
            && var w := After(start, run);
               && w.stored == Some(SessionState(scope, Active, "", ZERO_TIME, t0))
               && Dead(w) && Revives(w, WholeHeartbeat(1))
  {
    var start := Fresh(scope, ttl, t0);
    run := BeatOn(start, [], 0, 0);
    run := Then(start, run, Tick(t1));
    run := BeatOn(start, run, 1, 1);
    run := Then(start, run, SaveHeartbeat(1));
    earlier := run;
    run := Then(start, run, CacheSaved(1));
    run := Then(start, run, SaveHeartbeat(0));
  }
}
