/**
 One gateway, its calls one after the other.

 `Valid` holds between any two calls, so what it says holds of every serialised run: the session registry's
 cache equals the store, a session closed by expiry has no live working record, and every trusted scope's
 cached recalls are what the origin would answer now. A call takes as arguments the clock and which of the
 outside services answer it.
 */
module Gateways {
  import opened Scopes
  import opened Records
  import opened RecallKeys
  import opened Backends
  import opened SessionStore
  import opened SessionClose
  import opened RecallCaching
  import opened RecallSelection
  import opened Origins
  import BoundedReads
  import HybridRecall
  import Mutations
  import SessionFence

  const EXPIRE_WORKING := "expire_working"

  datatype Refusal = BadRequest | ReadOnly | SessionClosed | SessionExpired | Failed(error: BackendError)

  datatype Reply<+T> = Answer(value: T) | Refused(why: Refusal)

  datatype Recalled = Recalled(hits: seq<RecallSelection.Hit>, cached: bool, staleServed: bool)

  /** Which of the services behind a recall answer; reads of the ids in `down` fail. */
  datatype Services = Services(sessions: bool, tokens: bool, search: bool, marker: bool, down: set<string>)

  /** `consistencyLevelOrDefault`. */
  function Level(req: RecallRequest): (level: string)
    ensures req.consistencyLevel == "" ==> level == "eventual"
    ensures req.consistencyLevel != "" ==> level == req.consistencyLevel
  {
    if req.consistencyLevel == "" then "eventual" else req.consistencyLevel
  }

  predicate IsMode(mode: string)
  {
    mode == "" || mode == EXPIRE_WORKING || mode == PROMOTE_AND_EXPIRE
  }

  /** The mode of a close, by default an expiry. */
  function Chosen(mode: string): (chosen: string)
    ensures mode == "" ==> chosen == "expire_working"
    ensures mode != "" ==> chosen == mode
  {
    if mode == "" then EXPIRE_WORKING else mode
  }

  const ALL_UP := Services(true, true, true, true, {})

  class ScopeVersionStore {
    var versions: map<string, nat>

    constructor ()
      ensures versions == map[]
    {
      versions := map[];
    }

    function Version(s: Scope): nat
      reads this
    {
      if ScopeKey(s) in versions then versions[ScopeKey(s)] else 0
    }

    method CurrentScopeVersion(s: Scope, up: bool) returns (r: Result<nat>)
      ensures r == if up then Ok(Version(s)) else Err(Unavailable)
    {
      return if up then Ok(Version(s)) else Err(Unavailable);
    }

    method BumpScopeVersion(s: Scope, up: bool) returns (r: Result<nat>)
      modifies this
      ensures r == if up then Ok(old(Version(s)) + 1) else Err(Unavailable)
      ensures versions == if up then old(versions)[ScopeKey(s) := r.value] else old(versions)
    {
      if !up {
        return Err(Unavailable);
      }
      versions := versions[ScopeKey(s) := Version(s) + 1];
      return Ok(Version(s));
    }
  }

  // Cached recalls.

  type Cached = RecallCaching.Entries<seq<RecallSelection.Hit>>

  /** One request's entry replaced. */
  function Filled(entries: Cached, s: Scope, r: RecallRequest, hits: seq<RecallSelection.Hit>, at: int, token: nat)
    : Cached
  {
    entries[BuildRecallCacheKey(s, r) := Entry(hits, at, token)]
  }

  /** Every cached answer to a trusted scope is what the origin would answer now. */
  ghost predicate CacheRight(search: Search, entries: Cached, db: Db, trusted: iset<Scope>)
  {
    && (forall s :: s in trusted ==> PipeFree(s))
    && (forall s, r :: s in trusted && BuildRecallCacheKey(s, r) in entries ==>
          IsOrigin(search, entries[BuildRecallCacheKey(s, r)].response, db, s, FieldsOf(r)))
  }

  /** The trusted scopes that a change of the store does not show to. */
  ghost function StillTrusted(trusted: iset<Scope>, db: Db, db': Db): iset<Scope>
  {
    iset s | s in trusted && View(db', s) == View(db, s)
  }

  function IdsOf(hits: seq<RecallSelection.Hit>): (ids: seq<string>)
    ensures |ids| == |hits| && forall i :: 0 <= i < |ids| ==> ids[i] == hits[i].memoryId
  {
    seq(|hits|, i requires 0 <= i < |hits| => hits[i].memoryId)
  }

  /** Nothing that a recall can see has changed. */
  ghost predicate OnlyMarked(db: Db, db': Db)
  {
    db'.Keys == db.Keys && forall t :: View(db', t) == View(db, t)
  }

  ghost function Own(s: Scope): iset<Scope>
  {
    if PipeFree(s) then iset{s} else iset{}
  }

  lemma ChangeKeepsCacheRight(search: Search, entries: Cached, db: Db, db': Db, trusted: iset<Scope>)
    requires CacheRight(search, entries, db, trusted)
    ensures CacheRight(search, entries, db', StillTrusted(trusted, db, db'))
  {
    forall s, r | s in StillTrusted(trusted, db, db') && BuildRecallCacheKey(s, r) in entries
      ensures IsOrigin(search, entries[BuildRecallCacheKey(s, r)].response, db', s, FieldsOf(r))
    {
      OriginDependsOnView(search, entries[BuildRecallCacheKey(s, r)].response, db, db', s, FieldsOf(r));
    }
  }

  /** Invalidating a pipe-free scope makes it trusted, whatever was cached for it. */
  lemma InvalidationKeepsCacheRight(search: Search, entries: Cached, db: Db, trusted: iset<Scope>, s: Scope)
    requires CacheRight(search, entries, db, trusted)
    ensures CacheRight(search, WithoutScope(entries, s), db, trusted + Own(s))
  {
    assert forall r :: HasScopePrefix(BuildRecallCacheKey(s, r), s);
  }

  ghost predicate Builds(t: Scope, key: string)
  {
    exists q :: BuildRecallCacheKey(t, q) == key
  }

  /** A fill under `s` can put a foreign answer only under the key of a scope that builds it too. */
  ghost function TrustedAfterFill(trusted: iset<Scope>, s: Scope, r: RecallRequest): iset<Scope>
  {
    iset t | t in trusted && (t == s || !Builds(t, BuildRecallCacheKey(s, r)))
  }

  /** Whoever fills, pipe in its scope or not. */
  lemma FillKeepsCacheRight(search: Search, entries: Cached, db: Db, trusted: iset<Scope>, s: Scope, r: RecallRequest,
                            e: Entry<seq<RecallSelection.Hit>>)
    requires CacheRight(search, entries, db, trusted) && IsOrigin(search, e.response, db, s, FieldsOf(r))
    ensures CacheRight(search, entries[BuildRecallCacheKey(s, r) := e], db, TrustedAfterFill(trusted, s, r))
  {
    var filled := entries[BuildRecallCacheKey(s, r) := e];
    forall t, q | t in TrustedAfterFill(trusted, s, r) && BuildRecallCacheKey(t, q) in filled
      ensures IsOrigin(search, filled[BuildRecallCacheKey(t, q)].response, db, t, FieldsOf(q))
    {
      if BuildRecallCacheKey(t, q) == BuildRecallCacheKey(s, r) {
        assert Builds(t, BuildRecallCacheKey(s, r));
        SameScopeSameFields(s, r, q);
      }
    }
  }

  /** A fill costs at most one scope its trust, and none when it is made under a pipe-free scope. */
  lemma FillCostsAtMostOne(trusted: iset<Scope>, s: Scope, r: RecallRequest)
    requires forall t :: t in trusted ==> PipeFree(t)
    ensures var lost := trusted - TrustedAfterFill(trusted, s, r);
            forall t, t' :: t in lost && t' in lost ==> t == t'
    ensures PipeFree(s) ==> TrustedAfterFill(trusted, s, r) == trusted
  {
    var lost, key := trusted - TrustedAfterFill(trusted, s, r), BuildRecallCacheKey(s, r);
    forall t, t' | t in lost && t' in lost
      ensures t == t'
    {
      var q :| BuildRecallCacheKey(t, q) == key;
      var q' :| BuildRecallCacheKey(t', q') == key;
      CacheKeyIdentifies(t, q, t', q');
    }
    if PipeFree(s) {
      forall t | t in trusted
        ensures t in TrustedAfterFill(trusted, s, r)
      {
        if Builds(t, key) {
          var q :| BuildRecallCacheKey(t, q) == key;
          CacheKeyIdentifies(t, q, s, r);
        }
      }
    }
  }

  // Budgets. The budget is in the key, so no answer exceeds it, whatever the scopes and whoever filled the cache.

  predicate Fits(hits: seq<RecallSelection.Hit>, budget: int)
  {
    budget > 0 ==> EstimateSum(hits) <= budget
  }

  ghost predicate CacheFits(entries: Cached)
  {
    forall s, r :: BuildRecallCacheKey(s, r) in entries ==>
      Fits(entries[BuildRecallCacheKey(s, r)].response, r.memoryTokenBudget)
  }

  lemma FillKeepsFits(entries: Cached, s: Scope, r: RecallRequest, e: Entry<seq<RecallSelection.Hit>>)
    requires CacheFits(entries) && Fits(e.response, r.memoryTokenBudget)
    ensures CacheFits(entries[BuildRecallCacheKey(s, r) := e])
  {
    var filled := entries[BuildRecallCacheKey(s, r) := e];
    forall t, q | BuildRecallCacheKey(t, q) in filled
      ensures Fits(filled[BuildRecallCacheKey(t, q)].response, q.memoryTokenBudget)
    {
      if BuildRecallCacheKey(t, q) == BuildRecallCacheKey(s, r) {
        SameKeySameBudget(s, r, t, q);
      }
    }
  }

  lemma OriginFits(search: Search, hits: seq<RecallSelection.Hit>, db: Db, s: Scope, f: KeyFields)
    requires IsOrigin(search, hits, db, s, f)
    ensures Fits(hits, f.memoryTokenBudget)
  {
    OriginSelects(search, hits, db, s, f);
  }

  lemma LostHitIsNotOrigin(search: Search, hits: seq<RecallSelection.Hit>, db: Db, s: Scope, f: KeyFields,
                           h: RecallSelection.Hit)
    requires forall id :: id in db ==> db[id].memoryId == id
    requires h in hits && h.memoryId !in View(db, s)
    ensures !IsOrigin(search, hits, db, s, f)
  {
    if IsOrigin(search, hits, db, s, f) {
      HitsAreInView(search, hits, db, s, f, h);
    }
  }

  /** A cached answer with a hit that the scope can no longer see is wrong. */
  lemma LostHitMakesCacheWrong(search: Search, entries: Cached, db: Db, s: Scope, r: RecallRequest,
                               h: RecallSelection.Hit)
    requires forall id :: id in db ==> db[id].memoryId == id
    requires BuildRecallCacheKey(s, r) in entries && h in entries[BuildRecallCacheKey(s, r)].response
    requires h.memoryId !in View(db, s)
    ensures !CacheRight(search, entries, db, iset{s})
  {
    LostHitIsNotOrigin(search, entries[BuildRecallCacheKey(s, r)].response, db, s, FieldsOf(r), h);
  }

  predicate Full(s: Scope)
  {
    s.projectId != "" && s.sessionId != ""
  }

  /**
   Between scopes that name project and session, a mutation of a visible record costs exactly the record's own
   scope its trust, under whatever scope it is made.
   */
  lemma TrustLostExactly(trusted: iset<Scope>, db: Db, id: string, expected: int, c: Change, t: Scope)
    requires Mutate(db, id, expected, c).Ok? && Visible(db[id]) && Full(db[id].scope) && Full(t) && t in trusted
    ensures t in StillTrusted(trusted, db, Mutate(db, id, expected, c).value) <==> db[id].scope != t
  {
    var db' := Mutate(db, id, expected, c).value;
    FullScopesSeparate(t, db[id]);
    FullScopesSeparate(t, db'[id]);
    if db[id].scope != t {
      ElsewhereDoesNotShow(db, id, db'[id], t);
    } else {
      assert View(db, t)[id].version == db[id].version
        && (id in View(db', t) ==> View(db', t)[id].version == db'[id].version);
    }
  }

  /** And a write of a visible record costs exactly the scope it is written under. */
  lemma WriteTrustLostExactly(trusted: iset<Scope>, db: Db, id: string, r: Record, t: Scope)
    requires id !in db && Visible(r) && Full(r.scope) && Full(t) && t in trusted
    ensures t in StillTrusted(trusted, db, db[id := r]) <==> r.scope != t
  {
    FullScopesSeparate(t, r);
    if r.scope != t {
      ElsewhereDoesNotShow(db, id, r, t);
    } else {
      assert id in View(db[id := r], t) && id !in View(db, t);
    }
  }

  // Reclaimed working memory.

  /** No other session shares the scope's key. */
  predicate OwnsSession(s: Scope)
  {
    PipeFree(s) || OnlyPipeEndsSession(s)
  }

  /** Scopes that own their session key, and whose session was closed by expiry, have no live working record. */
  ghost predicate Reclaimed(entries: SessionStore.Entries, db: Db)
  {
    forall s, id :: OwnsSession(s) && ClosedByExpiry(Find(entries, s)) && id in db ==> !LiveIn(db[id], s)
  }

  predicate ClosedByExpiry(state: Option<SessionState>)
  {
    IsClosed(state) && state.value.mode == EXPIRE_WORKING
  }

  /** What is live was live before, in the same scope. */
  ghost predicate NothingRevived(db: Db, db': Db)
  {
    forall id :: id in db' && Live(db'[id]) ==> id in db && Live(db[id]) && db[id].scope == db'[id].scope
  }

  lemma ChangeKeepsReclaimed(entries: SessionStore.Entries, db: Db, db': Db)
    requires Reclaimed(entries, db) && NothingRevived(db, db')
    ensures Reclaimed(entries, db')
  {
  }

  lemma CloseKeepsReclaimed(entries: SessionStore.Entries, db: Db, s: Scope, state: SessionState)
    requires Reclaimed(entries, db) && s.sessionId != ""
    requires OwnsSession(s) && ClosedByExpiry(Some(state)) ==> forall id :: id in db ==> !LiveIn(db[id], s)
    ensures Reclaimed(entries[ScopeKey(s) := state], db)
  {
    forall t, id | OwnsSession(t) && ClosedByExpiry(Find(entries[ScopeKey(s) := state], t)) && id in db
      ensures !LiveIn(db[id], t)
    {
      SessionOwnedExactly(t);
    }
  }

  lemma WriteKeepsReclaimed(entries: SessionStore.Entries, db: Db, id: string, r: Record)
    requires Reclaimed(entries, db) && !IsClosed(Find(entries, r.scope))
    ensures Reclaimed(entries, db[id := r])
  {
  }

  lemma HandlingRevivesNothing(db: Db, keys: Mutations.Idempotency, r: Mutations.Request, env: Mutations.Env)
    ensures NothingRevived(db, Mutations.Handle(db, keys, r, env).db)
  {
    MutationRevivesNothing(db, r.id, r.expected, Mutations.ChangeOf(r));
  }

  lemma MutationRevivesNothing(db: Db, id: string, expected: int, c: Change)
    ensures var m := Mutate(db, id, expected, c); m.Ok? ==> NothingRevived(db, m.value)
  {
  }

  /**
   A close of some other session can count as a close of `s` exactly when `s` does not own its session key: it
   has a pipe, and not just a single one that ends the session id. Such a close reclaims the other scope's
   records and leaves those of `s` live.
   */
  lemma ForeignCloseCounts(s: Scope, mode: string, now: int)
    ensures !OwnsSession(s) <==>
            exists t :: t != s && t.sessionId != ""
              && IsClosed(Find(map[ScopeKey(t) := AfterClose(None, t, mode, now)], s))
  {
    SessionOwnedExactly(s);
    if !OwnsSession(s) {
      var t :| ScopeKey(t) == ScopeKey(s) && t.sessionId != "" && t != s;
      assert IsClosed(Find(map[ScopeKey(t) := AfterClose(None, t, mode, now)], s));
    }
  }

  /** What a session that is known says about a call: nothing, or why it is refused. */
  function SessionRefusal(state: Option<SessionState>, now: int, ttl: int): (why: Option<Refusal>)
    ensures state.None? ==> why == None
    ensures state.Some? && state.value.status.Closed? ==> why == Some(SessionClosed)
    ensures state.Some? && state.value.status.Active? ==>
      why == if state.value.lastHeartbeatAt != 0 && now - state.value.lastHeartbeatAt > ttl then Some(SessionExpired)
             else None
    ensures why.Some? <==> SessionFence.Rejects(state, now, ttl)
  {
    if IsClosed(state) then Some(SessionClosed)
    else if state.Some? && SessionFence.Expired(state.value, now, ttl) then Some(SessionExpired)
    else None
  }

  /** The stored record is the caller's, new, under the scope and id it was stored with. */
  predicate Written(r: Record, s: Scope, id: string, given: Record)
  {
    && r.memoryId == id && r.scope == s && r.version == 1
    && r.kind == given.kind && r.source == given.source && r.category == given.category && r.content == given.content
    && r.tags == given.tags && r.importance == given.importance && r.pinned == given.pinned
    && !r.disabled && !r.deleted && r.access.hitCount == 0 && r.access.lastAccessAt == None
  }

  function AfterBump(versions: map<string, nat>, s: Scope, bumped: bool): map<string, nat>
  {
    if !bumped then versions
    else versions[ScopeKey(s) := 1 + if ScopeKey(s) in versions then versions[ScopeKey(s)] else 0]
  }

  class Gateway {
    const readOnly: bool
    const idleTTL: int
    const search: Search
    const backend: Backend
    const registry: SessionRegistry
    const closer: DurableSessionCloser
    const mutator: Mutations.Mutator
    const cache: RecallCache<seq<RecallSelection.Hit>>
    const versions: ScopeVersionStore
    ghost var trusted: iset<Scope>

    ghost predicate Valid()
      reads this, backend, registry, registry.store, cache
    {
      && closer.store == backend && mutator.backend == backend && backend.quiet
      && backend.Valid() && registry.Coherent()
      && CacheRight(search, cache.entries, backend.db, trusted) && CacheFits(cache.entries)
      && Reclaimed(registry.store.entries, backend.db)
    }

    ghost function Session(s: Scope): Option<SessionState>
      reads registry.store
    {
      Find(registry.store.entries, s)
    }

    constructor (backend: Backend, store: MemorySessionStateStore, eligible: Record -> bool, search: Search,
                 idleTTL: int, readOnly: bool)
      requires backend.Valid() && backend.quiet && store.entries == map[]
      ensures Valid() && fresh(registry) && fresh(closer) && fresh(mutator) && fresh(cache) && fresh(versions)
      ensures this.backend == backend && registry.store == store && this.idleTTL == idleTTL && this.readOnly == readOnly
      ensures trusted == (iset s | PipeFree(s)) && this.search == search && cache.entries == map[]
    {
      this.readOnly, this.idleTTL, this.search, this.backend := readOnly, idleTTL, search, backend;
      registry := new SessionRegistry(store);
      closer := new DurableSessionCloser(backend, eligible);
      mutator := new Mutations.Mutator(backend);
      cache := new RecallCache();
      versions := new ScopeVersionStore();
      trusted := iset s | PipeFree(s);
    }

    /** `ensureSessionOpen`: the refusal of a closed or idle session. */
    method EnsureSessionOpen(s: Scope, up: bool, now: int) returns (why: Option<Refusal>)
      requires registry.Coherent()
      modifies registry
      ensures registry.Coherent()
      ensures why ==
        if up || ScopeKey(s) in old(registry.cache) then SessionRefusal(Session(s), now, idleTTL)
        else Some(Failed(Unavailable))
    {
      var answer := registry.Get(s, up);
      if answer.Err? {
        return Some(Failed(answer.error));
      }
      var state := answer.value;
      if state.None? {
        return None;
      }
      if state.value.status.Closed? {
        return Some(SessionClosed);
      }
      if SessionFence.Expired(state.value, now, idleTTL) {
        return Some(SessionExpired);
      }
      return None;
    }

    method InvalidateScopeState(s: Scope, bumpUp: bool)
      requires Valid()
      modifies cache, versions, this`trusted
      ensures Valid() && trusted == old(trusted) + Own(s)
      ensures cache.entries == WithoutScope(old(cache.entries), s)
      ensures versions.versions == AfterBump(old(versions.versions), s, bumpUp)
    {
      InvalidationKeepsCacheRight(search, cache.entries, backend.db, trusted, s);
      cache.InvalidateScope(s);
      trusted := trusted + Own(s);
      var bumped := versions.BumpScopeVersion(s, bumpUp);
    }

    /** Every hit can be read again and is visible at the version that was cached. */
    predicate StillValid(hits: seq<RecallSelection.Hit>, down: set<string>)
      reads backend
    {
      forall i :: 0 <= i < |hits| ==> hits[i].memoryId !in down && BoundedReads.StillCurrent(backend.db, hits[i])
    }

    /** Reads each cached hit again: `Ok(true)` when all are visible at the version that was cached. */
    method ValidateBoundedCachedResponse(hits: seq<RecallSelection.Hit>, down: set<string>) returns (r: Result<bool>)
      ensures r == Ok(true) <==> StillValid(hits, down)
      ensures r.Err? ==> exists i :: 0 <= i < |hits| && hits[i].memoryId in down
    {
      for i := 0 to |hits|
        invariant forall j :: 0 <= j < i ==> hits[j].memoryId !in down && BoundedReads.StillCurrent(backend.db, hits[j])
      {
        if hits[i].memoryId in down {
          return Err(Unavailable);
        }
        var read := GetRecord(backend.db, hits[i].memoryId);
        if read.Err? {
          return Ok(false);
        }
        if read.value.version != hits[i].version {
          return Ok(false);
        }
      }
      return Ok(true);
    }

    /** What the candidate source, the hydrator, the ranking and the budget loop answer. */
    method OriginHits(s: Scope, req: RecallRequest, services: Services)
      returns (r: Reply<seq<RecallSelection.Hit>>, found: bool)
      requires Valid()
      ensures r.Answer? ==> IsOrigin(search, r.value, backend.db, s, FieldsOf(req))
      ensures r.Refused? ==> r.why == Failed(Unavailable)
      ensures r.Answer? ==> (found <==> OriginFound(search, backend.db, s, FieldsOf(req)))
      ensures services.search && services.down == {} ==> r.Answer?
    {
      var f := FieldsOf(req);
      var answer := if services.search then LexicalAnswer(search, backend.db, s, TrimSpace(req.query), f.topK)
        else HybridRecall.SourceAnswer.Failed;
      var recalled := HybridRecall.Recall([answer], backend.db, services.down, s, f.topK);
      if recalled != Err(Unavailable) {
        FoundExactly(search, backend.db, s, f, recalled);
      }
      if recalled.Err? {
        if recalled.error == NotFound {
          return Answer([]), false;
        }
        return Refused(Failed(recalled.error)), false;
      }
      var candidates := BuildRecallCandidates(recalled.value);
      var hits, totalEstimate := SelectWithinBudget(candidates, req.memoryTokenBudget);
      assert IsOrigin(search, hits, backend.db, s, f);
      return Answer(hits), true;
    }

    /** The recall behind the cache: it marks the records it returns as accessed. */
    method RecallOrigin(s: Scope, req: RecallRequest, services: Services, now: int)
      returns (r: Reply<seq<RecallSelection.Hit>>, found: bool)
      requires Valid()
      modifies backend`db
      ensures Valid() && OnlyMarked(old(backend.db), backend.db)
      ensures r.Answer? ==> MarkedBy(old(backend.db), backend.db, IdsOf(r.value), now)
      ensures r.Refused? ==> backend.db == old(backend.db)
      ensures r.Answer? ==> IsOrigin(search, r.value, old(backend.db), s, FieldsOf(req))
      ensures r.Refused? ==> r.why == Failed(Unavailable)
      ensures r.Answer? ==> (found <==> OriginFound(search, old(backend.db), s, FieldsOf(req)))
      ensures services.search && services.marker && services.down == {} ==> r.Answer?
    {
      r, found := OriginHits(s, req, services);
      if r.Refused? {
        return;
      }
      if r.value == [] {
        NothingMarked(backend.db, now);
      } else if services.marker {
        MarkHits(r.value, now);
      } else {
        r := Refused(Failed(Unavailable));
      }
    }

    method MarkHits(hits: seq<RecallSelection.Hit>, now: int)
      requires Valid()
      modifies backend`db
      ensures Valid() && OnlyMarked(old(backend.db), backend.db)
      ensures MarkedBy(old(backend.db), backend.db, IdsOf(hits), now)
    {
      ghost var before := backend.db;
      backend.MarkAccess(IdsOf(hits), now);
      forall t
        ensures View(backend.db, t) == View(before, t)
      {
        MarksDoNotShow(before, backend.db, t);
      }
      assert StillTrusted(trusted, before, backend.db) == trusted;
      ChangeKeepsCacheRight(search, cache.entries, before, backend.db, trusted);
      ChangeKeepsReclaimed(registry.store.entries, before, backend.db);
    }

    /** The cached answer, if the level accepts it and, for a bounded read, its hits are still current. */
    method ServeCached(s: Scope, req: RecallRequest, level: string, down: set<string>, now: int, scopeVersion: nat)
      returns (r: Reply<Option<Recalled>>)
      requires Valid()
      ensures r.Answer? && r.value.Some? && s in trusted ==>
        IsOrigin(search, r.value.value.hits, backend.db, s, FieldsOf(req))
      ensures r.Answer? && r.value.Some? ==> Fits(r.value.value.hits, req.memoryTokenBudget)
      ensures var key := BuildRecallCacheKey(s, req);
              var found := Lookup(cache.entries, key, level, req.allowStaleCache, now, scopeVersion);
              var serves := found.Hit? && (level == "bounded" ==> StillValid(found.response, down));
              && (r.Answer? && r.value.Some? <==> serves)
              && (serves ==> r == Answer(Some(Recalled(found.response, true, found.staleServed))))
              && (r.Refused? ==> found.Hit? && level == "bounded" && down != {})
    {
      var found := cache.LookupEntry(BuildRecallCacheKey(s, req), level, req.allowStaleCache, now, scopeVersion);
      if found.Miss? {
        return Answer(None);
      }
      if level == "bounded" {
        var valid := ValidateBoundedCachedResponse(found.response, down);
        if valid.Err? {
          return Refused(Failed(valid.error));
        }
        if !valid.value {
          return Answer(None);
        }
      }
      return Answer(Some(Recalled(found.response, true, found.staleServed)));
    }

    method Fill(s: Scope, req: RecallRequest, hits: seq<RecallSelection.Hit>, filledAt: int, scopeVersion: nat)
      requires Valid() && IsOrigin(search, hits, backend.db, s, FieldsOf(req))
      modifies this`trusted, cache
      ensures Valid() && cache.entries == Filled(old(cache.entries), s, req, hits, filledAt, scopeVersion)
      ensures trusted == TrustedAfterFill(old(trusted), s, req)
    {
      FillKeepsCacheRight(search, cache.entries, backend.db, trusted, s, req, Entry(hits, filledAt, scopeVersion));
      OriginFits(search, hits, backend.db, s, FieldsOf(req));
      FillKeepsFits(cache.entries, s, req, Entry(hits, filledAt, scopeVersion));
      trusted := TrustedAfterFill(trusted, s, req);
      cache.Set(BuildRecallCacheKey(s, req), hits, filledAt, scopeVersion);
    }

    /** A lookup hits at this level and, for a bounded read, its hits are still valid. */
    predicate CacheServes(s: Scope, req: RecallRequest, level: string, scopeVersion: nat, down: set<string>, now: int)
      reads backend, cache
    {
      level != "strong"
      && var found := Lookup(cache.entries, BuildRecallCacheKey(s, req), level, req.allowStaleCache, now, scopeVersion);
         found.Hit? && (level == "bounded" ==> StillValid(found.response, down))
    }

    /** Recalls from the origin, and caches what was found under the token read before. */
    method RecallAndFill(s: Scope, req: RecallRequest, level: string, scopeVersion: nat, services: Services, now: int,
                         filledAt: int)
      returns (r: Reply<seq<RecallSelection.Hit>>)
      requires Valid()
      modifies this`trusted, cache, backend`db
      ensures Valid() && OnlyMarked(old(backend.db), backend.db)
      ensures r.Answer? ==>
        IsOrigin(search, r.value, backend.db, s, FieldsOf(req)) && Fits(r.value, req.memoryTokenBudget)
      ensures services.search && services.marker && services.down == {} ==> r.Answer?
      ensures if r.Answer? then MarkedBy(old(backend.db), backend.db, IdsOf(r.value), now)
              else backend.db == old(backend.db)
      ensures var fills := r.Answer? && level != "strong" && OriginFound(search, old(backend.db), s, FieldsOf(req));
              && cache.entries == (if fills then Filled(old(cache.entries), s, req, r.value, filledAt, scopeVersion)
                                   else old(cache.entries))
              && trusted == (if fills then TrustedAfterFill(old(trusted), s, req) else old(trusted))
    {
      var hits, found := RecallOrigin(s, req, services, now);
      if hits.Refused? {
        return hits;
      }
      OriginDependsOnView(search, hits.value, old(backend.db), backend.db, s, FieldsOf(req));
      OriginFits(search, hits.value, backend.db, s, FieldsOf(req));
      if found && level != "strong" {
        Fill(s, req, hits.value, filledAt, scopeVersion);
      }
      return hits;
    }

    /** The recall of a permitted caller that has read the scope's version: the cache, or the origin and a fill. */
    method RecallPermitted(s: Scope, req: RecallRequest, level: string, scopeVersion: nat, services: Services, now: int,
                           filledAt: int)
      returns (r: Reply<Recalled>)
      requires Valid()
      modifies this`trusted, cache, backend`db
      ensures Valid() && OnlyMarked(old(backend.db), backend.db)
      ensures r.Answer? && s in trusted ==> IsOrigin(search, r.value.hits, backend.db, s, FieldsOf(req))
      ensures r.Answer? ==> Fits(r.value.hits, req.memoryTokenBudget)
      ensures services.search && services.marker && services.down == {} ==> r.Answer?
      ensures r.Answer? ==> (r.value.cached <==> old(CacheServes(s, req, level, scopeVersion, services.down, now)))
      ensures if r.Answer? && !r.value.cached then
                MarkedBy(old(backend.db), backend.db, IdsOf(r.value.hits), now)
              else backend.db == old(backend.db)
      ensures r.Answer? && r.value.cached ==> cache.entries == old(cache.entries)
      ensures r.Answer? && r.value.cached ==>
        Lookup(cache.entries, BuildRecallCacheKey(s, req), level, req.allowStaleCache, now, scopeVersion)
        == RecallCaching.Hit(r.value.hits, r.value.staleServed)
      ensures var fills := r.Answer? && !r.value.cached && level != "strong"
                           && OriginFound(search, old(backend.db), s, FieldsOf(req));
              && cache.entries
                == (if fills then Filled(old(cache.entries), s, req, r.value.hits, filledAt, scopeVersion)
                                   else old(cache.entries))
              && trusted == (if fills then TrustedAfterFill(old(trusted), s, req) else old(trusted))
    {
      if level != "strong" {
        var cached := ServeCached(s, req, level, services.down, now, scopeVersion);
        if cached.Refused? {
          return Refused(cached.why);
        }
        if cached.value.Some? {
          return Answer(cached.value.value);
        }
      }
      var hits := RecallAndFill(s, req, level, scopeVersion, services, now, filledAt);
      if hits.Refused? {
        return Refused(hits.why);
      }
      return Answer(Recalled(hits.value, false, false));
    }

    /**
     An answer to a scope that is still trusted, cached or not and stale or not, has the hits the origin
     would return now. A scope's trust is lost only to a fill, under a scope with a pipe, of a key that it builds.
     */
    method RecallUnified(s: Scope, req: RecallRequest, services: Services, now: int, filledAt: int)
      returns (r: Reply<Recalled>)
      requires Valid()
      modifies this`trusted, registry, cache, backend`db
      ensures Valid() && OnlyMarked(old(backend.db), backend.db)
      ensures r.Answer? && s in trusted ==> IsOrigin(search, r.value.hits, backend.db, s, FieldsOf(req))
      ensures r.Answer? ==> Fits(r.value.hits, req.memoryTokenBudget)
      ensures r.Answer? ==>
        (r.value.cached <==> old(CacheServes(s, req, Level(req), versions.Version(s), services.down, now)))
      ensures if r.Answer? && !r.value.cached then
                MarkedBy(old(backend.db), backend.db, IdsOf(r.value.hits), now)
              else backend.db == old(backend.db)
      ensures r.Answer? && r.value.cached ==> cache.entries == old(cache.entries)
      ensures r.Answer? && r.value.cached ==>
        Lookup(cache.entries, BuildRecallCacheKey(s, req), Level(req), req.allowStaleCache, now, versions.Version(s))
        == RecallCaching.Hit(r.value.hits, r.value.staleServed)
      ensures var fills := r.Answer? && !r.value.cached && Level(req) != "strong"
                           && OriginFound(search, old(backend.db), s, FieldsOf(req));
              && cache.entries ==
                 (if fills then
                    Filled(old(cache.entries), s, req, r.value.hits, filledAt, versions.Version(s))
                  else old(cache.entries))
              && trusted == (if fills then TrustedAfterFill(old(trusted), s, req) else old(trusted))
      ensures PipeFree(s) ==> trusted == old(trusted)
      ensures TrimSpace(req.query) == "" || !(0 <= req.topK <= 50) ==> r == Refused(BadRequest)
      ensures SessionFence.Rejects(Session(s), now, idleTTL) ==> r.Refused?
      ensures !services.sessions && ScopeKey(s) !in old(registry.cache) ==> r.Refused?
      ensures TrimSpace(req.query) != "" && 0 <= req.topK <= 50 && services.sessions
              && SessionFence.Rejects(Session(s), now, idleTTL) ==>
        r == Refused(SessionRefusal(Session(s), now, idleTTL).value)
      ensures TrimSpace(req.query) != "" && 0 <= req.topK <= 50 && services == ALL_UP ==>
        r.Answer? || SessionFence.Rejects(Session(s), now, idleTTL)
    {
      FillCostsAtMostOne(trusted, s, req);
      if !Accepted(req) {
        return Refused(BadRequest);
      }
      var refusal := EnsureSessionOpen(s, services.sessions, now);
      if refusal.Some? {
        return Refused(refusal.value);
      }
      var scopeVersion := versions.CurrentScopeVersion(s, services.tokens);
      if scopeVersion.Err? {
        return Refused(Failed(scopeVersion.error));
      }
      r := RecallPermitted(s, req, Level(req), scopeVersion.value, services, now, filledAt);
    }

    /** Accounts for a change of the store that has revived nothing: scopes it shows to are no longer trusted. */
    ghost method Rebase(before: Db)
      requires closer.store == backend && mutator.backend == backend && backend.quiet && backend.Valid()
        && registry.Coherent()
      requires CacheRight(search, cache.entries, before, trusted) && CacheFits(cache.entries)
      requires Reclaimed(registry.store.entries, before)
      requires NothingRevived(before, backend.db)
      modifies this`trusted
      ensures Valid() && trusted == StillTrusted(old(trusted), before, backend.db)
    {
      ChangeKeepsCacheRight(search, cache.entries, before, backend.db, trusted);
      ChangeKeepsReclaimed(registry.store.entries, before, backend.db);
      trusted := StillTrusted(trusted, before, backend.db);
    }

    method ToggleMemory(op: Mutations.Op, s: Scope, id: string, expected: int, sessionUp: bool, bumpUp: bool, now: int)
      returns (response: Mutations.Response, invalidated: bool, ghost env: Mutations.Env)
      requires Valid()
      modifies this`trusted, registry, cache, versions, mutator, backend`db
      ensures Valid() && env.readOnly == readOnly
      ensures Mutations.Outcome(backend.db, mutator.keys, response, invalidated)
              == Mutations.Handle(old(backend.db), old(mutator.keys), Mutations.Toggle(op, s, id, expected), env)
      ensures !op.Unpin? && !op.Enable? && SessionFence.Rejects(Session(s), now, idleTTL) ==> response.Refused?
      ensures !op.Unpin? && !op.Enable? && !sessionUp && ScopeKey(s) !in old(registry.cache) ==> response.Refused?
      ensures op.Unpin? || op.Enable? || (sessionUp && !SessionFence.Rejects(Session(s), now, idleTTL)) ==>
        env.sessionOpen
      ensures versions.versions == AfterBump(old(versions.versions), s, invalidated && bumpUp)
      ensures trusted ==
        StillTrusted(old(trusted), old(backend.db), backend.db) + if invalidated then Own(s) else iset{}
    {
      var open := true;
      if !readOnly && expected > 0 && op != Mutations.Unpin && op != Mutations.Enable {
        var refusal := EnsureSessionOpen(s, sessionUp, now);
        open := refusal.None?;
      }
      var given := Mutations.Env(readOnly, open, false, true, true);
      env := given;
      ghost var before, keys := backend.db, mutator.keys;
      response, invalidated := mutator.ToggleMemory(op, s, id, expected, given);
      HandlingRevivesNothing(before, keys, Mutations.Toggle(op, s, id, expected), env);
      Rebase(before);
      if invalidated {
        InvalidateScopeState(s, bumpUp);
      }
    }

    /** `keysUp` says whether an idempotency store is configured, and `loadOk` and `saveOk` whether it answers. */
    method PatchMemory(s: Scope, id: string, expected: int, key: string, edit: Mutations.Edited, sessionUp: bool,
                       keysUp: bool, loadOk: bool, saveOk: bool, bumpUp: bool, now: int)
      returns (response: Mutations.Response, invalidated: bool, ghost env: Mutations.Env)
      requires Valid()
      modifies this`trusted, registry, cache, versions, mutator, backend`db
      ensures Valid() && env.readOnly == readOnly && env.keysConfigured == keysUp && env.loadOk == loadOk
        && env.saveOk == saveOk
      ensures Mutations.Outcome(backend.db, mutator.keys, response, invalidated)
              == Mutations.Handle(old(backend.db), old(mutator.keys), Mutations.Patch(s, id, expected, key, edit), env)
      ensures SessionFence.Rejects(Session(s), now, idleTTL) ==> response.Refused?
      ensures !sessionUp && ScopeKey(s) !in old(registry.cache) ==> response.Refused?
      ensures sessionUp && !SessionFence.Rejects(Session(s), now, idleTTL) ==> env.sessionOpen
      ensures versions.versions == AfterBump(old(versions.versions), s, invalidated && bumpUp)
      ensures trusted ==
        StillTrusted(old(trusted), old(backend.db), backend.db) + if invalidated then Own(s) else iset{}
    {
      var open := true;
      if !readOnly && expected > 0 {
        var refusal := EnsureSessionOpen(s, sessionUp, now);
        open := refusal.None?;
      }
      var given := Mutations.Env(readOnly, open, keysUp, loadOk, saveOk);
      env := given;
      ghost var before, keys := backend.db, mutator.keys;
      response, invalidated := mutator.PatchMemory(s, id, expected, key, edit, given);
      HandlingRevivesNothing(before, keys, Mutations.Patch(s, id, expected, key, edit), env);
      Rebase(before);
      if invalidated {
        InvalidateScopeState(s, bumpUp);
      }
    }

    /**
     A write to a scope whose session is closed or idle stores nothing; one that is permitted, and is not the
     replay of an earlier one, stores the caller's record under the scope.
     */
    method WriteMemory(s: Scope, key: string, record: Record, newId: string, replay: Option<Result<Record>>,
                       sessionUp: bool, bumpUp: bool, now: int)
      returns (r: Reply<Record>)
      requires Valid()
      modifies this`trusted, registry, cache, versions, backend`db
      ensures Valid()
      ensures readOnly || TrimSpace(key) == "" || TrimSpace(record.content) == ""
              || SessionFence.Rejects(Session(s), now, idleTTL) ==>
        r.Refused? && backend.db == old(backend.db)
      ensures readOnly ==> r == Refused(ReadOnly)
      ensures !readOnly && (TrimSpace(key) == "" || TrimSpace(record.content) == "") ==> r == Refused(BadRequest)
      ensures !readOnly && TrimSpace(key) != "" && TrimSpace(record.content) != "" && sessionUp
              && SessionFence.Rejects(Session(s), now, idleTTL) ==>
        r == Refused(SessionRefusal(Session(s), now, idleTTL).value)
      ensures !sessionUp && ScopeKey(s) !in old(registry.cache) ==> r.Refused? && backend.db == old(backend.db)
      ensures backend.db != old(backend.db) ==>
        r.Answer? && newId !in old(backend.db) && backend.db == old(backend.db)[newId := r.value]
          && Written(r.value, s, newId, record)
      ensures !readOnly && TrimSpace(key) != "" && TrimSpace(record.content) != "" && sessionUp
              && !SessionFence.Rejects(Session(s), now, idleTTL) ==>
        if replay.Some? then
          backend.db == old(backend.db)
          && r == (if replay.value.Ok? then Answer(replay.value.value) else Refused(Failed(replay.value.error)))
        else if newId in old(backend.db) then r == Refused(Failed(Unavailable))
        else r.Answer? && newId in backend.db && backend.db[newId] == r.value && Written(r.value, s, newId, record)
      ensures versions.versions == AfterBump(old(versions.versions), s, r.Answer? && bumpUp)
      ensures trusted == StillTrusted(old(trusted), old(backend.db), backend.db) + if r.Answer? then Own(s) else iset{}
    {
      assert StillTrusted(trusted, backend.db, backend.db) == trusted;
      if readOnly {
        return Refused(ReadOnly);
      }
      if TrimSpace(key) == "" || TrimSpace(record.content) == "" {
        return Refused(BadRequest);
      }
      var refusal := EnsureSessionOpen(s, sessionUp, now);
      if refusal.Some? {
        return Refused(refusal.value);
      }
      ghost var before := backend.db;
      var input := record.(scope := s, disabled := false, deleted := false, access := Access(0, None));
      var written := backend.WriteRecord(input, newId, replay);
      AccountForWrite(before, newId, s);
      if written.Err? {
        return Refused(Failed(written.error));
      }
      InvalidateScopeState(s, bumpUp);
      return Answer(written.value);
    }

    /** What a write to an open session leaves trusted. */
    ghost method AccountForWrite(before: Db, newId: string, s: Scope)
      requires closer.store == backend && mutator.backend == backend && backend.quiet && backend.Valid()
        && registry.Coherent()
      requires CacheRight(search, cache.entries, before, trusted) && CacheFits(cache.entries)
      requires Reclaimed(registry.store.entries, before)
      requires !IsClosed(Session(s))
      requires backend.db == before
               || (newId in backend.db && backend.db == before[newId := backend.db[newId]]
                   && backend.db[newId].scope == s)
      modifies this`trusted
      ensures Valid() && trusted == StillTrusted(old(trusted), before, backend.db)
    {
      if backend.db != before {
        WriteKeepsReclaimed(registry.store.entries, before, newId, backend.db[newId]);
      }
      ChangeKeepsCacheRight(search, cache.entries, before, backend.db, trusted);
      trusted := StillTrusted(trusted, before, backend.db);
    }

    method HeartbeatSession(s: Scope, sessionUp: bool, saveUp: bool, now: int) returns (r: Reply<SessionState>)
      requires Valid()
      modifies registry, registry.store
      ensures Valid()
      ensures readOnly || s.sessionId == "" || old(SessionFence.Rejects(Session(s), now, idleTTL)) ==>
        r.Refused? && registry.store.entries == old(registry.store.entries)
      ensures registry.store.entries ==
        if r.Answer? then old(registry.store.entries)[ScopeKey(s) := r.value] else old(registry.store.entries)
      ensures r.Answer? ==> r.value == SessionState(s, Active, "", ZERO_TIME, now)
      ensures !sessionUp && ScopeKey(s) !in old(registry.cache) ==> r.Refused?
      ensures readOnly ==> r == Refused(ReadOnly)
      ensures !readOnly && s.sessionId == "" ==> r == Refused(BadRequest)
      ensures !readOnly && s.sessionId != "" && sessionUp ==>
        if old(SessionFence.Rejects(Session(s), now, idleTTL)) then
          r == Refused(SessionRefusal(old(Session(s)), now, idleTTL).value)
        else r.Answer? <==> saveUp
    {
      if readOnly {
        return Refused(ReadOnly);
      }
      if s.sessionId == "" {
        return Refused(BadRequest);
      }
      var refusal := EnsureSessionOpen(s, sessionUp, now);
      if refusal.Some? {
        return Refused(refusal.value);
      }
      var state := registry.Heartbeat(s, now, saveUp);
      if state.Err? {
        return Refused(Failed(state.error));
      }
      CloseKeepsReclaimed(old(registry.store.entries), backend.db, s, state.value);
      return Answer(state.value);
    }

    /**
     What the closer of this close has done, record by record, to the live records of the scope: all of them, or
     those before a turn that failed. An unanswered listing leaves it nothing to do.
     */
    ghost predicate CloseTraced(s: Scope, mode: string, items: seq<Item>, fates: seq<Fate>, states: seq<Point>,
                                before: Db, calls: nat)
      reads backend
    {
      && closer.Trace(mode, items, fates, states) && states[0] == Point(before, calls + 1)
      && (if calls !in backend.outages then Listing(items, before, s) else items == [])
      && (|fates| < |items| ==> closer.TurnFails(mode, items[|fates|], states[|fates|]))
      && (mode == EXPIRE_WORKING ==> backend.db == states[|fates|].db)
    }

    /**
     Every record that was live in the scope is now deleted, promoted, or promotable and untouched because it did
     not win its dedupe; none is live after an expiry.
     */
    ghost predicate CloseDone(s: Scope, mode: string, items: seq<Item>, states: seq<Point>, before: Db)
      reads backend
    {
      && |states| == |items| + 1 && backend.db == states[|items|].db
      && (forall id :: id in before && LiveIn(before[id], s) ==> EndedBy(mode, items, states, before[id]))
      && (mode == EXPIRE_WORKING ==> forall id :: id in backend.db ==> !LiveIn(backend.db[id], s))
    }

    ghost predicate EndedBy(mode: string, items: seq<Item>, states: seq<Point>, r: Record)
      reads backend
    {
      exists i: nat :: i < |items| && i < |states| && items[i].record == r
                       && closer.Ended(mode, items[i], states[i], backend.db)
    }

    lemma ListedHaveEnded(s: Scope, mode: string, items: seq<Item>, states: seq<Point>, before: Db)
      requires Listing(items, before, s) && closer.AllEnded(mode, items, states, backend.db)
      ensures forall id :: id in before && LiveIn(before[id], s) ==> EndedBy(mode, items, states, before[id])
    {
      forall id | id in before && LiveIn(before[id], s)
        ensures EndedBy(mode, items, states, before[id])
      {
        var i: nat :| i < |items| && items[i].record.memoryId == id;
        assert closer.Ended(mode, items[i], states[i], backend.db);
      }
    }

    /** What follows a closer that succeeded: the close is saved, and then the scope's state is invalidated. */
    method RecordClose(s: Scope, mode: string, saveUp: bool, bumpUp: bool, now: int) returns (r: Reply<SessionState>)
      requires Valid() && !IsClosed(Session(s)) && s.sessionId != ""
      requires mode == EXPIRE_WORKING ==> forall id :: id in backend.db ==> !LiveIn(backend.db[id], s)
      modifies this`trusted, registry, registry.store, cache, versions
      ensures Valid() && (r.Answer? <==> saveUp)
      ensures registry.store.entries ==
        if r.Answer? then old(registry.store.entries)[ScopeKey(s) := r.value] else old(registry.store.entries)
      ensures r.Answer? ==> r.value == AfterClose(old(Session(s)), s, mode, now)
      ensures r.Refused? ==> cache.entries == old(cache.entries)
      ensures versions.versions == AfterBump(old(versions.versions), s, r.Answer? && bumpUp)
      ensures trusted == old(trusted) + if r.Answer? then Own(s) else iset{}
    {
      var state := registry.Close(s, mode, now, saveUp);
      if state.Err? {
        return Refused(Failed(state.error));
      }
      CloseKeepsReclaimed(old(registry.store.entries), backend.db, s, state.value);
      InvalidateScopeState(s, bumpUp);
      return Answer(state.value);
    }

    /** The part of a close that runs only for a session not closed yet. */
    method CloseOpenSession(s: Scope, mode: string, saveUp: bool, bumpUp: bool, now: int)
      returns (r: Reply<SessionState>, ghost items: seq<Item>, ghost fates: seq<Fate>, ghost states: seq<Point>)
      requires Valid() && !IsClosed(Session(s)) && s.sessionId != ""
      requires mode == EXPIRE_WORKING || mode == PROMOTE_AND_EXPIRE
      modifies this`trusted, registry, registry.store, cache, versions, backend
      ensures Valid()
      ensures registry.store.entries ==
        if r.Answer? then old(registry.store.entries)[ScopeKey(s) := r.value] else old(registry.store.entries)
      ensures r.Refused? ==> cache.entries == old(cache.entries)
      ensures CloseTraced(s, mode, items, fates, states, old(backend.db), old(backend.calls))
      ensures r.Answer? <==> old(backend.calls) !in backend.outages && |fates| == |items| && saveUp
      ensures r.Answer? ==> r.value == AfterClose(old(Session(s)), s, mode, now)
      ensures r.Answer? ==> CloseDone(s, mode, items, states, old(backend.db))
      ensures versions.versions == AfterBump(old(versions.versions), s, r.Answer? && bumpUp)
      ensures trusted == StillTrusted(old(trusted), old(backend.db), backend.db) + if r.Answer? then Own(s) else iset{}
    {
      ghost var before := backend.db;
      var report;
      report, items, fates, states := closer.CloseSession(s, mode);
      Rebase(before);
      if report.Err? {
        return Refused(Failed(report.error)), items, fates, states;
      }
      ListedHaveEnded(s, mode, items, states, before);
      r := RecordClose(s, mode, saveUp, bumpUp, now);
    }

    /**
     The closer runs first, and only if it succeeds is the close recorded: a session registered closed by
     expiry has nothing live. A close of a closed session changes nothing and runs no closer. A closer that
     stops part-way leaves the cache as it was, so the scopes it changed are no longer trusted.
     */
    method CloseSession(s: Scope, mode: string, sessionUp: bool, saveUp: bool, bumpUp: bool, now: int)
      returns (r: Reply<SessionState>, ghost items: seq<Item>, ghost fates: seq<Fate>, ghost states: seq<Point>)
      requires Valid()
      modifies this`trusted, registry, registry.store, cache, versions, backend
      ensures Valid()
      ensures readOnly ==> r == Refused(ReadOnly)
      ensures !readOnly && (s.sessionId == "" || !IsMode(mode)) ==> r == Refused(BadRequest)
      ensures !sessionUp && ScopeKey(s) !in old(registry.cache) ==> r.Refused?
      ensures readOnly || s.sessionId == "" || !IsMode(mode)
              || (!sessionUp && ScopeKey(s) !in old(registry.cache)) ==>
        backend.db == old(backend.db) && backend.effects == old(backend.effects)
      ensures old(IsClosed(Session(s))) ==>
        (backend.db == old(backend.db) && backend.effects == old(backend.effects)
         && registry.store.entries == old(registry.store.entries)
         && (r.Answer? ==> Some(r.value) == old(Session(s)))
         && (r.Answer? <==> !readOnly && s.sessionId != "" && IsMode(mode)
                            && (sessionUp || ScopeKey(s) in old(registry.cache))))
      ensures registry.store.entries ==
        if r.Answer? then old(registry.store.entries)[ScopeKey(s) := r.value] else old(registry.store.entries)
      ensures r.Refused? ==> cache.entries == old(cache.entries)
      ensures !readOnly && s.sessionId != "" && IsMode(mode) && sessionUp ==>
        old(IsClosed(Session(s)))
        || (CloseTraced(s, Chosen(mode), items, fates, states, old(backend.db), old(backend.calls))
            && (r.Answer? <==> old(backend.calls) !in backend.outages && |fates| == |items| && saveUp))
      ensures r.Answer? && !old(IsClosed(Session(s))) ==>
        r.value == AfterClose(old(Session(s)), s, Chosen(mode), now)
      ensures r.Answer? && !old(IsClosed(Session(s))) ==> CloseDone(s, Chosen(mode), items, states, old(backend.db))
      ensures versions.versions
        == AfterBump(old(versions.versions), s, r.Answer? && !old(IsClosed(Session(s))) && bumpUp)
      ensures trusted == StillTrusted(old(trusted), old(backend.db), backend.db)
                         + if r.Answer? && !old(IsClosed(Session(s))) then Own(s) else iset{}
    {
      items, fates, states := [], [], [Point(backend.db, backend.calls)];
      assert StillTrusted(trusted, backend.db, backend.db) == trusted;
      if readOnly {
        return Refused(ReadOnly), items, fates, states;
      }
      if s.sessionId == "" {
        return Refused(BadRequest), items, fates, states;
      }
      var chosen := Chosen(mode);
      if chosen != EXPIRE_WORKING && chosen != PROMOTE_AND_EXPIRE {
        return Refused(BadRequest), items, fates, states;
      }
      var existing := registry.Get(s, sessionUp);
      if existing.Err? {
        return Refused(Failed(existing.error)), items, fates, states;
      }
      if IsClosed(existing.value) {
        return Answer(existing.value.value), items, fates, states;
      }
      r, items, fates, states := CloseOpenSession(s, chosen, saveUp, bumpUp, now);
    }

    /** A reaped session leaves no live working record behind. */
    method ReapIdleSession(s: Scope, sessionUp: bool, saveUp: bool, bumpUp: bool, now: int) returns (r: Reply<()>)
      requires Valid()
      modifies this`trusted, registry, registry.store, cache, versions, backend
      ensures Valid()
      ensures r.Answer? ==> IsClosed(Session(s))
      ensures r.Answer? && !old(IsClosed(Session(s))) ==> forall id :: id in backend.db ==> !LiveIn(backend.db[id], s)
      ensures r.Answer? && old(IsClosed(Session(s))) ==> backend.db == old(backend.db)
      ensures r.Answer? && OwnsSession(s) && ClosedByExpiry(Session(s)) ==> forall id :: id in backend.db ==>
        !LiveIn(backend.db[id], s)
      ensures r.Refused? ==> registry.store.entries == old(registry.store.entries)
      ensures !readOnly && s.sessionId != "" && sessionUp && saveUp
                && (forall c :: c in backend.outages ==> c < old(backend.calls)) ==>
        r.Answer?
    {
      var closed, items, fates, states := CloseSession(s, EXPIRE_WORKING, sessionUp, saveUp, bumpUp, now);
      if |fates| < |items| && closer.Trace(EXPIRE_WORKING, items, fates, states) {
        closer.OneCallEach(EXPIRE_WORKING, items, fates, states, |fates|);
      }
      return if closed.Answer? then Answer(()) else Refused(closed.why);
    }
  }

  /** An answer to this request is cached, and it has a hit for every live working record of the scope's session. */
  ghost predicate CachesLive(entries: Cached, db: Db, s: Scope, q: RecallRequest)
  {
    && BuildRecallCacheKey(s, q) in entries
    && forall id :: id in db && LiveIn(db[id], s) ==>
         exists h :: h in entries[BuildRecallCacheKey(s, q)].response && h.memoryId == id
  }

  lemma OneExpired(g: Gateway, s: Scope, mode: string, items: seq<Item>, fates: seq<Fate>, states: seq<Point>,
                   before: Db, calls: nat, a: string, b: string, saveUp: bool)
    returns (lost: string)
    requires g.Valid() && g.CloseTraced(s, mode, items, fates, states, before, calls) && mode == EXPIRE_WORKING
    requires a in before && LiveIn(before[a], s) && b in before && LiveIn(before[b], s)
    requires calls !in g.backend.outages && calls + 1 !in g.backend.outages
    requires saveUp ==> a != b && calls + 2 in g.backend.outages
    requires forall id :: id in before ==> before[id].memoryId == id
    ensures lost in before && LiveIn(before[lost], s) && lost in g.backend.db && g.backend.db[lost].deleted
    ensures saveUp ==> |fates| < |items|
  {
    var i :| 0 <= i < |items| && items[i].record.memoryId == a;
    var j :| 0 <= j < |items| && items[j].record.memoryId == b;
    assert |fates| >= 1;
    if saveUp && |fates| == |items| {
      assert g.closer.TurnedAt(mode, items, fates, states, 1);
      g.closer.OneCallEach(mode, items, fates, states, 1);
      assert false;
    }
    g.closer.ExpiryRun(mode, items, fates, states, |fates|, s);
    assert g.closer.ExpiredIn(items[0], g.backend.db);
    lost := items[0].record.memoryId;
  }

  /** The close itself: one record is expired, and the close is refused. */
  method HalfClosed(g: Gateway, s: Scope, a: string, b: string, saveUp: bool, now: int)
    returns (r: Reply<SessionState>, ghost lost: string)
    requires g.Valid() && !g.readOnly && s.sessionId != "" && !IsClosed(g.Session(s))
    requires a in g.backend.db && LiveIn(g.backend.db[a], s) && b in g.backend.db && LiveIn(g.backend.db[b], s)
    requires g.backend.calls !in g.backend.outages && g.backend.calls + 1 !in g.backend.outages
    requires saveUp ==> a != b && g.backend.calls + 2 in g.backend.outages
    modifies g`trusted, g.registry, g.registry.store, g.cache, g.versions, g.backend
    ensures g.Valid() && r.Refused? && g.Session(s) == old(g.Session(s)) && g.cache.entries == old(g.cache.entries)
    ensures lost in old(g.backend.db) && old(LiveIn(g.backend.db[lost], s)) && lost in g.backend.db
      && g.backend.db[lost].deleted
  {
    ghost var before, calls := g.backend.db, g.backend.calls;
    ghost var items, fates, states;
    var mode := EXPIRE_WORKING;
    r, items, fates, states := g.CloseSession(s, mode, true, saveUp, true, now);
    lost := OneExpired(g, s, Chosen(mode), items, fates, states, before, calls, a, b, saveUp);
  }

  /**
   A close that is refused after its closer has expired a record, because the next delete goes unanswered or
   because the close itself cannot be saved, leaves the cache as it was: the answer that was right before the
   call has a hit on the expired record and is not the origin's any more.
   */
  method RefusedCloseLeavesStale(g: Gateway, s: Scope, q: RecallRequest, a: string, b: string, saveUp: bool, now: int)
    returns (r: Reply<SessionState>, ghost lost: string)
    requires g.Valid() && s in g.trusted && CachesLive(g.cache.entries, g.backend.db, s, q)
    requires !g.readOnly && s.sessionId != "" && !IsClosed(g.Session(s))
    requires a in g.backend.db && LiveIn(g.backend.db[a], s) && b in g.backend.db && LiveIn(g.backend.db[b], s)
    requires g.backend.calls !in g.backend.outages && g.backend.calls + 1 !in g.backend.outages
    requires saveUp ==> a != b && g.backend.calls + 2 in g.backend.outages
    modifies g`trusted, g.registry, g.registry.store, g.cache, g.versions, g.backend
    ensures g.Valid() && r.Refused? && g.Session(s) == old(g.Session(s)) && g.cache.entries == old(g.cache.entries)
    ensures lost in old(g.backend.db) && old(LiveIn(g.backend.db[lost], s)) && lost in g.backend.db
      && g.backend.db[lost].deleted
    ensures BuildRecallCacheKey(s, q) in g.cache.entries
    ensures var hits := g.cache.entries[BuildRecallCacheKey(s, q)].response;
            && IsOrigin(g.search, hits, old(g.backend.db), s, FieldsOf(q))
            && !IsOrigin(g.search, hits, g.backend.db, s, FieldsOf(q))
    ensures s !in g.trusted
  {
    ghost var before := g.backend.db;
    r, lost := HalfClosed(g, s, a, b, saveUp, now);
    ghost var hits := g.cache.entries[BuildRecallCacheKey(s, q)].response;
    ghost var h :| h in hits && h.memoryId == lost;
    assert lost !in View(g.backend.db, s);
    LostHitIsNotOrigin(g.search, hits, g.backend.db, s, FieldsOf(q), h);
  }
}
