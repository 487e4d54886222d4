/**
 Bounded recalls by many gateways over one record store and one scope-version token.

 Each gateway has a private cache. A reader reads the token, looks up, and either validates the cached
 hits one read at a time or recalls and fills; a mutator commits and later bumps the token. Every one of
 these is its own step, so a run is any interleaving. A bump that fails is simply a bump that never comes.
 */
module BoundedReads {
  import opened Scopes
  import opened Records
  import opened RecallKeys
  import opened RecallCaching
  import opened RecallSelection

  type Gateway = nat
  type ReaderId = nat

  /** A response, with the recall it came from: whose it was and the state of the store when it began. */
  datatype Response = Response(hits: seq<Hit>, scope: Scope, req: RecallRequest, asOf: nat)

  /** A mutation made under `scope`, visible from `history[at]` on; `bump` is the token it left. */
  datatype Commit = Commit(scope: Scope, at: nat, bump: Option<nat>)

  /**
   `finished` are the mutations whose bump was done when the reader read `token`; `since` is the state of the
   store at the lookup, and `checks` the states that the validating reads saw.
   */
  datatype Reader =
    | Versioned(gateway: Gateway, scope: Scope, req: RecallRequest, token: nat, finished: set<nat>)
    | Validating(scope: Scope, req: RecallRequest, token: nat, finished: set<nat>, gateway: Gateway, found: Response,
                 age: int, since: nat, checks: seq<nat>)
    | Missed(gateway: Gateway, scope: Scope, req: RecallRequest, token: nat)
    | Recalling(gateway: Gateway, scope: Scope, req: RecallRequest, token: nat, from: nat)
    | Recalled(gateway: Gateway, token: nat, response: Response)
    | Served(scope: Scope, req: RecallRequest, finished: set<nat>, found: Response,
             age: int, since: nat, checks: seq<nat>)

  datatype World = World(
    clock: int,
    history: seq<Db>,
    commits: seq<Commit>,
    tokens: map<string, nat>,
    caches: map<Gateway, Entries<Response>>,
    readers: map<ReaderId, Reader>)

  datatype Step =
    | Tick(to: int)
    | CommitMutation(scope: Scope, db: Db)
    | OtherWrite(db: Db)
    | Invalidate(g: Gateway, scope: Scope)
    | Bump(j: nat)
    | ReadToken(t: ReaderId, g: Gateway, scope: Scope, req: RecallRequest)
    | LookUp(t: ReaderId)
    | SkipCache(t: ReaderId)
    | ValidateNext(t: ReaderId)
    | Serve(t: ReaderId)
    | StartRecall(t: ReaderId)
    | FinishRecall(t: ReaderId, hits: seq<Hit>, seen: seq<nat>)
    | Fill(t: ReaderId)

  function Token(w: World, s: Scope): nat
  {
    if ScopeKey(s) in w.tokens then w.tokens[ScopeKey(s)] else 0
  }

  function Cache(w: World, g: Gateway): Entries<Response>
  {
    if g in w.caches then w.caches[g] else map[]
  }

  function Now(w: World): nat
    requires w.history != []
  {
    |w.history| - 1
  }

  /** `h` is what a read of the store at `history[k]` shows. */
  predicate Shows(history: seq<Db>, k: nat, h: Hit)
  {
    && k < |history| && GetRecord(history[k], h.memoryId).Ok?
    && ReportsRecord(h, GetRecord(history[k], h.memoryId).value)
  }

  /** The single read of `validateBoundedCachedResponse`: found, and at the hit's version. */
  predicate StillCurrent(db: Db, h: Hit)
  {
    GetRecord(db, h.memoryId).Ok? && GetRecord(db, h.memoryId).value.version == h.version
  }

  ghost predicate Enabled(w: World, a: Step)
  {
    w.history != [] &&
    match a
    case Tick(to) => w.clock <= to
    case CommitMutation(_, db) => Evolves(w.history[Now(w)], db)
    case OtherWrite(db) => Evolves(w.history[Now(w)], db)
    case Invalidate(_, _) => true
    case Bump(j) => j < |w.commits| && w.commits[j].bump.None?
    case ReadToken(t, _, _, req) => t !in w.readers && Accepted(req)
    case LookUp(t) => t in w.readers && w.readers[t].Versioned? && w.readers[t].req.consistencyLevel == "bounded"
    case SkipCache(t) => t in w.readers && w.readers[t].Versioned? && w.readers[t].req.consistencyLevel != "bounded"
    case ValidateNext(t) => t in w.readers && w.readers[t].Validating?
      && |w.readers[t].checks| < |w.readers[t].found.hits|
    case Serve(t) => t in w.readers && w.readers[t].Validating? && |w.readers[t].checks| == |w.readers[t].found.hits|
    case StartRecall(t) => t in w.readers && w.readers[t].Missed?
    case FinishRecall(t, hits, seen) =>
      && t in w.readers && w.readers[t].Recalling? && |hits| == |seen|
      && (hits != [] || w.readers[t].req.memoryTokenBudget > 0)
      && forall i :: 0 <= i < |hits| ==> w.readers[t].from <= seen[i] && Shows(w.history, seen[i], hits[i])
    case Fill(t) => t in w.readers && w.readers[t].Recalled? && w.readers[t].response.req.consistencyLevel != "strong"
  }

  ghost function Next(w: World, a: Step): World
    requires Enabled(w, a)
  {
    match a
    case Tick(to) => w.(clock := to)
    case CommitMutation(s, db) => w.(history := w.history + [db], commits := w.commits + [Commit(s, |w.history|, None)])
    case OtherWrite(db) => w.(history := w.history + [db])
    case Invalidate(g, s) => w.(caches := w.caches[g := WithoutScope(Cache(w, g), s)])
    case Bump(j) =>
      var s := w.commits[j].scope;
      var token := Token(w, s) + 1;
      w.(tokens := w.tokens[ScopeKey(s) := token], commits := w.commits[j := w.commits[j].(bump := Some(token))])
    case ReadToken(t, g, s, req) =>
      var finished := set j | 0 <= j < |w.commits| && w.commits[j].bump.Some?;
      w.(readers := w.readers[t := Versioned(g, s, req, Token(w, s), finished)])
    case LookUp(t) =>
      var r := w.readers[t];
      var key := BuildRecallCacheKey(r.scope, r.req);
      w.(readers := w.readers[t :=
        match Lookup(Cache(w, r.gateway), key, "bounded", r.req.allowStaleCache, w.clock, r.token)
        case Miss => Missed(r.gateway, r.scope, r.req, r.token)
        case Hit(response, _) =>
          Validating(r.scope, r.req, r.token, r.finished, r.gateway, response,
            w.clock - Cache(w, r.gateway)[key].cachedAt, Now(w), [])])
    case SkipCache(t) =>
      var r := w.readers[t];
      w.(readers := w.readers[t := Missed(r.gateway, r.scope, r.req, r.token)])
    case ValidateNext(t) =>
      var r := w.readers[t];
      w.(readers := w.readers[t :=
        if StillCurrent(w.history[Now(w)], r.found.hits[|r.checks|]) then
          Validating(r.scope, r.req, r.token, r.finished, r.gateway, r.found, r.age, r.since, r.checks + [Now(w)])
        else Missed(r.gateway, r.scope, r.req, r.token)])
    case Serve(t) =>
      var r := w.readers[t];
      w.(readers := w.readers[t := Served(r.scope, r.req, r.finished, r.found, r.age, r.since, r.checks)])
    case StartRecall(t) =>
      var r := w.readers[t];
      w.(readers := w.readers[t := Recalling(r.gateway, r.scope, r.req, r.token, Now(w))])
    case FinishRecall(t, hits, _) =>
      var r := w.readers[t];
      w.(readers := w.readers[t := Recalled(r.gateway, r.token, Response(hits, r.scope, r.req, r.from))])
    case Fill(t) =>
      var r := w.readers[t];
      var entry := Entry(r.response, w.clock, r.token);
      var key := BuildRecallCacheKey(r.response.scope, r.response.req);
      w.(caches := w.caches[r.gateway := Cache(w, r.gateway)[key := entry]],
         readers := w.readers - {t})
  }

  ghost predicate ValidRun(w: World, run: seq<Step>)
    decreases |run|
  {
    run == [] || (Enabled(w, run[0]) && ValidRun(Next(w, run[0]), run[1..]))
  }

  ghost function After(w: World, run: seq<Step>): World
    requires ValidRun(w, run)
    decreases |run|
  {
    if run == [] then w else After(Next(w, run[0]), run[1..])
  }

  function Fresh(clock: int, db: Db): World
  {
    World(clock, [db], [], map[], map[], map[])
  }

  /** A recall begun at `history[from]` by a reader holding `token` has seen all that `token` accounts for. */
  ghost predicate Covers(w: World, s: Scope, token: int, from: nat)
  {
    && token <= Token(w, s) && from < |w.history|
    && forall j {:trigger w.commits[j]} :: 0 <= j < |w.commits| ==>
         var c := w.commits[j];
         ScopeKey(c.scope) == ScopeKey(s) && c.bump.Some? && c.bump.value <= token ==> c.at <= from
  }

  ghost predicate Seen(w: World, from: nat, h: Hit)
  {
    exists k :: from <= k < |w.history| && Shows(w.history, k, h)
  }

  ghost predicate ResponseOk(w: World, r: Response, token: int)
  {
    && Accepted(r.req) && Covers(w, r.scope, token, r.asOf)
    && forall i :: 0 <= i < |r.hits| ==> Seen(w, r.asOf, r.hits[i])
  }

  ghost predicate FinishedOk(w: World, s: Scope, token: nat, finished: set<nat>)
  {
    forall j :: j in finished ==>
      && j < |w.commits| && w.commits[j].bump.Some?
      && (ScopeKey(w.commits[j].scope) == ScopeKey(s) ==> w.commits[j].bump.value <= token)
  }

  ghost predicate ChecksOk(w: World, found: Response, since: nat, checks: seq<nat>)
  {
    && |checks| <= |found.hits| && since < |w.history|
    && forall i :: 0 <= i < |checks| ==> since <= checks[i] && Shows(w.history, checks[i], found.hits[i])
  }

  ghost predicate ReaderOk(w: World, r: Reader)
  {
    match r
    case Versioned(_, s, req, token, finished) =>
      Accepted(req) && token <= Token(w, s) && FinishedOk(w, s, token, finished)
    case Validating(s, req, token, finished, _, found, age, since, checks) =>
      && Accepted(req) && token <= Token(w, s) && FinishedOk(w, s, token, finished)
      && BuildRecallCacheKey(found.scope, found.req) == BuildRecallCacheKey(s, req) && ResponseOk(w, found, token)
      && age <= BOUNDED_CACHE_TTL && ChecksOk(w, found, since, checks)
    case Missed(_, s, req, token) => Accepted(req) && token <= Token(w, s)
    case Recalling(_, s, req, token, from) => Accepted(req) && Covers(w, s, token, from)
    case Recalled(_, token, response) => ResponseOk(w, response, token)
    case Served(s, req, finished, found, age, since, checks) =>
      BoundedAnswer(w, s, req, finished, found, age, since, checks)
  }

  /** What a bounded hit promises; its scope and what it reflects only when no other scope uses the reader's key. */
  ghost predicate BoundedAnswer(w: World, s: Scope, req: RecallRequest, finished: set<nat>, found: Response, age: int,
                                since: nat, checks: seq<nat>)
  {
    && (KeyOwnedInUse(s, req) ==> found.scope == s && FieldsOf(found.req) == FieldsOf(req))
    && (forall j :: j in finished ==> j < |w.commits|)
    && (KeyOwnedInUse(s, req) ==> forall j :: j in finished && w.commits[j].scope == s ==>
      w.commits[j].at <= found.asOf)
    && (forall i :: 0 <= i < |found.hits| ==> Seen(w, found.asOf, found.hits[i]))
    && age <= BOUNDED_CACHE_TTL
    && |checks| == |found.hits|
    && (forall i :: 0 <= i < |checks| ==> since <= checks[i] && Shows(w.history, checks[i], found.hits[i]))
  }

  ghost predicate EntryOk(w: World, key: string, e: Entry<Response>)
  {
    key == BuildRecallCacheKey(e.response.scope, e.response.req) && ResponseOk(w, e.response, e.scopeVersion)
  }

  ghost predicate CommitsOk(w: World)
  {
    forall j :: 0 <= j < |w.commits| ==>
      w.commits[j].at < |w.history|
        && (w.commits[j].bump.Some? ==> w.commits[j].bump.value <= Token(w, w.commits[j].scope))
  }

  ghost predicate HistoryOk(w: World)
  {
    && w.history != []
    && forall i, j :: 0 <= i <= j < |w.history| ==> Evolves(w.history[i], w.history[j])
  }

  ghost predicate Inv(w: World)
  {
    && HistoryOk(w) && CommitsOk(w)
    && (forall g, key :: g in w.caches && key in w.caches[g] ==> EntryOk(w, key, w.caches[g][key]))
    && (forall t :: t in w.readers ==> ReaderOk(w, w.readers[t]))
  }

  // Everything already established survives a step: the store and the log only grow, tokens only rise, and
  // a later bump lands above every token read before it.

  ghost predicate Extends(w: World, w': World)
  {
    && w.history <= w'.history && |w.commits| <= |w'.commits|
    && (forall s :: Token(w, s) <= Token(w', s))
    && (forall j :: 0 <= j < |w.commits| ==>
      w'.commits[j].scope == w.commits[j].scope && w'.commits[j].at == w.commits[j].at)
    && (forall j :: 0 <= j < |w.commits| && w.commits[j].bump.Some? ==> w'.commits[j].bump == w.commits[j].bump)
    && (forall j :: 0 <= j < |w.commits| && w.commits[j].bump.None? && w'.commits[j].bump.Some? ==>
          w'.commits[j].bump.value > Token(w, w.commits[j].scope))
    && (forall j :: |w.commits| <= j < |w'.commits| ==> w'.commits[j].bump.None?)
  }

  lemma StepExtends(w: World, a: Step)
    requires Enabled(w, a)
    ensures Extends(w, Next(w, a))
  {
  }

  lemma CoversPersists(w: World, w': World, s: Scope, token: int, from: nat)
    requires Extends(w, w') && Covers(w, s, token, from)
    ensures Covers(w', s, token, from)
  {
    forall j | 0 <= j < |w'.commits| && ScopeKey(w'.commits[j].scope) == ScopeKey(s) && w'.commits[j].bump.Some?
               && w'.commits[j].bump.value <= token
      ensures w'.commits[j].at <= from
    {
      assert j < |w.commits| && w.commits[j].bump.Some?;
    }
  }

  lemma ShowsPersists(w: World, w': World, k: nat, h: Hit)
    requires Extends(w, w') && Shows(w.history, k, h)
    ensures Shows(w'.history, k, h)
  {
  }

  lemma HitsPersist(w: World, w': World, from: nat, hits: seq<Hit>)
    requires Extends(w, w') && forall i :: 0 <= i < |hits| ==> Seen(w, from, hits[i])
    ensures forall i :: 0 <= i < |hits| ==> Seen(w', from, hits[i])
  {
    forall i | 0 <= i < |hits|
      ensures Seen(w', from, hits[i])
    {
      var k :| from <= k < |w.history| && Shows(w.history, k, hits[i]);
      ShowsPersists(w, w', k, hits[i]);
    }
  }

  lemma ResponseOkPersists(w: World, w': World, r: Response, token: int)
    requires Extends(w, w') && ResponseOk(w, r, token)
    ensures ResponseOk(w', r, token)
  {
    CoversPersists(w, w', r.scope, token, r.asOf);
    HitsPersist(w, w', r.asOf, r.hits);
  }

  lemma FinishedPersists(w: World, w': World, s: Scope, token: nat, finished: set<nat>)
    requires Extends(w, w') && FinishedOk(w, s, token, finished)
    ensures FinishedOk(w', s, token, finished)
  {
  }

  lemma ChecksPersist(w: World, w': World, found: Response, since: nat, checks: seq<nat>)
    requires Extends(w, w') && ChecksOk(w, found, since, checks)
    ensures ChecksOk(w', found, since, checks)
  {
  }

  lemma AnswerPersists(w: World, w': World, s: Scope, req: RecallRequest, finished: set<nat>, found: Response, age: int,
                       since: nat, checks: seq<nat>)
    requires Extends(w, w') && BoundedAnswer(w, s, req, finished, found, age, since, checks)
    ensures BoundedAnswer(w', s, req, finished, found, age, since, checks)
  {
    HitsPersist(w, w', found.asOf, found.hits);
  }

  lemma ReaderOkPersists(w: World, w': World, r: Reader)
    requires Extends(w, w') && ReaderOk(w, r)
    ensures ReaderOk(w', r)
  {
    match r
    case Versioned(_, s, _, token, finished) => FinishedPersists(w, w', s, token, finished);
    case Validating(s, _, token, finished, _, found, _, since, checks) =>
      FinishedPersists(w, w', s, token, finished);
      ResponseOkPersists(w, w', found, token);
      ChecksPersist(w, w', found, since, checks);
    case Missed(_, s, _, _) =>
    case Recalling(_, s, _, token, from) => CoversPersists(w, w', s, token, from);
    case Recalled(_, token, response) => ResponseOkPersists(w, w', response, token);
    case Served(s, req, finished, found, age, since, checks) =>
      AnswerPersists(w, w', s, req, finished, found, age, since, checks);
  }

  lemma StepKeepsHistory(w: World, a: Step)
    requires HistoryOk(w) && Enabled(w, a)
    ensures HistoryOk(Next(w, a))
  {
    var h, h' := w.history, Next(w, a).history;
    if h' != h {
      forall i, j | 0 <= i <= j < |h'|
        ensures Evolves(h'[i], h'[j])
      {
        if i < j == |h| {
          EvolvesTransitive(h[i], h[Now(w)], h'[j]);
        }
      }
    }
  }

  lemma StepKeepsCommits(w: World, a: Step)
    requires CommitsOk(w) && Enabled(w, a)
    ensures CommitsOk(Next(w, a))
  {
    StepExtends(w, a);
  }

  // What a step adds is right already in the world before it.

  lemma FillOk(w: World, t: ReaderId)
    requires Inv(w) && Enabled(w, Fill(t))
    ensures var r := w.readers[t];
            EntryOk(w, BuildRecallCacheKey(r.response.scope, r.response.req), Entry(r.response, w.clock, r.token))
  {
    assert ReaderOk(w, w.readers[t]);
  }

  predicate OldEntry(w: World, g: Gateway, key: string, e: Entry<Response>)
  {
    g in w.caches && key in w.caches[g] && w.caches[g][key] == e
  }

  predicate FilledEntry(w: World, a: Step, key: string, e: Entry<Response>)
  {
    a.Fill? && a.t in w.readers && w.readers[a.t].Recalled?
    && var r := w.readers[a.t];
       key == BuildRecallCacheKey(r.response.scope, r.response.req) && e == Entry(r.response, w.clock, r.token)
  }

  lemma EntriesComeFrom(w: World, a: Step, g: Gateway, key: string)
    requires Enabled(w, a) && g in Next(w, a).caches && key in Next(w, a).caches[g]
    ensures var e := Next(w, a).caches[g][key]; OldEntry(w, g, key, e) || FilledEntry(w, a, key, e)
  {
  }

  lemma AddedEntryOk(w: World, a: Step, g: Gateway, key: string)
    requires Inv(w) && Enabled(w, a) && g in Next(w, a).caches && key in Next(w, a).caches[g]
    ensures EntryOk(w, key, Next(w, a).caches[g][key])
  {
    var e := Next(w, a).caches[g][key];
    EntriesComeFrom(w, a, g, key);
    if OldEntry(w, g, key, e) {
      assert EntryOk(w, key, w.caches[g][key]);
    } else {
      FillOk(w, a.t);
    }
  }

  lemma StepKeepsEntries(w: World, a: Step, g: Gateway, key: string)
    requires Inv(w) && Enabled(w, a) && g in Next(w, a).caches && key in Next(w, a).caches[g]
    ensures EntryOk(Next(w, a), key, Next(w, a).caches[g][key])
  {
    AddedEntryOk(w, a, g, key);
    StepExtends(w, a);
    var e := Next(w, a).caches[g][key];
    ResponseOkPersists(w, Next(w, a), e.response, e.scopeVersion);
  }

  lemma SameVersionSameHit(h: Hit, r: Record, r': Record)
    requires SameContent(r, r') && ReportsRecord(h, r)
    ensures ReportsRecord(h, r')
  {
  }

  /** A hit that is still at its version shows exactly what the validating read returned. */
  lemma StillCurrentShows(w: World, from: nat, h: Hit)
    requires HistoryOk(w) && Seen(w, from, h) && StillCurrent(w.history[Now(w)], h)
    ensures Shows(w.history, Now(w), h)
  {
    var k :| from <= k < |w.history| && Shows(w.history, k, h);
    SameVersionSameHit(h, w.history[k][h.memoryId], w.history[Now(w)][h.memoryId]);
  }

  lemma LookUpFindsOwnEntry(w: World, t: ReaderId)
    requires Inv(w) && Enabled(w, LookUp(t))
    ensures ReaderOk(w, Next(w, LookUp(t)).readers[t])
  {
    var r := w.readers[t];
    assert ReaderOk(w, r);
    if Next(w, LookUp(t)).readers[t].Validating? {
      var key := BuildRecallCacheKey(r.scope, r.req);
      assert EntryOk(w, key, w.caches[r.gateway][key]);
    }
  }

  lemma CheckAdded(w: World, found: Response, since: nat, checks: seq<nat>)
    requires HistoryOk(w) && ChecksOk(w, found, since, checks) && |checks| < |found.hits|
    requires Seen(w, found.asOf, found.hits[|checks|]) && StillCurrent(w.history[Now(w)], found.hits[|checks|])
    ensures ChecksOk(w, found, since, checks + [Now(w)])
  {
    StillCurrentShows(w, found.asOf, found.hits[|checks|]);
  }

  lemma ValidateNextOk(w: World, t: ReaderId)
    requires Inv(w) && Enabled(w, ValidateNext(t))
    ensures ReaderOk(w, Next(w, ValidateNext(t)).readers[t])
  {
    var r := w.readers[t];
    assert ReaderOk(w, r);
    if StillCurrent(w.history[Now(w)], r.found.hits[|r.checks|]) {
      CheckAdded(w, r.found, r.since, r.checks);
    }
  }

  lemma RecalledOk(w: World, t: ReaderId, hits: seq<Hit>, seen: seq<nat>)
    requires Inv(w) && Enabled(w, FinishRecall(t, hits, seen))
    ensures ReaderOk(w, Next(w, FinishRecall(t, hits, seen)).readers[t])
  {
    var r := w.readers[t];
    assert ReaderOk(w, r);
    forall i | 0 <= i < |hits|
      ensures Seen(w, r.from, hits[i])
    {
      assert Shows(w.history, seen[i], hits[i]);
    }
  }

  lemma ServeOk(w: World, t: ReaderId)
    requires Inv(w) && Enabled(w, Serve(t))
    ensures ReaderOk(w, Next(w, Serve(t)).readers[t])
  {
    var r := w.readers[t];
    assert ReaderOk(w, r);
    if KeyOwnedInUse(r.scope, r.req) {
      assert r.found.scope == r.scope;
      SameScopeSameFields(r.scope, r.req, r.found.req);
    }
  }

  lemma BeginOk(w: World, a: Step)
    requires Inv(w) && Enabled(w, a) && (a.ReadToken? || a.SkipCache? || a.StartRecall?)
    ensures ReaderOk(w, Next(w, a).readers[a.t])
  {
    if !a.ReadToken? {
      assert ReaderOk(w, w.readers[a.t]);
    }
  }

  predicate ReaderStep(a: Step)
  {
    a.ReadToken? || a.LookUp? || a.SkipCache? || a.ValidateNext? || a.Serve? || a.StartRecall? || a.FinishRecall?
  }

  lemma OthersStayPut(w: World, a: Step, t: ReaderId)
    requires Enabled(w, a) && t in Next(w, a).readers && !(ReaderStep(a) && a.t == t)
    ensures t in w.readers && Next(w, a).readers[t] == w.readers[t]
  {
  }

  lemma MovedReaderOk(w: World, a: Step)
    requires Inv(w) && Enabled(w, a) && ReaderStep(a)
    ensures ReaderOk(w, Next(w, a).readers[a.t])
  {
    match a
    case LookUp(t) => LookUpFindsOwnEntry(w, t);
    case ValidateNext(t) => ValidateNextOk(w, t);
    case FinishRecall(t, hits, seen) => RecalledOk(w, t, hits, seen);
    case Serve(t) => ServeOk(w, t);
    case _ => BeginOk(w, a);
  }

  lemma StepKeepsReaders(w: World, a: Step, t: ReaderId)
    requires Inv(w) && Enabled(w, a) && t in Next(w, a).readers
    ensures ReaderOk(Next(w, a), Next(w, a).readers[t])
  {
    if ReaderStep(a) && a.t == t {
      MovedReaderOk(w, a);
    } else {
      OthersStayPut(w, a, t);
      assert ReaderOk(w, w.readers[t]);
    }
    StepExtends(w, a);
    ReaderOkPersists(w, Next(w, a), Next(w, a).readers[t]);
  }

  lemma StepKeepsInv(w: World, a: Step)
    requires Inv(w) && Enabled(w, a)
    ensures Inv(Next(w, a))
  {
    StepKeepsHistory(w, a);
    StepKeepsCommits(w, a);
    forall g, key | g in Next(w, a).caches && key in Next(w, a).caches[g]
      ensures EntryOk(Next(w, a), key, Next(w, a).caches[g][key])
    {
      StepKeepsEntries(w, a, g, key);
    }
    forall t | t in Next(w, a).readers
      ensures ReaderOk(Next(w, a), Next(w, a).readers[t])
    {
      StepKeepsReaders(w, a, t);
    }
  }

  lemma {:induction false} RunKeepsInv(w: World, run: seq<Step>)
    requires Inv(w) && ValidRun(w, run)
    ensures Inv(After(w, run))
    decreases |run|
  {
    if run != [] {
      StepKeepsInv(w, run[0]);
      RunKeepsInv(Next(w, run[0]), run[1..]);
    }
  }

  /**
   A bounded hit, in every interleaving: its entry was at most five seconds old, and each hit equals what a
   record read during validation showed. When no other scope builds the reader's key, it also answers this
   scope and request, and its recall began after the commit of every mutation of the scope whose bump was
   done when the reader took its token.
   */
  lemma BoundedHitIsFreshAndCurrent(clock: int, db: Db, run: seq<Step>, t: ReaderId)
    requires ValidRun(Fresh(clock, db), run)
    requires t in After(Fresh(clock, db), run).readers && After(Fresh(clock, db), run).readers[t].Served?
    ensures var w := After(Fresh(clock, db), run);
            var r := w.readers[t];
            BoundedAnswer(w, r.scope, r.req, r.finished, r.found, r.age, r.since, r.checks)
  {
    var w := After(Fresh(clock, db), run);
    RunKeepsInv(Fresh(clock, db), run);
    assert ReaderOk(w, w.readers[t]);
  }

  // Whose recall a bounded hit comes from.

  /** The run ends with reader `t` served a cached response to `req` under `s`. */
  ghost predicate Serves(w: World, run: seq<Step>, t: ReaderId, s: Scope, req: RecallRequest)
  {
    && ValidRun(w, run)
    && var readers := After(w, run).readers;
       t in readers && readers[t].Served? && readers[t].scope == s && readers[t].req == req
  }

  ghost predicate AlwaysOwnAnswer(s: Scope, req: RecallRequest)
  {
    forall clock, db, run, t :: Serves(Fresh(clock, db), run, t, s, req) ==>
      After(Fresh(clock, db), run).readers[t].found.scope == s
  }

  lemma RunOfCons(w: World, a: Step, rest: seq<Step>)
    requires Enabled(w, a) && ValidRun(Next(w, a), rest)
    ensures ValidRun(w, [a] + rest) && After(w, [a] + rest) == After(Next(w, a), rest)
  {
    assert ([a] + rest)[1..] == rest;
  }

  lemma {:induction false} RunThenSteps(w: World, run: seq<Step>, more: seq<Step>)
    requires ValidRun(w, run) && ValidRun(After(w, run), more)
    ensures ValidRun(w, run + more) && After(w, run + more) == After(After(w, run), more)
    decreases |run|
  {
    if run == [] {
      assert run + more == more;
    } else {
      assert (run + more)[1..] == run[1..] + more;
      RunThenSteps(Next(w, run[0]), run[1..], more);
    }
  }

  /** A reader of gateway 0 finds nothing in its empty cache. */
  lemma MissRun(w: World, s: Scope, req: RecallRequest) returns (run: seq<Step>)
    requires w.history != [] && w.tokens == map[] && w.caches == map[] && w.readers == map[]
    requires Accepted(req) && req.consistencyLevel == "bounded"
    ensures ValidRun(w, run) && After(w, run) == w.(readers := map[0 := Missed(0, s, req, 0)])
  {
    var w1 := Next(w, ReadToken(0, 0, s, req));
    RunOfCons(w1, LookUp(0), []);
    run := [ReadToken(0, 0, s, req)] + ([LookUp(0)] + []);
    RunOfCons(w, ReadToken(0, 0, s, req), [LookUp(0)] + []);
    assert map[0 := w1.readers[0]][0 := Missed(0, s, req, 0)] == map[0 := Missed(0, s, req, 0)];
  }

  /** It recalls some hits, perhaps none within its budget, and fills gateway 0's empty cache with them. */
  lemma FillRun(w: World, s: Scope, req: RecallRequest, hits: seq<Hit>) returns (run: seq<Step>)
    requires w.history != [] && w.caches == map[] && w.readers == map[0 := Missed(0, s, req, 0)]
    requires req.consistencyLevel == "bounded" && (hits != [] || req.memoryTokenBudget > 0)
    requires forall i :: 0 <= i < |hits| ==> Shows(w.history, Now(w), hits[i])
    ensures ValidRun(w, run) && After(w, run).readers == map[]
    ensures var w', key := After(w, run), BuildRecallCacheKey(s, req);
            && w'.clock == w.clock && w'.history == w.history && w'.commits == w.commits && w'.tokens == w.tokens
            && w'.caches == map[0 := map[key := Entry(Response(hits, s, req, Now(w)), w.clock, 0)]]
  {
    var finish := FinishRecall(0, hits, seq(|hits|, _ => Now(w)));
    var w1 := Next(w, StartRecall(0));
    var w2 := Next(w1, finish);
    RunOfCons(w2, Fill(0), []);
    var r1 := [finish] + ([Fill(0)] + []);
    RunOfCons(w1, finish, [Fill(0)] + []);
    run := [StartRecall(0)] + r1;
    RunOfCons(w, StartRecall(0), r1);
  }

  /** Reader 1 of gateway 0 finds the one cached entry. */
  lemma LookUpRun(w: World, s: Scope, req: RecallRequest, e: Entry<Response>) returns (run: seq<Step>)
    requires w.history != [] && w.tokens == map[] && w.commits == [] && w.readers == map[]
    requires Accepted(req) && req.consistencyLevel == "bounded"
    requires w.caches == map[0 := map[BuildRecallCacheKey(s, req) := e]] && e.cachedAt == w.clock && e.scopeVersion == 0
    ensures ValidRun(w, run) && After(w, run).history == w.history && 1 in After(w, run).readers
    ensures After(w, run).readers[1] == Validating(s, req, 0, {}, 0, e.response, 0, Now(w), [])
  {
    var w1 := Next(w, ReadToken(1, 0, s, req));
    RunOfCons(w1, LookUp(1), []);
    run := [ReadToken(1, 0, s, req)] + ([LookUp(1)] + []);
    RunOfCons(w, ReadToken(1, 0, s, req), [LookUp(1)] + []);
  }

  /** It validates the hits it has still to check, and is served. */
  lemma {:induction false} ServeRun(w: World, s: Scope, req: RecallRequest, found: Response, checks: seq<nat>)
    returns (run: seq<Step>)
    requires w.history != [] && |checks| <= |found.hits|
    requires forall i :: 0 <= i < |found.hits| ==> Shows(w.history, Now(w), found.hits[i])
    requires 1 in w.readers && w.readers[1] == Validating(s, req, 0, {}, 0, found, 0, Now(w), checks)
    ensures Serves(w, run, 1, s, req) && After(w, run).readers[1].found == found
    decreases |found.hits| - |checks|
  {
    if |checks| == |found.hits| {
      run := [Serve(1)] + [];
      RunOfCons(w, Serve(1), []);
    } else {
      var rest := ServeRun(Next(w, ValidateNext(1)), s, req, found, checks + [Now(w)]);
      run := [ValidateNext(1)] + rest;
      RunOfCons(w, ValidateNext(1), rest);
    }
  }

  // A bounded read that nothing comes between.

  ghost function ReadInARow(w: World, t: ReaderId, g: Gateway, s: Scope, req: RecallRequest): World
    requires w.history != [] && t !in w.readers && Accepted(req) && req.consistencyLevel == "bounded"
  {
    Next(Next(w, ReadToken(t, g, s, req)), LookUp(t))
  }

  /**
   It reads the token, which accounts for exactly the mutations bumped so far, and looks the request up under it; a
   hit is then to be validated against the store as it is now.
   */
  lemma ReadIsStepsInARow(w: World, t: ReaderId, g: Gateway, s: Scope, req: RecallRequest)
    requires w.history != [] && t !in w.readers && Accepted(req) && req.consistencyLevel == "bounded"
    ensures var key, token := BuildRecallCacheKey(s, req), Token(w, s);
            var found := Lookup(Cache(w, g), key, "bounded", req.allowStaleCache, w.clock, token);
            var r := ReadInARow(w, t, g, s, req).readers[t];
            if found.Miss? then r == Missed(g, s, req, token)
            else
              && key in Cache(w, g)
              && r == Validating(s, req, token, r.finished, g, found.response, w.clock - Cache(w, g)[key].cachedAt,
                                 Now(w), [])
              && forall j :: j in r.finished <==> 0 <= j < |w.commits| && w.commits[j].bump.Some?
  {
  }

  ghost function ValidateInARow(w: World, t: ReaderId): (w': World)
    requires w.history != [] && t in w.readers && w.readers[t].Validating?
      && |w.readers[t].checks| <= |w.readers[t].found.hits|
    ensures t in w'.readers
    decreases |w.readers[t].found.hits| - |w.readers[t].checks|
  {
    if |w.readers[t].checks| == |w.readers[t].found.hits| then Next(w, Serve(t))
    else
      var w' := Next(w, ValidateNext(t));
      if w'.readers[t].Validating? then ValidateInARow(w', t) else w'
  }

  /** The validation serves exactly if every hit not yet checked is still at its version, and otherwise misses. */
  lemma {:induction false} ValidationIsStepsInARow(w: World, t: ReaderId)
    requires w.history != [] && t in w.readers && w.readers[t].Validating?
      && |w.readers[t].checks| <= |w.readers[t].found.hits|
    ensures var r, r' := w.readers[t], ValidateInARow(w, t).readers[t];
            if forall i :: |r.checks| <= i < |r.found.hits| ==> StillCurrent(w.history[Now(w)], r.found.hits[i]) then
              r'.Served? && r'.found == r.found && r'.scope == r.scope && r'.req == r.req && r'.age == r.age
            else r' == Missed(r.gateway, r.scope, r.req, r.token)
    decreases |w.readers[t].found.hits| - |w.readers[t].checks|
  {
    var r := w.readers[t];
    if |r.checks| < |r.found.hits| && StillCurrent(w.history[Now(w)], r.found.hits[|r.checks|]) {
      ValidationIsStepsInARow(Next(w, ValidateNext(t)), t);
    }
  }

  /**
   A mutation that goes through on gateway `g`: its commit, the invalidation and the bump in a row add the new
   store, leave nothing under the scope's prefix in that gateway's cache and all else as it was, and raise the
   scope's token by 1.
   */
  lemma MutationInARow(w: World, g: Gateway, s: Scope, db: Db)
    requires Enabled(w, CommitMutation(s, db))
    ensures var committed := Next(w, CommitMutation(s, db));
            var invalidated := Next(committed, Invalidate(g, s));
            var w' := Next(invalidated, Bump(|w.commits|));
            && w'.history == w.history + [db] && w'.readers == w.readers && w'.clock == w.clock
            && (forall key :: key in Cache(w', g) <==> key in Cache(w, g) && !HasScopePrefix(key, s))
            && (forall key :: key in Cache(w', g) ==> Cache(w', g)[key] == Cache(w, g)[key])
            && (forall g' :: g' != g ==> Cache(w', g') == Cache(w, g'))
            && w'.tokens == w.tokens[ScopeKey(s) := Token(w, s) + 1]
            && w'.commits == w.commits + [Commit(s, |w.history|, Some(Token(w, s) + 1))]
  {
  }

  /** A run that serves a reader under `s` the recall of another scope with the same key, validation and all. */
  lemma ForeignRecallServed(s: Scope, req: RecallRequest, s': Scope, req': RecallRequest, clock: int, db: Db,
                            hits: seq<Hit>)
    returns (run: seq<Step>)
    requires BuildRecallCacheKey(s', req') == BuildRecallCacheKey(s, req)
    requires Accepted(req) && Accepted(req') && req.consistencyLevel == "bounded" == req'.consistencyLevel
    requires hits != [] || req'.memoryTokenBudget > 0
    requires forall i :: 0 <= i < |hits| ==> Shows([db], 0, hits[i])
    ensures Serves(Fresh(clock, db), run, 1, s, req)
    ensures After(Fresh(clock, db), run).readers[1].found == Response(hits, s', req', 0)
  {
    var w := Fresh(clock, db);
    var missing := MissRun(w, s', req');
    var filled := FillRun(After(w, missing), s', req', hits);
    RunThenSteps(w, missing, filled);
    var filling := missing + filled;
    var looking := LookUpRun(After(w, filling), s, req, Entry(Response(hits, s', req', 0), clock, 0));
    RunThenSteps(w, filling, looking);
    var serving := ServeRun(After(w, filling + looking), s, req, Response(hits, s', req', 0), []);
    RunThenSteps(w, filling + looking, serving);
    run := filling + looking + serving;
  }

  /**
   A bounded hit is always the scope's own recall exactly when the scope is pipe-free and every '|' of the
   trimmed query but a last one is followed by a space. For any other request that the handler accepts some run
   serves another scope's recall.
   */
  lemma OwnAnswerExactly(s: Scope, req: RecallRequest)
    requires Accepted(req) && req.consistencyLevel == "bounded"
    ensures AlwaysOwnAnswer(s, req) <==> PipeFree(s) && InnerPipesSpaced(TrimSpace(req.query))
  {
    CacheKeyOwnedInUse(s, req);
    if KeyOwnedInUse(s, req) {
      forall clock, db, run, t | Serves(Fresh(clock, db), run, t, s, req)
        ensures After(Fresh(clock, db), run).readers[t].found.scope == s
      {
        BoundedHitIsFreshAndCurrent(clock, db, run, t);
      }
    } else {
      var s', q :| Accepted(q) && BuildRecallCacheKey(s', q) == BuildRecallCacheKey(s, req) && s' != s;
      var record := Record("m", s', Semantic, "", "", "c", [], 0.0, false, false, false, 1, Access(0, None));
      var db, h := map["m" := record], HitOf(CandidateOf(record));
      var run := ForeignRecallServed(s, req, s', q.(consistencyLevel := "bounded"), 0, db, [h]);
      assert Serves(Fresh(0, db), run, 1, s, req);
    }
  }

  /**
   When it is the query that has the pipe, the other scope has the same tenant, user and project, and the reader
   is served any of that scope's hits, each read again and found current.
   */
  lemma NeighbourSessionServed(s: Scope, req: RecallRequest, i: nat, clock: int, db: Db, hits: seq<Hit>)
    returns (run: seq<Step>)
    requires Accepted(req) && req.consistencyLevel == "bounded"
    requires SplitsAt(TrimSpace(req.query), i) && i + 1 < |TrimSpace(req.query)|
    requires (hits != [] || req.memoryTokenBudget > 0) && forall j :: 0 <= j < |hits| ==> Shows([db], 0, hits[j])
    ensures Serves(Fresh(clock, db), run, 1, s, req)
    ensures var found := After(Fresh(clock, db), run).readers[1].found;
            found.hits == hits && found.scope == s.(sessionId := s.sessionId + "|" + TrimSpace(req.query)[..i])
  {
    var q := TrimSpace(req.query);
    UnspacedPipeCollides(s, req, i);
    run := ForeignRecallServed(s, req, s.(sessionId := s.sessionId + "|" + q[..i]), req.(query := q[i + 1..]), clock,
      db, hits);
  }
}
