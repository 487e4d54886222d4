/**
 A run of a new gateway that ends with a wrong cached answer: two records, one recall, and one close that is
 refused half-way. It meets what `RefusedCloseLeavesStale` asks for.
 */
module StaleAnswers {
  import opened Scopes
  import opened Records
  import opened RecallKeys
  import opened Backends
  import opened SessionStore
  import opened RecallCaching
  import opened Origins
  import opened Gateways
  import HybridRecall
  import RecallSelection

  function Note(s: Scope, id: string): Record
  {
    Record(id, s, Working, "agent", "note", "text", [], 0.5, false, false, false, 1, Access(0, None))
  }

  function TwoNotes(s: Scope): Db
  {
    map["a" := Note(s, "a"), "b" := Note(s, "b")]
  }

  const OFFERED := [HybridRecall.ScoredId("a", 1.0), HybridRecall.ScoredId("b", 1.0)]

  /** A search that finds both notes wherever it can select them. */
  function FindsBoth(view: Db, s: Scope, query: string, topK: int): seq<HybridRecall.ScoredId>
  {
    if "a" in view && "b" in view then OFFERED else []
  }

  lemma BothOffered(s: Scope, db: Db, f: KeyFields)
    requires "a" in View(db, s) && "b" in View(db, s)
    ensures var offers := HybridRecall.Offers([LexicalAnswer(FindsBoth, db, s, f.query, f.topK)]);
            |offers| <= 2 && OFFERED[0] in offers && OFFERED[1] in offers
  {
    var answers := [LexicalAnswer(FindsBoth, db, s, f.query, f.topK)];
    assert answers == [HybridRecall.SourceAnswer.Found(OFFERED)];
    var offers := HybridRecall.Offers(answers);
    forall c | c in {OFFERED[0], OFFERED[1]}
      ensures c in offers
    {
      assert answers[0] in answers && c in HybridRecall.OffersIn(HybridRecall.CandidatesIn(answers[0]));
    }
    assert offers == {OFFERED[0], OFFERED[1]};
  }

  /** Only the two notes, live and in view, whatever marks they carry. */
  ghost predicate HoldsNotes(s: Scope, db: Db)
  {
    && db.Keys == {"a", "b"}
    && forall id :: id in db ==> id in View(db, s) && db[id].memoryId == id && LiveIn(db[id], s)
  }

  /** Without a budget, and asked for at least two, the origin answers with both notes. */
  lemma NoteIsHit(s: Scope, db: Db, f: KeyFields, hits: seq<RecallSelection.Hit>, id: string)
    requires HoldsNotes(s, db) && id in db
    requires f.topK >= 2 && f.memoryTokenBudget <= 0 && IsOrigin(FindsBoth, hits, db, s, f)
    ensures exists h :: h in hits && h.memoryId == id
  {
    BothOffered(s, db, f);
    assert OFFERED[0].memoryId == id || OFFERED[1].memoryId == id;
    OffersInViewAreHits(FindsBoth, hits, db, s, f, id);
  }

  lemma MarkingKeepsNotes(s: Scope, db: Db)
    requires OnlyMarked(TwoNotes(s), db)
    ensures HoldsNotes(s, db)
  {
    forall id | id in db
      ensures id in View(db, s) && db[id].memoryId == id && LiveIn(db[id], s)
    {
      assert id in View(TwoNotes(s), s);
      assert Unmarked(db[id]) == View(db, s)[id] == View(TwoNotes(s), s)[id] == Note(s, id);
    }
  }

  lemma BothFound(s: Scope, db: Db, db': Db, f: KeyFields, hits: seq<RecallSelection.Hit>)
    requires HoldsNotes(s, db') && View(db, s) == View(db', s) && f.topK >= 2 && f.memoryTokenBudget <= 0
    requires IsOrigin(FindsBoth, hits, db', s, f)
    ensures OriginFound(FindsBoth, db, s, f)
  {
    NoteIsHit(s, db', f, hits, "a");
    OriginDependsOnView(FindsBoth, hits, db', db, s, f);
    HitsAreFound(FindsBoth, hits, db, s, f);
  }

  lemma BothCached(s: Scope, q: RecallRequest, db: Db, entries: Cached)
    requires HoldsNotes(s, db) && q.memoryTokenBudget <= 0 && FieldsOf(q).topK >= 2
    requires BuildRecallCacheKey(s, q) in entries
    requires IsOrigin(FindsBoth, entries[BuildRecallCacheKey(s, q)].response, db, s, FieldsOf(q))
    ensures CachesLive(entries, db, s, q)
  {
    var hits := entries[BuildRecallCacheKey(s, q)].response;
    forall id | id in db
      ensures exists h :: h in hits && h.memoryId == id
    {
      NoteIsHit(s, db, FieldsOf(q), hits, id);
    }
  }

  /** A new gateway over the two notes whose backend answers the listing and the first delete of a close only. */
  method Prepared(s: Scope) returns (g: Gateway)
    requires PipeFree(s)
    ensures fresh(g) && fresh(g.registry) && fresh(g.registry.store) && fresh(g.cache) && fresh(g.versions)
      && fresh(g.backend)
    ensures g.Valid() && s in g.trusted && !g.readOnly && g.registry.store.entries == map[] && g.cache.entries == map[]
    ensures g.search == FindsBoth && g.backend.db == TwoNotes(s) && g.backend.calls == 0 && g.backend.outages == {2}
  {
    var backend := new Backend(TwoNotes(s), true, (db, r) => Dedupe(Ok(true), {}), {2});
    var store := new MemorySessionStateStore();
    g := new Gateway(backend, store, r => false, FindsBoth, 60, false);
  }

  /** Its first recall caches both notes. */
  method RecalledBoth(g: Gateway, s: Scope, q: RecallRequest, now: int)
    requires g.Valid() && PipeFree(s) && s in g.trusted && g.search == FindsBoth && g.backend.db == TwoNotes(s)
    requires g.registry.store.entries == map[] && g.cache.entries == map[]
    requires Accepted(q) && Level(q) == "eventual" && q.topK != 1 && q.memoryTokenBudget <= 0
    modifies g`trusted, g.registry, g.cache, g.backend`db
    ensures g.Valid() && s in g.trusted && CachesLive(g.cache.entries, g.backend.db, s, q)
    ensures HoldsNotes(s, g.backend.db)
  {
    var r := g.RecallUnified(s, q, ALL_UP, now, now);
    MarkingKeepsNotes(s, g.backend.db);
    BothFound(s, TwoNotes(s), g.backend.db, FieldsOf(q), r.value.hits);
    BothCached(s, q, g.backend.db, g.cache.entries);
  }

  /** A close of the notes' session is then refused at its second delete. */
  method ClosedHalfWay(g: Gateway, s: Scope, q: RecallRequest, now: int) returns (ghost lost: string)
    requires g.Valid() && s in g.trusted && !g.readOnly && s.sessionId != "" && g.Session(s).None?
    requires HoldsNotes(s, g.backend.db) && CachesLive(g.cache.entries, g.backend.db, s, q)
    requires g.backend.calls == 0 && g.backend.outages == {2}
    modifies g`trusted, g.registry, g.registry.store, g.cache, g.versions, g.backend
    ensures g.Valid() && g.Session(s).None? && lost in g.backend.db && g.backend.db[lost].deleted
    ensures LeftWrong(g, s, q)
  {
    var r;
    r, lost := RefusedCloseLeavesStale(g, s, q, "a", "b", true, now);
  }

  /** The cached answer to this request is not what the origin answers. */
  ghost predicate LeftWrong(g: Gateway, s: Scope, q: RecallRequest)
    reads g.cache, g.backend
  {
    && BuildRecallCacheKey(s, q) in g.cache.entries
    && !IsOrigin(g.search, g.cache.entries[BuildRecallCacheKey(s, q)].response, g.backend.db, s, FieldsOf(q))
  }

  /**
   For every pipe-free session scope and every accepted eventual request that leaves room for two hits: the
   close expires one note, is refused, and the cached answer to the request is left wrong.
   */
  method RefusedCloseLeavesWrongAnswer(s: Scope, q: RecallRequest, now: int)
    returns (g: Gateway, ghost lost: string)
    requires PipeFree(s) && s.sessionId != ""
    requires Accepted(q) && Level(q) == "eventual" && q.topK != 1 && q.memoryTokenBudget <= 0
    ensures g.Valid() && g.Session(s).None? && lost in g.backend.db && g.backend.db[lost].deleted
    ensures LeftWrong(g, s, q)
  {
    g := Prepared(s);
    RecalledBoth(g, s, q, now);
    lost := ClosedHalfWay(g, s, q, now);
  }
}
