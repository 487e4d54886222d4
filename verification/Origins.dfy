/**
 What an uncached lexical recall answers, and the part of the store that the answer depends on.

 The search statement itself is foreign: `Search` is any function of the rows it can select, which are the
 visible rows of the scope. It does not read the access marks, so neither does the answer.
 */
module Origins {
  import opened Scopes
  import opened Records
  import opened RecallKeys
  import opened Ordering
  import opened HybridRecall
  import opened RecallSelection

  type Search = (Db, Scope, string, int) -> seq<ScoredId>

  function Unmarked(r: Record): Record
  {
    r.(access := Access(0, None))
  }

  /** The rows a recall under `s` can select. */
  function View(db: Db, s: Scope): Db
  {
    map id | id in db && Visible(db[id]) && RecordBelongsToScope(db[id], s) :: Unmarked(db[id])
  }

  function LexicalAnswer(search: Search, db: Db, s: Scope, trimmed: string, topK: int): SourceAnswer
  {
    var found := search(View(db, s), s, trimmed, topK);
    if found == [] then NothingFound else SourceAnswer.Found(found)
  }

  /** Ranks the records and packs them into the budget. */
  function HitsFrom(records: seq<Record>, budget: int): seq<Hit>
  {
    var cs := Sort(Before, CandidatesOf(records));
    Picked(GreedyKeep(cs, budget), cs)
  }

  function HitsOf(r: Result<seq<Record>>, budget: int): seq<Hit>
  {
    if r.Ok? then HitsFrom(r.value, budget) else []
  }

  /** `hits` are what the origin answers to a request with these fields; nothing found is no hits. */
  ghost predicate IsOrigin(search: Search, hits: seq<Hit>, db: Db, s: Scope, f: KeyFields)
  {
    exists r :: IsRecall(r, db, s, Offers([LexicalAnswer(search, db, s, f.query, f.topK)]), f.topK)
                && hits == HitsOf(r, f.memoryTokenBudget)
  }

  /** The recall behind the answer finds a record, whether or not the budget leaves a hit of it. */
  ghost predicate OriginFound(search: Search, db: Db, s: Scope, f: KeyFields)
  {
    exists records :: IsRecall(Ok(records), db, s, Offers([LexicalAnswer(search, db, s, f.query, f.topK)]), f.topK)
  }

  lemma FoundExactly(search: Search, db: Db, s: Scope, f: KeyFields, r: Result<seq<Record>>)
    requires IsRecall(r, db, s, Offers([LexicalAnswer(search, db, s, f.query, f.topK)]), f.topK)
    ensures r.Ok? <==> OriginFound(search, db, s, f)
  {
    var offers := Offers([LexicalAnswer(search, db, s, f.query, f.topK)]);
    if r.Ok? {
      assert IsRecall(Ok(r.value), db, s, offers, f.topK);
    } else if OriginFound(search, db, s, f) {
      var records :| IsRecall(Ok(records), db, s, offers, f.topK);
      RecallUnique(r, Ok(records), db, s, offers, f.topK);
    }
  }

  lemma HitsAreFound(search: Search, hits: seq<Hit>, db: Db, s: Scope, f: KeyFields)
    requires IsOrigin(search, hits, db, s, f) && hits != []
    ensures OriginFound(search, db, s, f)
  {
    var offers := Offers([LexicalAnswer(search, db, s, f.query, f.topK)]);
    var r :| IsRecall(r, db, s, offers, f.topK) && hits == HitsOf(r, f.memoryTokenBudget);
    FoundExactly(search, db, s, f, r);
  }

  lemma OriginExists(search: Search, db: Db, s: Scope, f: KeyFields) returns (hits: seq<Hit>)
    ensures IsOrigin(search, hits, db, s, f)
  {
    var r := RecallExists([LexicalAnswer(search, db, s, f.query, f.topK)], db, s, f.topK);
    hits := HitsOf(r, f.memoryTokenBudget);
  }

  lemma OriginUnique(search: Search, hits: seq<Hit>, hits': seq<Hit>, db: Db, s: Scope, f: KeyFields)
    requires IsOrigin(search, hits, db, s, f) && IsOrigin(search, hits', db, s, f)
    ensures hits == hits'
  {
    var offers := Offers([LexicalAnswer(search, db, s, f.query, f.topK)]);
    var r :| IsRecall(r, db, s, offers, f.topK) && hits == HitsOf(r, f.memoryTokenBudget);
    var r' :| IsRecall(r', db, s, offers, f.topK) && hits' == HitsOf(r', f.memoryTokenBudget);
    RecallUnique(r, r', db, s, offers, f.topK);
  }

  // The access marks do not show: records, candidates, their order, the budget loop and the hits, in turn.

  function UnmarkAll(records: seq<Record>): seq<Record>
  {
    if records == [] then [] else UnmarkAll(records[..|records| - 1]) + [Unmarked(records[|records| - 1])]
  }

  function UnmarkCandidate(c: Candidate): Candidate
  {
    c.(record := Unmarked(c.record))
  }

  function UnmarkCandidates(cs: seq<Candidate>): (us: seq<Candidate>)
    ensures |us| == |cs|
    ensures forall i :: 0 <= i < |cs| ==> us[i] == UnmarkCandidate(cs[i])
  {
    if cs == [] then [] else UnmarkCandidates(cs[..|cs| - 1]) + [UnmarkCandidate(cs[|cs| - 1])]
  }

  lemma {:induction false} HydrationSeesOnlyTheView(db: Db, s: Scope, ids: seq<string>)
    ensures InScopeVisible(View(db, s), s, ids) == UnmarkAll(InScopeVisible(db, s, ids))
  {
    if ids != [] {
      var n := |ids| - 1;
      var front := InScopeVisible(db, s, ids[..n]);
      HydrationSeesOnlyTheView(db, s, ids[..n]);
      if ids[n] in View(db, s) {
        assert (front + [db[ids[n]]])[..|front|] == front;
      }
    }
  }

  lemma CandidateOfUnmarked(r: Record)
    ensures CandidateOf(Unmarked(r)) == UnmarkCandidate(CandidateOf(r))
  {
  }

  lemma CandidatesOfAppend(records: seq<Record>, r: Record)
    ensures CandidatesOf(records + [r]) == CandidatesOf(records) + [CandidateOf(r)]
  {
    assert (records + [r])[..|records|] == records;
  }

  lemma {:induction false} CandidatesOfUnmarked(records: seq<Record>)
    ensures CandidatesOf(UnmarkAll(records)) == UnmarkCandidates(CandidatesOf(records))
  {
    if records != [] {
      var front, last := records[..|records| - 1], records[|records| - 1];
      CandidatesOfUnmarked(front);
      CandidatesOfAppend(UnmarkAll(front), Unmarked(last));
      CandidateOfUnmarked(last);
      assert (CandidatesOf(front) + [CandidateOf(last)])[..|front|] == CandidatesOf(front);
    }
  }

  lemma {:induction false} InsertUnmarked(x: Candidate, cs: seq<Candidate>)
    ensures Insert(Before, UnmarkCandidate(x), UnmarkCandidates(cs)) == UnmarkCandidates(Insert(Before, x, cs))
  {
    if cs != [] {
      InsertUnmarked(x, cs[..|cs| - 1]);
      assert UnmarkCandidates(cs)[..|cs| - 1] == UnmarkCandidates(cs[..|cs| - 1]);
    }
  }

  lemma {:induction false} SortUnmarked(cs: seq<Candidate>)
    ensures Sort(Before, UnmarkCandidates(cs)) == UnmarkCandidates(Sort(Before, cs))
  {
    if cs != [] {
      var n := |cs| - 1;
      SortUnmarked(cs[..n]);
      InsertUnmarked(cs[n], Sort(Before, cs[..n]));
      assert UnmarkCandidates(cs)[..n] == UnmarkCandidates(cs[..n]);
    }
  }

  lemma {:induction false} CostUnmarked(keep: seq<bool>, cs: seq<Candidate>)
    requires |keep| == |cs|
    ensures Cost(keep, UnmarkCandidates(cs)) == Cost(keep, cs)
    ensures Picked(keep, UnmarkCandidates(cs)) == Picked(keep, cs)
  {
    if cs != [] {
      var n := |cs| - 1;
      CostUnmarked(keep[..n], cs[..n]);
      assert UnmarkCandidates(cs)[..n] == UnmarkCandidates(cs[..n]);
    }
  }

  lemma {:induction false} GreedyUnmarked(cs: seq<Candidate>, budget: int)
    ensures GreedyKeep(UnmarkCandidates(cs), budget) == GreedyKeep(cs, budget)
  {
    if cs != [] {
      var n := |cs| - 1;
      GreedyUnmarked(cs[..n], budget);
      CostUnmarked(GreedyKeep(cs[..n], budget), cs[..n]);
      assert UnmarkCandidates(cs)[..n] == UnmarkCandidates(cs[..n]);
    }
  }

  lemma HitsIgnoreMarks(records: seq<Record>, budget: int)
    ensures HitsFrom(UnmarkAll(records), budget) == HitsFrom(records, budget)
  {
    var cs := Sort(Before, CandidatesOf(records));
    CandidatesOfUnmarked(records);
    SortUnmarked(CandidatesOf(records));
    GreedyUnmarked(cs, budget);
    CostUnmarked(GreedyKeep(cs, budget), cs);
  }

  lemma RecalledIds(r: Result<seq<Record>>, db: Db, s: Scope, offers: set<ScoredId>, topK: int)
    returns (ids: seq<string>)
    requires IsRecall(r, db, s, offers, topK)
    ensures r == Hydrated(db, s, ids) && forall other :: IsRecall(Hydrated(other, s, ids), other, s, offers, topK)
  {
    var k := if topK <= 0 then DEFAULT_TOP_K else topK;
    var m, ranking :| IsPointwiseMax(m, offers) && IsRanking(ranking, m)
      && var found := InScopeVisible(db, s, Ids(FirstK(ranking, k)));
        r == if found == [] then Err(NotFound) else Ok(found);
    ids := Ids(FirstK(ranking, k));
  }

  /** Two stores that show a scope the same rows hydrate any ids to the same hits. */
  lemma HydrationDependsOnView(db: Db, db': Db, s: Scope, ids: seq<string>, budget: int)
    requires View(db, s) == View(db', s)
    ensures HitsOf(Hydrated(db, s, ids), budget) == HitsOf(Hydrated(db', s, ids), budget)
  {
    HydrationSeesOnlyTheView(db, s, ids);
    HydrationSeesOnlyTheView(db', s, ids);
    HitsIgnoreMarks(InScopeVisible(db, s, ids), budget);
    HitsIgnoreMarks(InScopeVisible(db', s, ids), budget);
  }

  /** And so they give every request under it the same answer. */
  lemma OriginDependsOnView(search: Search, hits: seq<Hit>, db: Db, db': Db, s: Scope, f: KeyFields)
    requires View(db, s) == View(db', s) && IsOrigin(search, hits, db, s, f)
    ensures IsOrigin(search, hits, db', s, f)
  {
    var offers := Offers([LexicalAnswer(search, db, s, f.query, f.topK)]);
    var r :| IsRecall(r, db, s, offers, f.topK) && hits == HitsOf(r, f.memoryTokenBudget);
    var ids := RecalledIds(r, db, s, offers, f.topK);
    HydrationDependsOnView(db, db', s, ids, f.memoryTokenBudget);
    var r' := Hydrated(db', s, ids);
    assert IsRecall(r', db', s, offers, f.topK);
  }

  // Every hit of an answer is of a row in view.

  lemma {:induction false} PickedFrom(keep: seq<bool>, cs: seq<Candidate>, h: Hit)
    requires |keep| == |cs| && h in Picked(keep, cs)
    ensures exists c :: c in cs && Reports(h, c)
  {
    var n := |cs| - 1;
    if h in Picked(keep[..n], cs[..n]) {
      PickedFrom(keep[..n], cs[..n], h);
      var c :| c in cs[..n] && Reports(h, c);
      assert c in cs;
    } else {
      assert cs[n] in cs && Reports(h, cs[n]);
    }
  }

  lemma HitsFromRecords(records: seq<Record>, budget: int, h: Hit)
    requires h in HitsFrom(records, budget)
    ensures exists r :: r in records && ReportsRecord(h, r)
  {
    var cs := CandidatesOf(records);
    BeforeIsOrder();
    SortSorts(Before, cs);
    PickedFrom(GreedyKeep(Sort(Before, cs), budget), Sort(Before, cs), h);
    var c :| c in Sort(Before, cs) && Reports(h, c);
    assert c in multiset(cs);
    var i :| 0 <= i < |cs| && cs[i] == c;
    assert records[i] in records && ReportsRecord(h, records[i]);
  }

  lemma RankedIsOffered(m: Scores, ranking: seq<ScoredId>, offers: set<ScoredId>, id: string, k: int)
    requires IsPointwiseMax(m, offers) && IsRanking(ranking, m) && id in Ids(FirstK(ranking, k))
    ensures exists c :: c in offers && c.memoryId == id
  {
    RankingGivesTop(ranking, m, k);
    assert ScoredId(id, m[id]) in offers;
  }

  /** Every record recalled is one that the scope can see, and whose id was offered. */
  lemma RecalledIsOffered(records: seq<Record>, db: Db, s: Scope, offers: set<ScoredId>, topK: int, record: Record)
    requires IsRecall(Ok(records), db, s, offers, topK) && record in records
    ensures Visible(record) && RecordBelongsToScope(record, s)
    ensures exists c :: c in offers && c.memoryId in db && db[c.memoryId] == record
  {
    var k := if topK <= 0 then DEFAULT_TOP_K else topK;
    var m, ranking :| IsPointwiseMax(m, offers) && IsRanking(ranking, m)
      && var found := InScopeVisible(db, s, Ids(FirstK(ranking, k)));
         Ok(records) == if found == [] then Err(NotFound) else Ok(found);
    InScopeVisibleExact(db, s, Ids(FirstK(ranking, k)), record);
    var id :| id in Ids(FirstK(ranking, k)) && id in db && db[id] == record;
    RankedIsOffered(m, ranking, offers, id, k);
  }

  lemma OffersAreFound(search: Search, db: Db, s: Scope, f: KeyFields, c: ScoredId)
    requires c in Offers([LexicalAnswer(search, db, s, f.query, f.topK)])
    ensures c in search(View(db, s), s, f.query, f.topK)
  {
  }

  lemma MarksAreNotReported(h: Hit, r: Record)
    requires ReportsRecord(h, r)
    ensures ReportsRecord(h, Unmarked(r))
  {
    CandidateOfUnmarked(r);
  }

  /** Every hit gives a record that the scope can see, and that the search found for the request. */
  lemma HitsAreInView(search: Search, hits: seq<Hit>, db: Db, s: Scope, f: KeyFields, h: Hit)
    requires forall id :: id in db ==> db[id].memoryId == id
    requires IsOrigin(search, hits, db, s, f) && h in hits
    ensures h.memoryId in View(db, s) && ReportsRecord(h, View(db, s)[h.memoryId])
    ensures exists c :: c in search(View(db, s), s, f.query, f.topK) && c.memoryId == h.memoryId
  {
    var offers := Offers([LexicalAnswer(search, db, s, f.query, f.topK)]);
    var r :| IsRecall(r, db, s, offers, f.topK) && hits == HitsOf(r, f.memoryTokenBudget);
    HitsFromRecords(r.value, f.memoryTokenBudget, h);
    var record :| record in r.value && ReportsRecord(h, record);
    RecalledIsOffered(r.value, db, s, offers, f.topK, record);
    var c :| c in offers && c.memoryId in db && db[c.memoryId] == record;
    OffersAreFound(search, db, s, f, c);
    MarksAreNotReported(h, record);
    assert View(db, s)[h.memoryId] == Unmarked(record);
  }

  /** The search is asked for the trimmed query and the request's top-k, by default 8, and every hit is one it found. */
  lemma RequestReachesSearch(search: Search, hits: seq<Hit>, db: Db, s: Scope, req: RecallRequest, h: Hit)
    requires forall id :: id in db ==> db[id].memoryId == id
    requires IsOrigin(search, hits, db, s, FieldsOf(req)) && h in hits
    ensures exists c :: c in search(View(db, s), s, TrimSpace(req.query), if req.topK == 0 then 8 else req.topK)
                        && c.memoryId == h.memoryId
  {
    HitsAreInView(search, hits, db, s, FieldsOf(req), h);
  }

  /** The hits are a selection, within the request's budget, of candidates in rank order. */
  lemma OriginSelects(search: Search, hits: seq<Hit>, db: Db, s: Scope, f: KeyFields)
    requires IsOrigin(search, hits, db, s, f)
    ensures exists cs :: InRankOrder(cs) && IsSelection(hits, cs, f.memoryTokenBudget)
  {
    var r :| IsRecall(r, db, s, Offers([LexicalAnswer(search, db, s, f.query, f.topK)]), f.topK)
      && hits == HitsOf(r, f.memoryTokenBudget);
    var records := if r.Ok? then r.value else [];
    var cs := Sort(Before, CandidatesOf(records));
    BeforeIsOrder();
    SortSorts(Before, CandidatesOf(records));
    GreedyIsSelection(cs, f.memoryTokenBudget);
    assert InRankOrder(cs);
  }

  // With no more offers than asked for, and no budget, every offered row in view is a hit.

  lemma {:induction false} SubsetSize<T>(a: set<T>, b: set<T>)
    requires a <= b
    ensures |a| <= |b|
  {
    assert b == a + (b - a);
  }

  lemma AllOffersRanked(m: Scores, ranking: seq<ScoredId>, offers: set<ScoredId>, k: nat, c: ScoredId)
    requires IsPointwiseMax(m, offers) && IsRanking(ranking, m) && |offers| <= k && c in offers
    ensures c.memoryId in Ids(FirstK(ranking, k))
  {
    SubsetSize(HybridRecall.Items(m), offers);
    assert |ranking| == |multiset(ranking)| == |HybridRecall.Items(m)|;
    var best := ScoredId(c.memoryId, m[c.memoryId]);
    assert best in multiset(HybridRecall.Items(m)) && best in multiset(ranking);
    var i :| 0 <= i < |ranking| && ranking[i] == best;
    assert Ids(ranking)[i] == c.memoryId;
  }

  lemma {:induction false} PicksAll(keep: seq<bool>, cs: seq<Candidate>, c: Candidate)
    requires |keep| == |cs| && c in cs && forall i :: 0 <= i < |keep| ==> keep[i]
    ensures HitOf(c) in Picked(keep, cs)
  {
    var n := |cs| - 1;
    if c in cs[..n] {
      PicksAll(keep[..n], cs[..n], c);
    }
  }

  lemma AllRecordsHit(records: seq<Record>, budget: int, r: Record)
    requires budget <= 0 && r in records
    ensures exists h :: h in HitsFrom(records, budget) && h.memoryId == r.memoryId
  {
    var cs := CandidatesOf(records);
    BeforeIsOrder();
    SortSorts(Before, cs);
    var i :| 0 <= i < |records| && records[i] == r;
    assert cs[i] in multiset(cs) && cs[i] in multiset(Sort(Before, cs));
    NoLimitKeepsAll(Sort(Before, cs), budget);
    PicksAll(GreedyKeep(Sort(Before, cs), budget), Sort(Before, cs), cs[i]);
    assert HitOf(cs[i]).memoryId == r.memoryId;
  }

  lemma OffersInViewAreHits(search: Search, hits: seq<Hit>, db: Db, s: Scope, f: KeyFields, id: string)
    requires forall x :: x in db ==> db[x].memoryId == x
    requires var offers := Offers([LexicalAnswer(search, db, s, f.query, f.topK)]);
             |offers| <= f.topK && (exists c :: c in offers && c.memoryId == id) && f.topK > 0
    requires IsOrigin(search, hits, db, s, f) && f.memoryTokenBudget <= 0 && id in View(db, s)
    ensures exists h :: h in hits && h.memoryId == id
  {
    var offers := Offers([LexicalAnswer(search, db, s, f.query, f.topK)]);
    var r :| IsRecall(r, db, s, offers, f.topK) && hits == HitsOf(r, f.memoryTokenBudget);
    var m, ranking :| IsPointwiseMax(m, offers) && IsRanking(ranking, m)
      && var found := InScopeVisible(db, s, Ids(FirstK(ranking, f.topK)));
         r == if found == [] then Err(NotFound) else Ok(found);
    var c :| c in offers && c.memoryId == id;
    AllOffersRanked(m, ranking, offers, f.topK, c);
    InScopeVisibleExact(db, s, Ids(FirstK(ranking, f.topK)), db[id]);
    AllRecordsHit(r.value, f.memoryTokenBudget, db[id]);
  }

  lemma MarksDoNotShow(db: Db, db': Db, s: Scope)
    requires db'.Keys == db.Keys && forall id :: id in db ==> SameContent(db[id], db'[id])
    ensures View(db', s) == View(db, s)
  {
    forall id | id in db
      ensures Unmarked(db'[id]) == Unmarked(db[id])
    {
      assert SameContent(db[id], db'[id]);
    }
  }

  /** A change to a record of another scope does not show. */
  lemma ElsewhereDoesNotShow(db: Db, id: string, r: Record, s: Scope)
    requires !RecordBelongsToScope(r, s) && (id in db ==> db[id].scope == r.scope)
    ensures View(db[id := r], s) == View(db, s)
  {
    assert id in db ==> !RecordBelongsToScope(db[id], s);
  }

  /** Between scopes that name both a project and a session, a scope is shown exactly the records of its own. */
  lemma FullScopesSeparate(s: Scope, r: Record)
    requires s.projectId != "" && s.sessionId != "" && r.scope.projectId != "" && r.scope.sessionId != ""
    ensures RecordBelongsToScope(r, s) <==> r.scope == s
  {
  }
}
