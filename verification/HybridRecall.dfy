/**
 Candidate merging, ranking, truncation and hydration.

 The loops keep a mutable score map, walk it in whatever order the map yields and sort a slice. The
 lemmas show that none of that shows in the answer: it depends only on the set of offers made.
 */
module HybridRecall {
  import opened Scopes
  import opened Records
  import opened Ordering
  import RecallKeys

  datatype ScoredId = ScoredId(memoryId: string, score: real)

  /** What one candidate source answers. */
  datatype SourceAnswer = Found(candidates: seq<ScoredId>) | NothingFound | Failed

  type Scores = map<string, real>

  function MergeOne(m: Scores, c: ScoredId): Scores
  {
    if c.memoryId == "" then m
    else if c.memoryId !in m || c.score > m[c.memoryId] then m[c.memoryId := c.score]
    else m
  }

  function MergeCandidates(m: Scores, cs: seq<ScoredId>): Scores
  {
    if cs == [] then m else MergeOne(MergeCandidates(m, cs[..|cs| - 1]), cs[|cs| - 1])
  }

  function CandidatesIn(a: SourceAnswer): seq<ScoredId>
  {
    if a.Found? then a.candidates else []
  }

  function Merged(answers: seq<SourceAnswer>): Scores
  {
    if answers == [] then map[]
    else MergeCandidates(Merged(answers[..|answers| - 1]), CandidatesIn(answers[|answers| - 1]))
  }

  /** The merge loop: `Unavailable` as soon as a source fails, otherwise the merged scores. */
  method MergeSources(answers: seq<SourceAnswer>) returns (r: Result<Scores>)
    ensures r == if Failed in answers then Err(Unavailable) else Ok(Merged(answers))
  {
    var candidates: Scores := map[];
    for i := 0 to |answers|
      invariant Failed !in answers[..i] && candidates == Merged(answers[..i])
    {
      assert answers[..i + 1][..i] == answers[..i];
      match answers[i] {
        case Failed =>
          return Err(Unavailable);
        case NothingFound =>
          continue;
        case Found(found) =>
          ghost var before := candidates;
          for j := 0 to |found|
            invariant candidates == MergeCandidates(before, found[..j])
          {
            assert found[..j + 1][..j] == found[..j];
            var c := found[j];
            if c.memoryId == "" {
              continue;
            }
            if c.memoryId !in candidates || c.score > candidates[c.memoryId] {
              candidates := candidates[c.memoryId := c.score];
            }
          }
          assert found[..|found|] == found;
      }
    }
    assert answers[..|answers|] == answers;
    return Ok(candidates);
  }

  ghost function OffersIn(cs: seq<ScoredId>): set<ScoredId>
  {
    set c | c in cs && c.memoryId != ""
  }

  /** Everything offered under a non-empty id, without order or repetition. */
  ghost function Offers(answers: seq<SourceAnswer>): set<ScoredId>
  {
    set a, c | a in answers && c in OffersIn(CandidatesIn(a)) :: c
  }

  /** `m` maps each offered id to the greatest score offered for it, and has no other id. */
  ghost predicate IsPointwiseMax(m: Scores, offers: set<ScoredId>)
  {
    && (forall c :: c in offers ==> c.memoryId in m && c.score <= m[c.memoryId])
    && (forall id :: id in m ==> ScoredId(id, m[id]) in offers)
  }

  lemma PointwiseMaxUnique(m: Scores, m': Scores, offers: set<ScoredId>)
    requires IsPointwiseMax(m, offers) && IsPointwiseMax(m', offers)
    ensures m == m'
  {
    forall id | id in m
      ensures id in m' && m[id] <= m'[id]
    {
      assert ScoredId(id, m[id]) in offers;
    }
    forall id | id in m'
      ensures id in m && m'[id] <= m[id]
    {
      assert ScoredId(id, m'[id]) in offers;
    }
  }

  lemma MergeOneMax(m: Scores, offers: set<ScoredId>, c: ScoredId)
    requires IsPointwiseMax(m, offers)
    ensures IsPointwiseMax(MergeOne(m, c), if c.memoryId == "" then offers else offers + {c})
  {
  }

  lemma OneMoreOffer(cs: seq<ScoredId>, c: ScoredId)
    ensures OffersIn(cs + [c]) == if c.memoryId == "" then OffersIn(cs) else OffersIn(cs) + {c}
  {
  }

  lemma {:induction false} MergeCandidatesMax(m: Scores, offers: set<ScoredId>, cs: seq<ScoredId>)
    requires IsPointwiseMax(m, offers)
    ensures IsPointwiseMax(MergeCandidates(m, cs), offers + OffersIn(cs))
  {
    if cs == [] {
      assert offers + OffersIn(cs) == offers;
    } else {
      var front, last := cs[..|cs| - 1], cs[|cs| - 1];
      MergeCandidatesMax(m, offers, front);
      MergeOneMax(MergeCandidates(m, front), offers + OffersIn(front), last);
      OneMoreOffer(front, last);
      FrontAndLast(cs);
      assert offers + OffersIn(front) + {last} == offers + (OffersIn(front) + {last});
    }
  }

  lemma OffersOfOneMore(answers: seq<SourceAnswer>, last: SourceAnswer)
    ensures Offers(answers + [last]) == Offers(answers) + OffersIn(CandidatesIn(last))
  {
  }

  lemma {:induction false} MergedIsPointwiseMax(answers: seq<SourceAnswer>)
    ensures IsPointwiseMax(Merged(answers), Offers(answers))
  {
    if answers != [] {
      var n := |answers| - 1;
      MergedIsPointwiseMax(answers[..n]);
      MergeCandidatesMax(Merged(answers[..n]), Offers(answers[..n]), CandidatesIn(answers[n]));
      OffersOfOneMore(answers[..n], answers[n]);
      assert answers == answers[..n] + [answers[n]];
    }
  }

  /** Higher score first, then the smaller id. */
  predicate RanksBefore(a: ScoredId, b: ScoredId)
  {
    if a.score != b.score then a.score > b.score else StrLess(a.memoryId, b.memoryId)
  }

  lemma RanksBeforeIsOrder()
    ensures StrictWeakOrder(RanksBefore)
  {
    forall a: ScoredId, b: ScoredId | RanksBefore(a, b)
      ensures !RanksBefore(b, a)
    {
      StrLessTotal(a.memoryId, b.memoryId);
    }
    forall a: ScoredId, b: ScoredId, c: ScoredId | RanksBefore(a, c)
      ensures RanksBefore(a, b) || RanksBefore(b, c)
    {
      StrLessTotal(a.memoryId, b.memoryId);
      if StrLess(b.memoryId, a.memoryId) && StrLess(a.memoryId, c.memoryId) {
        StrLessTransitive(b.memoryId, a.memoryId, c.memoryId);
      }
    }
  }

  function Items(m: Scores): set<ScoredId>
  {
    set id | id in m.Keys :: ScoredId(id, m[id])
  }

  /** Higher score first, then the smaller id. */
  predicate BestFirst(r: seq<ScoredId>)
  {
    forall i, j :: 0 <= i < j < |r| ==>
      r[i].score > r[j].score || (r[i].score == r[j].score && !StrLess(r[j].memoryId, r[i].memoryId))
  }

  /** All entries of the score map, best first. */
  ghost predicate IsRanking(r: seq<ScoredId>, m: Scores)
  {
    BestFirst(r) && multiset(r) == multiset(Items(m))
  }

  lemma RankingUnique(r: seq<ScoredId>, r': seq<ScoredId>, m: Scores)
    requires IsRanking(r, m) && IsRanking(r', m)
    ensures r == r'
  {
    forall a, b | a in r && b in r && a != b
      ensures RanksBefore(a, b) || RanksBefore(b, a)
    {
      StrLessTotal(a.memoryId, b.memoryId);
    }
    SortedArrangementUnique(RanksBefore, r, r');
  }

  function Ids(r: seq<ScoredId>): (ids: seq<string>)
    ensures |ids| == |r| && forall i :: 0 <= i < |r| ==> ids[i] == r[i].memoryId
  {
    seq(|r|, i requires 0 <= i < |r| => r[i].memoryId)
  }

  lemma EntriesDiffer(ranking: seq<ScoredId>, m: Scores, i: nat, j: nat)
    requires IsRanking(ranking, m) && i < j < |ranking|
    ensures ranking[i].memoryId in m && ranking[i].score == m[ranking[i].memoryId]
    ensures ranking[i].memoryId != ranking[j].memoryId
  {
    assert ranking[i] in multiset(ranking) && ranking[j] in multiset(ranking);
    assert ranking == ranking[..j] + [ranking[j]] + ranking[j + 1..] && ranking[i] in multiset(ranking[..j]);
    assert multiset(Items(m))[ranking[j]] == 1;
  }

  /** `a` goes before `b`: the higher score, or the smaller id. */
  predicate Outranks(m: Scores, a: string, b: string)
    requires a in m && b in m
  {
    m[a] > m[b] || (m[a] == m[b] && StrLess(a, b))
  }

  /** The best `k` ids of the score map in order, or all of them when `k` is zero or less. */
  ghost predicate IsTop(ids: seq<string>, m: Scores, k: int)
  {
    && (forall i :: 0 <= i < |ids| ==> ids[i] in m)
    && (forall i, j :: 0 <= i < j < |ids| ==> Outranks(m, ids[i], ids[j]))
    && (forall id :: id in m && id !in ids ==>
          |ids| == k && forall i :: 0 <= i < |ids| ==> Outranks(m, ids[i], id))
    && (k > 0 ==> |ids| <= k)
  }

  lemma RankedOutranks(ranking: seq<ScoredId>, m: Scores, i: nat, j: nat)
    requires IsRanking(ranking, m) && i < j < |ranking|
    ensures ranking[i].memoryId in m && ranking[j].memoryId in m
      && Outranks(m, ranking[i].memoryId, ranking[j].memoryId)
  {
    EntriesDiffer(ranking, m, i, j);
    assert ranking[j] in multiset(ranking);
    StrLessTotal(ranking[i].memoryId, ranking[j].memoryId);
  }

  lemma RankingGivesTop(ranking: seq<ScoredId>, m: Scores, k: int)
    requires IsRanking(ranking, m)
    ensures IsTop(Ids(FirstK(ranking, k)), m, k)
  {
    var cut := FirstK(ranking, k);
    forall i | 0 <= i < |cut|
      ensures cut[i].memoryId in m
    {
      assert ranking[i] in multiset(ranking);
    }
    forall i, j | 0 <= i < j < |cut|
      ensures Outranks(m, cut[i].memoryId, cut[j].memoryId)
    {
      RankedOutranks(ranking, m, i, j);
    }
    forall id | id in m && id !in Ids(cut)
      ensures |cut| == k && forall i :: 0 <= i < |cut| ==> Outranks(m, cut[i].memoryId, id)
    {
      assert ScoredId(id, m[id]) in multiset(Items(m)) && ScoredId(id, m[id]) in multiset(ranking);
      assert forall q :: 0 <= q < |cut| ==> Ids(cut)[q] != id;
      var p :| 0 <= p < |ranking| && ranking[p] == ScoredId(id, m[id]);
      forall i | 0 <= i < |cut|
        ensures Outranks(m, cut[i].memoryId, id)
      {
        RankedOutranks(ranking, m, i, p);
      }
    }
  }

  function FirstK<T>(s: seq<T>, k: int): seq<T>
  {
    if 0 < k < |s| then s[..k] else s
  }

  function ItemsAt(m: Scores, ids: set<string>): set<ScoredId>
    requires ids <= m.Keys
  {
    set id | id in ids :: ScoredId(id, m[id])
  }

  lemma OneMoreItem(m: Scores, ids: set<string>, id: string)
    requires ids <= m.Keys && id in m && id !in ids
    ensures multiset(ItemsAt(m, ids + {id})) == multiset(ItemsAt(m, ids)) + multiset{ScoredId(id, m[id])}
  {
    assert ItemsAt(m, ids + {id}) == ItemsAt(m, ids) + {ScoredId(id, m[id])};
  }

  lemma {:induction false} Enumerated(m: Scores, ids: set<string>) returns (r: seq<ScoredId>)
    requires ids <= m.Keys
    ensures multiset(r) == multiset(ItemsAt(m, ids))
    decreases |ids|
  {
    if ids == {} {
      r := [];
    } else {
      var id :| id in ids;
      var rest := Enumerated(m, ids - {id});
      OneMoreItem(m, ids - {id}, id);
      assert ids - {id} + {id} == ids;
      r := rest + [ScoredId(id, m[id])];
    }
  }

  /** Every score map has a ranking. */
  lemma RankingExists(m: Scores) returns (ranking: seq<ScoredId>)
    ensures IsRanking(ranking, m)
  {
    var listed := Enumerated(m, m.Keys);
    RanksBeforeIsOrder();
    SortSorts(RanksBefore, listed);
    assert ItemsAt(m, m.Keys) == Items(m);
    ranking := Sort(RanksBefore, listed);
  }

  lemma OneMoreId(r: seq<ScoredId>, i: nat)
    requires i < |r|
    ensures Ids(r)[..i + 1] == Ids(r)[..i] + [r[i].memoryId]
  {
  }

  /** Walks the map in an arbitrary order, sorts, truncates. */
  method RankedCandidateIds(scores: Scores, topK: int) returns (ids: seq<string>)
    ensures exists ranking :: IsRanking(ranking, scores) && ids == Ids(FirstK(ranking, topK))
    ensures IsTop(ids, scores, topK)
  {
    var ranked := [];
    var keys := scores.Keys;
    while keys != {}
      invariant keys <= scores.Keys
      invariant multiset(ranked) == multiset(ItemsAt(scores, scores.Keys - keys))
      decreases |keys|
    {
      var id :| id in keys;
      OneMoreItem(scores, scores.Keys - keys, id);
      assert scores.Keys - (keys - {id}) == scores.Keys - keys + {id};
      keys := keys - {id};
      ranked := ranked + [ScoredId(id, scores[id])];
    }
    assert ItemsAt(scores, scores.Keys - keys) == Items(scores);
    RanksBeforeIsOrder();
    SortSorts(RanksBefore, ranked);
    ranked := Sort(RanksBefore, ranked);
    ghost var ranking := ranked;
    ranked := FirstK(ranked, topK);
    ids := [];
    for i := 0 to |ranked|
      invariant ids == Ids(ranked)[..i]
    {
      OneMoreId(ranked, i);
      ids := ids + [ranked[i].memoryId];
    }
    assert Ids(ranked)[..|ranked|] == Ids(ranked);
    RankingGivesTop(ranking, scores, topK);
  }

  predicate RecordBelongsToScope(r: Record, s: Scope)
  {
    && r.scope.tenantId == s.tenantId && r.scope.userId == s.userId
    && (s.projectId != "" && r.scope.projectId != "" ==> r.scope.projectId == s.projectId)
    && (s.sessionId != "" && r.scope.sessionId != "" ==> r.scope.sessionId == s.sessionId)
  }

  /** A record that names no project, or a caller that names none, meets every project; sessions likewise. */
  lemma BelongsExactly(r: Record, s: Scope)
    ensures RecordBelongsToScope(r, s) <==>
      && s.tenantId == r.scope.tenantId && s.userId == r.scope.userId
      && (s.projectId == r.scope.projectId || s.projectId == "" || r.scope.projectId == "")
      && (s.sessionId == r.scope.sessionId || s.sessionId == "" || r.scope.sessionId == "")
  {
  }

  /** The records a caller of scope `s` may see, in the order of the ids that name them. */
  function InScopeVisible(db: Db, s: Scope, ids: seq<string>): seq<Record>
  {
    if ids == [] then []
    else
      var id := ids[|ids| - 1];
      var front := InScopeVisible(db, s, ids[..|ids| - 1]);
      if id in db && Visible(db[id]) && RecordBelongsToScope(db[id], s) then front + [db[id]] else front
  }

  function Hydrated(db: Db, s: Scope, ids: seq<string>): Result<seq<Record>>
  {
    var found := InScopeVisible(db, s, ids);
    if found == [] then Err(NotFound) else Ok(found)
  }

  /** The same with each id read from a store of its own time. */
  function InScopeVisibleAt(dbs: seq<Db>, s: Scope, ids: seq<string>): seq<Record>
    requires |dbs| == |ids|
  {
    if ids == [] then []
    else
      var n := |ids| - 1;
      var front := InScopeVisibleAt(dbs[..n], s, ids[..n]);
      var (db, id) := (dbs[n], ids[n]);
      if id in db && Visible(db[id]) && RecordBelongsToScope(db[id], s) then front + [db[id]] else front
  }

  predicate Shown(db: Db, id: string, s: Scope)
  {
    id in db && Visible(db[id]) && RecordBelongsToScope(db[id], s)
  }

  /** The records are those that the reads at the indices `at` show, in id order, and no other read shows one. */
  predicate ReadAt(records: seq<Record>, dbs: seq<Db>, s: Scope, ids: seq<string>, at: seq<nat>)
    requires |dbs| == |ids|
  {
    && |at| == |records|
    && (forall i, j :: 0 <= i < j < |at| ==> at[i] < at[j])
    && (forall j :: 0 <= j < |at| ==>
          at[j] < |ids| && Shown(dbs[at[j]], ids[at[j]], s) && records[j] == dbs[at[j]][ids[at[j]]])
    && (forall i: nat :: i < |ids| && Shown(dbs[i], ids[i], s) ==> i in at)
  }

  lemma ReadOneMore(records: seq<Record>, dbs: seq<Db>, s: Scope, ids: seq<string>, at: seq<nat>, db: Db, id: string)
    requires |dbs| == |ids| && ReadAt(records, dbs, s, ids, at)
    ensures if Shown(db, id, s) then ReadAt(records + [db[id]], dbs + [db], s, ids + [id], at + [|ids|])
            else ReadAt(records, dbs + [db], s, ids + [id], at)
  {
    var at' := at + [|ids|];
    assert forall i: nat :: i in at ==> i in at';
    assert |ids| == at'[|at|];
  }

  lemma {:induction false} HydratedInOrder(dbs: seq<Db>, s: Scope, ids: seq<string>) returns (at: seq<nat>)
    requires |dbs| == |ids|
    ensures ReadAt(InScopeVisibleAt(dbs, s, ids), dbs, s, ids, at)
  {
    at := [];
    if ids != [] {
      var n: nat := |ids| - 1;
      var before := HydratedInOrder(dbs[..n], s, ids[..n]);
      ReadOneMore(InScopeVisibleAt(dbs[..n], s, ids[..n]), dbs[..n], s, ids[..n], before, dbs[n], ids[n]);
      FrontAndLast(dbs);
      FrontAndLast(ids);
      at := if Shown(dbs[n], ids[n], s) then before + [n] else before;
    }
  }

  lemma {:induction false} OneStateForAll(dbs: seq<Db>, db: Db, s: Scope, ids: seq<string>)
    requires |dbs| == |ids| && forall i :: 0 <= i < |dbs| ==> dbs[i] == db
    ensures InScopeVisibleAt(dbs, s, ids) == InScopeVisible(db, s, ids)
  {
    if ids != [] {
      OneStateForAll(dbs[..|ids| - 1], db, s, ids[..|ids| - 1]);
    }
  }

  /**
   Reads the ids one by one, each from the store `dbs` as it is then; `down` holds the ids whose read fails for
   a reason other than absence.
   */
  method HydrateRecords(dbs: seq<Db>, down: set<string>, s: Scope, ids: seq<string>) returns (r: Result<seq<Record>>)
    requires |dbs| == |ids|
    ensures (exists id :: id in ids && id in down) <==> r == Err(Unavailable)
    ensures (forall id :: id in ids ==> id !in down) ==>
      r == if InScopeVisibleAt(dbs, s, ids) == [] then Err(NotFound) else Ok(InScopeVisibleAt(dbs, s, ids))
    ensures r.Ok? ==> exists at :: ReadAt(r.value, dbs, s, ids, at)
    ensures r == Err(NotFound) ==> forall i :: 0 <= i < |ids| ==> !Shown(dbs[i], ids[i], s)
  {
    ghost var at := HydratedInOrder(dbs, s, ids);
    var records := [];
    for i := 0 to |ids|
      invariant records == InScopeVisibleAt(dbs[..i], s, ids[..i])
      invariant forall j :: 0 <= j < i ==> ids[j] !in down
    {
      assert ids[..i + 1][..i] == ids[..i] && dbs[..i + 1][..i] == dbs[..i];
      if ids[i] in down {
        return Err(Unavailable);
      }
      var read := GetRecord(dbs[i], ids[i]);
      if read.Err? {
        continue;
      }
      if !RecordBelongsToScope(read.value, s) {
        continue;
      }
      records := records + [read.value];
    }
    assert ids[..|ids|] == ids && dbs[..|ids|] == dbs;
    if records == [] {
      return Err(NotFound);
    }
    return Ok(records);
  }

  /** The simple form of a recall: rank the pointwise maximum of the offers, cut, keep what the scope may see. */
  ghost predicate IsRecall(r: Result<seq<Record>>, db: Db, s: Scope, offers: set<ScoredId>, topK: int)
  {
    exists m, ranking ::
      && IsPointwiseMax(m, offers) && IsRanking(ranking, m)
      && var found := InScopeVisible(db, s, Ids(FirstK(ranking, if topK <= 0 then RecallKeys.DEFAULT_TOP_K else topK)));
         r == if found == [] then Err(NotFound) else Ok(found)
  }

  lemma RankedRecall(m: Scores, offers: set<ScoredId>, ids: seq<string>, db: Db, s: Scope, topK: int)
    requires IsPointwiseMax(m, offers)
    requires exists ranking :: IsRanking(ranking, m)
               && ids == Ids(FirstK(ranking, if topK <= 0 then RecallKeys.DEFAULT_TOP_K else topK))
    ensures IsRecall(Hydrated(db, s, ids), db, s, offers, topK)
  {
  }

  /** All reads within one state of the store. */
  method HydrateAtOnce(db: Db, down: set<string>, s: Scope, ids: seq<string>) returns (r: Result<seq<Record>>)
    ensures r == if exists id :: id in ids && id in down then Err(Unavailable) else Hydrated(db, s, ids)
  {
    var dbs := seq(|ids|, _ => db);
    OneStateForAll(dbs, db, s, ids);
    r := HydrateRecords(dbs, down, s, ids);
  }

  method Recall(answers: seq<SourceAnswer>, db: Db, down: set<string>, s: Scope, topK: int)
    returns (r: Result<seq<Record>>)
    ensures answers == [] || Failed in answers ==> r == Err(Unavailable)
    ensures answers != [] && Failed !in answers && down == {} ==> IsRecall(r, db, s, Offers(answers), topK)
    ensures r != Err(Unavailable) ==> answers != [] && Failed !in answers && IsRecall(r, db, s, Offers(answers), topK)
  {
    if answers == [] {
      return Err(Unavailable);
    }
    var k := if topK <= 0 then RecallKeys.DEFAULT_TOP_K else topK;
    var merged := MergeSources(answers);
    if merged.Err? {
      return Err(merged.error);
    }
    MergedIsPointwiseMax(answers);
    if |merged.value| == 0 {
      assert IsRanking([], merged.value) && InScopeVisible(db, s, Ids(FirstK([], k))) == [];
      return Err(NotFound);
    }
    var ids := RankedCandidateIds(merged.value, k);
    RankedRecall(merged.value, Offers(answers), ids, db, s, topK);
    r := HydrateAtOnce(db, down, s, ids);
  }

  lemma RecallExists(answers: seq<SourceAnswer>, db: Db, s: Scope, topK: int) returns (r: Result<seq<Record>>)
    ensures IsRecall(r, db, s, Offers(answers), topK)
  {
    var m := Merged(answers);
    MergedIsPointwiseMax(answers);
    var ranking := RankingExists(m);
    var found := InScopeVisible(db, s, Ids(FirstK(ranking, if topK <= 0 then RecallKeys.DEFAULT_TOP_K else topK)));
    r := if found == [] then Err(NotFound) else Ok(found);
    assert IsPointwiseMax(m, Offers(answers)) && IsRanking(ranking, m);
  }

  /** The answer is a function of the set of offers: source order, candidate order and repeats do not matter. */
  lemma RecallUnique(r: Result<seq<Record>>, r': Result<seq<Record>>, db: Db, s: Scope, offers: set<ScoredId>,
                     topK: int)
    requires IsRecall(r, db, s, offers, topK) && IsRecall(r', db, s, offers, topK)
    ensures r == r'
  {
    var k := if topK <= 0 then RecallKeys.DEFAULT_TOP_K else topK;
    var m, ranking :| IsPointwiseMax(m, offers) && IsRanking(ranking, m)
      && var found := InScopeVisible(db, s, Ids(FirstK(ranking, k)));
        r == if found == [] then Err(NotFound) else Ok(found);
    var m', ranking' :| IsPointwiseMax(m', offers) && IsRanking(ranking', m')
      && var found := InScopeVisible(db, s, Ids(FirstK(ranking', k)));
        r' == if found == [] then Err(NotFound) else Ok(found);
    PointwiseMaxUnique(m, m', offers);
    RankingUnique(ranking, ranking', m);
  }

  /** A record is returned exactly when one of the reads shows it, visible and in scope. */
  lemma {:induction false} InScopeVisibleAtExact(dbs: seq<Db>, s: Scope, ids: seq<string>, r: Record)
    requires |dbs| == |ids|
    ensures r in InScopeVisibleAt(dbs, s, ids) <==>
      exists i :: 0 <= i < |ids| && ids[i] in dbs[i] && dbs[i][ids[i]] == r && Visible(r) && RecordBelongsToScope(r, s)
  {
    if ids != [] {
      InScopeVisibleAtExact(dbs[..|ids| - 1], s, ids[..|ids| - 1], r);
    }
  }

  lemma {:induction false} InScopeVisibleExact(db: Db, s: Scope, ids: seq<string>, r: Record)
    ensures r in InScopeVisible(db, s, ids) <==>
      exists id :: id in ids && id in db && db[id] == r && Visible(r) && RecordBelongsToScope(r, s)
  {
    if ids != [] {
      var n := |ids| - 1;
      InScopeVisibleExact(db, s, ids[..n], r);
      assert ids == ids[..n] + [ids[n]];
    }
  }
}
