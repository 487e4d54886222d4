/**
 Scoring, ordering and budget packing of recalled records.
 */
module RecallSelection {
  import opened Records
  import opened Ordering

  datatype Candidate = Candidate(record: Record, tokenEstimate: nat, score: real)

  /** A recall hit as returned to the caller. */
  datatype Hit = Hit(
    memoryId: string, kind: Kind, score: real, version: int, content: string, tags: seq<string>, source: string,
    category: string, pinned: bool, disabled: bool, tokenCostEstimate: nat)

  /** One token per four characters, rounded up: the fewest that hold the content. */
  function EstimateTokenCost(content: string): (tokens: nat)
    ensures 4 * (tokens - 1) < |content| <= 4 * tokens
  {
    if content == "" then 0 else (|content| + 3) / 4
  }

  function RecallCandidateScore(r: Record, tokenEstimate: nat): real
  {
    (if r.importance == 0.0 then 0.5 else r.importance)
    + (if r.pinned then 2.0 else 0.0)
    + (if r.source == "user_saved" then 1.0 else 0.0)
    + (if tokenEstimate > 0 then 1.0 / tokenEstimate as real else 0.0)
  }

  /** What each part of a record is worth. */
  lemma ScoreParts(r: Record, i: real, j: real, n: nat, source: string)
    ensures RecallCandidateScore(r.(pinned := true), n) == RecallCandidateScore(r.(pinned := false), n) + 2.0
    ensures source != "user_saved" ==>
      RecallCandidateScore(r.(source := "user_saved"), n) == RecallCandidateScore(r.(source := source), n) + 1.0
    ensures i != 0.0 && j != 0.0 ==>
      RecallCandidateScore(r.(importance := i), n) - RecallCandidateScore(r.(importance := j), n) == i - j
    ensures RecallCandidateScore(r.(importance := 0.0), n) == RecallCandidateScore(r.(importance := 0.5), n)
    ensures n > 0 ==> (RecallCandidateScore(r, n) - RecallCandidateScore(r, 0)) * n as real == 1.0
    ensures i != 0.0 && source != "user_saved" ==>
      RecallCandidateScore(r.(importance := i, pinned := false, source := source), 0) == i
  {
  }

  function CandidateOf(r: Record): Candidate
  {
    var estimate := EstimateTokenCost(r.content);
    Candidate(r, estimate, RecallCandidateScore(r, estimate))
  }

  function HitOf(c: Candidate): Hit
  {
    var r := c.record;
    Hit(r.memoryId, r.kind, c.score, r.version, r.content, r.tags, r.source, r.category, r.pinned, r.disabled,
      c.tokenEstimate)
  }

  /** The hit gives the candidate's record, estimate and score. */
  predicate Reports(h: Hit, c: Candidate)
  {
    && h.memoryId == c.record.memoryId && h.kind == c.record.kind && h.version == c.record.version
    && h.content == c.record.content && h.tags == c.record.tags && h.source == c.record.source
    && h.category == c.record.category && h.pinned == c.record.pinned && h.disabled == c.record.disabled
    && h.score == c.score && h.tokenCostEstimate == c.tokenEstimate
  }

  /** The hit gives the record, as it is scored. */
  predicate ReportsRecord(h: Hit, r: Record)
  {
    var estimate := EstimateTokenCost(r.content);
    Reports(h, Candidate(r, estimate, RecallCandidateScore(r, estimate)))
  }

  predicate Before(a: Candidate, b: Candidate)
  {
    if a.score != b.score then a.score > b.score
    else if a.tokenEstimate != b.tokenEstimate then a.tokenEstimate < b.tokenEstimate
    else StrLess(a.record.memoryId, b.record.memoryId)
  }

  lemma BeforeIsOrder()
    ensures StrictWeakOrder(Before)
  {
    forall a: Candidate, b: Candidate | Before(a, b)
      ensures !Before(b, a)
    {
      StrLessTotal(a.record.memoryId, b.record.memoryId);
    }
    forall a: Candidate, b: Candidate, c: Candidate | Before(a, c)
      ensures Before(a, b) || Before(b, c)
    {
      var x, y, z := a.record.memoryId, b.record.memoryId, c.record.memoryId;
      StrLessTotal(x, y);
      if StrLess(y, x) && StrLess(x, z) {
        StrLessTransitive(y, x, z);
      }
    }
  }

  function CandidatesOf(records: seq<Record>): (cs: seq<Candidate>)
    ensures |cs| == |records| && forall i :: 0 <= i < |cs| ==> cs[i] == CandidateOf(records[i])
  {
    if records == [] then [] else CandidatesOf(records[..|records| - 1]) + [CandidateOf(records[|records| - 1])]
  }

  /** Higher score first, then the cheaper, then the smaller id. */
  predicate InRankOrder(cs: seq<Candidate>)
  {
    forall i, j :: 0 <= i < j < |cs| ==>
      && cs[i].score >= cs[j].score
      && (cs[i].score == cs[j].score ==> cs[i].tokenEstimate <= cs[j].tokenEstimate)
      && (cs[i].score == cs[j].score && cs[i].tokenEstimate == cs[j].tokenEstimate ==>
            !StrLess(cs[j].record.memoryId, cs[i].record.memoryId))
  }

  method BuildRecallCandidates(records: seq<Record>) returns (candidates: seq<Candidate>)
    ensures candidates == Sort(Before, CandidatesOf(records))
    ensures InRankOrder(candidates) && multiset(candidates) == multiset(CandidatesOf(records))
  {
    candidates := [];
    for i := 0 to |records|
      invariant candidates == CandidatesOf(records[..i])
    {
      assert records[..i + 1][..i] == records[..i];
      candidates := candidates + [CandidateOf(records[i])];
    }
    assert records[..|records|] == records;
    BeforeIsOrder();
    SortSorts(Before, candidates);
    candidates := Sort(Before, candidates);
  }

  predicate DistinctIds(records: seq<Record>)
  {
    forall i, j :: 0 <= i < j < |records| ==> records[i].memoryId != records[j].memoryId
  }

  lemma CountLast<T>(s: seq<T>, y: T)
    requires s != []
    ensures var n := |s| - 1; multiset(s)[y] == multiset(s[..n])[y] + if s[n] == y then 1 else 0
  {
    assert s == s[..|s| - 1] + [s[|s| - 1]];
  }

  lemma {:induction false} CandidatesMultiset(s: seq<Record>, c: Candidate)
    ensures multiset(CandidatesOf(s))[c] == if c == CandidateOf(c.record) then multiset(s)[c.record] else 0
  {
    if s != [] {
      CandidatesMultiset(s[..|s| - 1], c);
      CountLast(s, c.record);
    }
  }

  lemma IdsSeparate(a: Candidate, b: Candidate)
    requires a.record.memoryId != b.record.memoryId
    ensures Before(a, b) || Before(b, a)
  {
    StrLessTotal(a.record.memoryId, b.record.memoryId);
  }

  lemma DistinctIdsSeparate(records: seq<Record>, s: seq<Candidate>)
    requires DistinctIds(records) && multiset(s) == multiset(CandidatesOf(records))
    ensures Separates(Before, s)
  {
    var cs := CandidatesOf(records);
    forall x, y | x in s && y in s && x != y
      ensures Before(x, y) || Before(y, x)
    {
      assert x in multiset(s) && y in multiset(s);
      var i :| 0 <= i < |cs| && cs[i] == x;
      var j :| 0 <= j < |cs| && cs[j] == y;
      assert x.record == records[i] && y.record == records[j];
      assert i != j;
      IdsSeparate(x, y);
    }
  }

  lemma CandidatesSameMultiset(s: seq<Record>, t: seq<Record>)
    requires multiset(s) == multiset(t)
    ensures multiset(CandidatesOf(s)) == multiset(CandidatesOf(t))
  {
    forall c
      ensures multiset(CandidatesOf(s))[c] == multiset(CandidatesOf(t))[c]
    {
      CandidatesMultiset(s, c);
      CandidatesMultiset(t, c);
    }
  }

  /** The ranking shown to the caller does not depend on the order the backend returned the records in. */
  lemma RankingIgnoresInputOrder(s: seq<Record>, t: seq<Record>)
    requires multiset(s) == multiset(t) && DistinctIds(s)
    ensures Sort(Before, CandidatesOf(s)) == Sort(Before, CandidatesOf(t))
  {
    CandidatesSameMultiset(s, t);
    BeforeIsOrder();
    SortSorts(Before, CandidatesOf(s));
    SortSorts(Before, CandidatesOf(t));
    DistinctIdsSeparate(s, Sort(Before, CandidatesOf(s)));
    SortedArrangementUnique(Before, Sort(Before, CandidatesOf(s)), Sort(Before, CandidatesOf(t)));
  }

  /** Total estimate of the candidates that `keep` selects. */
  function Cost(keep: seq<bool>, cs: seq<Candidate>): nat
    requires |keep| == |cs|
  {
    if cs == [] then 0
    else
      var n := |cs| - 1;
      Cost(keep[..n], cs[..n]) + if keep[n] then cs[n].tokenEstimate else 0
  }

  function Picked(keep: seq<bool>, cs: seq<Candidate>): seq<Hit>
    requires |keep| == |cs|
  {
    if cs == [] then []
    else
      var n := |cs| - 1;
      Picked(keep[..n], cs[..n]) + if keep[n] then [HitOf(cs[n])] else []
  }

  /** Which candidates the budget loop keeps; a budget of zero or less is no limit. */
  function GreedyKeep(cs: seq<Candidate>, budget: int): (keep: seq<bool>)
    ensures |keep| == |cs|
  {
    if cs == [] then []
    else
      var n := |cs| - 1;
      var keep := GreedyKeep(cs[..n], budget);
      keep + [budget <= 0 || Cost(keep, cs[..n]) + cs[n].tokenEstimate <= budget]
  }

  // What the loop must return, said of the hits alone.

  function EstimateSum(hits: seq<Hit>): nat
  {
    if hits == [] then 0 else EstimateSum(hits[..|hits| - 1]) + hits[|hits| - 1].tokenCostEstimate
  }

  /** The hits report the candidates at these ranks, in rank order. */
  predicate ReportedAt(hits: seq<Hit>, cs: seq<Candidate>, ranks: seq<nat>)
  {
    && |ranks| == |hits|
    && (forall j :: 0 <= j < |ranks| ==> ranks[j] < |cs| && Reports(hits[j], cs[ranks[j]]))
    && (forall i, j :: 0 <= i < j < |ranks| ==> ranks[i] < ranks[j])
  }

  /** The first `j` of these ranks are those below `i`. */
  predicate Splits(ranks: seq<nat>, j: nat, i: nat)
  {
    j <= |ranks| && (j > 0 ==> ranks[j - 1] < i) && (j < |ranks| ==> i <= ranks[j])
  }

  /** With the first `j` hits ranked before candidate `i`, it is reported if it fits with them. */
  ghost predicate DecidedAt(hits: seq<Hit>, cs: seq<Candidate>, ranks: seq<nat>, budget: int, i: nat, j: nat)
    requires i < |cs| && j <= |hits|
  {
    i in ranks <==> budget <= 0 || EstimateSum(hits[..j]) + cs[i].tokenEstimate <= budget
  }

  /**
   The hits report some candidates in rank order, and a candidate is reported exactly when there is no budget or
   it fits with what is reported before it.
   */
  ghost predicate SelectedAt(hits: seq<Hit>, cs: seq<Candidate>, ranks: seq<nat>, budget: int)
  {
    && ReportedAt(hits, cs, ranks)
    && forall i: nat, j: nat :: i < |cs| && Splits(ranks, j, i) ==> DecidedAt(hits, cs, ranks, budget, i, j)
  }

  ghost predicate IsSelection(hits: seq<Hit>, cs: seq<Candidate>, budget: int)
  {
    && (exists ranks :: SelectedAt(hits, cs, ranks, budget))
    && (budget > 0 ==> EstimateSum(hits) <= budget)
  }

  lemma KeepOneMore(hits: seq<Hit>, cs: seq<Candidate>, ranks: seq<nat>, budget: int, c: Candidate)
    requires SelectedAt(hits, cs, ranks, budget) && (budget <= 0 || EstimateSum(hits) + c.tokenEstimate <= budget)
    ensures SelectedAt(hits + [HitOf(c)], cs + [c], ranks + [|cs|], budget)
  {
    var hits', ranks' := hits + [HitOf(c)], ranks + [|cs|];
    forall i: nat, j: nat | i < |cs| + 1 && Splits(ranks', j, i)
      ensures DecidedAt(hits', cs + [c], ranks', budget, i, j)
    {
      assert Splits(ranks, j, i) && hits'[..j] == hits[..j];
      if i == |cs| {
        assert hits[..j] == hits;
      } else {
        assert DecidedAt(hits, cs, ranks, budget, i, j);
      }
    }
  }

  lemma DropOneMore(hits: seq<Hit>, cs: seq<Candidate>, ranks: seq<nat>, budget: int, c: Candidate)
    requires SelectedAt(hits, cs, ranks, budget) && budget > 0 && EstimateSum(hits) + c.tokenEstimate > budget
    ensures SelectedAt(hits, cs + [c], ranks, budget)
  {
    forall i: nat, j: nat | i < |cs| + 1 && Splits(ranks, j, i)
      ensures DecidedAt(hits, cs + [c], ranks, budget, i, j)
    {
      if i == |cs| {
        assert hits[..j] == hits;
      } else {
        assert DecidedAt(hits, cs, ranks, budget, i, j);
      }
    }
  }

  /** The last candidate is kept if it fits, and then its hit is the last. */
  lemma PickedUnfolds(cs: seq<Candidate>, budget: int)
    requires cs != []
    ensures var n := |cs| - 1;
            var hits := Picked(GreedyKeep(cs[..n], budget), cs[..n]);
            var fits := budget <= 0 || Cost(GreedyKeep(cs[..n], budget), cs[..n]) + cs[n].tokenEstimate <= budget;
            && GreedyKeep(cs, budget)[n] == fits
            && Picked(GreedyKeep(cs, budget), cs) == (if fits then hits + [HitOf(cs[n])] else hits)
            && Cost(GreedyKeep(cs, budget), cs)
               == Cost(GreedyKeep(cs[..n], budget), cs[..n]) + if fits then cs[n].tokenEstimate else 0
  {
    assert GreedyKeep(cs, budget)[..|cs| - 1] == GreedyKeep(cs[..|cs| - 1], budget);
  }

  lemma EstimateSumAppend(hits: seq<Hit>, h: Hit)
    ensures EstimateSum(hits + [h]) == EstimateSum(hits) + h.tokenCostEstimate
  {
    assert (hits + [h])[..|hits|] == hits;
  }

  lemma {:induction false} GreedyCosts(cs: seq<Candidate>, budget: int)
    ensures EstimateSum(Picked(GreedyKeep(cs, budget), cs)) == Cost(GreedyKeep(cs, budget), cs)
  {
    if cs != [] {
      var n := |cs| - 1;
      GreedyCosts(cs[..n], budget);
      PickedUnfolds(cs, budget);
      EstimateSumAppend(Picked(GreedyKeep(cs[..n], budget), cs[..n]), HitOf(cs[n]));
    }
  }

  lemma {:induction false} GreedySelects(cs: seq<Candidate>, budget: int) returns (ranks: seq<nat>)
    ensures SelectedAt(Picked(GreedyKeep(cs, budget), cs), cs, ranks, budget)
  {
    ranks := [];
    if cs != [] {
      var n: nat := |cs| - 1;
      var front, c, hits := cs[..n], cs[n], Picked(GreedyKeep(cs[..n], budget), cs[..n]);
      var before := GreedySelects(front, budget);
      PickedUnfolds(cs, budget);
      GreedyCosts(front, budget);
      FrontAndLast(cs);
      if GreedyKeep(cs, budget)[n] {
        KeepOneMore(hits, front, before, budget, c);
        ranks := before + [n];
      } else {
        DropOneMore(hits, front, before, budget, c);
        ranks := before;
      }
    }
  }

  predicate Feasible(keep: seq<bool>, cs: seq<Candidate>, budget: int)
  {
    |keep| == |cs| && Cost(keep, cs) <= budget
  }

  lemma {:induction false} CostPrefix(keep: seq<bool>, cs: seq<Candidate>, i: nat)
    requires |keep| == |cs| && i <= |cs|
    ensures Cost(keep[..i], cs[..i]) <= Cost(keep, cs)
  {
    if i < |cs| {
      var n := |cs| - 1;
      CostPrefix(keep[..n], cs[..n], i);
      assert keep[..n][..i] == keep[..i] && cs[..n][..i] == cs[..i];
    } else {
      assert keep[..i] == keep && cs[..i] == cs;
    }
  }

  lemma {:induction false} GreedyPrefix(cs: seq<Candidate>, budget: int, i: nat)
    requires i <= |cs|
    ensures GreedyKeep(cs, budget)[..i] == GreedyKeep(cs[..i], budget)
  {
    if i < |cs| {
      var n := |cs| - 1;
      GreedyPrefix(cs[..n], budget, i);
      assert cs[..n][..i] == cs[..i];
      assert GreedyKeep(cs, budget)[..i] == GreedyKeep(cs[..n], budget)[..i];
    } else {
      assert cs[..i] == cs;
    }
  }

  /** The decision on candidate `i` is the budget test against what was kept before it. */
  lemma GreedyDecision(cs: seq<Candidate>, budget: int, i: nat)
    requires i < |cs|
    ensures var keep := GreedyKeep(cs, budget);
            keep[i] <==> budget <= 0 || Cost(keep[..i], cs[..i]) + cs[i].tokenEstimate <= budget
  {
    GreedyPrefix(cs, budget, i);
    GreedyPrefix(cs, budget, i + 1);
    var upTo := cs[..i + 1];
    assert upTo[..i] == cs[..i];
    assert GreedyKeep(upTo, budget)[i]
      == (budget <= 0 || Cost(GreedyKeep(cs[..i], budget), cs[..i]) + upTo[i].tokenEstimate <= budget);
  }

  lemma {:induction false} GreedyFits(cs: seq<Candidate>, budget: int)
    requires budget > 0
    ensures Feasible(GreedyKeep(cs, budget), cs, budget)
  {
    if cs != [] {
      var n := |cs| - 1;
      GreedyFits(cs[..n], budget);
      assert GreedyKeep(cs, budget)[..n] == GreedyKeep(cs[..n], budget);
    }
  }

  lemma GreedyIsSelection(cs: seq<Candidate>, budget: int)
    ensures var hits := Picked(GreedyKeep(cs, budget), cs);
            IsSelection(hits, cs, budget) && EstimateSum(hits) == Cost(GreedyKeep(cs, budget), cs)
  {
    var ranks := GreedySelects(cs, budget);
    GreedyCosts(cs, budget);
    if budget > 0 {
      GreedyFits(cs, budget);
    }
  }

  method SelectWithinBudget(cs: seq<Candidate>, budget: int) returns (hits: seq<Hit>, totalEstimate: nat)
    ensures hits == Picked(GreedyKeep(cs, budget), cs)
    ensures totalEstimate == EstimateSum(hits) && IsSelection(hits, cs, budget)
  {
    hits, totalEstimate := [], 0;
    for i := 0 to |cs|
      invariant hits == Picked(GreedyKeep(cs[..i], budget), cs[..i])
      invariant totalEstimate == Cost(GreedyKeep(cs[..i], budget), cs[..i])
    {
      assert cs[..i + 1][..i] == cs[..i];
      ghost var keep := GreedyKeep(cs[..i + 1], budget);
      assert keep[..i] == GreedyKeep(cs[..i], budget);
      var estimate := cs[i].tokenEstimate;
      if budget > 0 && totalEstimate + estimate > budget {
        continue;
      }
      totalEstimate := totalEstimate + estimate;
      hits := hits + [HitOf(cs[i])];
    }
    assert cs[..|cs|] == cs;
    GreedyIsSelection(cs, budget);
  }

  /** No dropped candidate would still fit when the loop is done. */
  lemma GreedyMaximal(cs: seq<Candidate>, budget: int, i: nat)
    requires budget > 0 && i < |cs| && !GreedyKeep(cs, budget)[i]
    ensures Cost(GreedyKeep(cs, budget), cs) + cs[i].tokenEstimate > budget
  {
    var keep := GreedyKeep(cs, budget);
    GreedyDecision(cs, budget, i);
    CostPrefix(keep, cs, i);
  }

  /** With no limit everything is kept. */
  lemma {:induction false} NoLimitKeepsAll(cs: seq<Candidate>, budget: int)
    requires budget <= 0
    ensures forall i :: 0 <= i < |cs| ==> GreedyKeep(cs, budget)[i]
  {
    if cs != [] {
      NoLimitKeepsAll(cs[..|cs| - 1], budget);
    }
  }

  lemma TakesWhatFits(cs: seq<Candidate>, budget: int, other: seq<bool>, i: nat)
    requires budget > 0 && Feasible(other, cs, budget)
    requires i < |cs| && other[..i] == GreedyKeep(cs, budget)[..i] && other[i]
    ensures GreedyKeep(cs, budget)[i]
  {
    GreedyDecision(cs, budget, i);
    CostPrefix(other, cs, i + 1);
    assert other[..i + 1][..i] == other[..i] && cs[..i + 1][..i] == cs[..i];
  }

  /**
   The kept set is the lexicographically first feasible one: at the first rank where another feasible
   subset differs, the loop has the candidate and the other subset does not.
   */
  lemma GreedyLexicographicallyFirst(cs: seq<Candidate>, budget: int, other: seq<bool>)
    requires budget > 0 && Feasible(other, cs, budget) && other != GreedyKeep(cs, budget)
    ensures var keep := GreedyKeep(cs, budget);
            exists i :: 0 <= i < |cs| && other[..i] == keep[..i] && keep[i] && !other[i]
  {
    var i := FirstDifference(other, GreedyKeep(cs, budget));
    if other[i] {
      TakesWhatFits(cs, budget, other, i);
    }
  }
}
