/**
 Closing a session's working memory: each listed record is promoted, expired or left in place.
 */
module SessionClose {
  import opened Scopes
  import opened Records
  import opened RecallKeys
  import opened Backends

  const PROMOTE_AND_EXPIRE := "promote_and_expire"

  datatype Report = Report(expired: nat, droppedBeforeUse: nat, promoted: nat)

  predicate WasDroppedBeforeUse(r: Record)
  {
    r.access.hitCount == 0 || r.access.lastAccessAt.None?
  }

  function EffectOf(item: Item, f: Fate): seq<CloseEffect>
  {
    if f.LeftInPlace? then [] else [CloseEffect(item.record.memoryId, f)]
  }

  /** The effects of the records handled so far. */
  function EffectsOf(items: seq<Item>, fates: seq<Fate>): seq<CloseEffect>
    requires |fates| <= |items|
  {
    if fates == [] then []
    else
      var n := |fates| - 1;
      EffectsOf(items, fates[..n]) + EffectOf(items[n], fates[n])
  }

  function One(b: bool): nat
  {
    if b then 1 else 0
  }

  function Tally(r: Report, item: Item, f: Fate): Report
  {
    Report(r.expired + One(f.Expired?), r.droppedBeforeUse + One(f.Expired? && WasDroppedBeforeUse(item.record)),
           r.promoted + One(f.Promoted?))
  }

  /** The counts of the records handled so far. */
  function ReportOf(items: seq<Item>, fates: seq<Fate>): Report
    requires |fates| <= |items|
  {
    if fates == [] then Report(0, 0, 0)
    else Tally(ReportOf(items, fates[..|fates| - 1]), items[|fates| - 1], fates[|fates| - 1])
  }

  lemma OneMoreFate(items: seq<Item>, fates: seq<Fate>, f: Fate, effects: seq<CloseEffect>)
    requires |fates| < |items|
    ensures effects + EffectsOf(items, fates) + EffectOf(items[|fates|], f) == effects + EffectsOf(items, fates + [f])
    ensures ReportOf(items, fates + [f]) == Tally(ReportOf(items, fates), items[|fates|], f)
  {
    assert (fates + [f])[..|fates|] == fates;
  }

  predicate Promoting(mode: string)
  {
    mode == PROMOTE_AND_EXPIRE
  }

  /** The store, and how many calls the backend has been sent. */
  datatype Point = Point(db: Db, calls: nat)

  class DurableSessionCloser {
    const store: Backend
    const eligible: Record -> bool

    constructor (store: Backend, eligible: Record -> bool)
      ensures this.store == store && this.eligible == eligible
    {
      this.store := store;
      this.eligible := eligible;
    }

    /** The promote path takes the record: it will not be expired. */
    predicate Promotable(mode: string, item: Item)
    {
      Promoting(mode) && eligible(item.record) && TrimSpace(item.latestEventId) != ""
    }

    // What a close does to a backend that nobody else touches, with all its calls answered.

    /** A promotion or an expiry, unless the record has moved on. */
    function Settle(db: Db, item: Item, f: Fate): (Fate, Db)
    {
      var m := Mutate(db, item.record.memoryId, item.record.version, ChangeFor(f));
      if m.Ok? then (f, m.value) else (LeftInPlace, db)
    }

    predicate Wins(item: Item, db: Db)
    {
      store.dedupe(db, item.record).won == Ok(true)
    }

    /** One record. A promotable one that does not win its dedupe stays as it is. */
    function QuietTurn(mode: string, item: Item, db: Db): (Fate, Db)
    {
      if !Promotable(mode, item) then Settle(db, item, Expired)
      else if Wins(item, db) then Settle(store.Deduped(db, item.record), item, Promoted)
      else (LeftInPlace, store.Deduped(db, item.record))
    }

    /** The calls of a turn that is answered: the dedupe of a winner is followed by its promotion. */
    function TurnCalls(mode: string, item: Item, db: Db): nat
    {
      if Promotable(mode, item) && Wins(item, db) then 2 else 1
    }

    /** A turn fails on a call that goes unanswered, or on an error of the dedupe that is not stale. */
    predicate TurnFails(mode: string, item: Item, p: Point)
    {
      || p.calls in store.outages
      || (Promotable(mode, item) && store.dedupe(p.db, item.record).won == Err(Unavailable))
      || (Promotable(mode, item) && store.dedupe(p.db, item.record).won == Err(IdempotencyConflict))
      || (Promotable(mode, item) && Wins(item, p.db) && p.calls + 1 in store.outages)
    }

    /** What the closer hears of its dedupe. */
    function Verdict(item: Item, p: Point): Result<bool>
    {
      if p.calls in store.outages then Err(Unavailable) else store.dedupe(p.db, item.record).won
    }

    lemma PromotionFailsExactly(mode: string, item: Item, p: Point)
      requires Promotable(mode, item)
      ensures var v := Verdict(item, p);
              TurnFails(mode, item, p) <==>
                if v.Err? then !Stale(v.error) else v.value && p.calls + 1 in store.outages
    {
    }

    /** The dedupe of this item deletes the record. */
    predicate Collapses(mode: string, item: Item, db: Db, id: string)
    {
      var d := store.dedupe(db, item.record);
      Promotable(mode, item) && d.won.Ok? && id in d.losers
    }

    /** The record as listed is still in the store, or has moved to a later version. */
    ghost predicate Listed(item: Item, db: Db)
    {
      var r := item.record;
      r.memoryId in db && Live(r) && (SameContent(r, db[r.memoryId]) || r.version < db[r.memoryId].version)
    }

    lemma AgesKeepsListed(item: Item, db: Db, db': Db)
      requires Listed(item, db) && Ages(db, db')
      ensures Listed(item, db')
      ensures db'[item.record.memoryId].version == item.record.version ==> Live(db'[item.record.memoryId])
    {
    }

    /** A promoted record is out of working memory and not deleted, an expired one is deleted. */
    ghost predicate FateShows(item: Item, f: Fate, db: Db)
    {
      var r := item.record;
      match f
      case Promoted => r.memoryId in db && PromotedFrom(r, db[r.memoryId])
      case Expired => r.memoryId in db && DeletedFrom(r, db[r.memoryId])
      case LeftInPlace => true
    }

    /** Only a promotable record is promoted, having won its dedupe in `db`, and only another is expired. */
    ghost predicate RightFate(mode: string, item: Item, f: Fate, db: Db)
    {
      match f
      case Promoted => Promotable(mode, item) && Wins(item, db)
      case Expired => !Promotable(mode, item)
      case LeftInPlace => true
    }

    /** One answered turn took the backend from `p` to `p'`. */
    ghost predicate Turned(mode: string, item: Item, f: Fate, p: Point, p': Point)
    {
      && Ages(p.db, p'.db) && RightFate(mode, item, f, p.db) && FateShows(item, f, p'.db)
      && !TurnFails(mode, item, p) && p'.calls == p.calls + TurnCalls(mode, item, p.db)
      && (store.quiet ==> Reclaims(p.db, p'.db) && QuietTurn(mode, item, p.db) == (f, p'.db))
    }

    /** A record that the promote path leaves alone is expired, if it is still at its version. */
    lemma ExpiryTurned(mode: string, item: Item, p: Point, f: Fate, db': Db)
      requires !Promotable(mode, item) && p.calls !in store.outages && Moved(p.db, db')
      requires FateShows(item, f, db') && !f.Promoted? && (store.quiet ==> Settle(p.db, item, Expired) == (f, db'))
      ensures Turned(mode, item, f, p, Point(db', p.calls + 1))
    {
    }

    /** What any activity of the closer does to the store. */
    ghost predicate Moved(db: Db, db': Db)
    {
      Ages(db, db') && (store.quiet ==> Reclaims(db, db'))
    }

    lemma DedupeThenMoved(db: Db, item: Item, mid: Db, db': Db)
      requires Ages(db, mid) && (store.quiet ==> mid == store.Deduped(db, item.record))
      requires Ages(mid, db') && Reclaims(mid, db')
      ensures Moved(db, db')
    {
      AgesTransitive(db, mid, db');
      if store.quiet {
        store.DedupedReclaims(db, item.record);
        ReclaimsTransitive(db, mid, db');
      }
    }

    /** A promotable record that does not win its dedupe is left in place. */
    lemma TurnWithoutWin(mode: string, item: Item, p: Point, db': Db)
      requires Promotable(mode, item) && !TurnFails(mode, item, p) && !Wins(item, p.db) && Ages(p.db, db')
      requires store.quiet ==> db' == store.Deduped(p.db, item.record)
      ensures Turned(mode, item, LeftInPlace, p, Point(db', p.calls + 1))
    {
      store.DedupedReclaims(p.db, item.record);
    }

    /** One that wins is promoted, if it is still at its version. */
    lemma TurnWithWin(mode: string, item: Item, p: Point, mid: Db, f: Fate, db': Db)
      requires Promotable(mode, item) && !TurnFails(mode, item, p) && Wins(item, p.db)
      requires Ages(p.db, mid) && Ages(mid, db') && Reclaims(mid, db')
      requires store.quiet ==> mid == store.Deduped(p.db, item.record)
      requires Settle(mid, item, Promoted) == (f, db') && FateShows(item, f, db')
      ensures Turned(mode, item, f, p, Point(db', p.calls + 2))
    {
      AgesTransitive(p.db, mid, db');
      if store.quiet {
        store.DedupedReclaims(p.db, item.record);
        ReclaimsTransitive(p.db, mid, db');
      }
    }

    lemma PromotionShows(item: Item, db: Db)
      requires Listed(item, db) && Mutate(db, item.record.memoryId, item.record.version, Promote).Ok?
      ensures var db' := Mutate(db, item.record.memoryId, item.record.version, Promote).value;
              item.record.memoryId in db' && PromotedFrom(item.record, db'[item.record.memoryId])
    {
    }

    lemma ExpiryShows(item: Item, db: Db)
      requires Listed(item, db) && Mutate(db, item.record.memoryId, item.record.version, MarkDeleted).Ok?
      ensures var db' := Mutate(db, item.record.memoryId, item.record.version, MarkDeleted).value;
              item.record.memoryId in db' && DeletedFrom(item.record, db'[item.record.memoryId])
    {
    }

    function PromoteFate(promoted: bool): Fate
    {
      if promoted then Promoted else LeftInPlace
    }

    /** The guarded promotion of a candidate that has won the dedupe of a turn begun at `start`. */
    method PromoteWinner(item: Item, mode: string, ghost start: Point) returns (r: Result<bool>)
      requires store.Valid() && Listed(item, start.db) && Promotable(mode, item) && Wins(item, start.db)
      requires start.calls !in store.outages && store.calls == start.calls + 1 && Ages(start.db, store.db)
      requires store.quiet ==> store.db == store.Deduped(start.db, item.record)
      modifies store
      ensures store.Valid() && Moved(start.db, store.db)
      ensures r.Err? ==> TurnFails(mode, item, start) && !Stale(r.error) && store.effects == old(store.effects)
      ensures r.Ok? ==> store.effects == old(store.effects) + EffectOf(item, PromoteFate(r.value))
      ensures r.Ok? ==> Turned(mode, item, PromoteFate(r.value), start, Point(store.db, store.calls))
    {
      ghost var between := store.db;
      AgesKeepsListed(item, start.db, between);
      var promoted := store.Mutation(item.record.memoryId, item.record.version, Promoted);
      DedupeThenMoved(start.db, item, between, store.db);
      if promoted.Err? {
        if Stale(promoted.error) {
          TurnWithWin(mode, item, start, between, LeftInPlace, store.db);
          return Ok(false);
        }
        return Err(promoted.error);
      }
      PromotionShows(item, between);
      TurnWithWin(mode, item, start, between, Promoted, store.db);
      return Ok(true);
    }

    /** The dedupe of a promotable record, and its promotion if it wins. */
    method ResolveAndPromote(item: Item, mode: string) returns (r: Result<bool>)
      requires store.Valid() && Listed(item, store.db) && Promotable(mode, item)
      modifies store
      ensures store.Valid() && Moved(old(store.db), store.db)
      ensures r.Err? ==> TurnFails(mode, item, Point(old(store.db), old(store.calls)))
      ensures r.Err? ==> !Stale(r.error) && store.effects == old(store.effects)
      ensures r.Ok? ==> store.effects == old(store.effects) + EffectOf(item, PromoteFate(r.value))
      ensures r.Ok? ==> Turned(mode, item, PromoteFate(r.value), Point(old(store.db), old(store.calls)),
                               Point(store.db, store.calls))
    {
      ghost var start := Point(store.db, store.calls);
      PromotionFailsExactly(mode, item, start);
      store.DedupedReclaims(start.db, item.record);
      var won := store.ResolveDedupe(item.record);
      if won.Err? {
        if Stale(won.error) {
          TurnWithoutWin(mode, item, start, store.db);
          return Ok(false);
        }
        return Err(won.error);
      }
      if !won.value {
        TurnWithoutWin(mode, item, start, store.db);
        return Ok(false);
      }
      r := PromoteWinner(item, mode, start);
    }

    /** Whether the promote path took the record, and whether it promoted it. */
    method PromoteIfEligible(item: Item, mode: string) returns (r: Result<(bool, bool)>)
      requires store.Valid() && Listed(item, store.db) && Promoting(mode)
      modifies store
      ensures store.Valid() && Moved(old(store.db), store.db)
      ensures r.Err? ==> !Stale(r.error) && store.effects == old(store.effects)
      ensures r.Ok? ==> (r.value.0 <==> eligible(item.record) && TrimSpace(item.latestEventId) != "")
      ensures r.Ok? && r.value.1 ==> r.value.0
      ensures r.Ok? && r.value.1 ==> Wins(item, old(store.db))
      ensures r.Ok? && r.value.1 ==>
        item.record.memoryId in store.db && PromotedFrom(item.record, store.db[item.record.memoryId])
      ensures r.Ok? ==> store.effects == old(store.effects) + EffectOf(item, PromoteFate(r.value.1))
      ensures !Promotable(mode, item) ==> r.Ok? && store.db == old(store.db) && store.calls == old(store.calls)
      ensures r.Err? ==> TurnFails(mode, item, Point(old(store.db), old(store.calls)))
      ensures r.Ok? && r.value.0 ==>
        Turned(mode, item, PromoteFate(r.value.1), Point(old(store.db), old(store.calls)), Point(store.db, store.calls))
    {
      if !eligible(item.record) || TrimSpace(item.latestEventId) == "" {
        return Ok((false, false));
      }
      var promoted := ResolveAndPromote(item, mode);
      if promoted.Err? {
        return Err(promoted.error);
      }
      return Ok((true, promoted.value));
    }

    method ExpireWorking(item: Item) returns (r: Result<(bool, bool)>)
      requires store.Valid() && Listed(item, store.db)
      modifies store
      ensures store.Valid() && Moved(old(store.db), store.db)
      ensures store.calls == old(store.calls) + 1 && (r.Err? <==> old(store.calls) in store.outages)
      ensures r.Err? ==> !Stale(r.error) && store.effects == old(store.effects)
      ensures r.Ok? ==> r.value.1 == (r.value.0 && WasDroppedBeforeUse(item.record))
      ensures r.Ok? ==> store.effects == old(store.effects) + EffectOf(item, if r.value.0 then Expired else LeftInPlace)
      ensures r.Ok? && r.value.0 ==>
        item.record.memoryId in store.db && DeletedFrom(item.record, store.db[item.record.memoryId])
      ensures store.quiet && r.Err? ==> store.db == old(store.db)
      ensures store.quiet && r.Ok? ==>
        Settle(old(store.db), item, Expired) == (if r.value.0 then Expired else LeftInPlace, store.db)
    {
      ghost var before := store.db;
      store.Interfere();
      ghost var between := store.db;
      AgesKeepsListed(item, before, between);
      var deleted := store.Mutation(item.record.memoryId, item.record.version, Expired);
      AgesTransitive(before, between, store.db);
      if deleted.Err? {
        if Stale(deleted.error) {
          return Ok((false, false));
        }
        return Err(deleted.error);
      }
      ExpiryShows(item, between);
      return Ok((true, WasDroppedBeforeUse(item.record)));
    }

    /** The part of a turn that expires, with its counters. */
    method ExpireAndCount(item: Item, mode: string, counts: Report) returns (r: Result<(Fate, Report)>)
      requires store.Valid() && Listed(item, store.db) && !Promotable(mode, item)
      modifies store
      ensures store.Valid() && Moved(old(store.db), store.db)
      ensures r.Err? ==> !Stale(r.error) && store.effects == old(store.effects)
      ensures r.Err? ==> TurnFails(mode, item, Point(old(store.db), old(store.calls)))
      ensures r.Ok? ==> store.effects == old(store.effects) + EffectOf(item, r.value.0)
      ensures r.Ok? ==> r.value.1 == Tally(counts, item, r.value.0)
      ensures r.Ok? ==>
        Turned(mode, item, r.value.0, Point(old(store.db), old(store.calls)), Point(store.db, store.calls))
      ensures store.quiet && r.Err? ==> store.db == old(store.db)
    {
      ghost var start := Point(store.db, store.calls);
      var attempt := ExpireWorking(item);
      if attempt.Err? {
        return Err(attempt.error);
      }
      var (deleted, dropped) := attempt.value;
      var counted := counts;
      if deleted {
        counted := counted.(expired := counted.expired + 1);
      }
      if dropped {
        counted := counted.(droppedBeforeUse := counted.droppedBeforeUse + 1);
      }
      var fate := if deleted then Expired else LeftInPlace;
      ExpiryTurned(mode, item, start, fate, store.db);
      return Ok((fate, counted));
    }

    /** One turn of the loop, with its counters. */
    method HandleRecord(item: Item, mode: string, counts: Report) returns (r: Result<(Fate, Report)>)
      requires store.Valid() && Listed(item, store.db)
      modifies store
      ensures store.Valid() && Moved(old(store.db), store.db)
      ensures r.Err? ==> !Stale(r.error) && store.effects == old(store.effects)
      ensures r.Err? ==> TurnFails(mode, item, Point(old(store.db), old(store.calls)))
      ensures r.Ok? ==> store.effects == old(store.effects) + EffectOf(item, r.value.0)
      ensures r.Ok? ==> r.value.1 == Tally(counts, item, r.value.0)
      ensures r.Ok? ==>
        Turned(mode, item, r.value.0, Point(old(store.db), old(store.calls)), Point(store.db, store.calls))
      ensures store.quiet && r.Err? && !Promotable(mode, item) ==> store.db == old(store.db)
    {
      if Promoting(mode) {
        var tried := PromoteIfEligible(item, mode);
        if tried.Err? {
          return Err(tried.error);
        }
        var (handled, didPromote) := tried.value;
        if handled {
          var counted := if didPromote then counts.(promoted := counts.promoted + 1) else counts;
          return Ok((PromoteFate(didPromote), counted));
        }
      }
      r := ExpireAndCount(item, mode, counts);
    }

    /** The backend before each turn, and after the last. */
    ghost predicate Trace(mode: string, items: seq<Item>, fates: seq<Fate>, states: seq<Point>)
    {
      && |fates| <= |items| && |states| == |fates| + 1
      && forall i: nat :: i < |fates| ==> TurnedAt(mode, items, fates, states, i)
    }

    ghost predicate TurnedAt(mode: string, items: seq<Item>, fates: seq<Fate>, states: seq<Point>, i: nat)
    {
      i < |items| && i < |fates| && i + 1 < |states| && Turned(mode, items[i], fates[i], states[i], states[i + 1])
    }

    lemma OneMoreTurn(mode: string, items: seq<Item>, fates: seq<Fate>, states: seq<Point>, f: Fate, p: Point)
      requires Trace(mode, items, fates, states) && |fates| < |items|
      requires Turned(mode, items[|fates|], f, states[|fates|], p)
      ensures Trace(mode, items, fates + [f], states + [p])
    {
      forall i: nat | i < |fates| + 1
        ensures TurnedAt(mode, items, fates + [f], states + [p], i)
      {
        if i < |fates| {
          assert TurnedAt(mode, items, fates, states, i);
        }
      }
    }

    lemma {:induction false} TraceAges(mode: string, items: seq<Item>, fates: seq<Fate>, states: seq<Point>, n: nat)
      requires Trace(mode, items, fates, states) && n <= |fates|
      ensures Ages(states[0].db, states[n].db) && (store.quiet ==> Reclaims(states[0].db, states[n].db))
    {
      if n > 0 {
        TraceAges(mode, items, fates, states, n - 1);
        assert TurnedAt(mode, items, fates, states, n - 1);
        AgesTransitive(states[0].db, states[n - 1].db, states[n].db);
        if store.quiet {
          ReclaimsTransitive(states[0].db, states[n - 1].db, states[n].db);
        }
      }
    }

    /** Without promotions each record takes one call. */
    lemma {:induction false} OneCallEach(mode: string, items: seq<Item>, fates: seq<Fate>, states: seq<Point>, n: nat)
      requires Trace(mode, items, fates, states) && n <= |fates| && !Promoting(mode)
      ensures states[n].calls == states[0].calls + n
    {
      if n > 0 {
        OneCallEach(mode, items, fates, states, n - 1);
        assert TurnedAt(mode, items, fates, states, n - 1);
      }
    }

    ghost predicate AllListed(items: seq<Item>, db: Db)
    {
      forall i :: 0 <= i < |items| ==> Listed(items[i], db)
    }

    lemma StillListed(mode: string, items: seq<Item>, fates: seq<Fate>, states: seq<Point>)
      requires Trace(mode, items, fates, states) && |fates| < |items| && AllListed(items, states[0].db)
      ensures Listed(items[|fates|], states[|fates|].db)
    {
      TraceAges(mode, items, fates, states, |fates|);
      AgesKeepsListed(items[|fates|], states[0].db, states[|fates|].db);
    }

    /** What holds between two turns of a loop that began at `start` and after the effects `settled`. */
    ghost predicate Handling(records: seq<Item>, mode: string, counts: Report, fates: seq<Fate>, states: seq<Point>,
                             start: Point, settled: seq<CloseEffect>)
      reads store
    {
      && store.Valid() && Trace(mode, records, fates, states) && states[0] == start
      && states[|fates|] == Point(store.db, store.calls)
      && store.effects == settled + EffectsOf(records, fates) && counts == ReportOf(records, fates)
    }

    method NextTurn(records: seq<Item>, k: nat, mode: string, counts: Report, ghost fates: seq<Fate>,
                    ghost states: seq<Point>, ghost start: Point, ghost settled: seq<CloseEffect>)
      returns (r: Result<Report>, ghost fate: Fate)
      requires Handling(records, mode, counts, fates, states, start, settled)
      requires AllListed(records, start.db) && k == |fates| < |records|
      modifies store
      ensures r.Ok? ==>
        Handling(records, mode, r.value, fates + [fate], states + [Point(store.db, store.calls)], start, settled)
      ensures r.Err? ==> store.Valid() && !Stale(r.error) && store.effects == old(store.effects)
      ensures r.Err? ==> TurnFails(mode, records[k], states[k])
      ensures Moved(old(store.db), store.db)
      ensures r.Err? && store.quiet && !Promoting(mode) ==> store.db == old(store.db)
    {
      StillListed(mode, records, fates, states);
      fate := LeftInPlace;
      var turn := HandleRecord(records[k], mode, counts);
      if turn.Err? {
        return Err(turn.error), fate;
      }
      fate := turn.value.0;
      OneMoreFate(records, fates, fate, settled);
      OneMoreTurn(mode, records, fates, states, fate, Point(store.db, store.calls));
      return Ok(turn.value.1), fate;
    }

    /** The loop. An error stops it: what was handled stays handled, the rest is left for the next close. */
    method HandleListed(records: seq<Item>, mode: string)
      returns (r: Result<Report>, ghost fates: seq<Fate>, ghost states: seq<Point>)
      requires store.Valid() && AllListed(records, store.db)
      modifies store
      ensures store.Valid() && Trace(mode, records, fates, states)
        && states[0] == Point(old(store.db), old(store.calls))
      ensures Ages(states[|fates|].db, store.db) && (store.quiet ==> Reclaims(states[|fates|].db, store.db))
      ensures store.effects == old(store.effects) + EffectsOf(records, fates)
      ensures r.Ok? ==> |fates| == |records| && r.value == ReportOf(records, fates)
      ensures r.Err? ==>
        |fates| < |records| && TurnFails(mode, records[|fates|], states[|fates|]) && !Stale(r.error)
      ensures r.Ok? || (store.quiet && !Promoting(mode)) ==> store.db == states[|fates|].db
    {
      fates, states := [], [Point(store.db, store.calls)];
      var counts := Report(0, 0, 0);
      ghost var start, settled := Point(store.db, store.calls), store.effects;
      for k := 0 to |records|
        invariant |fates| == k && Handling(records, mode, counts, fates, states, start, settled)
      {
        ghost var fate;
        r, fate := NextTurn(records, k, mode, counts, fates, states, start, settled);
        if r.Err? {
          return r, fates, states;
        }
        counts := r.value;
        fates, states := fates + [fate], states + [Point(store.db, store.calls)];
      }
      return Ok(counts), fates, states;
    }

    /**
     Lists and handles. The trace says which turn failed, if one did, and of a quiet backend it leaves nothing
     open: each turn's fate and new store are those of `QuietTurn`, and the last store is the final one unless a
     promotion was cut short.
     */
    method CloseSession(s: Scope, mode: string)
      returns (r: Result<Report>, ghost items: seq<Item>, ghost fates: seq<Fate>, ghost states: seq<Point>)
      requires store.Valid()
      modifies store
      ensures store.Valid() && Moved(old(store.db), store.db)
      ensures if old(store.calls) !in store.outages then Listing(items, old(store.db), s) else r.Err? && items == []
      ensures Trace(mode, items, fates, states) && states[0] == Point(old(store.db), old(store.calls) + 1)
      ensures r.Ok? || (store.quiet && !Promoting(mode)) ==> store.db == states[|fates|].db
      ensures store.effects == old(store.effects) + EffectsOf(items, fates)
      ensures r.Ok? ==> |fates| == |items| && r.value == ReportOf(items, fates)
      ensures r.Err? && old(store.calls) !in store.outages ==>
        |fates| < |items| && TurnFails(mode, items[|fates|], states[|fates|])
      ensures r.Err? ==> !Stale(r.error)
      ensures store.quiet && r.Ok? ==> AllEnded(mode, items, states, store.db)
      ensures store.quiet && r.Ok? && !Promoting(mode) ==> forall id :: id in store.db ==> !LiveIn(store.db[id], s)
    {
      var listed := store.ListSessionWorking(s);
      if listed.Err? {
        return Err(listed.error), [], [], [Point(store.db, store.calls)];
      }
      items := listed.value;
      r, fates, states := HandleListed(listed.value, mode);
      TraceAges(mode, items, fates, states, |fates|);
      AgesTransitive(old(store.db), states[|fates|].db, store.db);
      if store.quiet {
        ReclaimsTransitive(old(store.db), states[|fates|].db, store.db);
        if r.Ok? {
          EveryRecordEnds(mode, items, fates, states, s);
          if !Promoting(mode) {
            NothingStaysLive(mode, items, states, old(store.db), store.db, s);
          }
        }
      }
    }

    // What the turns of a quiet backend do to one record, said of the record alone.

    lemma DedupeDeletes(db: Db, candidate: Record, id: string)
      requires id in db
      ensures var d, db' := store.dedupe(db, candidate), store.Deduped(db, candidate);
              && id in db' && (d.won.Ok? && id in d.losers ==> DeletedFrom(db[id], db'[id]))
              && (!(d.won.Ok? && id in d.losers) ==> db'[id] == db[id])
    {
    }

    /** The listed record is there, at its listed version or a later one. */
    predicate Reached(item: Item, db: Db)
    {
      item.record.memoryId in db && item.record.version <= db[item.record.memoryId].version
    }

    /** A record changes in a turn only if the dedupe deletes it, or if it is the turn's own and meets a fate. */
    lemma TurnOnRecord(mode: string, item: Item, db: Db, id: string)
      requires id in db && Reached(item, db)
      ensures var (f, db') := QuietTurn(mode, item, db);
              && id in db'
              && if Collapses(mode, item, db, id) then DeletedFrom(db[id], db'[id])
                 else if item.record.memoryId == id && f.Promoted? then PromotedFrom(db[id], db'[id]) || db[id].deleted
                 else if item.record.memoryId == id && f.Expired? then DeletedFrom(db[id], db'[id])
                 else db'[id] == db[id]
    {
      DedupeDeletes(db, item.record, id);
    }

    /** The fate of a turn, from the record as the turn finds it. */
    lemma TurnFate(mode: string, item: Item, db: Db)
      requires Reached(item, db)
      ensures var f, id := QuietTurn(mode, item, db).0, item.record.memoryId;
              var current := db[id].version == item.record.version;
              && (f.Expired? <==> !Promotable(mode, item) && current)
              && (f.Promoted? <==>
                    Promotable(mode, item) && Wins(item, db) && current && !Collapses(mode, item, db, id))
    {
      DedupeDeletes(db, item.record, item.record.memoryId);
    }

    /** One of the first `n` dedupes deletes the record. */
    ghost predicate CollapsedBefore(mode: string, items: seq<Item>, states: seq<Point>, n: nat, id: string)
      requires n <= |items| && n <= |states|
    {
      exists k: nat :: k < n && Collapses(mode, items[k], states[k].db, id)
    }

    /** One of the first `n` turns is the record's own and ends with this fate. */
    predicate Met(items: seq<Item>, fates: seq<Fate>, n: nat, id: string, f: Fate)
      requires n <= |items| && n <= |fates|
    {
      exists i: nat :: i < n && items[i].record.memoryId == id && fates[i] == f
    }

    /** What a close has done to `r`, by whether a dedupe deleted it and which fate it met. */
    predicate Became(r: Record, r': Record, collapsed: bool, promoted: bool, expired: bool)
    {
      && (r'.deleted <==> r.deleted || collapsed || expired)
      && (r'.kind != r.kind <==> promoted)
      && SameContent(r.(kind := r'.kind, deleted := r'.deleted, version := r'.version), r')
      && r.version <= r'.version && (collapsed ==> r.version < r'.version)
      && (!collapsed && promoted ==> PromotedFrom(r, r'))
      && (!collapsed && !promoted && expired ==> DeletedFrom(r, r'))
      && (!collapsed && !promoted && !expired ==> r' == r)
    }

    /** The first `n` turns. */
    ghost predicate ChangedBy(mode: string, items: seq<Item>, fates: seq<Fate>, states: seq<Point>, n: nat, id: string)
      requires n <= |fates| <= |items| && |states| == |fates| + 1 && id in states[0].db
    {
      && id in states[n].db
      && Became(states[0].db[id], states[n].db[id], CollapsedBefore(mode, items, states, n, id),
                Met(items, fates, n, id, Promoted), Met(items, fates, n, id, Expired))
    }

    lemma OneMoreTurnCollapses(mode: string, items: seq<Item>, states: seq<Point>, n: nat, id: string)
      requires n < |items| && n < |states|
      ensures CollapsedBefore(mode, items, states, n + 1, id) <==>
        CollapsedBefore(mode, items, states, n, id) || Collapses(mode, items[n], states[n].db, id)
    {
      assert CollapsedBefore(mode, items, states, n, id) ==> CollapsedBefore(mode, items, states, n + 1, id);
    }

    lemma OneMoreTurnMet(items: seq<Item>, fates: seq<Fate>, n: nat, id: string, f: Fate)
      requires n < |items| && n < |fates|
      ensures Met(items, fates, n + 1, id, f) <==>
        Met(items, fates, n, id, f) || (items[n].record.memoryId == id && fates[n] == f)
    {
    }

    /** A record's own turn comes once, so before it the record has met no fate. */
    lemma OwnTurnOnce(items: seq<Item>, fates: seq<Fate>, db: Db, s: Scope, n: nat, f: Fate)
      requires Listing(items, db, s) && n < |items| && n <= |fates|
      ensures !Met(items, fates, n, items[n].record.memoryId, f)
    {
    }

    lemma OthersTurn(mode: string, items: seq<Item>, fates: seq<Fate>, states: seq<Point>, n: nat, id: string)
      requires n < |fates| <= |items| && |states| == |fates| + 1 && id in states[0].db
      requires ChangedBy(mode, items, fates, states, n, id)
      requires Reached(items[n], states[n].db) && items[n].record.memoryId != id
      requires QuietTurn(mode, items[n], states[n].db) == (fates[n], states[n + 1].db)
      ensures ChangedBy(mode, items, fates, states, n + 1, id)
    {
      TurnOnRecord(mode, items[n], states[n].db, id);
      OneMoreTurnCollapses(mode, items, states, n, id);
      OneMoreTurnMet(items, fates, n, id, Promoted);
      OneMoreTurnMet(items, fates, n, id, Expired);
    }

    lemma OwnTurn(mode: string, items: seq<Item>, fates: seq<Fate>, states: seq<Point>, n: nat, s: Scope)
      requires n < |fates| <= |items| && |states| == |fates| + 1 && Listing(items, states[0].db, s)
      requires ChangedBy(mode, items, fates, states, n, items[n].record.memoryId) && Reached(items[n], states[n].db)
      requires QuietTurn(mode, items[n], states[n].db) == (fates[n], states[n + 1].db)
      ensures ChangedBy(mode, items, fates, states, n + 1, items[n].record.memoryId)
      ensures DecidedAt(mode, items, fates, states, n)
    {
      var id := items[n].record.memoryId;
      OwnTurnOnce(items, fates, states[0].db, s, n, Promoted);
      OwnTurnOnce(items, fates, states[0].db, s, n, Expired);
      TurnFate(mode, items[n], states[n].db);
      TurnOnRecord(mode, items[n], states[n].db, id);
      OneMoreTurnCollapses(mode, items, states, n, id);
      OneMoreTurnMet(items, fates, n, id, Promoted);
      OneMoreTurnMet(items, fates, n, id, Expired);
    }

    /** The fate of item `i`: nothing but an earlier dedupe keeps it from the one its kind of turn gives. */
    ghost predicate DecidedAt(mode: string, items: seq<Item>, fates: seq<Fate>, states: seq<Point>, i: nat)
      requires i < |fates| <= |items| && |states| == |fates| + 1
    {
      var item, id := items[i], items[i].record.memoryId;
      && (fates[i].Expired? <==> !Promotable(mode, item) && !CollapsedBefore(mode, items, states, i, id))
      && (fates[i].Promoted? <==>
            Promotable(mode, item) && Wins(item, states[i].db) && !CollapsedBefore(mode, items, states, i + 1, id))
    }

    lemma TurnReaches(mode: string, items: seq<Item>, fates: seq<Fate>, states: seq<Point>, n: nat, s: Scope)
      requires Trace(mode, items, fates, states) && Listing(items, states[0].db, s) && store.quiet && n < |fates|
      ensures Reached(items[n], states[n].db)
      ensures QuietTurn(mode, items[n], states[n].db) == (fates[n], states[n + 1].db)
    {
      assert TurnedAt(mode, items, fates, states, n);
      TraceAges(mode, items, fates, states, n);
    }

    lemma {:induction false} RecordExact(mode: string, items: seq<Item>, fates: seq<Fate>, states: seq<Point>, n: nat,
                                         id: string, s: Scope)
      requires Trace(mode, items, fates, states) && Listing(items, states[0].db, s) && store.quiet
      requires n <= |fates| && id in states[0].db
      ensures ChangedBy(mode, items, fates, states, n, id)
    {
      if n > 0 {
        RecordExact(mode, items, fates, states, n - 1, id, s);
        TurnReaches(mode, items, fates, states, n - 1, s);
        if items[n - 1].record.memoryId == id {
          OwnTurn(mode, items, fates, states, n - 1, s);
        } else {
          OthersTurn(mode, items, fates, states, n - 1, id);
        }
      }
    }

    /**
     In a quiet backend the first `n` turns delete exactly the records that a dedupe lists as losers and those
     expired, take out of working memory exactly those promoted, and leave every other record as it was; and
     every listed record meets the fate its kind of turn gives unless a dedupe deleted it first.
     */
    lemma CloseExact(mode: string, items: seq<Item>, fates: seq<Fate>, states: seq<Point>, n: nat, s: Scope)
      requires Trace(mode, items, fates, states) && Listing(items, states[0].db, s) && store.quiet && n <= |fates|
      ensures forall id :: id in states[0].db ==> ChangedBy(mode, items, fates, states, n, id)
      ensures forall i: nat :: i < n ==> DecidedAt(mode, items, fates, states, i)
    {
      forall id | id in states[0].db
        ensures ChangedBy(mode, items, fates, states, n, id)
      {
        RecordExact(mode, items, fates, states, n, id, s);
      }
      forall i: nat | i < n
        ensures DecidedAt(mode, items, fates, states, i)
      {
        RecordExact(mode, items, fates, states, i, items[i].record.memoryId, s);
        TurnReaches(mode, items, fates, states, i, s);
        OwnTurn(mode, items, fates, states, i, s);
      }
    }

    /** Deleted, promoted, or promotable and untouched because it did not win its dedupe. */
    predicate Ended(mode: string, item: Item, at: Point, db: Db)
    {
      var r := item.record;
      && r.memoryId in db
      && (db[r.memoryId].deleted || PromotedFrom(r, db[r.memoryId])
          || (db[r.memoryId] == r && Promotable(mode, item) && !Wins(item, at.db)))
    }

    ghost predicate AllEnded(mode: string, items: seq<Item>, states: seq<Point>, db: Db)
    {
      |items| <= |states| && forall i: nat :: i < |items| ==> Ended(mode, items[i], states[i], db)
    }

    lemma EveryRecordEnds(mode: string, items: seq<Item>, fates: seq<Fate>, states: seq<Point>, s: Scope)
      requires Trace(mode, items, fates, states) && Listing(items, states[0].db, s)
      requires |fates| == |items| && store.quiet
      ensures AllEnded(mode, items, states, states[|fates|].db)
    {
      CloseExact(mode, items, fates, states, |fates|, s);
      forall i: nat | i < |items|
        ensures Ended(mode, items[i], states[i], states[|fates|].db)
      {
        var id := items[i].record.memoryId;
        assert DecidedAt(mode, items, fates, states, i) && ChangedBy(mode, items, fates, states, |fates|, id);
        if !states[|fates|].db[id].deleted {
          NotCollapsedBefore(mode, items, states, i, |fates|, id);
          MetOnlyItsFate(items, fates, states[0].db, s, i);
        }
      }
    }

    lemma NothingStaysLive(mode: string, items: seq<Item>, states: seq<Point>, db: Db, db': Db, s: Scope)
      requires Listing(items, db, s) && AllEnded(mode, items, states, db') && Reclaims(db, db') && !Promoting(mode)
      ensures forall id :: id in db' ==> !LiveIn(db'[id], s)
    {
      forall id | id in db && LiveIn(db[id], s)
        ensures !LiveIn(db'[id], s)
      {
        var i: nat :| i < |items| && items[i].record.memoryId == id;
        assert Ended(mode, items[i], states[i], db');
      }
    }

    lemma NotCollapsedBefore(mode: string, items: seq<Item>, states: seq<Point>, i: nat, n: nat, id: string)
      requires i < n <= |items| && n <= |states| && !CollapsedBefore(mode, items, states, n, id)
      ensures !CollapsedBefore(mode, items, states, i, id) && !CollapsedBefore(mode, items, states, i + 1, id)
    {
    }

    lemma MetOnlyItsFate(items: seq<Item>, fates: seq<Fate>, db: Db, s: Scope, i: nat)
      requires Listing(items, db, s) && i < |fates| == |items|
      ensures forall f :: Met(items, fates, |fates|, items[i].record.memoryId, f) <==> f == fates[i]
    {
    }

    /** The first `n` records are deleted and every other record is as it was. */
    ghost predicate FirstExpired(items: seq<Item>, n: nat, db: Db, db': Db)
    {
      && n <= |items| && db'.Keys == db.Keys
      && (forall i :: 0 <= i < n ==> ExpiredIn(items[i], db'))
      && (forall i :: n <= i < |items| ==>
        items[i].record.memoryId in db' && db'[items[i].record.memoryId] == items[i].record)
      && (forall id :: id in db ==> db'[id] == db[id] || exists i :: 0 <= i < n && items[i].record.memoryId == id)
    }

    predicate ExpiredIn(item: Item, db: Db)
    {
      item.record.memoryId in db && DeletedFrom(item.record, db[item.record.memoryId])
    }

    /** Handling the first `n` listed records without promotions expires each, and deletes exactly those. */
    lemma ExpiryRun(mode: string, items: seq<Item>, fates: seq<Fate>, states: seq<Point>, n: nat, s: Scope)
      requires Trace(mode, items, fates, states) && Listing(items, states[0].db, s)
      requires n <= |fates| && store.quiet && !Promoting(mode)
      ensures FirstExpired(items, n, states[0].db, states[n].db) && forall i :: 0 <= i < n ==> fates[i] == Expired
    {
      CloseExact(mode, items, fates, states, n, s);
      TraceAges(mode, items, fates, states, n);
      forall i: nat | i < |items|
        ensures i < n ==> fates[i] == Expired && ExpiredIn(items[i], states[n].db)
        ensures i >= n ==> items[i].record.memoryId in states[n].db
                           && states[n].db[items[i].record.memoryId] == items[i].record
      {
        assert i < n ==> DecidedAt(mode, items, fates, states, i);
        assert ChangedBy(mode, items, fates, states, n, items[i].record.memoryId);
      }
      forall id | id in states[0].db && states[n].db[id] != states[0].db[id]
        ensures exists i :: 0 <= i < n && items[i].record.memoryId == id
      {
        assert ChangedBy(mode, items, fates, states, n, id);
      }
    }
  }

  /** The effects are exactly the promotions and expiries among the fates: each record meets one fate. */
  lemma {:induction false} EffectsExact(items: seq<Item>, fates: seq<Fate>, e: CloseEffect)
    requires |fates| <= |items|
    ensures e in EffectsOf(items, fates) <==>
      exists i :: 0 <= i < |fates| && items[i].record.memoryId == e.id && fates[i] == e.fate && e.fate != LeftInPlace
  {
    if fates != [] {
      var n := |fates| - 1;
      EffectsExact(items, fates[..n], e);
      assert fates == fates[..n] + [fates[n]];
    }
  }

  /** The indices below `n` with this fate; those whose record was never used are the dropped ones. */
  function With(fates: seq<Fate>, f: Fate): set<nat>
  {
    set i: nat | i < |fates| && fates[i] == f
  }

  function Unused(items: seq<Item>, fates: seq<Fate>): set<nat>
    requires |fates| <= |items|
  {
    set i | i in With(fates, Expired)
      && (items[i].record.access.hitCount == 0 || items[i].record.access.lastAccessAt == None)
  }

  lemma OneMoreWith(fates: seq<Fate>, f: Fate)
    requires fates != []
    ensures var n: nat := |fates| - 1;
            With(fates, f) == With(fates[..n], f) + (if fates[n] == f then {n} else {}) && n !in With(fates[..n], f)
  {
  }

  lemma WithGrows(fates: seq<Fate>, f: Fate)
    requires fates != []
    ensures |With(fates, f)| == |With(fates[..|fates| - 1], f)| + One(fates[|fates| - 1] == f)
  {
    OneMoreWith(fates, f);
  }

  lemma OneMoreUnused(items: seq<Item>, fates: seq<Fate>)
    requires fates != [] && |fates| <= |items|
    ensures var n: nat := |fates| - 1;
            var a := items[n].record.access;
            && Unused(items, fates) == Unused(items, fates[..n])
               + (if fates[n].Expired? && (a.hitCount == 0 || a.lastAccessAt == None) then {n} else {})
            && n !in Unused(items, fates[..n])
  {
    OneMoreWith(fates, Expired);
  }

  lemma {:induction false} DroppedCount(items: seq<Item>, fates: seq<Fate>)
    requires |fates| <= |items|
    ensures ReportOf(items, fates).droppedBeforeUse == |Unused(items, fates)|
  {
    if fates != [] {
      DroppedCount(items, fates[..|fates| - 1]);
      OneMoreUnused(items, fates);
    }
  }

  /** The reported counts are the sizes of the classes, which together are all handled records. */
  lemma {:induction false} ReportCountsFates(items: seq<Item>, fates: seq<Fate>)
    requires |fates| <= |items|
    ensures var r := ReportOf(items, fates);
            && r.promoted == |With(fates, Promoted)| && r.expired == |With(fates, Expired)|
            && r.droppedBeforeUse == |Unused(items, fates)|
            && r.promoted + r.expired + |With(fates, LeftInPlace)| == |fates|
  {
    DroppedCount(items, fates);
    if fates != [] {
      var n: nat := |fates| - 1;
      ReportCountsFates(items, fates[..n]);
      WithGrows(fates, Promoted);
      WithGrows(fates, Expired);
      WithGrows(fates, LeftInPlace);
    }
  }
}
