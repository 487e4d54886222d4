/**
 The durable backend as a mutable object: records, the guarded mutations, and what a session close did.

 Other activity may touch it before each call the session closer makes; a `quiet` backend has none.
 */
module Backends {
  import opened Scopes
  import opened Records

  datatype Item = Item(record: Record, latestEventId: string)

  datatype Fate = Promoted | Expired | LeftInPlace

  datatype CloseEffect = CloseEffect(id: string, fate: Fate)

  /** The backend's verdict on a promotion candidate, and the records that it collapsed into others. */
  datatype Dedupe = Dedupe(won: Result<bool>, losers: set<string>)

  /** A call of another caller. */
  datatype OtherCall = OtherMutation(id: string, expected: int, change: Change)
    | OtherWrite(record: Record, newId: string)

  predicate Live(r: Record)
  {
    r.kind == Working && !r.deleted
  }

  predicate LiveIn(r: Record, s: Scope)
  {
    Live(r) && r.scope == s
  }

  /** `isSessionCloseStale`. */
  predicate Stale(e: BackendError)
  {
    e == VersionConflict || e == NotFound
  }

  /** What others may do: versions only grow, and neither deletion nor promotion is ever taken back. */
  ghost predicate Ages(db: Db, db': Db)
  {
    Evolves(db, db') && forall id :: id in db && !Live(db[id]) ==> !Live(db'[id])
  }

  lemma AgesTransitive(a: Db, b: Db, c: Db)
    requires Ages(a, b) && Ages(b, c)
    ensures Ages(a, c)
  {
    EvolvesTransitive(a, b, c);
    forall id | id in a && !Live(a[id])
      ensures !Live(c[id])
    {
      assert id in b;
    }
  }

  lemma MutationAges(db: Db, id: string, expected: int, c: Change)
    requires Mutate(db, id, expected, c).Ok?
    ensures Ages(db, Mutate(db, id, expected, c).value)
  {
  }

  /** One version on, out of working memory, not deleted, and otherwise the same. */
  predicate PromotedFrom(r: Record, r': Record)
  {
    !r'.kind.Working? && !r'.deleted && SameContent(r.(kind := r'.kind, version := r.version + 1), r')
  }

  /** One version on, deleted, and otherwise the same. */
  predicate DeletedFrom(r: Record, r': Record)
  {
    r'.deleted && SameContent(r.(deleted := true, version := r.version + 1), r')
  }

  function ChangeFor(f: Fate): Change
  {
    if f.Promoted? then Promote else MarkDeleted
  }

  /** Collapsing deletes the losers. */
  function Collapsed(db: Db, losers: set<string>): Db
  {
    map id | id in db :: if id in losers then Changed(db[id], MarkDeleted) else db[id]
  }

  /** Each record named has been accessed at `at`, once for each time it is named; nothing else has changed. */
  ghost predicate MarkedBy(db: Db, db': Db, ids: seq<string>, at: int)
  {
    && db'.Keys == db.Keys
    && forall id :: id in db ==> MarkedRecord(db[id], db'[id], multiset(ids)[id], at)
  }

  lemma NothingMarked(db: Db, at: int)
    ensures MarkedBy(db, db, [], at)
  {
  }

  function Accessed(r: Record, at: int): Record
  {
    r.(access := Access(r.access.hitCount + 1, Some(at)))
  }

  lemma OneMoreMark(db: Db, db': Db, ids: seq<string>, id: string, at: int)
    requires MarkedBy(db, db', ids, at)
    ensures MarkedBy(db, if id in db' then db'[id := Accessed(db'[id], at)] else db', ids + [id], at)
  {
    forall x | x in db
      ensures MarkedRecord(db[x], if x == id then Accessed(db'[x], at) else db'[x], multiset(ids + [id])[x], at)
    {
      assert MarkedRecord(db[x], db'[x], multiset(ids)[x], at);
    }
  }

  predicate MarkedRecord(r: Record, r': Record, times: nat, at: int)
  {
    && SameContent(r, r') && r'.access.hitCount == r.access.hitCount + times
    && r'.access.lastAccessAt == if times > 0 then Some(at) else r.access.lastAccessAt
  }

  /** Nothing becomes live, and no record appears. */
  ghost predicate Reclaims(db: Db, db': Db)
  {
    db'.Keys == db.Keys && forall id :: id in db ==> db'[id] == db[id] || !Live(db'[id])
  }

  lemma ReclaimsTransitive(a: Db, b: Db, c: Db)
    requires Reclaims(a, b) && Reclaims(b, c)
    ensures Reclaims(a, c)
  {
    forall id | id in a
      ensures c[id] == a[id] || !Live(c[id])
    {
      assert id in b;
    }
  }

  /** No record has been promoted or expired twice by a session close, and each that was is no longer live. */
  ghost predicate Once(db: Db, effects: seq<CloseEffect>)
  {
    && (forall i :: 0 <= i < |effects| ==> effects[i].id in db && !Live(db[effects[i].id]))
    && (forall i, j :: 0 <= i < j < |effects| ==> effects[i].id != effects[j].id)
  }

  ghost predicate Listing(items: seq<Item>, db: Db, s: Scope)
  {
    && (forall i :: 0 <= i < |items| ==>
          items[i].record.memoryId in db && items[i].record == db[items[i].record.memoryId]
            && LiveIn(items[i].record, s))
    && (forall i, j :: 0 <= i < j < |items| ==> items[i].record.memoryId != items[j].record.memoryId)
    && (forall id :: id in db && LiveIn(db[id], s) ==> exists i :: 0 <= i < |items| && items[i].record.memoryId == id)
  }

  class Backend {
    var db: Db
    const quiet: bool
    /** Whether a candidate wins without a collision, and who loses; the rules are the backend's. */
    const dedupe: (Db, Record) -> Dedupe
    /** Which of the session closer's calls, counted by `calls`, go unanswered. */
    const outages: set<nat>
    var calls: nat
    ghost var effects: seq<CloseEffect>

    ghost predicate Valid()
      reads this
    {
      Once(db, effects) && forall id :: id in db ==> db[id].memoryId == id
    }

    constructor (db: Db, quiet: bool, dedupe: (Db, Record) -> Dedupe, outages: set<nat>)
      requires forall id :: id in db ==> db[id].memoryId == id
      ensures this.db == db && this.quiet == quiet && this.dedupe == dedupe && this.outages == outages
      ensures calls == 0 && effects == [] && Valid()
    {
      this.db := db;
      this.quiet := quiet;
      this.dedupe := dedupe;
      this.outages := outages;
      calls := 0;
      effects := [];
    }

    /** Any number of other callers' mutations and writes. */
    method Interfere()
      requires Valid()
      modifies this`db
      ensures Valid() && Ages(old(db), db) && (quiet ==> db == old(db))
    {
      if quiet {
        return;
      }
      var calls: seq<OtherCall> := *;
      for k := 0 to |calls|
        invariant Valid() && Ages(old(db), db)
      {
        ghost var before := db;
        match calls[k] {
          case OtherMutation(id, expected, change) =>
            var applied := Apply(id, expected, change);
          case OtherWrite(record, newId) =>
            var written := WriteRecord(record, newId, None);
        }
        AgesTransitive(old(db), before, db);
      }
    }

    method ListSessionWorking(s: Scope) returns (r: Result<seq<Item>>)
      requires Valid()
      modifies this`calls
      ensures calls == old(calls) + 1
      ensures if old(calls) !in outages then r.Ok? && Listing(r.value, db, s) else r == Err(Unavailable)
    {
      calls := calls + 1;
      if calls - 1 in outages {
        return Err(Unavailable);
      }
      var items: seq<Item> := [];
      var keys := db.Keys;
      while keys != {}
        invariant keys <= db.Keys && calls == old(calls) + 1
        invariant forall i :: 0 <= i < |items| ==>
          items[i].record.memoryId in db.Keys - keys && items[i].record == db[items[i].record.memoryId]
            && LiveIn(items[i].record, s)
        invariant forall i, j :: 0 <= i < j < |items| ==> items[i].record.memoryId != items[j].record.memoryId
        invariant forall id :: id in db.Keys - keys && LiveIn(db[id], s) ==>
          exists i :: 0 <= i < |items| && items[i].record.memoryId == id
        decreases |keys|
      {
        var id :| id in keys;
        keys := keys - {id};
        if LiveIn(db[id], s) {
          var event: string := *;
          ghost var before := items;
          items := items + [Item(db[id], event)];
          assert items[|before|].record.memoryId == id;
          assert forall i :: 0 <= i < |before| ==> items[i] == before[i];
        }
      }
      return Ok(items);
    }

    /** The guarded mutation behind DeleteRecord and Promote. */
    method Mutation(id: string, expected: int, fate: Fate) returns (r: Result<()>)
      requires Valid() && (fate.Promoted? || fate.Expired?)
      requires id in db && db[id].version == expected ==> Live(db[id])
      modifies this
      ensures Valid() && Ages(old(db), db) && Reclaims(old(db), db) && calls == old(calls) + 1
      ensures var m := Mutate(old(db), id, expected, ChangeFor(fate));
              if old(calls) !in outages && m.Ok? then
                r == Ok(()) && db == m.value && effects == old(effects) + [CloseEffect(id, fate)]
              else
                r == Err(if old(calls) !in outages then m.error else Unavailable) && db == old(db)
                  && effects == old(effects)
    {
      calls := calls + 1;
      if calls - 1 in outages {
        return Err(Unavailable);
      }
      var result := Mutate(db, id, expected, ChangeFor(fate));
      if result.Err? {
        return Err(result.error);
      }
      MutationAges(db, id, expected, ChangeFor(fate));
      db := result.value;
      effects := effects + [CloseEffect(id, fate)];
      return Ok(());
    }

    /** The store after a dedupe that nothing else interferes with. */
    function Deduped(db: Db, candidate: Record): Db
    {
      var d := dedupe(db, candidate);
      if d.won.Ok? then Collapsed(db, d.losers) else db
    }

    lemma DedupedReclaims(db: Db, candidate: Record)
      ensures Ages(db, Deduped(db, candidate)) && Reclaims(db, Deduped(db, candidate))
    {
    }

    method ResolveDedupe(candidate: Record) returns (won: Result<bool>)
      requires Valid()
      modifies this`db, this`calls
      ensures Valid() && Ages(old(db), db) && calls == old(calls) + 1
      ensures won == if old(calls) !in outages then dedupe(old(db), candidate).won else Err(Unavailable)
      ensures quiet ==> db == if old(calls) !in outages then Deduped(old(db), candidate) else old(db)
    {
      calls := calls + 1;
      if calls - 1 in outages {
        return Err(Unavailable);
      }
      var d := dedupe(db, candidate);
      DedupedReclaims(db, candidate);
      if d.won.Ok? {
        db := Collapsed(db, d.losers);
      }
      ghost var between := db;
      Interfere();
      AgesTransitive(old(db), between, db);
      return d.won;
    }

    /** A guarded mutation made for a caller. */
    method Apply(id: string, expected: int, c: Change) returns (r: Result<Record>)
      requires Valid()
      modifies this`db
      ensures Valid() && Ages(old(db), db)
      ensures var m := Mutate(old(db), id, expected, c);
              if m.Ok? then db == m.value && id in db && r == Ok(db[id]) else db == old(db) && r == Err(m.error)
    {
      var result := Mutate(db, id, expected, c);
      if result.Err? {
        return Err(result.error);
      }
      MutationAges(db, id, expected, c);
      db := result.value;
      return Ok(db[id]);
    }

    /**
     Creates a record at version 1 under the id the backend picks; `replay` is its answer to a key it has seen
     before, and an id already in use goes unanswered.
     */
    method WriteRecord(record: Record, newId: string, replay: Option<Result<Record>>) returns (r: Result<Record>)
      requires Valid()
      modifies this`db
      ensures Valid() && Ages(old(db), db)
      ensures replay.Some? ==> r == replay.value && db == old(db)
      ensures replay.None? && newId in old(db) ==> r == Err(Unavailable) && db == old(db)
      ensures replay.None? && newId !in old(db) ==>
        r == Ok(record.(memoryId := newId, version := 1)) && db == old(db)[newId := r.value]
    {
      if replay.Some? {
        return replay.value;
      }
      if newId in db {
        return Err(Unavailable);
      }
      var created := record.(memoryId := newId, version := 1);
      db := db[newId := created];
      return Ok(created);
    }

    /** Marks records accessed, once for each time they are named; versions do not move. */
    method MarkAccess(ids: seq<string>, at: int)
      requires Valid()
      modifies this`db
      ensures Valid() && MarkedBy(old(db), db, ids, at)
    {
      for i := 0 to |ids|
        invariant Valid() && MarkedBy(old(db), db, ids[..i], at)
      {
        OneMoreMark(old(db), db, ids[..i], ids[i], at);
        assert ids[..i + 1] == ids[..i] + [ids[i]];
        if ids[i] in db {
          db := db[ids[i] := Accessed(db[ids[i]], at)];
        }
      }
      assert ids[..|ids|] == ids;
    }
  }
}
