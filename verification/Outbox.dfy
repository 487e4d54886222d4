/**
 The outbox publisher and the projection of records into the vector index.

 Delivery is at least once and in any order. `Publish` reads the truth source and then changes the
 index; in the protocol these are two steps, so mutations and other publishes come in between.
 */
module Outbox {
  import opened Scopes
  import opened Records

  datatype EventType =
    | Created | Updated | PinnedEvent | UnpinnedEvent | EnabledEvent | PromotedEvent | DedupeCollapsed
    | DisabledEvent | DeletedEvent | OtherEvent

  datatype Message = Message(eventType: EventType, memoryId: string, version: int)

  /** What the projector stores for a record. */
  datatype Chunk = Chunk(
    memoryId: string, title: string, content: string, scope: Scope, kind: Kind, source: string, version: int)

  type Index = map<string, Chunk>

  datatype Decision = Acknowledge | Upsert(chunk: Chunk) | Remove | Retry

  function ChunkOf(r: Record): Chunk
  {
    Chunk(r.memoryId, r.category, r.content, r.scope, r.kind, r.source, r.version)
  }

  /** The chunk gives the record: its category as the title, its content, scope, kind, source and version. */
  predicate Describes(c: Chunk, r: Record)
  {
    && c.memoryId == r.memoryId && c.title == r.category && c.content == r.content && c.scope == r.scope
    && c.kind == r.kind && c.source == r.source && c.version == r.version
  }

  predicate Upserts(t: EventType)
  {
    t.Created? || t.Updated? || t.PinnedEvent? || t.UnpinnedEvent? || t.EnabledEvent?
  }

  predicate Removes(t: EventType)
  {
    t.DisabledEvent? || t.DeletedEvent?
  }

  /** The first half of `Publish`: what an event means given the read of the truth source. */
  function Decide(msg: Message, read: Result<Record>): Decision
  {
    if Upserts(msg.eventType) then
      match read
      case Err(NotFound) => Acknowledge
      case Err(_) => Retry
      case Ok(current) => if current.version != msg.version then Acknowledge else Upsert(ChunkOf(current))
    else if Removes(msg.eventType) then
      match read
      case Err(NotFound) => Remove
      case Err(_) => Retry
      case Ok(current) => if current.version != msg.version then Acknowledge else Remove
    else Acknowledge
  }

  function Applied(index: Index, id: string, d: Decision): Index
  {
    match d
    case Upsert(chunk) => index[id := chunk]
    case Remove => index - {id}
    case _ => index
  }

  class VectorIndex {
    var chunks: Index

    constructor ()
      ensures chunks == map[]
    {
      chunks := map[];
    }

    method ProjectUpsert(r: Record, storeOk: bool) returns (ok: bool)
      modifies this
      ensures ok == storeOk && chunks == if ok then old(chunks)[r.memoryId := ChunkOf(r)] else old(chunks)
      ensures ok ==> Describes(chunks[r.memoryId], r)
    {
      if storeOk {
        chunks := chunks[r.memoryId := ChunkOf(r)];
      }
      return storeOk;
    }

    method ProjectRemove(id: string, storeOk: bool) returns (ok: bool)
      modifies this
      ensures ok == (storeOk || id == "")
      ensures chunks == if storeOk && id != "" then old(chunks) - {id} else old(chunks)
    {
      if id == "" {
        return true;
      }
      if storeOk {
        chunks := chunks - {id};
      }
      return storeOk;
    }
  }

  class OutboxVectorPublisher {
    const index: VectorIndex

    constructor (index: VectorIndex)
      ensures this.index == index
    {
      this.index := index;
    }

    /** `readOk` and `storeOk` say whether the truth source and the vector store answer; `acked` is a nil error. */
    method Publish(db: Db, msg: Message, readOk: bool, storeOk: bool) returns (acked: bool)
      requires msg.memoryId in db ==> db[msg.memoryId].memoryId == msg.memoryId
      modifies index
      ensures var d := Decide(msg, if readOk then GetRecord(db, msg.memoryId) else Err(Unavailable));
              var nothingToRemove := d.Remove? && msg.memoryId == "";
              && acked == (d.Acknowledge? || nothingToRemove || (!d.Retry? && storeOk))
              && index.chunks ==
                 if acked && !nothingToRemove then Applied(old(index.chunks), msg.memoryId, d) else old(index.chunks)
    {
      match msg.eventType {
        case Created | Updated | PinnedEvent | UnpinnedEvent | EnabledEvent =>
          var read := if readOk then GetRecord(db, msg.memoryId) else Err(Unavailable);
          if read.Err? {
            return read.error == NotFound;
          }
          if read.value.version != msg.version {
            return true;
          }
          acked := index.ProjectUpsert(read.value, storeOk);
        case PromotedEvent =>
          return true;
        case DedupeCollapsed =>
          return true;
        case DisabledEvent | DeletedEvent =>
          var read := if readOk then GetRecord(db, msg.memoryId) else Err(Unavailable);
          if read.Err? && read.error != NotFound {
            return false;
          }
          if read.Ok? && read.value.version != msg.version {
            return true;
          }
          acked := index.ProjectRemove(msg.memoryId, storeOk);
        case OtherEvent =>
          return true;
      }
    }
  }

  // The protocol. Every mutation emits one event at its new version, in the same transaction.

  type Publisher = nat

  /** A publish of event `event` between its read and its projection. */
  datatype Pending = Pending(event: nat, decision: Decision)

  datatype World = World(
    db: Db, emitted: seq<Message>, acked: set<nat>, index: Index, inflight: map<Publisher, Pending>)

  datatype Step =
    | Create(record: Record)
    | Mutation(id: string, expected: int, change: Change)
    | MarkAccess(id: string, access: Access)
    | EmitMarker(msg: Message)
    | Start(p: Publisher, e: nat, readOk: bool)
    | Finish(p: Publisher, storeOk: bool)

  function EventFor(c: Change): EventType
  {
    match c
    case SetPinned(b) => if b then PinnedEvent else UnpinnedEvent
    case SetDisabled(b) => if b then DisabledEvent else EnabledEvent
    case MarkDeleted => DeletedEvent
    case Edit(_, _, _, _) => Updated
    case Promote => PromotedEvent
  }

  predicate Enabled(w: World, a: Step)
  {
    match a
    case Create(r) => r.memoryId !in w.db && r.memoryId != "" && r.version == 1 && Visible(r)
    case Mutation(id, expected, c) => Mutate(w.db, id, expected, c).Ok?
    case MarkAccess(id, _) => id in w.db
    case EmitMarker(msg) => msg.eventType.DedupeCollapsed? || msg.eventType.OtherEvent?
    case Start(p, e, _) => p !in w.inflight && e < |w.emitted|
    case Finish(p, _) => p in w.inflight && w.inflight[p].event < |w.emitted|
  }

  /** A mutation and its event, committed together. */
  function Recorded(w: World, r: Record, msg: Message): World
  {
    w.(db := w.db[msg.memoryId := r], emitted := w.emitted + [msg])
  }

  function Acked(w: World, e: nat): World
  {
    w.(acked := w.acked + {e})
  }

  function Launched(w: World, p: Publisher, e: nat, d: Decision): World
  {
    w.(inflight := w.inflight[p := Pending(e, d)])
  }

  function Dropped(w: World, p: Publisher): World
  {
    w.(inflight := w.inflight - {p})
  }

  function Landed(w: World, p: Publisher): World
    requires p in w.inflight && w.inflight[p].event < |w.emitted|
  {
    var e, d := w.inflight[p].event, w.inflight[p].decision;
    World(w.db, w.emitted, w.acked + {e}, Applied(w.index, w.emitted[e].memoryId, d), w.inflight - {p})
  }

  function DecisionOn(w: World, e: nat, readOk: bool): Decision
    requires e < |w.emitted|
  {
    Decide(w.emitted[e], if readOk then GetRecord(w.db, w.emitted[e].memoryId) else Err(Unavailable))
  }

  function Next(w: World, a: Step): World
    requires Enabled(w, a)
  {
    match a
    case Create(r) => Recorded(w, r, Message(Created, r.memoryId, 1))
    case Mutation(id, expected, c) =>
      Recorded(w, Mutate(w.db, id, expected, c).value[id], Message(EventFor(c), id, expected + 1))
    case MarkAccess(id, access) => w.(db := w.db[id := w.db[id].(access := access)])
    case EmitMarker(msg) => w.(emitted := w.emitted + [msg])
    case Start(p, e, readOk) =>
      var d := DecisionOn(w, e, readOk);
      if d.Acknowledge? then Acked(w, e) else if d.Retry? then w else Launched(w, p, e, d)
    case Finish(p, storeOk) => if storeOk then Landed(w, p) else Dropped(w, p)
  }

  predicate ValidRun(w: World, run: seq<Step>)
    decreases |run|
  {
    run == [] || (Enabled(w, run[0]) && ValidRun(Next(w, run[0]), run[1..]))
  }

  function After(w: World, run: seq<Step>): World
    requires ValidRun(w, run)
    decreases |run|
  {
    if run == [] then w else After(Next(w, run[0]), run[1..])
  }

  /** `Publish` with nothing in between is its two steps in a row. */
  lemma PublishIsStartThenFinish(w: World, p: Publisher, e: nat, readOk: bool, storeOk: bool)
    requires p !in w.inflight && e < |w.emitted|
    ensures var d := DecisionOn(w, e, readOk);
            var acked := d.Acknowledge? || (!d.Retry? && storeOk);
            var started := Next(w, Start(p, e, readOk));
            var w' := if p in started.inflight then Next(started, Finish(p, storeOk)) else started;
            && w'.index == (if acked then Applied(w.index, w.emitted[e].memoryId, d) else w.index)
            && w'.acked == (if acked then w.acked + {e} else w.acked) && w'.inflight == w.inflight && w'.db == w.db
  {
    assert Dropped(Launched(w, p, e, DecisionOn(w, e, readOk)), p).inflight == w.inflight;
  }

  const START := World(map[], [], {}, map[], map[])

  /** The record a publish in flight is about. */
  function Target(w: World, p: Publisher): string
    requires p in w.inflight && w.inflight[p].event < |w.emitted|
  {
    w.emitted[w.inflight[p].event].memoryId
  }

  predicate Referenced(w: World)
  {
    forall p :: p in w.inflight ==> w.inflight[p].event < |w.emitted|
  }

  /** At most one publish in flight per record. */
  predicate OnePerRecord(w: World)
    requires Referenced(w)
  {
    forall p, q :: p in w.inflight && q in w.inflight && Target(w, p) == Target(w, q) ==> p == q
  }

  predicate ExclusiveRun(w: World, run: seq<Step>)
    requires ValidRun(w, run)
    decreases |run|
  {
    && Referenced(w) && OnePerRecord(w)
    && (run != [] ==> ExclusiveRun(Next(w, run[0]), run[1..]))
  }

  /** Everything emitted has been published without error, and nothing is in flight. */
  predicate Quiescent(w: World)
  {
    (forall j :: 0 <= j < |w.emitted| ==> j in w.acked) && w.inflight == map[]
  }

  /** The index says of `id` what the truth source says now. */
  predicate Agrees(w: World, id: string)
    requires id in w.db
  {
    if Visible(w.db[id]) then id in w.index && Describes(w.index[id], w.db[id]) else id !in w.index
  }

  predicate IsMutation(t: EventType)
  {
    !t.DedupeCollapsed? && !t.OtherEvent?
  }

  /** Event `j` is the one that brought `id` to its current version. */
  predicate Current(db: Db, emitted: seq<Message>, id: string, j: nat)
    requires id in db
  {
    j < |emitted| && IsMutation(emitted[j].eventType) && emitted[j].memoryId == id
      && emitted[j].version == db[id].version
  }

  ghost predicate LastWasPromotion(w: World, id: string)
    requires id in w.db
  {
    exists j: nat :: Current(w.db, w.emitted, id, j) && w.emitted[j].eventType.PromotedEvent?
  }

  // What the log says about the store.

  ghost predicate LogBounded(db: Db, emitted: seq<Message>)
  {
    forall j :: 0 <= j < |emitted| && IsMutation(emitted[j].eventType) ==>
      emitted[j].memoryId in db && emitted[j].version <= db[emitted[j].memoryId].version
  }

  ghost predicate LogOrdered(emitted: seq<Message>)
  {
    forall i, j :: 0 <= i < j < |emitted| && IsMutation(emitted[i].eventType) && IsMutation(emitted[j].eventType) ==>
      emitted[i].memoryId != emitted[j].memoryId || emitted[i].version < emitted[j].version
  }

  ghost predicate HasCurrent(db: Db, emitted: seq<Message>, id: string)
    requires id in db
  {
    exists j: nat :: Current(db, emitted, id, j)
  }

  ghost predicate LogCurrent(db: Db, emitted: seq<Message>)
  {
    forall id :: id in db ==> db[id].memoryId == id && HasCurrent(db, emitted, id)
  }

  ghost predicate RemovalsHide(db: Db, emitted: seq<Message>)
  {
    forall id, j: nat :: id in db && Current(db, emitted, id, j) && Removes(emitted[j].eventType) ==> !Visible(db[id])
  }

  ghost predicate LogOk(db: Db, emitted: seq<Message>)
  {
    LogBounded(db, emitted) && LogOrdered(emitted) && LogCurrent(db, emitted) && RemovalsHide(db, emitted)
  }

  /** A mutation of `msg.memoryId` to `r`, or its creation, together with its event. */
  ghost predicate Emits(db: Db, r: Record, msg: Message)
  {
    && IsMutation(msg.eventType) && r.memoryId == msg.memoryId && r.version == msg.version
    && (Removes(msg.eventType) ==> !Visible(r))
    && (msg.memoryId in db ==> db[msg.memoryId].version < r.version)
  }

  lemma MutationKeepsCurrent(db: Db, emitted: seq<Message>, r: Record, msg: Message, id: string)
    requires LogOk(db, emitted) && Emits(db, r, msg) && id in db[msg.memoryId := r]
    ensures HasCurrent(db[msg.memoryId := r], emitted + [msg], id)
  {
    var db', emitted' := db[msg.memoryId := r], emitted + [msg];
    if id == msg.memoryId {
      assert Current(db', emitted', id, |emitted|);
    } else {
      var j: nat :| Current(db, emitted, id, j);
      assert Current(db', emitted', id, j);
    }
  }

  lemma MutationKeepsLog(db: Db, emitted: seq<Message>, r: Record, msg: Message)
    requires LogOk(db, emitted) && Emits(db, r, msg)
    ensures LogOk(db[msg.memoryId := r], emitted + [msg])
  {
    var db', emitted' := db[msg.memoryId := r], emitted + [msg];
    forall id | id in db'
      ensures db'[id].memoryId == id && HasCurrent(db', emitted', id)
    {
      MutationKeepsCurrent(db, emitted, r, msg, id);
    }
    forall id, j: nat | id in db' && Current(db', emitted', id, j) && Removes(emitted'[j].eventType)
      ensures !Visible(db'[id])
    {
      if id != msg.memoryId {
        assert Current(db, emitted, id, j);
      }
    }
  }

  /** Same versions, same visibility, and the log longer by nothing or by a marker. */
  lemma MarkersKeepLog(db: Db, db': Db, emitted: seq<Message>, extra: seq<Message>)
    requires LogOk(db, emitted) && db'.Keys == db.Keys && forall id :: id in db ==> SameContent(db[id], db'[id])
    requires forall i :: 0 <= i < |extra| ==> !IsMutation(extra[i].eventType)
    ensures LogOk(db', emitted + extra)
  {
    var emitted' := emitted + extra;
    forall id | id in db'
      ensures db'[id].memoryId == id && HasCurrent(db', emitted', id)
    {
      var j: nat :| Current(db, emitted, id, j);
      assert Current(db', emitted', id, j);
    }
    forall id, j: nat | id in db' && Current(db', emitted', id, j) && Removes(emitted'[j].eventType)
      ensures !Visible(db'[id])
    {
      assert Current(db, emitted, id, j);
    }
  }

  lemma ChangeEmits(db: Db, id: string, c: Change)
    requires id in db && db[id].memoryId == id
    ensures Emits(db, Changed(db[id], c), Message(EventFor(c), id, db[id].version + 1))
  {
  }

  /** Creations and mutations record a newer version of one record together with its event. */
  lemma WriteStep(w: World, a: Step) returns (r: Record, msg: Message)
    requires Enabled(w, a) && (a.Create? || a.Mutation?)
    requires forall id :: id in w.db ==> w.db[id].memoryId == id
    ensures Next(w, a) == Recorded(w, r, msg) && Emits(w.db, r, msg)
  {
    if a.Create? {
      r, msg := a.record, Message(Created, a.record.memoryId, 1);
    } else {
      ChangeEmits(w.db, a.id, a.change);
      r, msg := Changed(w.db[a.id], a.change), Message(EventFor(a.change), a.id, a.expected + 1);
    }
  }

  lemma StepKeepsLog(w: World, a: Step)
    requires LogOk(w.db, w.emitted) && Enabled(w, a)
    ensures LogOk(Next(w, a).db, Next(w, a).emitted)
  {
    if a.Create? || a.Mutation? {
      var r, msg := WriteStep(w, a);
      MutationKeepsLog(w.db, w.emitted, r, msg);
    } else if a.MarkAccess? {
      MarkersKeepLog(w.db, Next(w, a).db, w.emitted, []);
      assert w.emitted + [] == w.emitted;
    } else if a.EmitMarker? {
      MarkersKeepLog(w.db, w.db, w.emitted, [a.msg]);
    }
  }

  // Publishes in flight and chunks in the index.

  /** A pending upsert carries its event's version, and the current chunk when that version is still current. */
  predicate PendingOk(db: Db, msg: Message, d: Decision)
  {
    match d
    case Upsert(chunk) =>
      && Upserts(msg.eventType) && chunk.version == msg.version && msg.memoryId in db
      && (chunk.version == db[msg.memoryId].version ==> Visible(db[msg.memoryId]) && chunk == ChunkOf(db[msg.memoryId]))
    case Remove => Removes(msg.eventType)
    case _ => false
  }

  ghost predicate InflightOk(w: World)
  {
    && Referenced(w)
    && (forall p :: p in w.inflight ==> PendingOk(w.db, w.emitted[w.inflight[p].event], w.inflight[p].decision))
  }

  ghost predicate Indexed(emitted: seq<Message>, id: string, version: int)
  {
    exists j :: 0 <= j < |emitted| && Upserts(emitted[j].eventType) && emitted[j].memoryId == id
      && emitted[j].version == version
  }

  ghost predicate IndexOk(w: World)
  {
    forall id :: id in w.index ==> id in w.db && Indexed(w.emitted, id, w.index[id].version)
  }

  /** Records are never lost, and a record that keeps its version keeps its chunk and its visibility. */
  ghost predicate Advances(db: Db, db': Db)
  {
    forall id :: id in db ==>
      && id in db'
      && (db[id].version < db'[id].version
          || (ChunkOf(db[id]) == ChunkOf(db'[id]) && Visible(db[id]) == Visible(db'[id])))
  }

  lemma ChangeAdvances(db: Db, id: string, expected: int, c: Change)
    requires Mutate(db, id, expected, c).Ok?
    ensures Advances(db, Mutate(db, id, expected, c).value)
      && Mutate(db, id, expected, c).value == db[id := Mutate(db, id, expected, c).value[id]]
  {
  }

  lemma StepAdvances(w: World, a: Step)
    requires Enabled(w, a)
    ensures Advances(w.db, Next(w, a).db) && w.emitted <= Next(w, a).emitted
  {
    if a.Mutation? {
      ChangeAdvances(w.db, a.id, a.expected, a.change);
    }
  }

  lemma PendingPersists(db: Db, db': Db, msg: Message, d: Decision)
    requires PendingOk(db, msg, d) && Advances(db, db')
      && (msg.memoryId in db ==> msg.version <= db[msg.memoryId].version)
    ensures PendingOk(db', msg, d)
  {
  }

  lemma DecideOk(db: Db, msg: Message, readOk: bool)
    requires LogBounded(db, [msg])
    ensures var d := Decide(msg, if readOk then GetRecord(db, msg.memoryId) else Err(Unavailable));
            d.Acknowledge? || d.Retry? || PendingOk(db, msg, d)
  {
  }

  /** A publish that a step leaves in flight stays as it was. */
  lemma StepLeavesPending(w: World, a: Step, p: Publisher)
    requires Enabled(w, a) && p in w.inflight && p in Next(w, a).inflight
    ensures Next(w, a).inflight[p] == w.inflight[p]
  {
  }

  lemma OldPendingPersists(w: World, a: Step, p: Publisher)
    requires LogOk(w.db, w.emitted) && InflightOk(w) && Enabled(w, a) && p in w.inflight
    ensures PendingOk(Next(w, a).db, w.emitted[w.inflight[p].event], w.inflight[p].decision)
  {
    StepAdvances(w, a);
    PendingPersists(w.db, Next(w, a).db, w.emitted[w.inflight[p].event], w.inflight[p].decision);
  }

  lemma StepKeepsPending(w: World, a: Step, p: Publisher)
    requires LogOk(w.db, w.emitted) && InflightOk(w) && Enabled(w, a) && p in Next(w, a).inflight
    ensures Next(w, a).inflight[p].event < |w.emitted|
    ensures PendingOk(Next(w, a).db, w.emitted[Next(w, a).inflight[p].event], Next(w, a).inflight[p].decision)
  {
    if p in w.inflight {
      StepLeavesPending(w, a, p);
      OldPendingPersists(w, a, p);
    } else {
      LaunchedIsOk(w, a.e, a.readOk);
    }
  }

  lemma LaunchedIsOk(w: World, e: nat, readOk: bool)
    requires LogBounded(w.db, w.emitted) && e < |w.emitted|
    ensures var d := DecisionOn(w, e, readOk); d.Acknowledge? || d.Retry? || PendingOk(w.db, w.emitted[e], d)
  {
    assert LogBounded(w.db, [w.emitted[e]]);
    DecideOk(w.db, w.emitted[e], readOk);
  }

  lemma StepKeepsInflight(w: World, a: Step)
    requires LogOk(w.db, w.emitted) && InflightOk(w) && Enabled(w, a)
    ensures InflightOk(Next(w, a))
  {
    StepAdvances(w, a);
    forall p | p in Next(w, a).inflight
      ensures Next(w, a).inflight[p].event < |Next(w, a).emitted|
      ensures PendingOk(Next(w, a).db, Next(w, a).emitted[Next(w, a).inflight[p].event],
        Next(w, a).inflight[p].decision)
    {
      StepKeepsPending(w, a, p);
    }
  }

  lemma IndexPersists(w: World, w': World)
    requires IndexOk(w) && Advances(w.db, w'.db) && w.emitted <= w'.emitted && w'.index == w.index
    ensures IndexOk(w')
  {
    forall id | id in w'.index
      ensures id in w'.db && Indexed(w'.emitted, id, w'.index[id].version)
    {
      var j :| 0 <= j < |w.emitted| && Upserts(w.emitted[j].eventType) && w.emitted[j].memoryId == id
        && w.emitted[j].version == w.index[id].version;
      assert w'.emitted[j] == w.emitted[j];
    }
  }

  lemma LandingKeepsIndex(w: World, p: Publisher)
    requires InflightOk(w) && IndexOk(w) && p in w.inflight
    ensures IndexOk(Landed(w, p))
  {
    var e := w.inflight[p].event;
    assert PendingOk(w.db, w.emitted[e], w.inflight[p].decision);
  }

  lemma StepKeepsIndex(w: World, a: Step)
    requires InflightOk(w) && IndexOk(w) && Enabled(w, a)
    ensures IndexOk(Next(w, a))
  {
    if a.Finish? && a.storeOk {
      LandingKeepsIndex(w, a.p);
    } else {
      StepAdvances(w, a);
      IndexPersists(w, Next(w, a));
    }
  }

  // Progress: unless the index is right about a record, an event that will put it right is still due.

  /** What the index must hold for a record. */
  function Wanted(r: Record): Decision
  {
    if Visible(r) then Upsert(ChunkOf(r)) else Remove
  }

  /** The index agrees on `id`, and every publish in flight for it would leave it agreeing. */
  ghost predicate Settled(w: World, id: string)
    requires Referenced(w) && id in w.db
  {
    && Agrees(w, id)
    && forall p :: p in w.inflight && Target(w, p) == id ==> w.inflight[p].decision == Wanted(w.db[id])
  }

  ghost predicate RemovalDue(w: World, id: string)
  {
    exists j :: 0 <= j < |w.emitted| && Removes(w.emitted[j].eventType) && w.emitted[j].memoryId == id && j !in w.acked
  }

  ghost predicate CurrentDue(w: World, id: string)
    requires id in w.db
  {
    exists j: nat :: Current(w.db, w.emitted, id, j) && (j !in w.acked || w.emitted[j].eventType.PromotedEvent?)
  }

  ghost predicate Progressing(w: World, id: string)
    requires Referenced(w) && id in w.db
  {
    Settled(w, id) || if Visible(w.db[id]) then CurrentDue(w, id) else RemovalDue(w, id)
  }

  ghost predicate AckedEmitted(w: World)
  {
    forall j :: j in w.acked ==> j < |w.emitted|
  }

  ghost predicate Inv(w: World)
  {
    && LogOk(w.db, w.emitted) && InflightOk(w) && IndexOk(w)
    && AckedEmitted(w)
    && forall id :: id in w.db ==> Progressing(w, id)
  }

  lemma QuietStepKeepsProgress(w: World, w': World, id: string)
    requires Referenced(w) && Referenced(w') && id in w.db && id in w'.db && Progressing(w, id)
    requires SameContent(w.db[id], w'.db[id]) && w'.index == w.index && w'.acked == w.acked && w'.inflight == w.inflight
    requires w.emitted <= w'.emitted
    ensures Progressing(w', id)
  {
    assert forall p :: p in w.inflight ==> Target(w', p) == Target(w, p);
    if !Settled(w, id) {
      if Visible(w.db[id]) {
        var j: nat :| Current(w.db, w.emitted, id, j) && (j !in w.acked || w.emitted[j].eventType.PromotedEvent?);
        assert Current(w'.db, w'.emitted, id, j);
      } else {
        var j :| 0 <= j < |w.emitted| && Removes(w.emitted[j].eventType) && w.emitted[j].memoryId == id
          && j !in w.acked;
        assert w'.emitted[j] == w.emitted[j];
      }
    }
  }

  lemma RecordedKeepsProgress(w: World, r: Record, msg: Message, id: string)
    requires Referenced(w) && id in w.db[msg.memoryId := r] && (id in w.db ==> Progressing(w, id))
    requires AckedEmitted(w)
    requires Emits(w.db, r, msg)
    requires !Visible(r) && !Removes(msg.eventType) ==> msg.memoryId in w.db && !Visible(w.db[msg.memoryId])
    ensures Referenced(Recorded(w, r, msg)) && Progressing(Recorded(w, r, msg), id)
  {
    var w' := Recorded(w, r, msg);
    var n := |w.emitted|;
    assert w'.emitted[n] == msg && n !in w'.acked;
    if id != msg.memoryId {
      QuietStepKeepsProgress(w, w', id);
    } else if Visible(r) {
      assert Current(w'.db, w'.emitted, id, n);
    } else if Removes(msg.eventType) {
      assert RemovalDue(w', id);
    } else if Settled(w, id) {
      assert forall p :: p in w'.inflight ==> Target(w', p) == Target(w, p);
      assert Settled(w', id);
    } else {
      var j :| 0 <= j < |w.emitted| && Removes(w.emitted[j].eventType) && w.emitted[j].memoryId == id && j !in w.acked;
      assert w'.emitted[j] == w.emitted[j];
    }
  }

  /** An event that the first half acknowledges was not the one a record was waiting for. */
  lemma AcknowledgedWasNotDue(w: World, e: nat, readOk: bool, id: string)
    requires RemovalsHide(w.db, w.emitted) && id in w.db && e < |w.emitted| && w.emitted[e].memoryId == id
    requires DecisionOn(w, e, readOk).Acknowledge?
    ensures Visible(w.db[id]) && Current(w.db, w.emitted, id, e) ==> w.emitted[e].eventType.PromotedEvent?
    ensures !Visible(w.db[id]) ==> !Removes(w.emitted[e].eventType)
  {
  }

  lemma AckKeepsProgress(w: World, e: nat, readOk: bool, id: string)
    requires RemovalsHide(w.db, w.emitted) && Referenced(w) && id in w.db && e < |w.emitted| && Progressing(w, id)
    requires DecisionOn(w, e, readOk).Acknowledge?
    ensures Progressing(Acked(w, e), id)
  {
    if w.emitted[e].memoryId == id {
      AcknowledgedWasNotDue(w, e, readOk, id);
    }
    assert forall p :: p in w.inflight ==> Target(Acked(w, e), p) == Target(w, p);
    if !Settled(w, id) && Visible(w.db[id]) {
      var j: nat :| Current(w.db, w.emitted, id, j) && (j !in w.acked || w.emitted[j].eventType.PromotedEvent?);
      assert Current(Acked(w, e).db, Acked(w, e).emitted, id, j);
    }
  }

  lemma LaunchedIsWanted(w: World, e: nat, readOk: bool, id: string)
    requires RemovalsHide(w.db, w.emitted) && id in w.db && e < |w.emitted| && w.emitted[e].memoryId == id
    ensures var d := DecisionOn(w, e, readOk); d.Acknowledge? || d.Retry? || d == Wanted(w.db[id])
  {
    if Visible(w.db[id]) && w.emitted[e].version == w.db[id].version && Removes(w.emitted[e].eventType) {
      assert Current(w.db, w.emitted, id, e);
    }
  }

  lemma LaunchKeepsProgress(w: World, p: Publisher, e: nat, d: Decision, id: string)
    requires Referenced(w) && id in w.db && e < |w.emitted| && p !in w.inflight && Progressing(w, id)
    requires w.emitted[e].memoryId == id ==> d == Wanted(w.db[id])
    ensures Referenced(Launched(w, p, e, d)) && Progressing(Launched(w, p, e, d), id)
  {
    var w' := Launched(w, p, e, d);
    assert forall q :: q in w.inflight ==> w'.inflight[q] == w.inflight[q] && Target(w', q) == Target(w, q);
    if Settled(w, id) {
      assert Settled(w', id);
    } else if Visible(w.db[id]) {
      assert CurrentDue(w', id);
    } else {
      assert RemovalDue(w', id);
    }
  }

  /** Landing the only publish in flight for `id` makes the index right, if it was right or this was the due event. */
  lemma LandingSettles(w: World, p: Publisher, id: string)
    requires Referenced(w) && OnePerRecord(w) && p in w.inflight && Target(w, p) == id && id in w.db
    requires w.inflight[p].decision == Wanted(w.db[id])
    ensures Referenced(Landed(w, p)) && Settled(Landed(w, p), id)
  {
    var w' := Landed(w, p);
    assert forall q :: q in w'.inflight ==> q in w.inflight && q != p && Target(w', q) == Target(w, q);
  }

  lemma DueIsWanted(w: World, p: Publisher, id: string)
    requires RemovalsHide(w.db, w.emitted) && InflightOk(w) && p in w.inflight && Target(w, p) == id && id in w.db
    requires var e := w.inflight[p].event;
             if Visible(w.db[id]) then Current(w.db, w.emitted, id, e) else Removes(w.emitted[e].eventType)
    ensures w.inflight[p].decision == Wanted(w.db[id])
  {
    assert PendingOk(w.db, w.emitted[w.inflight[p].event], w.inflight[p].decision);
  }

  lemma DropKeepsProgress(w: World, p: Publisher, id: string)
    requires Referenced(w) && id in w.db && Progressing(w, id)
    ensures Referenced(Dropped(w, p)) && Progressing(Dropped(w, p), id)
  {
    var w' := Dropped(w, p);
    assert forall q :: q in w'.inflight ==>
      q in w.inflight && w'.inflight[q] == w.inflight[q] && Target(w', q) == Target(w, q);
    if Settled(w, id) {
      assert Settled(w', id);
    } else if Visible(w.db[id]) {
      assert CurrentDue(w', id);
    } else {
      assert RemovalDue(w', id);
    }
  }

  lemma LandingElsewhere(w: World, p: Publisher, id: string)
    requires Referenced(w) && p in w.inflight && id in w.db && Settled(w, id) && Target(w, p) != id
    ensures Referenced(Landed(w, p)) && Settled(Landed(w, p), id)
  {
    var w' := Landed(w, p);
    assert forall q :: q in w'.inflight ==>
      q in w.inflight && w'.inflight[q] == w.inflight[q] && Target(w', q) == Target(w, q);
  }

  lemma LandKeepsProgress(w: World, p: Publisher, id: string)
    requires RemovalsHide(w.db, w.emitted) && InflightOk(w) && OnePerRecord(w) && p in w.inflight && id in w.db
    requires Progressing(w, id)
    ensures Referenced(Landed(w, p)) && Progressing(Landed(w, p), id)
  {
    var w' := Landed(w, p);
    var e := w.inflight[p].event;
    if Settled(w, id) {
      if Target(w, p) == id {
        LandingSettles(w, p, id);
      } else {
        LandingElsewhere(w, p, id);
      }
    } else if Visible(w.db[id]) {
      var j: nat :| Current(w.db, w.emitted, id, j) && (j !in w.acked || w.emitted[j].eventType.PromotedEvent?);
      if j == e {
        DueIsWanted(w, p, id);
        LandingSettles(w, p, id);
      } else {
        assert Current(w'.db, w'.emitted, id, j);
      }
    } else {
      var j :| 0 <= j < |w.emitted| && Removes(w.emitted[j].eventType) && w.emitted[j].memoryId == id && j !in w.acked;
      if j == e {
        DueIsWanted(w, p, id);
        LandingSettles(w, p, id);
      } else {
        assert RemovalDue(w', id);
      }
    }
  }

  lemma MutationKeepsProgress(w: World, target: string, expected: int, c: Change, id: string)
    requires Inv(w) && Enabled(w, Mutation(target, expected, c)) && id in w.db
    ensures var w' := Next(w, Mutation(target, expected, c)); Referenced(w') && Progressing(w', id)
  {
    assert Progressing(w, id);
    ChangeEmits(w.db, target, c);
    RecordedKeepsProgress(w, Changed(w.db[target], c), Message(EventFor(c), target, expected + 1), id);
  }

  lemma WriteKeepsProgress(w: World, a: Step, id: string)
    requires Inv(w) && Enabled(w, a) && !a.Start? && !a.Finish? && Referenced(Next(w, a)) && id in Next(w, a).db
    ensures Progressing(Next(w, a), id)
  {
    assert id in w.db ==> Progressing(w, id);
    match a
    case Create(r) => RecordedKeepsProgress(w, r, Message(Created, r.memoryId, 1), id);
    case Mutation(target, expected, c) => MutationKeepsProgress(w, target, expected, c, id);
    case MarkAccess(_, _) => QuietStepKeepsProgress(w, Next(w, a), id);
    case EmitMarker(_) => QuietStepKeepsProgress(w, Next(w, a), id);
  }

  lemma PublishKeepsProgress(w: World, a: Step, id: string)
    requires Inv(w) && OnePerRecord(w) && Enabled(w, a) && (a.Start? || a.Finish?) && id in w.db
    ensures Referenced(Next(w, a)) && Progressing(Next(w, a), id)
  {
    assert Progressing(w, id);
    match a
    case Start(p, e, readOk) =>
      var d := DecisionOn(w, e, readOk);
      if d.Acknowledge? {
        AckKeepsProgress(w, e, readOk, id);
      } else if !d.Retry? {
        if w.emitted[e].memoryId == id {
          LaunchedIsWanted(w, e, readOk, id);
        }
        LaunchKeepsProgress(w, p, e, d, id);
      }
    case Finish(p, storeOk) =>
      if storeOk {
        LandKeepsProgress(w, p, id);
      } else {
        DropKeepsProgress(w, p, id);
      }
  }

  lemma StepKeepsProgress(w: World, a: Step, id: string)
    requires Inv(w) && OnePerRecord(w) && Enabled(w, a) && Referenced(Next(w, a)) && id in Next(w, a).db
    ensures Progressing(Next(w, a), id)
  {
    if a.Start? || a.Finish? {
      PublishKeepsProgress(w, a, id);
    } else {
      WriteKeepsProgress(w, a, id);
    }
  }

  lemma StepKeepsAcked(w: World, a: Step)
    requires AckedEmitted(w) && InflightOk(w) && Enabled(w, a)
    ensures AckedEmitted(Next(w, a))
  {
  }

  lemma StepKeepsInv(w: World, a: Step)
    requires Inv(w) && OnePerRecord(w) && Enabled(w, a)
    ensures Inv(Next(w, a))
  {
    StepKeepsLog(w, a);
    StepKeepsInflight(w, a);
    StepKeepsIndex(w, a);
    StepKeepsAcked(w, a);
    forall id | id in Next(w, a).db
      ensures Progressing(Next(w, a), id)
    {
      StepKeepsProgress(w, a, id);
    }
  }

  lemma {:induction false} RunKeepsInv(w: World, run: seq<Step>)
    requires Inv(w) && ValidRun(w, run) && ExclusiveRun(w, run)
    ensures Inv(After(w, run))
    decreases |run|
  {
    if run != [] {
      StepKeepsInv(w, run[0]);
      RunKeepsInv(Next(w, run[0]), run[1..]);
    }
  }

  lemma MutationEventsDiffer(emitted: seq<Message>, i: nat, j: nat)
    requires LogOrdered(emitted) && i < |emitted| && j < |emitted| && emitted[i].memoryId == emitted[j].memoryId
    requires IsMutation(emitted[i].eventType) && IsMutation(emitted[j].eventType)
      && emitted[i].eventType != emitted[j].eventType
    ensures emitted[i].version != emitted[j].version
  {
    assert i < j || j < i;
  }

  lemma PromotedVersionNotIndexed(w: World, id: string)
    requires Inv(w) && id in w.db && Visible(w.db[id]) && LastWasPromotion(w, id)
    ensures !Agrees(w, id)
  {
    var j: nat :| Current(w.db, w.emitted, id, j) && w.emitted[j].eventType.PromotedEvent?;
    if id in w.index {
      var i: nat :| i < |w.emitted| && Upserts(w.emitted[i].eventType) && w.emitted[i].memoryId == id
        && w.emitted[i].version == w.index[id].version;
      MutationEventsDiffer(w.emitted, i, j);
    }
  }

  lemma QuiescentAgreement(w: World, id: string)
    requires Inv(w) && Quiescent(w) && id in w.db
    ensures Agrees(w, id) <==> !Visible(w.db[id]) || !LastWasPromotion(w, id)
  {
    assert Progressing(w, id);
    if Visible(w.db[id]) && LastWasPromotion(w, id) {
      PromotedVersionNotIndexed(w, id);
    }
  }

  /**
   Convergence, and exactly when: with at most one publish in flight per record, once everything emitted has
   been published and nothing is in flight, the index holds nothing for unknown or hidden ids, and it holds
   a visible record at its current version exactly when that version did not come from a promotion.
   */
  lemma ProjectionConverges(run: seq<Step>)
    requires ValidRun(START, run) && ExclusiveRun(START, run) && Quiescent(After(START, run))
    ensures var w := After(START, run);
            && (forall id :: id in w.index ==> id in w.db)
            && (forall id :: id in w.db ==> (Agrees(w, id) <==> !Visible(w.db[id]) || !LastWasPromotion(w, id)))
  {
    var w := After(START, run);
    RunKeepsInv(START, run);
    forall id | id in w.db
      ensures Agrees(w, id) <==> !Visible(w.db[id]) || !LastWasPromotion(w, id)
    {
      QuiescentAgreement(w, id);
    }
  }

  // Without the hypothesis of one publish in flight per record.

  /** A chunk is never ahead of its record, and at the record's version it is the record's chunk. */
  predicate ChunkCurrent(db: Db, id: string, chunk: Chunk)
  {
    && id in db && chunk.version <= db[id].version
    && (chunk.version == db[id].version ==> Visible(db[id]) && chunk == ChunkOf(db[id]))
  }

  ghost predicate ChunksOk(w: World)
  {
    forall id :: id in w.index ==> ChunkCurrent(w.db, id, w.index[id])
  }

  lemma LandedChunkCurrent(w: World, p: Publisher)
    requires LogOk(w.db, w.emitted) && InflightOk(w) && p in w.inflight && w.inflight[p].decision.Upsert?
    ensures ChunkCurrent(w.db, Target(w, p), w.inflight[p].decision.chunk)
  {
    assert PendingOk(w.db, w.emitted[w.inflight[p].event], w.inflight[p].decision);
  }

  lemma ChunksPersist(w: World, w': World)
    requires ChunksOk(w) && Advances(w.db, w'.db) && w'.index == w.index
    ensures ChunksOk(w')
  {
    forall id | id in w'.index
      ensures ChunkCurrent(w'.db, id, w'.index[id])
    {
      assert ChunkCurrent(w.db, id, w.index[id]);
    }
  }

  lemma LandingKeepsChunks(w: World, p: Publisher)
    requires LogOk(w.db, w.emitted) && InflightOk(w) && ChunksOk(w) && p in w.inflight
    ensures ChunksOk(Landed(w, p))
  {
    if w.inflight[p].decision.Upsert? {
      LandedChunkCurrent(w, p);
    }
  }

  lemma StepKeepsChunks(w: World, a: Step)
    requires LogOk(w.db, w.emitted) && InflightOk(w) && ChunksOk(w) && Enabled(w, a)
    ensures ChunksOk(Next(w, a))
  {
    if a.Finish? && a.storeOk {
      LandingKeepsChunks(w, a.p);
    } else {
      StepAdvances(w, a);
      ChunksPersist(w, Next(w, a));
    }
  }

  lemma {:induction false} RunKeepsChunks(w: World, run: seq<Step>)
    requires LogOk(w.db, w.emitted) && InflightOk(w) && ChunksOk(w) && ValidRun(w, run)
    ensures ChunksOk(After(w, run))
    decreases |run|
  {
    if run != [] {
      StepKeepsLog(w, run[0]);
      StepKeepsInflight(w, run[0]);
      StepKeepsChunks(w, run[0]);
      RunKeepsChunks(Next(w, run[0]), run[1..]);
    }
  }

  /**
   In every interleaving, publishes overlapping or not: the index agrees on a visible record exactly when the
   publish that last changed its chunk was an upsert that read the record at the version it has now.
   */
  lemma AgreesExactlyAtVersion(run: seq<Step>, id: string)
    requires ValidRun(START, run) && id in After(START, run).db && Visible(After(START, run).db[id])
    ensures var w := After(START, run);
            Agrees(w, id) <==> id in w.index && w.index[id].version == w.db[id].version
  {
    RunKeepsChunks(START, run);
  }

  /** Without promotions the quiescent index is exactly the visible records at their current versions. */
  lemma IndexIsVisibleRecords(run: seq<Step>)
    requires ValidRun(START, run) && ExclusiveRun(START, run) && Quiescent(After(START, run))
    requires forall a :: a in run ==> !(a.Mutation? && a.change.Promote?)
    ensures var w := After(START, run);
            && w.index.Keys == (set id | id in w.db && Visible(w.db[id]))
            && forall id :: id in w.index ==> Describes(w.index[id], w.db[id])
  {
    var w := After(START, run);
    RunKeepsInv(START, run);
    NoPromotionEmitted(START, run);
    forall id | id in w.db
      ensures Agrees(w, id)
    {
      QuiescentAgreement(w, id);
    }
  }

  lemma {:induction false} NoPromotionEmitted(w: World, run: seq<Step>)
    requires ValidRun(w, run) && forall a :: a in run ==> !(a.Mutation? && a.change.Promote?)
    requires forall msg :: msg in w.emitted ==> !msg.eventType.PromotedEvent?
    ensures forall msg :: msg in After(w, run).emitted ==> !msg.eventType.PromotedEvent?
    decreases |run|
  {
    if run != [] {
      assert run[0] in run;
      forall msg | msg in Next(w, run[0]).emitted
        ensures !msg.eventType.PromotedEvent?
      {
        assert msg in w.emitted || msg == Next(w, run[0]).emitted[|w.emitted|];
      }
      NoPromotionEmitted(Next(w, run[0]), run[1..]);
    }
  }

  lemma RunOfCons(w: World, a: Step, rest: seq<Step>)
    requires Enabled(w, a) && ValidRun(Next(w, a), rest)
    ensures ValidRun(w, [a] + rest) && After(w, [a] + rest) == After(Next(w, a), rest)
  {
    assert ([a] + rest)[1..] == rest;
  }

  /** A finished run that leaves a visible record unindexed or wrong. */
  predicate EndsDiverged(run: seq<Step>, id: string)
  {
    && ValidRun(START, run)
    && var w := After(START, run);
       Quiescent(w) && id in w.db && Visible(w.db[id]) && !Agrees(w, id)
  }

  /** A record promoted before its creation event is delivered is never indexed, though everything was acknowledged. */
  lemma PromotedBeforeDelivery(r: Record)
    requires r.memoryId != "" && r.version == 1 && Visible(r)
    ensures exists run :: EndsDiverged(run, r.memoryId) && r.memoryId !in After(START, run).index
  {
    var id := r.memoryId;
    var w1 := Next(START, Create(r));
    var w2 := Next(w1, Mutation(id, 1, Promote));
    var w3 := Next(w2, Start(0, 0, true));
    RunOfCons(w3, Start(0, 1, true), []);
    RunOfCons(w2, Start(0, 0, true), [Start(0, 1, true)] + []);
    RunOfCons(w1, Mutation(id, 1, Promote), [Start(0, 0, true)] + ([Start(0, 1, true)] + []));
    RunOfCons(START, Create(r), [Mutation(id, 1, Promote)] + ([Start(0, 0, true)] + ([Start(0, 1, true)] + [])));
    var publishes := [Start(0, 0, true)] + ([Start(0, 1, true)] + []);
    assert EndsDiverged([Create(r)] + ([Mutation(id, 1, Promote)] + publishes), id);
  }

  /** One in flight per record is needed: a slow publish can land an older version over a newer one. */
  lemma OverlappingPublishesDiverge(r: Record)
    requires r.memoryId != "" && r.version == 1 && Visible(r)
    ensures exists run :: EndsDiverged(run, r.memoryId) && !LastWasPromotion(After(START, run), r.memoryId)
  {
    var id := r.memoryId;
    var w1 := Next(START, Create(r));
    var w2 := Next(w1, Start(0, 0, true));
    var w3 := Next(w2, Mutation(id, 1, SetPinned(true)));
    var w4 := Next(w3, Start(1, 1, true));
    var w5 := Next(w4, Finish(1, true));
    var r0 := [Finish(0, true)] + [];
    RunOfCons(w5, Finish(0, true), []);
    var r1 := [Finish(1, true)] + r0;
    RunOfCons(w4, Finish(1, true), r0);
    var r2 := [Start(1, 1, true)] + r1;
    RunOfCons(w3, Start(1, 1, true), r1);
    var r3 := [Mutation(id, 1, SetPinned(true))] + r2;
    RunOfCons(w2, Mutation(id, 1, SetPinned(true)), r2);
    var r4 := [Start(0, 0, true)] + r3;
    RunOfCons(w1, Start(0, 0, true), r3);
    RunOfCons(START, Create(r), r4);
    assert EndsDiverged([Create(r)] + r4, id);
  }
}
