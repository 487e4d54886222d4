/**
 The mutators: version guards, terminal-state replay and patch idempotency keys.

 The request hash of a keyed patch is modelled by what is hashed, so distinct requests never collide.
 */
module Mutations {
  import opened Scopes
  import opened Records
  import opened RecallKeys
  import opened Backends

  datatype Op = Pin | Unpin | Disable | Enable | Delete

  datatype Request =
    | Toggle(op: Op, scope: Scope, id: string, expected: int)
    | Patch(scope: Scope, id: string, expected: int, key: string, edit: Edited)

  datatype Edited = Edited(
    content: Option<string>, category: Option<string>, tags: Option<seq<string>>, importance: Option<real>)

  datatype Error = ReadOnly | BadRequest | SessionRefused | Backend(error: BackendError)

  datatype Response = Done(id: string, version: int) | Refused(error: Error)

  datatype Snapshot = Snapshot(request: Request, id: string, version: int)

  type Idempotency = map<(string, string), Snapshot>

  /** What the surroundings answer: the gateway's mode, the fence, and the idempotency store. */
  datatype Env = Env(readOnly: bool, sessionOpen: bool, keysConfigured: bool, loadOk: bool, saveOk: bool)

  /** `invalidated`: the handler went on to invalidate the scope's cached recalls. */
  datatype Outcome = Outcome(db: Db, keys: Idempotency, response: Response, invalidated: bool)

  /** An absent patch field reaches the backend like an empty one. */
  function ChangeOf(r: Request): Change
  {
    match r
    case Toggle(Pin, _, _, _) => SetPinned(true)
    case Toggle(Unpin, _, _, _) => SetPinned(false)
    case Toggle(Disable, _, _, _) => SetDisabled(true)
    case Toggle(Enable, _, _, _) => SetDisabled(false)
    case Toggle(Delete, _, _, _) => MarkDeleted
    case Patch(_, _, _, _, e) => Edit(Or(e.content, ""), Or(e.category, ""), Or(e.tags, []), Or(e.importance, 0.0))
  }

  /** Already in the state the request asks for. */
  predicate Desired(op: Op, r: Record)
  {
    match op
    case Pin => r.pinned
    case Unpin => !r.pinned
    case Disable => r.disabled && !r.deleted
    case Enable => !r.disabled
    case Delete => r.deleted
  }

  /** Disable and delete look past the visibility filter; the others do not. */
  function ReadFor(op: Op, db: Db, id: string): Result<Record>
  {
    if op.Disable? || op.Delete? then GetRecordIncludingHidden(db, id) else GetRecord(db, id)
  }

  predicate ShortCircuits(op: Op, db: Db, id: string, expected: int)
  {
    var read := ReadFor(op, db, id);
    read.Ok? && Desired(op, read.value) && expected <= read.value.version
  }

  /** Unpin and enable do not consult the session. */
  predicate Fenced(r: Request)
  {
    r.Patch? || !(r.op.Unpin? || r.op.Enable?)
  }

  predicate Keyed(r: Request, env: Env)
  {
    r.Patch? && TrimSpace(r.key) != "" && env.keysConfigured
  }

  function Slot(r: Request): (string, string)
    requires r.Patch?
  {
    (r.scope.tenantId, r.key)
  }

  function Committed(db: Db, keys: Idempotency, r: Request, save: bool): Outcome
  {
    match Mutate(db, r.id, r.expected, ChangeOf(r))
    case Err(e) => Outcome(db, keys, Refused(Backend(e)), false)
    case Ok(db') =>
      var version := db'[r.id].version;
      var keys' := if save && r.Patch? then keys[Slot(r) := Snapshot(r, r.id, version)] else keys;
      Outcome(db', keys', Done(r.id, version), true)
  }

  function Handle(db: Db, keys: Idempotency, r: Request, env: Env): Outcome
  {
    if env.readOnly then Outcome(db, keys, Refused(ReadOnly), false)
    else if r.expected <= 0 then Outcome(db, keys, Refused(BadRequest), false)
    else if Fenced(r) && !env.sessionOpen then Outcome(db, keys, Refused(SessionRefused), false)
    else if r.Toggle? && ShortCircuits(r.op, db, r.id, r.expected) then
      Outcome(db, keys, Done(r.id, db[r.id].version), false)
    else if Keyed(r, env) then
      if !env.loadOk then Outcome(db, keys, Refused(Backend(Unavailable)), false)
      else if Slot(r) !in keys then Committed(db, keys, r, env.saveOk)
      else if keys[Slot(r)].request != r then Outcome(db, keys, Refused(Backend(IdempotencyConflict)), false)
      else Outcome(db, keys, Done(keys[Slot(r)].id, keys[Slot(r)].version), false)
    else Committed(db, keys, r, false)
  }

  /** The value a patch leaves in a field: the one it brings, or the stored one if it brings none or an empty one. */
  function Patched<T(==)>(given: Option<T>, empty: T, stored: T): T
  {
    if given == None || given == Some(empty) then stored else given.value
  }

  /** What a mutation that took effect has done to the record, field by field. */
  predicate TookEffect(r: Request, was: Record, now: Record)
  {
    && now.version == was.version + 1
    && now.memoryId == was.memoryId && now.scope == was.scope && now.kind == was.kind && now.source == was.source
    && now.access == was.access
    && match r
       case Patch(_, _, _, _, e) =>
         && now.content == Patched(e.content, "", was.content)
         && now.category == Patched(e.category, "", was.category)
         && now.tags == Patched(e.tags, [], was.tags)
         && now.importance == Patched(e.importance, 0.0, was.importance)
         && now.pinned == was.pinned && now.disabled == was.disabled && now.deleted == was.deleted
       case Toggle(op, _, _, _) =>
         && now.content == was.content && now.category == was.category && now.tags == was.tags
         && now.importance == was.importance
         && now.pinned == (if op.Pin? || op.Unpin? then op.Pin? else was.pinned)
         && now.disabled == (if op.Disable? || op.Enable? then op.Disable? else was.disabled)
         && now.deleted == (op.Delete? || was.deleted)
  }

  lemma ChangeIsAsked(r: Request, was: Record)
    ensures TookEffect(r, was, Changed(was, ChangeOf(r)))
  {
  }

  /** A handler invalidates exactly when its guarded mutation went through. */
  lemma InvalidatesOnCommit(db: Db, keys: Idempotency, r: Request, env: Env)
    requires Handle(db, keys, r, env).invalidated
    ensures r.id in db && db[r.id].version == r.expected
    ensures var o := Handle(db, keys, r, env);
            o.db == db[r.id := Changed(db[r.id], ChangeOf(r))] && o.response == Done(r.id, o.db[r.id].version)
  {
  }

  /** A mutation that invalidates has changed its record at its expected version as asked, and nothing else. */
  lemma EffectIsAsked(db: Db, keys: Idempotency, r: Request, env: Env)
    requires Handle(db, keys, r, env).invalidated
    ensures var o := Handle(db, keys, r, env);
            && r.id in db && db[r.id].version == r.expected && o.response == Done(r.id, r.expected + 1)
            && o.db.Keys == db.Keys && (forall id :: id in db && id != r.id ==> o.db[id] == db[id])
            && TookEffect(r, db[r.id], o.db[r.id])
  {
    InvalidatesOnCommit(db, keys, r, env);
    ChangeIsAsked(r, db[r.id]);
  }

  /** The snapshot of a keyed patch that took effect is saved under its tenant and key; no other entry ever changes. */
  lemma SavesOwnSlot(db: Db, keys: Idempotency, r: Request, env: Env)
    ensures var o := Handle(db, keys, r, env);
            if o.invalidated && r.Patch? && TrimSpace(r.key) != "" && env.keysConfigured && env.saveOk then
              o.keys == keys[(r.scope.tenantId, r.key) := Snapshot(r, r.id, r.expected + 1)]
            else o.keys == keys
  {
    if Handle(db, keys, r, env).invalidated {
      EffectIsAsked(db, keys, r, env);
    }
  }

  /** The checks come first, in this order; unpin and enable are let through a closed session. */
  lemma ChecksComeFirst(db: Db, keys: Idempotency, r: Request, env: Env)
    ensures var o := Handle(db, keys, r, env);
            var why := if env.readOnly then Some(ReadOnly)
              else if r.expected <= 0 then Some(BadRequest)
              else if !env.sessionOpen && (r.Patch? || r.op.Pin? || r.op.Disable? || r.op.Delete?) then
                Some(SessionRefused)
              else None;
            why.Some? ==> o == Outcome(db, keys, Refused(why.value), false)
  {
  }

  /**
   A toggle that finds its record settled answers its version and changes nothing, unless the caller expects a
   version that does not exist yet.
   */
  lemma SettledIsAnswered(db: Db, keys: Idempotency, op: Op, s: Scope, id: string, expected: int, env: Env)
    requires !env.readOnly && expected > 0 && (env.sessionOpen || op.Unpin? || op.Enable?) && id in db
    requires var rec := db[id];
             match op
             case Pin => rec.pinned && !rec.deleted && !rec.disabled
             case Unpin => !rec.pinned && !rec.deleted && !rec.disabled
             case Disable => rec.disabled && !rec.deleted
             case Enable => !rec.disabled && !rec.deleted
             case Delete => rec.deleted
    ensures Handle(db, keys, Toggle(op, s, id, expected), env)
            == Outcome(db, keys, if expected <= db[id].version then Done(id, db[id].version)
                                 else Refused(Backend(VersionConflict)), false)
  {
  }

  /**
   A request that gets past the checks, is not a known key and does not find its record settled takes effect if the
   record is there at the expected version. A key already used for another payload conflicts.
   */
  lemma PermittedTakesEffect(db: Db, keys: Idempotency, r: Request, env: Env)
    requires !env.readOnly && r.expected > 0 && env.loadOk
    requires env.sessionOpen || (r.Toggle? && (r.op.Unpin? || r.op.Enable?))
    ensures var known := r.Patch? && TrimSpace(r.key) != "" && env.keysConfigured && (r.scope.tenantId, r.key) in keys;
            var o := Handle(db, keys, r, env);
            && (known && keys[(r.scope.tenantId, r.key)].request != r ==>
                  o == Outcome(db, keys, Refused(Backend(IdempotencyConflict)), false))
            && (!known && r.id in db && db[r.id].version == r.expected && !(r.Toggle? && Desired(r.op, db[r.id])) ==>
                  o.invalidated)
  {
  }

  /** One that does not invalidate changes nothing, and one refused by the backend says why. */
  lemma NoEffectNoChange(db: Db, keys: Idempotency, r: Request, env: Env)
    requires !Handle(db, keys, r, env).invalidated
    ensures var o := Handle(db, keys, r, env);
            && o.db == db && o.keys == keys
            && (o.response == Refused(Backend(NotFound)) ==> r.id !in db)
            && (o.response == Refused(Backend(VersionConflict)) ==> r.id in db && db[r.id].version != r.expected)
  {
  }

  class Mutator {
    const backend: Backend
    var keys: Idempotency

    constructor (backend: Backend)
      ensures this.backend == backend && keys == map[]
    {
      this.backend := backend;
      keys := map[];
    }

    method TerminalStateShortCircuit(op: Op, id: string, expected: int) returns (found: Option<Record>)
      ensures found.Some? <==> ShortCircuits(op, backend.db, id, expected)
      ensures found.Some? ==> id in backend.db && found.value == backend.db[id]
    {
      var read := if op.Disable? || op.Delete? then GetRecordIncludingHidden(backend.db, id)
        else GetRecord(backend.db, id);
      if read.Err? {
        return None;
      }
      if Desired(op, read.value) && expected <= read.value.version {
        return Some(read.value);
      }
      return None;
    }

    method ToggleMemory(op: Op, s: Scope, id: string, expected: int, env: Env)
      returns (response: Response, invalidated: bool)
      requires backend.Valid()
      modifies this, backend`db
      ensures backend.Valid() && Ages(old(backend.db), backend.db)
      ensures Outcome(backend.db, keys, response, invalidated)
        == Handle(old(backend.db), old(keys), Toggle(op, s, id, expected), env)
    {
      if env.readOnly {
        return Refused(ReadOnly), false;
      }
      if expected <= 0 {
        return Refused(BadRequest), false;
      }
      if op != Unpin && op != Enable && !env.sessionOpen {
        return Refused(SessionRefused), false;
      }
      var found := TerminalStateShortCircuit(op, id, expected);
      if found.Some? {
        return Done(id, found.value.version), false;
      }
      var result := backend.Apply(id, expected, ChangeOf(Toggle(op, s, id, expected)));
      if result.Err? {
        return Refused(Backend(result.error)), false;
      }
      return Done(id, result.value.version), true;
    }

    method PatchMemory(s: Scope, id: string, expected: int, key: string, edit: Edited, env: Env)
      returns (response: Response, invalidated: bool)
      requires backend.Valid()
      modifies this, backend`db
      ensures backend.Valid() && Ages(old(backend.db), backend.db)
      ensures Outcome(backend.db, keys, response, invalidated)
        == Handle(old(backend.db), old(keys), Patch(s, id, expected, key, edit), env)
    {
      var request := Patch(s, id, expected, key, edit);
      if env.readOnly {
        return Refused(ReadOnly), false;
      }
      if expected <= 0 {
        return Refused(BadRequest), false;
      }
      if !env.sessionOpen {
        return Refused(SessionRefused), false;
      }
      var keyed := TrimSpace(key) != "" && env.keysConfigured;
      if keyed {
        if !env.loadOk {
          return Refused(Backend(Unavailable)), false;
        }
        if Slot(request) in keys {
          var entry := keys[Slot(request)];
          if entry.request != request {
            return Refused(Backend(IdempotencyConflict)), false;
          }
          return Done(entry.id, entry.version), false;
        }
      }
      var result := backend.Apply(id, expected, ChangeOf(request));
      if result.Err? {
        return Refused(Backend(result.error)), false;
      }
      if keyed && env.saveOk {
        keys := keys[Slot(request) := Snapshot(request, id, result.value.version)];
      }
      return Done(id, result.value.version), true;
    }
  }

  /** The record, before the call, is one whose replay the short-circuit will be able to read and recognise. */
  predicate Replayable(op: Op, r: Record)
  {
    match op
    case Delete => true
    case Disable => !r.deleted
    case Enable => !r.deleted
    case Pin => !r.deleted && !r.disabled
    case Unpin => !r.deleted && !r.disabled
  }

  lemma ImmediateReplay(db: Db, keys: Idempotency, op: Op, s: Scope, id: string, expected: int, env: Env)
    requires var first := Handle(db, keys, Toggle(op, s, id, expected), env); first.response.Done?
    ensures id in db
    ensures var r := Toggle(op, s, id, expected);
            var first := Handle(db, keys, r, env);
            var second := Handle(first.db, first.keys, r, env);
            && (Replayable(op, db[id]) ==> second == first.(invalidated := false))
            && (!Replayable(op, db[id]) ==>
              second == Outcome(first.db, first.keys, Refused(Backend(VersionConflict)), false))
  {
    match op
    case Pin =>
    case Unpin =>
    case Disable =>
    case Enable =>
    case Delete =>
  }

  /** The request sent again `n` times, nothing in between. */
  function Retried(db: Db, keys: Idempotency, r: Request, env: Env, n: nat): Outcome
  {
    if n == 0 then Handle(db, keys, r, env)
    else
      var last := Retried(db, keys, r, env, n - 1);
      Handle(last.db, last.keys, r, env)
  }

  /**
   Sending a successful pin, unpin, disable, enable or delete again, any number of times, succeeds with the
   same version and changes nothing, exactly when the record was replayable before the first call. Otherwise
   the read behind the short-circuit does not see the record and every retry is refused as a version conflict.
   */
  lemma {:induction false} ReplaysSettle(db: Db, keys: Idempotency, op: Op, s: Scope, id: string, expected: int,
                                         env: Env, n: nat)
    requires n > 0 && Handle(db, keys, Toggle(op, s, id, expected), env).response.Done?
    ensures id in db
    ensures var r := Toggle(op, s, id, expected);
            var first := Handle(db, keys, r, env);
            Retried(db, keys, r, env, n) ==
              if Replayable(op, db[id]) then first.(invalidated := false)
              else Outcome(first.db, first.keys, Refused(Backend(VersionConflict)), false)
  {
    ImmediateReplay(db, keys, op, s, id, expected, env);
    if n > 1 {
      ReplaysSettle(db, keys, op, s, id, expected, env, n - 1);
    }
  }

  lemma PatchReplay(db: Db, keys: Idempotency, r: Request, env: Env)
    requires r.Patch? && var first := Handle(db, keys, r, env); first.response.Done? && first.invalidated
    ensures var first := Handle(db, keys, r, env);
            var second := Handle(first.db, first.keys, r, env);
            && second == Outcome(first.db, first.keys,
                 if Keyed(r, env) && env.saveOk then first.response else Refused(Backend(VersionConflict)), false)
  {
  }

  /** A keyed patch replays its stored answer exactly when its snapshot was saved; any other conflicts. */
  lemma {:induction false} PatchReplaysSettle(db: Db, keys: Idempotency, r: Request, env: Env, n: nat)
    requires n > 0 && r.Patch? && var first := Handle(db, keys, r, env); first.response.Done? && first.invalidated
    ensures var first := Handle(db, keys, r, env);
            Retried(db, keys, r, env, n) == Outcome(first.db, first.keys,
              if Keyed(r, env) && env.saveOk then first.response else Refused(Backend(VersionConflict)), false)
  {
    PatchReplay(db, keys, r, env);
    if n > 1 {
      PatchReplaysSettle(db, keys, r, env, n - 1);
    }
  }

  // Retries and other requests, interleaved between the steps of each handler.

  type ThreadId = nat

  datatype Thread =
    | Ready(request: Request)
    | Mutating(request: Request, keyed: bool)
    | Saving(request: Request, version: int)
    | Answered(response: Response)

  /** A mutation that took effect on version `from` of record `id`. */
  datatype Effect = Effect(id: string, from: int, request: Option<Request>)

  datatype World = World(db: Db, keys: Idempotency, threads: map<ThreadId, Thread>, log: seq<Effect>)

  datatype Step =
    | Create(record: Record)
    | Foreign(id: string, expected: int, change: Change)
    | Begin(t: ThreadId, request: Request)
    | Read(t: ThreadId, keyed: bool)
    | Commit(t: ThreadId)
    | Save(t: ThreadId, ok: bool)
    | Forget(t: ThreadId)

  predicate Enabled(w: World, a: Step)
  {
    match a
    case Create(r) => r.memoryId !in w.db && r.version == 1
    case Foreign(id, expected, c) => Mutate(w.db, id, expected, c).Ok?
    case Begin(t, r) => t !in w.threads && r.expected > 0
    case Read(t, keyed) => t in w.threads && w.threads[t].Ready? && (keyed ==> w.threads[t].request.Patch?)
    case Commit(t) => t in w.threads && w.threads[t].Mutating?
    case Save(t, _) => t in w.threads && w.threads[t].Saving? && w.threads[t].request.Patch?
    case Forget(t) => t in w.threads
  }

  /** The read half: replay, conflict, or go on to the backend. */
  function AfterRead(w: World, r: Request, keyed: bool): Thread
  {
    if r.Toggle? && ShortCircuits(r.op, w.db, r.id, r.expected) then Answered(Done(r.id, w.db[r.id].version))
    else if keyed && r.Patch? && Slot(r) in w.keys then
      if w.keys[Slot(r)].request != r then Answered(Refused(Backend(IdempotencyConflict)))
      else Answered(Done(w.keys[Slot(r)].id, w.keys[Slot(r)].version))
    else Mutating(r, keyed)
  }

  function Next(w: World, a: Step): World
    requires Enabled(w, a)
  {
    match a
    case Create(r) => w.(db := w.db[r.memoryId := r])
    case Foreign(id, expected, c) =>
      w.(db := Mutate(w.db, id, expected, c).value, log := w.log + [Effect(id, expected, None)])
    case Begin(t, r) => w.(threads := w.threads[t := Ready(r)])
    case Read(t, keyed) => w.(threads := w.threads[t := AfterRead(w, w.threads[t].request, keyed)])
    case Commit(t) =>
      var r := w.threads[t].request;
      (match Mutate(w.db, r.id, r.expected, ChangeOf(r))
       case Err(e) => w.(threads := w.threads[t := Answered(Refused(Backend(e)))])
       case Ok(db) =>
         var version := db[r.id].version;
         World(db, w.keys,
               w.threads[t := if w.threads[t].keyed then Saving(r, version) else Answered(Done(r.id, version))],
               w.log + [Effect(r.id, r.expected, Some(r))]))
    case Save(t, ok) =>
      var r, version := w.threads[t].request, w.threads[t].version;
      var w' := w.(threads := w.threads[t := Answered(Done(r.id, version))]);
      if ok then w'.(keys := w.keys[Slot(r) := Snapshot(r, r.id, version)]) else w'
    case Forget(t) => w.(threads := w.threads - {t})
  }

  predicate ValidRun(w: World, run: seq<Step>)
    decreases |run|
  {
    run == [] || (Enabled(w, run[0]) && ValidRun(Next(w, run[0]), run[1..]))
  }

  function After(w: World, run: seq<Step>): World
    requires ValidRun(w, run)
    decreases |run|
  {
    if run == [] then w else After(Next(w, run[0]), run[1..])
  }

  /** The request passes the checks before the first read, and the idempotency store answers if it is asked. */
  predicate Admitted(r: Request, env: Env)
  {
    && !env.readOnly && r.expected > 0 && (Fenced(r) ==> env.sessionOpen) && (Keyed(r, env) ==> env.loadOk)
  }

  /** What is left of a handler after its read: it commits and saves if it gets that far. */
  function CommitAndSave(w: World, t: ThreadId, saveOk: bool): World
    requires t in w.threads && (w.threads[t].Mutating? && w.threads[t].keyed ==> w.threads[t].request.Patch?)
  {
    if !w.threads[t].Mutating? then w
    else
      var committed := Next(w, Commit(t));
      if committed.threads[t].Saving? then Next(committed, Save(t, saveOk)) else committed
  }

  /** The steps of one handler with nothing in between. */
  function StepsInARow(w: World, t: ThreadId, r: Request, env: Env): World
    requires t !in w.threads && r.expected > 0
  {
    CommitAndSave(Next(Next(w, Begin(t, r)), Read(t, Keyed(r, env))), t, env.saveOk)
  }

  /** The world after a handler that came to this outcome. */
  function Settled(w: World, t: ThreadId, r: Request, o: Outcome): World
  {
    World(o.db, o.keys, w.threads[t := Answered(o.response)],
          if o.invalidated then w.log + [Effect(r.id, r.expected, Some(r))] else w.log)
  }

  lemma CommitAndSaveCommits(w: World, t: ThreadId, r: Request, keyed: bool, saveOk: bool)
    requires t in w.threads && w.threads[t] == Mutating(r, keyed) && (keyed ==> r.Patch?)
    ensures CommitAndSave(w, t, saveOk) == Settled(w, t, r, Committed(w.db, w.keys, r, keyed && saveOk))
  {
    var committed := Next(w, Commit(t));
    assert w.threads[t := committed.threads[t]] == committed.threads;
  }

  lemma ReadThenCommit(w: World, r: Request, env: Env)
    ensures var o := Handle(w.db, w.keys, r, env);
            if Admitted(r, env) then
              o == match AfterRead(w, r, Keyed(r, env))
                   case Answered(response) => Outcome(w.db, w.keys, response, false)
                   case _ => Committed(w.db, w.keys, r, Keyed(r, env) && env.saveOk)
            else o.response.Refused? && o.db == w.db && o.keys == w.keys && !o.invalidated
  {
  }

  lemma BeginAndRead(w: World, t: ThreadId, r: Request, env: Env)
    requires t !in w.threads && r.expected > 0
    ensures var read := w.(threads := w.threads[t := AfterRead(w, r, Keyed(r, env))]);
            && (AfterRead(w, r, Keyed(r, env)).Mutating? ==>
              AfterRead(w, r, Keyed(r, env)) == Mutating(r, Keyed(r, env)))
            && StepsInARow(w, t, r, env) == CommitAndSave(read, t, env.saveOk)
  {
    var begun := Next(w, Begin(t, r));
    assert Next(begun, Read(t, Keyed(r, env))).threads == w.threads[t := AfterRead(w, r, Keyed(r, env))];
  }

  /** One handler alone, as `Handle` and the mutator take it, is its steps in a row; one not admitted takes none. */
  lemma HandleIsStepsInARow(w: World, t: ThreadId, r: Request, env: Env)
    requires t !in w.threads
    ensures var o := Handle(w.db, w.keys, r, env);
            if Admitted(r, env) then StepsInARow(w, t, r, env) == Settled(w, t, r, o)
            else o.response.Refused? && o.db == w.db && o.keys == w.keys && !o.invalidated
  {
    ReadThenCommit(w, r, env);
    if Admitted(r, env) {
      BeginAndRead(w, t, r, env);
      var thread := AfterRead(w, r, Keyed(r, env));
      var read := w.(threads := w.threads[t := thread]);
      if thread.Mutating? {
        CommitAndSaveCommits(read, t, r, Keyed(r, env), env.saveOk);
        var answer := Answered(Handle(w.db, w.keys, r, env).response);
        assert read.threads[t := answer] == w.threads[t := answer];
      }
    }
  }

  const START := World(map[], map[], map[], [])

  function EffectsOn(log: seq<Effect>, id: string): nat
  {
    if log == [] then 0 else EffectsOn(log[..|log| - 1], id) + if log[|log| - 1].id == id then 1 else 0
  }

  /** Versions count effects, and no effect starts from a version that an earlier one already left. */
  ghost predicate LogOk(db: Db, log: seq<Effect>)
  {
    && (forall i :: 0 <= i < |log| ==> log[i].id in db && log[i].from < db[log[i].id].version)
    && (forall i, j :: 0 <= i < j < |log| && log[i].id == log[j].id ==> log[i].from < log[j].from)
    && (forall i :: 0 <= i < |log| && log[i].request.Some? ==>
      log[i].request.value.id == log[i].id && log[i].request.value.expected == log[i].from)
    && (forall id :: id in db ==> db[id].version == 1 + EffectsOn(log, id))
    && (forall id :: id !in db ==> EffectsOn(log, id) == 0)
  }

  lemma EffectKeepsLog(db: Db, log: seq<Effect>, id: string, expected: int, c: Change, request: Option<Request>)
    requires LogOk(db, log) && Mutate(db, id, expected, c).Ok?
    requires request.Some? ==> request.value.id == id && request.value.expected == expected
    ensures LogOk(Mutate(db, id, expected, c).value, log + [Effect(id, expected, request)])
  {
    var log' := log + [Effect(id, expected, request)];
    assert log'[..|log|] == log;
    forall other
      ensures EffectsOn(log', other) == EffectsOn(log, other) + if other == id then 1 else 0
    {
    }
  }

  lemma StepKeepsLog(w: World, a: Step)
    requires LogOk(w.db, w.log) && Enabled(w, a)
    ensures LogOk(Next(w, a).db, Next(w, a).log)
  {
    match a
    case Foreign(id, expected, c) => EffectKeepsLog(w.db, w.log, id, expected, c, None);
    case Commit(t) =>
      var r := w.threads[t].request;
      if Mutate(w.db, r.id, r.expected, ChangeOf(r)).Ok? {
        EffectKeepsLog(w.db, w.log, r.id, r.expected, ChangeOf(r), Some(r));
      }
    case _ =>
  }

  lemma {:induction false} RunKeepsLog(w: World, run: seq<Step>)
    requires LogOk(w.db, w.log) && ValidRun(w, run)
    ensures LogOk(After(w, run).db, After(w, run).log)
    decreases |run|
  {
    if run != [] {
      StepKeepsLog(w, run[0]);
      RunKeepsLog(Next(w, run[0]), run[1..]);
    }
  }

  /**
   Any number of retries of one request, interleaved step by step with anything else and with saves of its
   idempotency snapshot failing at will, takes effect at most once, and every version is 1 plus the number of
   effects on its record.
   */
  lemma AppliedAtMostOnce(run: seq<Step>, i: nat, j: nat)
    requires ValidRun(START, run)
    requires i < |After(START, run).log| && j < |After(START, run).log|
    requires After(START, run).log[i].request.Some?
      && After(START, run).log[i].request == After(START, run).log[j].request
    ensures i == j
  {
    RunKeepsLog(START, run);
  }

  lemma VersionsCountEffects(run: seq<Step>, id: string)
    requires ValidRun(START, run) && id in After(START, run).db
    ensures After(START, run).db[id].version == 1 + EffectsOn(After(START, run).log, id)
  {
    RunKeepsLog(START, run);
  }
}
