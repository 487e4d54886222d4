/**
 Session state: the two transitions, the in-memory store, the Postgres row form of the same
 transitions, and one gateway's caching registry.

 Times are nanoseconds since the zero time, which is 0.
 */
module SessionStore {
  import opened Scopes
  import opened Records

  const ZERO_TIME := 0

  datatype Status = Active | Closed

  datatype SessionState = SessionState(scope: Scope, status: Status, mode: string, closedAt: int, lastHeartbeatAt: int)

  type Entries = map<string, SessionState>

  predicate IsClosed(s: Option<SessionState>)
  {
    s.Some? && s.value.status.Closed?
  }

  /** Close: the first close wins and keeps the last heartbeat. */
  function AfterClose(existing: Option<SessionState>, scope: Scope, mode: string, now: int): SessionState
  {
    if IsClosed(existing) then existing.value
    else SessionState(scope, Closed, mode, now, if existing.Some? then existing.value.lastHeartbeatAt else ZERO_TIME)
  }

  /** Heartbeat: registers or refreshes an active session, and leaves a closed one alone. */
  function AfterHeartbeat(existing: Option<SessionState>, scope: Scope, now: int): SessionState
  {
    if IsClosed(existing) then existing.value else SessionState(scope, Active, "", ZERO_TIME, now)
  }

  function Find(entries: Entries, s: Scope): Option<SessionState>
  {
    if ScopeKey(s) in entries then Some(entries[ScopeKey(s)]) else None
  }

  class MemorySessionStateStore {
    var entries: Entries

    constructor ()
      ensures entries == map[]
    {
      entries := map[];
    }

    method LoadSessionState(s: Scope) returns (state: Option<SessionState>)
      ensures state == Find(entries, s)
    {
      if ScopeKey(s) in entries {
        return Some(entries[ScopeKey(s)]);
      }
      return None;
    }

    method SaveClosedSession(s: Scope, mode: string, now: int) returns (state: SessionState)
      modifies this
      ensures state == AfterClose(old(Find(entries, s)), s, mode, now)
      ensures entries == old(entries)[ScopeKey(s) := state]
    {
      var key := ScopeKey(s);
      if key in entries && entries[key].status.Closed? {
        return entries[key];
      }
      state := SessionState(s, Closed, mode, now, ZERO_TIME);
      if key in entries {
        state := state.(lastHeartbeatAt := entries[key].lastHeartbeatAt);
      }
      entries := entries[key := state];
    }

    method SaveHeartbeat(s: Scope, now: int) returns (state: SessionState)
      modifies this
      ensures state == AfterHeartbeat(old(Find(entries, s)), s, now)
      ensures entries == old(entries)[ScopeKey(s) := state]
    {
      var key := ScopeKey(s);
      if key in entries && entries[key].status.Closed? {
        return entries[key];
      }
      state := SessionState(s, Active, "", ZERO_TIME, now);
      entries := entries[key := state];
    }
  }

  /** A gateway's registry: a cache that is filled on every answer of the store and never re-validated. */
  class SessionRegistry {
    const store: MemorySessionStateStore
    var cache: Entries

    /** Every cached state is the stored one. */
    ghost predicate Coherent()
      reads this, store
    {
      forall key :: key in cache ==> key in store.entries && cache[key] == store.entries[key]
    }

    constructor (store: MemorySessionStateStore)
      ensures this.store == store && cache == map[] && Coherent()
    {
      this.store := store;
      cache := map[];
    }

    /** `up` says whether the store answers; a cached state is returned without asking it. */
    method Get(s: Scope, up: bool) returns (r: Result<Option<SessionState>>)
      modifies this
      ensures r == if ScopeKey(s) in old(cache) then Ok(Some(old(cache)[ScopeKey(s)]))
                   else if up then Ok(Find(store.entries, s)) else Err(Unavailable)
      ensures cache == if r.Ok? && r.value.Some? then old(cache)[ScopeKey(s) := r.value.value] else old(cache)
      ensures old(Coherent()) ==> Coherent() && (r.Ok? ==> r.value == Find(store.entries, s))
    {
      var key := ScopeKey(s);
      if key in cache {
        return Ok(Some(cache[key]));
      }
      if !up {
        return Err(Unavailable);
      }
      var state := store.LoadSessionState(s);
      if state.Some? {
        cache := cache[key := state.value];
      }
      return Ok(state);
    }

    method Close(s: Scope, mode: string, now: int, up: bool) returns (r: Result<SessionState>)
      modifies this, store
      ensures r == if up then Ok(AfterClose(old(Find(store.entries, s)), s, mode, now)) else Err(Unavailable)
      ensures store.entries == if up then old(store.entries)[ScopeKey(s) := r.value] else old(store.entries)
      ensures cache == if up then old(cache)[ScopeKey(s) := r.value] else old(cache)
      ensures old(Coherent()) ==> Coherent()
    {
      if !up {
        return Err(Unavailable);
      }
      var state := store.SaveClosedSession(s, mode, now);
      cache := cache[ScopeKey(s) := state];
      return Ok(state);
    }

    method Heartbeat(s: Scope, now: int, up: bool) returns (r: Result<SessionState>)
      modifies this, store
      ensures r == if up then Ok(AfterHeartbeat(old(Find(store.entries, s)), s, now)) else Err(Unavailable)
      ensures store.entries == if up then old(store.entries)[ScopeKey(s) := r.value] else old(store.entries)
      ensures cache == if up then old(cache)[ScopeKey(s) := r.value] else old(cache)
      ensures old(Coherent()) ==> Coherent()
    {
      if !up {
        return Err(Unavailable);
      }
      var state := store.SaveHeartbeat(s, now);
      cache := cache[ScopeKey(s) := state];
      return Ok(state);
    }
  }

  // The session table. Its primary key is the four scope columns, and two columns are nullable.

  datatype Row = Row(status: Status, mode: string, closedAt: Option<int>, lastHeartbeatAt: Option<int>)

  type Table = map<Scope, Row>

  function UpsertClosed(row: Option<Row>, mode: string, now: int): Row
  {
    if row.None? then Row(Closed, mode, Some(now), None)
    else
      var was := row.value;
      Row(if was.status.Closed? then was.status else Closed,
          if was.status.Closed? then was.mode else mode,
          if was.status.Closed? then was.closedAt else Some(now),
          was.lastHeartbeatAt)
  }

  function UpsertHeartbeat(row: Option<Row>, now: int): Row
  {
    if row.None? then Row(Active, "", None, Some(now))
    else
      var was := row.value;
      Row(if was.status.Closed? then was.status else Active,
          if was.status.Closed? then was.mode else "",
          if was.status.Closed? then was.closedAt else None,
          if was.status.Closed? then was.lastHeartbeatAt else Some(now))
  }

  function FindRow(table: Table, s: Scope): Option<Row>
  {
    if s in table then Some(table[s]) else None
  }

  /** What a load of the row returns; NULL times read as the zero time. */
  function Scanned(row: Option<Row>, s: Scope): Option<SessionState>
  {
    if row.None? then None
    else
      var r := row.value;
      Some(SessionState(s, r.status, r.mode, Or(r.closedAt, ZERO_TIME), Or(r.lastHeartbeatAt, ZERO_TIME)))
  }

  datatype Op = CloseOp(scope: Scope, mode: string, now: int) | HeartbeatOp(scope: Scope, now: int)

  function ApplyMemory(entries: Entries, op: Op): Entries
  {
    var before := Find(entries, op.scope);
    entries[ScopeKey(op.scope) :=
      match op
      case CloseOp(s, mode, now) => AfterClose(before, s, mode, now)
      case HeartbeatOp(s, now) => AfterHeartbeat(before, s, now)]
  }

  function ApplyTable(table: Table, op: Op): Table
  {
    var before := FindRow(table, op.scope);
    table[op.scope :=
      match op
      case CloseOp(s, mode, now) => UpsertClosed(before, mode, now)
      case HeartbeatOp(s, now) => UpsertHeartbeat(before, now)]
  }

  function RunMemory(ops: seq<Op>): Entries
  {
    if ops == [] then map[] else ApplyMemory(RunMemory(ops[..|ops| - 1]), ops[|ops| - 1])
  }

  function RunTable(ops: seq<Op>): Table
  {
    if ops == [] then map[] else ApplyTable(RunTable(ops[..|ops| - 1]), ops[|ops| - 1])
  }

  ghost predicate StoresAgree(ops: seq<Op>, s: Scope)
  {
    Find(RunMemory(ops), s) == Scanned(FindRow(RunTable(ops), s), s)
  }

  /** No operation is on another scope with the same key. */
  ghost predicate NoForeignOps(ops: seq<Op>, s: Scope)
  {
    forall i :: 0 <= i < |ops| && ScopeKey(ops[i].scope) == ScopeKey(s) ==> ops[i].scope == s
  }

  lemma {:induction false} TableSimulatesMemory(ops: seq<Op>, s: Scope)
    requires NoForeignOps(ops, s)
    ensures StoresAgree(ops, s)
  {
    if ops != [] {
      TableSimulatesMemory(ops[..|ops| - 1], s);
    }
  }

  // What a load tells of the operations made.

  predicate IsClose(ops: seq<Op>, s: Scope, i: nat)
  {
    i < |ops| && ops[i].CloseOp? && ops[i].scope == s
  }

  predicate IsBeat(ops: seq<Op>, s: Scope, i: nat)
  {
    i < |ops| && ops[i].HeartbeatOp? && ops[i].scope == s
  }

  ghost predicate FirstClose(ops: seq<Op>, s: Scope, c: nat)
  {
    IsClose(ops, s, c) && forall i: nat :: i < c ==> !IsClose(ops, s, i)
  }

  /** `at` is the time of the last heartbeat before `n`, or the zero time if there is none. */
  ghost predicate LastBeat(ops: seq<Op>, s: Scope, n: nat, at: int)
  {
    || (at == 0 && forall i: nat :: i < n ==> !IsBeat(ops, s, i))
    || exists b: nat :: b < n && IsBeat(ops, s, b) && ops[b].now == at
                        && forall i: nat :: b < i < n ==> !IsBeat(ops, s, i)
  }

  /**
   Closed in the mode and at the time of the first close, with the last heartbeat before it; without a close, active
   with the last heartbeat of all; unknown if nothing was done.
   */
  ghost predicate Tells(ops: seq<Op>, s: Scope, state: Option<SessionState>)
  {
    && (state.None? <==> forall i: nat :: !IsClose(ops, s, i) && !IsBeat(ops, s, i))
    && (state.Some? && state.value.status.Closed? <==> exists c: nat :: IsClose(ops, s, c))
    && (state.Some? ==> state.value.scope == s)
    && (state.Some? && state.value.status.Closed? ==>
          exists c: nat :: FirstClose(ops, s, c) && state.value.mode == ops[c].mode
            && state.value.closedAt == ops[c].now
                           && LastBeat(ops, s, c, state.value.lastHeartbeatAt))
    && (state.Some? && state.value.status.Active? ==>
          state.value.mode == "" && state.value.closedAt == 0 && LastBeat(ops, s, |ops|, state.value.lastHeartbeatAt))
  }

  lemma SameBefore(ops: seq<Op>, op: Op, s: Scope)
    ensures forall i: nat :: i < |ops| ==> (IsClose(ops + [op], s, i) <==> IsClose(ops, s, i))
                                           && (IsBeat(ops + [op], s, i) <==> IsBeat(ops, s, i))
  {
  }

  lemma LastBeatPersists(ops: seq<Op>, op: Op, s: Scope, n: nat, at: int)
    requires LastBeat(ops, s, n, at) && n <= |ops|
    ensures LastBeat(ops + [op], s, n, at)
    ensures n == |ops| && !IsBeat(ops + [op], s, n) ==> LastBeat(ops + [op], s, n + 1, at)
  {
    SameBefore(ops, op, s);
    if b: nat :| b < n && IsBeat(ops, s, b) && ops[b].now == at && forall i: nat :: b < i < n ==> !IsBeat(ops, s, i) {
      assert IsBeat(ops + [op], s, b);
    }
  }

  lemma ClosedKeepsTelling(ops: seq<Op>, op: Op, s: Scope, state: SessionState)
    requires Tells(ops, s, Some(state)) && state.status.Closed?
    ensures Tells(ops + [op], s, Some(state))
  {
    SameBefore(ops, op, s);
    var c: nat :| FirstClose(ops, s, c) && state.mode == ops[c].mode && state.closedAt == ops[c].now
      && LastBeat(ops, s, c, state.lastHeartbeatAt);
    LastBeatPersists(ops, op, s, c, state.lastHeartbeatAt);
    assert FirstClose(ops + [op], s, c);
  }

  lemma NewlyTells(ops: seq<Op>, op: Op, s: Scope, was: Option<SessionState>)
    requires Tells(ops, s, was) && !IsClosed(was) && op.scope == s
    ensures Tells(ops + [op], s, Some(if op.CloseOp? then AfterClose(was, s, op.mode, op.now)
                                      else AfterHeartbeat(was, s, op.now)))
  {
    var n: nat := |ops|;
    SameBefore(ops, op, s);
    var at := if was.Some? then was.value.lastHeartbeatAt else 0;
    assert LastBeat(ops, s, n, at);
    LastBeatPersists(ops, op, s, n, at);
    if op.CloseOp? {
      assert IsClose(ops + [op], s, n) && FirstClose(ops + [op], s, n);
    } else {
      assert IsBeat(ops + [op], s, n);
      assert LastBeat(ops + [op], s, n + 1, op.now);
    }
  }

  lemma OthersKeepTelling(ops: seq<Op>, op: Op, s: Scope, state: Option<SessionState>)
    requires Tells(ops, s, state) && op.scope != s
    ensures Tells(ops + [op], s, state)
  {
    SameBefore(ops, op, s);
    if IsClosed(state) {
      ClosedKeepsTelling(ops, op, s, state.value);
    } else if state.Some? {
      LastBeatPersists(ops, op, s, |ops|, state.value.lastHeartbeatAt);
    }
  }

  /** After any operations, none on another scope of the same key, a load tells exactly what they were. */
  lemma {:induction false} LoadTellsHistory(ops: seq<Op>, s: Scope)
    requires NoForeignOps(ops, s)
    ensures Tells(ops, s, Find(RunMemory(ops), s))
  {
    if ops != [] {
      var front, op := ops[..|ops| - 1], ops[|ops| - 1];
      LoadTellsHistory(front, s);
      var was := Find(RunMemory(front), s);
      assert front + [op] == ops;
      if op.scope != s {
        OthersKeepTelling(front, op, s, was);
      } else if IsClosed(was) {
        ClosedKeepsTelling(front, op, s, was.value);
      } else {
        NewlyTells(front, op, s, was);
      }
    }
  }

  /** A close of another scope with the same key sets the stores apart. */
  lemma ForeignCloseSetsApart(s: Scope, t: Scope)
    requires t != s && ScopeKey(t) == ScopeKey(s)
    ensures !StoresAgree([CloseOp(t, "expire_working", 1)], s)
  {
    var op := CloseOp(t, "expire_working", 1);
    assert [op][..|[op]| - 1] == [];
    assert RunMemory([op]) == ApplyMemory(map[], op) && RunTable([op]) == ApplyTable(map[], op);
  }

  /**
   After any operations the in-memory store and the table answer a load of `s` alike exactly when `s` is
   pipe-free: the memory key joins the columns that the table keeps apart.
   */
  lemma StoresAgreeExactly(s: Scope)
    ensures (forall ops :: StoresAgree(ops, s)) <==> PipeFree(s)
  {
    ScopeKeyUnique(s);
    if PipeFree(s) {
      forall ops
        ensures StoresAgree(ops, s)
      {
        TableSimulatesMemory(ops, s);
      }
    } else {
      ShiftedCollides(s);
      ForeignCloseSetsApart(s, Shifted(s));
    }
  }

  /** The handlers refuse to close, or to keep alive, a scope that names no session. */
  predicate Named(ops: seq<Op>)
  {
    forall i :: 0 <= i < |ops| ==> ops[i].scope.sessionId != ""
  }

  /** After the operations that the handlers make, exactly when `s` is pipe-free or its one pipe ends the session id. */
  lemma StoresAgreeInUse(s: Scope)
    ensures (forall ops :: Named(ops) ==> StoresAgree(ops, s)) <==> PipeFree(s) || OnlyPipeEndsSession(s)
  {
    SessionOwnedExactly(s);
    if SessionOwned(s) {
      forall ops | Named(ops)
        ensures StoresAgree(ops, s)
      {
        TableSimulatesMemory(ops, s);
      }
    } else {
      var t :| ScopeKey(t) == ScopeKey(s) && t.sessionId != "" && t != s;
      ForeignCloseSetsApart(s, t);
      assert Named([CloseOp(t, "expire_working", 1)]);
    }
  }

  /** Once closed, no later operation, on this or any other scope, changes what a load of `s` returns. */
  lemma {:induction false} ClosedStaysClosed(ops: seq<Op>, more: seq<Op>, s: Scope)
    requires IsClosed(Find(RunMemory(ops), s))
    ensures Find(RunMemory(ops + more), s) == Find(RunMemory(ops), s)
  {
    if more == [] {
      assert ops + more == ops;
    } else {
      var n := |more| - 1;
      ClosedStaysClosed(ops, more[..n], s);
      assert (ops + more)[..|ops + more| - 1] == ops + more[..n];
    }
  }
}
