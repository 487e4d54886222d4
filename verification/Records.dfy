/**
 The durable record backend, as far as the gateway relies on it.

 A record is created at version 1. A mutation applies only when the caller's expected version is the
 stored one, and then adds 1. `GetRecord` hides deleted and disabled records; the other read does not.
 Recall marks access without touching the version.
 */
module Records {
  import opened Scopes

  datatype Option<+T> = None | Some(value: T)

  datatype BackendError = NotFound | VersionConflict | IdempotencyConflict | Unavailable

  datatype Result<+T> = Ok(value: T) | Err(error: BackendError)

  datatype Kind = Working | Episodic | Semantic

  datatype Access = Access(hitCount: nat, lastAccessAt: Option<int>)

  datatype Record = Record(
    memoryId: string, scope: Scope, kind: Kind, source: string, category: string, content: string,
    tags: seq<string>, importance: real, pinned: bool, disabled: bool, deleted: bool, version: int, access: Access)

  type Db = map<string, Record>

  predicate Visible(r: Record)
  {
    !r.deleted && !r.disabled
  }

  function GetRecord(db: Db, id: string): Result<Record>
  {
    if id in db && Visible(db[id]) then Ok(db[id]) else Err(NotFound)
  }

  function GetRecordIncludingHidden(db: Db, id: string): Result<Record>
  {
    if id in db then Ok(db[id]) else Err(NotFound)
  }

  datatype Change =
    | SetPinned(pinned: bool)
    | SetDisabled(disabled: bool)
    | MarkDeleted
    | Edit(content: string, category: string, tags: seq<string>, importance: real)
    | Promote

  function Or<T>(o: Option<T>, default: T): T
  {
    if o.Some? then o.value else default
  }

  function Changed(r: Record, c: Change): Record
  {
    var r' := r.(version := r.version + 1);
    match c
    case SetPinned(b) => r'.(pinned := b)
    case SetDisabled(b) => r'.(disabled := b)
    case MarkDeleted => r'.(deleted := true)
    case Edit(content, category, tags, importance) =>
      r'.(content := if content == "" then r.content else content,
          category := if category == "" then r.category else category,
          tags := if tags == [] then r.tags else tags,
          importance := if importance == 0.0 then r.importance else importance)
    case Promote => r'.(kind := Episodic)
  }

  function Mutate(db: Db, id: string, expected: int, c: Change): Result<Db>
  {
    if id !in db then Err(NotFound)
    else if db[id].version != expected then Err(VersionConflict)
    else Ok(db[id := Changed(db[id], c)])
  }

  /** Equal up to the access marks, which recall moves without a version. */
  predicate SameContent(r: Record, r': Record)
  {
    r' == r.(access := r'.access)
  }

  /** What any other activity on the backend may do between two of our calls. */
  ghost predicate Evolves(db: Db, db': Db)
  {
    forall id :: id in db ==> id in db' && (SameContent(db[id], db'[id]) || db[id].version < db'[id].version)
  }

  lemma EvolvesTransitive(a: Db, b: Db, c: Db)
    requires Evolves(a, b) && Evolves(b, c)
    ensures Evolves(a, c)
  {
    forall id | id in a
      ensures id in c && (SameContent(a[id], c[id]) || a[id].version < c[id].version)
    {
      assert id in b;
    }
  }
}
