/**
 The sink's own code: the bounded channel, the writer loop, the retry loop, the shutdown drain and the
 counting loop, run by one writer. Until the drain, producers may record before any round and before any
 insert attempt.

 `sink` mirrors the fields in the protocol's terms. Every method shows that what it did is a run of the
 protocol, so the protocol's accounting, order and bounds hold of the counters the code keeps.
 */
module TraceSinkWriter {
  import opened TraceSink

  ghost predicate Reaches(s: Sink, s': Sink)
  {
    exists run :: ValidRun(s, run) && After(s, run) == s'
  }

  lemma {:induction false} RunThenStep(s: Sink, run: seq<Step>, a: Step)
    requires ValidRun(s, run) && Enabled(After(s, run), a)
    ensures ValidRun(s, run + [a]) && After(s, run + [a]) == Next(After(s, run), a)
    decreases |run|
  {
    if run == [] {
      assert run + [a] == [a];
      assert [a][1..] == [];
      assert ValidRun(Next(s, a), []);
    } else {
      RunThenStep(Next(s, run[0]), run[1..], a);
      assert (run + [a])[1..] == run[1..] + [a];
    }
  }

  lemma ReachesItself(s: Sink)
    ensures Reaches(s, s)
  {
    assert ValidRun(s, []) && After(s, []) == s;
  }

  lemma ReachesNext(s: Sink, s': Sink, a: Step)
    requires Reaches(s, s') && Enabled(s', a)
    ensures Reaches(s, Next(s', a))
  {
    var run :| ValidRun(s, run) && After(s, run) == s';
    RunThenStep(s, run, a);
  }

  lemma ReachedIsSound(s: Sink, s': Sink)
    requires Reaches(s, s') && Accounted(s) && Ordered(s) && Bounded(s) && Tried(s)
    ensures Accounted(s') && Ordered(s') && Bounded(s') && Tried(s')
  {
    var run :| ValidRun(s, run) && After(s, run) == s';
    RunKeepsAccounts(s, run);
    RunKeepsOrderAndBounds(s, run);
    RunKeepsTried(s, run);
  }

  /**
   What a flush meets: whether each insert call succeeds, whether the context ends in the backoff after it, and
   whether the drain's deadline has passed once the flush is over.
   */
  datatype Conditions = Conditions(inserts: nat -> bool, ends: nat -> bool, late: bool)

  /** Some attempt succeeds, and the context does not end in a backoff before it. */
  ghost predicate Succeeds(c: Conditions, attempts: nat)
  {
    exists k: nat :: k < attempts && c.inserts(k) && forall j: nat :: j < k ==> !c.ends(j)
  }

  /** The context ends in a backoff, before any attempt has succeeded and before the last one. */
  ghost predicate EndsEarly(c: Conditions, attempts: nat)
  {
    exists k: nat :: k + 1 < attempts && c.ends(k) && forall j: nat :: j <= k ==> !c.inserts(j)
  }

  /** The loop stops after `made` attempts: on a success, at the end of the context, or with all of them used up. */
  ghost predicate StopsAfter(c: Conditions, attempts: nat, made: nat, ok: bool, cancelled: bool)
  {
    && 1 <= made <= attempts
    && (forall j: nat :: j < made - 1 ==> !c.inserts(j) && !c.ends(j))
    && (ok <==> c.inserts(made - 1))
    && (cancelled <==> !ok && made < attempts && c.ends(made - 1))
    && (ok || cancelled || made == attempts)
  }

  /** The first `made` attempts have failed, and the context has not ended in the backoffs between them. */
  ghost predicate NoneYet(c: Conditions, attempts: nat, made: nat)
  {
    made <= attempts && forall j: nat :: j < made ==> !c.inserts(j) && (j + 1 < attempts ==> !c.ends(j))
  }

  lemma OneMoreAttempt(c: Conditions, attempts: nat, made: nat, ok: bool, cancelled: bool)
    requires NoneYet(c, attempts, made) && made < attempts
    requires ok == c.inserts(made) && cancelled == (!ok && made + 1 < attempts && c.ends(made))
    ensures if ok || cancelled || made + 1 == attempts then StopsAfter(c, attempts, made + 1, ok, cancelled)
            else NoneYet(c, attempts, made + 1)
  {
  }

  lemma StopTellsSuccess(c: Conditions, attempts: nat, made: nat, ok: bool, cancelled: bool)
    requires StopsAfter(c, attempts, made, ok, cancelled)
    ensures ok <==> Succeeds(c, attempts)
    ensures cancelled <==> !ok && EndsEarly(c, attempts)
  {
    var last: nat := made - 1;
    assert ok ==> last < attempts && c.inserts(last);
    assert cancelled ==> last + 1 < attempts && c.ends(last);
  }

  /** The insert calls of one flush: the same rows each time, numbered from 0. */
  function Numbered(batch: seq<Ticket>, made: nat): (calls: seq<Call>)
    ensures |calls| == made && forall i :: 0 <= i < made ==> calls[i] == Call(batch, i)
  {
    seq(made, i requires 0 <= i < made => Call(batch, i))
  }

  /** From `s` to `s'` the writer has made so many insert calls with its batch, and counted nothing. */
  predicate OnlyTried(s: Sink, s': Sink, made: nat, producing: bool)
  {
    && s'.calls == s.calls + Numbered(s.batch, made)
    && s'.dbError == s.dbError && s'.shutdown == s.shutdown
    && s'.droppedDbError == s.droppedDbError && s'.droppedShutdown == s.droppedShutdown && s.channel <= s'.channel
    && (!producing ==>
          s'.channel == s.channel && s'.recorded == s.recorded && s'.droppedBufferFull == s.droppedBufferFull)
  }

  lemma OneMoreTry(s: Sink, s': Sink, made: nat, producing: bool, resume: Resume)
    requires OnlyTried(s, s', made, producing) && s'.pc == Inserting(made, resume) && s'.batch == s.batch
    requires s'.cfg.hasInsert
    ensures forall ok, cancelled :: OnlyTried(s, Attempted(s', ok, cancelled), made + 1, producing)
  {
    assert Numbered(s.batch, made + 1) == Numbered(s.batch, made) + [Call(s.batch, made)];
  }

  datatype BatchFate = Inserted | DbDrop | ShutdownDrop

  /** What becomes of a batch flushed by the drain. */
  ghost function FateOf(cfg: Config, c: Conditions): BatchFate
  {
    if !cfg.hasInsert || Succeeds(c, cfg.attempts) then Inserted
    else if c.late || EndsEarly(c, cfg.attempts) then ShutdownDrop
    else DbDrop
  }

  function Concat(batches: seq<seq<Ticket>>): seq<Ticket>
  {
    if batches == [] then [] else Concat(batches[..|batches| - 1]) + batches[|batches| - 1]
  }

  /** The rows of the batches that meet this fate, the i-th batch being flushed under `flushes(i)`. */
  ghost function RowsWith(cfg: Config, batches: seq<seq<Ticket>>, flushes: nat -> Conditions, f: BatchFate): seq<Ticket>
  {
    if batches == [] then []
    else
      var n := |batches| - 1;
      RowsWith(cfg, batches[..n], flushes, f) + if FateOf(cfg, flushes(n)) == f then batches[n] else []
  }

  lemma OneMoreBatch(cfg: Config, batches: seq<seq<Ticket>>, batch: seq<Ticket>, flushes: nat -> Conditions)
    ensures Concat(batches + [batch]) == Concat(batches) + batch
    ensures forall f :: RowsWith(cfg, batches + [batch], flushes, f)
                        == RowsWith(cfg, batches, flushes, f)
                           + if FateOf(cfg, flushes(|batches|)) == f then batch else []
  {
    assert (batches + [batch])[..|batches|] == batches;
  }

  /** What a drain meets: whether its deadline has passed at each check, and the conditions of each flush. */
  datatype Plan = Plan(deadline: nat -> bool, flushes: nat -> Conditions)

  /** The deadline is seen at check `d`, one of the first `n + 1`, and at none before. */
  predicate StopsAt(plan: Plan, n: nat, d: nat)
  {
    d <= n && plan.deadline(d) && forall j: nat :: j < d ==> !plan.deadline(j)
  }

  /**
   How a drain cuts the rows it finds, `pending` and then the channel, into batches: full ones, in order. Seeing the
   deadline at check `d`, it has received `d` rows from the channel, and what does not fill a batch is left. Never
   seeing it, nothing is left, and the last batch may be shorter.
   */
  ghost predicate Cut(size: nat, pending: seq<Ticket>, channel: seq<Ticket>, plan: Plan, batches: seq<seq<Ticket>>)
  {
    var flushed := Concat(batches);
    && flushed <= pending + channel
    && (forall i :: 0 <= i < |batches| ==> 0 < |batches[i]| <= size)
    && (forall i :: 0 <= i < |batches| - 1 ==> |batches[i]| == size)
    && (forall d: nat :: StopsAt(plan, |channel|, d) ==>
          && |flushed| <= |pending| + d < |flushed| + size
          && (batches != [] ==> |batches[|batches| - 1]| == size))
    && ((forall d: nat :: !StopsAt(plan, |channel|, d)) ==> flushed == pending + channel)
  }

  lemma HeadAndTail(s: seq<Ticket>)
    requires s != []
    ensures forall a: seq<Ticket> :: a + [s[0]] + s[1..] == a + s
  {
  }

  lemma CutAtDeadline(size: nat, pending: seq<Ticket>, channel: seq<Ticket>, plan: Plan, batches: seq<seq<Ticket>>,
                      batch: seq<Ticket>, rest: seq<Ticket>, received: nat)
    requires Concat(batches) + batch + rest == pending + channel && received + |rest| == |channel| && |batch| < size
    requires (forall i :: 0 <= i < |batches| ==> |batches[i]| == size) && StopsAt(plan, |channel|, received)
    ensures Cut(size, pending, channel, plan, batches)
    ensures |pending| + |channel| - |Concat(batches)| == |batch| + |rest|
  {
    assert forall d: nat :: StopsAt(plan, |channel|, d) ==> d == received;
    assert Concat(batches) + (batch + rest) == pending + channel;
  }

  lemma CutToTheEnd(size: nat, pending: seq<Ticket>, channel: seq<Ticket>, plan: Plan, batches: seq<seq<Ticket>>,
                    batch: seq<Ticket>)
    requires Concat(batches) + batch == pending + channel && |batch| < size
    requires forall i :: 0 <= i < |batches| ==> |batches[i]| == size
    requires forall j: nat :: j <= |channel| ==> !plan.deadline(j)
    ensures var all := if batch == [] then batches else batches + [batch];
            Cut(size, pending, channel, plan, all) && Concat(all) == pending + channel
  {
    assert (batches + [batch])[..|batches|] == batches;
  }

  /** One wake of the writer: by the ticker, or for a row; and what a flush meets then. */
  datatype Round = Round(tick: bool, conditions: Conditions)

  /** What the writer has, at one moment. */
  datatype Moment = Moment(channel: seq<Ticket>, batch: seq<Ticket>, inserted: seq<Ticket>, dbError: nat)

  /** Between two wakes producers may add to the channel, and nothing else changes. */
  predicate Idles(m: Moment, m': Moment)
  {
    m.channel <= m'.channel && m' == m.(channel := m'.channel)
  }

  /**
   One wake. The ticker flushes what is pending; a row joins it, and flushes it once full. What is flushed is inserted
   if an attempt succeeds in time, and otherwise counted as a database drop.
   */
  ghost predicate Wakes(cfg: Config, round: Round, m: Moment, m': Moment)
  {
    var receives := !round.tick && m.channel != [];
    var joined := if receives then m.batch + [m.channel[0]] else m.batch;
    var flushes := round.tick || |joined| >= cfg.batchSize;
    var ok := joined == [] || !cfg.hasInsert || Succeeds(round.conditions, cfg.attempts);
    && m'.batch == (if flushes then [] else joined)
    && (if receives then m.channel[1..] else m.channel) <= m'.channel
    && m'.inserted == m.inserted + (if flushes && ok then joined else [])
    && m'.dbError == m.dbError + (if flushes && !ok then |joined| else 0)
  }

  /** The writer's moment after the first `i` wakes. */
  function AfterWakes(m: Moment, after: seq<Moment>, i: nat): Moment
    requires i <= |after|
  {
    if i == 0 then m else after[i - 1]
  }

  ghost predicate WokenAt(cfg: Config, rounds: seq<Round>, m: Moment, before: seq<Moment>, after: seq<Moment>, i: nat)
    requires i < |rounds| && i < |before| && i < |after|
  {
    Idles(AfterWakes(m, after, i), before[i]) && Wakes(cfg, rounds[i], before[i], after[i])
  }

  /** The writer's moments before and after each wake, from `m` on. */
  ghost predicate WokenFrom(cfg: Config, rounds: seq<Round>, m: Moment, before: seq<Moment>, after: seq<Moment>)
  {
    && |before| == |after| <= |rounds|
    && forall i: nat :: i < |before| ==> WokenAt(cfg, rounds, m, before, after, i)
  }

  lemma OneMoreWake(cfg: Config, rounds: seq<Round>, m: Moment, before: seq<Moment>, after: seq<Moment>, b: Moment,
                    a: Moment)
    requires WokenFrom(cfg, rounds, m, before, after) && |before| < |rounds|
    requires Idles(AfterWakes(m, after, |after|), b) && Wakes(cfg, rounds[|before|], b, a)
    ensures WokenFrom(cfg, rounds, m, before + [b], after + [a])
  {
    forall i: nat | i < |before| + 1
      ensures WokenAt(cfg, rounds, m, before + [b], after + [a], i)
    {
      if i < |before| {
        assert WokenAt(cfg, rounds, m, before, after, i);
      }
    }
  }

  class PostgresDecisionTraceSink {
    const cfg: Config
    var recorded: nat
    var channel: seq<Ticket>
    var droppedBufferFull: nat
    var droppedDbError: nat
    var droppedShutdown: nat
    ghost var sink: Sink

    ghost predicate Valid()
      reads this
    {
      && cfg.bufferSize > 0 && cfg.batchSize > 0 && cfg.attempts > 0
      && sink.cfg == cfg && sink.recorded == recorded && sink.channel == channel
      && sink.droppedBufferFull == droppedBufferFull && sink.droppedDbError == droppedDbError
      && sink.droppedShutdown == droppedShutdown
      && sink.dropping == multiset{} && sink.taken == multiset{}
    }

    constructor (bufferSize: int, batchSize: int, backoffs: nat, hasInsert: bool)
      ensures Valid() && cfg == Configured(bufferSize, batchSize, backoffs, hasInsert) && sink == Start(cfg)
    {
      cfg := Configured(bufferSize, batchSize, backoffs, hasInsert);
      recorded, channel := 0, [];
      droppedBufferFull, droppedDbError, droppedShutdown := 0, 0, 0;
      sink := Start(Configured(bufferSize, batchSize, backoffs, hasInsert));
    }

    /** One protocol step of the mirrored state. */
    ghost method Do(a: Step, start: Sink)
      requires Enabled(sink, a) && Reaches(start, sink)
      modifies this`sink
      ensures sink == Next(old(sink), a) && Reaches(start, sink)
    {
      ReachesNext(start, sink, a);
      sink := Next(sink, a);
    }

    /** Never blocks: a full buffer drops the row and counts it. */
    method Record(ghost start: Sink)
      requires Valid() && Reaches(start, sink)
      modifies this
      ensures Valid() && Reaches(start, sink) && sink.pc == old(sink.pc) && sink.batch == old(sink.batch)
      ensures recorded == old(recorded) + 1
      ensures if |old(channel)| < cfg.bufferSize then
                channel == old(channel) + [old(recorded)] && droppedBufferFull == old(droppedBufferFull)
              else
                channel == old(channel) && droppedBufferFull == old(droppedBufferFull) + 1
      ensures SameButProduced(old(sink), sink)
    {
      var row := recorded;
      Do(TraceSink.Record, start);
      recorded := recorded + 1;
      if |channel| < cfg.bufferSize {
        channel := channel + [row];
      } else {
        Do(CountBufferFull(row), start);
        droppedBufferFull := droppedBufferFull + 1;
      }
    }

    /** Producers add to the channel and to the buffer-full class, and touch nothing of the writer's. */
    ghost predicate SameButProduced(s: Sink, s': Sink)
    {
      && s'.pc == s.pc && s'.batch == s.batch && s'.inserted == s.inserted && s'.calls == s.calls
      && s'.dbError == s.dbError && s'.shutdown == s.shutdown && s.channel <= s'.channel
      && s'.droppedDbError == s.droppedDbError && s'.droppedShutdown == s.droppedShutdown
    }

    /** Whatever producers do between two acts of the writer. */
    method Produce(calls: nat, ghost start: Sink)
      requires Valid() && Reaches(start, sink)
      modifies this
      ensures Valid() && Reaches(start, sink) && sink.pc == old(sink.pc) && sink.batch == old(sink.batch)
      ensures recorded == old(recorded) + calls && SameButProduced(old(sink), sink)
    {
      for i := 0 to calls
        invariant Valid() && Reaches(start, sink) && sink.pc == old(sink.pc) && sink.batch == old(sink.batch)
        invariant recorded == old(recorded) + i && SameButProduced(old(sink), sink)
      {
        Record(start);
      }
    }

    /** One attempt, after whatever producers have done since the last one, and the backoff that follows a failure. */
    method TryOnce(c: Conditions, attempt: nat, producing: bool, ghost begun: Sink, ghost resume: Resume,
                   ghost start: Sink)
      returns (ok: bool, cancelled: bool)
      requires Valid() && Reaches(start, sink) && sink.pc == Inserting(attempt, resume) && cfg.hasInsert
      requires OnlyTried(begun, sink, attempt, producing) && sink.batch == begun.batch && attempt < cfg.attempts
      modifies this
      ensures Valid() && Reaches(start, sink) && OnlyTried(begun, sink, attempt + 1, producing)
      ensures ok == c.inserts(attempt) && cancelled == (!ok && attempt + 1 < cfg.attempts && c.ends(attempt))
      ensures sink.batch == (if ok then [] else begun.batch)
        && sink.inserted == old(sink.inserted) + if ok then begun.batch else []
      ensures sink.pc == if ok then Resumed(resume)
                         else if cancelled || attempt + 1 == cfg.attempts then Failed(cancelled, resume)
                         else Inserting(attempt + 1, resume)
    {
      if producing {
        var calls: nat := *;
        Produce(calls, start);
      }
      OneMoreTry(begun, sink, attempt, producing, resume);
      ok := c.inserts(attempt);
      cancelled := !ok && attempt + 1 < cfg.attempts && c.ends(attempt);
      Do(Attempt(ok, cancelled), start);
    }

    /** The loop itself: `made` is the number of attempts it makes. */
    method Retry(c: Conditions, producing: bool, ghost resume: Resume, ghost start: Sink)
      returns (ok: bool, cancelled: bool, ghost made: nat)
      requires Valid() && Reaches(start, sink) && sink.pc == Inserting(0, resume) && cfg.hasInsert
      modifies this
      ensures Valid() && Reaches(start, sink) && StopsAfter(c, cfg.attempts, made, ok, cancelled)
      ensures OnlyTried(old(sink), sink, made, producing)
      ensures sink.batch == (if ok then [] else old(sink.batch))
        && sink.inserted == old(sink.inserted) + if ok then old(sink.batch) else []
      ensures sink.pc == if ok then Resumed(resume) else Failed(cancelled, resume)
    {
      var attempt := 0;
      made := 0;
      ghost var begun := sink;
      while attempt < cfg.attempts
        invariant made == attempt <= cfg.attempts && Valid() && Reaches(start, sink)
          && OnlyTried(begun, sink, made, producing)
        invariant sink.batch == begun.batch && sink.inserted == begun.inserted
        invariant if attempt < cfg.attempts then NoneYet(c, cfg.attempts, attempt)
                  else StopsAfter(c, cfg.attempts, attempt, false, false)
        invariant sink.pc == if made < cfg.attempts then Inserting(made, resume) else Failed(false, resume)
      {
        ok, cancelled := TryOnce(c, attempt, producing, begun, resume, start);
        OneMoreAttempt(c, cfg.attempts, attempt, ok, cancelled);
        attempt, made := attempt + 1, made + 1;
        if ok || cancelled {
          return;
        }
      }
      return false, false, made;
    }

    /**
     The retry loop, under the conditions `c`; with no insert function there is nothing to try. `producing` says
     whether producers may still record meanwhile.
     */
    method TryInsert(c: Conditions, producing: bool, ghost resume: Resume, ghost start: Sink)
      returns (ok: bool, cancelled: bool, ghost made: nat)
      requires Valid() && Reaches(start, sink) && sink.pc == Inserting(0, resume)
      modifies this
      ensures Valid() && Reaches(start, sink) && OnlyTried(old(sink), sink, made, producing)
      ensures ok <==> !cfg.hasInsert || Succeeds(c, cfg.attempts)
      ensures cancelled <==> !ok && EndsEarly(c, cfg.attempts)
      ensures !ok && !cancelled ==> made == cfg.attempts
      ensures if cfg.hasInsert then StopsAfter(c, cfg.attempts, made, ok, cancelled) else made == 0
      ensures sink.batch == (if ok then [] else old(sink.batch))
        && sink.inserted == old(sink.inserted) + if ok then old(sink.batch) else []
      ensures sink.pc == if ok then Resumed(resume) else Failed(cancelled, resume)
    {
      if !cfg.hasInsert {
        made := 0;
        Do(Attempt(true, false), start);
        return true, false, made;
      }
      ok, cancelled, made := Retry(c, producing, resume, start);
      StopTellsSuccess(c, cfg.attempts, made, ok, cancelled);
    }

    /** The flush of the running writer: a batch that cannot be inserted is a database drop. */
    method Flush(batch: seq<Ticket>, c: Conditions, ghost start: Sink) returns (ok: bool)
      requires Valid() && Reaches(start, sink) && sink.batch == batch
      requires sink.pc == if batch == [] then Selecting else Inserting(0, ToSelect)
      modifies this
      ensures Valid() && Reaches(start, sink) && sink.pc == Selecting && sink.batch == [] && old(channel) <= channel
      ensures ok <==> batch == [] || !cfg.hasInsert || Succeeds(c, cfg.attempts)
      ensures sink.inserted == old(sink.inserted) + if ok then batch else []
      ensures droppedDbError == old(droppedDbError) + if ok then 0 else |batch|
      ensures droppedShutdown == old(droppedShutdown)
      ensures batch == [] ==> channel == old(channel)
    {
      if batch == [] {
        return true;
      }
      var cancelled;
      ghost var made;
      ok, cancelled, made := TryInsert(c, true, ToSelect, start);
      if !ok {
        Do(Classify(false), start);
        droppedDbError := droppedDbError + |batch|;
      }
    }

    /**
     The flush of the drain: it tells a database failure, all attempts made in time, from an exhausted budget, the
     context having ended in a backoff or before the end of the flush.
     */
    method FlushOne(batch: seq<Ticket>, c: Conditions, ghost resume: Resume, ghost start: Sink)
      returns (ghost fate: BatchFate)
      requires Valid() && Reaches(start, sink) && sink.batch == batch && !resume.ToSelect?
      requires sink.pc == if batch == [] then Resumed(resume) else Inserting(0, resume)
      modifies this
      ensures Valid() && Reaches(start, sink) && sink.pc == Resumed(resume) && sink.batch == []
      ensures channel == old(channel) && recorded == old(recorded) && droppedBufferFull == old(droppedBufferFull)
      ensures fate == FateOf(cfg, c)
      ensures sink.inserted == old(sink.inserted) + if fate.Inserted? then batch else []
      ensures droppedDbError == old(droppedDbError) + if fate.DbDrop? then |batch| else 0
      ensures droppedShutdown == old(droppedShutdown) + if fate.ShutdownDrop? then |batch| else 0
    {
      fate := FateOf(cfg, c);
      if batch == [] {
        return;
      }
      var ok, cancelled;
      ghost var made;
      ok, cancelled, made := TryInsert(c, false, resume, start);
      if !ok {
        var expired := cancelled || c.late;
        Do(Classify(expired), start);
        if expired {
          droppedShutdown := droppedShutdown + |batch|;
        } else {
          droppedDbError := droppedDbError + |batch|;
        }
      }
    }

    /** Drains the channel without inserting; called by the writer at the end and by an impatient Stop. */
    method CountRemainingAsShutdownDrops(ghost start: Sink)
      requires Valid() && Reaches(start, sink)
      modifies this
      ensures Valid() && Reaches(start, sink) && sink.pc == old(sink.pc) && sink.batch == old(sink.batch)
      ensures channel == [] && droppedShutdown == old(droppedShutdown) + |old(channel)|
      ensures recorded == old(recorded) && sink.inserted == old(sink.inserted)
      ensures droppedBufferFull == old(droppedBufferFull) && droppedDbError == old(droppedDbError)
    {
      while channel != []
        invariant Valid() && Reaches(start, sink) && sink.pc == old(sink.pc) && sink.batch == old(sink.batch)
        invariant droppedShutdown + |channel| == old(droppedShutdown) + |old(channel)|
        invariant recorded == old(recorded) && sink.inserted == old(sink.inserted)
        invariant droppedBufferFull == old(droppedBufferFull) && droppedDbError == old(droppedDbError)
        decreases |channel|
      {
        ghost var row := channel[0];
        Do(TakeForCount, start);
        channel := channel[1..];
        Do(CountTaken(row), start);
        droppedShutdown := droppedShutdown + 1;
      }
    }

    /** What the batches flushed so far have done to the counters and the inserted rows. */
    ghost predicate Drained(batches: seq<seq<Ticket>>, flushes: nat -> Conditions, inserted: seq<Ticket>, dbError: nat,
                            shutdown: nat)
      reads this
    {
      && sink.inserted == inserted + RowsWith(cfg, batches, flushes, Inserted)
      && droppedDbError == dbError + |RowsWith(cfg, batches, flushes, DbDrop)|
      && droppedShutdown == shutdown + |RowsWith(cfg, batches, flushes, ShutdownDrop)|
    }

    /** One more flush of the drain, as the next of its batches. */
    method FlushNext(batch: seq<Ticket>, flushes: nat -> Conditions, done: nat, ghost batches: seq<seq<Ticket>>,
                     ghost inserted: seq<Ticket>, ghost dbError: nat, ghost shutdown: nat, ghost resume: Resume,
                     ghost start: Sink)
      requires Valid() && Reaches(start, sink) && sink.batch == batch && batch != [] && !resume.ToSelect?
      requires sink.pc == Inserting(0, resume) && done == |batches|
      requires Drained(batches, flushes, inserted, dbError, shutdown)
      modifies this
      ensures Valid() && Reaches(start, sink) && sink.pc == Resumed(resume) && sink.batch == []
      ensures channel == old(channel) && recorded == old(recorded)
      ensures Drained(batches + [batch], flushes, inserted, dbError, shutdown)
      ensures Concat(batches + [batch]) == Concat(batches) + batch
    {
      OneMoreBatch(cfg, batches, batch, flushes);
      ghost var fate := FlushOne(batch, flushes(done), resume, start);
    }

    ghost predicate AllFull(batches: seq<seq<Ticket>>)
    {
      forall i :: 0 <= i < |batches| ==> |batches[i]| == cfg.batchSize
    }

    /** The drain takes the next row, and flushes the batch once it is full. */
    method ReceiveNext(pending: seq<Ticket>, flushes: nat -> Conditions, done: nat, ghost cut: seq<seq<Ticket>>,
                       ghost inserted: seq<Ticket>, ghost dbError: nat, ghost shutdown: nat, ghost start: Sink)
      returns (batch: seq<Ticket>, flushed: nat, ghost batches: seq<seq<Ticket>>)
      requires Valid() && Reaches(start, sink) && sink.pc == Draining && sink.batch == pending
        && |pending| < cfg.batchSize
      requires channel != [] && done == |cut| && AllFull(cut) && Drained(cut, flushes, inserted, dbError, shutdown)
      modifies this
      ensures Valid() && Reaches(start, sink) && sink.pc == Draining && sink.batch == batch && |batch| < cfg.batchSize
      ensures channel == old(channel)[1..] && recorded == old(recorded)
      ensures flushed == |batches| && AllFull(batches) && Drained(batches, flushes, inserted, dbError, shutdown)
      ensures Concat(batches) + batch == Concat(cut) + pending + [old(channel)[0]]
    {
      batch, flushed, batches := pending + [channel[0]], done, cut;
      Do(DrainReceive, start);
      channel := channel[1..];
      assert Concat(cut) + batch == Concat(cut) + pending + [old(channel)[0]];
      if |batch| >= cfg.batchSize {
        FlushNext(batch, flushes, done, cut, inserted, dbError, shutdown, ToDrain, start);
        batch, flushed, batches := [], done + 1, cut + [batch];
      }
    }

    /** The drain finds the channel empty, and flushes what it holds. */
    method FlushRest(batch: seq<Ticket>, flushes: nat -> Conditions, done: nat, ghost cut: seq<seq<Ticket>>,
                     ghost inserted: seq<Ticket>, ghost dbError: nat, ghost shutdown: nat, ghost start: Sink)
      requires Valid() && Reaches(start, sink) && sink.pc == Draining && sink.batch == batch && channel == []
      requires done == |cut| && Drained(cut, flushes, inserted, dbError, shutdown)
      modifies this
      ensures Valid() && Reaches(start, sink) && sink.pc == Counting && sink.batch == [] && channel == []
      ensures recorded == old(recorded)
      ensures Drained(if batch == [] then cut else cut + [batch], flushes, inserted, dbError, shutdown)
    {
      Do(DrainEmpty, start);
      if batch != [] {
        FlushNext(batch, flushes, done, cut, inserted, dbError, shutdown, ToCount, start);
      }
    }

    /** The loop takes rows until it sees the deadline or finds the channel empty. */
    method ReceiveAll(pending: seq<Ticket>, plan: Plan, ghost start: Sink)
      returns (batch: seq<Ticket>, received: nat, flushed: nat, ghost batches: seq<seq<Ticket>>)
      requires Valid() && Reaches(start, sink) && sink.pc == Draining && sink.batch == pending
        && |pending| < cfg.batchSize
      modifies this
      ensures Valid() && Reaches(start, sink) && sink.pc == Draining && sink.batch == batch && |batch| < cfg.batchSize
      ensures recorded == old(recorded) && received + |channel| == |old(channel)|
      ensures flushed == |batches| && AllFull(batches)
      ensures Drained(batches, plan.flushes, old(sink.inserted), old(droppedDbError), old(droppedShutdown))
      ensures Concat(batches) + batch + channel == pending + old(channel)
      ensures forall j: nat :: j < received ==> !plan.deadline(j)
      ensures plan.deadline(received) || channel == []
    {
      batch, received, flushed, batches := pending, 0, 0, [];
      ghost var inserted, dbError, shutdown, found := sink.inserted, droppedDbError, droppedShutdown, channel;
      while !plan.deadline(received) && channel != []
        invariant Valid() && Reaches(start, sink) && recorded == old(recorded)
        invariant sink.pc == Draining && sink.batch == batch && |batch| < cfg.batchSize
        invariant flushed == |batches| && received + |channel| == |found| && AllFull(batches)
        invariant Drained(batches, plan.flushes, inserted, dbError, shutdown)
        invariant Concat(batches) + batch + channel == pending + found
        invariant forall j: nat :: j < received ==> !plan.deadline(j)
        decreases |channel|
      {
        HeadAndTail(channel);
        batch, flushed, batches :=
          ReceiveNext(batch, plan.flushes, flushed, batches, inserted, dbError, shutdown, start);
        received := received + 1;
      }
    }

    /**
     With producers quiet the drain ends, with nothing left in the batch or the channel: it flushes the batches that
     the plan has it cut, and counts as shutdown drops what is left when it sees its deadline.
     */
    method DrainOnShutdown(pending: seq<Ticket>, plan: Plan, ghost start: Sink)
      returns (ghost batches: seq<seq<Ticket>>)
      requires Valid() && Reaches(start, sink) && sink.pc == Draining && sink.batch == pending
        && |pending| < cfg.batchSize
      modifies this
      ensures Valid() && Reaches(start, sink) && sink.pc == Finished
      ensures channel == [] && sink.batch == [] && recorded == old(recorded)
      ensures Cut(cfg.batchSize, pending, old(channel), plan, batches)
      ensures sink.inserted == old(sink.inserted) + RowsWith(cfg, batches, plan.flushes, Inserted)
      ensures droppedDbError == old(droppedDbError) + |RowsWith(cfg, batches, plan.flushes, DbDrop)|
      ensures droppedShutdown == old(droppedShutdown) + |RowsWith(cfg, batches, plan.flushes, ShutdownDrop)|
                                 + |pending| + |old(channel)| - |Concat(batches)|
    {
      ghost var found, inserted, dbError, shutdown := channel, sink.inserted, droppedDbError, droppedShutdown;
      var batch, received, flushed;
      batch, received, flushed, batches := ReceiveAll(pending, plan, start);
      if plan.deadline(received) {
        CutAtDeadline(cfg.batchSize, pending, found, plan, batches, batch, channel, received);
        Do(DrainDeadline, start);
        droppedShutdown := droppedShutdown + |batch|;
      } else {
        CutToTheEnd(cfg.batchSize, pending, found, plan, batches, batch);
        FlushRest(batch, plan.flushes, flushed, batches, inserted, dbError, shutdown, start);
        batches := if batch == [] then batches else batches + [batch];
      }
      CountRemainingAsShutdownDrops(start);
      Do(CountDone, start);
    }

    /** The writer's own fields, and the batch it holds. */
    ghost function Now(batch: seq<Ticket>): Moment
      reads this
    {
      Moment(channel, batch, sink.inserted, droppedDbError)
    }

    /** One wake of the writer. */
    method Wake(pending: seq<Ticket>, round: Round, ghost start: Sink) returns (batch: seq<Ticket>)
      requires Valid() && Reaches(start, sink) && sink.pc == Selecting && sink.batch == pending
        && |pending| < cfg.batchSize
      modifies this
      ensures Valid() && Reaches(start, sink) && sink.pc == Selecting && sink.batch == batch && |batch| < cfg.batchSize
      ensures droppedShutdown == old(droppedShutdown) && Wakes(cfg, round, old(Now(pending)), Now(batch))
    {
      batch := pending;
      if round.tick {
        if batch != [] {
          Do(TickFlush, start);
        }
        var ok := Flush(batch, round.conditions, start);
        batch := [];
      } else if channel != [] {
        batch := batch + [channel[0]];
        Do(Receive, start);
        channel := channel[1..];
        if |batch| >= cfg.batchSize {
          var ok := Flush(batch, round.conditions, start);
          batch := [];
        }
      }
    }

    /** The writer's loop, woken once a round. */
    method WakeAll(rounds: seq<Round>, ghost start: Sink)
      returns (batch: seq<Ticket>, ghost before: seq<Moment>, ghost after: seq<Moment>)
      requires Valid() && Reaches(start, sink) && sink.pc == Selecting && sink.batch == []
      modifies this
      ensures Valid() && Reaches(start, sink) && sink.pc == Selecting && sink.batch == batch && |batch| < cfg.batchSize
      ensures |before| == |rounds| && WokenFrom(cfg, rounds, old(Now([])), before, after)
      ensures Now(batch) == AfterWakes(old(Now([])), after, |rounds|) && droppedShutdown == old(droppedShutdown)
    {
      ghost var first := Now([]);
      batch, before, after := [], [], [];
      for i := 0 to |rounds|
        invariant Valid() && Reaches(start, sink)
        invariant sink.pc == Selecting && sink.batch == batch && |batch| < cfg.batchSize
        invariant |before| == i && WokenFrom(cfg, rounds, first, before, after)
        invariant Now(batch) == AfterWakes(first, after, i) && droppedShutdown == old(droppedShutdown)
      {
        var calls: nat := *;
        Produce(calls, start);
        ghost var b := Now(batch);
        batch := Wake(batch, rounds[i], start);
        OneMoreWake(cfg, rounds, first, before, after, b, Now(batch));
        before, after := before + [b], after + [Now(batch)];
      }
    }

    method WakeAndDrain(rounds: seq<Round>, plan: Plan, ghost start: Sink)
      returns (ghost before: seq<Moment>, ghost after: seq<Moment>, ghost batches: seq<seq<Ticket>>)
      requires Valid() && Reaches(start, sink) && sink.pc == Selecting && sink.batch == []
      modifies this
      ensures Valid() && Reaches(start, sink) && sink.pc == Finished && channel == [] && sink.batch == []
      ensures |before| == |rounds| && WokenFrom(cfg, rounds, old(Now([])), before, after)
      ensures DrainedFrom(AfterWakes(old(Now([])), after, |rounds|), plan, batches, old(droppedShutdown))
    {
      var batch;
      batch, before, after := WakeAll(rounds, start);
      Do(TraceSink.Shutdown, start);
      batches := DrainOnShutdown(batch, plan, start);
    }

    /** The drain begun at `m` has cut its rows into these batches, and each has met its fate. */
    ghost predicate DrainedFrom(m: Moment, plan: Plan, batches: seq<seq<Ticket>>, shutdown: nat)
      reads this
    {
      && Cut(cfg.batchSize, m.batch, m.channel, plan, batches)
      && sink.inserted == m.inserted + RowsWith(cfg, batches, plan.flushes, Inserted)
      && droppedDbError == m.dbError + |RowsWith(cfg, batches, plan.flushes, DbDrop)|
      && droppedShutdown == shutdown + |RowsWith(cfg, batches, plan.flushes, ShutdownDrop)|
                            + |m.batch| + |m.channel| - |Concat(batches)|
    }

    /**
     The writer, woken once a round before it sees the stop signal or the end of its context. When it returns,
     every row ever recorded was inserted or is in exactly one drop counter, and when all goes well the only rows
     dropped are those that found the buffer full.
     */
    method Run(rounds: seq<Round>, plan: Plan)
      returns (ghost before: seq<Moment>, ghost after: seq<Moment>, ghost batches: seq<seq<Ticket>>)
      requires Valid() && sink.pc == Selecting && sink.batch == []
      requires Accounted(sink) && Ordered(sink) && Bounded(sink) && Tried(sink)
      modifies this
      ensures Valid() && Reaches(old(sink), sink) && sink.pc == Finished
      ensures Accounted(sink) && Ordered(sink) && Bounded(sink) && Tried(sink)
      ensures channel == []
      ensures recorded == |sink.inserted| + droppedBufferFull + droppedDbError + droppedShutdown
      ensures |before| == |rounds| && WokenFrom(cfg, rounds, old(Now([])), before, after)
      ensures DrainedFrom(AfterWakes(old(Now([])), after, |rounds|), plan, batches, old(droppedShutdown))
      ensures AllGoesWell(cfg, rounds, plan) ==>
        droppedDbError == old(droppedDbError) && droppedShutdown == old(droppedShutdown)
    {
      ghost var start, first := sink, Now([]);
      ReachesItself(sink);
      before, after, batches := WakeAndDrain(rounds, plan, start);
      if AllGoesWell(cfg, rounds, plan) {
        NothingDropped(cfg, batches, plan.flushes);
        NothingDroppedAwake(cfg, rounds, first, before, after, |rounds|);
      }
      ReachedIsSound(start, sink);
    }
  }

  /** Every flush, awake or draining, can insert in time. */
  ghost predicate AllGoesWell(cfg: Config, rounds: seq<Round>, plan: Plan)
  {
    && (forall i :: 0 <= i < |rounds| ==> Succeeds(rounds[i].conditions, cfg.attempts))
    && (forall k :: !plan.deadline(k)) && (forall k :: Succeeds(plan.flushes(k), cfg.attempts))
  }

  lemma {:induction false} NothingDroppedAwake(cfg: Config, rounds: seq<Round>, m: Moment, before: seq<Moment>,
                                               after: seq<Moment>, n: nat)
    requires WokenFrom(cfg, rounds, m, before, after) && n <= |before|
    requires forall i :: 0 <= i < |rounds| ==> Succeeds(rounds[i].conditions, cfg.attempts)
    ensures AfterWakes(m, after, n).dbError == m.dbError
  {
    if n > 0 {
      NothingDroppedAwake(cfg, rounds, m, before, after, n - 1);
      assert WokenAt(cfg, rounds, m, before, after, n - 1);
    }
  }

  lemma {:induction false} NothingDropped(cfg: Config, batches: seq<seq<Ticket>>, flushes: nat -> Conditions)
    requires forall k :: Succeeds(flushes(k), cfg.attempts)
    ensures RowsWith(cfg, batches, flushes, DbDrop) == [] == RowsWith(cfg, batches, flushes, ShutdownDrop)
    ensures RowsWith(cfg, batches, flushes, Inserted) == Concat(batches)
  {
    if batches != [] {
      NothingDropped(cfg, batches[..|batches| - 1], flushes);
    }
  }
}
