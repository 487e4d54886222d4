/**
 The asynchronous decision-trace sink.

 Rows are named by ticket: row `n` is the one passed to the n-th call of Record, so two equal payloads
 are still two rows. A step is one atomic act of a producer, of the writer, or of a Stop call that counts
 what is left in the channel; a run is any interleaving of them.
 */
module TraceSink {

  type Ticket = nat

  datatype Config = Config(bufferSize: nat, batchSize: nat, attempts: nat, hasInsert: bool)

  /** Zero and negative sizes and an empty backoff list fall back to the defaults. */
  function Configured(bufferSize: int, batchSize: int, backoffs: nat, hasInsert: bool): (c: Config)
    ensures c.bufferSize == (if bufferSize > 0 then bufferSize else 1024) && c.bufferSize > 0
    ensures c.batchSize == (if batchSize > 0 then batchSize else 50) && c.batchSize > 0
    ensures c.attempts == (if backoffs > 0 then backoffs else 3) && c.attempts > 0
    ensures c.hasInsert == hasInsert
  {
    Config(if bufferSize <= 0 then 1024 else bufferSize, if batchSize <= 0 then 50 else batchSize,
           if backoffs == 0 then 3 else backoffs, hasInsert)
  }

  /** Where the writer goes after a flush. */
  datatype Resume = ToSelect | ToDrain | ToCount

  /** `Failed`: every attempt is used up, or the context ended during a backoff (`cancelled`). */
  datatype Pc =
    | Selecting
    | Inserting(attempt: nat, resume: Resume)
    | Failed(cancelled: bool, resume: Resume)
    | Draining
    | Counting
    | Finished

  datatype Call = Call(rows: seq<Ticket>, attempt: nat)

  /**
   `dropping` and `taken` hold rows between leaving the flow and being counted: refused by a full buffer,
   or received by a counting loop. The three classes are what the counters count.
   */
  datatype Sink = Sink(
    cfg: Config,
    recorded: nat,
    channel: seq<Ticket>,
    batch: seq<Ticket>,
    pc: Pc,
    inserted: seq<Ticket>,
    calls: seq<Call>,
    dropping: multiset<Ticket>,
    taken: multiset<Ticket>,
    bufferFull: multiset<Ticket>,
    dbError: multiset<Ticket>,
    shutdown: multiset<Ticket>,
    droppedBufferFull: nat,
    droppedDbError: nat,
    droppedShutdown: nat)

  datatype Step =
    | Record
    | CountBufferFull(t: Ticket)
    | Receive
    | TickFlush
    | Attempt(ok: bool, cancelled: bool)
    | Classify(expired: bool)
    | Shutdown
    | DrainReceive
    | DrainDeadline
    | DrainEmpty
    | TakeForCount
    | CountTaken(t: Ticket)
    | CountDone

  function Start(cfg: Config): Sink
  {
    Sink(cfg, 0, [], [], Selecting, [], [], multiset{}, multiset{}, multiset{}, multiset{}, multiset{}, 0, 0, 0)
  }

  predicate Enabled(s: Sink, a: Step)
  {
    match a
    case Record => true
    case CountBufferFull(t) => t in s.dropping
    case Receive => s.pc.Selecting? && s.channel != []
    case TickFlush => s.pc.Selecting? && s.batch != []
    case Attempt(ok, cancelled) => s.pc.Inserting? && (!s.cfg.hasInsert ==> ok)
    case Classify(expired) => s.pc.Failed? && (s.pc.cancelled && !s.pc.resume.ToSelect? ==> expired)
    case Shutdown => s.pc.Selecting?
    case DrainReceive => s.pc.Draining? && s.channel != []
    case DrainDeadline => s.pc.Draining?
    case DrainEmpty => s.pc.Draining? && s.channel == []
    case TakeForCount => s.channel != []
    case CountTaken(t) => t in s.taken
    case CountDone => s.pc.Counting? && s.channel == []
  }

  function Resumed(r: Resume): Pc
  {
    match r
    case ToSelect => Selecting
    case ToDrain => Draining
    case ToCount => Counting
  }

  /** The writer takes one row into its batch and flushes when the batch is full. */
  function Received(s: Sink, r: Resume): Sink
    requires s.channel != []
  {
    var batch := s.batch + [s.channel[0]];
    s.(channel := s.channel[1..], batch := batch,
       pc := if |batch| >= s.cfg.batchSize then Inserting(0, r) else Resumed(r))
  }

  function Attempted(s: Sink, ok: bool, cancelled: bool): Sink
    requires s.pc.Inserting?
  {
    var k, r := s.pc.attempt, s.pc.resume;
    var s' := if s.cfg.hasInsert then s.(calls := s.calls + [Call(s.batch, k)]) else s;
    if ok then s'.(inserted := s.inserted + s.batch, batch := [], pc := Resumed(r))
    else if k + 1 >= s.cfg.attempts || cancelled then s'.(pc := Failed(cancelled && k + 1 < s.cfg.attempts, r))
    else s'.(pc := Inserting(k + 1, r))
  }

  function AsDbError(s: Sink): Sink
  {
    s.(dbError := s.dbError + multiset(s.batch), droppedDbError := s.droppedDbError + |s.batch|, batch := [])
  }

  function AsShutdown(s: Sink): Sink
  {
    s.(shutdown := s.shutdown + multiset(s.batch), droppedShutdown := s.droppedShutdown + |s.batch|, batch := [])
  }

  /** A failed flush: during a drain the deadline decides between the two counters. */
  function Classified(s: Sink, expired: bool): Sink
    requires s.pc.Failed?
  {
    (if s.pc.resume.ToSelect? || !expired then AsDbError(s) else AsShutdown(s)).(pc := Resumed(s.pc.resume))
  }

  function Recorded(s: Sink): Sink
  {
    if |s.channel| < s.cfg.bufferSize then s.(recorded := s.recorded + 1, channel := s.channel + [s.recorded])
    else s.(recorded := s.recorded + 1, dropping := s.dropping + multiset{s.recorded})
  }

  function CountedFull(s: Sink, t: Ticket): Sink
  {
    s.(dropping := s.dropping - multiset{t}, bufferFull := s.bufferFull + multiset{t},
      droppedBufferFull := s.droppedBufferFull + 1)
  }

  function Taken(s: Sink): Sink
    requires s.channel != []
  {
    s.(channel := s.channel[1..], taken := s.taken + multiset{s.channel[0]})
  }

  function CountedTaken(s: Sink, t: Ticket): Sink
  {
    s.(taken := s.taken - multiset{t}, shutdown := s.shutdown + multiset{t}, droppedShutdown := s.droppedShutdown + 1)
  }

  function Next(s: Sink, a: Step): Sink
    requires Enabled(s, a)
  {
    match a
    case Record => Recorded(s)
    case CountBufferFull(t) => CountedFull(s, t)
    case Receive => Received(s, ToSelect)
    case TickFlush => s.(pc := Inserting(0, ToSelect))
    case Attempt(ok, cancelled) => Attempted(s, ok, cancelled)
    case Classify(expired) => Classified(s, expired)
    case Shutdown => s.(pc := Draining)
    case DrainReceive => Received(s, ToDrain)
    case DrainDeadline => AsShutdown(s).(pc := Counting)
    case DrainEmpty => s.(pc := if s.batch == [] then Counting else Inserting(0, ToCount))
    case TakeForCount => Taken(s)
    case CountTaken(t) => CountedTaken(s, t)
    case CountDone => s.(pc := Finished)
  }

  predicate ValidRun(s: Sink, run: seq<Step>)
    decreases |run|
  {
    run == [] || (Enabled(s, run[0]) && ValidRun(Next(s, run[0]), run[1..]))
  }

  function After(s: Sink, run: seq<Step>): Sink
    requires ValidRun(s, run)
    decreases |run|
  {
    if run == [] then s else After(Next(s, run[0]), run[1..])
  }

  // Loss accounting.

  /** How often ticket `t` occurs over all the places a row can be. */
  function Places(s: Sink, t: Ticket): nat
  {
    multiset(s.channel)[t] + multiset(s.batch)[t] + multiset(s.inserted)[t]
    + s.dropping[t] + s.taken[t] + s.bufferFull[t]
    + s.dbError[t] + s.shutdown[t]
  }

  ghost predicate Accounted(s: Sink)
  {
    && (forall t: Ticket :: Places(s, t) == if t < s.recorded then 1 else 0)
    && Counted(s)
  }

  /** Each counter is the size of its class, and the sizes of all places add up to the calls of Record. */
  predicate Counted(s: Sink)
  {
    && s.droppedBufferFull == |s.bufferFull| && s.droppedDbError == |s.dbError| && s.droppedShutdown == |s.shutdown|
    && s.recorded == |s.channel| + |s.batch| + |s.inserted| + |s.dropping| + |s.taken|
                     + s.droppedBufferFull + s.droppedDbError + s.droppedShutdown
  }

  lemma HeadOfChannel(s: Sink, t: Ticket)
    requires s.channel != []
    ensures multiset(s.channel)[t] == multiset(s.channel[1..])[t] + if s.channel[0] == t then 1 else 0
  {
    assert s.channel == [s.channel[0]] + s.channel[1..];
  }

  lemma FlushKeepsPlaces(s: Sink, a: Step, t: Ticket)
    requires Enabled(s, a) && (a.Attempt? || a.Classify? || a.DrainDeadline?)
    ensures Places(Next(s, a), t) == Places(s, t)
  {
  }

  lemma ReceiveKeepsPlaces(s: Sink, a: Step, t: Ticket)
    requires Enabled(s, a) && (a.Receive? || a.DrainReceive? || a.TakeForCount?)
    ensures Places(Next(s, a), t) == Places(s, t)
  {
    HeadOfChannel(s, t);
  }

  lemma CountingKeepsPlaces(s: Sink, u: Ticket, t: Ticket)
    ensures u in s.dropping ==> Places(CountedFull(s, u), t) == Places(s, t)
    ensures u in s.taken ==> Places(CountedTaken(s, u), t) == Places(s, t)
  {
  }

  lemma StepKeepsPlaces(s: Sink, a: Step, t: Ticket)
    requires Enabled(s, a)
    ensures Places(Next(s, a), t) == Places(s, t) + if a.Record? && t == s.recorded then 1 else 0
  {
    if a.Attempt? || a.Classify? || a.DrainDeadline? {
      FlushKeepsPlaces(s, a, t);
    } else if a.Receive? || a.DrainReceive? || a.TakeForCount? {
      ReceiveKeepsPlaces(s, a, t);
    } else if a.CountBufferFull? || a.CountTaken? {
      CountingKeepsPlaces(s, a.t, t);
    }
  }

  lemma FlushKeepsCounted(s: Sink, a: Step)
    requires Counted(s) && Enabled(s, a) && (a.Attempt? || a.Classify? || a.DrainDeadline?)
    ensures Counted(Next(s, a))
  {
  }

  lemma CountingKeepsCounted(s: Sink, t: Ticket)
    requires Counted(s)
    ensures t in s.dropping ==> Counted(CountedFull(s, t))
    ensures t in s.taken ==> Counted(CountedTaken(s, t))
  {
    assert t in s.dropping ==> |s.dropping - multiset{t}| == |s.dropping| - 1;
    assert t in s.taken ==> |s.taken - multiset{t}| == |s.taken| - 1;
  }

  lemma StepKeepsCounted(s: Sink, a: Step)
    requires Counted(s) && Enabled(s, a)
    ensures Counted(Next(s, a))
  {
    if a.Attempt? || a.Classify? || a.DrainDeadline? {
      FlushKeepsCounted(s, a);
    } else if a.CountBufferFull? || a.CountTaken? {
      CountingKeepsCounted(s, a.t);
    }
  }

  lemma StepKeepsAccounts(s: Sink, a: Step)
    requires Accounted(s) && Enabled(s, a)
    ensures Accounted(Next(s, a))
  {
    forall t: Ticket
      ensures Places(Next(s, a), t) == if t < Next(s, a).recorded then 1 else 0
    {
      StepKeepsPlaces(s, a, t);
    }
    StepKeepsCounted(s, a);
  }

  lemma {:induction false} RunKeepsAccounts(s: Sink, run: seq<Step>)
    requires Accounted(s) && ValidRun(s, run)
    ensures Accounted(After(s, run))
    decreases |run|
  {
    if run != [] {
      StepKeepsAccounts(s, run[0]);
      RunKeepsAccounts(Next(s, run[0]), run[1..]);
    }
  }

  /**
   Exact loss accounting at every step of every interleaving: each row passed to Record is in exactly one
   place, each counter is the size of its class, and the numbers add up to the calls of Record.
   */
  lemma ExactLossAccounting(cfg: Config, run: seq<Step>)
    requires ValidRun(Start(cfg), run)
    ensures var s := After(Start(cfg), run);
            && (forall t: Ticket :: t < s.recorded ==> Places(s, t) == 1)
            && s.droppedBufferFull == |s.bufferFull| && s.droppedDbError == |s.dbError|
              && s.droppedShutdown == |s.shutdown|
            && s.recorded == |s.channel| + |s.batch| + |s.inserted| + |s.dropping| + |s.taken|
                             + s.droppedBufferFull + s.droppedDbError + s.droppedShutdown
  {
    RunKeepsAccounts(Start(cfg), run);
  }

  // Order and bounds.

  ghost predicate Increasing(s: seq<Ticket>)
  {
    forall i, j :: 0 <= i < j < |s| ==> s[i] < s[j]
  }

  ghost predicate AllBefore(s: seq<Ticket>, t: seq<Ticket>)
  {
    forall i, j :: 0 <= i < |s| && 0 <= j < |t| ==> s[i] < t[j]
  }

  ghost predicate AllBelow(s: seq<Ticket>, n: nat)
  {
    forall i :: 0 <= i < |s| ==> s[i] < n
  }

  ghost predicate Flow(inserted: seq<Ticket>, batch: seq<Ticket>, channel: seq<Ticket>, n: nat)
  {
    && Increasing(inserted) && Increasing(batch) && Increasing(channel)
    && AllBefore(inserted, batch) && AllBefore(inserted, channel) && AllBefore(batch, channel)
    && AllBelow(inserted, n) && AllBelow(batch, n) && AllBelow(channel, n)
  }

  /** Inserted rows, then the batch, then the channel: all in the order in which Record accepted them. */
  ghost predicate Ordered(s: Sink)
  {
    Flow(s.inserted, s.batch, s.channel, s.recorded)
  }

  lemma ReceiveKeepsFlow(inserted: seq<Ticket>, batch: seq<Ticket>, channel: seq<Ticket>, n: nat)
    requires Flow(inserted, batch, channel, n) && channel != []
    ensures Flow(inserted, batch + [channel[0]], channel[1..], n) && Flow(inserted, batch, channel[1..], n)
  {
  }

  lemma FlushKeepsFlow(inserted: seq<Ticket>, batch: seq<Ticket>, channel: seq<Ticket>, n: nat)
    requires Flow(inserted, batch, channel, n)
    ensures Flow(inserted + batch, [], channel, n) && Flow(inserted, [], channel, n)
  {
  }

  lemma RecordKeepsFlow(inserted: seq<Ticket>, batch: seq<Ticket>, channel: seq<Ticket>, n: nat)
    requires Flow(inserted, batch, channel, n)
    ensures Flow(inserted, batch, channel + [n], n + 1) && Flow(inserted, batch, channel, n + 1)
  {
  }

  lemma StepKeepsOrder(s: Sink, a: Step)
    requires Ordered(s) && Enabled(s, a)
    ensures Ordered(Next(s, a))
  {
    if a.Receive? || a.DrainReceive? || a.TakeForCount? {
      ReceiveKeepsFlow(s.inserted, s.batch, s.channel, s.recorded);
    } else if a.Record? {
      RecordKeepsFlow(s.inserted, s.batch, s.channel, s.recorded);
    } else {
      FlushKeepsFlow(s.inserted, s.batch, s.channel, s.recorded);
    }
  }

  /** A call carries between one row and a batch of them, and a retry repeats the call before it. */
  predicate CallOk(s: Sink, i: nat)
    requires i < |s.calls|
  {
    && 1 <= |s.calls[i].rows| <= s.cfg.batchSize
    && s.calls[i].attempt < s.cfg.attempts
    && (s.calls[i].attempt > 0 ==> i > 0 && s.calls[i - 1] == Call(s.calls[i].rows, s.calls[i].attempt - 1))
  }

  /** The batch is flushed before it overflows, and is empty once counting starts. */
  predicate WriterOk(s: Sink)
  {
    match s.pc
    case Selecting => |s.batch| < s.cfg.batchSize
    case Draining => |s.batch| < s.cfg.batchSize
    case Inserting(k, _) =>
      && 1 <= |s.batch| <= s.cfg.batchSize && k < s.cfg.attempts
      && (k > 0 && s.cfg.hasInsert ==> s.calls != [] && s.calls[|s.calls| - 1] == Call(s.batch, k - 1))
    case Failed(_, _) => 1 <= |s.batch| <= s.cfg.batchSize
    case _ => s.batch == []
  }

  predicate Bounded(s: Sink)
  {
    && s.cfg.bufferSize > 0 && s.cfg.batchSize > 0 && s.cfg.attempts > 0
    && |s.channel| <= s.cfg.bufferSize && WriterOk(s)
    && (forall i :: 0 <= i < |s.calls| ==> CallOk(s, i))
  }

  lemma AttemptKeepsCalls(s: Sink, ok: bool, cancelled: bool, i: nat)
    requires Bounded(s) && Enabled(s, Attempt(ok, cancelled)) && i < |Attempted(s, ok, cancelled).calls|
    ensures CallOk(Attempted(s, ok, cancelled), i)
  {
    if i < |s.calls| {
      assert CallOk(s, i);
    }
  }

  lemma AttemptKeepsWriter(s: Sink, ok: bool, cancelled: bool)
    requires Bounded(s) && Enabled(s, Attempt(ok, cancelled))
    ensures WriterOk(Attempted(s, ok, cancelled))
  {
  }

  lemma ReceiveKeepsWriter(s: Sink, r: Resume)
    requires s.channel != [] && |s.batch| < s.cfg.batchSize && s.cfg.attempts > 0 && !r.ToCount?
    ensures WriterOk(Received(s, r))
  {
  }

  lemma OtherStepKeepsWriter(s: Sink, a: Step)
    requires Bounded(s) && Enabled(s, a) && !a.Attempt?
    ensures WriterOk(Next(s, a)) && |Next(s, a).channel| <= s.cfg.bufferSize && Next(s, a).calls == s.calls
      && Next(s, a).cfg == s.cfg
  {
    if a.Receive? {
      ReceiveKeepsWriter(s, ToSelect);
    } else if a.DrainReceive? {
      ReceiveKeepsWriter(s, ToDrain);
    }
  }

  lemma StepKeepsBounds(s: Sink, a: Step)
    requires Bounded(s) && Enabled(s, a)
    ensures Bounded(Next(s, a))
  {
    if a.Attempt? {
      AttemptKeepsWriter(s, a.ok, a.cancelled);
      forall i | 0 <= i < |Next(s, a).calls|
        ensures CallOk(Next(s, a), i)
      {
        AttemptKeepsCalls(s, a.ok, a.cancelled, i);
      }
    } else {
      OtherStepKeepsWriter(s, a);
      forall i | 0 <= i < |s.calls|
        ensures CallOk(Next(s, a), i)
      {
        assert CallOk(s, i);
      }
    }
  }

  lemma {:induction false} RunKeepsOrderAndBounds(s: Sink, run: seq<Step>)
    requires Ordered(s) && Bounded(s) && ValidRun(s, run)
    ensures Ordered(After(s, run)) && Bounded(After(s, run))
    decreases |run|
  {
    if run != [] {
      StepKeepsOrder(s, run[0]);
      StepKeepsBounds(s, run[0]);
      RunKeepsOrderAndBounds(Next(s, run[0]), run[1..]);
    }
  }

  // How often a row is handed to the insert function.

  /** The number of insert calls that carry row `t`. */
  function CallsWith(calls: seq<Call>, t: Ticket): nat
  {
    if calls == [] then 0
    else CallsWith(calls[..|calls| - 1], t) + if t in calls[|calls| - 1].rows then 1 else 0
  }

  /** A row not yet being flushed has been in no call, and one being flushed in at most one call per attempt made. */
  ghost predicate Tried(s: Sink)
  {
    && (forall t: Ticket :: CallsWith(s.calls, t) <= s.cfg.attempts)
    && (forall t: Ticket :: t in s.channel || t >= s.recorded ==> CallsWith(s.calls, t) == 0)
    && (forall t: Ticket :: t in s.batch ==>
          match s.pc
          case Inserting(k, _) => CallsWith(s.calls, t) <= k
          case Failed(_, _) => true
          case _ => CallsWith(s.calls, t) == 0)
  }

  lemma OneMoreCall(calls: seq<Call>, c: Call, t: Ticket)
    ensures CallsWith(calls + [c], t) == CallsWith(calls, t) + if t in c.rows then 1 else 0
  {
    assert (calls + [c])[..|calls|] == calls;
  }

  lemma AttemptKeepsTried(s: Sink, ok: bool, cancelled: bool)
    requires Ordered(s) && Bounded(s) && Tried(s) && Enabled(s, Attempt(ok, cancelled))
    ensures Tried(Attempted(s, ok, cancelled))
  {
    var s' := Attempted(s, ok, cancelled);
    forall t: Ticket
      ensures CallsWith(s'.calls, t) <= CallsWith(s.calls, t) + if t in s.batch then 1 else 0
    {
      OneMoreCall(s.calls, Call(s.batch, s.pc.attempt), t);
    }
  }

  lemma OtherStepKeepsTried(s: Sink, a: Step)
    requires Ordered(s) && Bounded(s) && Tried(s) && Enabled(s, a) && !a.Attempt?
    ensures Tried(Next(s, a))
  {
  }

  lemma StepKeepsTried(s: Sink, a: Step)
    requires Ordered(s) && Bounded(s) && Tried(s) && Enabled(s, a)
    ensures Tried(Next(s, a))
  {
    if a.Attempt? {
      AttemptKeepsTried(s, a.ok, a.cancelled);
    } else {
      OtherStepKeepsTried(s, a);
    }
  }

  lemma {:induction false} RunKeepsTried(s: Sink, run: seq<Step>)
    requires Ordered(s) && Bounded(s) && Tried(s) && ValidRun(s, run)
    ensures Tried(After(s, run)) && After(s, run).cfg == s.cfg
    decreases |run|
  {
    if run != [] {
      StepKeepsOrder(s, run[0]);
      StepKeepsBounds(s, run[0]);
      StepKeepsTried(s, run[0]);
      RunKeepsTried(Next(s, run[0]), run[1..]);
    }
  }

  /**
   Inserted rows keep acceptance order, the buffer is bounded, and insert calls are bounded: 1 to batchSize
   rows each, the calls for one batch are consecutive and numbered from 0, and no row is in more calls than the
   configured attempts.
   */
  lemma OrderAndBounds(bufferSize: int, batchSize: int, backoffs: nat, hasInsert: bool, run: seq<Step>)
    requires ValidRun(Start(Configured(bufferSize, batchSize, backoffs, hasInsert)), run)
    ensures var s := After(Start(Configured(bufferSize, batchSize, backoffs, hasInsert)), run);
            && Increasing(s.inserted) && AllBefore(s.inserted, s.batch) && AllBefore(s.inserted, s.channel)
              && AllBefore(s.batch, s.channel)
            && |s.channel| <= s.cfg.bufferSize
            && (forall i :: 0 <= i < |s.calls| ==> CallOk(s, i))
            && (forall t: Ticket :: CallsWith(s.calls, t) <= s.cfg.attempts)
            && s.cfg == Configured(bufferSize, batchSize, backoffs, hasInsert)
  {
    RunKeepsOrderAndBounds(Start(Configured(bufferSize, batchSize, backoffs, hasInsert)), run);
    RunKeepsTried(Start(Configured(bufferSize, batchSize, backoffs, hasInsert)), run);
  }

  // The drain, once producers are quiet: Stop calls may still race the writer.

  predicate Quiet(run: seq<Step>)
  {
    forall i :: 0 <= i < |run| ==> !run[i].Record?
  }

  /** The writer has seen the stop signal. */
  predicate ShuttingDown(pc: Pc)
  {
    match pc
    case Selecting => false
    case Inserting(_, r) => !r.ToSelect?
    case Failed(_, r) => !r.ToSelect?
    case _ => true
  }

  /** Steps the writer may still take before its next receive, or before it is done. */
  function Rest(s: Sink): nat
  {
    match s.pc
    case Draining => s.cfg.attempts + 5
    case Inserting(k, ToDrain) => 2 * s.cfg.attempts + 7 - Min(k, s.cfg.attempts)
    case Failed(_, ToDrain) => s.cfg.attempts + 6
    case Inserting(k, ToCount) => s.cfg.attempts + 4 - Min(k, s.cfg.attempts)
    case Failed(_, ToCount) => 3
    case Counting => 2
    case _ => 0
  }

  function Min(a: nat, b: nat): nat
  {
    if a < b then a else b
  }

  /** An upper bound on the steps left; each row still in the channel may cost one whole flush and one count. */
  function StepsLeft(s: Sink): nat
  {
    |s.channel| * (s.cfg.attempts + 4) + Rest(s) + |s.taken| + |s.dropping|
  }

  lemma OneRowLess(c: nat, n: nat)
    requires c > 0
    ensures (c - 1) * n == c * n - n
  {
  }

  lemma ChannelStepCounts(s: Sink, a: Step)
    requires Bounded(s) && ShuttingDown(s.pc) && Enabled(s, a) && (a.DrainReceive? || a.TakeForCount?)
    ensures ShuttingDown(Next(s, a).pc) && StepsLeft(Next(s, a)) < StepsLeft(s)
  {
    OneRowLess(|s.channel|, s.cfg.attempts + 4);
    assert |Next(s, a).channel| == |s.channel| - 1;
  }

  /** What only the writer moves: the channel and the rows that others are counting stay. */
  predicate WriterOnly(s: Sink, s': Sink)
  {
    s'.channel == s.channel && s'.cfg == s.cfg && s'.taken == s.taken && s'.dropping == s.dropping
  }

  lemma AttemptCounts(s: Sink, ok: bool, cancelled: bool)
    requires s.pc.Inserting? && ShuttingDown(s.pc)
    ensures var s' := Attempted(s, ok, cancelled); ShuttingDown(s'.pc) && Rest(s') < Rest(s) && WriterOnly(s, s')
  {
  }

  lemma ClassifyCounts(s: Sink, expired: bool)
    requires s.pc.Failed? && ShuttingDown(s.pc)
    ensures var s' := Classified(s, expired); ShuttingDown(s'.pc) && Rest(s') < Rest(s) && WriterOnly(s, s')
  {
  }

  lemma DrainStepCounts(s: Sink, a: Step)
    requires Enabled(s, a) && (a.DrainDeadline? || a.DrainEmpty? || a.CountDone?) && s.cfg.attempts > 0
    ensures var s' := Next(s, a); ShuttingDown(s'.pc) && Rest(s') < Rest(s) && WriterOnly(s, s')
  {
  }

  lemma WriterStepCounts(s: Sink, a: Step)
    requires s.cfg.attempts > 0 && ShuttingDown(s.pc) && Enabled(s, a)
    requires !a.Record? && !a.DrainReceive? && !a.TakeForCount? && !a.CountBufferFull? && !a.CountTaken?
    ensures var s' := Next(s, a); ShuttingDown(s'.pc) && Rest(s') < Rest(s) && WriterOnly(s, s')
  {
    if a.Attempt? {
      AttemptCounts(s, a.ok, a.cancelled);
    } else if a.Classify? {
      ClassifyCounts(s, a.expired);
    } else {
      DrainStepCounts(s, a);
    }
  }

  lemma CountingCounts(s: Sink, t: Ticket)
    ensures t in s.dropping ==> StepsLeft(CountedFull(s, t)) < StepsLeft(s)
    ensures t in s.taken ==> StepsLeft(CountedTaken(s, t)) < StepsLeft(s)
  {
    assert t in s.dropping ==> |s.dropping - multiset{t}| == |s.dropping| - 1;
    assert t in s.taken ==> |s.taken - multiset{t}| == |s.taken| - 1;
  }

  lemma QuietStepCounts(s: Sink, a: Step)
    requires Bounded(s) && ShuttingDown(s.pc) && Enabled(s, a) && !a.Record?
    ensures ShuttingDown(Next(s, a).pc) && StepsLeft(Next(s, a)) < StepsLeft(s)
  {
    if a.DrainReceive? || a.TakeForCount? {
      ChannelStepCounts(s, a);
    } else if a.CountBufferFull? || a.CountTaken? {
      CountingCounts(s, a.t);
    } else {
      WriterStepCounts(s, a);
    }
  }

  /** Nothing but a producer could still move. */
  ghost predicate Stuck(s: Sink)
  {
    forall a :: Enabled(s, a) ==> a.Record?
  }

  predicate AtRest(s: Sink)
  {
    s.pc.Finished? && s.channel == [] && s.taken == multiset{} && s.dropping == multiset{}
  }

  lemma SomethingCanMove(s: Sink) returns (a: Step)
    requires ShuttingDown(s.pc) && !AtRest(s)
    ensures Enabled(s, a) && !a.Record?
  {
    if s.channel != [] {
      a := TakeForCount;
    } else if s.taken != multiset{} {
      var t :| t in s.taken;
      a := CountTaken(t);
    } else if s.dropping != multiset{} {
      var t :| t in s.dropping;
      a := CountBufferFull(t);
    } else {
      a := match s.pc
        case Draining => DrainEmpty
        case Inserting(_, _) => Attempt(true, false)
        case Failed(_, _) => Classify(true)
        case _ => CountDone;
    }
  }

  lemma StuckIsAtRest(s: Sink)
    requires ShuttingDown(s.pc) && Stuck(s)
    ensures AtRest(s)
  {
    if !AtRest(s) {
      var a := SomethingCanMove(s);
    }
  }

  /**
   Once producers are quiet, a shutdown takes at most `StepsLeft` more steps in any interleaving with Stop
   calls, and when nothing can move any more the writer is done and every row is inserted or counted.
   */
  lemma {:induction false} DrainTerminates(s: Sink, run: seq<Step>)
    requires Ordered(s) && Bounded(s) && Accounted(s) && ShuttingDown(s.pc) && ValidRun(s, run) && Quiet(run)
    ensures |run| <= StepsLeft(s)
    ensures var s' := After(s, run);
            Stuck(s') ==> s'.pc.Finished? && s'.channel == [] && s'.batch == []
                          && s'.recorded
                            == |s'.inserted| + s'.droppedBufferFull + s'.droppedDbError + s'.droppedShutdown
    decreases |run|
  {
    if run == [] {
      if Stuck(s) {
        StuckIsAtRest(s);
      }
    } else {
      QuietStepCounts(s, run[0]);
      StepKeepsOrder(s, run[0]);
      StepKeepsBounds(s, run[0]);
      StepKeepsAccounts(s, run[0]);
      DrainTerminates(Next(s, run[0]), run[1..]);
    }
  }
}
