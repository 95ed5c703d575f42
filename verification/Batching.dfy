/** The executor goroutine: batches of queued events before copies, each in one transaction. */
module Batching {
  import opened Values
  import opened Selection
  import opened Replay
  import opened Events
  import opened Sql
  import opened Builders
  import opened Protocol
  import opened Conversion
  import opened Statements
  import opened QuotedNames
  import opened Sending
  import opened CopySql
  import opened CopyReading
  import opened RowCopy
  import Chunks
  import SqlReading

  class EventBatch {
    var events: seq<DmlEvent>

    constructor (capacity: nat)
      ensures events == []
    {
      events := [];
    }

    method Add(event: DmlEvent)
      modifies this
      ensures events == old(events) + [event]
    {
      events := events + [event];
    }

    function Len(): nat
      reads this
    {
      |events|
    }

    method Clear()
      modifies this
      ensures events == []
    {
      events := events[..0];
    }
  }

  /** What does not change while the executor works. */
  datatype Setup = Setup(
    cfg: Config, d: Schema, ctx: Context, columns: seq<string>, source: TableName)

  /** A migration with a key of integers and texts, whose names do not look quoted. */
  ghost predicate Posed(x: Setup) {
    && x.ctx.uniqueKeyColumns == x.d.uk && x.d.uk != []
    && (forall u :: u in x.d.uk ==> !KindOf(x.d.types, u).OtherKind?)
    && x.cfg.ghostColumns == x.d.columns && Describes(x.cfg, x.d, x.columns)
    && PlainNaming(Ghost(x.ctx), x.source, x.columns, x.d.uk)
  }

  // ---- one batch ----

  /** The texts of the events, sent one after the other. */
  function RunAll(d: Schema, ctx: Context, g: Table, events: seq<DmlEvent>): Result<Table>
    requires forall c :: c in d.uk ==> c in d.defaults
    requires forall e :: e in events ==> Tuples(e)
    decreases |events|
  {
    if events == [] then Ok(g)
    else
      var n := |events| - 1;
      var before := RunAll(d, ctx, g, events[..n]);
      if before.Err? then before else Sent(d, ctx, events[n], before.value)
  }

  lemma {:induction false} RunAllFails(d: Schema, ctx: Context, g: Table, events: seq<DmlEvent>, i: nat)
    requires forall c :: c in d.uk ==> c in d.defaults
    requires (forall e :: e in events ==> Tuples(e)) && i <= |events|
    ensures RunAll(d, ctx, g, events[..i]).Err? ==> RunAll(d, ctx, g, events).Err?
    decreases |events|
  {
    hide Sent;
    if i < |events| {
      assert events[..|events| - 1][..i] == events[..i];
      RunAllFails(d, ctx, g, events[..|events| - 1], i);
    } else {
      assert events[..i] == events;
    }
  }

  /** The events' row changes. */
  function Meanings(d: Schema, events: seq<DmlEvent>): (r: seq<Event>)
    requires forall e :: e in events ==> WellFormed(e, d.uk)
    ensures |r| == |events|
  {
    seq(|events|, i requires 0 <= i < |events| => MeaningOf(d, events[i]))
  }

  /** The event can be replayed, and none of its column names looks quoted. */
  ghost predicate Sendable(x: Setup, e: DmlEvent) {
    Replayable(x.d, x.ctx, e) && (e.newValues.Some? ==> SqlReading.PlainNames(e.newValues.value.columns))
  }

  ghost predicate AllReplayable(x: Setup, events: seq<DmlEvent>) {
    forall e :: e in events ==> Sendable(x, e)
  }

  /** Every column written exists in the ghost. */
  ghost predicate AllFit(x: Setup, events: seq<DmlEvent>)
    requires AllReplayable(x, events)
  {
    forall e :: e in events ==> Fits(x.d.columns, MeaningOf(x.d, e))
  }

  lemma MeaningKeyed(d: Schema, e: DmlEvent)
    requires WellFormed(e, d.uk)
    ensures Keyed(MeaningOf(d, e), d.uk)
  {
  }

  /** What replaying the events one by one comes to. */
  ghost function Replaying(x: Setup, g: Table, events: seq<DmlEvent>): Result<Table>
    requires AllReplayable(x, events)
  {
    if AllFit(x, events) then Ok(ApplyAll(g, Meanings(x.d, events), x.d.defaults))
    else Err("column does not exist")
  }

  lemma SentReplays(x: Setup, e: DmlEvent, g: Table)
    requires Posed(x) && WellKeyed(x.d, g) && Sendable(x, e)
    ensures Sent(x.d, x.ctx, e, g) == Sending.Replayed(x.d, MeaningOf(x.d, e), g)
    ensures Fits(x.d.columns, MeaningOf(x.d, e)) ==> WellKeyed(x.d, Apply(g, MeaningOf(x.d, e), x.d.defaults))
  {
    hide SqlReading.RunText, Render, QueryFor, SqlReading.Plain;
    SqlReading.BuiltIsPlain(x.ctx, e);
    EventTextReplays(x.d, x.ctx, e, g);
    if Fits(x.d.columns, MeaningOf(x.d, e)) {
      MeaningKeyed(x.d, e);
      ApplyKeepsKeyed(x.d, MeaningOf(x.d, e), g);
    }
  }

  lemma ReplayingSnoc(x: Setup, g: Table, front: seq<DmlEvent>, last: DmlEvent)
    requires AllReplayable(x, front + [last])
    ensures AllReplayable(x, front) && Sendable(x, last)
    ensures AllFit(x, front + [last]) <==> AllFit(x, front) && Fits(x.d.columns, MeaningOf(x.d, last))
    ensures AllFit(x, front + [last]) ==>
      Replaying(x, g, front + [last]) == Ok(Apply(Replaying(x, g, front).value, MeaningOf(x.d, last), x.d.defaults))
  {
    assert forall e :: e in front ==> e in front + [last];
    assert last in front + [last];
    MeaningsSnoc(x.d, front, last);
    ApplyAppend(g, Meanings(x.d, front), [MeaningOf(x.d, last)], x.d.defaults);
    ApplySingle(ApplyAll(g, Meanings(x.d, front), x.d.defaults), MeaningOf(x.d, last), x.d.defaults);
  }

  lemma RunAllSnoc(d: Schema, ctx: Context, g: Table, front: seq<DmlEvent>, last: DmlEvent)
    requires forall c :: c in d.uk ==> c in d.defaults
    requires forall e :: e in front + [last] ==> Tuples(e)
    ensures (forall e :: e in front ==> Tuples(e)) && Tuples(last)
    ensures RunAll(d, ctx, g, front + [last]) ==
      var before := RunAll(d, ctx, g, front);
      if before.Err? then before else Sent(d, ctx, last, before.value)
  {
    assert forall e :: e in front ==> e in front + [last];
    assert last in front + [last];
    assert (front + [last])[..|front|] == front;
  }

  /** A batch succeeds exactly when every event fits, and then it is the one-at-a-time replay. */
  lemma {:induction false} RunAllReplays(x: Setup, g: Table, events: seq<DmlEvent>)
    requires Posed(x) && WellKeyed(x.d, g) && AllReplayable(x, events)
    ensures RunAll(x.d, x.ctx, g, events) == Replaying(x, g, events)
    ensures AllFit(x, events) ==> WellKeyed(x.d, Replaying(x, g, events).value)
    decreases |events|
  {
    hide Sent;
    if events != [] {
      var n := |events| - 1;
      var front, last := events[..n], events[n];
      assert events == front + [last];
      ReplayingSnoc(x, g, front, last);
      RunAllReplays(x, g, front);
      RunAllSnoc(x.d, x.ctx, g, front, last);
      if AllFit(x, front) {
        SentReplays(x, last, Replaying(x, g, front).value);
      }
    }
  }

  lemma MeaningsSnoc(d: Schema, front: seq<DmlEvent>, last: DmlEvent)
    requires forall e :: e in front + [last] ==> WellFormed(e, d.uk)
    ensures (forall e :: e in front ==> WellFormed(e, d.uk)) && WellFormed(last, d.uk)
    ensures Meanings(d, front + [last]) == Meanings(d, front) + [MeaningOf(d, last)]
  {
    assert forall e :: e in front ==> e in front + [last];
    assert last in front + [last];
  }

  lemma ApplySingle(g: Table, e: Event, defaults: Row)
    ensures ApplyAll(g, [e], defaults) == Apply(g, e, defaults)
  {
    assert [e][1..] == [];
  }

  // ---- the executor's turns ----

  /** The batch size as it is set at each test of the drain loop, and how many events are there after the
      first. */
  datatype Drain = Drain(sizes: seq<nat>, more: nat)

  /** What the executor meets at one turn: a panic before it, or the end of the migration after the one
      before; queued events, on a connection that may be gone from some step on (0 begins the transaction,
      i + 1 runs the i-th event, then comes the commit); a copy, with the original and the chunk size as
      they are then; nothing. */
  datatype Turn =
    | Ended
    | Queued(drain: Drain, gone: Option<nat>)
    | Copying(original: Table, range: Chunks.Range, limit: nat, lost: bool)
    | Idle

  /** The executor's progress; `hand` is the batch it failed on, `counter` and `copied` are the context's
      counts of applied events and of copied rows. */
  datatype Work = Work(
    taken: nat, batches: seq<seq<DmlEvent>>, hand: seq<DmlEvent>, counter: nat, copied: nat, gho: Table, stopped: bool)

  predicate Gone(gone: Option<nat>, step: nat) {
    gone.Some? && gone.value <= step
  }

  function Most(batchSize: nat): nat {
    if batchSize < 1 then 1 else batchSize
  }

  /** The batch has n events; another is added while it is smaller than the size that is set by now. */
  function Filled(sizes: seq<nat>, there: nat, n: nat): (r: nat)
    requires 1 <= n <= there
    ensures n <= r <= there
    ensures r > n ==> r - 2 < |sizes| && r <= sizes[r - 2]
    decreases there - n
  {
    if n < there && n - 1 < |sizes| && n < sizes[n - 1] then Filled(sizes, there, n + 1) else n
  }

  function There(drain: Drain, waiting: nat): (n: nat)
    requires waiting >= 1
    ensures 1 <= n <= waiting
  {
    if waiting < 1 + drain.more then waiting else 1 + drain.more
  }

  /** How many of the waiting events one batch takes: one, or not more than the last size that was read
      before the last of them was added. */
  function BatchSize(drain: Drain, waiting: nat): (n: nat)
    requires waiting >= 1
    ensures 1 <= n <= waiting
    ensures n > 1 ==> n - 2 < |drain.sizes| && n <= drain.sizes[n - 2]
  {
    Filled(drain.sizes, There(drain, waiting), 1)
  }

  /** A batch of n of the waiting events: every test before its n-th event found the batch smaller than the
      size that was set, and the loop had a reason to stop: no further event was there, or the next test
      found the batch large enough or was not made. */
  ghost predicate Drains(drain: Drain, waiting: nat, n: nat) {
    && 1 <= n <= waiting && n <= 1 + drain.more && n <= |drain.sizes| + 1
    && (forall i :: 0 <= i < n - 1 ==> i + 1 < drain.sizes[i])
    && (n == waiting || n == 1 + drain.more || |drain.sizes| < n || drain.sizes[n - 1] <= n)
  }

  lemma {:induction false} FilledDrains(drain: Drain, waiting: nat, n: nat)
    requires waiting >= 1 && 1 <= n <= There(drain, waiting) && n <= |drain.sizes| + 1
    requires forall i :: 0 <= i < n - 1 ==> i + 1 < drain.sizes[i]
    ensures Drains(drain, waiting, Filled(drain.sizes, There(drain, waiting), n))
    decreases waiting - n
  {
    var there := There(drain, waiting);
    if n < there && n - 1 < |drain.sizes| && n < drain.sizes[n - 1] {
      FilledDrains(drain, waiting, n + 1);
    }
  }

  /** That is exactly the size of a batch. */
  lemma BatchSizeIff(drain: Drain, waiting: nat, n: nat)
    requires waiting >= 1
    ensures BatchSize(drain, waiting) == n <==> Drains(drain, waiting, n)
  {
    FilledDrains(drain, waiting, 1);
  }

  /** Every batch size that is set during the turns is at most this one. */
  ghost predicate SizesWithin(limit: nat, ts: seq<Turn>) {
    forall t :: t in ts && t.Queued? ==> DrainWithin(limit, t.drain)
  }

  ghost predicate DrainWithin(limit: nat, drain: Drain) {
    forall n :: n in drain.sizes ==> n <= limit
  }

  function CopyFor(x: Setup, t: Turn): CopyStmt
    requires t.Copying?
  {
    CopyOf(Ghost(x.ctx), x.source, x.columns, x.d.uk, t.range, t.limit)
  }

  ghost predicate Runs(x: Setup, incoming: seq<DmlEvent>, t: Turn) {
    && (forall c :: c in x.d.uk ==> c in x.d.defaults)
    && (forall e :: e in incoming ==> Tuples(e))
    && (t.Copying? ==> x.d.uk != [] && |t.range.lo| == |t.range.hi| == |x.d.uk|)
  }

  function NextBatch(incoming: seq<DmlEvent>, w: Work, drain: Drain): (batch: seq<DmlEvent>)
    requires w.taken < |incoming|
    ensures 1 <= |batch| && w.taken + |batch| <= |incoming|
    ensures |batch| > 1 ==> |batch| - 2 < |drain.sizes| && |batch| <= drain.sizes[|batch| - 2]
    ensures incoming[w.taken..] == batch + incoming[w.taken + |batch|..]
    ensures forall e :: e in batch ==> e in incoming
  {
    incoming[w.taken..w.taken + BatchSize(drain, |incoming| - w.taken)]
  }

  /** The batch is committed and counted, or stays in the hand of a stopped executor. */
  function Finished(w: Work, batch: seq<DmlEvent>, r: Result<Table>, gone: bool): Work {
    if r.Err? || gone then w.(taken := w.taken + |batch|, hand := batch, stopped := true)
    else Work(w.taken + |batch|, w.batches + [batch], [], w.counter + |batch|, w.copied, r.value, w.stopped)
  }

  /** The next batch, committed or in hand. */
  function QueuedTurn(x: Setup, incoming: seq<DmlEvent>, w: Work, drain: Drain, gone: Option<nat>): (w': Work)
    requires Runs(x, incoming, Queued(drain, gone)) && w.taken < |incoming|
    ensures w'.taken <= |incoming|
  {
    var batch := NextBatch(incoming, w, drain);
    Finished(w, batch, RunAll(x.d, x.ctx, w.gho, batch), Gone(gone, |batch| + 1))
  }

  function CopyTurn(x: Setup, w: Work, t: Turn): (w': Work)
    requires Runs(x, [], t) && t.Copying?
    ensures w'.taken == w.taken
  {
    var query := RenderCopy(CopyFor(x, t));
    var r := RunCopyText(x.d, x.cfg.originalColumns, t.original, Ghost(x.ctx), x.source, query, w.gho);
    if r.Err? || t.lost then w.(stopped := true)
    else w.(gho := r.value.0, copied := w.copied + r.value.1)
  }

  function WorkTurn(x: Setup, incoming: seq<DmlEvent>, w: Work, t: Turn): (w': Work)
    requires Runs(x, incoming, t) && w.taken <= |incoming|
    ensures w'.taken <= |incoming|
  {
    if w.stopped then w
    else
      match t
      case Ended => w.(stopped := true)
      case Idle => w
      case Queued(drain, gone) => if w.taken == |incoming| then w else QueuedTurn(x, incoming, w, drain, gone)
      case Copying(_, _, _, _) => CopyTurn(x, w, t)
  }

  ghost predicate RunsAll(x: Setup, incoming: seq<DmlEvent>, ts: seq<Turn>) {
    forall t :: t in ts ==> Runs(x, incoming, t)
  }

  ghost function WorkTurns(x: Setup, incoming: seq<DmlEvent>, w: Work, ts: seq<Turn>): (w': Work)
    requires RunsAll(x, incoming, ts) && w.taken <= |incoming|
    ensures w'.taken <= |incoming|
    decreases |ts|
  {
    if ts == [] then w
    else WorkTurn(x, incoming, WorkTurns(x, incoming, w, ts[..|ts| - 1]), ts[|ts| - 1])
  }

  lemma {:induction false} StoppedTurns(x: Setup, incoming: seq<DmlEvent>, w: Work, ts: seq<Turn>, i: nat)
    requires RunsAll(x, incoming, ts) && w.taken <= |incoming| && i <= |ts|
    ensures WorkTurns(x, incoming, w, ts[..i]).stopped ==>
      WorkTurns(x, incoming, w, ts) == WorkTurns(x, incoming, w, ts[..i])
    decreases |ts|
  {
    hide QueuedTurn, CopyTurn;
    if i < |ts| {
      assert ts[..|ts| - 1][..i] == ts[..i];
      StoppedTurns(x, incoming, w, ts[..|ts| - 1], i);
    } else {
      assert ts[..i] == ts;
    }
  }

  /** The copier works on the migration's tables, with its columns and key. */
  predicate Suits(x: Setup, copier: Copier)
    reads copier`sharedTableColumns
  {
    && copier.ghostSchema == x.d && copier.uniqueKeyColumns == x.d.uk && copier.Columns() == x.columns
    && ColumnSet(copier.originalTableColumns) == x.cfg.originalColumns
    && copier.Target() == Ghost(x.ctx) && copier.Source() == x.source
  }

  /** The executor, with its place in the queue, the context's counters, and the part of the applier that
      holds the ghost table. */
  class Executor {
    const x: Setup
    const batch: EventBatch
    const copier: Copier
    var taken: nat
    var batches: seq<seq<DmlEvent>>
    var totalDMLEventsApplied: nat
    var totalRowsCopied: nat
    var stopped: bool

    constructor (x: Setup, copier: Copier, batchSize: nat)
      requires Suits(x, copier)
      ensures this.x == x && this.copier == copier && fresh(batch) && Valid()
      ensures Now() == Work(0, [], [], 0, 0, copier.gho, false)
    {
      this.x, this.copier := x, copier;
      taken, batches, totalDMLEventsApplied, totalRowsCopied, stopped := 0, [], 0, 0, false;
      batch := new EventBatch(batchSize);
    }

    predicate Valid()
      reads copier`sharedTableColumns
    {
      Suits(x, copier)
    }

    function Now(): Work
      reads this, batch, copier
    {
      Work(taken, batches, batch.events, totalDMLEventsApplied, totalRowsCopied, copier.gho, stopped)
    }

    method BuildQuery(event: DmlEvent) returns (query: string, args: seq<Value>)
      requires Tuples(event)
      ensures query == Render(QueryFor(x.ctx, event).stmt) && args == QueryFor(x.ctx, event).args
    {
      match event.dml
      case InsertDML => query, args := BuildInsertQuery(x.ctx, event);
      case UpdateDML => query, args := BuildUpdateQuery(x.ctx, event);
      case DeleteDML => query, args := BuildDeleteQuery(x.ctx, event);
    }

    /** One text in the transaction, on its own view of the ghost table. */
    method ExecContext(event: DmlEvent, tx: Table) returns (done: Result<Table>)
      requires Tuples(event) && forall c :: c in x.d.uk ==> c in x.d.defaults
      ensures done == Sent(x.d, x.ctx, event, tx)
    {
      var query, args := BuildQuery(event);
      if query != "" {
        done := SqlReading.RunText(x.d, Ghost(x.ctx), query, args, tx);
      } else {
        done := Ok(tx);
      }
    }

    /** The statement of the i-th event, after those before it. */
    method ExecNext(events: seq<DmlEvent>, i: nat, ghost g: Table, tx: Table) returns (done: Result<Table>)
      requires forall c :: c in x.d.uk ==> c in x.d.defaults
      requires (forall e :: e in events ==> Tuples(e)) && i < |events|
      requires RunAll(x.d, x.ctx, g, events[..i]) == Ok(tx)
      ensures done == RunAll(x.d, x.ctx, g, events[..i + 1])
      ensures done.Err? ==> RunAll(x.d, x.ctx, g, events).Err?
    {
      hide Sent;
      done := ExecContext(events[i], tx);
      assert events[..i + 1] == events[..i] + [events[i]];
      RunAllSnoc(x.d, x.ctx, g, events[..i], events[i]);
      RunAllFails(x.d, x.ctx, g, events, i + 1);
    }

    /** The batch commits as a whole or leaves the ghost as it was. */
    method ApplyDMLEventQueries(events: seq<DmlEvent>, gone: Option<nat>) returns (r: Result<()>)
      requires forall c :: c in x.d.uk ==> c in x.d.defaults
      requires forall e :: e in events ==> Tuples(e)
      modifies copier`gho
      ensures r.Ok? <==>
        events == [] || (RunAll(x.d, x.ctx, old(copier.gho), events).Ok? && !Gone(gone, |events| + 1))
      ensures copier.gho ==
        if r.Ok? && events != [] then RunAll(x.d, x.ctx, old(copier.gho), events).value else old(copier.gho)
    {
      if |events| == 0 {
        return Ok(());
      }
      if Gone(gone, 0) {
        return Err("failed to begin transaction");
      }
      var tx := copier.gho;
      for i := 0 to |events|
        invariant !Gone(gone, i) && RunAll(x.d, x.ctx, old(copier.gho), events[..i]) == Ok(tx)
        modifies {}
      {
        var done := ExecNext(events, i, old(copier.gho), tx);
        if done.Err? || Gone(gone, i + 1) {
          return Err("failed to apply");
        }
        tx := done.value;
      }
      assert events[..|events|] == events;
      if Gone(gone, |events| + 1) {
        return Err("failed to commit transaction");
      }
      copier.gho := tx;
      r := Ok(());
    }

    /** The first waiting event, and more while the batch has room and the queue gives some; the batch
        size is read again at each test. */
    method DrainEvents(incoming: seq<DmlEvent>, drain: Drain)
      requires batch.events == [] && taken < |incoming|
      modifies this`taken, batch
      ensures old(taken) < taken <= |incoming| && batch.events == incoming[old(taken)..taken]
      ensures Drains(drain, |incoming| - old(taken), taken - old(taken))
    {
      ghost var start := taken;
      batch.Add(incoming[taken]);
      taken := taken + 1;
      while batch.Len() - 1 < |drain.sizes| && batch.Len() < drain.sizes[batch.Len() - 1]
        invariant start < taken <= |incoming| && taken - start <= 1 + drain.more
        invariant batch.events == incoming[start..taken] && taken - start <= |drain.sizes| + 1
        invariant forall i :: 0 <= i < taken - start - 1 ==> i + 1 < drain.sizes[i]
        decreases |incoming| - taken
      {
        if taken == |incoming| || batch.Len() == 1 + drain.more {
          break;
        }
        batch.Add(incoming[taken]);
        taken := taken + 1;
      }
    }

    /** One batch; it is cleared only after it has been committed and counted. */
    method ProcessQueued(incoming: seq<DmlEvent>, drain: Drain, gone: Option<nat>)
      requires Runs(x, incoming, Queued(drain, gone)) && batch.events == [] && taken < |incoming| && !stopped
      modifies this, batch, copier`gho
      ensures Now() == QueuedTurn(x, incoming, old(Now()), drain, gone) && (stopped || batch.events == [])
    {
      hide RunAll, BatchSize, Drains;
      DrainEvents(incoming, drain);
      BatchSizeIff(drain, |incoming| - old(taken), taken - old(taken));
      assert batch.events == NextBatch(incoming, old(Now()), drain);
      var applied := ApplyDMLEventQueries(batch.events, gone);
      if applied.Err? {
        stopped := true;
        return;
      }
      totalDMLEventsApplied := totalDMLEventsApplied + batch.Len();
      batches := batches + [batch.events];
      batch.Clear();
    }

    /** The copy of a range, with the original and the chunk size that the copier has by now. */
    method ProcessCopy(range: Chunks.Range, lost: bool)
      requires Valid() && Runs(x, [], Copying(copier.original, range, copier.chunkSize, lost)) && !stopped
      modifies this`totalRowsCopied, this`stopped, copier`gho
      ensures Now() == CopyTurn(x, old(Now()), old(Copying(copier.original, range, copier.chunkSize, lost)))
    {
      hide RunCopyText, RenderCopy;
      var _, rowsCopied, done := copier.ApplyIterationInsertQueryWithRange(range, lost);
      if done.Err? {
        stopped := true;
        return;
      }
      totalRowsCopied := totalRowsCopied + rowsCopied;
    }

    /** One round of the select statements; before a copy, others have written the original and may have
        set the chunk size. */
    method OneTurn(incoming: seq<DmlEvent>, t: Turn)
      requires Valid() && Runs(x, incoming, t) && batch.events == [] && taken <= |incoming| && !stopped
      modifies this, batch, copier`original, copier`chunkSize, copier`gho
      ensures Now() == WorkTurn(x, incoming, old(Now()), t) && (stopped || batch.events == [])
      ensures t.Ended? ==> Now() == old(Now().(stopped := true))
    {
      hide RunAll, RunCopyText, RenderCopy;
      match t
      case Ended => stopped := true;
      case Idle =>
      case Queued(drain, gone) =>
        if taken < |incoming| {
          ProcessQueued(incoming, drain, gone);
        }
      case Copying(original, range, limit, lost) =>
        copier.original, copier.chunkSize := original, limit;
        ProcessCopy(range, lost);
    }

    method ExecuteWriteFuncs(incoming: seq<DmlEvent>, schedule: seq<Turn>)
      requires Valid() && RunsAll(x, incoming, schedule) && batch.events == [] && taken <= |incoming| && !stopped
      modifies this, batch, copier`original, copier`chunkSize, copier`gho
      ensures Now() == WorkTurns(x, incoming, old(Now()), schedule)
    {
      for i := 0 to |schedule|
        invariant batch.events == [] && taken <= |incoming| && !stopped
        invariant Now() == WorkTurns(x, incoming, old(Now()), schedule[..i])
      {
        assert schedule[..i + 1][..i] == schedule[..i];
        OneTurn(incoming, schedule[i]);
        if stopped {
          StoppedTurns(x, incoming, old(Now()), schedule, i + 1);
          return;
        }
      }
      assert schedule[..|schedule|] == schedule;
    }
  }

  // ---- what every schedule keeps ----

  function Flatten(batches: seq<seq<DmlEvent>>): seq<DmlEvent> {
    if batches == [] then []
    else Flatten(batches[..|batches| - 1]) + batches[|batches| - 1]
  }

  /** The committed batches and the one in hand are the dequeued events in order; the counter has the
      committed ones; only a stopped executor still holds a batch. */
  ghost predicate Accounted(incoming: seq<DmlEvent>, before: nat, w: Work) {
    && w.taken <= |incoming|
    && Flatten(w.batches) + w.hand == incoming[..w.taken]
    && w.counter == before + |Flatten(w.batches)|
    && (w.hand != [] ==> w.stopped)
  }

  /** A batch has at least one event, and more than one only within the batch sizes that were set. */
  ghost predicate Conserves(limit: nat, incoming: seq<DmlEvent>, before: nat, w: Work) {
    && Accounted(incoming, before, w)
    && (forall b :: b in w.batches ==> 1 <= |b| <= Most(limit))
    && |w.hand| <= Most(limit)
  }

  lemma TakenBatch(incoming: seq<DmlEvent>, taken: nat, n: nat, batches: seq<seq<DmlEvent>>)
    requires taken + n <= |incoming| && Flatten(batches) == incoming[..taken]
    ensures var batch := incoming[taken..taken + n];
      Flatten(batches) + batch == incoming[..taken + n] && Flatten(batches + [batch]) == incoming[..taken + n]
  {
    var batch := incoming[taken..taken + n];
    assert (batches + [batch])[..|batches|] == batches;
  }

  /** The turn took the next n events: committed and counted, or in the hand of a stopped executor. */
  ghost predicate Took(limit: nat, incoming: seq<DmlEvent>, w: Work, w': Work, n: nat) {
    && 1 <= n <= Most(limit) && w.taken + n == w'.taken <= |incoming|
    && var batch := incoming[w.taken..w'.taken];
       if w'.stopped then (w'.batches, w'.hand, w'.counter) == (w.batches, batch, w.counter)
       else (w'.batches, w'.hand, w'.counter) == (w.batches + [batch], [], w.counter + n)
  }

  lemma FinishedTook(limit: nat, incoming: seq<DmlEvent>, w: Work, n: nat, r: Result<Table>, gone: bool)
    requires 1 <= n <= Most(limit) && w.taken + n <= |incoming| && !w.stopped
    ensures Took(limit, incoming, w, Finished(w, incoming[w.taken..w.taken + n], r, gone), n)
  {
  }

  lemma QueuedTook(x: Setup, limit: nat, incoming: seq<DmlEvent>, w: Work, drain: Drain, gone: Option<nat>)
    requires Runs(x, incoming, Queued(drain, gone)) && w.taken < |incoming| && !w.stopped && DrainWithin(limit, drain)
    ensures Took(limit, incoming, w, QueuedTurn(x, incoming, w, drain, gone),
                 BatchSize(drain, |incoming| - w.taken))
  {
    hide RunAll;
    var batch := NextBatch(incoming, w, drain);
    assert |batch| > 1 ==> drain.sizes[|batch| - 2] in drain.sizes;
    FinishedTook(limit, incoming, w, |batch|, RunAll(x.d, x.ctx, w.gho, batch), Gone(gone, |batch| + 1));
  }

  lemma TookAccounts(limit: nat, incoming: seq<DmlEvent>, before: nat, w: Work, w': Work, n: nat)
    requires Accounted(incoming, before, w) && !w.stopped && Took(limit, incoming, w, w', n)
    ensures Accounted(incoming, before, w')
  {
    TakenBatch(incoming, w.taken, n, w.batches);
  }

  lemma TookConserves(limit: nat, incoming: seq<DmlEvent>, before: nat, w: Work, w': Work, n: nat)
    requires Conserves(limit, incoming, before, w) && !w.stopped && Took(limit, incoming, w, w', n)
    ensures Conserves(limit, incoming, before, w')
  {
    TookAccounts(limit, incoming, before, w, w', n);
  }

  lemma TurnConserves(x: Setup, limit: nat, incoming: seq<DmlEvent>, w: Work, t: Turn, before: nat)
    requires Runs(x, incoming, t) && Conserves(limit, incoming, before, w)
    requires t.Queued? ==> DrainWithin(limit, t.drain)
    ensures Conserves(limit, incoming, before, WorkTurn(x, incoming, w, t))
  {
    hide RunAll, RunCopyText, RenderCopy;
    if !w.stopped && t.Queued? && w.taken < |incoming| {
      QueuedTook(x, limit, incoming, w, t.drain, t.gone);
      TookConserves(limit, incoming, before, w, WorkTurn(x, incoming, w, t),
                    BatchSize(t.drain, |incoming| - w.taken));
    }
  }

  /** Whatever is queued, whenever it is drained, however the batch size is set meanwhile, and whatever
      fails. */
  lemma {:induction false} EverySchedule(x: Setup, limit: nat, incoming: seq<DmlEvent>, w: Work, ts: seq<Turn>,
                                         before: nat)
    requires RunsAll(x, incoming, ts) && SizesWithin(limit, ts) && Conserves(limit, incoming, before, w)
    ensures Conserves(limit, incoming, before, WorkTurns(x, incoming, w, ts))
    decreases |ts|
  {
    if ts != [] {
      var n := |ts| - 1;
      EverySchedule(x, limit, incoming, w, ts[..n], before);
      TurnConserves(x, limit, incoming, WorkTurns(x, incoming, w, ts[..n]), ts[n], before);
    }
  }

  /** One thing done to the ghost: a single event, or the copy of some rows. */
  datatype Op = Single(event: Event) | Copied(original: Table, keys: set<Key>)

  function Do(cfg: Config, g: Table, op: Op): Table {
    match op
    case Single(e) => Apply(g, e, cfg.defaults)
    case Copied(o, keys) => CopyInto(cfg, g, o, keys)
  }

  function Fold(cfg: Config, g: Table, ops: seq<Op>): Table
    decreases |ops|
  {
    if ops == [] then g else Fold(cfg, Do(cfg, g, ops[0]), ops[1..])
  }

  lemma {:induction false} FoldAppend(cfg: Config, g: Table, a: seq<Op>, b: seq<Op>)
    ensures Fold(cfg, g, a + b) == Fold(cfg, Fold(cfg, g, a), b)
    decreases |a|
  {
    if a == [] {
      assert a + b == b;
    } else {
      assert (a + b)[1..] == a[1..] + b;
      FoldAppend(cfg, Do(cfg, g, a[0]), a[1..], b);
    }
  }

  function Singles(es: seq<Event>): (r: seq<Op>)
    ensures |r| == |es|
  {
    seq(|es|, i requires 0 <= i < |es| => Single(es[i]))
  }

  lemma {:induction false} FoldSingles(cfg: Config, g: Table, es: seq<Event>)
    ensures Fold(cfg, g, Singles(es)) == ApplyAll(g, es, cfg.defaults)
    decreases |es|
  {
    if es != [] {
      assert Singles(es)[1..] == Singles(es[1..]);
      FoldSingles(cfg, Apply(g, es[0], cfg.defaults), es[1..]);
    }
  }

  /** The single events among the operations. */
  function Replayed(ops: seq<Op>): seq<Event> {
    if ops == [] then []
    else (if ops[0].Single? then [ops[0].event] else []) + Replayed(ops[1..])
  }

  lemma {:induction false} ReplayedAppend(a: seq<Op>, b: seq<Op>)
    ensures Replayed(a + b) == Replayed(a) + Replayed(b)
    decreases |a|
  {
    if a == [] {
      assert a + b == b;
    } else {
      assert (a + b)[1..] == a[1..] + b;
      ReplayedAppend(a[1..], b);
      var first := if a[0].Single? then [a[0].event] else [];
      assert first + (Replayed(a[1..]) + Replayed(b)) == (first + Replayed(a[1..])) + Replayed(b);
    }
  }

  lemma {:induction false} ReplayedSingles(es: seq<Event>)
    ensures Replayed(Singles(es)) == es
    decreases |es|
  {
    if es != [] {
      assert Singles(es)[1..] == Singles(es[1..]);
      ReplayedSingles(es[1..]);
    }
  }

  lemma MeaningsAppend(d: Schema, a: seq<DmlEvent>, b: seq<DmlEvent>)
    requires (forall e :: e in a ==> WellFormed(e, d.uk)) && forall e :: e in b ==> WellFormed(e, d.uk)
    ensures Meanings(d, a + b) == Meanings(d, a) + Meanings(d, b)
  {
  }

  /** Events and copies of the kind the theorems are about. */
  ghost predicate Faultless(x: Setup, incoming: seq<DmlEvent>, t: Turn) {
    && Posed(x) && AllReplayable(x, incoming)
    && (t.Copying? ==>
         && Source(x.cfg.originalColumns, x.d.uk, t.original)
         && |t.range.lo| == |t.range.hi| == |x.d.uk| && NonNull(t.range.lo) && NonNull(t.range.hi)
         && Listed(t.range.lo) && Listed(t.range.hi))
  }

  /** What the turn did to the ghost, one operation at a time. */
  ghost function Ops(x: Setup, incoming: seq<DmlEvent>, w: Work, t: Turn): seq<Op>
    requires Faultless(x, incoming, t) && Runs(x, incoming, t) && w.taken <= |incoming|
  {
    var w' := WorkTurn(x, incoming, w, t);
    if w.stopped || w'.stopped then []
    else
      match t
      case Queued(drain, _) =>
        if w.taken == |incoming| then [] else Singles(Meanings(x.d, NextBatch(incoming, w, drain)))
      case Copying(o, r, limit, _) => [Copied(o, KeySet(CopyKeys(o.Keys, r.lo, r.hi, limit)))]
      case Ended => []
      case Idle => []
  }

  ghost function History(x: Setup, incoming: seq<DmlEvent>, w: Work, ts: seq<Turn>): seq<Op>
    requires (forall t :: t in ts ==> Faultless(x, incoming, t)) && RunsAll(x, incoming, ts) && w.taken <= |incoming|
    decreases |ts|
  {
    if ts == [] then []
    else
      var n := |ts| - 1;
      History(x, incoming, w, ts[..n]) + Ops(x, incoming, WorkTurns(x, incoming, w, ts[..n]), ts[n])
  }

  /** The ghost is the fold of the operations; their single events are the committed batches' in order. */
  ghost predicate Refined(x: Setup, g: Table, w: Work, ops: seq<Op>) {
    && w.gho == Fold(x.cfg, g, ops) && WellKeyed(x.d, w.gho)
    && AllReplayable(x, Flatten(w.batches))
    && Replayed(ops) == Meanings(x.d, Flatten(w.batches))
  }

  lemma FlattenSnoc(batches: seq<seq<DmlEvent>>, batch: seq<DmlEvent>)
    ensures Flatten(batches + [batch]) == Flatten(batches) + batch
  {
    assert (batches + [batch])[..|batches|] == batches;
  }

  lemma BatchRefines(x: Setup, g: Table, w: Work, w': Work, batch: seq<DmlEvent>, ops: seq<Op>)
    requires Posed(x) && Refined(x, g, w, ops) && AllReplayable(x, batch)
    requires w'.batches == w.batches + [batch] && Replaying(x, w.gho, batch) == Ok(w'.gho) && WellKeyed(x.d, w'.gho)
    ensures Refined(x, g, w', ops + Singles(Meanings(x.d, batch)))
  {
    var es := Meanings(x.d, batch);
    FoldAppend(x.cfg, g, ops, Singles(es));
    FoldSingles(x.cfg, w.gho, es);
    ReplayedAppend(ops, Singles(es));
    ReplayedSingles(es);
    FlattenSnoc(w.batches, batch);
    MeaningsAppend(x.d, Flatten(w.batches), batch);
  }

  lemma QueuedRefines(x: Setup, incoming: seq<DmlEvent>, g: Table, w: Work, t: Turn, ops: seq<Op>)
    requires Faultless(x, incoming, t) && Runs(x, incoming, t) && t.Queued? && w.taken < |incoming| && !w.stopped
    requires Refined(x, g, w, ops)
    ensures Refined(x, g, WorkTurn(x, incoming, w, t), ops + Ops(x, incoming, w, t))
  {
    hide RunAll;
    var w' := WorkTurn(x, incoming, w, t);
    if w'.stopped {
      assert ops + [] == ops;
    } else {
      RunAllReplays(x, w.gho, NextBatch(incoming, w, t.drain));
      BatchRefines(x, g, w, w', NextBatch(incoming, w, t.drain), ops);
    }
  }

  lemma CopyRefines(x: Setup, incoming: seq<DmlEvent>, g: Table, w: Work, t: Turn, ops: seq<Op>)
    requires Faultless(x, incoming, t) && Runs(x, incoming, t) && t.Copying? && w.taken <= |incoming| && !w.stopped
    requires Refined(x, g, w, ops)
    ensures Refined(x, g, WorkTurn(x, incoming, w, t), ops + Ops(x, incoming, w, t))
  {
    hide RunCopyText, RenderCopy, AffectedBy;
    var w' := WorkTurn(x, incoming, w, t);
    if w'.stopped {
      assert ops + [] == ops;
    } else {
      var op := Ops(x, incoming, w, t)[0];
      CopyTextRuns(x.cfg, x.d, x.columns, t.original, CopyFor(x, t), w.gho);
      FoldAppend(x.cfg, g, ops, [op]);
      assert [op][1..] == [];
      ReplayedAppend(ops, [op]);
    }
  }

  /** Batching refines one-at-a-time replay: for every queue content, batch size and schedule, the ghost
      is what the committed events, one by one in stream order, and the copies between them make of it. */
  lemma {:induction false} OneAtATime(x: Setup, incoming: seq<DmlEvent>, w: Work, ts: seq<Turn>)
    requires (forall t :: t in ts ==> Faultless(x, incoming, t)) && RunsAll(x, incoming, ts)
    requires w.taken == 0 && w.batches == [] && WellKeyed(x.d, w.gho)
    ensures Refined(x, w.gho, WorkTurns(x, incoming, w, ts), History(x, incoming, w, ts))
    decreases |ts|
  {
    if ts != [] {
      var n := |ts| - 1;
      OneAtATime(x, incoming, w, ts[..n]);
      var v, t, ops := WorkTurns(x, incoming, w, ts[..n]), ts[n], History(x, incoming, w, ts[..n]);
      if !v.stopped && t.Queued? && v.taken < |incoming| {
        QueuedRefines(x, incoming, w.gho, v, t, ops);
      } else if !v.stopped && t.Copying? {
        CopyRefines(x, incoming, w.gho, v, t, ops);
      } else {
        assert ops + [] == ops;
      }
    }
  }

  /** With names that do not look quoted, a batch fails, and then stops the executor and leaves the ghost
      as it was, exactly when the connection is gone before its commit or an event writes a column that
      the ghost does not have. */
  lemma BatchFailsIff(x: Setup, incoming: seq<DmlEvent>, w: Work, drain: Drain, gone: Option<nat>)
    requires Faultless(x, incoming, Queued(drain, gone)) && Runs(x, incoming, Queued(drain, gone))
    requires w.taken < |incoming| && !w.stopped && WellKeyed(x.d, w.gho)
    ensures var w', batch := QueuedTurn(x, incoming, w, drain, gone), NextBatch(incoming, w, drain);
      && AllReplayable(x, batch)
      && (w'.stopped <==> Gone(gone, |batch| + 1) || !AllFit(x, batch))
      && (w'.stopped ==> w'.gho == w.gho && w'.counter == w.counter && w'.hand == batch)
  {
    RunAllReplays(x, w.gho, NextBatch(incoming, w, drain));
  }

  /** A turn stops the executor exactly when it is the end, when a batch fails, or when a copy loses the
      connection; one that finds nothing to do changes nothing. */
  lemma TurnStopsIff(x: Setup, incoming: seq<DmlEvent>, w: Work, t: Turn)
    requires Faultless(x, incoming, t) && Runs(x, incoming, t) && w.taken <= |incoming|
    requires WellKeyed(x.d, w.gho) && !w.stopped
    ensures w.taken < |incoming| && t.Queued? ==> AllReplayable(x, NextBatch(incoming, w, t.drain))
    ensures WorkTurn(x, incoming, w, t).stopped <==>
      || t.Ended?
      || (t.Queued? && w.taken < |incoming|
          && var batch := NextBatch(incoming, w, t.drain); Gone(t.gone, |batch| + 1) || !AllFit(x, batch))
      || (t.Copying? && t.lost)
    ensures t.Ended? || t.Idle? || (t.Queued? && w.taken == |incoming|) ==>
      WorkTurn(x, incoming, w, t) == w.(stopped := t.Ended?)
  {
    hide QueuedTurn, CopyTurn, NextBatch;
    if t.Queued? && w.taken < |incoming| {
      BatchFailsIff(x, incoming, w, t.drain, t.gone);
    } else if t.Copying? {
      CopyTurnCopies(x, w, t);
    }
  }

  /** The condition on the names is needed: a column whose name has its double quotes in it. */
  lemma QuotedBatchFails()
    ensures var d, ctx, e := QuotedSchema({}), QuotedContext(), QuotedInsert();
      && ValidSchema(d) && WellKeyed(d, map[]) && Replayable(d, ctx, e)
      && Fits(d.columns, MeaningOf(d, e)) && RunAll(d, ctx, map[], [e]).Err?
  {
    hide Sent, QueryFor;
    QuotedColumnFails();
    assert [] + [QuotedInsert()] == [QuotedInsert()];
    RunAllSnoc(QuotedSchema({}), QuotedContext(), map[], [], QuotedInsert());
  }

  // ---- the executor's turns are steps of the state machine ----

  /** What the executor of the state machine holds. */
  datatype Held = Held(stopped: bool, gho: Table, batch: seq<Event>, queue: seq<Event>)

  function Hold(s: State): Held {
    Held(s.stopped, s.gho, s.batch, s.queue)
  }

  /** It is what the executor holds: the same ghost table, the batch in hand and the waiting events. Only a
      stopped executor has a batch in hand. */
  ghost predicate Mirrors(x: Setup, incoming: seq<DmlEvent>, h: Held, w: Work) {
    && h.stopped == w.stopped && h.gho == w.gho && WellKeyed(x.d, w.gho) && w.taken <= |incoming|
    && AllReplayable(x, w.hand) && h.batch == Meanings(x.d, w.hand) && (!w.stopped ==> w.hand == [])
    && AllReplayable(x, incoming[w.taken..]) && h.queue == Meanings(x.d, incoming[w.taken..])
  }

  lemma FitsAreEnabled(x: Setup, batch: seq<DmlEvent>)
    requires Posed(x) && AllReplayable(x, batch)
    ensures AllFit(x, batch) <==>
      forall e :: e in Meanings(x.d, batch) ==> e.Delete? || e.row.Keys <= x.cfg.ghostColumns
  {
    var es := Meanings(x.d, batch);
    forall i | 0 <= i < |batch|
      ensures es[i] == MeaningOf(x.d, batch[i]) && es[i] in es && batch[i] in batch
    {
    }
    if AllFit(x, batch) {
      forall e | e in es
        ensures e.Delete? || e.row.Keys <= x.cfg.ghostColumns
      {
        var i :| 0 <= i < |es| && es[i] == e;
        assert Fits(x.d.columns, MeaningOf(x.d, batch[i]));
      }
    }
  }

  lemma TakeAndCommit(x: Setup, s: State, g: Table, batch: seq<DmlEvent>, rest: seq<Event>)
    requires Posed(x) && AllReplayable(x, batch) && batch != [] && WellKeyed(x.d, g)
    requires !s.swapped && !s.stopped && s.batch == [] && s.taken.None? && s.gho == g
    requires s.queue == Meanings(x.d, batch) + rest
    ensures Enabled(x.cfg, s, TakeBatch(|batch|))
    ensures var s1 := Next(x.cfg, s, TakeBatch(|batch|));
      var r := RunAll(x.d, x.ctx, g, batch);
      && Enabled(x.cfg, s1, Stop)
      && Next(x.cfg, s1, Stop) == s.(batch := Meanings(x.d, batch), queue := rest, stopped := true)
      && (r.Ok? ==>
           && Enabled(x.cfg, s1, CommitBatch) && WellKeyed(x.d, r.value)
           && Next(x.cfg, s1, CommitBatch)
              == s.(queue := rest, gho := r.value, applied := s.applied + Meanings(x.d, batch)))
  {
    var es := Meanings(x.d, batch);
    assert s.queue[..|batch|] == es && s.queue[|batch|..] == rest;
    RunAllReplays(x, g, batch);
    FitsAreEnabled(x, batch);
  }

  /** A batch of the executor is the state machine taking it from the queue, and committing it or stopping
      with it in hand. */
  lemma BatchIsStep(x: Setup, incoming: seq<DmlEvent>, s: State, w: Work, drain: Drain, gone: Option<nat>)
    requires Posed(x) && AllReplayable(x, incoming) && Runs(x, incoming, Queued(drain, gone))
    requires w.taken < |incoming| && Mirrors(x, incoming, Hold(s), w) && !w.stopped && !s.swapped && s.taken.None?
    ensures var w', n := QueuedTurn(x, incoming, w, drain, gone), |NextBatch(incoming, w, drain)|;
      var last := if w'.stopped then Stop else CommitBatch;
      && Enabled(x.cfg, s, TakeBatch(n))
      && var s1 := Next(x.cfg, s, TakeBatch(n));
         && Enabled(x.cfg, s1, last) && Mirrors(x, incoming, Hold(Next(x.cfg, s1, last)), w')
         && Next(x.cfg, s1, last)
            == s.(gho := w'.gho, batch := Meanings(x.d, w'.hand), queue := Meanings(x.d, incoming[w'.taken..]),
                  stopped := w'.stopped, applied := Next(x.cfg, s1, last).applied)
  {
    hide RunAll, Enabled, Next, MeaningOf, BatchSize, NextBatch;
    var batch := NextBatch(incoming, w, drain);
    var rest := incoming[w.taken + |batch|..];
    assert forall e :: e in rest ==> e in incoming[w.taken..];
    MeaningsAppend(x.d, batch, rest);
    TakeAndCommit(x, s, w.gho, batch, Meanings(x.d, rest));
  }

  /** A copy succeeds unless the connection is lost; then the ghost has the copied rows. */
  lemma CopyTurnCopies(x: Setup, w: Work, t: Turn)
    requires Faultless(x, [], t) && Runs(x, [], t) && t.Copying? && WellKeyed(x.d, w.gho)
    ensures var w', keys := CopyTurn(x, w, t), CopyKeys(t.original.Keys, t.range.lo, t.range.hi, t.limit);
      && WellKeyed(x.d, CopyInto(x.cfg, w.gho, t.original, KeySet(keys)))
      && (t.lost ==> w' == w.(stopped := true))
      && (!t.lost ==> w' == w.(gho := CopyInto(x.cfg, w.gho, t.original, KeySet(keys)), copied := w'.copied))
      && (!t.lost && NonKey(x.columns, x.d.uk) != [] ==> w'.copied == w.copied + |keys|)
  {
    hide RunCopyText, RenderCopy, AffectedBy;
    CopyTextRuns(x.cfg, x.d, x.columns, t.original, CopyFor(x, t), w.gho);
    if NonKey(x.columns, x.d.uk) != [] {
      ReportsCopied(x.cfg, x.d, x.columns, t.original, CopyFor(x, t), w.gho);
    }
  }

  /** A copy of the executor is the state machine's, or stops the executor on a lost connection and changes
      nothing else; unless the table has only key columns, it adds the number of copied rows to the
      context's count. */
  lemma CopyIsStep(x: Setup, incoming: seq<DmlEvent>, s: State, w: Work, t: Turn)
    requires Faultless(x, [], t) && Runs(x, [], t) && t.Copying?
    requires Mirrors(x, incoming, Hold(s), w) && !w.stopped && !s.swapped
    requires s.taken == Some(t.range) && s.original == t.original
    ensures var w', step := CopyTurn(x, w, t), if CopyTurn(x, w, t).stopped then Stop else RunCopy(t.limit);
      && Enabled(x.cfg, s, step) && Mirrors(x, incoming, Hold(Next(x.cfg, s, step)), w')
      && (w'.stopped <==> t.lost)
      && (w'.stopped ==> w' == w.(stopped := true))
      && (!w'.stopped && NonKey(x.columns, x.d.uk) != [] ==>
            w'.copied == w.copied + |CopyKeys(t.original.Keys, t.range.lo, t.range.hi, t.limit)|)
  {
    hide CopyTurn, MeaningOf;
    CopyTurnCopies(x, w, t);
    assert CopySet(s, t.range, t.limit) == KeySet(CopyKeys(t.original.Keys, t.range.lo, t.range.hi, t.limit));
  }
}
