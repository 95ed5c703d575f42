/** The goroutines' own steps, taken in any interleaving, are runs of the state machine: everything
    proved about its runs holds of the executor's ghost table. */
module Refinement {
  import opened Values
  import opened Selection
  import opened Replay
  import opened Events
  import opened Sql
  import opened Protocol
  import opened Conversion
  import opened Statements
  import opened Sending
  import opened Batching
  import opened Streaming
  import Builders
  import Chunks
  import opened CopySql
  import opened CopyReading
  import RowCopy

  /** What the database, the stream reader, the executor and the chunk iterator hold. */
  datatype Code = Code(
    original: Table, events: seq<DmlEvent>, read: nat, work: Work,
    phase: RangePhase, progress: Chunks.Progress, sending: Option<Range>, taken: Option<Range>,
    markerSeen: bool, swapped: bool, limitsHeld: bool)

  datatype Action =
    | Write(event: DmlEvent)
    | Receive(heard: bool)
    | RunBatch(drain: Drain, gone: Option<nat>)
    | ReadLeast
    | ReadGreatest
    | Iterate(chunkSize: nat)
    | Hand
    | Copy(limit: nat, lost: bool)
    | Halt
    | Swap

  function Begin(start: Table): Code {
    Code(start, [], 0, Work(0, [], [], 0, 0, map[], false), Unread,
         Chunks.Progress(Chunks.NO_CURSOR, [], Chunks.Running), None, None, false, false, true)
  }

  /** The events that have been queued so far. */
  function Queue(n: Names, c: Code): seq<DmlEvent>
    requires c.read <= |c.events|
  {
    Routed(n, c.events[..c.read])
  }

  function CopyTurnOf(c: Code, limit: nat, lost: bool): Turn
    requires c.taken.Some?
  {
    Copying(c.original, c.taken.value, limit, lost)
  }

  /** A key of the migration's unique key, whose values are integers and texts. */
  ghost predicate GoodKey(x: Setup, k: Option<Key>) {
    k.Some? ==> |k.value| == |x.d.uk| && NonNull(k.value) && CopyReading.Listed(k.value)
  }

  /** The original's rows, under such keys. */
  ghost predicate Rows(x: Setup, o: Table) {
    RowCopy.Source(x.cfg.originalColumns, x.d.uk, o) && forall k :: k in o ==> CopyReading.Listed(k)
  }

  ghost predicate GoodRange(x: Setup, r: Option<Range>) {
    r.Some? ==> GoodKey(x, Some(r.value.lo)) && GoodKey(x, Some(r.value.hi))
  }

  ghost predicate GoodCursor(x: Setup, c: Chunks.Cursor) {
    GoodKey(x, c.migrationMin) && GoodKey(x, c.migrationMax) && GoodKey(x, c.iterationMin) && GoodKey(x, c.iterationMax)
  }

  /** A decoded change of the table as it is, or a change of another table. */
  ghost predicate Acceptable(x: Setup, n: Names, c: Code, e: DmlEvent) {
    && Builders.Tuples(e)
    && (OnOriginal(n, e) ==>
          && Sendable(x, e) && Legal(c.original, MeaningOf(x.d, e))
          && (MeaningOf(x.d, e).Delete? || MeaningOf(x.d, e).row.Keys == x.cfg.originalColumns))
    && (OnChangelog(n, e) && MarkerOf(e).Some? ==>
          && c.progress.status.Complete?
          && forall f :: f in c.events ==> Builders.Tuples(f) && !(OnChangelog(n, f) && MarkerOf(f).Some?))
  }

  /** Before the swap. */
  predicate Live(n: Names, c: Code) {
    !c.swapped && c.read <= |c.events| && c.work.taken <= |Queue(n, c)|
  }

  /** No step follows the swap. Once the executor has stopped only its own steps are over: the database,
      the reader, the iterator and the cutover may go on. */
  ghost predicate Possible(x: Setup, n: Names, c: Code, a: Action) {
    && Live(n, c)
    && match a
       case Write(e) => Acceptable(x, n, c, e)
       case Receive(_) => c.read < |c.events| && Builders.Tuples(c.events[c.read])
       case RunBatch(drain, gone) =>
         && !c.work.stopped && c.taken.None? && c.work.taken < |Queue(n, c)|
         && Runs(x, Queue(n, c), Queued(drain, gone))
       case ReadLeast => c.phase == Unread
       case ReadGreatest => c.phase == MinRead
       case Iterate(_) => c.phase == RangeRead && c.progress.status.Running? && c.sending.None?
       case Hand => !c.work.stopped && c.sending.Some? && c.taken.None?
       case Copy(limit, lost) => !c.work.stopped && c.taken.Some? && Runs(x, [], CopyTurnOf(c, limit, lost))
       case Halt => !c.work.stopped
       case Swap => c.markerSeen
  }

  /** A copy that fails stays in the hand of the stopped executor. */
  function AfterCopy(x: Setup, c: Code, limit: nat, lost: bool): Code
    requires c.taken.Some? && Runs(x, [], CopyTurnOf(c, limit, lost))
  {
    var w, r := CopyTurn(x, c.work, CopyTurnOf(c, limit, lost)), c.taken.value;
    if w.stopped then c.(work := w)
    else
      c.(work := w, taken := None,
         limitsHeld := c.limitsHeld && 1 <= limit && |HalfOpen(c.original.Keys, r.lo, r.hi)| <= limit)
  }

  function After(x: Setup, n: Names, c: Code, a: Action): Code
    requires Possible(x, n, c, a)
  {
    match a
    case Write(e) =>
      c.(original := if OnOriginal(n, e) then Commit(c.original, MeaningOf(x.d, e)) else c.original,
         events := c.events + [e])
    case Receive(heard) =>
      var e := c.events[c.read];
      c.(read := c.read + 1, markerSeen := c.markerSeen || (OnChangelog(n, e) && MarkerOf(e).Some? && heard))
    case RunBatch(drain, gone) => c.(work := QueuedTurn(x, Queue(n, c), c.work, drain, gone))
    case ReadLeast =>
      if c.original == map[] then c.(phase := RangeRead)
      else
        var least := Some(Least(c.original.Keys));
        var cursor := c.progress.cursor.(migrationMin := least, iterationMin := least);
        c.(phase := MinRead, progress := c.progress.(cursor := cursor))
    case ReadGreatest =>
      if c.original == map[] then c.(phase := Emptied)
      else
        var greatest := Some(Greatest(c.original.Keys));
        c.(phase := RangeRead, progress := c.progress.(cursor := c.progress.cursor.(migrationMax := greatest)))
    case Iterate(chunkSize) =>
      var p := Chunks.Turn(c.progress, Chunks.Look(c.original.Keys, chunkSize));
      c.(progress := p, sending := if p.chunks != c.progress.chunks then Some(p.chunks[|p.chunks| - 1]) else None)
    case Hand => c.(taken := c.sending, sending := None)
    case Copy(limit, lost) => AfterCopy(x, c, limit, lost)
    case Halt => c.(work := c.work.(stopped := true))
    case Swap => c.(swapped := true)
  }

  // ---- the relation between the two ----

  ghost predicate StreamRel(x: Setup, n: Names, events: seq<DmlEvent>, read: nat, stream: seq<Entry>, delivered: nat) {
    && Readable(n, x.d.uk, events) && AllReplayable(x, Routed(n, events))
    && stream == Entries(n, x.d, events) && delivered == read <= |events|
  }

  ghost predicate QueueRel(x: Setup, n: Names, events: seq<DmlEvent>, read: nat, work: Work, h: Held) {
    && read <= |events| && AllReplayable(x, Routed(n, events[..read]))
    && Mirrors(x, Routed(n, events[..read]), h, work)
  }

  ghost predicate ChunkRel(x: Setup, c: Code, s: State) {
    && s.phase == c.phase && s.cursor == c.progress.cursor && s.chunks == c.progress.chunks
    && s.sending == c.sending && s.taken == c.taken && s.limitsHeld == c.limitsHeld
    && !c.progress.status.Stopped? && s.copyComplete == c.progress.status.Complete?
    && GoodCursor(x, c.progress.cursor) && GoodRange(x, c.sending) && GoodRange(x, c.taken)
  }

  ghost predicate Rel(x: Setup, n: Names, c: Code, s: State) {
    && s.swapped == c.swapped && s.markerSeen == c.markerSeen
    && s.original == c.original && Rows(x, c.original)
    && StreamRel(x, n, c.events, c.read, s.stream, s.delivered)
    && QueueRel(x, n, c.events, c.read, c.work, Hold(s)) && ChunkRel(x, c, s)
  }

  lemma RelBegins(x: Setup, n: Names, start: Table)
    requires Posed(x) && Rows(x, start)
    ensures Rel(x, n, Begin(start), Start(start))
  {
  }

  // ---- source and stream ----

  lemma EntriesSnoc(n: Names, d: Schema, events: seq<DmlEvent>, e: DmlEvent)
    requires Readable(n, d.uk, events) && Builders.Tuples(e) && (OnOriginal(n, e) ==> WellFormed(e, d.uk))
    ensures Readable(n, d.uk, events + [e])
    ensures Entries(n, d, events + [e]) == Entries(n, d, events) + [EntryOf(n, e, d)]
  {
  }

  lemma RoutedSnoc(n: Names, events: seq<DmlEvent>, e: DmlEvent)
    ensures Routed(n, events + [e]) == Routed(n, events) + if OnOriginal(n, e) then [e] else []
  {
    assert (events + [e])[..|events|] == events;
  }

  /** The step of the state machine that a write is. */
  function WriteStep(x: Setup, n: Names, e: DmlEvent): Step
    requires Builders.Tuples(e) && (OnOriginal(n, e) ==> WellFormed(e, x.d.uk))
  {
    match EntryOf(n, e, x.d)
    case Change(change) => SourceCommit(change)
    case Marker => WriteMarker
    case Other => OtherEntry
  }

  lemma NoMarkerYet(x: Setup, n: Names, c: Code, s: State, e: DmlEvent)
    requires StreamRel(x, n, c.events, c.read, s.stream, s.delivered) && Acceptable(x, n, c, e)
    requires OnChangelog(n, e) && MarkerOf(e).Some?
    ensures Marker !in s.stream
  {
    forall i | 0 <= i < |s.stream|
      ensures s.stream[i] != Marker
    {
      assert c.events[i] in c.events;
    }
  }

  /** The key under which a change stores its row. */
  function KeyAfter(e: Event): Key
    requires !e.Delete?
  {
    if e.Insert? then e.key else e.newKey
  }

  lemma CommitKeepsSource(columns: set<string>, uk: seq<string>, o: Table, e: Event)
    requires RowCopy.Source(columns, uk, o) && Keyed(e, uk)
    requires e.Delete? || (e.row.Keys == columns && NonNull(KeyAfter(e)))
    ensures RowCopy.Source(columns, uk, Commit(o, e))
  {
  }

  lemma KeyOfMeaning(x: Setup, e: DmlEvent)
    requires Posed(x) && Replayable(x.d, x.ctx, e)
    ensures var change := MeaningOf(x.d, e);
      !change.Delete? ==> NonNull(KeyAfter(change)) && CopyReading.Listed(KeyAfter(change))
  {
    hide RowOf;
    if !e.dml.DeleteDML? {
      TupleTyped(x.d, e.newValues.value);
      TypedNonNull(KeyKinds(x.d), KeyAfter(MeaningOf(x.d, e)));
    }
  }

  lemma SourceKept(x: Setup, c: Code, n: Names, e: DmlEvent)
    requires Posed(x) && Rows(x, c.original) && Acceptable(x, n, c, e) && OnOriginal(n, e)
    ensures Rows(x, Commit(c.original, MeaningOf(x.d, e)))
  {
    MeaningKeyed(x.d, e);
    KeyOfMeaning(x, e);
    CommitKeepsSource(x.cfg.originalColumns, x.d.uk, c.original, MeaningOf(x.d, e));
  }

  /** What a write leaves of the relation: all of it but the table, when the entry is a change. */
  lemma WriteKeeps(x: Setup, n: Names, c: Code, s: State, e: DmlEvent)
    requires Rel(x, n, c, s) && Builders.Tuples(e) && (OnOriginal(n, e) ==> Sendable(x, e))
    ensures OnOriginal(n, e) ==> WellFormed(e, x.d.uk)
    ensures Rel(x, n, c.(events := c.events + [e]), s.(stream := s.stream + [EntryOf(n, e, x.d)]))
  {
    EntriesSnoc(n, x.d, c.events, e);
    RoutedSnoc(n, c.events, e);
    assert (c.events + [e])[..c.read] == c.events[..c.read];
    hide Mirrors, MeaningOf;
  }

  lemma SimChange(x: Setup, n: Names, c: Code, s: State, e: DmlEvent)
    requires Posed(x) && Rel(x, n, c, s) && Possible(x, n, c, Write(e)) && OnOriginal(n, e)
    ensures WellFormed(e, x.d.uk)
    ensures var step := SourceCommit(MeaningOf(x.d, e));
      Enabled(x.cfg, s, step) && Rel(x, n, After(x, n, c, Write(e)), Next(x.cfg, s, step))
  {
    WriteKeeps(x, n, c, s, e);
    SourceKept(x, c, n, e);
    hide Mirrors, MeaningOf, AllReplayable, GoodCursor, GoodRange, Rows, StreamRel, Queue;
  }

  lemma SimWrite(x: Setup, n: Names, c: Code, s: State, e: DmlEvent)
    requires Posed(x) && Rel(x, n, c, s) && Possible(x, n, c, Write(e))
    ensures OnOriginal(n, e) ==> WellFormed(e, x.d.uk)
    ensures var step := WriteStep(x, n, e);
      Enabled(x.cfg, s, step) && Rel(x, n, After(x, n, c, Write(e)), Next(x.cfg, s, step))
  {
    if OnOriginal(n, e) {
      SimChange(x, n, c, s, e);
    } else {
      WriteKeeps(x, n, c, s, e);
      if OnChangelog(n, e) && MarkerOf(e).Some? {
        NoMarkerYet(x, n, c, s, e);
      }
    }
    hide Mirrors, MeaningOf, AllReplayable, GoodCursor, GoodRange, Rows, StreamRel, Queue;
  }

  // ---- delivery ----

  lemma QueueGrows(n: Names, c: Code)
    requires c.read < |c.events|
    ensures Routed(n, c.events[..c.read + 1])
         == Routed(n, c.events[..c.read]) + if OnOriginal(n, c.events[c.read]) then [c.events[c.read]] else []
  {
    assert c.events[..c.read + 1] == c.events[..c.read] + [c.events[c.read]];
    RoutedSnoc(n, c.events[..c.read], c.events[c.read]);
  }

  lemma ReplayableOne(x: Setup, n: Names, c: Code)
    requires c.read < |c.events| && AllReplayable(x, Routed(n, c.events)) && OnOriginal(n, c.events[c.read])
    ensures Sendable(x, c.events[c.read])
  {
    QueueGrows(n, c);
    RoutedPrefix(n, c.events, c.read + 1);
    assert c.events[c.read] in Routed(n, c.events[..c.read + 1]);
  }

  /** The queue after one more event: what is still waiting gets the event at its end. */
  lemma WaitingGrows(x: Setup, queue: seq<DmlEvent>, taken: nat, e: DmlEvent)
    requires AllReplayable(x, queue) && taken <= |queue| && AllReplayable(x, queue[taken..])
    requires Sendable(x, e)
    ensures AllReplayable(x, queue + [e]) && AllReplayable(x, (queue + [e])[taken..])
    ensures Meanings(x.d, (queue + [e])[taken..]) == Meanings(x.d, queue[taken..]) + [MeaningOf(x.d, e)]
  {
    assert (queue + [e])[taken..] == queue[taken..] + [e];
    MeaningsSnoc(x.d, queue[taken..], e);
  }

  lemma QueueReceives(x: Setup, n: Names, c: Code, queue: seq<Event>)
    requires c.read < |c.events| && c.work.taken <= |Queue(n, c)|
    requires AllReplayable(x, Routed(n, c.events)) && AllReplayable(x, Queue(n, c))
    requires AllReplayable(x, Queue(n, c)[c.work.taken..]) && queue == Meanings(x.d, Queue(n, c)[c.work.taken..])
    ensures var e, q := c.events[c.read], Routed(n, c.events[..c.read + 1]);
      && c.work.taken <= |q| && AllReplayable(x, q) && AllReplayable(x, q[c.work.taken..])
      && (OnOriginal(n, e) ==> WellFormed(e, x.d.uk))
      && Meanings(x.d, q[c.work.taken..]) == queue + if OnOriginal(n, e) then [MeaningOf(x.d, e)] else []
  {
    QueueGrows(n, c);
    if OnOriginal(n, c.events[c.read]) {
      ReplayableOne(x, n, c);
      WaitingGrows(x, Queue(n, c), c.work.taken, c.events[c.read]);
    }
  }

  lemma SimReceive(x: Setup, n: Names, c: Code, s: State, heard: bool)
    requires Rel(x, n, c, s) && Possible(x, n, c, Receive(heard))
    ensures Enabled(x.cfg, s, Deliver(heard))
    ensures Rel(x, n, After(x, n, c, Receive(heard)), Next(x.cfg, s, Deliver(heard)))
  {
    hide Runs, AfterCopy, QueuedTurn, Acceptable, GoodCursor, GoodRange, Rows, MeaningOf;
    assert c.events[c.read] in c.events;
    QueueReceives(x, n, c, s.queue);
  }

  // ---- the executor ----

  lemma SimBatch(x: Setup, n: Names, c: Code, s: State, drain: Drain, gone: Option<nat>)
    requires Posed(x) && Rel(x, n, c, s) && Possible(x, n, c, RunBatch(drain, gone))
    ensures var c' := After(x, n, c, RunBatch(drain, gone));
      var take := TakeBatch(|NextBatch(Queue(n, c), c.work, drain)|);
      var last := if c'.work.stopped then Stop else CommitBatch;
      && Enabled(x.cfg, s, take)
      && var s1 := Next(x.cfg, s, take); Enabled(x.cfg, s1, last) && Rel(x, n, c', Next(x.cfg, s1, last))
  {
    hide QueuedTurn, Enabled, Next, Mirrors;
    BatchIsStep(x, Queue(n, c), s, c.work, drain, gone);
  }

  lemma SimCopy(x: Setup, n: Names, c: Code, s: State, limit: nat, lost: bool)
    requires Posed(x) && Rel(x, n, c, s) && Possible(x, n, c, Copy(limit, lost))
    ensures var c' := After(x, n, c, Copy(limit, lost));
      var step := if c'.work.stopped then Stop else RunCopy(limit);
      Enabled(x.cfg, s, step) && Rel(x, n, c', Next(x.cfg, s, step))
  {
    hide CopyTurn, Mirrors, StreamRel, Acceptable, QueuedTurn;
    CopyIsStep(x, Queue(n, c), s, c.work, CopyTurnOf(c, limit, lost));
  }

  // ---- the iterator and the cutover ----

  lemma TurnGood(x: Setup, c: Code, chunkSize: nat)
    requires Rows(x, c.original)
    requires GoodCursor(x, c.progress.cursor) && c.progress.status.Running?
    ensures var p := Chunks.Turn(c.progress, Chunks.Look(c.original.Keys, chunkSize));
      && GoodCursor(x, p.cursor) && !p.status.Stopped?
      && (p.status.Running? ==>
            p.chunks != [] && p.chunks != c.progress.chunks && GoodRange(x, Some(p.chunks[|p.chunks| - 1])))
      && (p.status.Complete? ==> p.chunks == c.progress.chunks)
  {
    assert forall k :: k in c.original ==> GoodKey(x, Some(k));
    if c.progress.cursor.iterationMin.Some? {
      BoundaryFacts(c.original.Keys, c.progress.cursor.iterationMin.value, chunkSize);
    }
  }

  lemma SimIterate(x: Setup, n: Names, c: Code, s: State, chunkSize: nat)
    requires Rel(x, n, c, s) && Possible(x, n, c, Iterate(chunkSize))
    ensures Enabled(x.cfg, s, NextChunk(chunkSize))
    ensures Rel(x, n, After(x, n, c, Iterate(chunkSize)), Next(x.cfg, s, NextChunk(chunkSize)))
  {
    hide StreamRel, QueueRel, Runs, AfterCopy, QueuedTurn, Acceptable;
    TurnGood(x, c, chunkSize);
  }

  /** Reading the range, handing a chunk over, a panic and the swap are the state machine's steps. */
  function QuietStep(a: Action): Step
    requires a.ReadLeast? || a.ReadGreatest? || a.Hand? || a.Halt? || a.Swap?
  {
    match a
    case ReadLeast => ReadMin
    case ReadGreatest => ReadMax
    case Hand => HandOver
    case Halt => Stop
    case Swap => CutOver
  }

  lemma QueueHalts(x: Setup, n: Names, events: seq<DmlEvent>, read: nat, w: Work, h: Held)
    requires QueueRel(x, n, events, read, w, h)
    ensures QueueRel(x, n, events, read, w.(stopped := true), h.(stopped := true))
  {
  }

  lemma SimRange(x: Setup, n: Names, c: Code, s: State, a: Action)
    requires Rel(x, n, c, s) && Possible(x, n, c, a) && (a.ReadLeast? || a.ReadGreatest?)
    ensures Enabled(x.cfg, s, QuietStep(a)) && Rel(x, n, After(x, n, c, a), Next(x.cfg, s, QuietStep(a)))
  {
    hide StreamRel, QueueRel, Runs, AfterCopy, QueuedTurn, Acceptable;
    assert forall k :: k in c.original ==> GoodKey(x, Some(k));
  }

  lemma SimOthers(x: Setup, n: Names, c: Code, s: State, a: Action)
    requires Rel(x, n, c, s) && Possible(x, n, c, a) && (a.Hand? || a.Halt? || a.Swap?)
    ensures Enabled(x.cfg, s, QuietStep(a)) && Rel(x, n, After(x, n, c, a), Next(x.cfg, s, QuietStep(a)))
  {
    if a.Halt? {
      QueueHalts(x, n, c.events, c.read, c.work, Hold(s));
    }
    hide StreamRel, QueueRel, GoodCursor, Rows, Runs, AfterCopy, QueuedTurn, Acceptable;
  }

  lemma SimQuiet(x: Setup, n: Names, c: Code, s: State, a: Action)
    requires Rel(x, n, c, s) && Possible(x, n, c, a)
    requires a.ReadLeast? || a.ReadGreatest? || a.Hand? || a.Halt? || a.Swap?
    ensures Enabled(x.cfg, s, QuietStep(a)) && Rel(x, n, After(x, n, c, a), Next(x.cfg, s, QuietStep(a)))
  {
    hide Enabled, Next, Rel, After;
    if a.ReadLeast? || a.ReadGreatest? {
      SimRange(x, n, c, s, a);
    } else {
      SimOthers(x, n, c, s, a);
    }
  }

  // ---- whole runs ----

  lemma TwoSteps(cfg: Config, s: State, a: Step, b: Step)
    requires Enabled(cfg, s, a) && Enabled(cfg, Next(cfg, s, a), b)
    ensures RunEnabled(cfg, s, [a, b]) && Run(cfg, s, [a, b]) == Next(cfg, Next(cfg, s, a), b)
  {
    hide Enabled, Next;
    var s1 := Next(cfg, s, a);
    assert RunEnabled(cfg, s1, [b]) && Run(cfg, s1, [b]) == Run(cfg, Next(cfg, s1, b), []) by {
      assert [b][1..] == [];
    }
    assert [a, b][1..] == [b];
  }

  lemma Single(x: Setup, n: Names, c': Code, s: State, step: Step)
    requires Enabled(x.cfg, s, step) && Rel(x, n, c', Next(x.cfg, s, step))
    ensures RunEnabled(x.cfg, s, [step]) && Rel(x, n, c', Run(x.cfg, s, [step]))
  {
    hide Enabled, Next;
    assert [step][1..] == [];
  }

  /** Every step of the goroutines is one or two steps of the state machine. */
  lemma Simulate(x: Setup, n: Names, c: Code, s: State, a: Action) returns (steps: seq<Step>)
    requires Posed(x) && Rel(x, n, c, s) && Possible(x, n, c, a)
    ensures RunEnabled(x.cfg, s, steps) && Rel(x, n, After(x, n, c, a), Run(x.cfg, s, steps))
  {
    hide Rel, Enabled, Next, After;
    match a
    case Write(e) =>
      SimWrite(x, n, c, s, e);
      steps := [WriteStep(x, n, e)];
      Single(x, n, After(x, n, c, a), s, steps[0]);
    case Receive(heard) =>
      SimReceive(x, n, c, s, heard);
      steps := [Deliver(heard)];
      Single(x, n, After(x, n, c, a), s, steps[0]);
    case RunBatch(drain, gone) =>
      SimBatch(x, n, c, s, drain, gone);
      var take := TakeBatch(|NextBatch(Queue(n, c), c.work, drain)|);
      var last := if After(x, n, c, a).work.stopped then Stop else CommitBatch;
      steps := [take, last];
      TwoSteps(x.cfg, s, take, last);
    case Iterate(chunkSize) =>
      SimIterate(x, n, c, s, chunkSize);
      steps := [NextChunk(chunkSize)];
      Single(x, n, After(x, n, c, a), s, steps[0]);
    case Copy(limit, lost) =>
      SimCopy(x, n, c, s, limit, lost);
      steps := [if After(x, n, c, a).work.stopped then Stop else RunCopy(limit)];
      Single(x, n, After(x, n, c, a), s, steps[0]);
    case _ =>
      SimQuiet(x, n, c, s, a);
      steps := [QuietStep(a)];
      Single(x, n, After(x, n, c, a), s, steps[0]);
  }

  ghost predicate AllPossible(x: Setup, n: Names, c: Code, actions: seq<Action>)
    decreases |actions|
  {
    actions == [] || (Possible(x, n, c, actions[0]) && AllPossible(x, n, After(x, n, c, actions[0]), actions[1..]))
  }

  ghost function AfterAll(x: Setup, n: Names, c: Code, actions: seq<Action>): Code
    requires AllPossible(x, n, c, actions)
    decreases |actions|
  {
    if actions == [] then c else AfterAll(x, n, After(x, n, c, actions[0]), actions[1..])
  }

  lemma {:induction false} RunAppend(cfg: Config, s: State, a: seq<Step>, b: seq<Step>)
    requires RunEnabled(cfg, s, a) && RunEnabled(cfg, Run(cfg, s, a), b)
    ensures RunEnabled(cfg, s, a + b) && Run(cfg, s, a + b) == Run(cfg, Run(cfg, s, a), b)
    decreases |a|
  {
    if a == [] {
      assert a + b == b;
    } else {
      assert (a + b)[1..] == a[1..] + b;
      RunAppend(cfg, Next(cfg, s, a[0]), a[1..], b);
    }
  }

  /** Refinement: every interleaving of the goroutines' steps, the executor's stop and what the others do
      after it included, is a run of the state machine with the same ghost table. */
  lemma {:induction false} EveryInterleavingIsRun(x: Setup, n: Names, c: Code, s: State, actions: seq<Action>)
    returns (steps: seq<Step>)
    requires Posed(x) && Rel(x, n, c, s) && AllPossible(x, n, c, actions)
    ensures RunEnabled(x.cfg, s, steps) && Rel(x, n, AfterAll(x, n, c, actions), Run(x.cfg, s, steps))
    decreases |actions|
  {
    steps := [];
    if actions != [] {
      hide Rel, Possible, After, Enabled, Next;
      var c1 := After(x, n, c, actions[0]);
      steps := Simulate(x, n, c, s, actions[0]);
      var others := EveryInterleavingIsRun(x, n, c1, Run(x.cfg, s, steps), actions[1..]);
      RunAppend(x.cfg, s, steps, others);
      steps := steps + others;
    }
  }

  // ---- convergence of the executor's ghost table ----

  /** No change of the table is still to be read, every routed one was committed, and the chunk loop and its
      last copy are over, each copy's LIMIT having been enough. */
  ghost predicate Settled(n: Names, c: Code) {
    && c.read <= |c.events| && Routed(n, c.events[c.read..]) == []
    && c.work.hand == [] && c.work.taken == |Queue(n, c)|
    && c.progress.status.Complete? && c.taken.None? && c.limitsHeld
  }

  lemma {:induction false} RoutedAppend(n: Names, a: seq<DmlEvent>, b: seq<DmlEvent>)
    ensures Routed(n, a + b) == Routed(n, a) + Routed(n, b)
    decreases |b|
  {
    if b == [] {
      assert a + b == a;
    } else {
      var k := |b| - 1;
      assert (a + b)[..|a + b| - 1] == a + b[..k];
      RoutedAppend(n, a, b[..k]);
    }
  }

  /** When no event of the table is still to be read, the entries still to be delivered hold no change. */
  lemma StreamRead(x: Setup, n: Names, events: seq<DmlEvent>, read: nat, stream: seq<Entry>, delivered: nat)
    requires StreamRel(x, n, events, read, stream, delivered) && Routed(n, events[read..]) == []
    ensures delivered <= |stream| && Changes(stream[delivered..]) == []
    ensures AllReplayable(x, Routed(n, events)) && Changes(stream) == Meanings(x.d, Routed(n, events))
  {
    RoutedAreChanges(n, x.d, events);
    assert forall e :: e in events[read..] ==> e in events;
    RoutedAreChanges(n, x.d, events[read..]);
    assert stream[delivered..] == Entries(n, x.d, events[read..]);
  }

  lemma SettledIsDrained(x: Setup, n: Names, c: Code, s: State)
    requires Rel(x, n, c, s) && Settled(n, c)
    ensures s.delivered <= |s.stream| && Pending(s) == [] && s.copyComplete && s.taken.None? && s.limitsHeld
    ensures AllReplayable(x, Routed(n, c.events)) && Changes(s.stream) == Meanings(x.d, Routed(n, c.events))
    ensures s.gho == c.work.gho && s.original == c.original
  {
    hide GoodCursor, GoodRange, Rows, MeaningOf, Changes;
    StreamRead(x, n, c.events, c.read, s.stream, s.delivered);
  }

  /** No change of the table that was logged moves a row to another key. */
  ghost predicate KeysPreserved(x: Setup, n: Names, c: Code)
    requires AllReplayable(x, Routed(n, c.events))
  {
    forall e :: e in Meanings(x.d, Routed(n, c.events)) ==> KeyPreserving(e)
  }

  /** The executor's ghost table has every row of the original with equal values on the shared columns, and
      without key-changing updates no other row. */
  ghost predicate GhostDone(x: Setup, n: Names, c: Code) {
    && AllReplayable(x, Routed(n, c.events))
    && (forall k :: k in c.original ==> k in c.work.gho && AgreeOn(Shared(x.cfg), c.work.gho[k], c.original[k]))
    && (KeysPreserved(x, n, c) ==> c.work.gho.Keys == c.original.Keys)
  }

  lemma SettledConverges(x: Setup, n: Names, c: Code, start: Table, steps: seq<Step>)
    requires Rows(x, start) && RunEnabled(x.cfg, Start(start), steps)
    requires Rel(x, n, c, Run(x.cfg, Start(start), steps)) && Settled(n, c)
    ensures GhostDone(x, n, c)
  {
    hide Enabled, Next, Run, RunEnabled, Rel, Settled, Changes, Pending, KeyPreserving, AllReplayable;
    var s := Run(x.cfg, Start(start), steps);
    SettledIsDrained(x, n, c, s);
    DrainedWithKeyChanges(x.cfg, start, steps, s);
  }

  /** Whatever the goroutines' interleaving: when all has been applied and copied, the executor's ghost table
      has every row of the original, and without key-changing updates no other row. */
  lemma GhostConverges(x: Setup, n: Names, start: Table, actions: seq<Action>)
    requires Posed(x) && Rows(x, start)
    requires AllPossible(x, n, Begin(start), actions) && Settled(n, AfterAll(x, n, Begin(start), actions))
    ensures GhostDone(x, n, AfterAll(x, n, Begin(start), actions))
  {
    hide Rel, Possible, After, Enabled, Next, Settled, GhostDone;
    RelBegins(x, n, start);
    var steps := EveryInterleavingIsRun(x, n, Begin(start), Start(start), actions);
    SettledConverges(x, n, AfterAll(x, n, Begin(start), actions), start, steps);
  }

  // ---- the executor's account of the queue ----

  lemma AccountedGrows(queue: seq<DmlEvent>, more: seq<DmlEvent>, w: Work)
    requires Accounted(queue, 0, w)
    ensures Accounted(queue + more, 0, w)
  {
    assert (queue + more)[..w.taken] == queue[..w.taken];
  }

  lemma AccountedBatch(x: Setup, queue: seq<DmlEvent>, w: Work, drain: Drain, gone: Option<nat>)
    requires Runs(x, queue, Queued(drain, gone)) && w.taken < |queue| && !w.stopped && Accounted(queue, 0, w)
    ensures Accounted(queue, 0, QueuedTurn(x, queue, w, drain, gone))
  {
    hide RunAll;
    var batch := NextBatch(queue, w, drain);
    FinishedTook(|batch|, queue, w, |batch|, RunAll(x.d, x.ctx, w.gho, batch), Gone(gone, |batch| + 1));
    TookAccounts(|batch|, queue, 0, w, QueuedTurn(x, queue, w, drain, gone), |batch|);
  }

  /** At any time the committed batches and the one in hand are the first of the queued events. */
  lemma AccountedAfter(x: Setup, n: Names, c: Code, a: Action)
    requires Possible(x, n, c, a) && Accounted(Queue(n, c), 0, c.work)
    ensures var c' := After(x, n, c, a); c'.read <= |c'.events| && Accounted(Queue(n, c'), 0, c'.work)
  {
    hide QueuedTurn, RunCopyText, RenderCopy, Acceptable;
    match a
    case Write(e) => assert (c.events + [e])[..c.read] == c.events[..c.read];
    case Receive(heard) =>
      QueueGrows(n, c);
      AccountedGrows(Queue(n, c), if OnOriginal(n, c.events[c.read]) then [c.events[c.read]] else [], c.work);
    case RunBatch(drain, gone) => AccountedBatch(x, Queue(n, c), c.work, drain, gone);
    case _ =>
  }

  lemma {:induction false} AllAccounted(x: Setup, n: Names, c: Code, actions: seq<Action>)
    requires AllPossible(x, n, c, actions) && c.read <= |c.events| && Accounted(Queue(n, c), 0, c.work)
    ensures var c' := AfterAll(x, n, c, actions); c'.read <= |c'.events| && Accounted(Queue(n, c'), 0, c'.work)
    decreases |actions|
  {
    if actions != [] {
      AccountedAfter(x, n, c, actions[0]);
      hide Possible, After;
      AllAccounted(x, n, After(x, n, c, actions[0]), actions[1..]);
    }
  }
}
