/**
 The online migration as a state machine over its steps: source commits, the change stream, the
 event queue and batches, the chunk iterator, queued and running copies, the cutover marker.

 The stream reader, the executor and the chunk iterator are separate goroutines; batches and copies
 run in the executor alone, one at a time, each as one database transaction, so each is one step.
 A transaction of several row changes is a run of single commits: every interleaving the database
 allows is among those of the model.
 */
module Protocol {
  import opened Values
  import opened Selection
  import opened Replay
  import Chunks

  type Range = Chunks.Range

  datatype Config = Config(originalColumns: set<string>, ghostColumns: set<string>, defaults: Row)

  function Shared(cfg: Config): set<string> {
    cfg.originalColumns * cfg.ghostColumns
  }

  datatype Entry = Change(event: Event) | Marker | Other

  /** How far the migration range has been read; a table emptied between its two queries is an error. */
  datatype RangePhase = Unread | MinRead | RangeRead | Emptied

  datatype State = State(
    original: Table, gho: Table,
    stream: seq<Entry>, delivered: nat, queue: seq<Event>, batch: seq<Event>, applied: seq<Event>,
    phase: RangePhase, cursor: Chunks.Cursor, chunks: seq<Range>,
    sending: Option<Range>, taken: Option<Range>, copyComplete: bool,
    // Stopped: the executor has returned, on an error or a panic.
    markerSeen: bool, swapped: bool, stopped: bool,
    // What has happened: copies run, keys they took, whether every LIMIT was enough, and keys whose
    // ghost row a key-changing update left behind.
    ran: seq<Range>, copied: set<Key>, limitsHeld: bool, left: set<Key>)

  function Start(original: Table): State {
    State(original, map[], [], 0, [], [], [], Unread, Chunks.NO_CURSOR, [], None, None, false,
          false, false, false, [], {}, true, {})
  }

  /** The row changes of a stretch of the stream. */
  function Changes(entries: seq<Entry>): seq<Event> {
    if entries == [] then []
    else
      var last := entries[|entries| - 1];
      Changes(entries[..|entries| - 1]) + if last.Change? then [last.event] else []
  }

  ghost function Covered(s: State): set<Key> {
    s.copied + Established(Changes(s.stream))
  }

  function Project(row: Row, columns: set<string>): Row {
    map c | c in row && c in columns :: row[c]
  }

  /** INSERT ... SELECT of the shared columns ... ON CONFLICT DO UPDATE. */
  function CopyInto(cfg: Config, g: Table, o: Table, keys: set<Key>): Table {
    map k | k in g.Keys + (keys * o.Keys) ::
      if k in keys && k in o then (if k in g then g[k] else cfg.defaults) + Project(o[k], Shared(cfg)) else g[k]
  }

  datatype Step =
    | SourceCommit(event: Event)
    | OtherEntry
    | WriteMarker
    | Deliver(heard: bool)
    | TakeBatch(size: nat)
    | CommitBatch
    | Stop
    | ReadMin
    | ReadMax
    | NextChunk(chunkSize: nat)
    | HandOver
    | RunCopy(limit: nat)
    | CutOver

  /** Once the executor has stopped, everybody else goes on: nothing is assumed of who hears of it when.
      A batch takes any number of events, because its size can be set at any time. */
  predicate Enabled(cfg: Config, s: State, step: Step) {
    && !s.swapped
    && match step
       case SourceCommit(e) => Legal(s.original, e) && (e.Delete? || e.row.Keys == cfg.originalColumns)
       case OtherEntry => true
       case WriteMarker => s.copyComplete && Marker !in s.stream
       case Deliver(_) => s.delivered < |s.stream|
       case TakeBatch(n) =>
         !s.stopped && s.batch == [] && s.taken.None? && 1 <= n <= |s.queue|
       case CommitBatch =>
         !s.stopped && s.batch != [] && forall e | e in s.batch :: e.Delete? || e.row.Keys <= cfg.ghostColumns
       case Stop => !s.stopped
       case ReadMin => s.phase == Unread
       case ReadMax => s.phase == MinRead
       case NextChunk(_) => s.phase == RangeRead && !s.copyComplete && s.sending.None?
       case HandOver => !s.stopped && s.sending.Some? && s.taken.None? && s.batch == []
       case RunCopy(_) => !s.stopped && s.taken.Some?
       case CutOver => s.markerSeen
  }

  function CopySet(s: State, r: Range, limit: nat): set<Key> {
    set k | k in CopyKeys(s.original.Keys, r.lo, r.hi, limit)
  }

  ghost function Next(cfg: Config, s: State, step: Step): State
    requires Enabled(cfg, s, step)
  {
    match step
    case SourceCommit(e) =>
      s.(original := Commit(s.original, e), stream := s.stream + [Change(e)], left := LeftBehind(s.left, e, Covered(s)))
    case OtherEntry => s.(stream := s.stream + [Other])
    case WriteMarker => s.(stream := s.stream + [Marker])
    case Deliver(heard) =>
      // The marker goes to the waiting cutover by a send that is dropped when nobody receives.
      var entry := s.stream[s.delivered];
      s.(delivered := s.delivered + 1,
         queue := if entry.Change? then s.queue + [entry.event] else s.queue,
         markerSeen := s.markerSeen || (entry.Marker? && heard))
    case TakeBatch(n) => s.(batch := s.queue[..n], queue := s.queue[n..])
    case CommitBatch =>
      s.(gho := ApplyAll(s.gho, s.batch, cfg.defaults), applied := s.applied + s.batch, batch := [])
    case Stop => s.(stopped := true)
    case ReadMin =>
      if s.original == map[] then s.(phase := RangeRead)
      else
        var least := Some(Least(s.original.Keys));
        s.(phase := MinRead, cursor := s.cursor.(migrationMin := least, iterationMin := least))
    case ReadMax =>
      if s.original == map[] then s.(phase := Emptied)
      else s.(phase := RangeRead, cursor := s.cursor.(migrationMax := Some(Greatest(s.original.Keys))))
    case NextChunk(chunkSize) =>
      var p := Chunks.Turn(Chunks.Progress(s.cursor, s.chunks, Chunks.Running),
                           Chunks.Look(s.original.Keys, chunkSize));
      if p.status.Complete? then s.(cursor := p.cursor, copyComplete := true)
      else s.(cursor := p.cursor, chunks := p.chunks, sending := Some(p.chunks[|p.chunks| - 1]))
    case HandOver => s.(taken := s.sending, sending := None)
    case RunCopy(limit) =>
      var r := s.taken.value;
      s.(gho := CopyInto(cfg, s.gho, s.original, CopySet(s, r, limit)), taken := None,
         ran := s.ran + [r], copied := s.copied + CopySet(s, r, limit),
         limitsHeld := s.limitsHeld && 1 <= limit && |HalfOpen(s.original.Keys, r.lo, r.hi)| <= limit)
    case CutOver => s.(swapped := true)
  }

  ghost predicate RunEnabled(cfg: Config, s: State, steps: seq<Step>)
    decreases |steps|
  {
    steps == [] || (Enabled(cfg, s, steps[0]) && RunEnabled(cfg, Next(cfg, s, steps[0]), steps[1..]))
  }

  ghost function Run(cfg: Config, s: State, steps: seq<Step>): State
    requires RunEnabled(cfg, s, steps)
    decreases |steps|
  {
    if steps == [] then s else Run(cfg, Next(cfg, s, steps[0]), steps[1..])
  }

  /** Committed changes that have not reached the ghost yet, in commit order. */
  function Pending(s: State): seq<Event>
    requires s.delivered <= |s.stream|
  {
    s.batch + s.queue + Changes(s.stream[s.delivered..])
  }

  /** The ghost table once everything pending has been replayed on it. */
  function Settled(cfg: Config, s: State): Table
    requires s.delivered <= |s.stream|
  {
    ApplyAll(s.gho, Pending(s), cfg.defaults)
  }

  /** The original is the start table after the logged changes, all of them legal and complete. */
  ghost predicate LogInv(cfg: Config, start: Table, original: Table, log: seq<Event>) {
    && LegalAll(start, log) && original == CommitAll(start, log)
    && AllWide(Shared(cfg), log)
    && forall k :: k in original ==> original[k].Keys == cfg.originalColumns
  }

  /** No change is lost, repeated or reordered between the stream and the ghost. */
  ghost predicate DeliveryInv(stream: seq<Entry>, delivered: nat, received: seq<Event>) {
    delivered <= |stream| && received == Changes(stream[..delivered])
  }

  ghost predicate MarkerInv(stream: seq<Entry>, delivered: nat, markerSeen: bool, copyComplete: bool) {
    && (markerSeen ==> exists p :: 0 <= p < delivered <= |stream| && stream[p] == Marker)
    && (Marker in stream ==> copyComplete)
  }

  ghost predicate StreamInv(cfg: Config, start: Table, s: State) {
    && LogInv(cfg, start, s.original, Changes(s.stream))
    && DeliveryInv(s.stream, s.delivered, s.applied + s.batch + s.queue)
    && MarkerInv(s.stream, s.delivered, s.markerSeen, s.copyComplete)
  }

  /** What the settled ghost holds, key by key: the covered rows of the original with equal values,
      and the rows left behind. */
  ghost predicate Matches(columns: set<string>, original: Table, settled: Table, covered: set<Key>, left: set<Key>) {
    && settled.Keys == (original.Keys * covered) + left
    && left !! original.Keys
    && forall k :: k in original && k in settled ==> AgreeOn(columns, settled[k], original[k])
  }

  ghost predicate SettledInv(cfg: Config, s: State)
    requires s.delivered <= |s.stream|
  {
    && Matches(Shared(cfg), s.original, Settled(cfg, s), Covered(s), s.left)
    && s.left <= Vacated(Changes(s.stream))
  }

  function Pair(a: Option<Range>, b: Option<Range>): seq<Range> {
    (if a.Some? then [a.value] else []) + (if b.Some? then [b.value] else [])
  }

  /** Rows that were there when the stream began and never left. */
  ghost function Undisturbed(s: State): set<Key> {
    s.original.Keys - Established(Changes(s.stream))
  }

  /** The recorded range holds every undisturbed row. */
  ghost predicate RangeInv(phase: RangePhase, c: Chunks.Cursor, undisturbed: set<Key>) {
    match phase
    case Unread => c == Chunks.NO_CURSOR
    case MinRead =>
      && c.migrationMin.Some? && c.iterationMin == c.migrationMin && c.migrationMax.None? && !c.finalChunkReturned
      && forall k :: k in undisturbed ==> Leq(c.migrationMin.value, k)
    case RangeRead =>
      if c.migrationMin.None? then c == Chunks.NO_CURSOR && undisturbed == {}
      else c.migrationMax.Some? && forall k :: k in undisturbed ==>
             Leq(c.migrationMin.value, k) && Leq(k, c.migrationMax.value)
    case Emptied => undisturbed == {}
  }

  ghost predicate ChainInv(phase: RangePhase, c: Chunks.Cursor, chunks: seq<Range>) {
    if phase.RangeRead? && c.migrationMin.Some? then Chunks.Chained(c, chunks) else chunks == []
  }

  /** Every range is still to be copied, or was copied; if each LIMIT was enough, the undisturbed rows
      of the copied ranges have been taken. */
  ghost predicate RanInv(ran: seq<Range>, limitsHeld: bool, undisturbed: set<Key>, copied: set<Key>) {
    limitsHeld ==> forall r, k :: r in ran && k in undisturbed && Chunks.InChunk(r, k) ==> k in copied
  }

  ghost predicate CompleteInv(copyComplete: bool, phase: RangePhase, sending: Option<Range>, c: Chunks.Cursor) {
    copyComplete ==> phase.RangeRead? && sending.None? && (c.migrationMin.Some? ==> c.finalChunkReturned)
  }

  ghost predicate CopyInv(s: State) {
    && s.chunks == s.ran + Pair(s.taken, s.sending)
    && RangeInv(s.phase, s.cursor, Undisturbed(s))
    && ChainInv(s.phase, s.cursor, s.chunks)
    && RanInv(s.ran, s.limitsHeld, Undisturbed(s), s.copied)
    && CompleteInv(s.copyComplete, s.phase, s.sending, s.cursor)
  }

  ghost predicate Inv(cfg: Config, start: Table, s: State) {
    StreamInv(cfg, start, s) && SettledInv(cfg, s) && CopyInv(s)
  }

  // ---- the invariant holds at the start and is kept by every step ----

  lemma StartInv(cfg: Config, start: Table)
    requires forall k :: k in start ==> start[k].Keys == cfg.originalColumns
    ensures Inv(cfg, start, Start(start))
  {
  }

  lemma {:induction false} ChangesAppend(a: seq<Entry>, b: seq<Entry>)
    ensures Changes(a + b) == Changes(a) + Changes(b)
    decreases |b|
  {
    if b == [] {
      assert a + b == a;
    } else {
      var n := |b| - 1;
      assert (a + b)[..|a| + n] == a + b[..n];
      ChangesAppend(a, b[..n]);
    }
  }

  lemma ChangesSplit(s: State)
    requires s.delivered <= |s.stream|
    ensures Changes(s.stream) == Changes(s.stream[..s.delivered]) + Changes(s.stream[s.delivered..])
  {
    assert s.stream == s.stream[..s.delivered] + s.stream[s.delivered..];
    ChangesAppend(s.stream[..s.delivered], s.stream[s.delivered..]);
  }

  lemma LogIsAppliedPending(cfg: Config, start: Table, s: State)
    requires StreamInv(cfg, start, s)
    ensures Changes(s.stream) == s.applied + Pending(s)
  {
    ChangesSplit(s);
  }

  /** A new stream entry leaves what has been delivered as it is. */
  lemma EntryAppended(s: State, entry: Entry)
    requires s.delivered <= |s.stream|
    ensures var t, es := s.stream + [entry], if entry.Change? then [entry.event] else [];
      && t[..s.delivered] == s.stream[..s.delivered]
      && Changes(t) == Changes(s.stream) + es
      && Changes(t[s.delivered..]) == Changes(s.stream[s.delivered..]) + es
  {
    var t := s.stream + [entry];
    assert t[..|t| - 1] == s.stream;
    assert t[s.delivered..] == s.stream[s.delivered..] + [entry];
    ChangesAppend(s.stream[s.delivered..], [entry]);
    assert [entry][..0] == [];
  }

  lemma EntryDelivered(s: State)
    requires s.delivered < |s.stream|
    ensures var entry := s.stream[s.delivered];
      var es := if entry.Change? then [entry.event] else [];
      && Changes(s.stream[..s.delivered + 1]) == Changes(s.stream[..s.delivered]) + es
      && Changes(s.stream[s.delivered..]) == es + Changes(s.stream[s.delivered + 1..])
  {
    var d := s.stream[..s.delivered + 1];
    assert d[..|d| - 1] == s.stream[..s.delivered];
    var entry := s.stream[s.delivered];
    assert s.stream[s.delivered..] == [entry] + s.stream[s.delivered + 1..];
    ChangesAppend([entry], s.stream[s.delivered + 1..]);
    assert [entry][..0] == [];
  }

  lemma LogCommit(cfg: Config, start: Table, original: Table, log: seq<Event>, e: Event)
    requires LogInv(cfg, start, original, log)
    requires Legal(original, e) && (e.Delete? || e.row.Keys == cfg.originalColumns)
    ensures LogInv(cfg, start, Commit(original, e), log + [e])
  {
    CommitAppend(start, log, [e]);
    assert [e][1..] == [];
  }

  /** The stream after one more entry. */
  lemma StreamAppend(cfg: Config, start: Table, s: State, t: State, entry: Entry)
    requires StreamInv(cfg, start, s) && t.stream == s.stream + [entry]
    requires t.delivered == s.delivered && t.applied == s.applied && t.batch == s.batch && t.queue == s.queue
    requires t.markerSeen == s.markerSeen && t.copyComplete == s.copyComplete
    requires entry.Marker? ==> s.copyComplete
    requires entry.Change? ==>
      && Legal(s.original, entry.event) && t.original == Commit(s.original, entry.event)
      && (entry.event.Delete? || entry.event.row.Keys == cfg.originalColumns)
    requires !entry.Change? ==> t.original == s.original
    ensures StreamInv(cfg, start, t)
  {
    EntryAppended(s, entry);
    if entry.Change? {
      LogCommit(cfg, start, s.original, Changes(s.stream), entry.event);
    } else {
      assert Changes(s.stream) + [] == Changes(s.stream);
    }
    MarkerAppend(s.stream, s.delivered, s.markerSeen, s.copyComplete, entry);
  }

  lemma MarkerAppend(stream: seq<Entry>, delivered: nat, markerSeen: bool, copyComplete: bool, entry: Entry)
    requires MarkerInv(stream, delivered, markerSeen, copyComplete) && (entry.Marker? ==> copyComplete)
    ensures MarkerInv(stream + [entry], delivered, markerSeen, copyComplete)
  {
    if markerSeen {
      var p :| 0 <= p < delivered <= |stream| && stream[p] == Marker;
      assert (stream + [entry])[p] == Marker;
    }
  }

  lemma MarkerDelivered(stream: seq<Entry>, delivered: nat, markerSeen: bool, copyComplete: bool, heard: bool)
    requires MarkerInv(stream, delivered, markerSeen, copyComplete) && delivered < |stream|
    ensures MarkerInv(stream, delivered + 1, markerSeen || (stream[delivered].Marker? && heard), copyComplete)
  {
    if markerSeen {
      var p :| 0 <= p < delivered <= |stream| && stream[p] == Marker;
    }
  }

  lemma StreamDeliver(cfg: Config, start: Table, s: State, t: State, heard: bool)
    requires StreamInv(cfg, start, s) && s.delivered < |s.stream|
    requires t.stream == s.stream && t.original == s.original && t.delivered == s.delivered + 1
    requires t.applied == s.applied && t.batch == s.batch && t.copyComplete == s.copyComplete
    requires var entry := s.stream[s.delivered];
      && t.queue == (if entry.Change? then s.queue + [entry.event] else s.queue)
      && t.markerSeen == (s.markerSeen || (entry.Marker? && heard))
    ensures StreamInv(cfg, start, t)
  {
    hide MarkerInv, LogInv, Changes;
    EntryDelivered(s);
    var es := if s.stream[s.delivered].Change? then [s.stream[s.delivered].event] else [];
    assert t.queue == s.queue + es;
    assert t.applied + t.batch + t.queue == (s.applied + s.batch + s.queue) + es;
    MarkerDelivered(s.stream, s.delivered, s.markerSeen, s.copyComplete, heard);
  }

  /** The steps of the chunk iterator, the copies and the cutover. */
  predicate CopySide(step: Step) {
    || step.Stop? || step.ReadMin? || step.ReadMax? || step.NextChunk? || step.HandOver? || step.RunCopy?
    || step.CutOver?
  }

  /** Source, stream and queue, what has been applied and what was left behind, are the same. */
  ghost predicate SameStream(s: State, t: State) {
    && t.original == s.original && t.stream == s.stream && t.delivered == s.delivered && t.queue == s.queue
    && t.batch == s.batch && t.applied == s.applied && t.markerSeen == s.markerSeen && t.left == s.left
  }

  /** The same, and copying goes on where it was. */
  ghost predicate Framed(s: State, step: Step, t: State) {
    && SameStream(s, t)
    && (s.copyComplete ==> t.copyComplete)
    && (!step.RunCopy? ==> t.gho == s.gho && t.copied == s.copied)
  }

  lemma RangeFrame(cfg: Config, s: State, step: Step)
    requires Enabled(cfg, s, step) && (step.ReadMin? || step.ReadMax?)
    ensures Framed(s, step, Next(cfg, s, step))
  {
    hide IsLeast, IsGreatest;
    if step.ReadMin? {
    } else {
    }
  }

  lemma ChunkFrame(cfg: Config, s: State, step: Step)
    requires Enabled(cfg, s, step) && step.NextChunk?
    ensures Framed(s, step, Next(cfg, s, step))
  {
    hide Chunks.Turn;
  }

  lemma CopySideFrame(cfg: Config, s: State, step: Step)
    requires Enabled(cfg, s, step) && CopySide(step)
    ensures Framed(s, step, Next(cfg, s, step))
  {
    hide Chunks.Turn, CopyInto, CopySet;
    if step.ReadMin? || step.ReadMax? {
      RangeFrame(cfg, s, step);
    } else if step.NextChunk? {
      ChunkFrame(cfg, s, step);
    }
  }

  lemma StreamStep(cfg: Config, start: Table, s: State, step: Step)
    requires StreamInv(cfg, start, s) && Enabled(cfg, s, step)
    ensures StreamInv(cfg, start, Next(cfg, s, step))
  {
    var t := Next(cfg, s, step);
    if CopySide(step) {
      CopySideFrame(cfg, s, step);
    } else {
      match step
      case SourceCommit(e) => StreamAppend(cfg, start, s, t, Change(e));
      case OtherEntry => StreamAppend(cfg, start, s, t, Other);
      case WriteMarker => StreamAppend(cfg, start, s, t, Marker);
      case Deliver(heard) => StreamDeliver(cfg, start, s, t, heard);
      case TakeBatch(n) => BatchMoves(s.applied, s.queue, n);
      case CommitBatch => BatchMoves(s.applied, s.batch, 0);
    }
  }

  lemma BatchMoves<T>(a: seq<T>, q: seq<T>, n: nat)
    requires n <= |q|
    ensures a + q[..n] + q[n..] == a + [] + q
    ensures q[..n] + q[n..] == q
    ensures (a + q) + [] == a + q
  {
  }

  lemma SettledCommit(cfg: Config, start: Table, s: State, e: Event)
    requires StreamInv(cfg, start, s) && SettledInv(cfg, s) && Enabled(cfg, s, SourceCommit(e))
    ensures SettledInv(cfg, Next(cfg, s, SourceCommit(e)))
  {
    var t := Next(cfg, s, SourceCommit(e));
    SettledAfterCommit(cfg, s, t, e);
    LogAfterCommit(s, t, e);
    CommitKeepsMatch(Shared(cfg), s.original, Settled(cfg, s), e, cfg.defaults, Covered(s), Covered(t), s.left);
  }

  lemma SettledAfterCommit(cfg: Config, s: State, t: State, e: Event)
    requires s.delivered <= |s.stream| && t.stream == s.stream + [Change(e)] && t.delivered == s.delivered
    requires t.gho == s.gho && t.batch == s.batch && t.queue == s.queue
    ensures Settled(cfg, t) == Apply(Settled(cfg, s), e, cfg.defaults)
  {
    EntryAppended(s, Change(e));
    assert Pending(t) == Pending(s) + [e];
    ApplyAppend(s.gho, Pending(s), [e], cfg.defaults);
    assert [e][1..] == [];
  }

  lemma LogAfterCommit(s: State, t: State, e: Event)
    requires s.delivered <= |s.stream| && t.stream == s.stream + [Change(e)] && t.copied == s.copied
    ensures Covered(t) == Covered(s) + Added(e)
    ensures forall before :: before <= Vacated(Changes(s.stream)) ==>
      LeftBehind(before, e, Covered(s)) <= Vacated(Changes(t.stream))
    ensures Undisturbed(t) == t.original.Keys - Established(Changes(s.stream)) -
      Added(e)
  {
    EntryAppended(s, Change(e));
    var log := Changes(s.stream);
    assert (log + [e])[..|log|] == log;
  }

  /** One committed change, seen by the original and the settled ghost. */
  lemma CommitKeepsMatch(columns: set<string>, o: Table, settled: Table, e: Event, defaults: Row,
                         covered: set<Key>, covered': set<Key>, left: set<Key>)
    requires Legal(o, e) && Wide(columns, e)
    requires covered' == covered + Added(e)
    requires Matches(columns, o, settled, covered, left)
    ensures Matches(columns, Commit(o, e), Apply(settled, e, defaults), covered', LeftBehind(left, e, covered))
  {
  }

  /** The changes are the same, and so is the ghost once they are all replayed. */
  ghost predicate Moved(cfg: Config, s: State, t: State)
    requires s.delivered <= |s.stream|
  {
    t.delivered <= |t.stream| && Changes(t.stream) == Changes(s.stream) && Settled(cfg, t) == Settled(cfg, s)
  }

  /** Steps of the stream and the executor that only move changes along. */
  lemma PendingKept(cfg: Config, start: Table, s: State, step: Step)
    requires StreamInv(cfg, start, s) && Enabled(cfg, s, step)
    requires !CopySide(step) && !step.SourceCommit?
    ensures Moved(cfg, s, Next(cfg, s, step))
  {
    match step
    case OtherEntry => AppendMoves(cfg, s, Next(cfg, s, step), Other);
    case WriteMarker => AppendMoves(cfg, s, Next(cfg, s, step), Marker);
    case Deliver(_) => DeliverMoves(cfg, s, step);
    case TakeBatch(n) => TakeMoves(cfg, s, n);
    case CommitBatch => CommitMoves(cfg, s);
  }

  lemma TakeMoves(cfg: Config, s: State, n: nat)
    requires s.delivered <= |s.stream| && Enabled(cfg, s, TakeBatch(n))
    ensures Moved(cfg, s, Next(cfg, s, TakeBatch(n)))
  {
    BatchMoves(s.applied, s.queue, n);
    assert Pending(Next(cfg, s, TakeBatch(n))) == Pending(s);
  }

  lemma CommitMoves(cfg: Config, s: State)
    requires s.delivered <= |s.stream| && Enabled(cfg, s, CommitBatch)
    ensures Moved(cfg, s, Next(cfg, s, CommitBatch))
  {
    var t := Next(cfg, s, CommitBatch);
    PendingSplit(s, t);
    ApplyAppend(s.gho, s.batch, Pending(t), cfg.defaults);
  }

  lemma AppendMoves(cfg: Config, s: State, t: State, entry: Entry)
    requires s.delivered <= |s.stream| && !entry.Change? && t == s.(stream := s.stream + [entry])
    ensures Moved(cfg, s, t)
  {
    EntryAppended(s, entry);
    assert Pending(t) == Pending(s);
  }

  lemma DeliverMoves(cfg: Config, s: State, step: Step)
    requires Enabled(cfg, s, step) && step.Deliver?
    ensures Moved(cfg, s, Next(cfg, s, step))
  {
    hide MarkerInv;
    EntryDelivered(s);
    var es := if s.stream[s.delivered].Change? then [s.stream[s.delivered].event] else [];
    var rest := Changes(s.stream[s.delivered + 1..]);
    assert Next(cfg, s, step).queue == s.queue + es;
    assert s.batch + (s.queue + es) + rest == s.batch + s.queue + (es + rest);
    assert Pending(Next(cfg, s, step)) == Pending(s);
  }

  lemma PendingSplit(s: State, t: State)
    requires s.delivered == t.delivered && s.stream == t.stream && s.delivered <= |s.stream|
    requires t.queue == s.queue && t.batch == []
    ensures Pending(s) == s.batch + Pending(t)
  {
  }

  lemma QuietKeepsSettled(cfg: Config, start: Table, s: State, step: Step)
    requires StreamInv(cfg, start, s) && SettledInv(cfg, s) && Enabled(cfg, s, step)
    requires !step.SourceCommit? && !step.RunCopy?
    ensures SettledInv(cfg, Next(cfg, s, step))
  {
    if CopySide(step) {
      CopySideFrame(cfg, s, step);
    } else {
      PendingKept(cfg, start, s, step);
    }
  }

  lemma CopySetInTable(s: State, r: Range, limit: nat)
    ensures CopySet(s, r, limit) <= s.original.Keys
  {
    forall k | k in CopySet(s, r, limit)
      ensures k in s.original.Keys
    {
      CopyKeysSound(s.original.Keys, r.lo, r.hi, limit, k);
    }
  }

  /** A copy of current rows, with changes still pending, at one key: what it takes converges, what
      it leaves stays. */
  lemma CopyAtKey(cfg: Config, start: Table, s: State, keys: set<Key>, k: Key)
    requires StreamInv(cfg, start, s) && keys <= s.original.Keys
    ensures var before, after := Settled(cfg, s),
        ApplyAll(CopyInto(cfg, s.gho, s.original, keys), Pending(s), cfg.defaults);
      && (k in keys ==> k in after && AgreeOn(Shared(cfg), after[k], s.original[k]))
      && (k !in keys ==> SameAt(before, after, k))
  {
    var g := CopyInto(cfg, s.gho, s.original, keys);
    var pending := Pending(s);
    if k in keys {
      LogIsAppliedPending(cfg, start, s);
      CommitAppend(start, s.applied, pending);
      var o := CommitAll(start, s.applied);
      forall e | e in pending
        ensures Wide(Shared(cfg), e)
      {
        assert e in Changes(s.stream);
      }
      CopiedAhead(Shared(cfg), o, g, pending, cfg.defaults, k);
    } else {
      ApplyLocal(s.gho, g, pending, cfg.defaults, k);
    }
  }

  lemma CopyKeepsSettled(cfg: Config, start: Table, s: State, limit: nat)
    requires StreamInv(cfg, start, s) && SettledInv(cfg, s) && Enabled(cfg, s, RunCopy(limit))
    ensures SettledInv(cfg, Next(cfg, s, RunCopy(limit)))
  {
    var t := Next(cfg, s, RunCopy(limit));
    var keys := CopySet(s, s.taken.value, limit);
    CopySetInTable(s, s.taken.value, limit);
    forall k
      ensures k in keys ==> k in Settled(cfg, t) && AgreeOn(Shared(cfg), Settled(cfg, t)[k], s.original[k])
      ensures k !in keys ==> SameAt(Settled(cfg, s), Settled(cfg, t), k)
    {
      CopyAtKey(cfg, start, s, keys, k);
    }
    CopyMerges(Shared(cfg), s.original, Settled(cfg, s), Settled(cfg, t), keys, Covered(s), s.left);
    assert Covered(t) == Covered(s) + keys;
  }

  lemma CopyMerges(columns: set<string>, o: Table, before: Table, after: Table,
                   keys: set<Key>, covered: set<Key>, left: set<Key>)
    requires keys <= o.Keys && Matches(columns, o, before, covered, left)
    requires forall k :: k in keys ==> k in after && AgreeOn(columns, after[k], o[k])
    requires forall k :: k !in keys ==> SameAt(before, after, k)
    ensures Matches(columns, o, after, covered + keys, left)
  {
    forall k
      ensures k in after <==> k in (o.Keys * (covered + keys)) + left
    {
      assert k !in keys ==> (k in before <==> k in after);
    }
  }

  lemma SettledStep(cfg: Config, start: Table, s: State, step: Step)
    requires StreamInv(cfg, start, s) && SettledInv(cfg, s) && Enabled(cfg, s, step)
    ensures Next(cfg, s, step).delivered <= |Next(cfg, s, step).stream|
    ensures SettledInv(cfg, Next(cfg, s, step))
  {
    if step.SourceCommit? {
      SettledCommit(cfg, start, s, step.event);
    } else if step.RunCopy? {
      CopyKeepsSettled(cfg, start, s, step.limit);
    } else {
      QuietKeepsSettled(cfg, start, s, step);
      StreamStep(cfg, start, s, step);
    }
  }

  // ---- coverage by copies ----

  /** The fields of the chunk iterator and the copies. */
  function CopySideOf(s: State):
    (seq<Range>, seq<Range>, Option<Range>, Option<Range>, RangePhase, Chunks.Cursor, bool, set<Key>, bool)
  {
    (s.chunks, s.ran, s.taken, s.sending, s.phase, s.cursor, s.limitsHeld, s.copied, s.copyComplete)
  }

  /** A smaller set of undisturbed rows asks for less. */
  lemma CopyInvShrinks(s: State, t: State)
    requires CopyInv(s) && CopySideOf(t) == CopySideOf(s) && Undisturbed(t) <= Undisturbed(s)
    ensures CopyInv(t)
  {
  }

  lemma StreamSideFrame(cfg: Config, s: State, step: Step)
    requires Enabled(cfg, s, step) && !CopySide(step)
    ensures CopySideOf(Next(cfg, s, step)) == CopySideOf(s)
    ensures !step.SourceCommit? ==> Next(cfg, s, step).original == s.original
  {
  }

  /** A source commit disturbs rows but adds no undisturbed one. */
  lemma UndisturbedShrinks(cfg: Config, start: Table, s: State, step: Step)
    requires StreamInv(cfg, start, s) && Enabled(cfg, s, step) && !CopySide(step)
    ensures Undisturbed(Next(cfg, s, step)) <= Undisturbed(s)
  {
    if step.SourceCommit? {
      LogAfterCommit(s, Next(cfg, s, step), step.event);
    } else {
      PendingKept(cfg, start, s, step);
      StreamSideFrame(cfg, s, step);
    }
  }

  lemma CopyInvStream(cfg: Config, start: Table, s: State, step: Step)
    requires StreamInv(cfg, start, s) && CopyInv(s) && Enabled(cfg, s, step) && !CopySide(step)
    ensures CopyInv(Next(cfg, s, step))
  {
    UndisturbedShrinks(cfg, start, s, step);
    StreamSideFrame(cfg, s, step);
    CopyInvShrinks(s, Next(cfg, s, step));
  }

  lemma CopyInvReadMin(cfg: Config, s: State)
    requires CopyInv(s) && Enabled(cfg, s, ReadMin)
    ensures CopyInv(Next(cfg, s, ReadMin))
  {
  }

  lemma CopyInvReadMax(cfg: Config, s: State)
    requires CopyInv(s) && Enabled(cfg, s, ReadMax)
    ensures CopyInv(Next(cfg, s, ReadMax))
  {
  }

  lemma CopyInvNextChunk(cfg: Config, s: State, chunkSize: nat)
    requires CopyInv(s) && Enabled(cfg, s, NextChunk(chunkSize))
    ensures CopyInv(Next(cfg, s, NextChunk(chunkSize)))
  {
    var look := Chunks.Look(s.original.Keys, chunkSize);
    var p := Chunks.Progress(s.cursor, s.chunks, Chunks.Running);
    var q := Chunks.Turn(p, look);
    if s.cursor.migrationMin.Some? {
      Chunks.TurnChained(p, look);
      Chunks.TurnChunks(p, look);
    }
    CopyInvQueued(s, Next(cfg, s, NextChunk(chunkSize)), q);
  }

  /** The iterator hands out another range, or ends. */
  lemma CopyInvQueued(s: State, t: State, q: Chunks.Progress)
    requires CopyInv(s) && s.phase.RangeRead? && !s.copyComplete && s.sending.None?
    requires t == if q.status.Complete? then s.(cursor := q.cursor, copyComplete := true)
                  else s.(cursor := q.cursor, chunks := q.chunks,
                          sending := if q.chunks == [] then None else Some(q.chunks[|q.chunks| - 1]))
    requires q.cursor.migrationMin == s.cursor.migrationMin && q.cursor.migrationMax == s.cursor.migrationMax
    requires s.cursor.migrationMin.None? ==> q.cursor == s.cursor && q.status.Complete?
    requires s.cursor.migrationMin.Some? ==>
      && Chunks.Chained(q.cursor, q.chunks)
      && (if q.status.Complete? then q.chunks == s.chunks && q.cursor.finalChunkReturned
          else q.chunks != [] && q.chunks[..|q.chunks| - 1] == s.chunks)
    ensures CopyInv(t)
  {
    if !q.status.Complete? {
      assert q.chunks == s.chunks + [q.chunks[|q.chunks| - 1]];
    }
  }

  lemma CopyInvRun(cfg: Config, s: State, limit: nat)
    requires CopyInv(s) && Enabled(cfg, s, RunCopy(limit))
    ensures CopyInv(Next(cfg, s, RunCopy(limit)))
  {
    var t, r := Next(cfg, s, RunCopy(limit)), s.taken.value;
    if t.limitsHeld {
      CopyCoversIff(s.original.Keys, r.lo, r.hi, limit);
      forall k | k in Undisturbed(s) && Chunks.InChunk(r, k)
        ensures k in t.copied
      {
        if r.lo == r.hi {
          Trichotomy(r.lo, k);
          if k == r.lo {
            CopyPoint(s.original.Keys, k, limit);
          } else {
            LeqTransitive(r.lo, k, r.hi);
          }
        } else {
          assert k in HalfOpen(s.original.Keys, r.lo, r.hi);
        }
      }
    }
  }

  lemma CopyInvStep(cfg: Config, start: Table, s: State, step: Step)
    requires StreamInv(cfg, start, s) && CopyInv(s) && Enabled(cfg, s, step)
    ensures CopyInv(Next(cfg, s, step))
  {
    if !CopySide(step) {
      CopyInvStream(cfg, start, s, step);
    } else {
      match step
      case ReadMin => CopyInvReadMin(cfg, s);
      case ReadMax => CopyInvReadMax(cfg, s);
      case NextChunk(c) => CopyInvNextChunk(cfg, s, c);
      case RunCopy(limit) => CopyInvRun(cfg, s, limit);
      case HandOver =>
      case Stop =>
      case CutOver =>
    }
  }

  /** Every reachable state of every interleaving keeps the invariant. */
  lemma {:induction false} RunKeepsInv(cfg: Config, start: Table, s: State, steps: seq<Step>)
    requires Inv(cfg, start, s) && RunEnabled(cfg, s, steps)
    ensures Inv(cfg, start, Run(cfg, s, steps))
    decreases |steps|
  {
    if steps != [] {
      var step := steps[0];
      StreamStep(cfg, start, s, step);
      SettledStep(cfg, start, s, step);
      CopyInvStep(cfg, start, s, step);
      RunKeepsInv(cfg, start, Next(cfg, s, step), steps[1..]);
    }
  }

  // ---- what the invariant means for the migration ----

  /** A run from a table whose rows have the original columns. */
  ghost predicate Reaches(cfg: Config, start: Table, steps: seq<Step>, s: State) {
    && (forall k :: k in start ==> start[k].Keys == cfg.originalColumns)
    && RunEnabled(cfg, Start(start), steps)
    && Run(cfg, Start(start), steps) == s
  }

  lemma ReachesInv(cfg: Config, start: Table, steps: seq<Step>, s: State)
    requires Reaches(cfg, start, steps, s)
    ensures Inv(cfg, start, s)
  {
    StartInv(cfg, start);
    RunKeepsInv(cfg, start, Start(start), steps);
  }

  /** Main invariant: in every reachable state, replaying everything pending on the ghost gives the
      covered rows of the original, equal on the shared columns, the rows that key-changing updates
      left behind, and nothing else. */
  lemma ConvergesAlways(cfg: Config, start: Table, steps: seq<Step>, s: State)
    requires Reaches(cfg, start, steps, s)
    ensures s.delivered <= |s.stream|
    ensures Matches(Shared(cfg), s.original, Settled(cfg, s), Covered(s), s.left)
    ensures s.left <= Vacated(Changes(s.stream))
  {
    ReachesInv(cfg, start, steps, s);
  }

  /** Once the loop is over and its last copy has run, every row of the original was copied or is
      given a row by the log, provided that every copy's LIMIT was enough for its [lo, hi). */
  lemma CompleteCovers(cfg: Config, start: Table, steps: seq<Step>, s: State)
    requires Reaches(cfg, start, steps, s)
    requires s.copyComplete && s.taken.None? && s.limitsHeld
    ensures s.original.Keys <= Covered(s)
  {
    ReachesInv(cfg, start, steps, s);
    forall k | k in s.original
      ensures k in Covered(s)
    {
      if k !in Established(Changes(s.stream)) {
        assert k in Undisturbed(s);
        var i := Chunks.ChainCovers(s.cursor, s.chunks, k);
        assert s.chunks[i] in s.ran;
      }
    }
  }

  /** The ghost holds exactly the original's rows, equal on the shared columns. */
  ghost predicate Converged(cfg: Config, s: State) {
    s.gho.Keys == s.original.Keys && forall k :: k in s.original ==> AgreeOn(Shared(cfg), s.gho[k], s.original[k])
  }

  /** With everything committed applied, ghost and original agree exactly when every row was copied
      or given by the log and no key-changing update left a row behind. */
  lemma ConvergedIff(cfg: Config, start: Table, steps: seq<Step>, s: State)
    requires Reaches(cfg, start, steps, s)
    requires s.delivered <= |s.stream| && Pending(s) == []
    ensures Converged(cfg, s) <==> s.original.Keys <= Covered(s) && s.left == {}
  {
    ReachesInv(cfg, start, steps, s);
    assert Settled(cfg, s) == s.gho;
    var extra := s.left;
    if Converged(cfg, s) {
      assert extra <= s.gho.Keys;
      assert forall k :: k in s.original ==> k in s.gho;
    }
  }

  /** Key-changing updates at most add rows: each original row is in the ghost with equal values, and
      each further ghost key was vacated by a key-changing update and not deleted or reused since. */
  lemma DrainedWithKeyChanges(cfg: Config, start: Table, steps: seq<Step>, s: State)
    requires Reaches(cfg, start, steps, s)
    requires s.delivered <= |s.stream| && Pending(s) == [] && s.copyComplete && s.taken.None? && s.limitsHeld
    ensures forall k :: k in s.original ==> k in s.gho && AgreeOn(Shared(cfg), s.gho[k], s.original[k])
    ensures s.gho.Keys - s.original.Keys == s.left <= Vacated(Changes(s.stream))
    ensures (forall e :: e in Changes(s.stream) ==> KeyPreserving(e)) ==> Converged(cfg, s)
  {
    ReachesInv(cfg, start, steps, s);
    CompleteCovers(cfg, start, steps, s);
    assert Settled(cfg, s) == s.gho;
    if forall e :: e in Changes(s.stream) ==> KeyPreserving(e) {
      NothingVacated(Changes(s.stream));
      ConvergedIff(cfg, start, steps, s);
    }
  }

  /** Marker ordering: when the marker is seen, the changes before it in the stream, in stream order,
      are the first of those applied, in hand and queued; none is lost or repeated. */
  lemma MarkerOrdering(cfg: Config, start: Table, steps: seq<Step>, s: State) returns (p: nat)
    requires Reaches(cfg, start, steps, s) && s.markerSeen
    ensures p < s.delivered <= |s.stream| && s.stream[p] == Marker
    ensures Changes(s.stream[..p]) <= s.applied + s.batch + s.queue
    ensures Changes(s.stream) == s.applied + s.batch + s.queue + Changes(s.stream[s.delivered..])
  {
    ReachesInv(cfg, start, steps, s);
    p :| 0 <= p < s.delivered && s.stream[p] == Marker;
    assert s.stream[..s.delivered] == s.stream[..p] + s.stream[p..s.delivered];
    ChangesAppend(s.stream[..p], s.stream[p..s.delivered]);
    ChangesSplit(s);
  }

  /** What cutover needs beyond the marker: queue, batch and copies drained, and no change committed
      after the marker. */
  ghost predicate Drained(s: State) {
    && s.queue == [] && s.batch == [] && s.taken.None? && s.limitsHeld
    && forall p :: 0 <= p < |s.stream| && s.stream[p] == Marker ==> Changes(s.stream[p..]) == []
  }

  lemma DrainedPendingEmpty(cfg: Config, start: Table, steps: seq<Step>, s: State)
    requires Reaches(cfg, start, steps, s) && s.markerSeen && Drained(s)
    ensures s.delivered <= |s.stream| && Pending(s) == [] && s.copyComplete
  {
    ReachesInv(cfg, start, steps, s);
    var p := MarkerOrdering(cfg, start, steps, s);
    NothingAfter(s.stream, p, s.delivered);
  }

  lemma NothingAfter(stream: seq<Entry>, p: nat, delivered: nat)
    requires p < delivered <= |stream| && Changes(stream[p..]) == []
    ensures Changes(stream[delivered..]) == []
  {
    assert stream[p..] == stream[p..delivered] + stream[delivered..];
    ChangesAppend(stream[p..delivered], stream[delivered..]);
  }

  /** End to end: at a drained cutover the ghost, about to take the original's name, has every row of
      the original with equal values on all the shared columns. */
  lemma DrainedCutover(cfg: Config, start: Table, steps: seq<Step>, s: State)
    requires Reaches(cfg, start, steps, s) && s.markerSeen && Drained(s)
    ensures forall k :: k in s.original ==> k in s.gho && AgreeOn(Shared(cfg), s.gho[k], s.original[k])
    ensures s.gho.Keys - s.original.Keys == s.left <= Vacated(Changes(s.stream))
    ensures (forall e :: e in Changes(s.stream) ==> KeyPreserving(e)) ==> Converged(cfg, s)
  {
    DrainedPendingEmpty(cfg, start, steps, s);
    DrainedWithKeyChanges(cfg, start, steps, s);
  }
}
