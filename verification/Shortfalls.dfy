/** Reachable states that show why convergence needs what it is proved from. */
module Shortfalls {
  import opened Values
  import opened Selection
  import opened Replay
  import opened Protocol
  import Chunks

  lemma {:induction false} RunSnoc(cfg: Config, s: State, steps: seq<Step>, step: Step)
    requires RunEnabled(cfg, s, steps) && Enabled(cfg, Run(cfg, s, steps), step)
    ensures RunEnabled(cfg, s, steps + [step])
    ensures Run(cfg, s, steps + [step]) == Next(cfg, Run(cfg, s, steps), step)
    decreases |steps|
  {
    if steps == [] {
      assert [step][1..] == [];
    } else {
      assert (steps + [step])[1..] == steps[1..] + [step];
      RunSnoc(cfg, Next(cfg, s, steps[0]), steps[1..], step);
    }
  }

  /** Chunks are calculated with this chunk size and copied with this LIMIT. */
  predicate OfSize(step: Step, n: nat) {
    (step.NextChunk? ==> step.chunkSize == n) && (step.RunCopy? ==> step.limit == n)
  }

  predicate OneSize(steps: seq<Step>, n: nat) {
    forall i :: 0 <= i < |steps| ==> OfSize(steps[i], n)
  }

  /** A run grown one enabled step at a time. */
  lemma Then(cfg: Config, start: Table, steps: seq<Step>, s: State, step: Step) returns (steps': seq<Step>, s': State)
    requires Reaches(cfg, start, steps, s) && Enabled(cfg, s, step)
    ensures steps' == steps + [step] && s' == Next(cfg, s, step)
    ensures Reaches(cfg, start, steps', s')
    ensures forall n :: OneSize(steps, n) && OfSize(step, n) ==> OneSize(steps', n)
  {
    RunSnoc(cfg, Start(start), steps, step);
    steps', s' := steps + [step], Next(cfg, s, step);
  }

  function RowOf(n: int): Row {
    map["id" := Num(n)]
  }

  const CFG := Config({"id"}, {"id"}, map["id" := Null])

  /** A row is committed after an empty range was read, then the marker. */
  lemma MarkerWritten(k: Key) returns (steps: seq<Step>, s: State)
    ensures Reaches(CFG, map[], steps, s)
    ensures s == Start(map[]).(original := map[k := RowOf(1)], phase := RangeRead, copyComplete := true,
                               stream := [Change(Insert(k, RowOf(1))), Marker])
  {
    steps, s := [], Start(map[]);
    steps, s := Then(CFG, map[], steps, s, ReadMin);
    steps, s := Then(CFG, map[], steps, s, NextChunk(1));
    steps, s := Then(CFG, map[], steps, s, SourceCommit(Insert(k, RowOf(1))));
    steps, s := Then(CFG, map[], steps, s, WriteMarker);
  }

  /** The marker shows that the changes before it were queued, not that they were applied: a row
      committed before the marker is missing from the table that takes the original's name. */
  lemma CutoverBeforeApply() returns (steps: seq<Step>, s: State)
    ensures Reaches(CFG, map[], steps, s)
    ensures s.swapped && s.copyComplete && s.limitsHeld
    ensures exists k :: k in s.original && k !in s.gho
    ensures exists p :: 0 <= p < |s.stream| && s.stream[p] == Marker && Changes(s.stream[..p]) == Changes(s.stream)
  {
    var k: Key := [Num(1)];
    steps, s := MarkerWritten(k);
    steps, s := Then(CFG, map[], steps, s, Deliver(true));
    steps, s := Then(CFG, map[], steps, s, Deliver(true));
    steps, s := Then(CFG, map[], steps, s, CutOver);
    assert k in s.original && k !in s.gho;
    assert s.stream[1] == Marker && s.stream[..1] == [Change(Insert(k, RowOf(1)))];
    assert s.stream[..2][..1] == s.stream[..1] && s.stream == s.stream[..2];
  }

  /** The executor stops on a batch that fails; nobody else need hear of it before the cutover: the reader
      delivers the marker, and the tables are swapped with the batch and its row lost. MarkerAppliedIff,
      below, holds of every such state too. */
  lemma SwapAfterFailedBatch() returns (steps: seq<Step>, s: State)
    ensures Reaches(CFG, map[], steps, s)
    ensures s.swapped && s.stopped && s.copyComplete && s.limitsHeld && s.batch != []
    ensures exists k :: k in s.original && k !in s.gho
  {
    var k: Key := [Num(1)];
    steps, s := MarkerWritten(k);
    steps, s := Then(CFG, map[], steps, s, Deliver(true));
    steps, s := Then(CFG, map[], steps, s, TakeBatch(1));
    steps, s := Then(CFG, map[], steps, s, Stop);
    steps, s := Then(CFG, map[], steps, s, Deliver(true));
    steps, s := Then(CFG, map[], steps, s, CutOver);
    assert k in s.original && k !in s.gho;
  }

  /** The changes before a delivered marker have been applied exactly when at least as many changes as
      come before it have been; and, if none was committed after it, exactly when the batch in hand and
      the queue are empty. */
  lemma MarkerAppliedIff(cfg: Config, start: Table, steps: seq<Step>, s: State, p: nat)
    requires Reaches(cfg, start, steps, s) && p < s.delivered <= |s.stream| && s.stream[p] == Marker
    ensures Changes(s.stream[..p]) <= s.applied <==> |Changes(s.stream[..p])| <= |s.applied|
    ensures Changes(s.stream[p..]) == [] ==> (Changes(s.stream[..p]) <= s.applied <==> s.batch == [] && s.queue == [])
  {
    ReachesInv(cfg, start, steps, s);
    var before, received := Changes(s.stream[..p]), s.applied + s.batch + s.queue;
    assert s.stream[..s.delivered] == s.stream[..p] + s.stream[p..s.delivered];
    ChangesAppend(s.stream[..p], s.stream[p..s.delivered]);
    assert before == received[..|before|] && s.applied == received[..|s.applied|];
    if |before| <= |s.applied| {
      assert s.applied[..|before|] == before;
    }
    if Changes(s.stream[p..]) == [] {
      assert s.stream == s.stream[..p] + s.stream[p..];
      ChangesAppend(s.stream[..p], s.stream[p..]);
      NothingAfter(s.stream, p, s.delivered);
      ChangesSplit(s);
      assert received == before;
    }
  }

  function RangeKnown(start: Table, least: Key, greatest: Key): State {
    Start(start).(phase := RangeRead, cursor := Chunks.Cursor(Some(least), Some(greatest), Some(least), None, false))
  }

  /** Reading the range of a table that is not empty. */
  lemma RangeSteps(start: Table, least: Key, greatest: Key) returns (steps: seq<Step>, s: State)
    requires forall k :: k in start ==> start[k].Keys == CFG.originalColumns
    requires IsLeast(start.Keys, least) && IsGreatest(start.Keys, greatest)
    ensures Reaches(CFG, start, steps, s)
    ensures s == RangeKnown(start, least, greatest) && forall n :: OneSize(steps, n)
  {
    assert start != map[];
    LeastUnique(start.Keys);
    GreatestUnique(start.Keys);
    steps, s := Then(CFG, start, [], Start(start), ReadMin);
    steps, s := Then(CFG, start, steps, s, ReadMax);
  }

  /** The state after the last range of a table was calculated, queued and copied with a limit. */
  ghost function CopiedToMax(s: State, limit: nat, taken: set<Key>): State
    requires s.cursor.iterationMin.Some? && s.cursor.migrationMax.Some?
  {
    var lo, hi := s.cursor.iterationMin, s.cursor.migrationMax;
    var r := Chunks.Range(lo.value, hi.value);
    s.(cursor := s.cursor.(iterationMin := hi, iterationMax := hi, finalChunkReturned := lo == hi),
       chunks := s.chunks + [r], ran := s.ran + [r], copied := s.copied + taken,
       gho := CopyInto(CFG, s.gho, s.original, taken),
       limitsHeld := s.limitsHeld && 1 <= limit && |HalfOpen(s.original.Keys, r.lo, r.hi)| <= limit)
  }

  ghost predicate AtLastRange(s: State, chunkSize: nat) {
    && !s.swapped && !s.stopped
    && s.phase == RangeRead && !s.copyComplete && s.sending.None? && s.taken.None? && s.batch == []
    && s.cursor.iterationMin.Some? && s.cursor.migrationMax.Some?
    && |AtOrAbove(s.original.Keys, s.cursor.iterationMin.value)| <= chunkSize
    && !s.cursor.finalChunkReturned
  }

  lemma ChunkToMax(s: State, chunkSize: nat)
    requires AtLastRange(s, chunkSize)
    ensures Enabled(CFG, s, NextChunk(chunkSize))
    ensures var lo, hi := s.cursor.iterationMin, s.cursor.migrationMax;
      var r := Chunks.Range(lo.value, hi.value);
      Next(CFG, s, NextChunk(chunkSize))
      == s.(cursor := s.cursor.(iterationMin := hi, iterationMax := hi, finalChunkReturned := lo == hi),
            chunks := s.chunks + [r], sending := Some(r))
  {
    BoundaryFacts(s.original.Keys, s.cursor.iterationMin.value, chunkSize);
  }

  lemma HandAndRun(s: State, r: Range, limit: nat, taken: set<Key>)
    requires !s.swapped && !s.stopped && s.sending == Some(r) && s.taken.None? && s.batch == []
    requires taken == set k | k in CopyKeys(s.original.Keys, r.lo, r.hi, limit)
    ensures Enabled(CFG, s, HandOver) && Enabled(CFG, Next(CFG, s, HandOver), RunCopy(limit))
    ensures Next(CFG, Next(CFG, s, HandOver), RunCopy(limit))
         == s.(sending := None, ran := s.ran + [r], copied := s.copied + taken,
               gho := CopyInto(CFG, s.gho, s.original, taken),
               limitsHeld := s.limitsHeld && 1 <= limit && |HalfOpen(s.original.Keys, r.lo, r.hi)| <= limit)
  {
  }

  /** The range that was calculated last is queued and copied. */
  lemma CopyHanded(start: Table, steps: seq<Step>, s: State, r: Range, limit: nat, taken: set<Key>)
    returns (steps': seq<Step>, s': State)
    requires Reaches(CFG, start, steps, s)
    requires !s.swapped && !s.stopped && s.sending == Some(r) && s.taken.None? && s.batch == []
    requires taken == set k | k in CopyKeys(s.original.Keys, r.lo, r.hi, limit)
    ensures Reaches(CFG, start, steps', s') && (OneSize(steps, limit) ==> OneSize(steps', limit))
    ensures s' == s.(sending := None, ran := s.ran + [r], copied := s.copied + taken,
                     gho := CopyInto(CFG, s.gho, s.original, taken),
                     limitsHeld := s.limitsHeld && 1 <= limit && |HalfOpen(s.original.Keys, r.lo, r.hi)| <= limit)
  {
    HandAndRun(s, r, limit, taken);
    hide OneSize, Reaches, Enabled, Next;
    steps', s' := Then(CFG, start, steps, s, HandOver);
    steps', s' := Then(CFG, start, steps', s', RunCopy(limit));
  }

  lemma CopyToMax(start: Table, steps: seq<Step>, s: State, chunkSize: nat, limit: nat, taken: set<Key>)
    returns (steps': seq<Step>, s': State)
    requires Reaches(CFG, start, steps, s) && AtLastRange(s, chunkSize)
    requires taken ==
      set k | k in CopyKeys(s.original.Keys, s.cursor.iterationMin.value, s.cursor.migrationMax.value, limit)
    ensures Reaches(CFG, start, steps', s') && s' == CopiedToMax(s, limit, taken)
    ensures chunkSize == limit && OneSize(steps, limit) ==> OneSize(steps', limit)
  {
    ChunkToMax(s, chunkSize);
    hide Enabled, Next, OneSize;
    steps', s' := Then(CFG, start, steps, s, NextChunk(chunkSize));
    steps', s' := CopyHanded(start, steps', s', s'.sending.value, limit, taken);
  }

  /** After the final range the loop ends. */
  lemma EndLoop(start: Table, steps: seq<Step>, s: State, chunkSize: nat) returns (steps': seq<Step>, s': State)
    requires Reaches(CFG, start, steps, s) && !s.swapped && !s.stopped
    requires s.phase == RangeRead && !s.copyComplete && s.sending.None?
    requires s.cursor.iterationMin.Some? && s.cursor.migrationMax == s.cursor.iterationMin == s.cursor.iterationMax
    requires |AtOrAbove(s.original.Keys, s.cursor.iterationMin.value)| <= chunkSize
    requires s.cursor.finalChunkReturned
    ensures Reaches(CFG, start, steps', s') && (OneSize(steps, chunkSize) ==> OneSize(steps', chunkSize))
    ensures s' == s.(copyComplete := true)
  {
    hide OneSize;
    BoundaryFacts(s.original.Keys, s.cursor.iterationMin.value, chunkSize);
    steps', s' := Then(CFG, start, steps, s, NextChunk(chunkSize));
  }

  /** The one change that was committed, delivered and applied in a batch of its own. */
  lemma DrainChange(start: Table, steps: seq<Step>, s: State, e: Event) returns (steps': seq<Step>, s': State)
    requires Reaches(CFG, start, steps, s) && !s.swapped && !s.stopped
    requires s.stream == [Change(e)] && s.delivered == 0 && s.queue == [] && s.batch == [] && s.taken.None?
    requires !e.Delete? && e.row.Keys == CFG.originalColumns
    ensures Reaches(CFG, start, steps', s')
    ensures s'.original == s.original && s'.gho == Apply(s.gho, e, CFG.defaults) && s'.stream == s.stream
    ensures s'.limitsHeld == s.limitsHeld && s'.copyComplete == s.copyComplete && s'.taken == s.taken
    ensures s'.delivered <= |s'.stream| && Pending(s') == [] && forall n :: OneSize(steps, n) ==> OneSize(steps', n)
  {
    hide OneSize;
    steps', s' := Then(CFG, start, steps, s, Deliver(true));
    steps', s' := Then(CFG, start, steps', s', TakeBatch(1));
    assert s'.batch == [e] && s'.queue == [] && [e][1..] == [];
    assert ApplyAll(s'.gho, [e], CFG.defaults) == Apply(s'.gho, e, CFG.defaults);
    steps', s' := Then(CFG, start, steps', s', CommitBatch);
    assert s'.stream[1..] == [];
  }

  /** One change, committed, delivered and applied. */
  lemma ApplyChange(start: Table, steps: seq<Step>, s: State, e: Event) returns (steps': seq<Step>, s': State)
    requires Reaches(CFG, start, steps, s) && !s.swapped && !s.stopped
    requires s.stream == [] && s.delivered == 0 && s.queue == [] && s.batch == [] && s.taken.None?
    requires Legal(s.original, e) && e.Update? && e.row.Keys == CFG.originalColumns
    ensures Reaches(CFG, start, steps', s')
    ensures s'.original == Commit(s.original, e) && s'.gho == Apply(s.gho, e, CFG.defaults)
    ensures s'.limitsHeld == s.limitsHeld && s'.copyComplete == s.copyComplete && s'.taken == s.taken
    ensures s'.delivered <= |s'.stream| && Pending(s') == []
  {
    steps', s' := Then(CFG, start, steps, s, SourceCommit(e));
    assert s'.stream == [Change(e)];
    steps', s' := DrainChange(start, steps', s', e);
  }

  lemma OneRowInGhost(start: Table, a: Key) returns (steps: seq<Step>, s: State)
    requires start.Keys == {a} && start[a].Keys == CFG.originalColumns
    ensures Reaches(CFG, start, steps, s) && s == CopiedToMax(RangeKnown(start, a, a), 1, {a})
    ensures |AtOrAbove({a}, a)| == 1 && s.limitsHeld
  {
    steps, s := RangeSteps(start, a, a);
    CopyPoint({a}, a, 1);
    Trichotomy(a, a);
    assert AtOrAbove({a}, a) == {a} && HalfOpen({a}, a, a) == {};
    steps, s := CopyToMax(start, steps, s, 1, 1, {a});
  }

  /** A table of one row, copied to the end. */
  lemma OneRowCopied(start: Table, a: Key) returns (steps: seq<Step>, s: State)
    requires start.Keys == {a} && start[a].Keys == CFG.originalColumns
    ensures Reaches(CFG, start, steps, s) && !s.swapped && !s.stopped
    ensures s.stream == [] && s.delivered == 0 && s.queue == [] && s.batch == [] && s.taken.None?
    ensures s.original == start && s.gho.Keys == {a} && s.copyComplete && s.limitsHeld
  {
    steps, s := OneRowInGhost(start, a);
    steps, s := EndLoop(start, steps, s, 1);
  }

  /** A key-changing update of a copied row: everything is drained, and the ghost keeps the old key. */
  lemma KeyChangeLeavesRow() returns (start: Table, steps: seq<Step>, s: State)
    ensures Reaches(CFG, start, steps, s)
    ensures s.copyComplete && s.taken.None? && s.limitsHeld && s.delivered <= |s.stream| && Pending(s) == []
    ensures !Converged(CFG, s)
  {
    var a: Key, b: Key := [Num(1)], [Num(2)];
    start := map[a := RowOf(1)];
    steps, s := OneRowCopied(start, a);
    steps, s := ApplyChange(start, steps, s, Update(a, b, RowOf(2)));
    assert a in s.gho && a !in s.original;
  }

  /** Ranges calculated for the whole table, copied after the chunk size went down to one. */
  lemma EndsInGhost(start: Table, a: Key, c: Key) returns (steps: seq<Step>, s: State)
    requires forall k :: k in start ==> start[k].Keys == CFG.originalColumns
    requires a != c && IsLeast(start.Keys, a) && IsGreatest(start.Keys, c)
    requires |AtOrAbove(start.Keys, a)| == 3 && |AtOrAbove(start.Keys, c)| == 1
    requires CopyKeys(start.Keys, a, c, 1) == [a]
    ensures Reaches(CFG, start, steps, s)
    ensures s == CopiedToMax(CopiedToMax(RangeKnown(start, a, c), 1, {a}), 1, {c})
  {
    hide Reaches, OneSize, CopyInto;
    steps, s := FirstInGhost(start, a, c);
    CopyPoint(start.Keys, c, 1);
    steps, s := CopyToMax(start, steps, s, 1, 1, {c});
  }

  lemma FirstInGhost(start: Table, a: Key, c: Key) returns (steps: seq<Step>, s: State)
    requires forall k :: k in start ==> start[k].Keys == CFG.originalColumns
    requires a != c && IsLeast(start.Keys, a) && IsGreatest(start.Keys, c)
    requires |AtOrAbove(start.Keys, a)| == 3 && CopyKeys(start.Keys, a, c, 1) == [a]
    ensures Reaches(CFG, start, steps, s) && s == CopiedToMax(RangeKnown(start, a, c), 1, {a})
  {
    steps, s := RangeSteps(start, a, c);
    steps, s := CopyToMax(start, steps, s, 3, 1, {a});
  }

  lemma CopyIntoKeys(g: Table, o: Table, keys: set<Key>)
    ensures CopyInto(CFG, g, o, keys).Keys == g.Keys + (keys * o.Keys)
  {
  }

  lemma EndsKeys(start: Table, a: Key, c: Key)
    requires a in start && c in start
    ensures CopiedToMax(CopiedToMax(RangeKnown(start, a, c), 1, {a}), 1, {c}).gho.Keys == {a, c}
  {
    CopyIntoKeys(map[], start, {a});
    CopyIntoKeys(CopyInto(CFG, map[], start, {a}), start, {c});
    hide CopyInto;
  }

  lemma EndsCopied(start: Table, a: Key, c: Key) returns (steps: seq<Step>, s: State)
    requires forall k :: k in start ==> start[k].Keys == CFG.originalColumns
    requires a != c && IsLeast(start.Keys, a) && IsGreatest(start.Keys, c)
    requires |AtOrAbove(start.Keys, a)| == 3 && |AtOrAbove(start.Keys, c)| == 1
    requires CopyKeys(start.Keys, a, c, 1) == [a]
    ensures Reaches(CFG, start, steps, s) && s.original == start && s.gho.Keys == {a, c}
    ensures s.stream == [] && s.delivered == 0 && s.queue == [] && s.batch == [] && s.taken.None? && s.copyComplete
  {
    EndsKeys(start, a, c);
    hide Reaches, OneSize, CopyInto;
    steps, s := EndsInGhost(start, a, c);
    steps, s := EndLoop(start, steps, s, 1);
  }

  /** The chunk size is lowered between the calculation of a range and its copy: everything is
      drained, and a row between the first and the last is in neither the ghost nor the log. */
  lemma LoweredChunkSizeLosesRow() returns (start: Table, steps: seq<Step>, s: State)
    ensures Reaches(CFG, start, steps, s)
    ensures s.copyComplete && s.taken.None? && s.delivered <= |s.stream| && Pending(s) == []
    ensures Changes(s.stream) == [] && exists k :: k in s.original && k !in s.gho
  {
    var a: Key, b: Key, c: Key := [Num(1)], [Num(2)], [Num(3)];
    start := map[a := RowOf(1), b := RowOf(2), c := RowOf(3)];
    assert start.Keys == {a, b, c};
    ThreeKeys(a, b, c);
    steps, s := EndsCopied(start, a, c);
    assert b in s.original && b !in s.gho;
  }

  lemma ThreeKeys(a: Key, b: Key, c: Key)
    requires a == [Num(1)] && b == [Num(2)] && c == [Num(3)]
    ensures IsLeast({a, b, c}, a) && IsGreatest({a, b, c}, c)
    ensures |AtOrAbove({a, b, c}, a)| == 3 && |AtOrAbove({a, b, c}, c)| == 1
    ensures CopyKeys({a, b, c}, a, c, 1) == [a]
  {
    assert DecidedAt(a, b, 0) && DecidedAt(b, c, 0) && DecidedAt(a, c, 0);
    Trichotomy(a, b);
    Trichotomy(b, c);
    Trichotomy(a, c);
    assert AtOrAbove({a, b, c}, a) == {a, b, c};
    assert AtOrAbove({a, b, c}, c) == {c};
    assert Closed({a, b, c}, a, c) == {a, b, c};
    SortedUnique([a, b, c], {a, b, c});
  }

  /** The state after a change was committed between the calculation of a range up to the maximum and its
      copy. */
  ghost function CopiedLate(s: State, e: Event, limit: nat, taken: set<Key>): State
    requires s.cursor.iterationMin.Some? && s.cursor.migrationMax.Some? && s.stream == []
  {
    var lo, hi, now := s.cursor.iterationMin, s.cursor.migrationMax, Commit(s.original, e);
    var r := Chunks.Range(lo.value, hi.value);
    s.(original := now, stream := [Change(e)], left := LeftBehind(s.left, e, Covered(s)),
       cursor := s.cursor.(iterationMin := hi, iterationMax := hi), chunks := s.chunks + [r], ran := s.ran + [r],
       copied := s.copied + taken, gho := CopyInto(CFG, s.gho, now, taken),
       limitsHeld := s.limitsHeld && 1 <= limit && |HalfOpen(now.Keys, r.lo, r.hi)| <= limit)
  }

  lemma ChunkToBoundary(start: Table, a: Key, c: Key)
    requires a != c && Boundary(start.Keys, a, 2) == Some(c)
    ensures var s := RangeKnown(start, a, c);
      && Enabled(CFG, s, NextChunk(2))
      && Next(CFG, s, NextChunk(2))
         == s.(cursor := s.cursor.(iterationMin := Some(c), iterationMax := Some(c)), chunks := [Chunks.Range(a, c)],
               sending := Some(Chunks.Range(a, c)))
      && Covered(Next(CFG, s, NextChunk(2))) == Covered(s)
  {
  }

  lemma CommitLate(s: State, e: Event)
    requires !s.swapped && Legal(s.original, e) && !e.Delete? && e.row.Keys == CFG.originalColumns
    ensures Enabled(CFG, s, SourceCommit(e))
    ensures Next(CFG, s, SourceCommit(e))
         == s.(original := Commit(s.original, e), stream := s.stream + [Change(e)],
               left := LeftBehind(s.left, e, Covered(s)))
  {
  }

  /** The first range is the whole table's; the change is committed while it is not yet queued. */
  lemma CalculatedLate(start: Table, a: Key, c: Key, e: Event) returns (steps: seq<Step>, s: State)
    requires forall k :: k in start ==> start[k].Keys == CFG.originalColumns
    requires a != c && IsLeast(start.Keys, a) && IsGreatest(start.Keys, c) && Boundary(start.Keys, a, 2) == Some(c)
    requires Legal(start, e) && !e.Delete? && e.row.Keys == CFG.originalColumns
    ensures Reaches(CFG, start, steps, s) && OneSize(steps, 2)
    ensures var s0 := RangeKnown(start, a, c);
      s == s0.(cursor := s0.cursor.(iterationMin := Some(c), iterationMax := Some(c)), chunks := [Chunks.Range(a, c)],
               sending := Some(Chunks.Range(a, c)), original := Commit(start, e), stream := [Change(e)],
               left := LeftBehind({}, e, Covered(s0)))
  {
    ChunkToBoundary(start, a, c);
    CommitLate(Next(CFG, RangeKnown(start, a, c), NextChunk(2)), e);
    hide OneSize, Reaches, LeftBehind, Covered, Boundary, IsLeast, IsGreatest, Commit, Enabled, Next;
    steps, s := RangeSteps(start, a, c);
    steps, s := Then(CFG, start, steps, s, NextChunk(2));
    steps, s := Then(CFG, start, steps, s, SourceCommit(e));
  }

  lemma CopyLate(start: Table, a: Key, c: Key, e: Event, taken: set<Key>) returns (steps: seq<Step>, s: State)
    requires forall k :: k in start ==> start[k].Keys == CFG.originalColumns
    requires a != c && IsLeast(start.Keys, a) && IsGreatest(start.Keys, c) && Boundary(start.Keys, a, 2) == Some(c)
    requires Legal(start, e) && !e.Delete? && e.row.Keys == CFG.originalColumns
    requires taken == set k | k in CopyKeys(Commit(start, e).Keys, a, c, 2)
    ensures Reaches(CFG, start, steps, s) && OneSize(steps, 2)
    ensures s == CopiedLate(RangeKnown(start, a, c), e, 2, taken)
  {
    hide OneSize, Reaches, CopyKeys, CopyInto, LeftBehind, Covered, Boundary, IsLeast, IsGreatest, Commit, Legal;
    steps, s := CalculatedLate(start, a, c, e);
    steps, s := CopyHanded(start, steps, s, Chunks.Range(a, c), 2, taken);
  }

  /** The setting of CopyLate, with at most a chunk of rows at the maximum. */
  ghost predicate Late(start: Table, a: Key, c: Key, e: Event, taken: set<Key>) {
    && (forall k :: k in start ==> start[k].Keys == CFG.originalColumns)
    && a != c && IsLeast(start.Keys, a) && IsGreatest(start.Keys, c) && Boundary(start.Keys, a, 2) == Some(c)
    && Legal(start, e) && !e.Delete? && e.row.Keys == CFG.originalColumns
    && taken == (set k | k in CopyKeys(Commit(start, e).Keys, a, c, 2))
    && c in Commit(start, e) && taken <= Commit(start, e).Keys && |AtOrAbove(Commit(start, e).Keys, c)| <= 2
  }

  lemma LateIsLast(start: Table, a: Key, c: Key, e: Event, taken: set<Key>)
    requires Late(start, a, c, e, taken)
    ensures var s := CopiedLate(RangeKnown(start, a, c), e, 2, taken);
      && AtLastRange(s, 2) && s.original == Commit(start, e)
      && s.cursor.iterationMin == s.cursor.migrationMax == Some(c)
  {
    hide Commit, CopyInto, LeftBehind, Covered;
  }

  ghost predicate Ended(s: State, o: Table, e: Event, keys: set<Key>) {
    && !s.swapped && !s.stopped && s.copyComplete && s.original == o && s.gho.Keys == keys
    && s.stream == [Change(e)] && s.delivered == 0 && s.queue == [] && s.batch == [] && s.taken.None?
  }

  lemma LateEnds(start: Table, a: Key, c: Key, e: Event, taken: set<Key>)
    requires Late(start, a, c, e, taken)
    ensures var s := CopiedToMax(CopiedLate(RangeKnown(start, a, c), e, 2, taken), 2, {c});
      && !s.swapped && !s.stopped && s.phase == RangeRead && !s.copyComplete && s.sending.None?
      && s.original == Commit(start, e) && s.cursor.finalChunkReturned
      && s.cursor.iterationMin == s.cursor.migrationMax == s.cursor.iterationMax == Some(c)
      && Ended(s.(copyComplete := true), Commit(start, e), e, taken + {c})
  {
    CopyIntoKeys(map[], Commit(start, e), taken);
    CopyIntoKeys(CopyInto(CFG, map[], Commit(start, e), taken), Commit(start, e), {c});
    hide Commit, CopyInto, LeftBehind, Covered;
  }

  /** The last range is copied after that, and the loop ends. */
  lemma LateEnd(start: Table, a: Key, c: Key, e: Event, taken: set<Key>) returns (steps: seq<Step>, s: State)
    requires Late(start, a, c, e, taken)
    ensures Reaches(CFG, start, steps, s) && OneSize(steps, 2) && Ended(s, Commit(start, e), e, taken + {c})
  {
    LateIsLast(start, a, c, e, taken);
    LateEnds(start, a, c, e, taken);
    CopyPoint(Commit(start, e).Keys, c, 2);
    assert {c} == set k | k in CopyKeys(Commit(start, e).Keys, c, c, 2);
    steps, s := CopyLate(start, a, c, e, taken);
    hide *;
    steps, s := CopyToMax(start, steps, s, 2, 2, {c});
    steps, s := EndLoop(start, steps, s, 2);
  }

  lemma NumOrder(m: int, n: int)
    requires m < n
    ensures Less([Num(m)], [Num(n)]) && !Less([Num(n)], [Num(m)]) && [Num(m)] != [Num(n)]
  {
    assert DecidedAt([Num(m)], [Num(n)], 0);
    Trichotomy([Num(m)], [Num(n)]);
  }

  ghost predicate Before(a: Key, b: Key) {
    Less(a, b) && !Less(b, a) && a != b
  }

  ghost predicate InOrder(a: Key, i: Key, b: Key, c: Key) {
    && Before(a, i) && Before(a, b) && Before(a, c) && Before(i, b) && Before(i, c) && Before(b, c)
    && !Less(a, a) && !Less(i, i) && !Less(b, b) && !Less(c, c)
  }

  lemma PushedOut(a: Key, i: Key, b: Key, c: Key)
    requires InOrder(a, i, b, c)
    ensures IsLeast({a, b, c}, a) && IsGreatest({a, b, c}, c) && Boundary({a, b, c}, a, 2) == Some(c)
    ensures CopyKeys({a, i, b, c}, a, c, 2) == [a, i] && |AtOrAbove({a, i, b, c}, c)| == 1
  {
    hide Less;
    assert AtOrAbove({a, b, c}, a) == {a, b, c};
    SortedUnique([a, b, c], {a, b, c});
    assert AtOrAbove({a, i, b, c}, c) == {c};
    assert Closed({a, i, b, c}, a, c) == {a, i, b, c};
    SortedUnique([a, i, b, c], {a, i, b, c});
  }

  lemma FourKeys()
    ensures InOrder([Num(1)], [Num(2)], [Num(3)], [Num(5)])
  {
    NumOrder(1, 2);
    NumOrder(1, 3);
    NumOrder(1, 5);
    NumOrder(2, 3);
    NumOrder(2, 5);
    NumOrder(3, 5);
    Trichotomy([Num(1)], [Num(1)]);
    Trichotomy([Num(2)], [Num(2)]);
    Trichotomy([Num(3)], [Num(3)]);
    Trichotomy([Num(5)], [Num(5)]);
    hide Less;
  }

  lemma InsertLate(start: Table, a: Key, i: Key, b: Key, c: Key, row: Row)
    requires InOrder(a, i, b, c) && start.Keys == {a, b, c} && row.Keys == CFG.originalColumns
    requires forall k :: k in start ==> start[k].Keys == CFG.originalColumns
    ensures Late(start, a, c, Insert(i, row), {a, i}) && Commit(start, Insert(i, row)).Keys == {a, i, b, c}
  {
    PushedOut(a, i, b, c);
    hide CopyKeys, IsLeast, IsGreatest, Boundary, Less, AtOrAbove;
    assert Commit(start, Insert(i, row)).Keys == {a, i, b, c};
    assert {a, i} == set k | k in [a, i];
  }

  lemma InsertPushes(start: Table, a: Key, i: Key, b: Key, c: Key, row: Row) returns (steps: seq<Step>, s: State)
    requires InOrder(a, i, b, c) && start.Keys == {a, b, c} && row.Keys == CFG.originalColumns
    requires forall k :: k in start ==> start[k].Keys == CFG.originalColumns
    ensures Reaches(CFG, start, steps, s) && OneSize(steps, 2)
    ensures s.copyComplete && s.taken.None? && s.delivered <= |s.stream| && Pending(s) == []
    ensures b in s.original && b !in s.gho && Changes(s.stream) == [Insert(i, row)]
  {
    var e := Insert(i, row);
    InsertLate(start, a, i, b, c, row);
    assert a != b && i != b && c != b;
    assert Changes([Change(e)]) == [e];
    hide OneSize, Reaches, Late, Commit, InOrder;
    steps, s := LateEnd(start, a, c, e, {a, i});
    steps, s := DrainChange(start, steps, s, e);
  }

  /** The chunk size never changes: a row inserted into a range that was handed out takes the place of
      another row within the LIMIT of the copy, and that one is in neither the ghost nor the log. */
  lemma InsertLosesRow() returns (start: Table, steps: seq<Step>, s: State)
    ensures Reaches(CFG, start, steps, s) && OneSize(steps, 2)
    ensures s.copyComplete && s.taken.None? && s.delivered <= |s.stream| && Pending(s) == []
    ensures exists k :: k in start && k in s.original && k !in s.gho && k !in Established(Changes(s.stream))
  {
    var a: Key, i: Key, b: Key, c: Key := [Num(1)], [Num(2)], [Num(3)], [Num(5)];
    start := map[a := RowOf(1), b := RowOf(3), c := RowOf(5)];
    assert start.Keys == {a, b, c};
    FourKeys();
    hide OneSize, Reaches, InOrder;
    steps, s := InsertPushes(start, a, i, b, c, RowOf(2));
    var log := [Insert(i, RowOf(2))];
    assert log[..0] == [] && Established(log) == Established([]) + {i};
    assert b in start && b in s.original && b !in s.gho && b !in Established(Changes(s.stream));
  }

  /** The conditions of the end-to-end theorem can be met: a run that ends in a drained cutover. */
  lemma DrainedCutoverReached() returns (start: Table, steps: seq<Step>, s: State)
    ensures Reaches(CFG, start, steps, s) && start != map[]
    ensures s.swapped && s.markerSeen && Drained(s) && Converged(CFG, s)
  {
    var a: Key := [Num(1)];
    start := map[a := RowOf(1)];
    steps, s := OneRowCopied(start, a);
    steps, s := MarkerHeard(start, steps, s);
    steps, s := Then(CFG, start, steps, s, CutOver);
    DrainedCutover(CFG, start, steps, s);
  }

  lemma MarkerHeard(start: Table, steps: seq<Step>, s: State) returns (steps': seq<Step>, s': State)
    requires Reaches(CFG, start, steps, s) && !s.swapped && !s.stopped && s.copyComplete
    requires s.stream == [] && s.delivered == 0
    ensures Reaches(CFG, start, steps', s')
    ensures s' == s.(stream := [Marker], delivered := 1, markerSeen := true)
    ensures forall p :: 0 <= p < |s'.stream| ==> Changes(s'.stream[p..]) == []
    ensures Changes(s'.stream) == []
  {
    steps', s' := Then(CFG, start, steps, s, WriteMarker);
    steps', s' := Then(CFG, start, steps', s', Deliver(true));
    assert [Marker][..0] == [] && [Marker][0..] == [Marker];
  }
}
