/** The chunk cursor over the unique key, and the loop that hands out ranges to copy. */
module Chunks {
  import opened Values
  import opened Selection
  import Strings

  /** The two captured ends of a chunk. */
  datatype Range = Range(lo: Key, hi: Key)

  datatype Cursor = Cursor(
    migrationMin: Option<Key>, migrationMax: Option<Key>,
    iterationMin: Option<Key>, iterationMax: Option<Key>, finalChunkReturned: bool)

  const NO_CURSOR := Cursor(None, None, None, None, false)

  function HasMore(c: Cursor): (Cursor, bool) {
    if c.iterationMin.None? || c.migrationMax.None? then (c, false)
    else if c.iterationMin != c.migrationMax then (c, true)
    else if c.finalChunkReturned then (c, false)
    else (c.(finalChunkReturned := true), true)
  }

  function Calculate(c: Cursor, keys: set<Key>, chunkSize: nat): (Cursor, bool) {
    if c.iterationMin.None? || c.migrationMax.None? then (c, false)
    else
      match Boundary(keys, c.iterationMin.value, chunkSize)
      case None => HasMore(c.(iterationMax := c.migrationMax))
      case Some(next) => (c.(iterationMax := Some(next)), true)
  }

  function Advance(c: Cursor): Cursor {
    c.(iterationMin := c.iterationMax)
  }

  /** The type of a column: an integer, a text, or any other. */
  datatype Kind = NumKind | TextKind | OtherKind

  predicate HasKind(kind: Kind, v: Value) {
    match v
    case Num(_) => kind.NumKind?
    case Text(_) => kind.TextKind?
    case Unlisted(_) => kind.OtherKind?
    case Null => false
  }

  /** The values of a key whose columns have those types. */
  predicate Typed(kinds: seq<Kind>, k: Key) {
    |k| == |kinds| && forall i | 0 <= i < |k| :: HasKind(kinds[i], k[i])
  }

  /** The %v of Go's formatter. */
  function Format(v: Value): string {
    match v
    case Num(n) => Strings.Decimal(n)
    case Text(s) => s
    case Unlisted(printed) => printed
    case Null => "<nil>"
  }

  /** Values of one column type format alike only when they are equal. */
  lemma FormatInjective(v: Value, w: Value)
    requires (v.Num? && w.Num?) || (v.Text? && w.Text?) || (v.Unlisted? && w.Unlisted?)
    ensures Format(v) == Format(w) <==> v == w
  {
    if v.Num? && Format(v) == Format(w) {
      Strings.DecimalInjective(v.n, w.n);
    }
  }

  /** What the loop meets at one turn: a throttle, an abort, a lost connection, or the table as it is. */
  datatype Tick = Throttled | Aborted | Lost | Look(keys: set<Key>, chunkSize: nat)

  datatype Status = Running | Complete | Stopped

  datatype Progress = Progress(cursor: Cursor, chunks: seq<Range>, status: Status)

  function Turn(p: Progress, t: Tick): Progress {
    if !p.status.Running? || t.Throttled? then p
    else if t.Aborted? then p.(status := Stopped)
    else if t.Lost? then
      // Without a recorded range there is no query that could fail.
      p.(status := if p.cursor.iterationMin.None? || p.cursor.migrationMax.None? then Complete else Stopped)
    else
      var (c, more) := Calculate(p.cursor, t.keys, t.chunkSize);
      if more && c.iterationMin.Some? && c.iterationMax.Some? then
        Progress(Advance(c), p.chunks + [Range(c.iterationMin.value, c.iterationMax.value)], Running)
      else p.(cursor := c, status := Complete)
  }

  function Turns(p: Progress, ticks: seq<Tick>): Progress
    decreases |ticks|
  {
    if ticks == [] then p else Turns(Turn(p, ticks[0]), ticks[1..])
  }

  lemma {:induction false} TurnsSnoc(p: Progress, ticks: seq<Tick>, t: Tick)
    ensures Turns(p, ticks + [t]) == Turn(Turns(p, ticks), t)
    decreases |ticks|
  {
    if ticks == [] {
      assert ([] + [t])[1..] == [];
    } else {
      assert (ticks + [t])[1..] == ticks[1..] + [t];
      TurnsSnoc(Turn(p, ticks[0]), ticks[1..], t);
    }
  }

  /** The cursor fields of the applier and the methods that update them. */
  class Applier {
    const uniqueKey: seq<string>
    const kinds: seq<Kind>
    var migrationMin: Option<Key>
    var migrationMax: Option<Key>
    var iterationMin: Option<Key>
    var iterationMax: Option<Key>
    var finalChunkReturned: bool

    constructor (uniqueKey: seq<string>, kinds: seq<Kind>)
      ensures this.uniqueKey == uniqueKey && this.kinds == kinds
      ensures Valid() && At() == NO_CURSOR
    {
      this.uniqueKey := uniqueKey;
      this.kinds := kinds;
      migrationMin, migrationMax, iterationMin, iterationMax := None, None, None, None;
      finalChunkReturned := false;
    }

    function At(): Cursor
      reads this
    {
      Cursor(migrationMin, migrationMax, iterationMin, iterationMax, finalChunkReturned)
    }

    ghost predicate Valid()
      reads this
    {
      && (migrationMax.Some? ==> Typed(kinds, migrationMax.value))
      && (iterationMin.Some? ==> Typed(kinds, iterationMin.value))
    }

    /** The table may change between the two queries. */
    method ReadMigrationRangeValues(first: set<Key>, second: set<Key>) returns (r: Result<()>)
      requires Valid()
      requires forall k :: k in first + second ==> Typed(kinds, k)
      modifies this
      ensures Valid()
      ensures r.Err? <==> uniqueKey == [] || (first != {} && second == {})
      ensures uniqueKey == [] || first == {} ==> At() == old(At())
      ensures uniqueKey != [] && first != {} ==>
        && migrationMin == iterationMin && migrationMin.Some? && IsLeast(first, migrationMin.value)
        && iterationMax == old(iterationMax) && finalChunkReturned == old(finalChunkReturned)
        && (second == {} ==> migrationMax == old(migrationMax))
        && (second != {} ==> migrationMax.Some? && IsGreatest(second, migrationMax.value))
    {
      if uniqueKey == [] {
        return Err("no unique key defined");
      }
      if first == {} {
        return Ok(());
      }
      migrationMin := Some(Least(first));
      iterationMin := migrationMin;
      if second == {} {
        return Err("failed to read max values");
      }
      migrationMax := Some(Greatest(second));
      r := Ok(());
    }

    method HasMoreRows() returns (more: bool)
      requires Valid()
      modifies this`finalChunkReturned
      ensures At() == HasMore(old(At())).0
      ensures more == HasMore(old(At())).1
      ensures more <==>
        iterationMin.Some? && migrationMax.Some? && (iterationMin != migrationMax || !old(finalChunkReturned))
      ensures finalChunkReturned ==
        (old(finalChunkReturned) || (iterationMin.Some? && iterationMin == migrationMax))
    {
      if iterationMin.None? || migrationMax.None? {
        return false;
      }
      ghost var c := At();
      var min, max := iterationMin.value, migrationMax.value;
      for i := 0 to |min|
        invariant At() == c
        invariant min[..i] == max[..i]
      {
        FormatInjective(min[i], max[i]);
        if Format(min[i]) != Format(max[i]) {
          assert c.iterationMin != c.migrationMax;
          return true;
        }
      }
      assert min == min[..|min|] == max[..|min|] == max;
      assert c.iterationMin == c.migrationMax;
      if finalChunkReturned {
        return false;
      }
      finalChunkReturned := true;
      more := true;
    }

    method CalculateNextIterationRangeEndValues(keys: set<Key>, chunkSize: nat, lost: bool) returns (r: Result<bool>)
      requires Valid()
      requires forall k :: k in keys ==> Typed(kinds, k)
      modifies this
      ensures Valid()
      ensures r.Err? <==> uniqueKey == [] || (lost && old(iterationMin).Some? && old(migrationMax).Some?)
      ensures r.Err? ==> At() == old(At())
      ensures r.Ok? ==> (At(), r.value) == Calculate(old(At()), keys, chunkSize)
      ensures iterationMin == old(iterationMin)
      ensures r == Ok(true) ==> iterationMin.Some? && iterationMax.Some? && Typed(kinds, iterationMax.value)
      ensures r.Ok? && iterationMin.Some? && migrationMax.Some? ==>
        match Boundary(keys, iterationMin.value, chunkSize)
        case Some(next) => r.value && iterationMax == Some(next) && finalChunkReturned == old(finalChunkReturned)
        case None =>
          iterationMax == migrationMax && r.value == (iterationMin != migrationMax || !old(finalChunkReturned))
      ensures r.Ok? && !(iterationMin.Some? && migrationMax.Some?) ==> !r.value && At() == old(At())
    {
      if uniqueKey == [] {
        return Err("no unique key defined");
      }
      if iterationMin.None? || migrationMax.None? {
        return Ok(false);
      }
      if lost {
        return Err("failed to calculate next range");
      }
      BoundaryFacts(keys, iterationMin.value, chunkSize);
      match Boundary(keys, iterationMin.value, chunkSize) {
        case None =>
          iterationMax := migrationMax;
          var more := HasMoreRows();
          r := Ok(more);
        case Some(next) =>
          iterationMax := Some(next);
          r := Ok(true);
      }
    }

    method AdvanceIterationRangeMin()
      modifies this`iterationMin
      ensures At() == Advance(old(At()))
    {
      iterationMin := iterationMax;
    }

    /** The loop over any schedule of what it meets; the captured ranges go to the copy queue. */
    method IterateChunks(schedule: seq<Tick>) returns (chunks: seq<Range>, status: Status)
      requires Valid()
      requires forall t, k :: t in schedule && t.Look? && k in t.keys ==> Typed(kinds, k)
      modifies this
      ensures Valid()
      ensures uniqueKey != [] ==> Progress(At(), chunks, status) == Turns(Progress(old(At()), [], Running), schedule)
      ensures uniqueKey == [] ==> At() == old(At()) && chunks == [] && !status.Complete?
    {
      chunks, status := [], Running;
      ghost var start := Progress(At(), [], Running);
      for i := 0 to |schedule|
        invariant Valid() && status == Running
        invariant uniqueKey == [] ==> At() == start.cursor && chunks == []
        invariant uniqueKey != [] ==> Progress(At(), chunks, status) == Turns(start, schedule[..i])
      {
        assert schedule[..i + 1] == schedule[..i] + [schedule[i]];
        TurnsSnoc(start, schedule[..i], schedule[i]);
        var t := schedule[i];
        if t.Aborted? {
          status := Stopped;
          StopsHere(start, schedule, i);
          return;
        }
        if t.Throttled? {
          continue;
        }
        var keys, chunkSize := if t.Look? then t.keys else {}, if t.Look? then t.chunkSize else 0;
        var hasMore := CalculateNextIterationRangeEndValues(keys, chunkSize, t.Lost?);
        if hasMore.Err? {
          status := Stopped;
          StopsHere(start, schedule, i);
          return;
        }
        if hasMore == Ok(false) {
          status := Complete;
          StopsHere(start, schedule, i);
          return;
        }
        var captured := Range(iterationMin.value, iterationMax.value);
        AdvanceIterationRangeMin();
        chunks := chunks + [captured];
      }
      assert schedule[..|schedule|] == schedule;
    }
  }

  lemma {:induction false} EndedTurns(p: Progress, ticks: seq<Tick>)
    requires !p.status.Running?
    ensures Turns(p, ticks) == p
  {
    if ticks != [] {
      EndedTurns(p, ticks[1..]);
    }
  }

  lemma {:induction false} TurnsSplit(p: Progress, ticks: seq<Tick>, i: nat)
    requires i <= |ticks|
    ensures Turns(p, ticks) == Turns(Turns(p, ticks[..i]), ticks[i..])
    decreases i
  {
    if i == 0 {
      assert ticks[0..] == ticks;
    } else {
      assert ticks[..i][1..] == ticks[1..][..i - 1];
      assert ticks[1..][i - 1..] == ticks[i..];
      TurnsSplit(Turn(p, ticks[0]), ticks[1..], i - 1);
    }
  }

  /** A turn that ends the loop is the last one that matters. */
  lemma StopsHere(p: Progress, ticks: seq<Tick>, i: nat)
    requires i < |ticks|
    ensures !Turns(p, ticks[..i + 1]).status.Running? ==> Turns(p, ticks) == Turns(p, ticks[..i + 1])
  {
    TurnsSplit(p, ticks, i + 1);
    if !Turns(p, ticks[..i + 1]).status.Running? {
      EndedTurns(Turns(p, ticks[..i + 1]), ticks[i + 1..]);
    }
  }

  /** Every captured range starts where the one before ended, the first at the recorded minimum,
      and the cursor stands where the last one ended. */
  ghost predicate Chained(c: Cursor, chunks: seq<Range>) {
    && c.migrationMin.Some? && c.migrationMax.Some? && c.iterationMin.Some?
    && (chunks == [] ==> c.iterationMin == c.migrationMin)
    && (chunks != [] ==> chunks[0].lo == c.migrationMin.value && chunks[|chunks| - 1].hi == c.iterationMin.value)
    && (forall i :: 0 <= i < |chunks| - 1 ==> chunks[i].hi == chunks[i + 1].lo)
    && (c.finalChunkReturned ==> Range(c.migrationMax.value, c.migrationMax.value) in chunks)
  }

  lemma TurnChained(p: Progress, t: Tick)
    requires Chained(p.cursor, p.chunks)
    ensures var q := Turn(p, t);
      && Chained(q.cursor, q.chunks)
      && q.cursor.migrationMin == p.cursor.migrationMin && q.cursor.migrationMax == p.cursor.migrationMax
      && (q.status.Complete? && p.status.Running? ==> q.cursor.finalChunkReturned)
  {
  }

  /** The loop is stopped by the turn: an abort, or a lost connection when there is a range to ask about. */
  predicate Breaks(p: Progress, t: Tick) {
    p.status.Running? && (t.Aborted? || (t.Lost? && p.cursor.iterationMin.Some? && p.cursor.migrationMax.Some?))
  }

  /** The loop ends without completing exactly when some turn stops it while it runs. */
  lemma {:induction false} StoppedIff(p: Progress, ticks: seq<Tick>)
    requires !p.status.Stopped?
    ensures Turns(p, ticks).status.Stopped? <==>
      exists i :: 0 <= i < |ticks| && Breaks(Turns(p, ticks[..i]), ticks[i])
    decreases |ticks|
  {
    if ticks != [] {
      var n := |ticks| - 1;
      assert ticks == ticks[..n] + [ticks[n]];
      TurnsSnoc(p, ticks[..n], ticks[n]);
      StoppedIff(p, ticks[..n]);
      forall i | 0 <= i < n
        ensures Breaks(Turns(p, ticks[..n][..i]), ticks[..n][i]) <==> Breaks(Turns(p, ticks[..i]), ticks[i])
      {
        assert ticks[..n][..i] == ticks[..i];
      }
      TurnStops(Turns(p, ticks[..n]), ticks[n]);
      hide Turn, Breaks;
    }
  }

  lemma TurnStops(p: Progress, t: Tick)
    ensures Turn(p, t).status.Stopped? <==> p.status.Stopped? || Breaks(p, t)
  {
  }

  /** A look at the table adds one range, or none and ends the loop. */
  lemma TurnChunks(p: Progress, t: Tick)
    requires p.status.Running? && t.Look?
    ensures var q := Turn(p, t);
      if q.status.Complete? then q.chunks == p.chunks
      else q.status.Running? && q.chunks != [] && q.chunks[..|q.chunks| - 1] == p.chunks
  {
  }

  /** Whatever the table does meanwhile, the ranges chain, and a completed loop has handed out the
      range from the recorded maximum to itself. */
  lemma {:induction false} TurnsChained(p: Progress, ticks: seq<Tick>)
    requires Chained(p.cursor, p.chunks) && p.status.Running?
    ensures var q := Turns(p, ticks);
      && Chained(q.cursor, q.chunks)
      && q.cursor.migrationMin == p.cursor.migrationMin && q.cursor.migrationMax == p.cursor.migrationMax
      && (q.status.Complete? ==> Range(p.cursor.migrationMax.value, p.cursor.migrationMax.value) in q.chunks)
    decreases |ticks|
  {
    if ticks != [] {
      TurnChained(p, ticks[0]);
      if Turn(p, ticks[0]).status.Running? {
        TurnsChained(Turn(p, ticks[0]), ticks[1..]);
      } else {
        EndedTurns(Turn(p, ticks[0]), ticks[1..]);
      }
    }
  }

  /** A key belongs to a chunk when it is in [lo, hi), or is both ends of it. */
  predicate InChunk(r: Range, k: Key) {
    (Leq(r.lo, k) && Less(k, r.hi)) || r.lo == r.hi == k
  }

  /** Chained ranges that reach the recorded maximum leave out no key of the migration range. */
  lemma ChainCovers(c: Cursor, chunks: seq<Range>, k: Key) returns (i: nat)
    requires Chained(c, chunks)
    requires Range(c.migrationMax.value, c.migrationMax.value) in chunks
    requires Leq(c.migrationMin.value, k) && Leq(k, c.migrationMax.value)
    ensures i < |chunks| && InChunk(chunks[i], k)
  {
    var max := c.migrationMax.value;
    i :| 0 <= i < |chunks| && chunks[i] == Range(max, max);
    if k != max {
      while !Leq(chunks[i].lo, k)
        invariant 0 <= i < |chunks| && Less(k, chunks[i].hi)
        decreases i
      {
        Trichotomy(k, chunks[i].lo);
        assert i > 0 && chunks[i - 1].hi == chunks[i].lo;
        i := i - 1;
      }
      Trichotomy(k, chunks[i].lo);
    }
  }

  /** When a range is calculated, its chunk size is enough for the rows of [lo, hi). */
  lemma ChunkFitsWhenCalculated(p: Progress, keys: set<Key>, chunkSize: nat)
    requires p.status.Running? && Turn(p, Look(keys, chunkSize)).status.Running?
    ensures var chunks := Turn(p, Look(keys, chunkSize)).chunks;
      && |chunks| == |p.chunks| + 1
      && |HalfOpen(keys, chunks[|p.chunks|].lo, chunks[|p.chunks|].hi)| <= chunkSize
  {
    var lo := p.cursor.iterationMin.value;
    BoundaryFacts(keys, lo, chunkSize);
    var hi := Turn(p, Look(keys, chunkSize)).chunks[|p.chunks|].hi;
    SubsetSize(HalfOpen(keys, lo, hi), AtOrAbove(keys, lo));
  }

  lemma {:induction false} SubsetSize<T>(a: set<T>, b: set<T>)
    requires a <= b
    ensures |a| <= |b|
  {
    if a != {} {
      var x :| x in a;
      SubsetSize(a - {x}, b - {x});
    }
  }

  function Again(t: Tick, n: nat): (ticks: seq<Tick>)
    ensures |ticks| == n
  {
    seq(n, _ => t)
  }

  lemma TurnsAgain(p: Progress, t: Tick, n: nat)
    ensures Turns(p, Again(t, n + 1)) == Turns(Turn(p, t), Again(t, n))
  {
    assert Again(t, n + 1)[1..] == Again(t, n);
  }

  /** Turns still needed on a table that stays as it is. */
  ghost function Remaining(c: Cursor, keys: set<Key>): nat
    requires c.migrationMax.Some? && c.iterationMin.Some?
  {
    if c.iterationMin == c.migrationMax then (if c.finalChunkReturned then 1 else 2)
    else 3 + |AtOrAbove(keys, c.iterationMin.value)|
  }

  /** With at most one chunk of rows at or above the recorded maximum, the loop ends, although the
      cursor may pass that maximum and come back to it. */
  lemma {:induction false} LoopEnds(p: Progress, keys: set<Key>, chunkSize: nat) returns (n: nat)
    requires p.status.Running? && p.cursor.migrationMax.Some? && p.cursor.iterationMin.Some?
    requires chunkSize >= 1 && |AtOrAbove(keys, p.cursor.migrationMax.value)| <= chunkSize
    ensures n <= Remaining(p.cursor, keys)
    ensures Turns(p, Again(Look(keys, chunkSize), n)).status.Complete?
    decreases Remaining(p.cursor, keys)
  {
    var t := Look(keys, chunkSize);
    var q := Turn(p, t);
    BoundaryFacts(keys, p.cursor.iterationMin.value, chunkSize);
    if q.status.Complete? {
      n := 1;
      TurnsAgain(p, t, 0);
    } else {
      var m := LoopEnds(q, keys, chunkSize);
      n := m + 1;
      TurnsAgain(p, t, m);
    }
  }

  lemma {:induction false} LoopRunsOn(p: Progress, keys: set<Key>, chunkSize: nat, n: nat)
    requires p.status.Running? && p.cursor.migrationMax.Some? && p.cursor.iterationMin.Some?
    requires |AtOrAbove(keys, p.cursor.migrationMax.value)| > chunkSize
    ensures Turns(p, Again(Look(keys, chunkSize), n)).status.Running?
    decreases n
  {
    if n > 0 {
      var t := Look(keys, chunkSize);
      BoundaryFacts(keys, p.cursor.iterationMin.value, chunkSize);
      TurnsAgain(p, t, n - 1);
      LoopRunsOn(Turn(p, t), keys, chunkSize, n - 1);
    }
  }

  /** On a table that stays as it is, the loop ends exactly when at most one chunk of its rows is
      at or above the recorded maximum. */
  lemma LoopEndsIff(p: Progress, keys: set<Key>, chunkSize: nat)
    requires p.status.Running? && p.cursor.migrationMax.Some? && p.cursor.iterationMin.Some? && chunkSize >= 1
    ensures (exists n: nat :: Turns(p, Again(Look(keys, chunkSize), n)).status.Complete?)
       <==> |AtOrAbove(keys, p.cursor.migrationMax.value)| <= chunkSize
  {
    if |AtOrAbove(keys, p.cursor.migrationMax.value)| <= chunkSize {
      var n := LoopEnds(p, keys, chunkSize);
    } else {
      forall n: nat
        ensures !Turns(p, Again(Look(keys, chunkSize), n)).status.Complete?
      {
        LoopRunsOn(p, keys, chunkSize, n);
      }
    }
  }

  // ---- which range is the last ----

  /** The loop stands at the recorded maximum and has handed out the final range. */
  predicate AtEnd(p: Progress) {
    p.status.Running? && p.cursor.finalChunkReturned && p.cursor.iterationMin == p.cursor.migrationMax
  }

  /** The table, as the loop finds it there, has at most a chunk of rows at or above the maximum. */
  predicate NoOvershoot(p: Progress, t: Tick)
    requires p.cursor.migrationMax.Some?
  {
    AtEnd(p) && t.Look? ==> |AtOrAbove(t.keys, p.cursor.migrationMax.value)| <= t.chunkSize
  }

  lemma TurnKeepsMax(p: Progress, t: Tick)
    ensures Turn(p, t).cursor.migrationMax == p.cursor.migrationMax
  {
  }

  /** It has so at every such turn of the schedule. */
  predicate NeverOvershoots(p: Progress, ticks: seq<Tick>)
    requires p.cursor.migrationMax.Some?
    decreases |ticks|
  {
    ticks == [] ||
    (TurnKeepsMax(p, ticks[0]); NoOvershoot(p, ticks[0]) && NeverOvershoots(Turn(p, ticks[0]), ticks[1..]))
  }

  predicate LastIsMax(p: Progress)
    requires p.cursor.migrationMax.Some?
  {
    var max := p.cursor.migrationMax.value;
    p.chunks != [] && p.chunks[|p.chunks| - 1] == Range(max, max)
  }

  /** The final range has been handed out, and another one after it. */
  ghost predicate Overshot(p: Progress) {
    && p.cursor.migrationMax.Some? && p.cursor.iterationMin.Some? && p.cursor.finalChunkReturned
    && Leq(p.cursor.migrationMax.value, p.cursor.iterationMin.value)
    && p.chunks != [] && !LastIsMax(p)
  }

  predicate Chunky(ticks: seq<Tick>) {
    forall t | t in ticks :: t.Look? ==> t.chunkSize >= 1
  }

  /** Once past the maximum, every later range starts above it or ends above it. */
  lemma OvershotStays(p: Progress, t: Tick)
    requires Overshot(p) && (t.Look? ==> t.chunkSize >= 1)
    ensures Overshot(Turn(p, t))
  {
    if p.status.Running? && t.Look? {
      var max, at := p.cursor.migrationMax.value, p.cursor.iterationMin.value;
      BoundaryFacts(t.keys, at, t.chunkSize);
      var next := Boundary(t.keys, at, t.chunkSize);
      if next.Some? {
        LeqTransitive(max, at, next.value);
        Trichotomy(max, at);
        Trichotomy(at, next.value);
      }
    }
  }

  lemma {:induction false} OvershotEnds(p: Progress, ticks: seq<Tick>)
    requires Overshot(p) && Chunky(ticks)
    ensures Overshot(Turns(p, ticks))
    decreases |ticks|
  {
    if ticks != [] {
      OvershotStays(p, ticks[0]);
      OvershotEnds(Turn(p, ticks[0]), ticks[1..]);
    }
  }

  lemma {:induction false} EndedNeverOvershoots(p: Progress, ticks: seq<Tick>)
    requires p.cursor.migrationMax.Some? && !p.status.Running?
    ensures NeverOvershoots(p, ticks)
    decreases |ticks|
  {
    if ticks != [] {
      EndedNeverOvershoots(p, ticks[1..]);
    }
  }

  /** At the end, a look ends the loop, or passes the maximum. */
  lemma EndTurn(p: Progress, t: Tick)
    requires p.cursor.migrationMax.Some? && AtEnd(p) && LastIsMax(p) && (t.Look? ==> t.chunkSize >= 1)
    ensures var q := Turn(p, t);
      if !NoOvershoot(p, t) then Overshot(q)
      else if t.Throttled? then q == p
      else q.chunks == p.chunks && q.cursor.migrationMax == p.cursor.migrationMax && !q.status.Running?
  {
    if t.Look? {
      BoundaryFacts(t.keys, p.cursor.iterationMin.value, t.chunkSize);
      var next := Boundary(t.keys, p.cursor.iterationMin.value, t.chunkSize);
      if next.Some? {
        Trichotomy(p.cursor.iterationMin.value, next.value);
      }
    }
  }

  lemma {:induction false} LastFromEnd(p: Progress, ticks: seq<Tick>)
    requires p.cursor.migrationMax.Some? && AtEnd(p) && LastIsMax(p) && Chunky(ticks)
    ensures Turns(p, ticks).cursor.migrationMax == p.cursor.migrationMax
    ensures LastIsMax(Turns(p, ticks)) <==> NeverOvershoots(p, ticks)
    decreases |ticks|
  {
    if ticks != [] {
      var t, q := ticks[0], Turn(p, ticks[0]);
      assert t in ticks;
      TurnKeepsMax(p, t);
      EndTurn(p, t);
      if !NoOvershoot(p, t) {
        OvershotEnds(q, ticks[1..]);
        TurnsKeepMax(q, ticks[1..]);
      } else if t.Throttled? {
        LastFromEnd(p, ticks[1..]);
      } else {
        EndedTurns(q, ticks[1..]);
        EndedNeverOvershoots(q, ticks[1..]);
      }
    }
  }

  lemma {:induction false} TurnsKeepMax(p: Progress, ticks: seq<Tick>)
    ensures Turns(p, ticks).cursor.migrationMax == p.cursor.migrationMax
    decreases |ticks|
  {
    if ticks != [] {
      TurnKeepsMax(p, ticks[0]);
      TurnsKeepMax(Turn(p, ticks[0]), ticks[1..]);
    }
  }

  /** Before the final range the loop does not complete; the final range leaves it at the end. */
  lemma TurnBeforeEnd(p: Progress, t: Tick)
    requires p.status.Running? && p.cursor.migrationMax.Some? && p.cursor.iterationMin.Some?
    requires !p.cursor.finalChunkReturned
    ensures var q := Turn(p, t);
      && !q.status.Complete? && q.cursor.iterationMin.Some? && q.cursor.migrationMax == p.cursor.migrationMax
      && (q.cursor.finalChunkReturned ==> AtEnd(q) && LastIsMax(q))
  {
  }

  /** For every schedule: a completed loop has handed out [Max, Max] last exactly when no look at the
      table after that range found more than a chunk of rows at or above the maximum. */
  lemma {:induction false} LastRangeIff(p: Progress, ticks: seq<Tick>)
    requires p.status.Running? && p.cursor.migrationMax.Some? && p.cursor.iterationMin.Some?
    requires !p.cursor.finalChunkReturned && Chunky(ticks) && Turns(p, ticks).status.Complete?
    ensures Turns(p, ticks).cursor.migrationMax == p.cursor.migrationMax
    ensures LastIsMax(Turns(p, ticks)) <==> NeverOvershoots(p, ticks)
    decreases |ticks|
  {
    var t, q := ticks[0], Turn(p, ticks[0]);
    TurnBeforeEnd(p, t);
    TurnKeepsMax(p, t);
    if !q.status.Running? {
      EndedTurns(q, ticks[1..]);
    } else if q.cursor.finalChunkReturned {
      LastFromEnd(q, ticks[1..]);
    } else {
      LastRangeIff(q, ticks[1..]);
    }
  }

  /** The range from the recorded maximum to itself need not be handed out last: rows that come and
      go above the maximum make the loop pass it once more. */
  lemma LastRangeNeedNotBeFinal() returns (start: Cursor, ticks: seq<Tick>)
    ensures Chained(start, []) && !start.finalChunkReturned
    ensures var end := Turns(Progress(start, [], Running), ticks);
      && end.status.Complete?
      && end.chunks != []
      && end.chunks[|end.chunks| - 1] != Range(start.migrationMax.value, start.migrationMax.value)
  {
    var a: Key, b: Key := [Num(0)], [Num(1)];
    start := Cursor(Some(a), Some(a), Some(a), None, false);
    assert DecidedAt(a, b, 0);
    Trichotomy(a, b);
    var one, two := Look({a}, 1), Look({a, b}, 1);
    ticks := [one, two, two, one];
    SortedUnique([a], AtOrAbove({a}, a)) by { assert AtOrAbove({a}, a) == {a}; }
    SortedUnique([a, b], AtOrAbove({a, b}, a)) by { assert AtOrAbove({a, b}, a) == {a, b}; }
    SortedUnique([b], AtOrAbove({a, b}, b)) by { assert AtOrAbove({a, b}, b) == {b}; }
    var p0 := Progress(start, [], Running);
    var p1 := Turn(p0, one);
    assert p1.chunks == [Range(a, a)] && p1.cursor.finalChunkReturned;
    var p2 := Turn(p1, two);
    assert p2.chunks == [Range(a, a), Range(a, b)];
    var p3 := Turn(p2, two);
    assert p3.chunks == [Range(a, a), Range(a, b), Range(b, a)];
    var p4 := Turn(p3, one);
    assert p4.status.Complete? && p4.chunks == p3.chunks;
    assert ticks[1..] == [two, two, one] && [two, two, one][1..] == [two, one] && [two, one][1..] == [one];
    assert Turns(p3, [one]) == p4;
    assert Turns(p2, [two, one]) == p4;
    assert Turns(p1, [two, two, one]) == p4;
  }
}
