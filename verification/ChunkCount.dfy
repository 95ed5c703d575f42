/** How many chunks an unchanging table takes, and which rows they copy. */
module ChunkCount {
  import opened Values
  import opened Selection
  import opened Chunks

  /** How many chunks of size c it takes to pass x rows. */
  ghost function Steps(x: nat, c: nat): nat
    requires c >= 1
  {
    if x == 0 then 0 else if x <= c then 1 else 1 + Steps(x - c, c)
  }

  ghost predicate Divides(c: nat, x: nat)
    requires c >= 1
  {
    x == 0 || (c <= x && Divides(c, x - c))
  }

  /** x / c rounded up. */
  function CeilDiv(x: nat, c: nat): nat
    requires c >= 1
  {
    (x + c - 1) / c
  }

  lemma {:induction false} StepsIsCeilDiv(x: nat, c: nat)
    requires c >= 1
    ensures Steps(x, c) == CeilDiv(x, c)
  {
    if x == 0 {
      DivUnique(c - 1, c, 0, c - 1);
    } else if x <= c {
      DivUnique(x + c - 1, c, 1, x - 1);
    } else {
      StepsIsCeilDiv(x - c, c);
      var q := (x - 1) / c;
      assert c * (q + 1) == c * q + c;
      DivUnique(x + c - 1, c, q + 1, (x - 1) % c);
    }
  }

  lemma {:induction false} DividesIsMod(c: nat, x: nat)
    requires c >= 1
    ensures Divides(c, x) <==> x % c == 0
  {
    if x < c {
      DivUnique(x, c, 0, x);
    } else {
      DividesIsMod(c, x - c);
      var q := (x - c) / c;
      assert c * (q + 1) == c * q + c;
      DivUnique(x, c, q + 1, (x - c) % c);
    }
  }

  lemma MulMonotone(c: nat, a: nat, b: nat)
    requires a <= b
    ensures c * a <= c * b
  {
    assert c * b == c * a + c * (b - a);
  }

  lemma DivUnique(x: nat, c: nat, q: nat, r: nat)
    requires c >= 1 && r < c && x == c * q + r
    ensures x / c == q && x % c == r
  {
    var q', r' := x / c, x % c;
    assert x == c * q' + r' && r' < c;
    assert c * (q' + 1) == c * q' + c && c * (q + 1) == c * q + c;
    if q' < q {
      MulMonotone(c, q' + 1, q);
    } else if q < q' {
      MulMonotone(c, q + 1, q');
    }
  }

  /** The rows that the copies of the ranges take, in order. */
  function Copied(keys: set<Key>, chunks: seq<Range>, chunkSize: nat): seq<Key> {
    if chunks == [] then []
    else CopyKeys(keys, chunks[0].lo, chunks[0].hi, chunkSize) + Copied(keys, chunks[1..], chunkSize)
  }

  lemma {:induction false} CopiedAppend(keys: set<Key>, a: seq<Range>, b: seq<Range>, chunkSize: nat)
    ensures Copied(keys, a + b, chunkSize) == Copied(keys, a, chunkSize) + Copied(keys, b, chunkSize)
  {
    if a == [] {
      assert a + b == b;
    } else {
      assert (a + b)[1..] == a[1..] + b;
      CopiedAppend(keys, a[1..], b, chunkSize);
    }
  }

  lemma BoundaryAt(keys: set<Key>, i: nat, c: nat)
    requires i < |keys|
    ensures |Sorted(keys)| == |keys|
    ensures Boundary(keys, Sorted(keys)[i], c) == if i + c < |keys| then Some(Sorted(keys)[i + c]) else None
  {
    Rank(keys, i);
  }

  /** The copy from the i-th to the j-th key takes the keys between them, up to its limit. */
  lemma CopyAt(keys: set<Key>, i: nat, j: nat, limit: nat)
    requires i <= j < |keys|
    ensures |Sorted(keys)| == |keys|
    ensures var q := Sorted(keys);
      CopyKeys(keys, q[i], q[j], limit) == if limit < j + 1 - i then q[i..i + limit] else q[i..j + 1]
  {
    var q := Sorted(keys);
    SortedEnumerates(keys);
    EndsAt(keys, q, i, j);
    ClosedSlice(keys, q, q[i], q[j], i, j);
    SortedUnique(q[i..j + 1], Closed(keys, q[i], q[j]));
    SliceOfSlice(q, i, j + 1, limit);
  }

  lemma EndsAt(keys: set<Key>, q: seq<Key>, i: nat, j: nat)
    requires Enumerates(q, keys) && i <= j < |q|
    ensures IsLeast(Closed(keys, q[i], q[j]), q[i]) && IsGreatest(Closed(keys, q[i], q[j]), q[j])
  {
    IndexOrder(q, i, j);
    assert q[i] in q && q[j] in q;
  }

  /** The loop stands at the i-th key and has not handed out the final range. */
  ghost predicate StandsAt(p: Progress, keys: set<Key>, i: nat)
    requires i < |keys| == |Sorted(keys)|
  {
    && p.status.Running? && !p.cursor.finalChunkReturned
    && p.cursor.iterationMin == Some(Sorted(keys)[i])
    && p.cursor.migrationMax == Some(Sorted(keys)[|keys| - 1])
  }

  /** Two different positions hold different keys. */
  lemma StandsApart(keys: set<Key>, i: nat, j: nat)
    requires i < j < |keys| == |Sorted(keys)|
    ensures Sorted(keys)[i] != Sorted(keys)[j]
  {
    SortedEnumerates(keys);
    IndexOrder(Sorted(keys), i, j);
    Trichotomy(Sorted(keys)[i], Sorted(keys)[j]);
  }

  /** The next boundary below the last key is a chunk further, or the last key when fewer are left. */
  lemma CalculateBelowLast(cur: Cursor, keys: set<Key>, i: nat, j: nat, c: nat)
    requires c >= 1 && i < |keys| - 1 && |Sorted(keys)| == |keys|
    requires cur.iterationMin == Some(Sorted(keys)[i]) && cur.migrationMax == Some(Sorted(keys)[|keys| - 1])
    requires j == if i + c < |keys| then i + c else |keys| - 1
    ensures Calculate(cur, keys, c) == (cur.(iterationMax := Some(Sorted(keys)[j])), true)
  {
    BoundaryAt(keys, i, c);
    StandsApart(keys, i, |keys| - 1);
  }

  /** A turn below the last key hands out the range up to that boundary. */
  lemma TurnBelowLast(p: Progress, keys: set<Key>, i: nat, j: nat, c: nat)
    requires c >= 1 && i < |keys| - 1 && |Sorted(keys)| == |keys| && StandsAt(p, keys, i)
    requires j == if i + c < |keys| then i + c else |keys| - 1
    ensures var q, p1 := Sorted(keys), Turn(p, Look(keys, c));
      StandsAt(p1, keys, j) && p1.chunks == p.chunks + [Range(q[i], q[j])]
  {
    CalculateBelowLast(p.cursor, keys, i, j, c);
  }

  /** At the last key, one turn hands out the final range and the next one ends the loop. */
  lemma TurnsAtLast(p: Progress, keys: set<Key>, c: nat)
    requires c >= 1 && keys != {} && |Sorted(keys)| == |keys| && StandsAt(p, keys, |keys| - 1)
    ensures var max, end := Sorted(keys)[|keys| - 1], Turns(p, Again(Look(keys, c), 2));
      end.status.Complete? && end.chunks == p.chunks + [Range(max, max)]
  {
    var t := Look(keys, c);
    BoundaryAt(keys, |keys| - 1, c);
    TurnsAgain(p, t, 1);
    TurnsAgain(Turn(p, t), t, 0);
  }

  /** From the i-th of the sorted keys on: how many further chunks, and the rows they copy. */
  ghost predicate Plan(q: seq<Key>, i: nat, c: nat, count: nat, copied: seq<Key>)
    requires c >= 1 && i < |q|
  {
    var left := |q| - 1 - i;
    && count == Steps(left, c) + 1
    && copied == q[i..] + if Divides(c, left) then [] else [q[|q| - 1]]
  }

  lemma PlanFullChunk(q: seq<Key>, i: nat, c: nat, count: nat, copied: seq<Key>)
    requires c >= 1 && i + c < |q| && Plan(q, i + c, c, count, copied)
    ensures Plan(q, i, c, count + 1, q[i..i + c] + copied)
  {
    assert q[i..] == q[i..i + c] + q[i + c..];
  }

  lemma PlanShortChunk(q: seq<Key>, i: nat, c: nat, count: nat, copied: seq<Key>)
    requires c >= 1 && i < |q| - 1 < i + c && Plan(q, |q| - 1, c, count, copied)
    ensures Plan(q, i, c, count + 1, q[i..|q|] + copied)
  {
    assert q[|q| - 1..] == [q[|q| - 1]] && q[i..|q|] == q[i..];
  }

  lemma CopiedCons(keys: set<Key>, r: Range, rest: seq<Range>, c: nat)
    ensures Copied(keys, [r] + rest, c) == CopyKeys(keys, r.lo, r.hi, c) + Copied(keys, rest, c)
  {
    assert ([r] + rest)[1..] == rest;
  }

  /** The range handed out at the i-th key, and what its copy takes. */
  lemma ChunkAt(keys: set<Key>, q: seq<Key>, i: nat, j: nat, c: nat, rest: seq<Range>)
    requires q == Sorted(keys) && i < |keys| && |q| == |keys| && c >= 1
    requires j == if i + c < |q| then i + c else |q| - 1
    ensures Copied(keys, [Range(q[i], q[j])] + rest, c)
         == (if i + c < |q| then q[i..i + c] else q[i..|q|]) + Copied(keys, rest, c)
  {
    CopyAt(keys, i, j, c);
    CopiedCons(keys, Range(q[i], q[j]), rest, c);
  }

  function NextIndex(n: nat, i: nat, c: nat): (j: nat)
    requires c >= 1 && i < n
    ensures j < n && (i < n - 1 ==> i < j)
  {
    if i + c < n then i + c else n - 1
  }

  /** The ranges handed out from the i-th of the sorted keys on. */
  function Planned(q: seq<Key>, i: nat, c: nat): seq<Range>
    requires c >= 1 && i < |q|
    decreases |q| - i
  {
    var j := NextIndex(|q|, i, c);
    [Range(q[i], q[j])] + if i == |q| - 1 then [] else Planned(q, j, c)
  }

  lemma {:induction false} PlannedCopies(keys: set<Key>, q: seq<Key>, i: nat, c: nat)
    requires c >= 1 && i < |keys| && q == Sorted(keys) && |q| == |keys|
    ensures Plan(q, i, c, |Planned(q, i, c)|, Copied(keys, Planned(q, i, c), c))
    decreases |q| - i
  {
    var j := NextIndex(|q|, i, c);
    if i == |q| - 1 {
      ChunkAt(keys, q, i, j, c, []);
    } else {
      var rest := Planned(q, j, c);
      PlannedCopies(keys, q, j, c);
      ChunkAt(keys, q, i, j, c, rest);
      if i + c < |q| {
        PlanFullChunk(q, i, c, |rest|, Copied(keys, rest, c));
      } else {
        PlanShortChunk(q, i, c, |rest|, Copied(keys, rest, c));
      }
    }
  }

  /** The loop standing at the i-th key hands out the planned ranges and ends. */
  lemma {:induction false} FollowsPlan(p: Progress, keys: set<Key>, q: seq<Key>, i: nat, c: nat) returns (n: nat)
    requires c >= 1 && i < |keys| && q == Sorted(keys) && |q| == |keys| && StandsAt(p, keys, i)
    ensures var end := Turns(p, Again(Look(keys, c), n));
      end.status.Complete? && end.chunks == p.chunks + Planned(q, i, c)
    decreases |q| - i
  {
    if i == |q| - 1 {
      TurnsAtLast(p, keys, c);
      n := 2;
    } else {
      var j := NextIndex(|q|, i, c);
      TurnBelowLast(p, keys, i, j, c);
      var p1 := Turn(p, Look(keys, c));
      var m := FollowsPlan(p1, keys, q, j, c);
      TurnsAgain(p, Look(keys, c), m);
      n := m + 1;
      Regroup(p.chunks, [Range(q[i], q[j])], Planned(q, j, c));
    }
  }

  lemma Regroup(a: seq<Range>, b: seq<Range>, c: seq<Range>)
    ensures (a + b) + c == a + (b + c)
  {
  }

  /** The cursor as ReadMigrationRangeValues leaves it on a table that does not change. */
  function RangeRead(keys: set<Key>): Cursor {
    if keys == {} then NO_CURSOR
    else Cursor(Some(Least(keys)), Some(Greatest(keys)), Some(Least(keys)), None, false)
  }

  /** Exact chunk arithmetic: on an unchanging table of N rows with a constant chunk size, the loop
      hands out ceil((N - 1) / c) + 1 chunks, none for N = 0; they copy the rows in key order, each
      once, except that the greatest row is copied again exactly when c does not divide N - 1. */
  lemma ExactChunks(keys: set<Key>, c: nat) returns (n: nat)
    requires c >= 1
    ensures var end := Turns(Progress(RangeRead(keys), [], Running), Again(Look(keys, c), n));
      && end.status.Complete?
      && |end.chunks| == (if keys == {} then 0 else CeilDiv(|keys| - 1, c) + 1)
      && Copied(keys, end.chunks, c)
         == Sorted(keys) + (if keys == {} || (|keys| - 1) % c == 0 then [] else [Greatest(keys)])
      && forall r :: r in end.chunks ==> r.lo in keys && r.hi in keys
  {
    var p := Progress(RangeRead(keys), [], Running);
    if keys == {} {
      n := 1;
      TurnsAgain(p, Look(keys, c), 0);
    } else {
      n := WholePlan(keys, c);
      PlanCounted(keys, c);
      PlannedInKeys(keys, c);
    }
  }

  lemma WholePlan(keys: set<Key>, c: nat) returns (n: nat)
    requires c >= 1 && keys != {}
    ensures |Sorted(keys)| == |keys|
    ensures var end := Turns(Progress(RangeRead(keys), [], Running), Again(Look(keys, c), n));
      end.status.Complete? && end.chunks == Planned(Sorted(keys), 0, c)
  {
    StandsAtFirst(keys);
    n := FollowsPlan(Progress(RangeRead(keys), [], Running), keys, Sorted(keys), 0, c);
  }

  lemma {:induction false} PlannedFrom(q: seq<Key>, i: nat, c: nat, r: Range)
    requires c >= 1 && i < |q| && r in Planned(q, i, c)
    ensures r.lo in q && r.hi in q
    decreases |q| - i
  {
    var j := NextIndex(|q|, i, c);
    if r != Range(q[i], q[j]) {
      PlannedFrom(q, j, c, r);
    }
  }

  /** Every planned range is between two keys of the table. */
  lemma PlannedInKeys(keys: set<Key>, c: nat)
    requires c >= 1 && keys != {} && |Sorted(keys)| == |keys|
    ensures forall r :: r in Planned(Sorted(keys), 0, c) ==> r.lo in keys && r.hi in keys
  {
    SortedEnumerates(keys);
    forall r | r in Planned(Sorted(keys), 0, c)
      ensures r.lo in keys && r.hi in keys
    {
      PlannedFrom(Sorted(keys), 0, c, r);
    }
  }

  lemma PlanCounted(keys: set<Key>, c: nat)
    requires c >= 1 && keys != {} && |Sorted(keys)| == |keys|
    ensures |Planned(Sorted(keys), 0, c)| == CeilDiv(|keys| - 1, c) + 1
    ensures Copied(keys, Planned(Sorted(keys), 0, c), c)
         == Sorted(keys) + if (|keys| - 1) % c == 0 then [] else [Greatest(keys)]
  {
    StandsAtFirst(keys);
    PlannedCopies(keys, Sorted(keys), 0, c);
    StepsIsCeilDiv(|keys| - 1, c);
    DividesIsMod(c, |keys| - 1);
    assert Sorted(keys)[0..] == Sorted(keys);
  }

  lemma StandsAtFirst(keys: set<Key>)
    requires keys != {}
    ensures |Sorted(keys)| == |keys|
    ensures StandsAt(Progress(RangeRead(keys), [], Running), keys, 0)
    ensures Sorted(keys)[|keys| - 1] == Greatest(keys)
  {
    SortedEnumerates(keys);
    EndsOfListing(Sorted(keys), keys);
    LeastUnique(keys);
    GreatestUnique(keys);
  }
}
