/** What the row-selecting queries return, on the set of keys of a table. */
module Selection {
  import opened Values

  function AtOrAbove(s: set<Key>, lo: Key): set<Key> {
    set k | k in s && Leq(lo, k)
  }

  /** The half-open interval [lo, hi). */
  function HalfOpen(s: set<Key>, lo: Key, hi: Key): set<Key> {
    set k | k in s && Leq(lo, k) && Less(k, hi)
  }

  /** The closed interval [lo, hi], which is what the copy's WHERE clause selects. */
  function Closed(s: set<Key>, lo: Key, hi: Key): set<Key> {
    set k | k in s && Leq(lo, k) && Leq(k, hi)
  }

  ghost predicate IsLeast(s: set<Key>, m: Key) {
    m in s && forall k :: k in s ==> Leq(m, k)
  }

  ghost predicate IsGreatest(s: set<Key>, m: Key) {
    m in s && forall k :: k in s ==> Leq(k, m)
  }

  lemma {:induction false} HasLeast(s: set<Key>)
    requires s != {}
    ensures exists m :: IsLeast(s, m)
  {
    var x :| x in s;
    if s == {x} {
      assert IsLeast(s, x);
    } else {
      HasLeast(s - {x});
      var rest :| IsLeast(s - {x}, rest);
      var m := if Less(x, rest) then x else rest;
      Trichotomy(x, rest);
      forall k | k in s
        ensures Leq(m, k)
      {
        if Less(x, rest) && k != x {
          assert Leq(rest, k);
          LeqTransitive(x, rest, k);
        }
      }
      assert IsLeast(s, m);
    }
  }

  lemma Antisymmetric(s: set<Key>)
    ensures forall a, b :: a in s && b in s && Leq(a, b) && Leq(b, a) ==> a == b
  {
    forall a, b | a in s && b in s && Leq(a, b) && Leq(b, a)
      ensures a == b
    {
      Trichotomy(a, b);
    }
  }

  lemma LeastUnique(s: set<Key>)
    ensures forall m, m' :: IsLeast(s, m) && IsLeast(s, m') ==> m == m'
  {
    forall m, m' | IsLeast(s, m) && IsLeast(s, m')
      ensures m == m'
    {
      Trichotomy(m, m');
    }
  }

  /** SELECT key ORDER BY key LIMIT 1. */
  function Least(s: set<Key>): (m: Key)
    requires s != {}
    ensures IsLeast(s, m)
  {
    HasLeast(s);
    Antisymmetric(s);
    var m :| m in s && forall k | k in s :: Leq(m, k);
    m
  }

  lemma {:induction false} HasGreatest(s: set<Key>)
    requires s != {}
    ensures exists m :: IsGreatest(s, m)
  {
    var x :| x in s;
    if s == {x} {
      assert IsGreatest(s, x);
    } else {
      HasGreatest(s - {x});
      var rest :| IsGreatest(s - {x}, rest);
      var m := if Less(rest, x) then x else rest;
      Trichotomy(x, rest);
      forall k | k in s
        ensures Leq(k, m)
      {
        if Less(rest, x) && k != x {
          assert Leq(k, rest);
          LeqTransitive(k, rest, x);
        }
      }
      assert IsGreatest(s, m);
    }
  }

  lemma GreatestUnique(s: set<Key>)
    ensures forall m, m' :: IsGreatest(s, m) && IsGreatest(s, m') ==> m == m'
  {
    forall m, m' | IsGreatest(s, m) && IsGreatest(s, m')
      ensures m == m'
    {
      Trichotomy(m, m');
    }
  }

  /** SELECT key ORDER BY each key column DESC LIMIT 1. */
  function Greatest(s: set<Key>): (m: Key)
    requires s != {}
    ensures IsGreatest(s, m)
  {
    HasGreatest(s);
    Antisymmetric(s);
    var m :| m in s && forall k | k in s :: Leq(k, m);
    m
  }

  /** ORDER BY key. */
  function Sorted(s: set<Key>): (q: seq<Key>)
    decreases |s|
  {
    if s == {} then []
    else
      var m := Least(s);
      [m] + Sorted(s - {m})
  }

  ghost predicate Increasing(q: seq<Key>) {
    forall i, j :: 0 <= i < j < |q| ==> Less(q[i], q[j])
  }

  ghost predicate Enumerates(q: seq<Key>, s: set<Key>) {
    Increasing(q) && forall k :: k in q <==> k in s
  }

  lemma IncreasingCons(m: Key, rest: seq<Key>)
    requires Increasing(rest) && forall k :: k in rest ==> Less(m, k)
    ensures Increasing([m] + rest)
  {
    var q := [m] + rest;
    forall i, j | 0 <= i < j < |q|
      ensures Less(q[i], q[j])
    {
      assert q[j] == rest[j - 1] && rest[j - 1] in rest;
      if i > 0 {
        assert q[i] == rest[i - 1];
      }
    }
  }

  lemma {:induction false} SortedEnumerates(s: set<Key>)
    ensures Enumerates(Sorted(s), s)
    ensures |Sorted(s)| == |s|
    decreases |s|
  {
    if s != {} {
      var m := Least(s);
      SortedEnumerates(s - {m});
      IncreasingCons(m, Sorted(s - {m}));
    }
  }

  lemma {:induction false} SortedUnique(q: seq<Key>, s: set<Key>)
    requires Enumerates(q, s)
    ensures q == Sorted(s)
    decreases |q|
  {
    if q == [] {
      assert s == {};
    } else {
      assert q[0] in s;
      var m := Least(s);
      assert m in q;
      var i :| 0 <= i < |q| && q[i] == m;
      Trichotomy(q[0], m);
      assert i == 0;
      var rest := q[1..];
      forall k
        ensures k in rest <==> k in s - {m}
      {
        if k in s - {m} {
          assert k in q;
        }
        if k in rest {
          var j :| 0 <= j < |rest| && rest[j] == k;
          assert Less(q[0], q[j + 1]);
          Trichotomy(q[0], q[j + 1]);
          assert q[j + 1] in q;
        }
      }
      SortedUnique(rest, s - {m});
    }
  }

  lemma IndexOrder(q: seq<Key>, i: nat, j: nat)
    requires Increasing(q) && i < |q| && j < |q|
    ensures Less(q[i], q[j]) <==> i < j
    ensures Leq(q[i], q[j]) <==> i <= j
  {
    Trichotomy(q[i], q[j]);
  }

  /** In a listing, the keys at or above the i-th are those from i on, the keys below it the first i. */
  lemma SplitAt(s: set<Key>, q: seq<Key>, i: nat)
    requires Enumerates(q, s) && i < |q|
    ensures Enumerates(q[i..], AtOrAbove(s, q[i]))
    ensures Enumerates(q[..i], set k | k in s && Less(k, q[i]))
  {
    forall k
      ensures k in q[i..] <==> k in AtOrAbove(s, q[i])
      ensures k in q[..i] <==> k in s && Less(k, q[i])
    {
      if k in s {
        var j :| 0 <= j < |q| && q[j] == k;
        IndexOrder(q, i, j);
        IndexOrder(q, j, i);
        PositionIn(q, i, j);
      } else {
        assert k !in q;
      }
    }
  }

  lemma PositionIn(q: seq<Key>, i: nat, j: nat)
    requires Increasing(q) && i <= |q| && j < |q|
    ensures q[j] in q[i..] <==> i <= j
    ensures q[j] in q[..i] <==> j < i
  {
    forall l | 0 <= l < |q|
      ensures q[l] == q[j] ==> l == j
    {
      IndexOrder(q, l, j);
      IndexOrder(q, j, l);
      Trichotomy(q[l], q[j]);
    }
    if i <= j {
      assert q[i..][j - i] == q[j];
    } else {
      assert q[..i][j] == q[j];
    }
  }

  /** The same, counted. */
  lemma Rank(s: set<Key>, i: nat)
    requires i < |s|
    ensures |Sorted(s)| == |s|
    ensures var q := Sorted(s);
      && Sorted(AtOrAbove(s, q[i])) == q[i..]
      && |AtOrAbove(s, q[i])| == |s| - i
      && Enumerates(q[..i], set k | k in s && Less(k, q[i]))
      && |set k | k in s && Less(k, q[i])| == i
  {
    var q := Sorted(s);
    SortedEnumerates(s);
    SplitAt(s, q, i);
    SortedUnique(q[i..], AtOrAbove(s, q[i]));
    SortedEnumerates(AtOrAbove(s, q[i]));
    var low := set k | k in s && Less(k, q[i]);
    SortedUnique(q[..i], low);
    SortedEnumerates(low);
  }

  /** SELECT key WHERE key >= lo ORDER BY key OFFSET c LIMIT 1. */
  function Boundary(s: set<Key>, lo: Key, c: nat): (r: Option<Key>) {
    var q := Sorted(AtOrAbove(s, lo));
    if c < |q| then Some(q[c]) else None
  }

  /** The boundary is the key with exactly c keys of [lo, boundary) before it; there is none
      exactly when at most c keys are at or above lo. */
  lemma BoundaryFacts(s: set<Key>, lo: Key, c: nat)
    ensures Boundary(s, lo, c).None? <==> |AtOrAbove(s, lo)| <= c
    ensures Boundary(s, lo, c).Some? ==>
              var hi := Boundary(s, lo, c).value;
              && hi in s && Leq(lo, hi)
              && |HalfOpen(s, lo, hi)| == c
              && |AtOrAbove(s, hi)| == |AtOrAbove(s, lo)| - c
    ensures c >= 1 && Boundary(s, lo, c).Some? ==> Less(lo, Boundary(s, lo, c).value)
  {
    var up := AtOrAbove(s, lo);
    SortedEnumerates(up);
    if c < |up| {
      Rank(up, c);
      var q := Sorted(up);
      var hi := q[c];
      assert hi in q;
      assert HalfOpen(s, lo, hi) == set k | k in up && Less(k, hi);
      forall k | k in AtOrAbove(s, hi)
        ensures k in up
      {
        LeqTransitive(lo, hi, k);
      }
      assert AtOrAbove(s, hi) == AtOrAbove(up, hi);
      if c >= 1 {
        assert q[0] in q;
        LeqTransitive(lo, q[0], hi);
      }
    }
  }

  /** SELECT key WHERE key >= lo AND key <= hi ORDER BY key LIMIT limit. */
  function CopyKeys(s: set<Key>, lo: Key, hi: Key, limit: nat): (q: seq<Key>) {
    var all := Sorted(Closed(s, lo, hi));
    if limit < |all| then all[..limit] else all
  }

  lemma CopyKeysSound(s: set<Key>, lo: Key, hi: Key, limit: nat, k: Key)
    requires k in CopyKeys(s, lo, hi, limit)
    ensures k in s && Leq(lo, k) && Leq(k, hi)
  {
    SortedEnumerates(Closed(s, lo, hi));
    assert k in Sorted(Closed(s, lo, hi));
  }

  /** The copy takes every row of [lo, hi) exactly when its LIMIT is at least their number. */
  lemma CopyCoversIff(s: set<Key>, lo: Key, hi: Key, limit: nat)
    ensures (forall k :: k in HalfOpen(s, lo, hi) ==> k in CopyKeys(s, lo, hi, limit))
       <==> |HalfOpen(s, lo, hi)| <= limit
  {
    var closed := Closed(s, lo, hi);
    var half := HalfOpen(s, lo, hi);
    var q := Sorted(closed);
    SortedEnumerates(closed);
    if hi in closed {
      var i :| 0 <= i < |q| && q[i] == hi;
      Rank(closed, i);
      assert half == set k | k in closed && Less(k, hi);
      CopyPrefix(closed, half, i, limit);
    } else {
      assert half == closed;
      assert q[..|q|] == q;
      CopyPrefix(closed, half, |q|, limit);
    }
  }

  /** The first limit keys contain the first n keys exactly when n is at most limit. */
  lemma CopyPrefix(closed: set<Key>, half: set<Key>, n: nat, limit: nat)
    requires n == |half| <= |closed| == |Sorted(closed)|
    requires Increasing(Sorted(closed))
    requires forall k :: k in half <==> k in Sorted(closed)[..n]
    ensures var q := Sorted(closed);
      (forall k :: k in half ==> k in (if limit < |q| then q[..limit] else q)) <==> n <= limit
  {
    var q := Sorted(closed);
    if limit < n {
      assert q[..n][limit] in half;
      PositionIn(q, limit, limit);
    } else {
      forall k | k in half
        ensures k in (if limit < |q| then q[..limit] else q)
      {
        var j :| 0 <= j < n && q[..n][j] == k;
        assert limit < |q| ==> q[..limit][j] == k;
      }
    }
  }

  /** A range with equal ends is copied by any positive limit. */
  lemma CopyPoint(s: set<Key>, k: Key, limit: nat)
    requires k in s && limit >= 1
    ensures CopyKeys(s, k, k, limit) == [k]
  {
    forall x | x in Closed(s, k, k)
      ensures x == k
    {
      Trichotomy(x, k);
    }
    assert Closed(s, k, k) == {k};
    SortedUnique([k], {k});
  }

  /** A listing cut at the least and greatest key of a closed interval lists that interval. */
  lemma ClosedSlice(s: set<Key>, q: seq<Key>, lo: Key, hi: Key, i: nat, j: nat)
    requires Enumerates(q, s) && i <= j < |q|
    requires IsLeast(Closed(s, lo, hi), q[i]) && IsGreatest(Closed(s, lo, hi), q[j])
    ensures Enumerates(q[i..j + 1], Closed(s, lo, hi))
  {
    var slice := q[i..j + 1];
    forall l: nat | l < |q|
      ensures i <= l <= j <==> q[l] in Closed(s, lo, hi)
    {
      assert q[l] in q;
      IndexOrder(q, i, l);
      IndexOrder(q, l, j);
      if i <= l <= j {
        LeqTransitive(lo, q[i], q[l]);
        LeqTransitive(q[l], q[j], hi);
      }
    }
    assert forall l :: 0 <= l < |slice| ==> slice[l] == q[i + l];
    forall k | k in Closed(s, lo, hi)
      ensures k in slice
    {
      assert k in q;
      var l :| 0 <= l < |q| && q[l] == k;
      assert slice[l - i] == k;
    }
  }

  lemma EndsOfListing(q: seq<Key>, s: set<Key>)
    requires Enumerates(q, s) && q != []
    ensures IsLeast(s, q[0]) && IsGreatest(s, q[|q| - 1])
  {
    assert q[0] in q && q[|q| - 1] in q;
    forall k | k in s
      ensures Leq(q[0], k) && Leq(k, q[|q| - 1])
    {
      assert k in q;
    }
  }

  lemma ClosedIsSlice(s: set<Key>, lo: Key, hi: Key, q: seq<Key>) returns (i: nat, j: nat)
    requires Enumerates(q, s)
    ensures i <= j <= |q| && Sorted(Closed(s, lo, hi)) == q[i..j]
  {
    var c := Sorted(Closed(s, lo, hi));
    SortedEnumerates(Closed(s, lo, hi));
    if c == [] {
      return 0, 0;
    }
    EndsOfListing(c, Closed(s, lo, hi));
    assert c[0] in q && c[|c| - 1] in q;
    i :| 0 <= i < |q| && q[i] == c[0];
    var last :| 0 <= last < |q| && q[last] == c[|c| - 1];
    IndexOrder(q, i, last);
    j := last + 1;
    ClosedSlice(s, q, lo, hi, i, last);
    SortedUnique(q[i..j], Closed(s, lo, hi));
  }

  /** Filter, ORDER BY and LIMIT give a contiguous slice of the sorted keys. */
  lemma CopyKeysSlice(s: set<Key>, lo: Key, hi: Key, limit: nat) returns (i: nat, j: nat)
    ensures i <= j <= |Sorted(s)| && CopyKeys(s, lo, hi, limit) == Sorted(s)[i..j]
  {
    var q := Sorted(s);
    assert Enumerates(q, s) by {
      SortedEnumerates(s);
    }
    i, j := ClosedIsSlice(s, lo, hi, q);
    SliceOfSlice(q, i, j, limit);
    j := if limit < j - i then i + limit else j;
  }

  lemma SliceOfSlice(q: seq<Key>, i: nat, j: nat, limit: nat)
    requires i <= j <= |q|
    ensures limit < j - i ==> q[i..j][..limit] == q[i..i + limit]
  {
  }
}
