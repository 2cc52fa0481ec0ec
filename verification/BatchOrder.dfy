/** Exactly when the cached date after a batch does not depend on the order of its points. */
module BatchOrder {
  import opened Collections
  import opened Wrappers
  import opened LocationCache

  /** The point is stored, unless a point before it in the batch has recorded its key. */
  predicate IsKept(s: Setting, t: Tables, p: Point) {
    FateOf(s, t.records.Keys, p).Kept?
  }

  predicate SameKey(s: Setting, p: Point, q: Point) {
    Keyed(s, p) && Keyed(s, q) && p.key == q.key
  }

  /** No earlier kept point has this one's key: it is the one that is stored. */
  ghost predicate IsStored(s: Setting, t: Tables, points: seq<Point>, i: nat)
    requires i < |points|
  {
    IsKept(s, t, points[i]) && forall j | 0 <= j < i && IsKept(s, t, points[j]) :: !SameKey(s, points[j], points[i])
  }

  ghost predicate KeyAmong(s: Setting, t: Tables, points: seq<Point>, key: string) {
    exists p | p in points && IsKept(s, t, p) && Keyed(s, p) :: p.key == Some(key)
  }

  /** The keys recorded after a batch are those before it and those of its kept points. */
  lemma {:induction false} RecordsExact(s: Setting, t: Tables, points: seq<Point>, key: string)
    ensures key in ProcessAll(s, t, points).0.records <==> key in t.records || KeyAmong(s, t, points, key)
    decreases points
  {
    if points != [] {
      var n := |points| - 1;
      var before, p := points[..n], points[n];
      RecordsExact(s, t, before, key);
      assert points == before + [p];
      var now := ProcessAll(s, t, before).0;
      if Keyed(s, p) && p.key == Some(key) {
        if key in now.records { assert key in Process(s, now, p).0.records; }
      }
      assert KeyAmong(s, t, points, key) <==>
        KeyAmong(s, t, before, key) || (IsKept(s, t, p) && Keyed(s, p) && p.key == Some(key)) by {
        if KeyAmong(s, t, before, key) {
          var x :| x in before && IsKept(s, t, x) && Keyed(s, x) && x.key == Some(key);
          assert x in points;
        }
        assert p in points;
      }
    }
  }

  lemma StoredExactly(s: Setting, t: Tables, points: seq<Point>, n: nat)
    requires n < |points|
    ensures IsStored(s, t, points, n) <==> FateOf(s, ProcessAll(s, t, points[..n]).0.records.Keys, points[n]).Kept?
  {
    var p := points[n];
    if Keyed(s, p) {
      RecordsExact(s, t, points[..n], p.key.value);
      if KeyAmong(s, t, points[..n], p.key.value) {
        var x :| x in points[..n] && IsKept(s, t, x) && Keyed(s, x) && x.key == p.key;
        var j :| 0 <= j < n && points[j] == x;
        assert SameKey(s, points[j], p);
      } else {
        forall j | 0 <= j < n && IsKept(s, t, points[j]) ensures !SameKey(s, points[j], p) { assert points[j] in points[..n]; }
      }
    }
  }

  /** The date is that of the cache before the batch or of a stored point, and none of these is later. */
  ghost predicate LatestStored(s: Setting, t: Tables, points: seq<Point>, time: Option<int>) {
    && (time.None? ==> CachedTime(t.cache).None? && forall i | 0 <= i < |points| :: !IsStored(s, t, points, i))
    && (time.Some? ==>
          && (CachedTime(t.cache) == time || exists i | 0 <= i < |points| :: IsStored(s, t, points, i) && points[i].recordedAt == time)
          && (CachedTime(t.cache).Some? ==> CachedTime(t.cache).value <= time.value)
          && forall i | 0 <= i < |points| && IsStored(s, t, points, i) :: points[i].recordedAt.value <= time.value)
  }

  lemma StoredInPrefix(s: Setting, t: Tables, points: seq<Point>, n: nat, i: nat)
    requires i < n <= |points|
    ensures IsStored(s, t, points[..n], i) <==> IsStored(s, t, points, i)
  {
  }

  /** For every batch, whatever keys its points have. */
  lemma {:induction false} DateExact(s: Setting, t: Tables, points: seq<Point>)
    ensures LatestStored(s, t, points, CachedTime(ProcessAll(s, t, points).0.cache))
    decreases points
  {
    if points != [] {
      var n := |points| - 1;
      DateExact(s, t, points[..n]);
      StoredExactly(s, t, points, n);
      forall i | 0 <= i < n ensures IsStored(s, t, points[..n], i) <==> IsStored(s, t, points, i) {
        StoredInPrefix(s, t, points, n, i);
      }
      LatestGrows(s, t, points);
    }
  }

  lemma LatestGrows(s: Setting, t: Tables, points: seq<Point>)
    requires points != []
    requires var n := |points| - 1;
             var now := ProcessAll(s, t, points[..n]).0;
             && LatestStored(s, t, points[..n], CachedTime(now.cache))
             && (forall i | 0 <= i < n :: IsStored(s, t, points[..n], i) <==> IsStored(s, t, points, i))
             && (IsStored(s, t, points, n) <==> FateOf(s, now.records.Keys, points[n]).Kept?)
    ensures LatestStored(s, t, points, CachedTime(ProcessAll(s, t, points).0.cache))
  {
    var n := |points| - 1;
    var now := ProcessAll(s, t, points[..n]).0;
    var after := Process(s, now, points[n]).0;
    var time := CachedTime(now.cache);
    if time.Some? && CachedTime(t.cache) != time {
      var i :| 0 <= i < n && IsStored(s, t, points[..n], i) && points[..n][i].recordedAt == time;
      assert IsStored(s, t, points, i) && points[i].recordedAt == time;
    }
    if FateOf(s, now.records.Keys, points[n]).Kept? {
      assert CachedTime(after.cache) == if Overwrites(now.cache, PayloadOf(points[n])) then points[n].recordedAt else time;
    } else {
      assert after == now;
    }
  }

  // ---- When the order does not matter

  /** No kept point with this one's key is earlier. */
  ghost predicate EarliestOfKey(s: Setting, t: Tables, points: seq<Point>, x: Point) {
    && x in points && IsKept(s, t, x)
    && forall y | y in points && IsKept(s, t, y) && SameKey(s, y, x) :: x.recordedAt.value <= y.recordedAt.value
  }

  predicate BehindCache(t: Tables, x: Point)
    requires x.recordedAt.Some?
  {
    CachedTime(t.cache).Some? && x.recordedAt.value <= CachedTime(t.cache).value
  }

  ghost predicate BehindEarliest(s: Setting, t: Tables, points: seq<Point>, x: Point)
    requires x.recordedAt.Some?
  {
    exists y | y in points && EarliestOfKey(s, t, points, y) :: x.recordedAt.value <= y.recordedAt.value
  }

  /** Every kept point is no later than the cache before the batch, or than the earliest kept point of some key; a point
      that shares its key with no other is the earliest of its own. */
  ghost predicate Settled(s: Setting, t: Tables, points: seq<Point>) {
    forall x | x in points && IsKept(s, t, x) :: BehindCache(t, x) || BehindEarliest(s, t, points, x)
  }

  /** Of the kept points with one key, the first in the batch is stored. */
  lemma {:induction false} SomeoneStored(s: Setting, t: Tables, points: seq<Point>, k: nat) returns (i: nat)
    requires k < |points| && IsKept(s, t, points[k])
    ensures i <= k && IsStored(s, t, points, i) && (points[i] == points[k] || SameKey(s, points[i], points[k]))
    decreases k
  {
    if IsStored(s, t, points, k) {
      i := k;
    } else {
      var j :| 0 <= j < k && IsKept(s, t, points[j]) && SameKey(s, points[j], points[k]);
      i := SomeoneStored(s, t, points, j);
    }
  }

  /** A date that is no earlier than any stored point's is no earlier than any key's earliest. */
  lemma EarliestBehind(s: Setting, t: Tables, points: seq<Point>, time: Option<int>, y: Point)
    requires LatestStored(s, t, points, time) && y in points && EarliestOfKey(s, t, points, y)
    ensures time.Some? && y.recordedAt.value <= time.value
  {
    var k :| 0 <= k < |points| && points[k] == y;
    var i := SomeoneStored(s, t, points, k);
    assert points[i] in points;
  }

  lemma KeptBehind(s: Setting, t: Tables, points: seq<Point>, time: Option<int>, x: Point)
    requires LatestStored(s, t, points, time) && x in points && IsKept(s, t, x)
    requires BehindCache(t, x) || BehindEarliest(s, t, points, x)
    ensures time.Some? && x.recordedAt.value <= time.value
  {
    if !BehindCache(t, x) {
      var y :| y in points && EarliestOfKey(s, t, points, y) && x.recordedAt.value <= y.recordedAt.value;
      EarliestBehind(s, t, points, time, y);
    }
  }

  /** In a settled batch the latest stored point is the latest kept one. */
  lemma SettledIsNewest(s: Setting, t: Tables, points: seq<Point>, time: Option<int>)
    requires Settled(s, t, points) && LatestStored(s, t, points, time)
    ensures Newest(s, t, points, time)
  {
    forall x | x in points && IsKept(s, t, x) ensures time.Some? && x.recordedAt.value <= time.value {
      KeptBehind(s, t, points, time, x);
    }
    if time.Some? && CachedTime(t.cache) != time {
      var i :| 0 <= i < |points| && IsStored(s, t, points, i) && points[i].recordedAt == time;
      assert points[i] in points;
    }
  }

  lemma SameMembers(p: seq<Point>, q: seq<Point>)
    requires multiset(p) == multiset(q)
    ensures forall x :: x in p <==> x in q
  {
    forall x ensures x in p <==> x in q { assert x in multiset(p) <==> x in multiset(q); }
  }

  lemma BehindAnyOrder(s: Setting, t: Tables, p: seq<Point>, q: seq<Point>, x: Point)
    requires (forall y :: y in p <==> y in q) && x.recordedAt.Some? && BehindEarliest(s, t, p, x)
    ensures BehindEarliest(s, t, q, x)
  {
    var y :| y in p && EarliestOfKey(s, t, p, y) && x.recordedAt.value <= y.recordedAt.value;
    assert y in q && EarliestOfKey(s, t, q, y);
  }

  lemma SettledAnyOrder(s: Setting, t: Tables, p: seq<Point>, q: seq<Point>)
    requires (forall y :: y in p <==> y in q) && Settled(s, t, p)
    ensures Settled(s, t, q)
  {
    forall x | x in q && IsKept(s, t, x) ensures BehindCache(t, x) || BehindEarliest(s, t, q, x) {
      assert x in p;
      if !BehindCache(t, x) { BehindAnyOrder(s, t, p, q, x); }
    }
  }

  // ---- When it does

  function DateOf(p: Point): int {
    if p.recordedAt.Some? then p.recordedAt.value else 0
  }

  ghost predicate InDateOrder(points: seq<Point>) {
    forall i, j | 0 <= i < j < |points| :: DateOf(points[i]) <= DateOf(points[j])
  }

  lemma AppendInOrder(points: seq<Point>, x: Point)
    requires InDateOrder(points) && forall y | y in points :: DateOf(y) <= DateOf(x)
    ensures InDateOrder(points + [x])
  {
  }

  lemma LastIsLatest(points: seq<Point>)
    requires InDateOrder(points) && points != []
    ensures forall y | y in points :: DateOf(y) <= DateOf(points[|points| - 1])
  {
    forall y | y in points ensures DateOf(y) <= DateOf(points[|points| - 1]) {
      var i :| 0 <= i < |points| && points[i] == y;
    }
  }

  lemma {:induction false} PutInOrder(points: seq<Point>, x: Point) returns (q: seq<Point>)
    requires InDateOrder(points)
    ensures InDateOrder(q) && multiset(q) == multiset(points) + multiset{x}
    decreases points
  {
    if points == [] {
      q := [x];
    } else {
      var n := |points| - 1;
      var last := points[n];
      assert points == points[..n] + [last];
      LastIsLatest(points);
      if DateOf(last) <= DateOf(x) {
        q := points + [x];
        AppendInOrder(points, x);
      } else {
        var front := PutInOrder(points[..n], x);
        q := front + [last];
        forall y | y in front ensures DateOf(y) <= DateOf(last) {
          assert y in multiset(front);
          assert y == x || y in points[..n];
        }
        AppendInOrder(front, last);
      }
    }
  }

  lemma {:induction false} DateOrder(points: seq<Point>) returns (q: seq<Point>)
    ensures InDateOrder(q) && multiset(q) == multiset(points)
    decreases points
  {
    if points == [] {
      q := [];
    } else {
      var rest := DateOrder(points[1..]);
      q := PutInOrder(rest, points[0]);
      assert points == [points[0]] + points[1..];
    }
  }

  /** In date order the stored point of a key is its earliest. */
  lemma StoredIsEarliest(s: Setting, t: Tables, points: seq<Point>, i: nat)
    requires InDateOrder(points) && i < |points| && IsStored(s, t, points, i)
    ensures EarliestOfKey(s, t, points, points[i])
  {
    forall y | y in points && IsKept(s, t, y) && SameKey(s, y, points[i])
      ensures points[i].recordedAt.value <= y.recordedAt.value
    {
      var j :| 0 <= j < |points| && points[j] == y;
      assert j >= i;
      assert DateOf(points[i]) <= DateOf(points[j]);
    }
  }

  /** Put first, a kept point bounds the date from below. */
  lemma FirstDecides(s: Setting, t: Tables, x: Point, rest: seq<Point>)
    requires IsKept(s, t, x)
    ensures var time := CachedTime(ProcessAll(s, t, [x] + rest).0.cache);
            time.Some? && time.value >= x.recordedAt.value
  {
    DateExact(s, t, [x] + rest);
    assert IsStored(s, t, [x] + rest, 0);
  }

  /** In date order the date stays below a point that is behind neither the cache nor any key's earliest. */
  lemma BelowInDateOrder(s: Setting, t: Tables, dates: seq<Point>, x: Point)
    requires InDateOrder(dates) && x.recordedAt.Some? && !BehindCache(t, x) && !BehindEarliest(s, t, dates, x)
    ensures var time := CachedTime(ProcessAll(s, t, dates).0.cache);
            time.Some? ==> time.value < x.recordedAt.value
  {
    DateExact(s, t, dates);
    var time := CachedTime(ProcessAll(s, t, dates).0.cache);
    if time.Some? && CachedTime(t.cache) != time {
      var i :| 0 <= i < |dates| && IsStored(s, t, dates, i) && dates[i].recordedAt == time;
      StoredIsEarliest(s, t, dates, i);
      assert dates[i] in dates;
    }
  }

  lemma MoveFirst(points: seq<Point>, x: Point) returns (rest: seq<Point>)
    requires x in points
    ensures multiset([x] + rest) == multiset(points)
  {
    var k :| 0 <= k < |points| && points[k] == x;
    RemovedElements(points, k);
    rest := points[..k] + points[k + 1..];
  }

  /** A kept point that breaks the condition decides the date when it comes first, and does not in date order. */
  lemma UnsettledOrders(s: Setting, t: Tables, points: seq<Point>) returns (first: seq<Point>, dates: seq<Point>)
    requires !Settled(s, t, points)
    ensures multiset(first) == multiset(points) == multiset(dates)
    ensures CachedTime(ProcessAll(s, t, first).0.cache) != CachedTime(ProcessAll(s, t, dates).0.cache)
  {
    var x :| x in points && IsKept(s, t, x) && !BehindCache(t, x) && !BehindEarliest(s, t, points, x);
    var rest := MoveFirst(points, x);
    first := [x] + rest;
    FirstDecides(s, t, x, rest);
    dates := DateOrder(points);
    SameMembers(points, dates);
    if BehindEarliest(s, t, dates, x) { BehindAnyOrder(s, t, dates, points, x); }
    BelowInDateOrder(s, t, dates, x);
  }

  /** The cached date after a batch is the same for every order of its points if and only if the batch is settled. */
  lemma DateOrderIndependent(s: Setting, t: Tables, p: seq<Point>)
    ensures (forall q | multiset(q) == multiset(p) ::
               CachedTime(ProcessAll(s, t, q).0.cache) == CachedTime(ProcessAll(s, t, p).0.cache))
       <==> Settled(s, t, p)
  {
    if Settled(s, t, p) {
      DateExact(s, t, p);
      SettledIsNewest(s, t, p, CachedTime(ProcessAll(s, t, p).0.cache));
      forall q | multiset(q) == multiset(p)
        ensures CachedTime(ProcessAll(s, t, q).0.cache) == CachedTime(ProcessAll(s, t, p).0.cache)
      {
        SameMembers(p, q);
        SettledAnyOrder(s, t, p, q);
        DateExact(s, t, q);
        SettledIsNewest(s, t, q, CachedTime(ProcessAll(s, t, q).0.cache));
        NewestUnique(s, t, p, q, CachedTime(ProcessAll(s, t, p).0.cache), CachedTime(ProcessAll(s, t, q).0.cache));
      }
    } else {
      var first, dates := UnsettledOrders(s, t, p);
    }
  }
}
