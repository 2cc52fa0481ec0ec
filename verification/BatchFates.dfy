/** Exactly when the refusals, replays and ingestions of a batch do not depend on the order of its points. */
module BatchFates {
  import opened LocationCache
  import opened BatchOrder

  /** A point that fails its own checks, not those of its delivery. */
  predicate IsInvalid(s: Setting, p: Point) {
    DeliveryCheck(s, p.delivery).None? && PointCheck(s, p).Some?
  }

  /** Under the key that the first point is going to record, the second is refused before it and replayed after it. */
  predicate Clash(s: Setting, t: Tables, x: Point, y: Point) {
    IsKept(s, t, x) && SameKey(s, x, y) && IsInvalid(s, y)
  }

  ghost predicate Mixed(s: Setting, t: Tables, points: seq<Point>) {
    exists x, y | x in points && y in points :: Clash(s, t, x, y)
  }

  // ---- Without such a pair

  /** The keys recorded by the end, as far as these points know. */
  ghost predicate Fits(s: Setting, t: Tables, points: seq<Point>, keys: set<string>) {
    && t.records.Keys <= keys
    && (forall p | p in points && IsKept(s, t, p) && Keyed(s, p) :: p.key.value in keys)
    && (forall p | p in points && IsInvalid(s, p) && Keyed(s, p) && p.key.value in keys :: p.key.value in t.records)
  }

  function Recorded(s: Setting, t: Tables, points: seq<Point>): nat {
    var after := ProcessAll(s, t, points).0.records.Keys;
    |after - t.records.Keys|
  }

  /** Each key the batch records turns one of its points from a replay into an ingestion. */
  function Turned(f: Fate, n: int): int {
    if f.Kept? then n else if f.Replayed? then -n else 0
  }

  ghost predicate AddsOne(t: Tables, now: Tables, after: Tables) {
    exists k :: k !in now.records && k !in t.records && after.records.Keys == now.records.Keys + {k}
  }

  lemma OneKind(s: Setting, t: Tables, points: seq<Point>, keys: set<string>)
    requires points != [] && Fits(s, t, points, keys)
    ensures var n := |points| - 1;
            var now := ProcessAll(s, t, points[..n]).0;
            var (after, outcome) := Process(s, now, points[n]);
            var fate := FateOf(s, keys, points[n]);
            || (Kind(outcome) == fate && after.records.Keys == now.records.Keys)
            || (Kind(outcome) == Kept && fate == Replayed && AddsOne(t, now, after))
  {
    var n := |points| - 1;
    var p, now := points[n], ProcessAll(s, t, points[..n]).0;
    assert p in points;
    if Keyed(s, p) {
      RecordsExact(s, t, points[..n], p.key.value);
      if p.key.value in now.records && p.key.value !in t.records {
        var x :| x in points[..n] && IsKept(s, t, x) && Keyed(s, x) && x.key == p.key;
        assert x in points;
      }
    }
  }

  lemma FitsPrefix(s: Setting, t: Tables, points: seq<Point>, n: nat, keys: set<string>)
    requires n <= |points| && Fits(s, t, points, keys)
    ensures Fits(s, t, points[..n], keys)
  {
  }

  lemma OneMoreKind(s: Setting, t: Tables, points: seq<Point>, keys: set<string>)
    requires points != []
    ensures var n := |points| - 1;
            var (now, outcomes) := ProcessAll(s, t, points[..n]);
            && multiset(Kinds(ProcessAll(s, t, points).1)) == multiset(Kinds(outcomes)) + multiset{Kind(Process(s, now, points[n]).1)}
            && multiset(Fates(s, keys, points)) == multiset(Fates(s, keys, points[..n])) + multiset{FateOf(s, keys, points[n])}
  {
    var n := |points| - 1;
    var (now, outcomes) := ProcessAll(s, t, points[..n]);
    var outcome := Process(s, now, points[n]).1;
    assert Kinds(outcomes + [outcome]) == Kinds(outcomes) + [Kind(outcome)];
    assert Fates(s, keys, points) == Fates(s, keys, points[..n]) + [FateOf(s, keys, points[n])];
  }

  lemma OneMoreKey(t: Tables, now: Tables, after: Tables)
    requires AddsOne(t, now, after)
    ensures |after.records.Keys - t.records.Keys| == |now.records.Keys - t.records.Keys| + 1
  {
    var k :| k !in now.records && k !in t.records && after.records.Keys == now.records.Keys + {k};
    OneMoreElement(t.records.Keys, now.records.Keys, k);
  }

  lemma OneMoreElement<T>(before: set<T>, now: set<T>, x: T)
    requires x !in before && x !in now
    ensures |(now + {x}) - before| == |now - before| + 1
  {
    assert (now + {x}) - before == (now - before) + {x};
  }

  /** The outcomes are the fates under the final keys, but for one ingestion a key. */
  lemma {:induction false} KindsExact(s: Setting, t: Tables, points: seq<Point>, keys: set<string>, f: Fate)
    requires Fits(s, t, points, keys)
    ensures multiset(Kinds(ProcessAll(s, t, points).1))[f] as int
         == multiset(Fates(s, keys, points))[f] as int + Turned(f, Recorded(s, t, points))
    decreases points
  {
    if points != [] {
      var n := |points| - 1;
      FitsPrefix(s, t, points, n, keys);
      KindsExact(s, t, points[..n], keys, f);
      OneKind(s, t, points, keys);
      OneMoreKind(s, t, points, keys);
      var now := ProcessAll(s, t, points[..n]).0;
      var after := Process(s, now, points[n]).0;
      if AddsOne(t, now, after) { OneMoreKey(t, now, after); }
    }
  }

  /** The keys recorded in the end. */
  function FinalKeys(s: Setting, t: Tables, points: seq<Point>): set<string> {
    ProcessAll(s, t, points).0.records.Keys
  }

  lemma FinalFits(s: Setting, t: Tables, points: seq<Point>)
    requires !Mixed(s, t, points)
    ensures Fits(s, t, points, FinalKeys(s, t, points))
  {
    forall key ensures key in FinalKeys(s, t, points) <==> key in t.records || KeyAmong(s, t, points, key) {
      RecordsExact(s, t, points, key);
    }
    forall y | y in points && IsInvalid(s, y) && Keyed(s, y) && y.key.value in FinalKeys(s, t, points)
      ensures y.key.value in t.records
    {
      if KeyAmong(s, t, points, y.key.value) {
        var x :| x in points && IsKept(s, t, x) && Keyed(s, x) && x.key == y.key;
        assert Clash(s, t, x, y);
      }
    }
  }

  lemma FinalKeysAnyOrder(s: Setting, t: Tables, p: seq<Point>, q: seq<Point>)
    requires forall x :: x in p <==> x in q
    ensures FinalKeys(s, t, p) == FinalKeys(s, t, q)
  {
    forall key ensures key in FinalKeys(s, t, p) <==> key in FinalKeys(s, t, q) {
      RecordsExact(s, t, p, key);
      RecordsExact(s, t, q, key);
    }
  }

  lemma SameKinds(s: Setting, t: Tables, p: seq<Point>, q: seq<Point>)
    requires multiset(p) == multiset(q) && !Mixed(s, t, p)
    ensures multiset(Kinds(ProcessAll(s, t, p).1)) == multiset(Kinds(ProcessAll(s, t, q).1))
  {
    SameMembers(p, q);
    FinalKeysAnyOrder(s, t, p, q);
    var keys := FinalKeys(s, t, p);
    assert !Mixed(s, t, q);
    FinalFits(s, t, p);
    FinalFits(s, t, q);
    SameFates(s, keys, p, q);
    forall f ensures multiset(Kinds(ProcessAll(s, t, p).1))[f] == multiset(Kinds(ProcessAll(s, t, q).1))[f] {
      KindsExact(s, t, p, keys, f);
      KindsExact(s, t, q, keys, f);
    }
  }

  // ---- With one

  /** What a batch comes to goes by the recorded keys only, velocity flags aside. */
  lemma {:induction false} OnlyKeysMatter(s: Setting, t: Tables, u: Tables, points: seq<Point>)
    requires t.records.Keys == u.records.Keys
    ensures Kinds(ProcessAll(s, t, points).1) == Kinds(ProcessAll(s, u, points).1)
    ensures FinalKeys(s, t, points) == FinalKeys(s, u, points)
    decreases points
  {
    if points != [] {
      var n := |points| - 1;
      OnlyKeysMatter(s, t, u, points[..n]);
      var (a, b) := (ProcessAll(s, t, points[..n]), ProcessAll(s, u, points[..n]));
      var (x, y) := (Process(s, a.0, points[n]), Process(s, b.0, points[n]));
      assert Kind(x.1) == Kind(y.1) && x.0.records.Keys == y.0.records.Keys;
      assert Kinds(a.1 + [x.1]) == Kinds(a.1) + [Kind(x.1)] && Kinds(b.1 + [y.1]) == Kinds(b.1) + [Kind(y.1)];
    }
  }

  lemma {:induction false} AllConcat(s: Setting, t: Tables, p: seq<Point>, q: seq<Point>)
    ensures var (now, before) := ProcessAll(s, t, p);
            var (after, outcomes) := ProcessAll(s, now, q);
            ProcessAll(s, t, p + q) == (after, before + outcomes)
    decreases q
  {
    if q == [] {
      assert p + q == p && ProcessAll(s, t, p).1 + [] == ProcessAll(s, t, p).1;
    } else {
      var n := |q| - 1;
      AllConcat(s, t, p, q[..n]);
      assert (p + q)[..|p| + n] == p + q[..n] && (p + q)[|p| + n] == q[n] && |p + q| - 1 == |p| + n;
      var (now, before) := ProcessAll(s, t, p);
      var (later, outcomes) := ProcessAll(s, now, q[..n]);
      assert before + outcomes + [Process(s, later, q[n]).1] == before + (outcomes + [Process(s, later, q[n]).1]);
    }
  }

  lemma ClashKinds(s: Setting, t: Tables, x: Point, y: Point)
    requires Clash(s, t, x, y)
    ensures Kinds(ProcessAll(s, t, [x, y]).1) == [Kept, Replayed]
    ensures Kinds(ProcessAll(s, t, [y, x]).1) == [Refused(PointCheck(s, y).value), Kept]
    ensures FinalKeys(s, t, [x, y]) == FinalKeys(s, t, [y, x])
  {
    PairProcessed(s, t, x, y);
    PairProcessed(s, t, y, x);
  }

  lemma KindsConcat(s: Setting, t: Tables, p: seq<Point>, q: seq<Point>)
    ensures multiset(Kinds(ProcessAll(s, t, p + q).1))
         == multiset(Kinds(ProcessAll(s, t, p).1)) + multiset(Kinds(ProcessAll(s, ProcessAll(s, t, p).0, q).1))
  {
    AllConcat(s, t, p, q);
    var before, outcomes := ProcessAll(s, t, p).1, ProcessAll(s, ProcessAll(s, t, p).0, q).1;
    assert Kinds(before + outcomes) == Kinds(before) + Kinds(outcomes);
  }

  lemma ClashFirst(s: Setting, t: Tables, x: Point, y: Point, rest: seq<Point>)
    requires Clash(s, t, x, y)
    ensures multiset(Kinds(ProcessAll(s, t, [x, y] + rest).1)) != multiset(Kinds(ProcessAll(s, t, [y, x] + rest).1))
  {
    ClashKinds(s, t, x, y);
    KindsConcat(s, t, [x, y], rest);
    KindsConcat(s, t, [y, x], rest);
    var now, other := ProcessAll(s, t, [x, y]).0, ProcessAll(s, t, [y, x]).0;
    OnlyKeysMatter(s, now, other, rest);
    var same := multiset(Kinds(ProcessAll(s, now, rest).1));
    assert (multiset([Kept, Replayed]) + same)[Replayed] == 1 + same[Replayed];
    assert (multiset([Refused(PointCheck(s, y).value), Kept]) + same)[Replayed] == same[Replayed];
  }

  lemma TwoFirst(points: seq<Point>, x: Point, y: Point) returns (rest: seq<Point>)
    requires x in points && y in points && x != y
    ensures multiset([x, y] + rest) == multiset(points) == multiset([y, x] + rest)
  {
    var others := MoveFirst(points, x);
    assert y in multiset([x] + others);
    assert y in others;
    rest := MoveFirst(others, y);
    assert [x, y] + rest == [x] + ([y] + rest);
    assert multiset([x, y] + rest) == multiset{x} + multiset([y] + rest);
    assert multiset([x] + others) == multiset{x} + multiset(others);
  }

  /** The refusals, replays and ingestions of a batch are the same for every order of its points if and only if no point
      that fails its own checks has the key of one that is going to be stored. */
  lemma KindsOrderIndependent(s: Setting, t: Tables, p: seq<Point>)
    ensures (forall q | multiset(q) == multiset(p) ::
               multiset(Kinds(ProcessAll(s, t, q).1)) == multiset(Kinds(ProcessAll(s, t, p).1)))
       <==> !Mixed(s, t, p)
  {
    if Mixed(s, t, p) {
      var x, y :| x in p && y in p && Clash(s, t, x, y);
      var rest := TwoFirst(p, x, y);
      ClashFirst(s, t, x, y, rest);
    } else {
      forall q | multiset(q) == multiset(p)
        ensures multiset(Kinds(ProcessAll(s, t, q).1)) == multiset(Kinds(ProcessAll(s, t, p).1))
      {
        SameKinds(s, t, p, q);
      }
    }
  }
}
