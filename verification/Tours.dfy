/** Visiting orders over waypoint indices, their cost, and the solution record both solvers return. */
module Tours {
  import opened Collections

  type Matrix = seq<seq<real>>

  datatype Waypoint = Waypoint(id: string, latitude: real, longitude: real)

  datatype Algorithm = ExhaustivePermutation | NearestNeighbor2Opt

  datatype Solution = Solution(
    orderedWaypoints: seq<Waypoint>,
    totalDistanceM: real,
    estimatedDurationS: int,
    algorithm: Algorithm,
    sequenceMap: seq<(int, string)>)

  predicate Square(m: Matrix, n: nat) {
    |m| == n && forall i | 0 <= i < n :: |m[i]| == n
  }

  /** A visiting order of n waypoints: each index once, the origin first when it is fixed. */
  predicate IsTour(p: seq<nat>, n: nat, fixedOrigin: bool) {
    && |p| == n
    && (forall i | 0 <= i < n :: p[i] < n)
    && Distinct(p)
    && (fixedOrigin && n > 0 ==> p[0] == 0)
  }

  /** The sum over the first k legs of an order. */
  function Legs(p: seq<nat>, m: Matrix, k: nat): real
    requires Square(m, |m|) && (forall i | 0 <= i < |p| :: p[i] < |m|) && (k < |p| || k == 0)
  {
    if k == 0 then 0.0 else Legs(p, m, k - 1) + m[p[k - 1]][p[k]]
  }

  function Cost(p: seq<nat>, m: Matrix): real
    requires Square(m, |m|) && forall i | 0 <= i < |p| :: p[i] < |m|
  {
    Legs(p, m, if |p| == 0 then 0 else |p| - 1)
  }

  lemma {:induction false} LegsOfPrefix(p: seq<nat>, x: nat, m: Matrix, k: nat)
    requires Square(m, |m|) && (forall i | 0 <= i < |p| :: p[i] < |m|) && x < |m| && (k < |p| || k == 0)
    ensures Legs(p + [x], m, k) == Legs(p, m, k)
  {
    if k > 0 { LegsOfPrefix(p, x, m, k - 1); }
  }

  /** What an order costs: nothing up to one stop, and with each further stop the entry in the row of the stop before it and
      the column of its own. */
  lemma CostGrows(p: seq<nat>, x: nat, m: Matrix)
    requires Square(m, |m|) && (forall i | 0 <= i < |p| :: p[i] < |m|) && x < |m|
    ensures Cost([], m) == 0.0 && Cost([x], m) == 0.0
    ensures p != [] ==> Cost(p + [x], m) == Cost(p, m) + m[p[|p| - 1]][x]
  {
    if p != [] { LegsOfPrefix(p, x, m, |p| - 1); }
  }

  /** Math.round: to the nearest integer, halves up. */
  function Round(x: real): int {
    (x + 0.5).Floor
  }

  function SolutionOf(p: seq<nat>, w: seq<Waypoint>, distances: Matrix, durations: Matrix, algorithm: Algorithm): Solution
    requires Square(distances, |w|) && Square(durations, |w|) && forall i | 0 <= i < |p| :: p[i] < |w|
  {
    Solution(
      seq(|p|, i requires 0 <= i < |p| => w[p[i]]),
      Round(Cost(p, distances) * 100.0) as real / 100.0,
      Round(Cost(p, durations)),
      algorithm,
      seq(|p|, i requires 0 <= i < |p| => (i + 1, w[p[i]].id)))
  }

  /** No other integer is as near, and of two equally near ones it is the greater. */
  lemma RoundNearest(x: real)
    ensures Round(x) as real - 0.5 <= x < Round(x) as real + 0.5
  {
  }

  /** The record lists the waypoints in visiting order, numbered from 1, with the distance to the nearest hundredth and the
      duration to the nearest whole number, each from its own matrix. */
  lemma SolutionExact(p: seq<nat>, w: seq<Waypoint>, distances: Matrix, durations: Matrix, algorithm: Algorithm) returns (cents: int)
    requires Square(distances, |w|) && Square(durations, |w|) && forall i | 0 <= i < |p| :: p[i] < |w|
    ensures var s := SolutionOf(p, w, distances, durations, algorithm);
            && |s.orderedWaypoints| == |p| == |s.sequenceMap|
            && (forall i | 0 <= i < |p| :: s.orderedWaypoints[i] == w[p[i]] && s.sequenceMap[i] == (i + 1, w[p[i]].id))
            && s.totalDistanceM == cents as real / 100.0
            && cents as real - 0.5 <= Cost(p, distances) * 100.0 < cents as real + 0.5
            && s.estimatedDurationS as real - 0.5 <= Cost(p, durations) < s.estimatedDurationS as real + 0.5
            && s.algorithm == algorithm
  {
    RoundNearest(Cost(p, durations));
    cents := Round(Cost(p, distances) * 100.0);
    RoundNearest(Cost(p, distances) * 100.0);
  }

  // ---- The order on strings

  predicate StringLess(a: string, b: string) {
    if b == "" then false
    else if a == "" then true
    else a[0] < b[0] || (a[0] == b[0] && StringLess(a[1..], b[1..]))
  }

  /** A string is less when it is a proper prefix, or has the lesser character where the two first differ. */
  lemma {:induction false} StringLessExact(a: string, b: string)
    ensures StringLess(a, b) <==>
              exists k | 0 <= k < |b| && k <= |a| :: a[..k] == b[..k] && (k == |a| || a[k] < b[k])
  {
    if a == "" || b == "" {
      if b != "" { assert a[..0] == b[..0]; }
    } else {
      StringLessExact(a[1..], b[1..]);
      if StringLess(a, b) {
        if a[0] < b[0] {
          assert a[..0] == b[..0];
        } else {
          var k :| 0 <= k < |b[1..]| && k <= |a[1..]| && a[1..][..k] == b[1..][..k] && (k == |a[1..]| || a[1..][k] < b[1..][k]);
          assert a[..k + 1] == [a[0]] + a[1..][..k] && b[..k + 1] == [b[0]] + b[1..][..k];
        }
      }
      if k :| 0 <= k < |b| && k <= |a| && a[..k] == b[..k] && (k == |a| || a[k] < b[k]) {
        if k > 0 {
          assert a[..k][0] == b[..k][0];
          assert a[1..][..k - 1] == a[..k][1..] && b[1..][..k - 1] == b[..k][1..];
        }
      }
    }
  }

  lemma {:induction false} StringLessTransitive(a: string, b: string, c: string)
    requires StringLess(a, b) && StringLess(b, c)
    ensures StringLess(a, c)
  {
    if a != "" && a[0] == b[0] && b[0] == c[0] { StringLessTransitive(a[1..], b[1..], c[1..]); }
  }

  lemma {:induction false} StringLessTotal(a: string, b: string)
    ensures StringLess(a, b) || StringLess(b, a) || a == b
    ensures !(StringLess(a, b) && StringLess(b, a)) && (a == b ==> !StringLess(a, b))
  {
    if a != "" && b != "" {
      assert a == [a[0]] + a[1..] && b == [b[0]] + b[1..];
      if a[0] == b[0] { StringLessTotal(a[1..], b[1..]); }
    }
  }

  // ---- Rounding

  lemma RoundMonotone(x: real, y: real)
    requires x <= y
    ensures Round(x) <= Round(y)
  {
  }

  // ---- Coverage

  /** A tour visits every waypoint. */
  lemma TourVisitsAll(p: seq<nat>, n: nat, fixedOrigin: bool)
    requires IsTour(p, n, fixedOrigin)
    ensures multiset(p) == multiset(Range(0, n))
    ensures forall i: nat | i < n :: i in p
  {
    var all := Range(0, n);
    forall x | x in p ensures x in all { assert all[x] == x; }
    DistinctCover(p, all);
    forall i: nat | i < n ensures i in p { assert all[i] == i; }
    DistinctCounts(p);
    DistinctCounts(all);
  }
}
