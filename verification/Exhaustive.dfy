/** The exhaustive solver: over every order, the least by duration, then distance, then joined ids. */
module Exhaustive {
  import opened Collections
  import opened Tours
  import opened Permutations

  datatype Score = Score(cost: real, dist: real, ids: string)

  function JoinIds(p: seq<nat>, w: seq<Waypoint>): string
    requires forall i | 0 <= i < |p| :: p[i] < |w|
  {
    if |p| == 0 then ""
    else if |p| == 1 then w[p[0]].id
    else w[p[0]].id + "," + JoinIds(p[1..], w)
  }

  function ScoreOf(p: seq<nat>, w: seq<Waypoint>, distances: Matrix, durations: Matrix): Score
    requires Square(distances, |w|) && Square(durations, |w|) && forall i | 0 <= i < |p| :: p[i] < |w|
  {
    Score(Cost(p, durations), Cost(p, distances), JoinIds(p, w))
  }

  predicate Less(a: Score, b: Score) {
    || a.cost < b.cost
    || (a.cost == b.cost && a.dist < b.dist)
    || (a.cost == b.cost && a.dist == b.dist && StringLess(a.ids, b.ids))
  }

  /** A strict total order on scores. */
  lemma LessIsTotal(a: Score, b: Score, c: Score)
    ensures Less(a, b) || Less(b, a) || a == b
    ensures !(Less(a, b) && Less(b, a))
    ensures Less(a, b) && Less(b, c) ==> Less(a, c)
  {
    StringLessTotal(a.ids, b.ids);
    if StringLess(a.ids, b.ids) && StringLess(b.ids, c.ids) { StringLessTransitive(a.ids, b.ids, c.ids); }
  }

  /** No tour scores below this one. */
  ghost predicate Best(order: seq<nat>, w: seq<Waypoint>, distances: Matrix, durations: Matrix, fixedOrigin: bool)
    requires Square(distances, |w|) && Square(durations, |w|)
  {
    && IsTour(order, |w|, fixedOrigin)
    && forall p | IsTour(p, |w|, fixedOrigin) ::
         !Less(ScoreOf(p, w, distances, durations), ScoreOf(order, w, distances, durations))
  }

  /** Ids are joined in visiting order with commas between them. */
  lemma {:induction false} JoinIdsGrows(p: seq<nat>, x: nat, w: seq<Waypoint>)
    requires (forall i | 0 <= i < |p| :: p[i] < |w|) && x < |w|
    ensures JoinIds([], w) == "" && JoinIds([x], w) == w[x].id
    ensures p != [] ==> JoinIds(p + [x], w) == JoinIds(p, w) + "," + w[x].id
    decreases p
  {
    if |p| == 1 {
      assert (p + [x])[1..] == [x];
    } else if |p| > 1 {
      JoinIdsGrows(p[1..], x, w);
      assert (p + [x])[1..] == p[1..] + [x];
      assert w[p[0]].id + "," + (JoinIds(p[1..], w) + "," + w[x].id) == w[p[0]].id + "," + JoinIds(p[1..], w) + "," + w[x].id;
    }
  }

  /** An optimum takes the least time of all tours, of those it is the shortest, and of those it has the least joined ids. */
  lemma BestIsLeast(order: seq<nat>, p: seq<nat>, w: seq<Waypoint>, distances: Matrix, durations: Matrix, fixedOrigin: bool)
    requires Square(distances, |w|) && Square(durations, |w|)
    requires Best(order, w, distances, durations, fixedOrigin) && IsTour(p, |w|, fixedOrigin)
    ensures multiset(order) == multiset(Range(0, |w|)) && (fixedOrigin && |w| > 0 ==> order[0] == 0)
    ensures Cost(order, durations) <= Cost(p, durations)
    ensures Cost(order, durations) == Cost(p, durations) ==> Cost(order, distances) <= Cost(p, distances)
    ensures Cost(order, durations) == Cost(p, durations) && Cost(order, distances) == Cost(p, distances) ==>
              JoinIds(order, w) == JoinIds(p, w) || StringLess(JoinIds(order, w), JoinIds(p, w))
  {
    TourVisitsAll(order, |w|, fixedOrigin);
    assert !Less(ScoreOf(p, w, distances, durations), ScoreOf(order, w, distances, durations));
    StringLessTotal(JoinIds(order, w), JoinIds(p, w));
  }

  // ---- The search space

  /** The orders the loop looks at: permutations of 1..n-1 behind the origin, or of 0..n-1. */
  function Space(n: nat, fixedOrigin: bool): seq<seq<nat>>
    requires n >= 1
  {
    if fixedOrigin then Prepend(0, Perms(Range(1, n - 1))) else Perms(Range(0, n))
  }

  lemma PermutedIndices(p: seq<nat>, from: nat, n: nat)
    requires multiset(p) == multiset(Range(from, n))
    ensures |p| == n && Distinct(p) && forall i | 0 <= i < n :: from <= p[i] < from + n
  {
    SameElementsDistinct(Range(from, n), p);
    forall i | 0 <= i < n ensures from <= p[i] < from + n { assert p[i] in p; }
  }

  lemma BehindOrigin(n: nat, rest: seq<nat>)
    requires n >= 1
    ensures IsTour([0] + rest, n, true) <==> multiset(rest) == multiset(Range(1, n - 1))
  {
    var p := [0] + rest;
    assert p[1..] == rest;
    if multiset(rest) == multiset(Range(1, n - 1)) {
      PermutedIndices(rest, 1, n - 1);
    }
    if IsTour(p, n, true) {
      TourVisitsAll(p, n, true);
      assert Range(0, n) == [0] + Range(1, n - 1);
      SameTail(0, rest, Range(1, n - 1));
    }
  }

  lemma SameTail(x: nat, a: seq<nat>, b: seq<nat>)
    requires multiset([x] + a) == multiset([x] + b)
    ensures multiset(a) == multiset(b)
  {
    assert multiset([x] + a) == multiset{x} + multiset(a);
    assert multiset([x] + b) == multiset{x} + multiset(b);
    assert multiset(a) == multiset([x] + a) - multiset{x};
  }

  lemma FixedSpaceIsTours(n: nat, p: seq<nat>)
    requires n >= 1
    ensures p in Space(n, true) <==> IsTour(p, n, true)
  {
    var rest := Range(1, n - 1);
    PrependMembers(0, Perms(rest));
    if p in Space(n, true) {
      PermsSound(rest);
      assert p == [0] + p[1..];
      BehindOrigin(n, p[1..]);
    }
    if IsTour(p, n, true) {
      assert p == [0] + p[1..];
      BehindOrigin(n, p[1..]);
      PermsComplete(rest, p[1..]);
      InPrepend(0, Perms(rest), p[1..]);
    }
  }

  lemma SpaceNonEmpty(n: nat, fixedOrigin: bool)
    requires n >= 1
    ensures Space(n, fixedOrigin) != []
  {
    SpaceIsTours(n, fixedOrigin, Range(0, n));
  }

  /** The space is exactly the tours. */
  lemma SpaceIsTours(n: nat, fixedOrigin: bool, p: seq<nat>)
    requires n >= 1
    ensures p in Space(n, fixedOrigin) <==> IsTour(p, n, fixedOrigin)
  {
    if fixedOrigin {
      FixedSpaceIsTours(n, p);
    } else {
      if p in Space(n, false) {
        PermsSound(Range(0, n));
        PermutedIndices(p, 0, n);
      }
      if IsTour(p, n, false) {
        TourVisitsAll(p, n, false);
        PermsComplete(Range(0, n), p);
      }
    }
  }

  // ---- The solver

  /** The two running sums of one candidate order. */
  method SumLegs(order: seq<nat>, distances: Matrix, durations: Matrix) returns (cost: real, dist: real)
    requires order != [] && Square(distances, |distances|) && Square(durations, |distances|)
    requires forall i | 0 <= i < |order| :: order[i] < |distances|
    ensures cost == Cost(order, durations) && dist == Cost(order, distances)
  {
    cost, dist := 0.0, 0.0;
    for i := 0 to |order| - 1
      invariant cost == Legs(order, durations, i) && dist == Legs(order, distances, i)
    {
      var from, to := order[i], order[i + 1];
      cost := cost + durations[from][to];
      dist := dist + distances[from][to];
    }
  }

  /** Not beaten by any of the orders. */
  ghost predicate Unbeaten(s: Score, orders: seq<seq<nat>>, w: seq<Waypoint>, distances: Matrix, durations: Matrix)
    requires Square(distances, |w|) && Square(durations, |w|)
  {
    forall q | q in orders && IsTour(q, |w|, false) :: !Less(ScoreOf(q, w, distances, durations), s)
  }

  /** Keeping the lesser of the best so far and one more order. */
  lemma UnbeatenByOneMore(best: Score, orders: seq<seq<nat>>, q: seq<nat>, w: seq<Waypoint>, distances: Matrix, durations: Matrix)
    requires Square(distances, |w|) && Square(durations, |w|) && IsTour(q, |w|, false)
    requires orders != [] ==> Unbeaten(best, orders, w, distances, durations)
    ensures var s := ScoreOf(q, w, distances, durations);
            Unbeaten(if orders == [] || Less(s, best) then s else best, orders + [q], w, distances, durations)
  {
    var s := ScoreOf(q, w, distances, durations);
    LessIsTotal(s, s, s);
    forall p | p in orders && IsTour(p, |w|, false) && Less(s, best)
      ensures !Less(ScoreOf(p, w, distances, durations), s)
    {
      LessIsTotal(ScoreOf(p, w, distances, durations), s, best);
    }
  }

  /** The best order so far; before the first one, cost and distance are infinite. */
  datatype Found = NoneYet | Found(order: seq<nat>, cost: real, dist: real)

  ghost predicate FoundRight(f: Found, w: seq<Waypoint>, distances: Matrix, durations: Matrix, fixedOrigin: bool) {
    && Square(distances, |w|) && Square(durations, |w|)
    && (f.Found? ==>
          && IsTour(f.order, |w|, fixedOrigin)
          && f.cost == Cost(f.order, durations)
          && f.dist == Cost(f.order, distances))
  }

  /** One candidate, with the tie-breaking: lower duration, then lower distance, then lesser ids. */
  method Keep(best: Found, order: seq<nat>, w: seq<Waypoint>, distances: Matrix, durations: Matrix, fixedOrigin: bool)
    returns (next: Found)
    requires |w| >= 1 && FoundRight(best, w, distances, durations, fixedOrigin) && IsTour(order, |w|, fixedOrigin)
    ensures next.Found? && FoundRight(next, w, distances, durations, fixedOrigin)
    ensures best.NoneYet? ==> next.order == order
    ensures best.Found? ==>
              var better := Less(ScoreOf(order, w, distances, durations), ScoreOf(best.order, w, distances, durations));
              next.order == if better then order else best.order
  {
    var cost, dist := SumLegs(order, distances, durations);
    var isBetter := false;
    if best.NoneYet? || cost < best.cost {
      isBetter := true;
    } else if cost == best.cost && dist < best.dist {
      isBetter := true;
    } else if cost == best.cost && dist == best.dist {
      isBetter := StringLess(JoinIds(order, w), JoinIds(best.order, w));
    }
    next := if isBetter then Found(order, cost, dist) else best;
  }

  function FullOrder(perm: seq<nat>, fixedOrigin: bool): seq<nat> {
    if fixedOrigin then [0] + perm else perm
  }

  /** The scan over the raw permutations. */
  method Scan(raw: seq<seq<nat>>, w: seq<Waypoint>, distances: Matrix, durations: Matrix, fixedOrigin: bool)
    returns (best: Found)
    requires |w| >= 1 && Square(distances, |w|) && Square(durations, |w|)
    requires raw != [] && forall k | 0 <= k < |raw| :: IsTour(FullOrder(raw[k], fixedOrigin), |w|, fixedOrigin)
    ensures best.Found? && FoundRight(best, w, distances, durations, fixedOrigin)
    ensures Unbeaten(ScoreOf(best.order, w, distances, durations),
                     seq(|raw|, k requires 0 <= k < |raw| => FullOrder(raw[k], fixedOrigin)), w, distances, durations)
  {
    ghost var orders := seq(|raw|, k requires 0 <= k < |raw| => FullOrder(raw[k], fixedOrigin));
    best := NoneYet;
    for k := 0 to |raw|
      invariant FoundRight(best, w, distances, durations, fixedOrigin)
      invariant best.NoneYet? <==> k == 0
      invariant best.Found? ==> Unbeaten(ScoreOf(best.order, w, distances, durations), orders[..k], w, distances, durations)
    {
      var fullOrder := FullOrder(raw[k], fixedOrigin);
      assert orders[..k + 1] == orders[..k] + [fullOrder];
      ghost var s := if best.NoneYet? then Score(0.0, 0.0, "") else ScoreOf(best.order, w, distances, durations);
      UnbeatenByOneMore(s, orders[..k], fullOrder, w, distances, durations);
      best := Keep(best, fullOrder, w, distances, durations, fixedOrigin);
    }
    assert orders[..|raw|] == orders;
  }

  /** Generate, then scan. */
  method Search(w: seq<Waypoint>, distances: Matrix, durations: Matrix, fixedOrigin: bool) returns (best: Found)
    requires |w| >= 1 && Square(distances, |w|) && Square(durations, |w|)
    ensures best.Found? && FoundRight(best, w, distances, durations, fixedOrigin)
    ensures Best(best.order, w, distances, durations, fixedOrigin)
  {
    var raw := GeneratePermutations(if fixedOrigin then Range(1, |w| - 1) else Range(0, |w|));
    SpaceNonEmpty(|w|, fixedOrigin);
    assert Space(|w|, fixedOrigin) == seq(|raw|, k requires 0 <= k < |raw| => FullOrder(raw[k], fixedOrigin));
    forall k | 0 <= k < |raw| ensures IsTour(FullOrder(raw[k], fixedOrigin), |w|, fixedOrigin) {
      assert FullOrder(raw[k], fixedOrigin) == Space(|w|, fixedOrigin)[k];
      SpaceIsTours(|w|, fixedOrigin, Space(|w|, fixedOrigin)[k]);
    }
    best := Scan(raw, w, distances, durations, fixedOrigin);
    SpaceFound(best.order, w, distances, durations, fixedOrigin);
  }

  /** The solution record of a globally optimal tour. */
  ghost predicate IsBestSolution(solution: Solution, w: seq<Waypoint>, distances: Matrix, durations: Matrix, fixedOrigin: bool)
    requires Square(distances, |w|) && Square(durations, |w|)
  {
    exists order | Best(order, w, distances, durations, fixedOrigin) ::
      solution == SolutionOf(order, w, distances, durations, ExhaustivePermutation)
  }

  method SolveExhaustive(w: seq<Waypoint>, distances: Matrix, durations: Matrix, fixedOrigin: bool)
    returns (solution: Solution)
    requires Square(distances, |w|) && Square(durations, |w|)
    ensures IsBestSolution(solution, w, distances, durations, fixedOrigin)
  {
    if |w| <= 1 {
      OnlyTour(w, distances, durations, fixedOrigin);
      return Solution(w, 0.0, 0, ExhaustivePermutation, seq(|w|, i requires 0 <= i < |w| => (i + 1, w[i].id)));
    }
    var best := Search(w, distances, durations, fixedOrigin);
    solution := Solution(
      seq(|best.order|, i requires 0 <= i < |best.order| => w[best.order[i]]),
      Round(best.dist * 100.0) as real / 100.0,
      Round(best.cost),
      ExhaustivePermutation,
      seq(|best.order|, i requires 0 <= i < |best.order| => (i + 1, w[best.order[i]].id)));
    assert solution == SolutionOf(best.order, w, distances, durations, ExhaustivePermutation);
  }

  lemma OnlyTour(w: seq<Waypoint>, distances: Matrix, durations: Matrix, fixedOrigin: bool)
    requires Square(distances, |w|) && Square(durations, |w|) && |w| <= 1
    ensures var order := Range(0, |w|);
      && Best(order, w, distances, durations, fixedOrigin)
      && SolutionOf(order, w, distances, durations, ExhaustivePermutation)
         == Solution(w, 0.0, 0, ExhaustivePermutation, seq(|w|, i requires 0 <= i < |w| => (i + 1, w[i].id)))
  {
    var order := Range(0, |w|);
    var s := SolutionOf(order, w, distances, durations, ExhaustivePermutation);
    assert s.orderedWaypoints == w;
    forall p | IsTour(p, |w|, fixedOrigin)
      ensures !Less(ScoreOf(p, w, distances, durations), ScoreOf(order, w, distances, durations))
    {
      assert p == order;
      LessIsTotal(ScoreOf(p, w, distances, durations), ScoreOf(p, w, distances, durations), ScoreOf(p, w, distances, durations));
    }
  }

  lemma SpaceFound(order: seq<nat>, w: seq<Waypoint>, distances: Matrix, durations: Matrix, fixedOrigin: bool)
    requires |w| >= 1 && Square(distances, |w|) && Square(durations, |w|) && IsTour(order, |w|, fixedOrigin)
    requires Unbeaten(ScoreOf(order, w, distances, durations), Space(|w|, fixedOrigin), w, distances, durations)
    ensures Best(order, w, distances, durations, fixedOrigin)
  {
    forall p | IsTour(p, |w|, fixedOrigin)
      ensures !Less(ScoreOf(p, w, distances, durations), ScoreOf(order, w, distances, durations))
    {
      SpaceIsTours(|w|, fixedOrigin, p);
    }
  }

  // ---- Determinism

  /** Ids that cannot be confused once they are joined. */
  predicate PlainIds(w: seq<Waypoint>) {
    && (forall i | 0 <= i < |w| :: ',' !in w[i].id)
    && (forall i, j | 0 <= i < j < |w| :: w[i].id != w[j].id)
  }

  lemma {:induction false} JoinedHead(a: string, x: string, b: string, y: string)
    requires ',' !in a && ',' !in b && a + [','] + x == b + [','] + y
    ensures a == b && x == y
    decreases a
  {
    var s := a + [','] + x;
    assert s[|a|] == ',' && s[|b|] == ',';
    forall k | 0 <= k < |a| ensures s[k] != ',' { assert s[k] == a[k]; }
    forall k | 0 <= k < |b| ensures s[k] != ',' { assert s[k] == b[k]; }
    assert |a| == |b|;
    assert a == s[..|a|] && b == s[..|b|] && x == s[|a| + 1..] && y == s[|b| + 1..];
  }

  /** Two orders of the same length with the same joined ids are the same order. */
  lemma {:induction false} JoinedIdsDiffer(p: seq<nat>, q: seq<nat>, w: seq<Waypoint>)
    requires PlainIds(w) && |p| == |q| && (forall i | 0 <= i < |p| :: p[i] < |w| && q[i] < |w|)
    requires JoinIds(p, w) == JoinIds(q, w)
    ensures p == q
    decreases |p|
  {
    if |p| >= 1 {
      if |p| >= 2 {
        JoinedHead(w[p[0]].id, JoinIds(p[1..], w), w[q[0]].id, JoinIds(q[1..], w));
        JoinedIdsDiffer(p[1..], q[1..], w);
      }
      assert w[p[0]].id == w[q[0]].id;
      assert p[0] == q[0];
      assert p == [p[0]] + p[1..] && q == [q[0]] + q[1..];
    }
  }

  /** The optimum is unique, so no other order of enumeration could find another one. */
  lemma BestIsUnique(a: seq<nat>, b: seq<nat>, w: seq<Waypoint>, distances: Matrix, durations: Matrix, fixedOrigin: bool)
    requires Square(distances, |w|) && Square(durations, |w|) && PlainIds(w)
    requires Best(a, w, distances, durations, fixedOrigin) && Best(b, w, distances, durations, fixedOrigin)
    ensures a == b
  {
    var x, y := ScoreOf(a, w, distances, durations), ScoreOf(b, w, distances, durations);
    LessIsTotal(x, y, x);
    assert x == y;
    JoinedIdsDiffer(a, b, w);
  }

  lemma SolutionIsUnique(a: Solution, b: Solution, w: seq<Waypoint>, distances: Matrix, durations: Matrix, fixedOrigin: bool)
    requires Square(distances, |w|) && Square(durations, |w|) && PlainIds(w)
    requires IsBestSolution(a, w, distances, durations, fixedOrigin) && IsBestSolution(b, w, distances, durations, fixedOrigin)
    ensures a == b
  {
    var p :| Best(p, w, distances, durations, fixedOrigin) && a == SolutionOf(p, w, distances, durations, ExhaustivePermutation);
    var q :| Best(q, w, distances, durations, fixedOrigin) && b == SolutionOf(q, w, distances, durations, ExhaustivePermutation);
    BestIsUnique(p, q, w, distances, durations, fixedOrigin);
  }
}
