/** The heuristic solver: a nearest-neighbour tour improved by reversing segments while that pays. */
module TwoOpt {
  import opened Wrappers
  import opened Collections
  import opened Tours

  // ---- The move

  function Reverse<T>(s: seq<T>): (r: seq<T>)
    ensures |r| == |s| && forall k | 0 <= k < |s| :: r[k] == s[|s| - 1 - k]
  {
    seq(|s|, k requires 0 <= k < |s| => s[|s| - 1 - k])
  }

  /** perform2OptSwap: the segment from i to j reversed. */
  function Swap(route: seq<nat>, i: nat, j: nat): seq<nat>
    requires i <= j < |route|
  {
    route[..i] + Reverse(route[i..j + 1]) + route[j + 1..]
  }

  function Mirror(i: nat, j: nat, k: nat): nat {
    if i <= k <= j then i + j - k else k
  }

  /** Where each element goes; the same rule brings it back. */
  lemma SwapAt(route: seq<nat>, i: nat, j: nat, k: nat)
    requires i <= j < |route| && k < |route|
    ensures |Swap(route, i, j)| == |route|
    ensures Swap(route, i, j)[k] == route[Mirror(i, j, k)]
    ensures Swap(route, i, j)[k] == if i <= k <= j then route[i + j - k] else route[k]
  {
  }

  lemma SwapDistinct(route: seq<nat>, i: nat, j: nat)
    requires i <= j < |route| && Distinct(route)
    ensures Distinct(Swap(route, i, j))
  {
    var s := Swap(route, i, j);
    SwapLength(route, i, j);
    forall a, b | 0 <= a < b < |s| ensures s[a] != s[b] {
      SwapAt(route, i, j, a);
      SwapAt(route, i, j, b);
      var x, y := Mirror(i, j, a), Mirror(i, j, b);
      assert x != y;
      if x < y { assert route[x] != route[y]; } else { assert route[y] != route[x]; }
    }
  }

  /** A reversal behind the origin keeps a tour a tour, and reversing again undoes it. */
  lemma SwapKeepsTour(route: seq<nat>, n: nat, fixedOrigin: bool, i: nat, j: nat)
    requires IsTour(route, n, fixedOrigin) && i <= j < n && (fixedOrigin ==> i >= 1)
    ensures IsTour(Swap(route, i, j), n, fixedOrigin)
    ensures Swap(Swap(route, i, j), i, j) == route
  {
    var s := Swap(route, i, j);
    SwapLength(route, i, j);
    forall k | 0 <= k < n ensures s[k] == route[Mirror(i, j, k)] { SwapAt(route, i, j, k); }
    SwapDistinct(route, i, j);
    SwapBack(route, i, j);
  }

  lemma SwapLength(route: seq<nat>, i: nat, j: nat)
    requires i <= j < |route|
    ensures |Swap(route, i, j)| == |route|
  {
  }

  lemma SwapBack(route: seq<nat>, i: nat, j: nat)
    requires i <= j < |route|
    ensures |Swap(route, i, j)| == |route| && Swap(Swap(route, i, j), i, j) == route
  {
    var s := Swap(route, i, j);
    SwapLength(route, i, j);
    SwapLength(s, i, j);
    forall k | 0 <= k < |route| ensures Swap(s, i, j)[k] == route[k] {
      SwapAt(s, i, j, k);
      SwapAt(route, i, j, Mirror(i, j, k));
    }
  }

  // ---- Cost

  ghost predicate NonNegative(m: Matrix) {
    forall i, j | 0 <= i < |m| && 0 <= j < |m[i]| :: m[i][j] >= 0.0
  }

  lemma {:induction false} LegsNonNegative(p: seq<nat>, m: Matrix, k: nat)
    requires Square(m, |m|) && NonNegative(m) && (forall i | 0 <= i < |p| :: p[i] < |m|) && (k < |p| || k == 0)
    ensures Legs(p, m, k) >= 0.0
  {
    if k > 0 { LegsNonNegative(p, m, k - 1); }
  }

  method ComputeTour(tour: seq<nat>, m: Matrix) returns (cost: real)
    requires Square(m, |m|) && forall i | 0 <= i < |tour| :: tour[i] < |m|
    ensures cost == Cost(tour, m)
  {
    cost := 0.0;
    var i := 0;
    while i < |tour| - 1
      invariant 0 <= i && (i < |tour| || i == 0) && cost == Legs(tour, m, i)
    {
      cost := cost + m[tour[i]][tour[i + 1]];
      i := i + 1;
    }
  }

  // ---- Nearest neighbour

  /** i is a strictly better next stop than j: nearer in time, then in distance, then by id. */
  predicate Nearer(i: nat, j: nat, last: nat, w: seq<Waypoint>, distances: Matrix, durations: Matrix)
    requires Square(distances, |w|) && Square(durations, |w|) && i < |w| && j < |w| && last < |w|
  {
    || durations[last][i] < durations[last][j]
    || (durations[last][i] == durations[last][j] && distances[last][i] < distances[last][j])
    || (durations[last][i] == durations[last][j] && distances[last][i] == distances[last][j]
        && StringLess(w[i].id, w[j].id))
  }

  /** A strict weak order: irreflexive, transitive, and so is its negation. */
  lemma NearerIsOrder(i: nat, j: nat, k: nat, last: nat, w: seq<Waypoint>, distances: Matrix, durations: Matrix)
    requires Square(distances, |w|) && Square(durations, |w|) && i < |w| && j < |w| && k < |w| && last < |w|
    ensures !Nearer(i, i, last, w, distances, durations)
    ensures !Nearer(i, j, last, w, distances, durations) && Nearer(k, j, last, w, distances, durations) ==>
              !Nearer(i, k, last, w, distances, durations)
    ensures !Nearer(i, j, last, w, distances, durations) && !Nearer(j, k, last, w, distances, durations) ==>
              !Nearer(i, k, last, w, distances, durations)
  {
    StringLessTotal(w[i].id, w[i].id);
    StringLessTotal(w[i].id, w[j].id);
    StringLessTotal(w[j].id, w[k].id);
    if StringLess(w[i].id, w[k].id) && StringLess(w[k].id, w[j].id) { StringLessTransitive(w[i].id, w[k].id, w[j].id); }
    if StringLess(w[j].id, w[i].id) && StringLess(w[i].id, w[k].id) { StringLessTransitive(w[j].id, w[i].id, w[k].id); }
    if StringLess(w[i].id, w[j].id) && StringLess(w[j].id, w[k].id) { StringLessTransitive(w[i].id, w[j].id, w[k].id); }
    if StringLess(w[i].id, w[k].id) && StringLess(w[k].id, w[j].id) { StringLessTransitive(w[i].id, w[k].id, w[j].id); }
  }

  /** Each next stop is one that no stop still open is nearer than. */
  ghost predicate Greedy(tour: seq<nat>, w: seq<Waypoint>, distances: Matrix, durations: Matrix)
    requires Square(distances, |w|) && Square(durations, |w|) && forall i | 0 <= i < |tour| :: tour[i] < |w|
  {
    forall k, u: nat | 0 < k < |tour| && u < |w| && u !in tour[..k] ::
      !Nearer(u, tour[k], tour[k - 1], w, distances, durations)
  }

  /** Greedy: from each stop the next is one of the least time away among those still open, of these one of the least
      distance, and of these the least id. */
  lemma GreedyIsNearest(tour: seq<nat>, w: seq<Waypoint>, distances: Matrix, durations: Matrix, k: nat, u: nat)
    requires Square(distances, |w|) && Square(durations, |w|) && forall i | 0 <= i < |tour| :: tour[i] < |w|
    requires Greedy(tour, w, distances, durations) && 0 < k < |tour| && u < |w| && u !in tour[..k]
    ensures var last, next := tour[k - 1], tour[k];
      && durations[last][next] <= durations[last][u]
      && (durations[last][next] == durations[last][u] ==> distances[last][next] <= distances[last][u])
      && (durations[last][next] == durations[last][u] && distances[last][next] == distances[last][u] ==>
            w[next].id == w[u].id || StringLess(w[next].id, w[u].id))
  {
    assert !Nearer(u, tour[k], tour[k - 1], w, distances, durations);
    StringLessTotal(w[u].id, w[tour[k]].id);
  }

  method NearestNeighbor(w: seq<Waypoint>, distances: Matrix, durations: Matrix) returns (tour: seq<nat>)
    requires |w| >= 1 && Square(distances, |w|) && Square(durations, |w|)
    ensures IsTour(tour, |w|, true) && Greedy(tour, w, distances, durations)
  {
    var n := |w|;
    tour := [0];
    var visited := {0};
    while |visited| < n
      invariant visited == Elements(tour) && |visited| == |tour| <= n
      invariant Distinct(tour) && tour[0] == 0 && forall i | 0 <= i < |tour| :: tour[i] < n
      invariant Greedy(tour, w, distances, durations)
      decreases n - |tour|
    {
      var last := tour[|tour| - 1];
      var nearest: Option<nat> := None;
      for i := 0 to n
        invariant nearest.Some? ==> nearest.value < i && nearest.value !in visited
        invariant nearest.None? ==> forall u: nat | u < i :: u in visited
        invariant nearest.Some? ==> forall u: nat | u < i && u !in visited ::
                    !Nearer(u, nearest.value, last, w, distances, durations)
      {
        if i !in visited {
          var isBetter := nearest.None? || Nearer(i, nearest.value, last, w, distances, durations);
          forall u: nat | u < i + 1 && u !in visited
            ensures !Nearer(u, if isBetter then i else nearest.value, last, w, distances, durations)
          {
            NearerIsOrder(u, if nearest.Some? then nearest.value else i, i, last, w, distances, durations);
          }
          if isBetter { nearest := Some(i); }
        }
      }
      if nearest.None? {
        forall u: nat | u < n ensures u in tour { assert u in visited; }
        AllVisited(tour, n);
      }
      GreedyExtends(tour, nearest.value, w, distances, durations);
      tour := tour + [nearest.value];
      visited := visited + {nearest.value};
    }
  }

  lemma GreedyExtends(tour: seq<nat>, next: nat, w: seq<Waypoint>, distances: Matrix, durations: Matrix)
    requires Square(distances, |w|) && Square(durations, |w|) && (forall i | 0 <= i < |tour| :: tour[i] < |w|)
    requires tour != [] && next < |w| && Greedy(tour, w, distances, durations)
    requires forall u: nat | u < |w| && u !in tour :: !Nearer(u, next, tour[|tour| - 1], w, distances, durations)
    ensures Greedy(tour + [next], w, distances, durations)
  {
    var t := tour + [next];
    forall k, u: nat | 0 < k < |t| && u < |w| && u !in t[..k]
      ensures !Nearer(u, t[k], t[k - 1], w, distances, durations)
    {
      assert t[..k] == tour[..k];
      if k == |tour| { assert tour[..k] == tour; }
    }
  }

  lemma AllVisited(tour: seq<nat>, n: nat)
    requires Distinct(tour) && forall u: nat | u < n :: u in tour
    ensures |tour| >= n
  {
    ElementsSize(tour);
    ElementsSize(Range(0, n));
    assert Elements(Range(0, n)) <= Elements(tour);
    SubsetSize(Elements(Range(0, n)), Elements(tour));
  }

  // ---- 2-opt

  /** No segment reversal, behind a fixed origin, beats the tour by more than the threshold. */
  ghost predicate LocallyOptimal(tour: seq<nat>, durations: Matrix, fixedOrigin: bool, threshold: real)
    requires Square(durations, |durations|) && IsTour(tour, |durations|, false)
  {
    forall i: nat, j: nat | (if fixedOrigin then 1 else 0) <= i < j < |tour| :: NoGain(tour, durations, i, j, threshold)
  }

  ghost predicate NoGain(tour: seq<nat>, durations: Matrix, i: nat, j: nat, threshold: real)
    requires Square(durations, |durations|) && IsTour(tour, |durations|, false) && i < j < |tour|
  {
    SwapKeepsTour(tour, |tour|, false, i, j);
    Cost(tour, durations) - Cost(Swap(tour, i, j), durations) <= threshold
  }

  /** A tour with the running cost and distance the loop carries for it. */
  datatype Priced = Priced(tour: seq<nat>, cost: real, dist: real)

  ghost predicate PricedRight(t: Priced, distances: Matrix, durations: Matrix, fixedOrigin: bool) {
    && Square(durations, |durations|) && Square(distances, |durations|)
    && IsTour(t.tour, |durations|, fixedOrigin)
    && t.cost == Cost(t.tour, durations) && t.dist == Cost(t.tour, distances)
  }

  method Candidate(t: Priced, distances: Matrix, durations: Matrix, fixedOrigin: bool, i: nat, j: nat) returns (c: Priced)
    requires PricedRight(t, distances, durations, fixedOrigin) && i < j < |t.tour| && (fixedOrigin ==> i >= 1)
    ensures PricedRight(c, distances, durations, fixedOrigin) && c.tour == Swap(t.tour, i, j)
  {
    SwapKeepsTour(t.tour, |t.tour|, fixedOrigin, i, j);
    var tour := Swap(t.tour, i, j);
    var cost := ComputeTour(tour, durations);
    var dist := ComputeTour(tour, distances);
    c := Priced(tour, cost, dist);
  }

  /** The inner loop: the reversals that start at i. */
  method ImprovementAt(t: Priced, distances: Matrix, durations: Matrix, fixedOrigin: bool, threshold: real, i: nat)
    returns (improved: bool, next: Priced)
    requires PricedRight(t, distances, durations, fixedOrigin) && i < |t.tour| && (fixedOrigin ==> i >= 1)
    ensures PricedRight(next, distances, durations, fixedOrigin)
    ensures improved ==> t.cost - next.cost > threshold
    ensures !improved ==> next == t && forall j: nat | i < j < |t.tour| :: NoGain(t.tour, durations, i, j, threshold)
  {
    for j := i + 1 to |t.tour|
      invariant forall b: nat | i < b < j :: NoGain(t.tour, durations, i, b, threshold)
    {
      var candidate := Candidate(t, distances, durations, fixedOrigin, i, j);
      if t.cost - candidate.cost > threshold { return true, candidate; }
      assert NoGain(t.tour, durations, i, j, threshold);
    }
    improved, next := false, t;
  }

  /** One scan for the first paying reversal. */
  method FirstImprovement(t: Priced, distances: Matrix, durations: Matrix, fixedOrigin: bool, threshold: real)
    returns (improved: bool, next: Priced)
    requires PricedRight(t, distances, durations, fixedOrigin) && |t.tour| >= 2
    ensures PricedRight(next, distances, durations, fixedOrigin)
    ensures improved ==> t.cost - next.cost > threshold
    ensures !improved ==> next == t && LocallyOptimal(t.tour, durations, fixedOrigin, threshold)
  {
    var start := if fixedOrigin then 1 else 0;
    for i := start to |t.tour| - 1
      invariant forall a: nat, b: nat | start <= a < i && a < b < |t.tour| :: NoGain(t.tour, durations, a, b, threshold)
    {
      improved, next := ImprovementAt(t, distances, durations, fixedOrigin, threshold, i);
      if improved { return; }
    }
    improved, next := false, t;
  }

  /** How many times a cost can still drop by more than the threshold. */
  function Budget(cost: real, threshold: real): int
    requires threshold > 0.0
  {
    (cost / threshold).Floor
  }

  lemma ScaleMonotone(a: real, b: real, threshold: real)
    requires threshold > 0.0 && a <= b
    ensures a * threshold <= b * threshold
  {
  }

  lemma BudgetDrops(cost: real, next: real, threshold: real)
    requires threshold > 0.0 && cost - next > threshold && next >= 0.0
    ensures 0 <= Budget(next, threshold) < Budget(cost, threshold)
  {
    var a, b := cost / threshold, next / threshold;
    assert a * threshold == cost && b * threshold == next;
    assert (b + 1.0) * threshold == b * threshold + threshold;
    if a <= b + 1.0 { ScaleMonotone(a, b + 1.0, threshold); }
    assert b >= 0.0;
  }

  lemma PricedBudgetDrops(t: Priced, next: Priced, distances: Matrix, durations: Matrix, fixedOrigin: bool, threshold: real)
    requires PricedRight(next, distances, durations, fixedOrigin) && NonNegative(durations) && next.tour != []
    requires threshold > 0.0 && t.cost - next.cost > threshold
    ensures 0 <= Budget(next.cost, threshold) < Budget(t.cost, threshold)
  {
    LegsNonNegative(next.tour, durations, |next.tour| - 1);
    BudgetDrops(t.cost, next.cost, threshold);
  }

  /** What a number of reversals is worth at least. */
  function Worth(swaps: nat, threshold: real): real {
    if swaps == 0 then 0.0 else Worth(swaps - 1, threshold) + threshold
  }

  lemma {:induction false} WorthIsProduct(swaps: nat, threshold: real)
    ensures Worth(swaps, threshold) == swaps as real * threshold
  {
    if swaps > 0 {
      WorthIsProduct(swaps - 1, threshold);
      assert swaps as real * threshold == (swaps - 1) as real * threshold + threshold;
    }
  }

  /** The improvement loop. `maxIterations` None is an infinite cap; then a positive threshold ends the loop. */
  method Improve(t: Priced, distances: Matrix, durations: Matrix, fixedOrigin: bool, maxIterations: Option<int>, threshold: real)
    returns (best: Priced, ghost swaps: nat)
    requires PricedRight(t, distances, durations, fixedOrigin) && |t.tour| >= 2
    requires maxIterations.None? ==> threshold > 0.0 && NonNegative(durations)
    ensures PricedRight(best, distances, durations, fixedOrigin)
    ensures best.cost + swaps as real * threshold <= t.cost
    ensures LocallyOptimal(best.tour, durations, fixedOrigin, threshold)
         || (maxIterations.Some? && swaps >= maxIterations.value)
  {
    best, swaps := t, 0;
    var iteration, improved := 0, true;
    while improved && (maxIterations.None? || iteration < maxIterations.value)
      invariant PricedRight(best, distances, durations, fixedOrigin)
      invariant best.cost + Worth(swaps, threshold) <= t.cost
      invariant improved ==> swaps == iteration
      invariant !improved ==> LocallyOptimal(best.tour, durations, fixedOrigin, threshold)
      decreases if maxIterations.Some? then maxIterations.value - iteration else Budget(best.cost, threshold), improved
    {
      iteration := iteration + 1;
      var next;
      improved, next := FirstImprovement(best, distances, durations, fixedOrigin, threshold);
      if improved {
        if maxIterations.None? {
          PricedBudgetDrops(best, next, distances, durations, fixedOrigin, threshold);
        }
        swaps := swaps + 1;
      }
      best := next;
    }
    WorthIsProduct(swaps, threshold);
  }

  /** A run of the heuristic: where it started, where it ended, and how many reversals it accepted in between. */
  datatype Descent = Descent(greedy: seq<nat>, order: seq<nat>, swaps: nat)

  /** Greedy at the start; every reversal paid; at the end locally optimal, unless the cap ran out. */
  ghost predicate IsDescent(d: Descent, w: seq<Waypoint>, distances: Matrix, durations: Matrix, fixedOrigin: bool,
                            maxIterations: Option<int>, threshold: real)
    requires Square(distances, |w|) && Square(durations, |w|)
  {
    && IsTour(d.greedy, |w|, true) && Greedy(d.greedy, w, distances, durations)
    && IsTour(d.order, |w|, fixedOrigin)
    && Cost(d.order, durations) + d.swaps as real * threshold <= Cost(d.greedy, durations)
    && (LocallyOptimal(d.order, durations, fixedOrigin, threshold)
        || (maxIterations.Some? && d.swaps >= maxIterations.value))
  }

  /** The solution record of where such a run ended. */
  ghost predicate IsHeuristicSolution(solution: Solution, w: seq<Waypoint>, distances: Matrix, durations: Matrix,
                                      fixedOrigin: bool, maxIterations: Option<int>, threshold: real)
    requires Square(distances, |w|) && Square(durations, |w|)
  {
    exists d | IsDescent(d, w, distances, durations, fixedOrigin, maxIterations, threshold) ::
      solution == SolutionOf(d.order, w, distances, durations, NearestNeighbor2Opt)
  }

  /** The other order has the stops from i to j the other way round. */
  predicate IsReversal(p: seq<nat>, q: seq<nat>, i: nat, j: nat)
    requires i < j < |p|
  {
    |q| == |p| && forall k {:trigger q[k]} | 0 <= k < |p| :: q[k] == if i <= k <= j then p[i + j - k] else p[k]
  }

  lemma ReversalIsSwap(p: seq<nat>, q: seq<nat>, i: nat, j: nat)
    requires i < j < |p| && IsReversal(p, q, i, j)
    ensures q == Swap(p, i, j)
  {
    SwapLength(p, i, j);
    forall k | 0 <= k < |q| ensures q[k] == Swap(p, i, j)[k] { SwapAt(p, i, j, k); }
  }

  /** Unless the cap was used up, no order with a part reversed, behind a fixed origin, is cheaper by more than the
      threshold. */
  lemma NoReversalPays(d: Descent, w: seq<Waypoint>, distances: Matrix, durations: Matrix, fixedOrigin: bool,
                       maxIterations: Option<int>, threshold: real, i: nat, j: nat, q: seq<nat>)
    requires Square(distances, |w|) && Square(durations, |w|)
    requires IsDescent(d, w, distances, durations, fixedOrigin, maxIterations, threshold)
    requires maxIterations.None? || d.swaps < maxIterations.value
    requires i < j < |w| && (fixedOrigin ==> i >= 1) && IsReversal(d.order, q, i, j)
    ensures (forall k | 0 <= k < |q| :: q[k] < |w|) && Cost(d.order, durations) - Cost(q, durations) <= threshold
  {
    ReversalIsSwap(d.order, q, i, j);
    SwapKeepsTour(d.order, |w|, false, i, j);
    assert NoGain(d.order, durations, i, j, threshold);
  }

  /** The other half of what a run ends with: an order of all stops, the origin first if it is fixed, no costlier than a
      greedy order from the origin, less what each accepted reversal was worth. */
  lemma DescentMeans(d: Descent, w: seq<Waypoint>, distances: Matrix, durations: Matrix, fixedOrigin: bool,
                     maxIterations: Option<int>, threshold: real)
    requires Square(distances, |w|) && Square(durations, |w|)
    requires IsDescent(d, w, distances, durations, fixedOrigin, maxIterations, threshold)
    ensures multiset(d.order) == multiset(Range(0, |w|)) == multiset(d.greedy)
    ensures |w| > 0 ==> d.greedy[0] == 0 && (fixedOrigin ==> d.order[0] == 0)
    ensures forall i | 0 <= i < |w| :: d.order[i] < |w| && d.greedy[i] < |w|
    ensures Cost(d.order, durations) + d.swaps as real * threshold <= Cost(d.greedy, durations)
  {
    TourVisitsAll(d.order, |w|, fixedOrigin);
    TourVisitsAll(d.greedy, |w|, true);
  }

  method SolveNearestNeighbor2Opt(w: seq<Waypoint>, distances: Matrix, durations: Matrix, fixedOrigin: bool,
                                  maxIterations: Option<int>, threshold: real)
    returns (solution: Solution)
    requires Square(distances, |w|) && Square(durations, |w|)
    requires maxIterations.None? ==> threshold > 0.0 && NonNegative(durations)
    ensures IsHeuristicSolution(solution, w, distances, durations, fixedOrigin, maxIterations, threshold)
  {
    if |w| <= 1 {
      solution := Solution(w, 0.0, 0, NearestNeighbor2Opt, seq(|w|, i requires 0 <= i < |w| => (i + 1, w[i].id)));
      var only := Range(0, |w|);
      assert IsDescent(Descent(only, only, 0), w, distances, durations, fixedOrigin, maxIterations, threshold);
      assert SolutionOf(only, w, distances, durations, NearestNeighbor2Opt).orderedWaypoints == w;
      return;
    }
    var tour := NearestNeighbor(w, distances, durations);
    var cost := ComputeTour(tour, durations);
    var dist := ComputeTour(tour, distances);
    var best, swaps := Improve(Priced(tour, cost, dist), distances, durations, fixedOrigin, maxIterations, threshold);
    solution := Solution(
      seq(|best.tour|, i requires 0 <= i < |best.tour| => w[best.tour[i]]),
      Round(best.dist * 100.0) as real / 100.0,
      Round(best.cost),
      NearestNeighbor2Opt,
      seq(|best.tour|, i requires 0 <= i < |best.tour| => (i + 1, w[best.tour[i]].id)));
    assert IsDescent(Descent(tour, best.tour, swaps), w, distances, durations, fixedOrigin, maxIterations, threshold);
    assert solution == SolutionOf(best.tour, w, distances, durations, NearestNeighbor2Opt);
  }

  /** A cap that the greedy cost cannot use up never cuts the search short of a local optimum. */
  lemma CapNotReached(greedyCost: real, cost: real, swaps: nat, cap: int, threshold: real)
    requires threshold > 0.0 && cost >= 0.0 && cost + swaps as real * threshold <= greedyCost
    requires greedyCost < cap as real * threshold
    ensures swaps < cap
  {
    if swaps >= cap { ScaleMonotone(cap as real, swaps as real, threshold); }
  }
}
