/** The two route solvers side by side. */
module SolverComparison {
  import opened Wrappers
  import opened Tours
  import opened Exhaustive
  import opened TwoOpt

  /** A globally optimal tour takes no longer than any tour. */
  lemma BestIsShortest(best: seq<nat>, p: seq<nat>, w: seq<Waypoint>, distances: Matrix, durations: Matrix, fixedOrigin: bool)
    requires Square(distances, |w|) && Square(durations, |w|)
    requires Best(best, w, distances, durations, fixedOrigin) && IsTour(p, |w|, fixedOrigin)
    ensures Cost(best, durations) <= Cost(p, durations) && Round(Cost(best, durations)) <= Round(Cost(p, durations))
  {
    assert !Less(ScoreOf(p, w, distances, durations), ScoreOf(best, w, distances, durations));
    RoundMonotone(Cost(best, durations), Cost(p, durations));
  }

  /** On any input both accept, what the exhaustive solver returns takes no longer than what the heuristic returns, and
      neither do the tours behind the two solutions before rounding. */
  lemma ExhaustiveIsNoWorse(w: seq<Waypoint>, distances: Matrix, durations: Matrix, fixedOrigin: bool,
                            maxIterations: Option<int>, threshold: real, a: Solution, b: Solution)
    requires Square(distances, |w|) && Square(durations, |w|)
    requires IsBestSolution(a, w, distances, durations, fixedOrigin)
    requires IsHeuristicSolution(b, w, distances, durations, fixedOrigin, maxIterations, threshold)
    ensures a.estimatedDurationS <= b.estimatedDurationS
    ensures forall best, d |
              && Best(best, w, distances, durations, fixedOrigin)
              && IsDescent(d, w, distances, durations, fixedOrigin, maxIterations, threshold) ::
              Cost(best, durations) <= Cost(d.order, durations) <= Cost(d.greedy, durations) - d.swaps as real * threshold
  {
    forall best, d |
      && Best(best, w, distances, durations, fixedOrigin)
      && IsDescent(d, w, distances, durations, fixedOrigin, maxIterations, threshold)
      ensures Cost(best, durations) <= Cost(d.order, durations) && Round(Cost(best, durations)) <= Round(Cost(d.order, durations))
    {
      BestIsShortest(best, d.order, w, distances, durations, fixedOrigin);
    }
  }

  /** An exhaustive optimum leaves 2-opt nothing to gain, whatever the threshold from zero up. */
  lemma OptimumIsLocallyOptimal(best: seq<nat>, w: seq<Waypoint>, distances: Matrix, durations: Matrix,
                                fixedOrigin: bool, threshold: real)
    requires Square(distances, |w|) && Square(durations, |w|) && threshold >= 0.0
    requires Best(best, w, distances, durations, fixedOrigin)
    ensures LocallyOptimal(best, durations, fixedOrigin, threshold)
  {
    forall i: nat, j: nat | (if fixedOrigin then 1 else 0) <= i < j < |best|
      ensures NoGain(best, durations, i, j, threshold)
    {
      SwapKeepsTour(best, |w|, fixedOrigin, i, j);
      BestIsShortest(best, Swap(best, i, j), w, distances, durations, fixedOrigin);
    }
  }
}
