/** DELIVERED implies a POD, except for the stops that certain overrides deliver. */
module PodCoverage {
  import opened DeliveryRows
  import opened PodOnce

  ghost predicate RowsCovered(r: Rows) {
    forall p | IsDelivered(r, p) :: p in r.pods
  }

  /** An override of a ticket whose payload names no receiver, for a stop of the delivery that has no POD. */
  predicate Uncovers(r: Rows, c: Call) {
    && c.TicketResolve? && c.verdict == Overridden && c.ticket in r.tickets
    && !r.tickets[c.ticket].receiver && r.tickets[c.ticket].stop in r.stops && r.tickets[c.ticket].stop !in r.pods
  }

  predicate UncoveringStep(s: State, a: Action) {
    a.Step? && a.id in s.calls && Uncovers(s.rows, s.calls[a.id])
  }

  lemma ResolveCovers(r: Rows, c: Call)
    requires RowsCovered(r) && c.TicketResolve?
    ensures RowsCovered(Advance(r, c).rows) <==> !Uncovers(r, c)
  {
    if Uncovers(r, c) { assert IsDelivered(Advance(r, c).rows, r.tickets[c.ticket].stop); }
  }

  lemma CallCovers(r: Rows, c: Call)
    requires RowsCovered(r) && !c.TicketResolve?
    ensures RowsCovered(Advance(r, c).rows)
  {
    match c
    case StopClaim(op, stop) =>
    case PodCommit(key, stop) =>
    case TicketResolve(_, _) =>
    case _ => assert Advance(r, c).rows.stops == r.stops && Advance(r, c).rows.pods == r.pods;
  }

  /** One step leaves a delivered stop without a POD exactly when it is such an override. */
  lemma UncoveredStep(s: State, a: Action)
    requires RowsCovered(s.rows)
    ensures RowsCovered(Next(s, a).rows) <==> !UncoveringStep(s, a)
  {
    if a.Step? && a.id in s.calls {
      if s.calls[a.id].TicketResolve? { ResolveCovers(s.rows, s.calls[a.id]); } else { CallCovers(s.rows, s.calls[a.id]); }
    } else {
      assert Next(s, a).rows.stops == s.rows.stops && Next(s, a).rows.pods == s.rows.pods;
    }
  }

  ghost predicate EverUncovered(s: State, run: seq<Action>)
    decreases run
  {
    !RowsCovered(s.rows) || (run != [] && EverUncovered(Next(s, run[0]), run[1..]))
  }

  predicate HasUncovering(s: State, run: seq<Action>)
    decreases run
  {
    run != [] && (UncoveringStep(s, run[0]) || HasUncovering(Next(s, run[0]), run[1..]))
  }

  /** In any run a delivered stop is ever without a POD if and only if the run resolves a ticket in that way. */
  lemma {:induction false} UncoveredExactly(s: State, run: seq<Action>)
    requires RowsCovered(s.rows)
    ensures EverUncovered(s, run) <==> HasUncovering(s, run)
    decreases run
  {
    if run != [] {
      UncoveredStep(s, run[0]);
      if UncoveringStep(s, run[0]) {
        assert EverUncovered(Next(s, run[0]), run[1..]);
      } else {
        UncoveredExactly(Next(s, run[0]), run[1..]);
      }
    }
  }

  /** A submit is answered without a POD exactly when it read its stop as delivered and the stop has none. */
  lemma UnnamedExactly(r: Rows, c: Call)
    requires RowsOnce(r) && Advance(r, c).answer.Some?
    ensures Advance(r, c).answer.value.podId.None? <==> c.PodFetch? && c.stop !in r.pods
  {
  }

  ghost predicate AllNamed(s: State) {
    forall a | a in s.replies :: a.podId.Some?
  }

  lemma {:induction false} CoveredRun(s: State, run: seq<Action>)
    requires Once(s) && RowsCovered(s.rows) && AllNamed(s) && !HasUncovering(s, run)
    ensures RowsCovered(Run(s, run).rows) && AllNamed(Run(s, run))
    decreases run
  {
    if run != [] {
      OnceStep(s, run[0]);
      UncoveredStep(s, run[0]);
      if run[0].Step? && run[0].id in s.calls && Advance(s.rows, s.calls[run[0].id]).answer.Some? {
        UnnamedExactly(s.rows, s.calls[run[0].id]);
      }
      CoveredRun(Next(s, run[0]), run[1..]);
    }
  }

  /** From a new delivery, without such an override: every delivered stop has its POD, and every submit is told one. */
  lemma DeliveredHasPod(ids: set<StopId>, run: seq<Action>)
    requires !HasUncovering(Created(ids), run)
    ensures var s := Run(Created(ids), run);
            && (forall stop | IsDelivered(s.rows, stop) :: stop in s.rows.pods)
            && forall a | a in s.replies :: a.podId.Some?
  {
    CoveredRun(Created(ids), run);
  }

  /** Such an override is reached from a new delivery. */
  lemma OverrideWithoutReceiver(stop: StopId)
    ensures var run := [Cancel, Begin(0, OutboxRequest(stop, false)), Step(0), Begin(1, ResolveRequest(0, Overridden)), Step(1)];
            var r := Run(Created({stop}), run).rows;
            IsDelivered(r, stop) && stop !in r.pods && r.status == Completed
  {
    var s := Created({stop});
    var s2 := Next(Next(s, Cancel), Begin(0, OutboxRequest(stop, false)));
    assert s2.calls[0] == TicketWrite(stop, false);
    var s3 := Next(s2, Step(0));
    var s4 := Next(s3, Begin(1, ResolveRequest(0, Overridden)));
    assert s4.calls[1] == TicketResolve(0, Overridden);
    var s5 := Next(s4, Step(1));
    assert s5.rows.stops[stop] == Delivered;
    assert Run(s3, [Begin(1, ResolveRequest(0, Overridden)), Step(1)]) == s5;
    assert Run(s2, [Step(0), Begin(1, ResolveRequest(0, Overridden)), Step(1)]) == s5;
    assert Run(s, [Cancel, Begin(0, OutboxRequest(stop, false)), Step(0), Begin(1, ResolveRequest(0, Overridden)), Step(1)]) == s5;
  }
}
