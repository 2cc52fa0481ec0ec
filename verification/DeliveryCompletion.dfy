/** A finished delivery is noticed: the auto-complete call that finishes it is never lost, with one exception. */
module DeliveryCompletion {
  import opened DeliveryRows
  import opened DeliverySafety

  predicate IsAuto(c: Call) {
    c.AutoRead? || c.AutoClaim?
  }

  ghost predicate AutoPending(s: State) {
    exists id | id in s.calls :: IsAuto(s.calls[id])
  }

  ghost predicate Finishable(s: State) {
    s.rows.stops != map[] && AllTerminal(s.rows.stops)
  }

  /** Nothing is left to do on an EN_ROUTE delivery, and no auto-complete call is on its way to notice. */
  ghost predicate Lost(s: State) {
    s.rows.status == EnRoute && Finishable(s) && !AutoPending(s)
  }

  /** Starting a delivery whose stops were all skipped beforehand, after their auto-complete calls gave up. */
  ghost predicate LosingStart(s: State, a: Action) {
    a == Start && s.rows.status == Accepted && Finishable(s) && !AutoPending(s)
  }

  /** Other requests leave a pending auto-complete call alone. */
  lemma AutoStaysPending(s: State, a: Action, id: nat)
    requires id in s.calls && IsAuto(s.calls[id]) && !(a.Step? && a.id == id)
    ensures AutoPending(Next(s, a))
  {
    assert Next(s, a).calls[id] == s.calls[id];
  }

  /** Only Start makes a delivery EN_ROUTE, and it writes nothing else. */
  lemma OnlyStartOpens(s: State, a: Action)
    requires Sound(s) && s.rows.status != EnRoute
    ensures Next(s, a).rows.status == EnRoute <==> a == Start && s.rows.status == Accepted
  {
    SoundStep(s, a);
    if a.Step? && a.id in s.calls && s.calls[a.id].TicketResolve? {
      ResolveEvolves(s.rows, s.calls[a.id].ticket, s.calls[a.id].verdict);
    }
  }

  /** On an EN_ROUTE delivery only a request that goes on to auto-complete finishes the last open stop. */
  lemma LastStopSchedules(r: Rows, c: Call)
    requires RowsSound(r) && CallSound(r, c) && r.status == EnRoute
    requires !AllTerminal(r.stops) && AllTerminal(Advance(r, c).rows.stops)
    ensures Advance(r, c).next.Some? && IsAuto(Advance(r, c).next.value)
  {
    match c
    case StopClaim(op, stop) =>
      assert Advance(r, c).rows.stops[stop] == Target(op);
    case PodCommit(key, stop) =>
    case TicketResolve(k, verdict) =>
    case _ =>
  }

  /** A pending auto-complete call on a finished EN_ROUTE delivery goes on, or finishes the delivery. */
  lemma AutoCallFinishes(r: Rows, c: Call)
    requires IsAuto(c) && CallSound(r, c) && r.status == EnRoute && r.stops != map[] && AllTerminal(r.stops)
    ensures c.AutoRead? ==> Advance(r, c) == Go(r, AutoClaim(Evaluate(r.stops).target))
    ensures c.AutoClaim? ==> Evaluate(r.stops) == Finished(c.target) && Advance(r, c).rows == r.(status := c.target)
  {
  }

  lemma StepKeepsNoticing(s: State, a: Action)
    requires Sound(s) && !Lost(s) && s.rows.status == EnRoute
    ensures !Lost(Next(s, a))
  {
    var t := Next(s, a);
    if t.rows.status == EnRoute && Finishable(t) {
      if AllTerminal(s.rows.stops) {
        SoundStep(s, a);
        var id :| id in s.calls && IsAuto(s.calls[id]);
        if a.Step? && a.id == id {
          AutoCallFinishes(s.rows, s.calls[id]);
          assert t.calls[id].AutoClaim?;
        } else {
          AutoStaysPending(s, a, id);
        }
      } else {
        LastStopSchedules(s.rows, s.calls[a.id]);
        assert IsAuto(t.calls[a.id]);
      }
    }
  }

  /** Exactly one kind of step loses a completion. */
  lemma LostOnlyByStart(s: State, a: Action)
    requires Sound(s) && !Lost(s)
    ensures Lost(Next(s, a)) <==> LosingStart(s, a)
  {
    if s.rows.status == EnRoute { StepKeepsNoticing(s, a); } else { OnlyStartOpens(s, a); }
  }

  ghost predicate EverLost(s: State, run: seq<Action>)
    decreases run
  {
    Lost(s) || (run != [] && EverLost(Next(s, run[0]), run[1..]))
  }

  ghost predicate HasLosingStart(s: State, run: seq<Action>)
    decreases run
  {
    run != [] && (LosingStart(s, run[0]) || HasLosingStart(Next(s, run[0]), run[1..]))
  }

  /** No completion is lost in a run, unless the run starts a delivery that had nothing left to deliver. */
  lemma {:induction false} NoLostCompletion(s: State, run: seq<Action>)
    requires Sound(s) && !Lost(s)
    ensures EverLost(s, run) <==> HasLosingStart(s, run)
    decreases run
  {
    if run != [] {
      SoundStep(s, run[0]);
      LostOnlyByStart(s, run[0]);
      if !LosingStart(s, run[0]) {
        NoLostCompletion(Next(s, run[0]), run[1..]);
      } else {
        assert EverLost(Next(s, run[0]), run[1..]);
      }
    }
  }

  /** Once no auto-complete call is pending any more, an EN_ROUTE delivery still has an open stop. */
  lemma DrainedMeansUnfinished(ids: set<StopId>, run: seq<Action>)
    requires !HasLosingStart(Created(ids), run)
    requires !AutoPending(Run(Created(ids), run)) && Run(Created(ids), run).rows.status == EnRoute
    ensures Evaluate(Run(Created(ids), run).rows.stops) == Unfinished
  {
    NoLostCompletion(Created(ids), run);
    NeverLostAtEnd(Created(ids), run);
  }

  lemma {:induction false} NeverLostAtEnd(s: State, run: seq<Action>)
    requires !EverLost(s, run)
    ensures !Lost(Run(s, run))
    decreases run
  {
    if run != [] { NeverLostAtEnd(Next(s, run[0]), run[1..]); }
  }

  /** Letting one pending auto-complete call run to its end closes a finished delivery with the right verdict. */
  lemma PendingCallCloses(s: State, id: nat)
    requires Sound(s) && s.rows.status == EnRoute && Finishable(s)
    requires id in s.calls && IsAuto(s.calls[id])
    ensures var run := if s.calls[id].AutoRead? then [Step(id), Step(id)] else [Step(id)];
            Run(s, run).rows == s.rows.(status := Evaluate(s.rows.stops).target)
  {
    AutoCallFinishes(s.rows, s.calls[id]);
    if s.calls[id].AutoRead? {
      var t := Next(s, Step(id));
      SoundStep(s, Step(id));
      AutoCallFinishes(t.rows, t.calls[id]);
      assert Run(s, [Step(id), Step(id)]) == Run(t, [Step(id)]);
      assert Run(t, [Step(id)]) == Next(t, Step(id));
    } else {
      assert Run(s, [Step(id)]) == Next(s, Step(id));
    }
  }

  /** The exception happens: skip the only stop of a draft, let its auto-complete call give up, then start. */
  lemma SkippedBeforeStartIsLost(stop: StopId)
    ensures var run := [Begin(0, StopRequest(Skip, stop)), Step(0), Step(0), Step(0), Assign, Accept, Start];
            Lost(Run(Created({stop}), run))
  {
    var s0 := Created({stop});
    var s1 := Next(s0, Begin(0, StopRequest(Skip, stop)));
    var s2 := Next(s1, Step(0));
    assert s2.calls[0] == AutoRead && s2.rows.stops[stop] == Skipped;
    var s3 := Next(s2, Step(0));
    assert s3.calls[0].AutoClaim?;
    var s4 := Next(s3, Step(0));
    assert 0 !in s4.calls && s4.rows.status == Draft;
    var s7 := Next(Next(Next(s4, Assign), Accept), Start);
    assert Lost(s7);
    assert Run(s4, [Assign, Accept, Start]) == s7;
    assert Run(s2, [Step(0), Step(0), Assign, Accept, Start]) == s7;
    assert Run(s0, [Begin(0, StopRequest(Skip, stop)), Step(0), Step(0), Step(0), Assign, Accept, Start]) == s7;
  }
}
