/** What every interleaving keeps: verdicts are sound, terminal states have one way out, stops only advance. */
module DeliverySafety {
  import opened Wrappers
  import opened DeliveryRows

  // ---- The invariant

  /** COMPLETED means delivered somewhere, FAILED means delivered nowhere, both with every stop finished. */
  ghost predicate VerdictSound(r: Rows) {
    && (r.status == Completed ==> AllTerminal(r.stops) && SomeDelivered(r.stops))
    && (r.status == Failed ==> r.stops != map[] && AllTerminal(r.stops) && !SomeDelivered(r.stops))
  }

  predicate CancelledOrCompleted(s: DeliveryStatus) {
    s == Cancelled || s == Completed
  }

  /** A conflict ticket exists only for a delivery that was cancelled and may since have been overridden. */
  ghost predicate TicketsSound(r: Rows) {
    forall t | t in r.tickets :: t < r.nextId && r.tickets[t].stop in r.stops && CancelledOrCompleted(r.status)
  }

  /** A verdict read earlier is still right, or can no longer be claimed. */
  ghost predicate VerdictStands(r: Rows, target: DeliveryStatus) {
    && r.stops != map[]
    && AllTerminal(r.stops)
    && (target == Completed || target == Failed)
    && (target == Completed ==> SomeDelivered(r.stops))
    && (target == Failed && SomeDelivered(r.stops) ==> CancelledOrCompleted(r.status))
  }

  ghost predicate CallSound(r: Rows, c: Call) {
    match c
    case AutoClaim(t) => VerdictStands(r, t)
    case ManualClaim(t) => VerdictStands(r, t)
    case TicketWrite(stop, _) => stop in r.stops && CancelledOrCompleted(r.status)
    case TicketResolve(t, _) => t in r.tickets
    case _ => true
  }

  ghost predicate RowsSound(r: Rows) {
    VerdictSound(r) && TicketsSound(r)
  }

  ghost predicate Sound(s: State) {
    RowsSound(s.rows) && forall id | id in s.calls :: CallSound(s.rows, s.calls[id])
  }

  // ---- One step

  /** How far one step, or a whole run, can move a delivery. */
  ghost predicate Evolves(r: Rows, t: Rows) {
    && t.stops.Keys == r.stops.Keys
    && (forall id | id in r.stops && TerminalStop(r.stops[id]) :: TerminalStop(t.stops[id]))
    && (forall id | id in r.stops && r.stops[id] == Delivered :: t.stops[id] == Delivered)
    && (TerminalDelivery(r.status) ==> t.status == r.status || (r.status == Cancelled && t.status == Completed))
    && r.tickets.Keys <= t.tickets.Keys
    && (AllTerminal(r.stops) && !SomeDelivered(r.stops) && SomeDelivered(t.stops) ==> CancelledOrCompleted(t.status))
  }

  /** A stop write that starts from an unfinished stop, or a delivery on a cancelled or completed one. */
  lemma StopWriteEvolves(r: Rows, t: Rows, stop: StopId, to: StopStatus)
    requires stop in r.stops && t.stops == r.stops[stop := to]
    requires !TerminalStop(r.stops[stop]) || (to == Delivered && CancelledOrCompleted(t.status))
    requires t.status == r.status || (CancelledOrCompleted(r.status) && t.status == Completed)
    requires r.tickets.Keys <= t.tickets.Keys
    ensures Evolves(r, t)
  {
  }

  lemma WriteEvolves(r: Rows, a: Action)
    requires RowsSound(r)
    ensures Evolves(r, Write(r, a)) && RowsSound(Write(r, a))
  {
  }

  lemma ResolveEvolves(r: Rows, t: nat, verdict: ConflictStatus)
    requires RowsSound(r)
    ensures Evolves(r, CommitResolve(r, t, verdict)) && RowsSound(CommitResolve(r, t, verdict))
    ensures CommitResolve(r, t, verdict) != r ==> CancelledOrCompleted(r.status) && CancelledOrCompleted(CommitResolve(r, t, verdict).status)
  {
    if t in r.tickets && verdict == Overridden {
      StopWriteEvolves(r, CommitResolve(r, t, verdict), r.tickets[t].stop, Delivered);
    }
  }

  lemma ClaimEvolves(r: Rows, target: DeliveryStatus)
    requires RowsSound(r) && VerdictStands(r, target)
    ensures Evolves(r, ClaimDelivery(r, target)) && RowsSound(ClaimDelivery(r, target))
  {
  }

  lemma StopClaimEvolves(r: Rows, op: StopOp, stop: StopId)
    requires RowsSound(r)
    ensures Evolves(r, ClaimStop(r, op, stop).rows) && RowsSound(ClaimStop(r, op, stop).rows)
    ensures ClaimStop(r, op, stop).rows != r ==>
              !TerminalDelivery(r.status) && stop in r.stops && !TerminalStop(r.stops[stop])
  {
    var t := ClaimStop(r, op, stop).rows;
    if t != r { StopWriteEvolves(r, t, stop, Target(op)); }
  }

  lemma PodCommitEvolves(r: Rows, key: Option<Key>, stop: StopId)
    requires RowsSound(r)
    ensures Evolves(r, CommitPod(r, key, stop).rows) && RowsSound(CommitPod(r, key, stop).rows)
    ensures CommitPod(r, key, stop).rows != r ==>
              !TerminalDelivery(r.status) && stop in r.stops && r.stops[stop] in {Arrived, Unloading}
  {
    var t := CommitPod(r, key, stop).rows;
    if t != r { StopWriteEvolves(r, t, stop, Delivered); }
  }

  lemma CallEvolves(r: Rows, c: Call)
    requires RowsSound(r) && CallSound(r, c)
    ensures Evolves(r, Advance(r, c).rows) && RowsSound(Advance(r, c).rows)
  {
    match c
    case StopClaim(op, stop) => StopClaimEvolves(r, op, stop);
    case AutoClaim(t) => ClaimEvolves(r, t);
    case ManualClaim(t) => ClaimEvolves(r, t);
    case PodCommit(key, stop) => PodCommitEvolves(r, key, stop);
    case TicketResolve(k, verdict) => ResolveEvolves(r, k, verdict);
    case _ =>
  }

  lemma NextCallSound(r: Rows, c: Call)
    requires RowsSound(r) && CallSound(r, c) && Advance(r, c).next.Some?
    ensures CallSound(Advance(r, c).rows, Advance(r, c).next.value)
  {
  }

  /** What another request has read stays good while this one moves the rows. */
  lemma CallStaysSound(r: Rows, t: Rows, c: Call)
    requires Evolves(r, t) && CallSound(r, c)
    ensures CallSound(t, c)
  {
    if SomeDelivered(r.stops) {
      var id :| id in r.stops && r.stops[id] == Delivered;
      assert t.stops[id] == Delivered;
    }
  }

  /** Every step of every request keeps the invariant. */
  lemma SoundStep(s: State, a: Action)
    requires Sound(s)
    ensures Sound(Next(s, a)) && Evolves(s.rows, Next(s, a).rows)
  {
    var t := Next(s, a);
    match a
    case Begin(id, q) =>
    case Step(id) =>
      if id in s.calls {
        CallEvolves(s.rows, s.calls[id]);
        if Advance(s.rows, s.calls[id]).next.Some? { NextCallSound(s.rows, s.calls[id]); }
        forall k | k in s.calls ensures CallSound(t.rows, s.calls[k]) {
          CallStaysSound(s.rows, t.rows, s.calls[k]);
        }
      }
    case _ =>
      WriteEvolves(s.rows, a);
      forall k | k in s.calls ensures CallSound(t.rows, s.calls[k]) {
        CallStaysSound(s.rows, t.rows, s.calls[k]);
      }
  }

  // ---- Whole runs

  lemma EvolvesTransitive(r: Rows, t: Rows, u: Rows)
    requires Evolves(r, t) && Evolves(t, u)
    ensures Evolves(r, u)
  {
    if AllTerminal(r.stops) {
      assert AllTerminal(t.stops);
    }
  }

  /** Safety of every run, and what no run undoes: finished stops, DELIVERED stops, a terminal delivery. */
  lemma {:induction false} RunSound(s: State, run: seq<Action>)
    requires Sound(s)
    ensures Sound(Run(s, run)) && Evolves(s.rows, Run(s, run).rows)
    decreases run
  {
    if run != [] {
      SoundStep(s, run[0]);
      RunSound(Next(s, run[0]), run[1..]);
      EvolvesTransitive(s.rows, Next(s, run[0]).rows, Run(s, run).rows);
    }
  }

  /** From a new delivery, whatever runs: a COMPLETED or FAILED verdict is the one its stops call for. */
  lemma VerdictsAreRight(ids: set<StopId>, run: seq<Action>)
    ensures VerdictSound(Run(Created(ids), run).rows)
    ensures var r := Run(Created(ids), run).rows;
            r.status == Completed || r.status == Failed ==> Evaluate(r.stops) == Finished(r.status)
    ensures var r := Run(Created(ids), run).rows;
            r.tickets != map[] ==> CancelledOrCompleted(r.status)
  {
    RunSound(Created(ids), run);
    var r := Run(Created(ids), run).rows;
    if r.tickets != map[] { var t :| t in r.tickets; }
  }

  /** A completion or cancellation claim that finds the delivery still open. */
  predicate Wins(s: State, a: Action) {
    || (a == Cancel && !TerminalDelivery(s.rows.status))
    || (a.Step? && a.id in s.calls && (s.calls[a.id].AutoClaim? || s.calls[a.id].ManualClaim?)
        && s.rows.status == EnRoute)
  }

  function Winners(s: State, run: seq<Action>): nat
    decreases run
  {
    if run == [] then 0 else (if Wins(s, run[0]) then 1 else 0) + Winners(Next(s, run[0]), run[1..])
  }

  /** The only way out of a terminal status, and the only ways into one. */
  lemma StatusMoves(s: State, a: Action)
    requires Sound(s)
    ensures !TerminalDelivery(s.rows.status) ==> (TerminalDelivery(Next(s, a).rows.status) <==> Wins(s, a))
    ensures TerminalDelivery(s.rows.status) && Next(s, a).rows.status != s.rows.status ==>
              && s.rows.status == Cancelled && Next(s, a).rows.status == Completed
              && a.Step? && a.id in s.calls && s.calls[a.id].TicketResolve? && s.calls[a.id].verdict == Overridden
  {
    SoundStep(s, a);
    if a.Step? && a.id in s.calls && s.calls[a.id].TicketResolve? {
      ResolveEvolves(s.rows, s.calls[a.id].ticket, s.calls[a.id].verdict);
    }
  }

  /** Complete, auto-complete and cancel together claim a delivery at most once in any run. */
  lemma {:induction false} OneWinner(s: State, run: seq<Action>)
    requires Sound(s)
    ensures Winners(s, run) <= if TerminalDelivery(s.rows.status) then 0 else 1
    decreases run
  {
    if run != [] {
      SoundStep(s, run[0]);
      StatusMoves(s, run[0]);
      OneWinner(Next(s, run[0]), run[1..]);
    }
  }

  // ---- The diagrams

  predicate IsOverride(s: State, a: Action, stop: StopId) {
    && a.Step? && a.id in s.calls && s.calls[a.id].TicketResolve? && s.calls[a.id].verdict == Overridden
    && s.calls[a.id].ticket in s.rows.tickets && s.rows.tickets[s.calls[a.id].ticket].stop == stop
  }

  /** How a stop can move without an override; no cycle, and nothing after the last three. */
  predicate StopMove(from: StopStatus, to: StopStatus) {
    (from, to) in {
      (Waiting, Departed), (Waiting, Arrived), (Departed, Arrived), (Arrived, Unloading),
      (Waiting, Skipped),
      (Departed, StopFailed), (Arrived, StopFailed), (Unloading, StopFailed),
      (Arrived, Delivered), (Unloading, Delivered)
    }
  }

  lemma CallMovesStop(r: Rows, c: Call, stop: StopId)
    requires stop in r.stops && !c.TicketResolve?
    ensures var t := Advance(r, c).rows;
            stop in t.stops && (t.stops[stop] == r.stops[stop] || (StopMove(r.stops[stop], t.stops[stop]) && !TerminalDelivery(r.status)))
  {
  }

  /** In every step a stop stays, moves along the diagram while its delivery is open, or is delivered by an override of
      its own ticket. */
  lemma StopDiagram(s: State, a: Action, stop: StopId)
    requires Sound(s) && stop in s.rows.stops
    ensures var t := Next(s, a).rows;
            && stop in t.stops
            && var from, to := s.rows.stops[stop], t.stops[stop];
               from == to || (StopMove(from, to) && !TerminalDelivery(s.rows.status)) || (IsOverride(s, a, stop) && to == Delivered)
  {
    if a.Step? && a.id in s.calls && !s.calls[a.id].TicketResolve? { CallMovesStop(s.rows, s.calls[a.id], stop); }
  }

  predicate StatusMove(from: DeliveryStatus, to: DeliveryStatus) {
    || (from, to) in {(Draft, Assigned), (Assigned, Accepted), (Accepted, EnRoute), (EnRoute, Completed), (EnRoute, Failed)}
    || (!TerminalDelivery(from) && to == Cancelled)
  }

  /** In every step a delivery stays, moves along the diagram, or is completed by an override after its cancellation. */
  lemma StatusDiagram(s: State, a: Action)
    requires Sound(s)
    ensures var from, to := s.rows.status, Next(s, a).rows.status;
            from == to || StatusMove(from, to) || (exists stop :: IsOverride(s, a, stop) && from == Cancelled && to == Completed)
  {
    SoundStep(s, a);
    if a.Step? && a.id in s.calls && s.calls[a.id].TicketResolve? {
      var c := s.calls[a.id];
      if c.ticket in s.rows.tickets && c.verdict == Overridden {
        assert IsOverride(s, a, s.rows.tickets[c.ticket].stop);
      }
    }
  }
}
