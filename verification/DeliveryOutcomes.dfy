/** What each request comes to when it runs alone, with every status written out, and what a race leaves of it. */
module DeliveryOutcomes {
  import opened Wrappers
  import opened DeliveryRows
  import opened PodOnce
  import opened DeliveryCompletion
  import opened DeliveryStore

  // ---- A request alone

  function Steps(id: nat, n: nat): seq<Action> {
    if n == 0 then [] else [Step(id)] + Steps(id, n - 1)
  }

  /** A request begun under a free id and carried on with nothing in between: none makes more than four calls. */
  function Alone(s: State, id: nat, q: Request): State {
    Run(s, [Begin(id, q)] + Steps(id, 4))
  }

  lemma AloneSteps(s: State, id: nat, q: Request)
    ensures Alone(s, id, q) == Run(Next(s, Begin(id, q)), Steps(id, 4))
  {
    assert ([Begin(id, q)] + Steps(id, 4))[1..] == Steps(id, 4);
  }

  lemma OneStep(s: State, id: nat, n: nat)
    ensures Run(s, Steps(id, n + 1)) == Run(Next(s, Step(id)), Steps(id, n))
  {
    assert Steps(id, n + 1)[1..] == Steps(id, n);
  }

  /** A request that is over takes no more steps. */
  lemma {:induction false} Over(s: State, id: nat, n: nat)
    requires id !in s.calls
    ensures Run(s, Steps(id, n)) == s
  {
    if n > 0 {
      OneStep(s, id, n - 1);
      Over(s, id, n - 1);
    }
  }

  lemma Refused(s: State, id: nat, q: Request)
    requires id !in s.calls && FirstCall(s.rows, q).None?
    ensures Alone(s, id, q) == s
  {
    AloneSteps(s, id, q);
    assert Next(s, Begin(id, q)).calls == s.calls;
    Over(s, id, 4);
  }

  /** A request whose first call ends it. */
  lemma OneCall(s: State, id: nat, q: Request)
    requires id !in s.calls && FirstCall(s.rows, q).Some? && Advance(s.rows, FirstCall(s.rows, q).value).next.None?
    ensures var o := Advance(s.rows, FirstCall(s.rows, q).value);
            Alone(s, id, q) == State(o.rows, s.calls, if o.answer.Some? then s.replies + [o.answer.value] else s.replies)
  {
    AloneSteps(s, id, q);
    var s1 := Next(s, Begin(id, q));
    OneStep(s1, id, 3);
    var s2 := Next(s1, Step(id));
    assert s2.calls == s.calls;
    Over(s2, id, 3);
  }

  /** A request that goes on after its first call. */
  lemma MoreCalls(s: State, id: nat, q: Request) returns (t: State)
    requires id !in s.calls && FirstCall(s.rows, q).Some? && Advance(s.rows, FirstCall(s.rows, q).value).next.Some?
    ensures var o := Advance(s.rows, FirstCall(s.rows, q).value);
            && t == State(o.rows, s.calls[id := o.next.value], if o.answer.Some? then s.replies + [o.answer.value] else s.replies)
            && Alone(s, id, q) == Run(t, Steps(id, 3)) && t.calls - {id} == s.calls
  {
    AloneSteps(s, id, q);
    var s1 := Next(s, Begin(id, q));
    OneStep(s1, id, 3);
    t := Next(s1, Step(id));
    assert t.calls == s.calls[id := t.calls[id]];
  }

  // ---- Completing

  predicate IsOpen(status: DeliveryStatus) {
    status in {Draft, Assigned, Accepted, EnRoute}
  }

  predicate NothingLeft(stops: map<StopId, StopStatus>) {
    stops != map[] && forall id | id in stops :: stops[id] in {Delivered, StopFailed, Skipped}
  }

  /** An EN_ROUTE delivery with nothing left is COMPLETED if a stop was delivered and FAILED if none was. */
  predicate Completes(before: Rows, after: Rows) {
    if before.status == EnRoute && NothingLeft(before.stops) then
      after == before.(status := if exists id | id in before.stops :: before.stops[id] == Delivered then Completed else Failed)
    else after == before
  }

  lemma AutoCarried(s: State, id: nat, n: nat)
    requires id in s.calls && s.calls[id] == AutoRead && n >= 2
    ensures var t := Run(s, Steps(id, n));
            Completes(s.rows, t.rows) && t == State(t.rows, s.calls - {id}, s.replies)
  {
    var s1 := Next(s, Step(id));
    OneStep(s, id, n - 1);
    OneStep(s1, id, n - 2);
    if NothingLeft(s.rows.stops) {
      assert s1.calls[id].AutoClaim?;
      var s2 := Next(s1, Step(id));
      Over(s2, id, n - 2);
      assert s2.calls == s.calls - {id};
    } else {
      Over(s1, id, n - 1);
    }
  }

  /** completeDelivery: an EN_ROUTE delivery with nothing left gets its verdict; otherwise nothing changes. */
  lemma CompleteAlone(s: State, id: nat)
    requires id !in s.calls
    ensures var t := Alone(s, id, CompleteRequest);
            Completes(s.rows, t.rows) && t == s.(rows := t.rows)
  {
    var q := CompleteRequest;
    if s.rows.status != EnRoute {
      Refused(s, id, q);
    } else if !NothingLeft(s.rows.stops) {
      OneCall(s, id, q);
    } else {
      var s2 := MoreCalls(s, id, q);
      OneStep(s2, id, 2);
      var s3 := Next(s2, Step(id));
      assert s3.calls == s.calls;
      Over(s3, id, 2);
    }
  }

  /** So a completion that was lost waits for a manual complete, and that closes the delivery. */
  lemma LostIsCompletable(s: State, id: nat)
    requires Lost(s) && id !in s.calls
    ensures Alone(s, id, CompleteRequest).rows.status in {Completed, Failed}
  {
    CompleteAlone(s, id);
  }

  // ---- Stops

  /** Where an operation takes a stop. */
  function Leads(op: StopOp, from: StopStatus): Option<StopStatus> {
    match (op, from)
    case (Depart, Waiting) => Some(Departed)
    case (Arrive, Waiting) => Some(Arrived)
    case (Arrive, Departed) => Some(Arrived)
    case (Unload, Arrived) => Some(Unloading)
    case (Fail, Departed) => Some(StopFailed)
    case (Fail, Arrived) => Some(StopFailed)
    case (Fail, Unloading) => Some(StopFailed)
    case (Skip, Waiting) => Some(Skipped)
    case _ => None
  }

  /** Driving needs an EN_ROUTE delivery, everything else one that is open. */
  predicate Allows(op: StopOp, delivery: DeliveryStatus) {
    if op == Depart || op == Arrive then delivery == EnRoute else IsOpen(delivery)
  }

  /** The stop moves; failing or skipping it then completes the delivery if nothing is left. */
  predicate Moves(before: Rows, after: Rows, op: StopOp, stop: StopId) {
    if stop in before.stops && Allows(op, before.status) && Leads(op, before.stops[stop]).Some? then
      var moved := before.(stops := before.stops[stop := Leads(op, before.stops[stop]).value]);
      if op == Fail || op == Skip then Completes(moved, after) else after == moved
    else after == before
  }

  /** A stop operation alone: the stop moves where the diagram leads, or is refused and nothing changes. */
  lemma StopAlone(s: State, id: nat, op: StopOp, stop: StopId)
    requires id !in s.calls
    ensures var t := Alone(s, id, StopRequest(op, stop));
            Moves(s.rows, t.rows, op, stop) && t == s.(rows := t.rows)
  {
    var q := StopRequest(op, stop);
    if FirstCall(s.rows, q).None? {
      Refused(s, id, q);
    } else if op == Fail || op == Skip {
      var s2 := MoreCalls(s, id, q);
      AutoCarried(s2, id, 3);
    } else {
      OneCall(s, id, q);
    }
  }

  /** In any interleaving: a stop operation that was let in moves its stop exactly if the diagram still leads on from
      where the stop is by now and the delivery is still open. */
  lemma StopClaimed(s: State, id: nat)
    requires id in s.calls && s.calls[id].StopClaim?
    ensures var StopClaim(op, stop) := s.calls[id];
            Next(s, Step(id)).rows ==
              if stop in s.rows.stops && IsOpen(s.rows.status) && Leads(op, s.rows.stops[stop]).Some?
              then s.rows.(stops := s.rows.stops[stop := Leads(op, s.rows.stops[stop]).value])
              else s.rows
  {
  }

  // ---- Proof of delivery

  /** A POD under a new id, with its record, for a stop that it delivers. */
  predicate Submits(before: Rows, after: Rows, key: Option<Key>, stop: StopId) {
    Completes(Rows(before.status, before.stops[stop := Delivered], before.pods[stop := Pod(before.nextId, key)],
                   if key.Some? then before.records[key.value := PodBody(stop, before.nextId)] else before.records,
                   before.tickets, before.nextId + 1),
              after)
  }

  /** submitPod alone: a replay of the record, the POD of a delivered stop, a new POD, or a refusal. */
  lemma SubmitAlone(s: State, id: nat, key: Option<Key>, stop: StopId)
    requires id !in s.calls && RowsOnce(s.rows)
    ensures var t := Alone(s, id, PodRequest(key, stop));
            if stop !in s.rows.stops then t == s
            else if key.Some? && key.value in s.rows.records then
              t == s.(replies := s.replies + [Answer(key, stop, Some(s.rows.records[key.value].podId))])
            else if s.rows.stops[stop] == Delivered then
              t == s.(replies := s.replies + [Answer(key, stop, if stop in s.rows.pods then Some(s.rows.pods[stop].id) else None)])
            else if s.rows.stops[stop] in {Arrived, Unloading} && IsOpen(s.rows.status) then
              && Submits(s.rows, t.rows, key, stop)
              && t == State(t.rows, s.calls, s.replies + [Answer(key, stop, Some(s.rows.nextId))])
            else t == s
  {
    var q := PodRequest(key, stop);
    if stop !in s.rows.stops {
      Refused(s, id, q);
    } else if Advance(s.rows, FirstCall(s.rows, q).value).next.None? {
      OneCall(s, id, q);
    } else {
      var s2 := MoreCalls(s, id, q);
      if s.rows.stops[stop] == Delivered { FetchCarried(s2, id); } else { CommitCarried(s2, id); }
    }
  }

  lemma FetchCarried(s: State, id: nat)
    requires id in s.calls && s.calls[id].PodFetch?
    ensures var PodFetch(key, stop) := s.calls[id];
            Run(s, Steps(id, 3)) ==
              State(s.rows, s.calls - {id},
                    s.replies + [Answer(key, stop, if stop in s.rows.pods then Some(s.rows.pods[stop].id) else None)])
  {
    OneStep(s, id, 2);
    Over(Next(s, Step(id)), id, 2);
  }

  lemma CommitCarried(s: State, id: nat)
    requires id in s.calls && s.calls[id].PodCommit? && RowsOnce(s.rows)
    requires var PodCommit(key, stop) := s.calls[id];
             && stop in s.rows.stops && s.rows.stops[stop] in {Arrived, Unloading} && IsOpen(s.rows.status)
             && (key.Some? ==> key.value !in s.rows.records)
    ensures var PodCommit(key, stop) := s.calls[id];
            var t := Run(s, Steps(id, 3));
            && Submits(s.rows, t.rows, key, stop)
            && t == State(t.rows, s.calls - {id}, s.replies + [Answer(key, stop, Some(s.rows.nextId))])
  {
    PodIndexNeverFires(s.rows, s.calls[id].stop);
    OneStep(s, id, 2);
    var s2 := Next(s, Step(id));
    AutoCarried(s2, id, 2);
    assert s2.calls - {id} == s.calls - {id};
  }

  /** A submit that reaches its transaction after another one has recorded its key answers with that one's POD. */
  lemma LateSubmitReplays(s: State, id: nat)
    requires RowsOnce(s.rows) && id in s.calls && s.calls[id].PodCommit?
    requires s.calls[id].key.Some? && s.calls[id].key.value in s.rows.records
    ensures var PodCommit(key, stop) := s.calls[id];
            Run(s, Steps(id, 2))
            == State(s.rows, s.calls - {id}, s.replies + [Answer(key, stop, Some(s.rows.records[key.value].podId))])
  {
    OneStep(s, id, 1);
    var s1 := Next(s, Step(id));
    OneStep(s1, id, 0);
    assert s1.calls[id] == PodReplay(s.calls[id].key, s.calls[id].stop);
    assert s1.calls - {id} == s.calls - {id};
  }

  // ---- Conflicts

  /** An offline event for a stop of a cancelled delivery, alone: an OPEN ticket under a new id. */
  lemma ReportAlone(s: State, id: nat, stop: StopId, receiver: bool)
    requires id !in s.calls
    ensures Alone(s, id, OutboxRequest(stop, receiver)) ==
              if stop in s.rows.stops && s.rows.status == Cancelled
              then s.(rows := s.rows.(tickets := s.rows.tickets[s.rows.nextId := Ticket(stop, receiver, Open)],
                                      nextId := s.rows.nextId + 1))
              else s
  {
    var q := OutboxRequest(stop, receiver);
    if FirstCall(s.rows, q).None? { Refused(s, id, q); } else { OneCall(s, id, q); }
  }

  /** In any interleaving: an event that was read as a conflict is filed even if an override has completed the delivery. */
  lemma TicketFiledLate(s: State, id: nat)
    requires id in s.calls && s.calls[id].TicketWrite?
    ensures var TicketWrite(stop, receiver) := s.calls[id];
            Next(s, Step(id)) == State(s.rows.(tickets := s.rows.tickets[s.rows.nextId := Ticket(stop, receiver, Open)],
                                               nextId := s.rows.nextId + 1), s.calls - {id}, s.replies)
  {
  }

  /** A resolution sets its ticket. An override also delivers the ticket's stop, with a POD if the ticket names a receiver
      and there is none, and completes the delivery, whatever its status, if nothing is left; a discard does no more. */
  predicate Resolves(before: Rows, after: Rows, k: nat, verdict: ConflictStatus)
    requires k in before.tickets
  {
    var Ticket(stop, receiver, _) := before.tickets[k];
    && after.tickets == before.tickets[k := Ticket(stop, receiver, verdict)]
    && after.records == before.records
    && if verdict == Overridden && stop in before.stops then
         && after.stops == before.stops[stop := Delivered]
         && after.status == (if NothingLeft(after.stops) then Completed else before.status)
         && (if receiver && stop !in before.pods
             then after.pods == before.pods[stop := Pod(before.nextId, None)] && after.nextId == before.nextId + 1
             else after.pods == before.pods && after.nextId == before.nextId)
       else
         && after.stops == before.stops && after.status == before.status
         && after.pods == before.pods && after.nextId == before.nextId
  }

  /** In any interleaving, even after another resolution of the ticket: nothing is checked again. */
  lemma ResolveStep(s: State, id: nat)
    requires id in s.calls && s.calls[id].TicketResolve? && s.calls[id].ticket in s.rows.tickets
    ensures var t := Next(s, Step(id));
            Resolves(s.rows, t.rows, s.calls[id].ticket, s.calls[id].verdict) && t == State(t.rows, s.calls - {id}, s.replies)
  {
    var TicketResolve(k, verdict) := s.calls[id];
    var stop := s.rows.tickets[k].stop;
    if verdict == Overridden && stop in s.rows.stops {
      assert s.rows.stops[stop := Delivered][stop] == Delivered;
    }
  }

  lemma ResolveAlone(s: State, id: nat, k: nat, verdict: ConflictStatus)
    requires id !in s.calls
    ensures var t := Alone(s, id, ResolveRequest(k, verdict));
            if k in s.rows.tickets && s.rows.tickets[k].status == Open
            then Resolves(s.rows, t.rows, k, verdict) && t == s.(rows := t.rows)
            else t == s
  {
    var q := ResolveRequest(k, verdict);
    if FirstCall(s.rows, q).None? {
      Refused(s, id, q);
    } else {
      OneCall(s, id, q);
      var s1 := Next(s, Begin(id, q));
      assert s1.calls[id] == TicketResolve(k, verdict);
      ResolveStep(s1, id);
    }
  }

  // ---- Writes of one step

  /** Assign, accept and start move DRAFT to ASSIGNED to ACCEPTED to EN_ROUTE, cancel any open delivery to CANCELLED; out of
      turn they change nothing. */
  function Written(a: Action, from: DeliveryStatus): DeliveryStatus {
    match (a, from)
    case (Assign, Draft) => Assigned
    case (Accept, Assigned) => Accepted
    case (Start, Accepted) => EnRoute
    case (Cancel, _) => if IsOpen(from) then Cancelled else from
    case _ => from
  }

  lemma WritesExact(s: State, a: Action)
    requires a in {Assign, Accept, Start, Cancel}
    ensures Next(s, a) == s.(rows := s.rows.(status := Written(a, s.rows.status)))
  {
    WritesStatusOnly(s.rows, a);
    assert Next(s, a) == s.(rows := Write(s.rows, a));
    assert Write(s.rows, a).status == Written(a, s.rows.status);
  }

  // ---- The outbox

  /** The operation a stop event asks for. */
  predicate AsksFor(kind: EventKind, op: StopOp) {
    (kind, op) in {(DepartEvent, Depart), (ArriveEvent, Arrive), (UnloadEvent, Unload)}
  }

  predicate InConflict(r: Rows, e: OutboxEvent) {
    r.status == Cancelled && e.stop.Some? && e.stop.value in r.stops
  }

  /** A stop event does its operation and is acknowledged exactly when it did. */
  lemma StopEventSynced(y: Synced, e: OutboxEvent, op: StopOp)
    requires e.stop.Some? && AsksFor(e.kind, op) && !InConflict(y.rows, e)
    ensures var z := SyncOne(y, e);
            && Moves(y.rows, z.rows, op, e.stop.value)
            && z == Synced(z.rows, if z.rows != y.rows then y.acked + [e.clientId] else y.acked, y.conflicts)
  {
  }

  lemma AutoFinishes(r: Rows)
    ensures Completes(r, Finish(r, AutoRead).0) && !Finish(r, AutoRead).1
  {
    if NothingLeft(r.stops) {
      var c := Advance(r, AutoRead).next.value;
      assert c.AutoClaim?;
      assert Finish(r, c) == (Advance(r, c).rows, false);
    }
  }

  lemma CommitFinishes(r: Rows, key: Option<Key>, stop: StopId)
    requires RowsOnce(r) && stop in r.stops && r.stops[stop] in {Arrived, Unloading} && IsOpen(r.status)
    requires key.Some? ==> key.value !in r.records
    ensures Submits(r, Finish(r, PodCommit(key, stop)).0, key, stop) && Finish(r, PodCommit(key, stop)).1
  {
    PodIndexNeverFires(r, stop);
    AutoFinishes(Advance(r, PodCommit(key, stop)).rows);
  }

  /** A POD event submits, and is acknowledged when it is answered: with a replay, a delivered stop's POD or a new one. */
  lemma PodEventSynced(y: Synced, e: OutboxEvent)
    requires e.stop.Some? && e.kind == PodEvent && !InConflict(y.rows, e) && RowsOnce(y.rows)
    ensures var z, r, stop := SyncOne(y, e), y.rows, e.stop.value;
            if stop in r.stops && ((e.key.Some? && e.key.value in r.records) || r.stops[stop] == Delivered) then
              z == y.(acked := y.acked + [e.clientId])
            else if stop in r.stops && r.stops[stop] in {Arrived, Unloading} && IsOpen(r.status) then
              && Submits(r, z.rows, e.key, stop)
              && z == Synced(z.rows, y.acked + [e.clientId], y.conflicts)
            else z == y
  {
    var r := y.rows;
    if e.stop.value in r.stops {
      var stop := e.stop.value;
      var c := PodLookup(e.key, stop, r.stops[stop], r.status);
      var o := Advance(r, c);
      if o.next == Some(PodCommit(e.key, stop)) {
        CommitFinishes(r, e.key, stop);
      } else if o.next.Some? {
        assert Finish(r, PodFetch(e.key, stop)) == (r, true);
      }
    }
  }

  /** An event that names no stop, or is of no known kind, is acknowledged and does nothing. */
  lemma OtherEventAcknowledged(y: Synced, e: OutboxEvent)
    requires (e.stop.None? || e.kind.OtherEvent?) && !InConflict(y.rows, e)
    ensures SyncOne(y, e) == y.(acked := y.acked + [e.clientId])
  {
  }

  /** The events of a sync take their turns in order. */
  lemma SyncedInOrder(r: Rows, events: seq<OutboxEvent>, e: OutboxEvent)
    ensures SyncAll(r, []) == Synced(r, [], [])
    ensures SyncAll(r, events + [e]) == SyncOne(SyncAll(r, events), e)
  {
    assert (events + [e])[..|events|] == events;
  }
}
