/** The delivery tables and the services that write them: one method per database call, one for the outbox loop. */
module DeliveryStore {
  import opened Wrappers
  import opened DeliveryRows

  datatype EventKind = DepartEvent | ArriveEvent | UnloadEvent | PodEvent | OtherEvent

  /** An offline event; `stop` is the stop its payload names, if any, `receiver` whether it names a receiver. */
  datatype OutboxEvent = OutboxEvent(clientId: string, kind: EventKind, stop: Option<StopId>, receiver: bool, key: Option<Key>)

  // ---- Requests with nothing else running

  function Rank(c: Call): nat {
    match c
    case PodLookup(_, _, _, _) => 4
    case PodCommit(_, _) => 3
    case StopClaim(_, _) => 3
    case AutoRead => 2
    case ManualRead => 2
    case _ => 1
  }

  /** A request run to its end: the rows, and whether it was answered or wrote a stop rather than refused. */
  function Finish(r: Rows, c: Call): (Rows, bool)
    decreases Rank(c)
  {
    var o := Advance(r, c);
    var ok := o.answer.Some? || o.rows.stops != r.stops;
    if o.next.Some? then
      var rest := Finish(o.rows, o.next.value);
      (rest.0, ok || rest.1)
    else (o.rows, ok)
  }

  function RequestOf(e: OutboxEvent): Request
    requires e.stop.Some? && !e.kind.OtherEvent?
  {
    match e.kind
    case DepartEvent => StopRequest(Depart, e.stop.value)
    case ArriveEvent => StopRequest(Arrive, e.stop.value)
    case UnloadEvent => StopRequest(Unload, e.stop.value)
    case PodEvent => PodRequest(e.key, e.stop.value)
  }

  /** The rows after an outbox sync and its reply. */
  datatype Synced = Synced(rows: Rows, acked: seq<string>, conflicts: seq<(string, nat)>)

  predicate Names(stops: map<StopId, StopStatus>, e: OutboxEvent) {
    e.stop.Some? && e.stop.value in stops
  }

  function SyncOne(y: Synced, e: OutboxEvent): Synced {
    if Names(y.rows.stops, e) && y.rows.status == Cancelled then
      y.(rows := Advance(y.rows, TicketWrite(e.stop.value, e.receiver)).rows,
         conflicts := y.conflicts + [(e.clientId, y.rows.nextId)])
    else if e.stop.None? || e.kind.OtherEvent? then y.(acked := y.acked + [e.clientId])
    else
      var c := FirstCall(y.rows, RequestOf(e));
      if c.None? then y
      else
        var f := Finish(y.rows, c.value);
        y.(rows := f.0, acked := if f.1 then y.acked + [e.clientId] else y.acked)
  }

  function SyncAll(r: Rows, events: seq<OutboxEvent>): Synced {
    if events == [] then Synced(r, [], [])
    else SyncOne(SyncAll(r, events[..|events| - 1]), events[|events| - 1])
  }

  function Naming(stops: map<StopId, StopStatus>, events: seq<OutboxEvent>): seq<OutboxEvent> {
    if events == [] then []
    else
      var last := events[|events| - 1];
      Naming(stops, events[..|events| - 1]) + if Names(stops, last) then [last] else []
  }

  /** The tickets filed for the named events are the only change to the rows. */
  ghost predicate Filed(r: Rows, y: Synced, named: seq<OutboxEvent>) {
    && y.rows == r.(tickets := y.rows.tickets, nextId := r.nextId + |named|)
    && |y.conflicts| == |named|
    && (forall t | t in r.tickets && t < r.nextId :: t in y.rows.tickets && y.rows.tickets[t] == r.tickets[t])
    && forall k | 0 <= k < |named| :: TicketFiled(r, y, named[k], k)
  }

  /** The k-th conflict is an OPEN ticket with what the event says. */
  ghost predicate TicketFiled(r: Rows, y: Synced, e: OutboxEvent, k: nat)
    requires k < |y.conflicts|
  {
    && y.conflicts[k] == (e.clientId, r.nextId + k)
    && e.stop.Some?
    && r.nextId + k in y.rows.tickets
    && y.rows.tickets[r.nextId + k] == Ticket(e.stop.value, e.receiver, Open)
  }

  lemma OneMoreFiled(r: Rows, y: Synced, named: seq<OutboxEvent>, e: OutboxEvent)
    requires r.status == Cancelled && Filed(r, y, named)
    ensures Filed(r, SyncOne(y, e), named + if Names(r.stops, e) then [e] else [])
  {
    var z := SyncOne(y, e);
    if Names(r.stops, e) {
      var more := named + [e];
      assert z.rows.tickets == y.rows.tickets[y.rows.nextId := Ticket(e.stop.value, e.receiver, Open)];
      forall k | 0 <= k < |more| ensures TicketFiled(r, z, more[k], k) {
        if k < |named| { assert TicketFiled(r, y, named[k], k); }
      }
    } else {
      assert named + [] == named;
      RefusedOnCancelled(y.rows, e);
      forall k | 0 <= k < |named| ensures TicketFiled(r, z, named[k], k) { assert TicketFiled(r, y, named[k], k); }
    }
  }

  /** An event that names no stop of the delivery starts nothing. */
  lemma RefusedOnCancelled(r: Rows, e: OutboxEvent)
    requires !Names(r.stops, e)
    ensures e.stop.Some? && !e.kind.OtherEvent? ==> FirstCall(r, RequestOf(e)) == None
  {
  }

  /** A cancelled delivery keeps its evidence: an OPEN ticket per offline event that names one of its stops, and no
      other change. */
  lemma {:induction false} CancelledOutboxOnlyFilesTickets(r: Rows, events: seq<OutboxEvent>)
    requires r.status == Cancelled
    ensures Filed(r, SyncAll(r, events), Naming(r.stops, events))
  {
    if events != [] {
      var n := |events| - 1;
      CancelledOutboxOnlyFilesTickets(r, events[..n]);
      OneMoreFiled(r, SyncAll(r, events[..n]), Naming(r.stops, events[..n]), events[n]);
    }
  }

  // ---- The services

  class Store {
    var status: DeliveryStatus
    var stops: map<StopId, StopStatus>
    var pods: map<StopId, Pod>
    var records: map<Key, Body>
    var tickets: map<nat, Ticket>
    var nextId: nat

    ghost function View(): Rows
      reads this
    {
      Rows(status, stops, pods, records, tickets, nextId)
    }

    constructor (ids: set<StopId>)
      ensures View() == Created(ids).rows
    {
      status, stops, pods, records, tickets, nextId := Draft, map id | id in ids :: Waiting, map[], map[], map[], 0;
    }

    // ---- deliveries

    method AssignDelivery() returns (ok: bool)
      modifies this
      ensures View() == Write(old(View()), Assign) && ok == (old(status) in {Draft, Assigned})
    {
      if status != Draft && status != Assigned { return false; }
      status := Assigned;
      ok := true;
    }

    method AcceptDelivery() returns (ok: bool)
      modifies this
      ensures View() == Write(old(View()), Accept) && ok == (old(status) == Assigned)
    {
      if status != Assigned { return false; }
      status := Accepted;
      ok := true;
    }

    method StartDelivery() returns (ok: bool)
      modifies this
      ensures View() == Write(old(View()), Start) && ok == (old(status) == Accepted)
    {
      if status != Accepted { return false; }
      status := EnRoute;
      ok := true;
    }

    method CancelDelivery() returns (ok: bool)
      modifies this
      ensures View() == Write(old(View()), Cancel) && ok == !TerminalDelivery(old(status))
    {
      if TerminalDelivery(status) { return false; }
      status := Cancelled;
      ok := true;
    }

    /** The guarded write of completeDelivery and completeDeliveryIfEligible: it reports whether a row matched. */
    method ClaimEnRoute(target: DeliveryStatus) returns (claimed: bool)
      modifies this`status
      ensures View() == ClaimDelivery(old(View()), target) && claimed == (old(status) == EnRoute)
    {
      claimed := status == EnRoute;
      if claimed { status := target; }
    }

    // ---- stops

    method UpdateStopIfOperational(stop: StopId, op: StopOp) returns (updated: bool)
      modifies this`stops
      ensures View() == ClaimStop(old(View()), op, stop).rows
      ensures updated == (stop in old(stops) && old(stops)[stop] in Expected(op) && !TerminalDelivery(status))
    {
      updated := stop in stops && stops[stop] in Expected(op) && !TerminalDelivery(status);
      if updated { stops := stops[stop := Target(op)]; }
    }

    // ---- PODs

    /** The POD transaction. A failed write undoes the ones before it. */
    method CommitPodTx(key: Option<Key>, stop: StopId) returns (next: Option<Call>, answer: Option<Answer>)
      modifies this
      ensures Outcome(View(), next, answer) == CommitPod(old(View()), key, stop)
    {
      next, answer := None, None;
      var stopsBefore, recordsBefore := stops, records;
      if key.Some? {
        if key.value in records { return Some(PodReplay(key, stop)), None; }
        records := records[key.value := PendingBody];
      }
      if stop !in stops || stops[stop] !in {Unloading, Arrived} || TerminalDelivery(status) {
        records := recordsBefore;
        return;
      }
      stops := stops[stop := Delivered];
      if stop in pods {
        stops, records := stopsBefore, recordsBefore;
        if key.Some? { next := Some(PodReplay(key, stop)); }
        return;
      }
      var podId := nextId;
      nextId := nextId + 1;
      pods := pods[stop := Pod(podId, key)];
      if key.Some? { records := records[key.value := PodBody(stop, podId)]; }
      next, answer := Some(AutoRead), Some(Answer(key, stop, Some(podId)));
    }

    method ReplayRecord(key: Key, stop: StopId) returns (answer: Option<Answer>)
      requires key in records
      ensures Outcome(View(), None, answer) == Replay(View(), key, stop)
    {
      answer := Some(Answer(Some(key), stop, if records[key].PodBody? then Some(records[key].podId) else None));
    }

    /** A POD submit up to its transaction: replay, then the checks on what was read of the stop and its delivery. */
    method LookupSubmit(key: Option<Key>, stop: StopId, stopRead: StopStatus, deliveryRead: DeliveryStatus)
      returns (next: Option<Call>, answer: Option<Answer>)
      ensures Outcome(View(), next, answer) == LookupPod(View(), key, stop, stopRead, deliveryRead)
    {
      next, answer := None, None;
      if key.Some? && key.value in records {
        answer := ReplayRecord(key.value, stop);
        return;
      }
      if stopRead == Delivered { return Some(PodFetch(key, stop)), None; }
      if TerminalDelivery(deliveryRead) { return; }
      if stopRead != Unloading && stopRead != Arrived { return; }
      next := Some(PodCommit(key, stop));
    }

    // ---- conflicts

    method CreateTicket(stop: StopId, receiver: bool) returns (ticket: nat)
      modifies this`tickets, this`nextId
      ensures View() == Advance(old(View()), TicketWrite(stop, receiver)).rows && ticket == old(nextId)
    {
      ticket := nextId;
      tickets, nextId := tickets[nextId := Ticket(stop, receiver, Open)], nextId + 1;
    }

    /** The resolve transaction, write by write. */
    method ResolveTx(t: nat, verdict: ConflictStatus)
      modifies this
      ensures View() == CommitResolve(old(View()), t, verdict)
    {
      if t !in tickets { return; }
      var ticket := tickets[t];
      tickets := tickets[t := ticket.(status := verdict)];
      if verdict == Overridden && ticket.stop in stops {
        if ticket.receiver && ticket.stop !in pods {
          pods, nextId := pods[ticket.stop := Pod(nextId, None)], nextId + 1;
        }
        stops := stops[ticket.stop := Delivered];
        if AllTerminal(stops) && SomeDelivered(stops) {
          status := Completed;
        }
      }
    }

    // ---- any call

    /** The next database call of a request, whichever it is. */
    method Perform(c: Call) returns (next: Option<Call>, answer: Option<Answer>)
      modifies this
      ensures Outcome(View(), next, answer) == Advance(old(View()), c)
    {
      next, answer := None, None;
      match c
      case StopClaim(op, stop) =>
        var updated := UpdateStopIfOperational(stop, op);
        if updated && (op == Fail || op == Skip) { next := Some(AutoRead); }
      case AutoRead =>
        var e := Evaluate(stops);
        if e.Finished? { next := Some(AutoClaim(e.target)); }
      case AutoClaim(target) => var _ := ClaimEnRoute(target);
      case ManualRead =>
        var e := Evaluate(stops);
        if e.Finished? { next := Some(ManualClaim(e.target)); }
      case ManualClaim(target) => var _ := ClaimEnRoute(target);
      case PodCommit(key, stop) => next, answer := CommitPodTx(key, stop);
      case TicketWrite(stop, receiver) => var _ := CreateTicket(stop, receiver);
      case TicketResolve(t, verdict) => ResolveTx(t, verdict);
      case PodFetch(key, stop) =>
        answer := Some(Answer(key, stop, if stop in pods then Some(pods[stop].id) else None));
      case PodLookup(key, stop, stopRead, deliveryRead) => next, answer := LookupSubmit(key, stop, stopRead, deliveryRead);
      case PodReplay(key, stop) =>
        if key.Some? && key.value in records { answer := ReplayRecord(key.value, stop); }
    }

    /** A whole request with nothing else running: calls until none is left; `ok` when it ends with a success. */
    method Drive(c: Call) returns (ok: bool)
      modifies this
      ensures (View(), ok) == Finish(old(View()), c)
      decreases Rank(c)
    {
      var stopsBefore := stops;
      var next, answer := Perform(c);
      ok := answer.Some? || stops != stopsBefore;
      if next.Some? {
        var rest := Drive(next.value);
        ok := ok || rest;
      }
    }

    /** The outbox loop: a conflict ticket, an acknowledgement, or nothing, for each event in order. */
    method SyncOutbox(events: seq<OutboxEvent>) returns (acked: seq<string>, conflicts: seq<(string, nat)>)
      modifies this
      ensures Synced(View(), acked, conflicts) == SyncAll(old(View()), events)
    {
      acked, conflicts := [], [];
      var i := 0;
      while i < |events|
        invariant 0 <= i <= |events|
        invariant Synced(View(), acked, conflicts) == SyncAll(old(View()), events[..i])
      {
        var e := events[i];
        assert events[..i + 1][..i] == events[..i];
        if e.stop.Some? && e.stop.value in stops && status == Cancelled {
          var ticket := CreateTicket(e.stop.value, e.receiver);
          conflicts := conflicts + [(e.clientId, ticket)];
        } else {
          var failed := false;
          if e.stop.Some? && !e.kind.OtherEvent? {
            var call := FirstCall(Rows(status, stops, pods, records, tickets, nextId), RequestOf(e));
            if call.None? {
              failed := true;
            } else {
              var ok := Drive(call.value);
              failed := !ok;
            }
          }
          if !failed { acked := acked + [e.clientId]; }
        }
        i := i + 1;
      }
      assert events[..i] == events;
    }
  }
}
