/**
The rows of one delivery, the requests in flight on it, and every atomic step a request can take.

A request handler is cut at its database calls: what it read is remembered in its `Call` until its next
call runs, and any other step may run in between. A guarded `updateMany`, and a whole `$transaction`
that is not cut, are one step.
*/
module DeliveryRows {
  import opened Wrappers

  type StopId = string
  type Key = string

  datatype DeliveryStatus = Draft | Assigned | Accepted | EnRoute | Completed | Cancelled | Failed

  datatype StopStatus = Waiting | Departed | Arrived | Unloading | Delivered | StopFailed | Skipped

  datatype StopOp = Depart | Arrive | Unload | Fail | Skip

  datatype ConflictStatus = Open | Overridden | Discarded

  /** A conflict ticket; `receiver` says whether the stored payload names a receiver. */
  datatype Ticket = Ticket(stop: StopId, receiver: bool, status: ConflictStatus)

  /** A proof-of-delivery row and the idempotency key of the submit that created it. */
  datatype Pod = Pod(id: nat, byKey: Option<Key>)

  /** The response body of an idempotency record. */
  datatype Body = PendingBody | PodBody(stop: StopId, podId: nat)

  /** A successful reply to a POD submit. */
  datatype Answer = Answer(key: Option<Key>, stop: StopId, podId: Option<nat>)

  datatype Rows = Rows(
    status: DeliveryStatus,
    stops: map<StopId, StopStatus>,
    pods: map<StopId, Pod>,
    records: map<Key, Body>,
    tickets: map<nat, Ticket>,
    nextId: nat)

  /** What a client asks for. */
  datatype Request =
    | CompleteRequest
    | StopRequest(op: StopOp, stop: StopId)
    | PodRequest(key: Option<Key>, stop: StopId)
    | OutboxRequest(stop: StopId, receiver: bool)
    | ResolveRequest(ticket: nat, verdict: ConflictStatus)

  /** What a request has read so far and which database call it makes next. */
  datatype Call =
    | StopClaim(op: StopOp, stop: StopId)
    | AutoRead
    | AutoClaim(target: DeliveryStatus)
    | ManualRead
    | ManualClaim(target: DeliveryStatus)
    | PodLookup(key: Option<Key>, stop: StopId, stopRead: StopStatus, deliveryRead: DeliveryStatus)
    | PodFetch(key: Option<Key>, stop: StopId)
    | PodCommit(key: Option<Key>, stop: StopId)
    | PodReplay(key: Option<Key>, stop: StopId)
    | TicketWrite(stop: StopId, receiver: bool)
    | TicketResolve(ticket: nat, verdict: ConflictStatus)

  /** One database call of one request: the rows after it, where the request goes on, what it answered. */
  datatype Outcome = Outcome(rows: Rows, next: Option<Call>, answer: Option<Answer>)

  // ---- Deciding

  predicate TerminalDelivery(s: DeliveryStatus) {
    s == Completed || s == Cancelled || s == Failed
  }

  predicate TerminalStop(s: StopStatus) {
    s == Delivered || s == StopFailed || s == Skipped
  }

  predicate AllTerminal(stops: map<StopId, StopStatus>) {
    forall id | id in stops :: TerminalStop(stops[id])
  }

  predicate SomeDelivered(stops: map<StopId, StopStatus>) {
    exists id | id in stops :: stops[id] == Delivered
  }

  datatype Evaluation = Unfinished | Finished(target: DeliveryStatus)

  /** The completion evaluator shared by every path that finishes a delivery. */
  function Evaluate(stops: map<StopId, StopStatus>): Evaluation {
    if stops == map[] || !AllTerminal(stops) then Unfinished
    else Finished(if SomeDelivered(stops) then Completed else Failed)
  }

  /** The stop statuses an operation may start from, both when it reads and when it claims. */
  function Expected(op: StopOp): set<StopStatus> {
    match op
    case Depart => {Waiting}
    case Arrive => {Departed, Waiting}
    case Unload => {Arrived}
    case Fail => {Arrived, Unloading, Departed}
    case Skip => {Waiting}
  }

  function Target(op: StopOp): StopStatus {
    match op
    case Depart => Departed
    case Arrive => Arrived
    case Unload => Unloading
    case Fail => StopFailed
    case Skip => Skipped
  }

  /** The checks a stop operation makes on the rows it reads, before its claim. */
  predicate ReadAllows(op: StopOp, delivery: DeliveryStatus, stop: StopStatus) {
    && (if op == Depart || op == Arrive then delivery == EnRoute else !TerminalDelivery(delivery))
    && stop in Expected(op)
  }

  // ---- The calls of a request

  /** The first read of a request: the call it goes on with, or None when it is refused or answered. */
  function FirstCall(r: Rows, q: Request): Option<Call> {
    match q
    case CompleteRequest => if r.status == EnRoute then Some(ManualRead) else None
    case StopRequest(op, stop) =>
      if stop in r.stops && ReadAllows(op, r.status, r.stops[stop]) then Some(StopClaim(op, stop)) else None
    case PodRequest(key, stop) =>
      if stop in r.stops then Some(PodLookup(key, stop, r.stops[stop], r.status)) else None
    case OutboxRequest(stop, receiver) =>
      if stop in r.stops && r.status == Cancelled then Some(TicketWrite(stop, receiver)) else None
    case ResolveRequest(ticket, verdict) =>
      if ticket in r.tickets && r.tickets[ticket].status == Open then Some(TicketResolve(ticket, verdict)) else None
  }

  function Go(r: Rows, next: Call): Outcome { Outcome(r, Some(next), None) }

  function Stop(r: Rows): Outcome { Outcome(r, None, None) }

  function Answered(r: Rows, a: Answer): Outcome { Outcome(r, None, Some(a)) }

  /** The guarded write of a completion: only an EN_ROUTE delivery is claimed. */
  function ClaimDelivery(r: Rows, target: DeliveryStatus): Rows {
    if r.status == EnRoute then r.(status := target) else r
  }

  /** A guarded stop write; failing or skipping then leaves an auto-complete call to run. */
  function ClaimStop(r: Rows, op: StopOp, stop: StopId): Outcome {
    if stop !in r.stops || r.stops[stop] !in Expected(op) || TerminalDelivery(r.status) then Stop(r)
    else
      var t := r.(stops := r.stops[stop := Target(op)]);
      if op == Fail || op == Skip then Go(t, AutoRead) else Stop(t)
  }

  /** A replay answers with the stored body; a placeholder body carries no POD id. */
  function Replay(r: Rows, key: Key, stop: StopId): Outcome
    requires key in r.records
  {
    var body := r.records[key];
    Answered(r, Answer(Some(key), stop, if body.PodBody? then Some(body.podId) else None))
  }

  function LookupPod(r: Rows, key: Option<Key>, stop: StopId, stopRead: StopStatus, deliveryRead: DeliveryStatus): Outcome {
    if key.Some? && key.value in r.records then Replay(r, key.value, stop)
    else if stopRead == Delivered then Go(r, PodFetch(key, stop))
    else if TerminalDelivery(deliveryRead) || stopRead !in {Unloading, Arrived} then Stop(r)
    else Go(r, PodCommit(key, stop))
  }

  /** The POD transaction: all of its writes, or none and an error or a replay. */
  function CommitPod(r: Rows, key: Option<Key>, stop: StopId): Outcome {
    if key.Some? && key.value in r.records then Go(r, PodReplay(key, stop))
    else if stop !in r.stops || r.stops[stop] !in {Unloading, Arrived} || TerminalDelivery(r.status) then Stop(r)
    else if stop in r.pods then (if key.Some? then Go(r, PodReplay(key, stop)) else Stop(r))
    else
      Outcome(WritePod(r, key, stop), Some(AutoRead), Some(Answer(key, stop, Some(r.nextId))))
  }

  function WritePod(r: Rows, key: Option<Key>, stop: StopId): Rows {
    r.(stops := r.stops[stop := Delivered],
       pods := r.pods[stop := Pod(r.nextId, key)],
       records := if key.Some? then r.records[key.value := PodBody(stop, r.nextId)] else r.records,
       nextId := r.nextId + 1)
  }

  /** The resolve transaction: it re-checks neither the ticket nor the delivery. */
  function CommitResolve(r: Rows, t: nat, verdict: ConflictStatus): Rows {
    if t !in r.tickets then r
    else
      var ticket := r.tickets[t];
      var closed := r.(tickets := r.tickets[t := ticket.(status := verdict)]);
      if verdict != Overridden || ticket.stop !in r.stops then closed
      else
        var stops := r.stops[ticket.stop := Delivered];
        var newPod := ticket.receiver && ticket.stop !in r.pods;
        closed.(
          stops := stops,
          pods := if newPod then r.pods[ticket.stop := Pod(r.nextId, None)] else r.pods,
          nextId := if newPod then r.nextId + 1 else r.nextId,
          status := if AllTerminal(stops) && SomeDelivered(stops) then Completed else r.status)
  }

  /** The next database call of a request. */
  function Advance(r: Rows, c: Call): Outcome {
    match c
    case StopClaim(op, stop) => ClaimStop(r, op, stop)
    case AutoRead =>
      var e := Evaluate(r.stops);
      if e.Finished? then Go(r, AutoClaim(e.target)) else Stop(r)
    case AutoClaim(t) => Stop(ClaimDelivery(r, t))
    case ManualRead =>
      var e := Evaluate(r.stops);
      if e.Finished? then Go(r, ManualClaim(e.target)) else Stop(r)
    case ManualClaim(t) => Stop(ClaimDelivery(r, t))
    case PodLookup(key, stop, stopRead, deliveryRead) => LookupPod(r, key, stop, stopRead, deliveryRead)
    case PodFetch(key, stop) =>
      Answered(r, Answer(key, stop, if stop in r.pods then Some(r.pods[stop].id) else None))
    case PodCommit(key, stop) => CommitPod(r, key, stop)
    case PodReplay(key, stop) =>
      if key.Some? && key.value in r.records then Replay(r, key.value, stop) else Stop(r)
    case TicketWrite(stop, receiver) =>
      Stop(r.(tickets := r.tickets[r.nextId := Ticket(stop, receiver, Open)], nextId := r.nextId + 1))
    case TicketResolve(t, verdict) => Stop(CommitResolve(r, t, verdict))
  }

  // ---- Runs

  /** `replies` is history only: no step reads it. */
  datatype State = State(rows: Rows, calls: map<nat, Call>, replies: seq<Answer>)

  /** Four writes that are one step each; the start of a request under a new id; its next call. */
  datatype Action =
    | Assign
    | Accept
    | Start
    | Cancel
    | Begin(id: nat, request: Request)
    | Step(id: nat)

  function Write(r: Rows, a: Action): Rows {
    match a
    case Assign => if r.status == Draft || r.status == Assigned then r.(status := Assigned) else r
    case Accept => if r.status == Assigned then r.(status := Accepted) else r
    case Start => if r.status == Accepted then r.(status := EnRoute) else r
    case Cancel => if TerminalDelivery(r.status) then r else r.(status := Cancelled)
    case _ => r
  }

  function SetCall(calls: map<nat, Call>, id: nat, c: Option<Call>): map<nat, Call> {
    if c.Some? then calls[id := c.value] else calls - {id}
  }

  function Next(s: State, a: Action): State {
    match a
    case Begin(id, q) =>
      if id in s.calls then s else s.(calls := SetCall(s.calls, id, FirstCall(s.rows, q)))
    case Step(id) =>
      if id !in s.calls then s
      else
        var o := Advance(s.rows, s.calls[id]);
        State(o.rows, SetCall(s.calls, id, o.next),
              if o.answer.Some? then s.replies + [o.answer.value] else s.replies)
    case _ => s.(rows := Write(s.rows, a))
  }

  /** A new delivery: DRAFT, every stop PENDING, nothing in flight. */
  function Created(ids: set<StopId>): State {
    State(Rows(Draft, map id | id in ids :: Waiting, map[], map[], map[], 0), map[], [])
  }

  /** The state after a run: any sequence of steps of any requests. */
  function Run(s: State, run: seq<Action>): State
    decreases run
  {
    if run == [] then s else Run(Next(s, run[0]), run[1..])
  }
}
