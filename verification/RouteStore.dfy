/** The route service over its tables: a whole select or reorder, with its transaction rolled back on a unique violation. */
module RouteStore {
  import opened Wrappers
  import opened RouteMutation
  import opened RouteHistory

  function Rank(stage: Stage): nat {
    match stage
    case Looking => 7
    case Waiting => 6
    case Locked => 5
    case Claimed(_) => 4
    case Renumbered(_, _) => 3
    case Versioned(_, _, _) => 2
    case Recovering => 1
    case Replied(_) => 0
  }

  /** A call carried on to its reply with nothing in between. */
  function Finish(store: Store, request: Request, stage: Stage): (Store, Reply)
    decreases Rank(stage)
  {
    if stage.Replied? then (store, stage.reply)
    else
      var (after, next) := Advance(store, request, stage);
      Finish(after, request, next)
  }

  /** When nobody holds its row or key, the steps of a call alone do what the whole call does. */
  lemma {:induction false} Unopposed(s: State, id: nat) returns (run: seq<Action>)
    requires id in s.calls
    requires InTransaction(s.calls[id].stage) || s.calls[id].request.delivery !in s.locks
    requires HoldsRow(s.calls[id].stage) || s.calls[id].request.slot.None? || s.calls[id].request.slot.value !in s.claims
    ensures forall a | a in run :: a == Step(id)
    ensures var (store, reply) := Finish(s.store, s.calls[id].request, s.calls[id].stage);
            Run(s, run).store == store && id in Run(s, run).calls && Run(s, run).calls[id].stage == Replied(reply)
    decreases Rank(s.calls[id].stage)
  {
    if s.calls[id].stage.Replied? {
      run := [];
    } else {
      var rest := Unopposed(Next(s, Step(id)), id);
      run := [Step(id)] + rest;
      assert run[1..] == rest;
    }
  }

  /** What the transaction commits, if no unique index stops it. */
  function Committed(store: Store, request: Request): Option<(Store, Reply)> {
    var rows := if request.delivery in store.numbers then store.numbers[request.delivery] else map[];
    var next := NewNumbers(rows, request.mutation);
    var version := MaxVersion(store.routes, request.delivery) + 1;
    if Found(store, request.slot).Some? || next.None? || Taken(store.routes, request.delivery, version) then None
    else Some(Commit(store, request, if request.slot.Some? then Some(Pending) else None, next.value, version))
  }

  lemma FinishesTransaction(store: Store, request: Request)
    ensures Finish(store, request, Locked)
         == if Committed(store, request).Some? then Committed(store, request).value else Finish(store, request, Recovering)
  {
    var row := if request.slot.Some? then Some(Pending) else None;
    var rows := if request.delivery in store.numbers then store.numbers[request.delivery] else map[];
    var next := NewNumbers(rows, request.mutation);
    if Found(store, request.slot).None? && next.Some? {
      var version := MaxVersion(store.routes, request.delivery) + 1;
      assert Finish(store, request, Claimed(row)) == Finish(store, request, Renumbered(row, next.value));
      assert Finish(store, request, Renumbered(row, next.value)) == Finish(store, request, Versioned(row, next.value, version));
      if !Taken(store.routes, request.delivery, version) {
        var (after, reply) := Commit(store, request, row, next.value, version);
        assert Finish(after, request, Replied(reply)) == (after, reply);
      }
    }
  }

  class Tables {
    const stops: map<nat, seq<string>>
    var numbers: map<nat, Sequences>
    var routes: seq<Route>
    var records: map<Slot, Body>

    ghost function View(): Store
      reads this
    {
      Store(stops, numbers, routes, records)
    }

    constructor (stops: map<nat, seq<string>>, numbers: map<nat, Sequences>)
      ensures View() == Opened(stops, numbers).store
    {
      this.stops, this.numbers, routes, records := stops, numbers, [], map[];
    }

    /** Creates the pending idempotency row; its unique index refuses a second one. */
    method ClaimRow(slot: Option<Slot>) returns (ok: bool)
      modifies this`records
      ensures ok == Found(old(View()), slot).None?
      ensures records == if ok && slot.Some? then old(records)[slot.value := Pending] else old(records)
    {
      if slot.None? { return true; }
      ok := slot.value !in records;
      if ok { records := records[slot.value := Pending]; }
    }

    /** The update loops of a reorder, over the transaction's own view of the delivery's stops. */
    method WriteNumbers(d: nat, mutation: Mutation) returns (ok: bool)
      modifies this`numbers
      ensures var next := NewNumbers(if d in old(numbers) then old(numbers)[d] else map[], mutation);
              ok == next.Some? && numbers == if ok then old(numbers)[d := next.value] else old(numbers)
    {
      var rows: Sequences := if d in numbers then numbers[d] else map[];
      var table := new StopTable(rows);
      ok := true;
      if mutation.Reorder? { ok := table.ReorderStops(mutation.items); }
      if ok { numbers := numbers[d := table.sequence]; }
    }

    /** The next version, the route with its stops, and the result stored in the idempotency row. */
    method CreateRoute(request: Request) returns (created: Option<Body>)
      modifies this`routes, this`records
      ensures var version, source := MaxVersion(old(routes), request.delivery) + 1, SourceOf(request.mutation);
              if Taken(old(routes), request.delivery, version)
              then created == None && routes == old(routes) && records == old(records)
              else
                && created == Some(Result(|old(routes)|, request.delivery, version, source))
                && routes == old(routes) + [Route(request.delivery, version, source, PlanOf(request.mutation))]
                && records == Published(old(records), request.slot, created)
    {
      var version, source := MaxVersion(routes, request.delivery) + 1, SourceOf(request.mutation);
      if Taken(routes, request.delivery, version) { return None; }
      var body := Result(|routes|, request.delivery, version, source);
      routes := routes + [Route(request.delivery, version, source, PlanOf(request.mutation))];
      if request.slot.Some? { records := records[request.slot.value := body]; }
      created := Some(body);
    }

    /** The transaction, with the delivery row locked. On a unique violation every write is undone. */
    method MutateTx(request: Request) returns (created: Option<Body>)
      modifies this
      ensures var committed := Committed(old(View()), request);
              if committed.Some? then created.Some? && (View(), Created(created.value)) == committed.value
              else created == None && View() == old(View())
    {
      var numbersBefore, recordsBefore := numbers, records;
      created := None;
      var ok := ClaimRow(request.slot);
      if ok { ok := WriteNumbers(request.delivery, request.mutation); }
      if ok { created := CreateRoute(request); }
      if created.None? { numbers, records := numbersBefore, recordsBefore; }
      assert created.Some? ==> records == Published(old(records), request.slot, created);
    }

    /** After a unique violation: the stored result of whoever won, if there is one. */
    method Recover(slot: Option<Slot>) returns (reply: Reply)
      ensures reply == if Found(View(), slot).Some? then Replayed(Found(View(), slot).value) else Failed
    {
      if slot.Some? && slot.value in records { return Replayed(records[slot.value]); }
      return Failed;
    }

    /** selectRoute and reorderStops: replay, checks, transaction, and replay again after a lost race. */
    method Mutate(request: Request) returns (reply: Reply)
      modifies this
      ensures (View(), reply) == Finish(old(View()), request, Looking)
    {
      if request.delivery !in stops { return Refused(UnknownDelivery); }
      if request.slot.Some? && request.slot.value in records { return Replayed(records[request.slot.value]); }
      var refusal := Check(stops[request.delivery], request.mutation);
      if refusal.Some? { return Refused(refusal.value); }

      FinishesTransaction(View(), request);
      var created := MutateTx(request);
      if created.Some? { return Created(created.value); }
      reply := Recover(request.slot);
    }
  }
}
