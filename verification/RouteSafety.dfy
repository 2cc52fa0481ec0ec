/** Every run of concurrent route mutations keeps the history sound, creates one route per key, and never fails or gets stuck. */
module RouteSafety {
  import opened Collections
  import opened Wrappers
  import opened RouteMutation
  import opened RouteHistory

  // ---- The checks

  /** What passes the checks visits every stop exactly once, numbered 1..N. */
  lemma CheckedPlanSound(stops: seq<string>, m: Mutation)
    requires Distinct(stops) && Check(stops, m) == None
    ensures PlanSound(stops, PlanOf(m))
  {
    var plan := PlanOf(m);
    IdsExact(stops, Ids(plan));
    assert |stops| == |multiset(stops)|;
    if m.Select? {
      assert ValidateCompleteStopSet(stops, Ids(plan), None) == Accepted;
      assert |plan| == |multiset(Ids(plan))|;
      assert Numbers(plan) == Range(1, |stops|);
    } else {
      SequencesExact(stops, Ids(plan), Numbers(plan));
      assert |plan| == |multiset(Ids(plan))|;
    }
  }

  /** The id check in front changes the error, not the accepted set. */
  lemma CheckExact(stops: seq<string>, m: Mutation)
    requires Distinct(stops)
    ensures Check(stops, m) == None <==> stops != [] && PlanSound(stops, PlanOf(m))
  {
    var plan := PlanOf(m);
    IdsExact(stops, Ids(plan));
    if Check(stops, m) == None {
      CheckedPlanSound(stops, m);
      if m.Reorder? { SequencesExact(stops, Ids(plan), Numbers(plan)); }
    }
    if stops != [] && PlanSound(stops, plan) {
      SameElementsDistinct(stops, Ids(plan));
      assert |plan| == |multiset(Ids(plan))| == |stops|;
      SequencesExact(stops, Ids(plan), Numbers(plan));
    }
  }

  /** The numbers a checked mutation writes: the update loops cannot fail. */
  lemma CheckedNumbersSound(stops: seq<string>, rows: Sequences, m: Mutation)
    requires Distinct(stops) && Check(stops, m) == None && NumbersSound(stops, rows)
    ensures NewNumbers(rows, m).Some? && NumbersSound(stops, NewNumbers(rows, m).value)
  {
    if m.Reorder? {
      ReorderDelivers(stops, m.items, rows);
      var after := Renumber(rows, m.items).value;
      forall x | x in after ensures after[x] >= 1 { assert after[x] in after.Values; }
    }
  }

  // ---- The store

  /** What other calls may rely on: stops are fixed, routes and idempotency rows are only added. */
  ghost predicate Grows(before: Store, after: Store) {
    && after.stops == before.stops
    && before.routes <= after.routes
    && forall slot | slot in before.records :: slot in after.records && after.records[slot] == before.records[slot]
  }

  lemma GrowsTransitive(a: Store, b: Store, c: Store)
    requires Grows(a, b) && Grows(b, c)
    ensures Grows(a, c)
  {
  }

  lemma RouteAdded(stops: map<nat, seq<string>>, routes: seq<Route>, r: Route)
    requires RoutesSound(stops, routes) && r.delivery in stops
    requires r.version == Count(routes, r.delivery) + 1 && PlanSound(stops[r.delivery], r.plan)
    ensures RoutesSound(stops, routes + [r])
    ensures forall d :: Count(routes + [r], d) == Count(routes, d) + if d == r.delivery then 1 else 0
  {
    var after := routes + [r];
    assert after[..|routes|] == routes;
    forall i | 0 <= i < |after| ensures RouteSound(stops, after, i) {
      if i < |routes| {
        assert RouteSound(stops, routes, i);
        assert after[..i] == routes[..i];
      }
    }
  }

  lemma NumbersWritten(stops: map<nat, seq<string>>, numbers: map<nat, Sequences>, d: nat, written: Sequences)
    requires StopsSound(stops, numbers) && d in stops && NumbersSound(stops[d], written)
    ensures StopsSound(stops, numbers[d := written])
  {
  }

  lemma RecordPublished(records: map<Slot, Body>, routes: seq<Route>, after: seq<Route>, slot: Option<Slot>, row: Option<Body>)
    requires routes <= after && forall k | k in records :: BodySound(routes, records[k])
    requires row.Some? ==> BodySound(after, row.value)
    ensures var published := Published(records, slot, row);
            forall k | k in published :: BodySound(after, published[k])
  {
  }

  lemma CommitSound(store: Store, request: Request, stage: Stage)
    requires StoreSound(store) && StageSound(store, request, stage) && stage.Versioned?
    ensures var (after, reply) := Commit(store, request, stage.row, stage.numbers, stage.version);
            StoreSound(after) && Grows(store, after) && ReplySound(after, request, reply)
    ensures !Taken(store.routes, request.delivery, stage.version)
  {
    var d := request.delivery;
    var (after, reply) := Commit(store, request, stage.row, stage.numbers, stage.version);
    var r := Route(d, stage.version, SourceOf(request.mutation), PlanOf(request.mutation));
    assert after.routes == store.routes + [r];
    assert PlanSound(store.stops[d], r.plan) by { CheckedPlanSound(store.stops[d], request.mutation); }
    RouteAdded(store.stops, store.routes, r);
    VersionsExact(store.stops, store.routes, d, stage.version);
    NumbersWritten(store.stops, store.numbers, d, stage.numbers);
    assert BodySound(after.routes, reply.body);
    RecordPublished(store.records, store.routes, after.routes, request.slot, if stage.row.Some? then Some(reply.body) else None);
  }

  /** One call's own step: the store stays sound and grows, and the call stays sound. */
  lemma AdvanceSound(store: Store, request: Request, stage: Stage)
    requires StoreSound(store) && StageSound(store, request, stage)
    ensures var (after, next) := Advance(store, request, stage);
            StoreSound(after) && Grows(store, after) && StageSound(after, request, next)
  {
    match stage
    case Claimed(row) =>
      CheckedNumbersSound(store.stops[request.delivery], store.numbers[request.delivery], request.mutation);
    case Renumbered(row, numbers) => MaxIsCount(store.stops, store.routes, request.delivery);
    case Versioned(row, numbers, version) => CommitSound(store, request, stage);
    case _ =>
  }

  /** Only the commit changes the store, and then only for the committing call's delivery and key. */
  lemma CommitTouches(store: Store, request: Request, stage: Stage)
    requires StoreSound(store) && StageSound(store, request, stage)
    ensures var after := Advance(store, request, stage).0;
            && (after == store || stage.Versioned?)
            && (forall d | d != request.delivery :: Count(after.routes, d) == Count(store.routes, d))
            && (forall slot | slot !in store.records && request.slot != Some(slot) :: slot !in after.records)
  {
    if stage.Versioned? {
      CommitSound(store, request, stage);
      var r := Route(request.delivery, stage.version, SourceOf(request.mutation), PlanOf(request.mutation));
      CheckedPlanSound(store.stops[request.delivery], request.mutation);
      RouteAdded(store.stops, store.routes, r);
    }
  }

  /** Another call's stage stays sound while its delivery has no new route and its claimed key no new row. */
  lemma StageKept(before: Store, after: Store, request: Request, stage: Stage)
    requires Grows(before, after) && StageSound(before, request, stage)
    requires InTransaction(stage) ==> Count(after.routes, request.delivery) == Count(before.routes, request.delivery)
    requires HoldsRow(stage) && request.slot.Some? ==> request.slot.value !in after.records
    ensures StageSound(after, request, stage)
  {
  }

  // ---- The lock tables

  lemma LocksStep(calls: map<nat, Call>, locks: map<nat, nat>, id: nat, after: Stage)
    requires LocksSound(calls, locks) && id in calls
    requires calls[id].stage.Waiting? ==> calls[id].request.delivery !in locks
    requires InTransaction(after) ==> calls[id].stage.Waiting? || InTransaction(calls[id].stage)
    ensures var d := calls[id].request.delivery;
            LocksSound(calls[id := Call(calls[id].request, after)],
                       Moved(locks, d, id, InTransaction(calls[id].stage), InTransaction(after)))
  {
  }

  lemma ClaimsStep(calls: map<nat, Call>, claims: map<Slot, nat>, id: nat, after: Stage)
    requires ClaimsSound(calls, claims) && id in calls
    requires HoldsRow(after) && !HoldsRow(calls[id].stage) && calls[id].request.slot.Some? ==>
               calls[id].request.slot.value !in claims
    ensures var request := calls[id].request;
            ClaimsSound(calls[id := Call(request, after)],
                        if request.slot.None? then claims
                        else Moved(claims, request.slot.value, id, HoldsRow(calls[id].stage), HoldsRow(after)))
  {
  }

  lemma OthersKept(s: State, id: nat, other: nat)
    requires Sound(s) && id in s.calls && other in s.calls && other != id
    ensures var after := Advance(s.store, s.calls[id].request, s.calls[id].stage).0;
            StageSound(after, s.calls[other].request, s.calls[other].stage)
  {
    var Call(request, stage) := s.calls[id];
    var Call(request', stage') := s.calls[other];
    AdvanceSound(s.store, request, stage);
    CommitTouches(s.store, request, stage);
    var after := Advance(s.store, request, stage).0;
    if after != s.store {
      assert InTransaction(stage) && HoldsRow(stage);
      assert InTransaction(stage') ==> request'.delivery != request.delivery;
      assert HoldsRow(stage') && request'.slot.Some? ==> request'.slot != request.slot;
      StageKept(s.store, after, request', stage');
    }
  }

  /** Every step of every call keeps the state sound and only adds to the history. */
  lemma SoundStep(s: State, a: Action)
    requires Sound(s)
    ensures Sound(Next(s, a)) && Grows(s.store, Next(s, a).store)
  {
    if a.Step? && MayStep(s, a.id) {
      var Call(request, stage) := s.calls[a.id];
      var after := Advance(s.store, request, stage).1;
      AdvanceSound(s.store, request, stage);
      LocksStep(s.calls, s.locks, a.id, after);
      ClaimsStep(s.calls, s.claims, a.id, after);
      var next := Next(s, a);
      forall id | id in next.calls ensures StageSound(next.store, next.calls[id].request, next.calls[id].stage) {
        if id != a.id { OthersKept(s, a.id, id); }
      }
    } else if a.Begin? && a.id !in s.calls {
      BeginSound(s, a.id, a.request);
    }
  }

  lemma BeginSound(s: State, id: nat, request: Request)
    requires Sound(s) && id !in s.calls
    ensures Sound(Next(s, Begin(id, request)))
  {
  }

  /** After a lost race the stored result is there to be replayed: a call that recovers answers with a committed route. */
  lemma RecoveringReplays(s: State, id: nat)
    requires Sound(s) && id in s.calls && s.calls[id].stage.Recovering?
    ensures var call := Next(s, Step(id)).calls[id];
            && call.stage.Replied? && call.stage.reply.Replayed? && BodySound(s.store.routes, call.stage.reply.body)
            && Found(s.store, call.request.slot) == Some(call.stage.reply.body)
  {
    assert StageSound(s.store, s.calls[id].request, s.calls[id].stage);
  }

  // ---- Runs

  /** In every reachable state the history is sound, and routes, once written, never change. */
  lemma {:induction false} RunSound(s: State, run: seq<Action>)
    requires Sound(s)
    ensures Sound(Run(s, run)) && Grows(s.store, Run(s, run).store)
    decreases run
  {
    if run != [] {
      SoundStep(s, run[0]);
      RunSound(Next(s, run[0]), run[1..]);
      GrowsTransitive(s.store, Next(s, run[0]).store, Run(s, run).store);
    }
  }

  lemma OpenedSound(stops: map<nat, seq<string>>, numbers: map<nat, Sequences>)
    requires StopsSound(stops, numbers)
    ensures Sound(Opened(stops, numbers)) && Authored(Opened(stops, numbers))
  {
  }

  predicate HasCreated(call: Call) {
    call.stage.Replied? && call.stage.reply.Created? && call.stage.reply.body.Result?
  }

  predicate Creates(call: Call, i: nat) {
    HasCreated(call) && call.stage.reply.body.routeId == i
  }

  ghost predicate HasAuthor(calls: map<nat, Call>, i: nat) {
    exists id | id in calls :: Creates(calls[id], i)
  }

  ghost predicate OneAuthor(calls: map<nat, Call>) {
    forall a, b | a in calls && b in calls && HasCreated(calls[a]) && HasCreated(calls[b]) ::
      calls[a].stage.reply.body.routeId == calls[b].stage.reply.body.routeId ==> a == b
  }

  /** Every route was created by a call, and no two calls created the same one. */
  ghost predicate Authored(s: State) {
    (forall i: nat | i < |s.store.routes| :: HasAuthor(s.calls, i)) && OneAuthor(s.calls)
  }

  lemma AuthorKept(calls: map<nat, Call>, i: nat, id: nat, call: Call)
    requires HasAuthor(calls, i) && (id in calls ==> !HasCreated(calls[id]))
    ensures HasAuthor(calls[id := call], i)
  {
    var author :| author in calls && Creates(calls[author], i);
    var after := calls[id := call];
    assert author in after && Creates(after[author], i);
  }

  lemma AuthoredStep(s: State, a: Action)
    requires Sound(s) && Authored(s)
    ensures Authored(Next(s, a))
  {
    var next := Next(s, a);
    if next != s {
      var call := next.calls[a.id];
      forall i: nat | i < |s.store.routes| ensures HasAuthor(next.calls, i) {
        assert HasAuthor(s.calls, i);
        AuthorKept(s.calls, i, a.id, call);
      }
      if a.Step? { CreatedIsNew(s.store, s.calls[a.id].request, s.calls[a.id].stage); }
      forall id | id in s.calls && HasCreated(s.calls[id]) ensures s.calls[id].stage.reply.body.routeId < |s.store.routes| {
        assert StageSound(s.store, s.calls[id].request, s.calls[id].stage);
      }
      OneAuthorKept(s.calls, |s.store.routes|, a.id, call);
    }
  }

  lemma OneAuthorKept(calls: map<nat, Call>, n: nat, id: nat, call: Call)
    requires OneAuthor(calls)
    requires forall other | other in calls && HasCreated(calls[other]) :: calls[other].stage.reply.body.routeId < n
    requires HasCreated(call) ==> call.stage.reply.body.routeId == n
    ensures OneAuthor(calls[id := call])
  {
  }

  /** A step creates a route exactly when its call replies that it did, under the next free id. */
  lemma CreatedIsNew(store: Store, request: Request, stage: Stage)
    requires StoreSound(store) && StageSound(store, request, stage) && !stage.Replied?
    ensures var (after, next) := Advance(store, request, stage);
            if HasCreated(Call(request, next))
            then |after.routes| == |store.routes| + 1 && Creates(Call(request, next), |store.routes|)
            else after.routes == store.routes
  {
    if stage.Versioned? { CommitSound(store, request, stage); }
  }

  lemma {:induction false} RunAuthored(s: State, run: seq<Action>)
    requires Sound(s) && Authored(s)
    ensures Sound(Run(s, run)) && Authored(Run(s, run))
    decreases run
  {
    if run != [] {
      SoundStep(s, run[0]);
      AuthoredStep(s, run[0]);
      RunAuthored(Next(s, run[0]), run[1..]);
    }
  }

  /** The history after any run: gapless versions, each once, and every plan an ordering of the delivery's stops. */
  lemma HistoryExact(stops: map<nat, seq<string>>, numbers: map<nat, Sequences>, run: seq<Action>, delivery: nat)
    requires StopsSound(stops, numbers)
    ensures var routes := Run(Opened(stops, numbers), run).store.routes;
            && (forall version: nat :: Taken(routes, delivery, version) <==> 1 <= version <= Count(routes, delivery))
            && (forall i, j | 0 <= i < j < |routes| && routes[i].delivery == routes[j].delivery ::
                  routes[i].version < routes[j].version)
            && forall i | 0 <= i < |routes| ::
                 routes[i].delivery in stops && PlanSound(stops[routes[i].delivery], routes[i].plan)
  {
    OpenedSound(stops, numbers);
    RunSound(Opened(stops, numbers), run);
    var routes := Run(Opened(stops, numbers), run).store.routes;
    forall version: nat ensures Taken(routes, delivery, version) <==> 1 <= version <= Count(routes, delivery) {
      VersionsExact(stops, routes, delivery, version);
    }
    forall i, j | 0 <= i < j < |routes| && routes[i].delivery == routes[j].delivery
      ensures routes[i].version < routes[j].version
    {
      VersionsUnique(stops, routes, i, j);
    }
    forall i | 0 <= i < |routes| ensures routes[i].delivery in stops && PlanSound(stops[routes[i].delivery], routes[i].plan) {
      assert RouteSound(stops, routes, i);
    }
  }

  /** What has been written stays: a longer run keeps every route and every stored result. */
  lemma RoutesNeverChange(stops: map<nat, seq<string>>, numbers: map<nat, Sequences>, run: seq<Action>, more: seq<Action>)
    requires StopsSound(stops, numbers)
    ensures var now := Run(Opened(stops, numbers), run);
            Grows(now.store, Run(now, more).store)
  {
    OpenedSound(stops, numbers);
    RunSound(Opened(stops, numbers), run);
    RunSound(Run(Opened(stops, numbers), run), more);
  }

  /** Calls with one key create at most one route, and all their successful replies carry it. */
  lemma OneRoutePerKey(stops: map<nat, seq<string>>, numbers: map<nat, Sequences>, run: seq<Action>, a: nat, b: nat)
    requires StopsSound(stops, numbers)
    ensures var s := Run(Opened(stops, numbers), run);
            a in s.calls && b in s.calls && s.calls[a].request.slot == s.calls[b].request.slot != None
            && s.calls[a].stage.Replied? && s.calls[b].stage.Replied? ==>
              var x, y := s.calls[a].stage.reply, s.calls[b].stage.reply;
              && (x.Created? && y.Created? ==> a == b)
              && (!x.Refused? && !y.Refused? ==> !x.Failed? && !y.Failed? && x.body == y.body && x.body.Result?)
  {
    OpenedSound(stops, numbers);
    RunAuthored(Opened(stops, numbers), run);
    var s := Run(Opened(stops, numbers), run);
    if a in s.calls && b in s.calls && s.calls[a].stage.Replied? && s.calls[b].stage.Replied? {
      assert StageSound(s.store, s.calls[a].request, s.calls[a].stage);
      assert StageSound(s.store, s.calls[b].request, s.calls[b].stage);
    }
  }

  /** No call that passed its checks fails: neither unique index is ever hit without a result to replay. */
  lemma NeverFails(stops: map<nat, seq<string>>, numbers: map<nat, Sequences>, run: seq<Action>, id: nat)
    requires StopsSound(stops, numbers)
    ensures var s := Run(Opened(stops, numbers), run);
            id in s.calls && s.calls[id].stage.Replied? ==>
              !s.calls[id].stage.reply.Failed? && (s.calls[id].stage.reply.Replayed? ==> s.calls[id].stage.reply.body.Result?)
  {
    OpenedSound(stops, numbers);
    RunSound(Opened(stops, numbers), run);
    var s := Run(Opened(stops, numbers), run);
    if id in s.calls { assert StageSound(s.store, s.calls[id].request, s.calls[id].stage); }
  }

  // ---- No deadlock

  /** Whoever a waiting call waits for holds a row lock or a key, and holders of a key can always go on. */
  lemma WaitsFor(s: State, id: nat) returns (mover: nat)
    requires Sound(s) && id in s.calls && !s.calls[id].stage.Replied?
    ensures MayStep(s, mover)
  {
    mover := id;
    if !MayStep(s, mover) && s.calls[mover].stage.Waiting? { mover := s.locks[s.calls[mover].request.delivery]; }
    if !MayStep(s, mover) { mover := s.claims[s.calls[mover].request.slot.value]; }
  }

  /** While any call is unanswered, some call can take a step. */
  lemma NoDeadlock(stops: map<nat, seq<string>>, numbers: map<nat, Sequences>, run: seq<Action>)
    requires StopsSound(stops, numbers)
    ensures var s := Run(Opened(stops, numbers), run);
            (exists id | id in s.calls :: !s.calls[id].stage.Replied?) ==> exists id | id in s.calls :: MayStep(s, id)
  {
    OpenedSound(stops, numbers);
    RunSound(Opened(stops, numbers), run);
    var s := Run(Opened(stops, numbers), run);
    if id :| id in s.calls && !s.calls[id].stage.Replied? {
      var mover := WaitsFor(s, id);
    }
  }
}
