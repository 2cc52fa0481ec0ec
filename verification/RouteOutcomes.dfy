/** What a route mutation leaves: the route, the stop numbers, the stored result, or the reason of its refusal. */
module RouteOutcomes {
  import opened Collections
  import opened Wrappers
  import opened RouteMutation
  import opened RouteHistory
  import opened RouteSafety
  import opened RouteStore

  // ---- What a commit leaves

  /** A selected order is numbered from 1 under its own source; a reorder keeps its numbers and is MANUAL. */
  predicate PlannedBy(r: Route, m: Mutation) {
    match m
    case Select(source, order) =>
      r.source == source && |r.plan| == |order| && forall i | 0 <= i < |order| :: r.plan[i] == Item(order[i], i + 1)
    case Reorder(items) => r.source == "MANUAL" && r.plan == items
  }

  /** A reorder gives every one of its stops its number; a selection changes none. */
  ghost predicate Renumbers(before: Sequences, after: Sequences, m: Mutation) {
    match m
    case Select(_, _) => after == before
    case Reorder(items) => after.Keys == before.Keys && forall i | 0 <= i < |items| :: Gives(after, items[i])
  }

  /** One route more, under the next version of its delivery. */
  ghost predicate Adds(before: seq<Route>, after: seq<Route>, request: Request, body: Body) {
    && |after| == |before| + 1 && before <= after
    && after[|before|].delivery == request.delivery
    && after[|before|].version == Count(before, request.delivery) + 1
    && PlannedBy(after[|before|], request.mutation)
    && body == Result(|before|, request.delivery, after[|before|].version, after[|before|].source)
  }

  /** The delivery's stops renumbered, and no other's. */
  ghost predicate Rewrites(before: map<nat, Sequences>, after: map<nat, Sequences>, request: Request) {
    && request.delivery in before && after.Keys == before.Keys
    && Renumbers(before[request.delivery], after[request.delivery], request.mutation)
    && forall d | d in before && d != request.delivery :: after[d] == before[d]
  }

  /** The route, the numbers, and the result stored under the key and under no other. */
  ghost predicate Commits(before: Store, after: Store, request: Request, body: Body) {
    && after.stops == before.stops
    && Adds(before.routes, after.routes, request, body)
    && Rewrites(before.numbers, after.numbers, request)
    && after.records == if request.slot.Some? then before.records[request.slot.value := body] else before.records
  }

  /** The numbers a transaction has written are still the right ones for the rows it will commit them to. */
  ghost predicate StageReady(store: Store, request: Request, stage: Stage) {
    stage.Renumbered? || stage.Versioned? ==>
      request.delivery in store.numbers && Renumbers(store.numbers[request.delivery], stage.numbers, request.mutation)
  }

  ghost predicate Ready(s: State) {
    forall id | id in s.calls :: StageReady(s.store, s.calls[id].request, s.calls[id].stage)
  }

  lemma NumbersAreReady(store: Store, request: Request)
    requires StoreSound(store) && Checked(store, request)
    ensures var next := NewNumbers(store.numbers[request.delivery], request.mutation);
            next.Some? && Renumbers(store.numbers[request.delivery], next.value, request.mutation)
  {
    var d := request.delivery;
    CheckedNumbersSound(store.stops[d], store.numbers[d], request.mutation);
    if request.mutation.Reorder? { ReorderDelivers(store.stops[d], request.mutation.items, store.numbers[d]); }
  }

  lemma AdvanceReady(store: Store, request: Request, stage: Stage)
    requires StoreSound(store) && StageSound(store, request, stage) && StageReady(store, request, stage)
    ensures var (after, next) := Advance(store, request, stage); StageReady(after, request, next)
  {
    if stage.Claimed? { NumbersAreReady(store, request); }
  }

  lemma CommitAdds(store: Store, request: Request, row: Option<Body>, numbers: Sequences)
    requires request.delivery in store.numbers && Renumbers(store.numbers[request.delivery], numbers, request.mutation)
    requires row == if request.slot.Some? then Some(Pending) else None
    ensures var (after, reply) := Commit(store, request, row, numbers, Count(store.routes, request.delivery) + 1);
            reply.Created? && Commits(store, after, request, reply.body)
  {
    var version := Count(store.routes, request.delivery) + 1;
    var (after, reply) := Commit(store, request, row, numbers, version);
    var r := Route(request.delivery, version, SourceOf(request.mutation), PlanOf(request.mutation));
    assert after.routes == store.routes + [r] && after.routes[|store.routes|] == r;
    assert Adds(store.routes, after.routes, request, reply.body);
    assert Rewrites(store.numbers, after.numbers, request);
  }

  /** A call's own step changes nothing unless it replies that it created a route, and then it leaves exactly that. */
  lemma AdvanceCommits(store: Store, request: Request, stage: Stage)
    requires StoreSound(store) && StageSound(store, request, stage) && StageReady(store, request, stage) && !stage.Replied?
    ensures var (after, next) := Advance(store, request, stage);
            if next.Replied? && next.reply.Created? then Commits(store, after, request, next.reply.body) else after == store
  {
    if stage.Versioned? {
      CommitSound(store, request, stage);
      CommitAdds(store, request, stage.row, stage.numbers);
    }
  }

  // ---- Over runs

  lemma OthersReady(s: State, id: nat, other: nat)
    requires Sound(s) && Ready(s) && id in s.calls && other in s.calls && other != id && !s.calls[id].stage.Replied?
    ensures var after := Advance(s.store, s.calls[id].request, s.calls[id].stage).0;
            StageReady(after, s.calls[other].request, s.calls[other].stage)
  {
    var Call(request, stage) := s.calls[id];
    var Call(request', stage') := s.calls[other];
    assert StageSound(s.store, request, stage) && StageReady(s.store, request, stage);
    assert StageReady(s.store, request', stage');
    AdvanceCommits(s.store, request, stage);
    var after := Advance(s.store, request, stage).0;
    if after != s.store && (stage'.Renumbered? || stage'.Versioned?) {
      assert InTransaction(stage) && InTransaction(stage');
      assert request'.delivery != request.delivery;
    }
  }

  lemma ReadyStep(s: State, a: Action)
    requires Sound(s) && Ready(s)
    ensures Ready(Next(s, a))
  {
    var t := Next(s, a);
    if a.Step? && MayStep(s, a.id) {
      AdvanceReady(s.store, s.calls[a.id].request, s.calls[a.id].stage);
      forall id | id in t.calls ensures StageReady(t.store, t.calls[id].request, t.calls[id].stage) {
        if id != a.id { OthersReady(s, a.id, id); }
      }
    }
  }

  lemma {:induction false} RunReady(s: State, run: seq<Action>)
    requires Sound(s) && Ready(s)
    ensures Sound(Run(s, run)) && Ready(Run(s, run))
    decreases run
  {
    if run != [] {
      SoundStep(s, run[0]);
      ReadyStep(s, run[0]);
      RunReady(Next(s, run[0]), run[1..]);
    }
  }

  predicate Answered(s: State, id: nat) {
    id in s.calls && s.calls[id].stage.Replied?
  }

  /** In any run: the step that answers a call as created leaves its route, its numbers on its own stops and its result
      under its key, whatever others did before; no other step changes the store. */
  lemma CreatedLeaves(stops: map<nat, seq<string>>, numbers: map<nat, Sequences>, run: seq<Action>, a: Action)
    requires StopsSound(stops, numbers)
    ensures var s := Run(Opened(stops, numbers), run);
            var t := Next(s, a);
            if a.Step? && !Answered(s, a.id) && Answered(t, a.id) && t.calls[a.id].stage.reply.Created?
            then Commits(s.store, t.store, t.calls[a.id].request, t.calls[a.id].stage.reply.body)
            else t.store == s.store
  {
    OpenedSound(stops, numbers);
    RunReady(Opened(stops, numbers), run);
    var s := Run(Opened(stops, numbers), run);
    if a.Step? && MayStep(s, a.id) {
      var Call(request, stage) := s.calls[a.id];
      assert StageSound(s.store, request, stage) && StageReady(s.store, request, stage);
      AdvanceCommits(s.store, request, stage);
    }
  }

  // ---- A whole call

  /** Why a mutation is refused: a stop that is not the delivery's; stops left out or named twice, or a delivery without
      stops; numbers that are not 1 to N. */
  ghost predicate RefusedFor(stops: seq<string>, m: Mutation, refusal: Refusal) {
    var ids := match m case Select(_, order) => order case Reorder(items) => Ids(items);
    match refusal
    case UnknownDelivery => false
    case UnknownStop => exists id :: id in ids && id !in stops
    case WrongStopSet => (forall id | id in ids :: id in stops) && (stops == [] || multiset(ids) != multiset(stops))
    case WrongSequence =>
      stops != [] && multiset(ids) == multiset(stops)
      && m.Reorder? && multiset(Numbers(m.items)) != multiset(Range(1, |stops|))
  }

  lemma PlannedIds(m: Mutation)
    ensures Ids(PlanOf(m)) == match m case Select(_, order) => order case Reorder(items) => Ids(items)
  {
  }

  lemma RefusalExact(stops: seq<string>, m: Mutation)
    requires Distinct(stops)
    ensures match Check(stops, m)
            case Some(refusal) => RefusedFor(stops, m, refusal)
            case None => forall refusal :: !RefusedFor(stops, m, refusal)
  {
    PlannedIds(m);
    var ids := Ids(PlanOf(m));
    IdsExact(stops, ids);
    if multiset(ids) == multiset(stops) {
      assert |ids| == |multiset(ids)| == |stops|;
      forall id | id in ids ensures id in stops { assert id in multiset(ids); }
    }
    if m.Reorder? { SequencesExact(stops, ids, Numbers(m.items)); }
  }

  /** A recorded key: by then its record is the answer, whatever delivery or mutation it comes with. */
  predicate IsRecorded(store: Store, slot: Option<Slot>) {
    slot.Some? && slot.value in store.records
  }

  lemma VersionIsFree(store: Store, d: nat)
    requires StoreSound(store)
    ensures MaxVersion(store.routes, d) == Count(store.routes, d) && !Taken(store.routes, d, Count(store.routes, d) + 1)
  {
    MaxIsCount(store.stops, store.routes, d);
    VersionsExact(store.stops, store.routes, d, Count(store.routes, d) + 1);
  }

  lemma NothingStopsIt(store: Store, request: Request) returns (row: Option<Body>, numbers: Sequences)
    requires StoreSound(store) && Checked(store, request) && !IsRecorded(store, request.slot)
    ensures row == if request.slot.Some? then Some(Pending) else None
    ensures Renumbers(store.numbers[request.delivery], numbers, request.mutation)
    ensures Committed(store, request)
         == Some(Commit(store, request, row, numbers, Count(store.routes, request.delivery) + 1))
  {
    VersionIsFree(store, request.delivery);
    NumbersAreReady(store, request);
    row := if request.slot.Some? then Some(Pending) else None;
    numbers := NewNumbers(store.numbers[request.delivery], request.mutation).value;
  }

  lemma TransactionCommits(store: Store, request: Request)
    requires StoreSound(store) && Checked(store, request) && !IsRecorded(store, request.slot)
    ensures var (after, reply) := Finish(store, request, Locked);
            reply.Created? && Commits(store, after, request, reply.body)
  {
    var row, numbers := NothingStopsIt(store, request);
    CommitAdds(store, request, row, numbers);
    FinishesTransaction(store, request);
  }

  /** A call with nothing in between: an unknown delivery is refused, a recorded key replayed, an unfit mutation refused for
      its reason, and any other creates its route, renumbers its stops and stores its result. */
  lemma MutateExact(store: Store, request: Request)
    requires StoreSound(store)
    ensures var (after, reply) := Finish(store, request, Looking);
            if request.delivery !in store.stops then after == store && reply == Refused(UnknownDelivery)
            else if IsRecorded(store, request.slot) then after == store && reply == Replayed(store.records[request.slot.value])
            else
              match reply
              case Refused(refusal) => after == store && RefusedFor(store.stops[request.delivery], request.mutation, refusal)
              case Created(body) =>
                Commits(store, after, request, body)
                && forall refusal :: !RefusedFor(store.stops[request.delivery], request.mutation, refusal)
              case _ => false
  {
    if request.delivery in store.stops {
      RefusalExact(store.stops[request.delivery], request.mutation);
      var next := Advance(store, request, Looking).1;
      if next.Waiting? {
        TransactionCommits(store, request);
        assert Finish(store, request, Looking) == Finish(store, request, Waiting) == Finish(store, request, Locked);
      } else {
        assert Finish(store, request, next) == (store, next.reply);
      }
    }
  }
}
