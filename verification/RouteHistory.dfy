/** Concurrent route mutations: version numbers under a row lock, and replay by idempotency key. */
module RouteHistory {
  import opened Collections
  import opened Wrappers
  import opened RouteMutation

  /** Idempotency rows are unique per key, user and endpoint; the endpoint names no particular delivery. */
  datatype Slot = Slot(key: string, user: string, endpoint: string)

  datatype Mutation = Select(source: string, order: seq<string>) | Reorder(items: seq<Item>)

  datatype Request = Request(delivery: nat, slot: Option<Slot>, mutation: Mutation)

  /** A committed route; its id is its position among all routes. */
  datatype Route = Route(delivery: nat, version: nat, source: string, plan: seq<Item>)

  datatype Body = Pending | Result(routeId: nat, delivery: nat, version: nat, source: string)

  datatype Store = Store(stops: map<nat, seq<string>>, numbers: map<nat, Sequences>, routes: seq<Route>, records: map<Slot, Body>)

  datatype Refusal = UnknownDelivery | UnknownStop | WrongStopSet | WrongSequence

  datatype Reply = Created(body: Body) | Replayed(body: Body) | Refused(refusal: Refusal) | Failed

  /** Where a call is; from Locked on it is inside its transaction. `row` is its own uncommitted idempotency row. */
  datatype Stage =
    | Looking
    | Waiting
    | Locked
    | Claimed(row: Option<Body>)
    | Renumbered(row: Option<Body>, numbers: Sequences)
    | Versioned(row: Option<Body>, numbers: Sequences, version: nat)
    | Recovering
    | Replied(reply: Reply)

  datatype Call = Call(request: Request, stage: Stage)

  /** `locks` is who holds a delivery row, `claims` who holds an uncommitted idempotency row. */
  datatype State = State(store: Store, calls: map<nat, Call>, locks: map<nat, nat>, claims: map<Slot, nat>)

  datatype Action = Begin(id: nat, request: Request) | Step(id: nat)

  function Planned(order: seq<string>): (items: seq<Item>)
    ensures |items| == |order| && forall i | 0 <= i < |order| :: items[i] == Item(order[i], i + 1)
  {
    seq(|order|, i requires 0 <= i < |order| => Item(order[i], i + 1))
  }

  function PlanOf(m: Mutation): seq<Item> {
    match m
    case Select(_, order) => Planned(order)
    case Reorder(items) => items
  }

  function SourceOf(m: Mutation): string {
    match m
    case Select(source, _) => source
    case Reorder(_) => "MANUAL"
  }

  /** The checks before the transaction: every id first, then the complete set. */
  function Check(stops: seq<string>, m: Mutation): Option<Refusal> {
    var ids := Ids(PlanOf(m));
    if exists id | id in ids :: id !in stops then Some(UnknownStop)
    else
      match ValidateCompleteStopSet(stops, ids, if m.Select? then None else Some(Numbers(PlanOf(m))))
      case Accepted => None
      case InvalidStopSet => Some(WrongStopSet)
      case InvalidStopSequence => Some(WrongSequence)
  }

  function Found(store: Store, slot: Option<Slot>): Option<Body> {
    if slot.Some? && slot.value in store.records then Some(store.records[slot.value]) else None
  }

  function MaxVersion(routes: seq<Route>, delivery: nat): nat {
    if routes == [] then 0 else
      var before := MaxVersion(routes[..|routes| - 1], delivery);
      var last := routes[|routes| - 1];
      if last.delivery == delivery && last.version > before then last.version else before
  }

  predicate Taken(routes: seq<Route>, delivery: nat, version: nat) {
    exists r | r in routes :: r.delivery == delivery && r.version == version
  }

  /** The stop numbers a transaction writes; selecting a route writes none. */
  function NewNumbers(rows: Sequences, m: Mutation): Option<Sequences> {
    match m
    case Select(_, _) => Some(rows)
    case Reorder(items) => Renumber(rows, items)
  }

  function Published(records: map<Slot, Body>, slot: Option<Slot>, row: Option<Body>): map<Slot, Body> {
    if slot.Some? && row.Some? then records[slot.value := row.value] else records
  }

  /** Creating the route, storing the result in the idempotency row, and the commit. */
  function Commit(store: Store, request: Request, row: Option<Body>, numbers: Sequences, version: nat): (Store, Reply) {
    var source := SourceOf(request.mutation);
    var body := Result(|store.routes|, request.delivery, version, source);
    var finalRow := if row.Some? then Some(body) else None;
    (store.(routes := store.routes + [Route(request.delivery, version, source, PlanOf(request.mutation))],
            numbers := store.numbers[request.delivery := numbers],
            records := Published(store.records, request.slot, finalRow)),
     Created(body))
  }

  predicate InTransaction(stage: Stage) {
    stage.Locked? || HoldsRow(stage)
  }

  predicate HoldsRow(stage: Stage) {
    stage.Claimed? || stage.Renumbered? || stage.Versioned?
  }

  function Lookup(store: Store, request: Request): Stage {
    if request.delivery !in store.stops then Replied(Refused(UnknownDelivery))
    else if Found(store, request.slot).Some? then Replied(Replayed(Found(store, request.slot).value))
    else
      match Check(store.stops[request.delivery], request.mutation)
      case Some(refusal) => Replied(Refused(refusal))
      case None => Waiting
  }

  /** One database call; a unique violation rolls the transaction back. */
  function Advance(store: Store, request: Request, stage: Stage): (Store, Stage) {
    match stage
    case Looking => (store, Lookup(store, request))
    case Waiting => (store, Locked)
    case Locked =>
      (store, if Found(store, request.slot).Some? then Recovering
              else Claimed(if request.slot.Some? then Some(Pending) else None))
    case Claimed(row) =>
      var rows := if request.delivery in store.numbers then store.numbers[request.delivery] else map[];
      var next := NewNumbers(rows, request.mutation);
      (store, if next.Some? then Renumbered(row, next.value) else Recovering)
    case Renumbered(row, numbers) => (store, Versioned(row, numbers, MaxVersion(store.routes, request.delivery) + 1))
    case Versioned(row, numbers, version) =>
      if Taken(store.routes, request.delivery, version) then (store, Recovering)
      else
        var (after, reply) := Commit(store, request, row, numbers, version);
        (after, Replied(reply))
    case Recovering =>
      (store, Replied(if Found(store, request.slot).Some? then Replayed(Found(store, request.slot).value) else Failed))
    case Replied(_) => (store, stage)
  }

  /** A call waits for the row lock, and for another transaction's uncommitted row with its key. */
  predicate MayStep(s: State, id: nat) {
    && id in s.calls
    && var call := s.calls[id];
       match call.stage
       case Waiting => call.request.delivery !in s.locks
       case Locked => Found(s.store, call.request.slot).Some? || call.request.slot.None? || call.request.slot.value !in s.claims
       case Replied(_) => false
       case _ => true
  }

  function Moved<K, V>(table: map<K, V>, key: K, value: V, before: bool, after: bool): map<K, V> {
    if after then table[key := value] else if before then table - {key} else table
  }

  function Next(s: State, a: Action): State {
    match a
    case Begin(id, request) =>
      if id in s.calls then s else s.(calls := s.calls[id := Call(request, Looking)])
    case Step(id) =>
      if !MayStep(s, id) then s else
        var Call(request, stage) := s.calls[id];
        var (store, after) := Advance(s.store, request, stage);
        State(store, s.calls[id := Call(request, after)],
              Moved(s.locks, request.delivery, id, InTransaction(stage), InTransaction(after)),
              if request.slot.None? then s.claims else Moved(s.claims, request.slot.value, id, HoldsRow(stage), HoldsRow(after)))
  }

  function Run(s: State, run: seq<Action>): State
    decreases run
  {
    if run == [] then s else Run(Next(s, run[0]), run[1..])
  }

  function Opened(stops: map<nat, seq<string>>, numbers: map<nat, Sequences>): State {
    State(Store(stops, numbers, [], map[]), map[], map[], map[])
  }

  // ---- What holds

  function Count(routes: seq<Route>, delivery: nat): nat {
    if routes == [] then 0
    else Count(routes[..|routes| - 1], delivery) + if routes[|routes| - 1].delivery == delivery then 1 else 0
  }

  /** A plan visits every stop exactly once, in an order numbered 1..N. */
  ghost predicate PlanSound(stops: seq<string>, plan: seq<Item>) {
    multiset(Ids(plan)) == multiset(stops) && multiset(Numbers(plan)) == multiset(Range(1, |stops|))
  }

  ghost predicate NumbersSound(stops: seq<string>, numbers: Sequences) {
    numbers.Keys == Elements(stops) && AllDistinct(numbers) && forall x | x in numbers :: numbers[x] >= 1
  }

  ghost predicate RouteSound(stops: map<nat, seq<string>>, routes: seq<Route>, i: nat)
    requires i < |routes|
  {
    && routes[i].delivery in stops
    && routes[i].version == Count(routes[..i], routes[i].delivery) + 1
    && PlanSound(stops[routes[i].delivery], routes[i].plan)
  }

  ghost predicate RoutesSound(stops: map<nat, seq<string>>, routes: seq<Route>) {
    forall i | 0 <= i < |routes| :: RouteSound(stops, routes, i)
  }

  /** A stored result is that of a committed route. */
  ghost predicate BodySound(routes: seq<Route>, body: Body) {
    && body.Result? && body.routeId < |routes|
    && var r := routes[body.routeId];
       r.delivery == body.delivery && r.version == body.version && r.source == body.source
  }

  ghost predicate StopsSound(stops: map<nat, seq<string>>, numbers: map<nat, Sequences>) {
    && stops.Keys == numbers.Keys
    && forall d | d in stops :: Distinct(stops[d]) && NumbersSound(stops[d], numbers[d])
  }

  ghost predicate StoreSound(store: Store) {
    && StopsSound(store.stops, store.numbers)
    && RoutesSound(store.stops, store.routes)
    && forall slot | slot in store.records :: BodySound(store.routes, store.records[slot])
  }

  ghost predicate Checked(store: Store, request: Request) {
    request.delivery in store.stops && Check(store.stops[request.delivery], request.mutation) == None
  }

  ghost predicate RowSound(store: Store, request: Request, row: Option<Body>) {
    if request.slot.None? then row == None else row == Some(Pending) && request.slot.value !in store.records
  }

  ghost predicate StageSound(store: Store, request: Request, stage: Stage) {
    match stage
    case Looking => true
    case Waiting => Checked(store, request)
    case Locked => Checked(store, request)
    case Claimed(row) => Checked(store, request) && RowSound(store, request, row)
    case Renumbered(row, numbers) =>
      Checked(store, request) && RowSound(store, request, row) && NumbersSound(store.stops[request.delivery], numbers)
    case Versioned(row, numbers, version) =>
      && Checked(store, request) && RowSound(store, request, row) && NumbersSound(store.stops[request.delivery], numbers)
      && version == Count(store.routes, request.delivery) + 1
    case Recovering => Found(store, request.slot).Some?
    case Replied(reply) => ReplySound(store, request, reply)
  }

  /** A reply with a body carries a committed route, for its key the stored one; no call fails. */
  ghost predicate ReplySound(store: Store, request: Request, reply: Reply) {
    match reply
    case Created(body) => BodySound(store.routes, body) && (request.slot.Some? ==> Found(store, request.slot) == Some(body))
    case Replayed(body) => BodySound(store.routes, body) && Found(store, request.slot) == Some(body)
    case Refused(_) => true
    case Failed => false
  }

  ghost predicate LocksSound(calls: map<nat, Call>, locks: map<nat, nat>) {
    && (forall id | id in calls && InTransaction(calls[id].stage) ::
          calls[id].request.delivery in locks && locks[calls[id].request.delivery] == id)
    && (forall d | d in locks ::
          locks[d] in calls && InTransaction(calls[locks[d]].stage) && calls[locks[d]].request.delivery == d)
  }

  ghost predicate ClaimsSound(calls: map<nat, Call>, claims: map<Slot, nat>) {
    && (forall id | id in calls && HoldsRow(calls[id].stage) && calls[id].request.slot.Some? ::
          calls[id].request.slot.value in claims && claims[calls[id].request.slot.value] == id)
    && (forall slot | slot in claims ::
          claims[slot] in calls && HoldsRow(calls[claims[slot]].stage) && calls[claims[slot]].request.slot == Some(slot))
  }

  ghost predicate CallsSound(store: Store, calls: map<nat, Call>) {
    forall id | id in calls :: StageSound(store, calls[id].request, calls[id].stage)
  }

  ghost predicate Sound(s: State) {
    && StoreSound(s.store)
    && CallsSound(s.store, s.calls)
    && LocksSound(s.calls, s.locks)
    && ClaimsSound(s.calls, s.claims)
  }

  // ---- Versions

  lemma {:induction false} CountOfPrefix(routes: seq<Route>, n: nat, delivery: nat)
    requires n <= |routes|
    ensures Count(routes[..n], delivery) <= Count(routes, delivery)
    decreases |routes|
  {
    if n < |routes| {
      assert routes[..|routes| - 1][..n] == routes[..n];
      CountOfPrefix(routes[..|routes| - 1], n, delivery);
    } else {
      assert routes[..n] == routes;
    }
  }

  lemma PrefixSound(stops: map<nat, seq<string>>, routes: seq<Route>, n: nat)
    requires RoutesSound(stops, routes) && n <= |routes|
    ensures RoutesSound(stops, routes[..n])
  {
    forall i | 0 <= i < n ensures RouteSound(stops, routes[..n], i) {
      assert RouteSound(stops, routes, i);
      assert routes[..n][..i] == routes[..i];
    }
  }

  /** The highest version of a delivery is the number of its routes. */
  lemma {:induction false} MaxIsCount(stops: map<nat, seq<string>>, routes: seq<Route>, delivery: nat)
    requires RoutesSound(stops, routes)
    ensures MaxVersion(routes, delivery) == Count(routes, delivery)
    decreases |routes|
  {
    if routes != [] {
      PrefixSound(stops, routes, |routes| - 1);
      MaxIsCount(stops, routes[..|routes| - 1], delivery);
      assert RouteSound(stops, routes, |routes| - 1);
    }
  }

  /** Versions of a delivery are exactly 1..k. */
  lemma {:induction false} VersionsExact(stops: map<nat, seq<string>>, routes: seq<Route>, delivery: nat, version: nat)
    requires RoutesSound(stops, routes)
    ensures Taken(routes, delivery, version) <==> 1 <= version <= Count(routes, delivery)
    decreases |routes|
  {
    if routes != [] {
      var before, last := routes[..|routes| - 1], routes[|routes| - 1];
      assert routes == before + [last];
      PrefixSound(stops, routes, |routes| - 1);
      VersionsExact(stops, before, delivery, version);
      assert RouteSound(stops, routes, |routes| - 1);
      assert Taken(routes, delivery, version) <==>
        Taken(before, delivery, version) || (last.delivery == delivery && last.version == version) by {
        if Taken(before, delivery, version) {
          var r :| r in before && r.delivery == delivery && r.version == version;
          assert r in routes;
        }
        assert last in routes;
      }
    }
  }

  /** No two routes of a delivery share a version. */
  lemma VersionsUnique(stops: map<nat, seq<string>>, routes: seq<Route>, i: nat, j: nat)
    requires RoutesSound(stops, routes) && i < j < |routes| && routes[i].delivery == routes[j].delivery
    ensures routes[i].version < routes[j].version
  {
    assert RouteSound(stops, routes, i) && RouteSound(stops, routes, j);
    var d := routes[i].delivery;
    assert routes[..i + 1][..i] == routes[..i];
    assert Count(routes[..i + 1], d) == Count(routes[..i], d) + 1;
    assert routes[..j][..i + 1] == routes[..i + 1];
    CountOfPrefix(routes[..j], i + 1, d);
  }
}
