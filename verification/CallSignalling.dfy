/**
One call session, the signals sent in it, and the Redis keys that order them.

Times are milliseconds; every step carries the time it runs at and time does not go back. A handler is cut at its
database and Redis calls. A Redis key is certainly alive before its expiry instant; at the instant it may be gone.
*/
module CallSignalling {
  import opened Wrappers

  datatype Status = Pending | Active | Declined | TimedOut | Ended

  const PENDING_MS := 30 * 1000
  const ACTIVE_MS := 60 * 60 * 1000
  const SEQUENCE_TTL_MS := 3600 * 1000
  const NONCE_TTL_MS := 60 * 1000
  const MAX_SKEW_MS := 30 * 1000

  datatype Session = Session(status: Status, startedAt: Option<int>, expiresAt: int)

  datatype Entry = Entry(value: int, expiresAt: int)

  type Keys = map<string, Entry>

  datatype Signal = Signal(sender: string, nonce: string, seqNo: int, timestamp: int, ice: bool)

  datatype Call =
    | RespondClaim(accept: bool, readAt: int)
    | TimeoutClaim
    | EndWrite
    | NonceCheck(signal: Signal)
    | SeqCheck(signal: Signal)
    | IceRelay(signal: Signal)

  /** `accepted` and `relayed` are history: signals past the sequence check, and signals sent on, in order. */
  datatype Store = Store(session: Session, nonces: Keys, sequences: Keys, accepted: seq<Signal>, relayed: seq<Signal>)

  datatype State = State(store: Store, calls: map<nat, Call>, clock: int)

  datatype Action =
    | BeginRespond(id: nat, accept: bool)
    | BeginTimeout(id: nat)
    | BeginEnd(id: nat)
    | BeginSignal(id: nat, signal: Signal)
    | Step(id: nat, underLimit: bool)

  // ---- Redis

  predicate Alive(keys: Keys, key: string, now: int) {
    key in keys && now < keys[key].expiresAt
  }

  /** SET key value EX ttl NX. */
  function SetNx(keys: Keys, key: string, value: int, ttl: int, now: int): (Keys, bool) {
    if Alive(keys, key, now) then (keys, false) else (keys[key := Entry(value, now + ttl)], true)
  }

  /** The sequence script: refuse a number not above the stored one, else store it with a new lifetime. */
  function SetSequence(keys: Keys, key: string, seqNo: int, ttl: int, now: int): (Keys, bool) {
    if Alive(keys, key, now) && keys[key].value >= seqNo then (keys, false)
    else (keys[key := Entry(seqNo, now + ttl)], true)
  }

  // ---- The session row

  function ClaimResponse(s: Session, accept: bool, readAt: int): Session {
    if s.status == Pending && s.expiresAt > readAt then
      if accept then Session(Active, Some(readAt), readAt + ACTIVE_MS) else s.(status := Declined, startedAt := None)
    else s
  }

  function ClaimTimeout(s: Session, now: int): Session {
    if s.status == Pending && s.expiresAt <= now then s.(status := TimedOut) else s
  }

  predicate MaySignal(s: Session, now: int) {
    s.status == Active && s.expiresAt > now
  }

  // ---- Steps

  /** The first read of a handler: where it goes on, or None when it is refused. */
  function FirstCall(session: Session, a: Action, now: int): Option<Call>
    requires !a.Step?
  {
    match a
    case BeginRespond(_, accept) =>
      if session.expiresAt > now && session.status == Pending then Some(RespondClaim(accept, now)) else None
    case BeginTimeout(_) => if session.status == Pending then Some(TimeoutClaim) else None
    case BeginEnd(_) => if session.status != Ended then Some(EndWrite) else None
    case BeginSignal(_, signal) => if MaySignal(session, now) then Some(NonceCheck(signal)) else None
  }

  function CheckNonce(s: Store, g: Signal, now: int): (Store, Option<Call>) {
    if now - g.timestamp > MAX_SKEW_MS || g.timestamp - now > MAX_SKEW_MS then (s, None)
    else
      var (nonces, claimed) := SetNx(s.nonces, g.nonce, 1, NONCE_TTL_MS, now);
      (s.(nonces := nonces), if claimed then Some(SeqCheck(g)) else None)
  }

  /** Offers and answers go out with the check; a candidate first waits for its rate limit. */
  function CheckSequence(s: Store, g: Signal, now: int): (Store, Option<Call>) {
    var (sequences, valid) := SetSequence(s.sequences, g.sender, g.seqNo, SEQUENCE_TTL_MS, now);
    if !valid then (s, None)
    else
      var t := s.(sequences := sequences, accepted := s.accepted + [g]);
      if g.ice then (t, Some(IceRelay(g))) else (t.(relayed := t.relayed + [g]), None)
  }

  /** The next database or Redis call of a handler. */
  function Advance(s: Store, c: Call, underLimit: bool, now: int): (Store, Option<Call>) {
    match c
    case RespondClaim(accept, readAt) => (s.(session := ClaimResponse(s.session, accept, readAt)), None)
    case TimeoutClaim => (s.(session := ClaimTimeout(s.session, now)), None)
    case EndWrite => (s.(session := s.session.(status := Ended)), None)
    case NonceCheck(g) => CheckNonce(s, g, now)
    case SeqCheck(g) => CheckSequence(s, g, now)
    case IceRelay(g) => (if underLimit then s.(relayed := s.relayed + [g]) else s, None)
  }

  function SetCall(calls: map<nat, Call>, id: nat, c: Option<Call>): map<nat, Call> {
    if c.Some? then calls[id := c.value] else calls - {id}
  }

  /** A step at a time; one that would turn the clock back is not one. */
  function Next(s: State, a: Action, now: int): State {
    if now < s.clock then s
    else if a.Step? then
      if a.id in s.calls then
        var (store, next) := Advance(s.store, s.calls[a.id], a.underLimit, now);
        State(store, SetCall(s.calls, a.id, next), now)
      else s.(clock := now)
    else if a.id in s.calls then s.(clock := now)
    else State(s.store, SetCall(s.calls, a.id, FirstCall(s.store.session, a, now)), now)
  }

  datatype Timed = Timed(action: Action, at: int)

  function Run(s: State, run: seq<Timed>): State
    decreases run
  {
    if run == [] then s else Run(Next(s, run[0].action, run[0].at), run[1..])
  }

  /** A new invitation. */
  function Invited(now: int): State {
    State(Store(Session(Pending, None, now + PENDING_MS), map[], map[], [], []), map[], now)
  }

  // ---- The session's life

  /** PENDING is left at most once, anything can be ended, and ENDED is the end. */
  predicate Moves(from: Session, to: Session) {
    && (from.status == to.status || from.status == Pending || to.status == Ended)
    && (from.status != Pending ==> to.startedAt == from.startedAt && to.expiresAt == from.expiresAt)
    && (from.status == Ended ==> to == from)
  }

  lemma CallMoves(s: Store, c: Call, underLimit: bool, now: int)
    ensures Moves(s.session, Advance(s, c, underLimit, now).0.session)
  {
  }

  lemma SessionStep(s: State, a: Action, now: int)
    ensures Moves(s.store.session, Next(s, a, now).store.session)
  {
    if a.Step? && a.id in s.calls { CallMoves(s.store, s.calls[a.id], a.underLimit, now); }
  }

  /** A response or the watchdog taking the invitation out of PENDING. */
  predicate Claims(s: State, a: Action, now: int) {
    && now >= s.clock && a.Step? && a.id in s.calls && s.store.session.status == Pending
    && ((s.calls[a.id].RespondClaim? && s.store.session.expiresAt > s.calls[a.id].readAt)
        || (s.calls[a.id].TimeoutClaim? && s.store.session.expiresAt <= now))
  }

  function CountClaims(s: State, run: seq<Timed>): nat
    decreases run
  {
    if run == [] then 0
    else (if Claims(s, run[0].action, run[0].at) then 1 else 0) + CountClaims(Next(s, run[0].action, run[0].at), run[1..])
  }

  /** Accept, decline and timeout claim an invitation at most once between them, in any run. */
  lemma {:induction false} OneClaim(s: State, run: seq<Timed>)
    ensures CountClaims(s, run) <= if s.store.session.status == Pending then 1 else 0
    decreases run
  {
    if run != [] {
      SessionStep(s, run[0].action, run[0].at);
      if Claims(s, run[0].action, run[0].at) {
        assert Next(s, run[0].action, run[0].at).store.session.status != Pending;
      }
      OneClaim(Next(s, run[0].action, run[0].at), run[1..]);
    }
  }

  lemma {:induction false} EndedStays(s: State, run: seq<Timed>)
    requires s.store.session.status == Ended
    ensures Run(s, run).store.session == s.store.session
    decreases run
  {
    if run != [] {
      SessionStep(s, run[0].action, run[0].at);
      EndedStays(Next(s, run[0].action, run[0].at), run[1..]);
    }
  }

  // ---- Sequence numbers

  function From(sender: string, signals: seq<Signal>): seq<int> {
    if signals == [] then []
    else
      var last := signals[|signals| - 1];
      From(sender, signals[..|signals| - 1]) + if last.sender == sender then [last.seqNo] else []
  }

  lemma FromGrows(sender: string, signals: seq<Signal>, g: Signal)
    ensures From(sender, signals + [g]) == From(sender, signals) + if g.sender == sender then [g.seqNo] else []
  {
    assert (signals + [g])[..|signals|] == signals;
  }

  predicate Increasing(s: seq<int>) {
    forall i, j | 0 <= i < j < |s| :: s[i] < s[j]
  }

  predicate SessionSound(s: Session, clock: int) {
    && (s.status == Pending ==> s.startedAt.None?)
    && (s.startedAt.Some? ==> s.expiresAt == s.startedAt.value + ACTIVE_MS && s.startedAt.value <= clock)
    && (s.status == Active ==> s.startedAt.Some?)
  }

  /** A handler that is still waiting to signal was let in by an accepted session. */
  predicate CallSound(session: Session, clock: int, c: Call) {
    match c
    case RespondClaim(_, readAt) => readAt <= clock
    case TimeoutClaim => true
    case EndWrite => true
    case _ => session.startedAt.Some?
  }

  /** A sender's key holds the last number accepted from it, and outlives the session. */
  ghost predicate KeyRight(session: Session, keys: Keys, accepted: seq<Signal>, sender: string) {
    var numbers := From(sender, accepted);
    && Increasing(numbers)
    && (numbers == [] <==> sender !in keys)
    && (numbers != [] ==>
          && session.startedAt.Some?
          && keys[sender].value == numbers[|numbers| - 1]
          && keys[sender].expiresAt >= session.expiresAt)
  }

  ghost predicate StoreSound(s: Store, clock: int) {
    SessionSound(s.session, clock) && forall sender :: KeyRight(s.session, s.sequences, s.accepted, sender)
  }

  ghost predicate Sound(s: State) {
    StoreSound(s.store, s.clock) && forall id | id in s.calls :: CallSound(s.store.session, s.clock, s.calls[id])
  }

  /** A sequence check that runs after the session's time is up: its handler was let in before and held up since. */
  predicate LateCall(s: Store, c: Call, now: int) {
    c.SeqCheck? && now >= s.session.expiresAt
  }

  predicate Late(s: State, a: Action, now: int) {
    now >= s.clock && a.Step? && a.id in s.calls && LateCall(s.store, s.calls[a.id], now)
  }

  /** The key of one sender through the sequence script, inside the session's time. */
  lemma ScriptKeepsKey(session: Session, keys: Keys, accepted: seq<Signal>, g: Signal, now: int, sender: string)
    requires KeyRight(session, keys, accepted, sender)
    requires session.startedAt.Some? && session.startedAt.value <= now < session.expiresAt
    requires session.expiresAt == session.startedAt.value + ACTIVE_MS
    ensures var (after, valid) := SetSequence(keys, g.sender, g.seqNo, SEQUENCE_TTL_MS, now);
            KeyRight(session, after, if valid then accepted + [g] else accepted, sender)
  {
    FromGrows(sender, accepted, g);
  }

  lemma CallKeepsStore(s: Store, c: Call, underLimit: bool, clock: int, now: int)
    requires StoreSound(s, clock) && CallSound(s.session, clock, c) && clock <= now && !LateCall(s, c, now)
    ensures StoreSound(Advance(s, c, underLimit, now).0, now)
  {
    var t := Advance(s, c, underLimit, now).0;
    CallMoves(s, c, underLimit, now);
    forall sender ensures KeyRight(t.session, t.sequences, t.accepted, sender) {
      assert KeyRight(s.session, s.sequences, s.accepted, sender);
      if c.SeqCheck? { ScriptKeepsKey(s.session, s.sequences, s.accepted, c.signal, now, sender); }
    }
  }

  lemma CallStaysSound(from: Session, to: Session, clock: int, now: int, c: Call)
    requires Moves(from, to) && SessionSound(from, clock) && clock <= now && CallSound(from, clock, c)
    ensures CallSound(to, now, c)
  {
  }

  lemma SoundStep(s: State, a: Action, now: int)
    requires Sound(s) && !Late(s, a, now)
    ensures Sound(Next(s, a, now))
  {
    var t := Next(s, a, now);
    SessionStep(s, a, now);
    if now >= s.clock {
      forall id | id in s.calls ensures CallSound(t.store.session, t.clock, s.calls[id]) {
        CallStaysSound(s.store.session, t.store.session, s.clock, now, s.calls[id]);
      }
      if a.Step? && a.id in s.calls { CallKeepsStore(s.store, s.calls[a.id], a.underLimit, s.clock, now); }
    }
  }

  predicate NoneLate(s: State, run: seq<Timed>)
    decreases run
  {
    run == [] || (!Late(s, run[0].action, run[0].at) && NoneLate(Next(s, run[0].action, run[0].at), run[1..]))
  }

  /** Over a whole call the numbers accepted from each sender strictly increase: the key never expires under it. */
  lemma {:induction false} NumbersIncrease(s: State, run: seq<Timed>)
    requires Sound(s) && NoneLate(s, run)
    ensures Sound(Run(s, run)) && forall sender :: Increasing(From(sender, Run(s, run).store.accepted))
    decreases run
  {
    if run == [] {
      forall sender ensures Increasing(From(sender, s.store.accepted)) {
        assert KeyRight(s.store.session, s.store.sequences, s.store.accepted, sender);
      }
    } else {
      SoundStep(s, run[0].action, run[0].at);
      NumbersIncrease(Next(s, run[0].action, run[0].at), run[1..]);
    }
  }

  // ---- Sequences of numbers

  lemma {:induction false} FromHas(signals: seq<Signal>, k: nat)
    requires k < |signals|
    ensures signals[k].seqNo in From(signals[k].sender, signals)
  {
    if k < |signals| - 1 { FromHas(signals[..|signals| - 1], k); }
  }

  lemma ExtendIncreasing(all: seq<int>, some: seq<int>, n: int)
    requires Increasing(all + [n]) && Increasing(some) && forall x | x in some :: x in all
    ensures Increasing(all) && Increasing(some + [n])
  {
    forall x | x in all ensures x < n {
      var k :| 0 <= k < |all| && all[k] == x;
      assert (all + [n])[k] < (all + [n])[|all|];
    }
    forall i, j | 0 <= i < j < |all| ensures all[i] < all[j] { assert (all + [n])[i] < (all + [n])[j]; }
    forall i, j | 0 <= i < j < |some + [n]| ensures (some + [n])[i] < (some + [n])[j] { assert some[i] in some; }
  }
}
