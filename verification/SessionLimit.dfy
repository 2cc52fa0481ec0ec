/** The cap of five under interleaving: the one step that can exceed it, what keeps it, and two ways to exceed it. */
module SessionLimit {
  import opened Collections
  import opened Sessions
  import opened SessionCaps

  // ---- The step that exceeds it

  lemma CreateCounts(s: State, a: Action, user: nat)
    requires Sound(s) && CreatesFor(s, a, user)
    ensures ActiveIds(Next(s, a).sessions, user) == ActiveIds(s.sessions, user) + {s.next}
    ensures s.next !in ActiveIds(s.sessions, user)
  {
    CreateActive(s, user, s.next, s.calls[a.call].now, user);
  }

  /** Every other step ends some of a user's sessions, or swaps one or, in a driver's login, all for a new one. */
  lemma OtherStepActive(s: State, a: Action, user: nat)
    requires Sound(s) && !CreatesFor(s, a, user)
    ensures var before, after := ActiveIds(s.sessions, user), ActiveIds(Next(s, a).sessions, user);
            || after <= before
            || after == {s.next}
            || (Rotates(s, a, user) && after == before - {s.calls[a.call].id} + {s.next})
  {
    match a
    case LoginDriver(other, now) =>
      RevokeAllSound(s, ActiveIds(s.sessions, other));
      CreateActive(s.(sessions := RevokeAll(s.sessions, ActiveIds(s.sessions, other))), other, s.next, now, user);
    case Step(call) =>
      if call in s.calls {
        match s.calls[call]
        case Claim(id, now) => if id in s.sessions && !s.sessions[id].revoked { ClaimActive(s, call, id, now, user); }
        case RevokeFamily(family) =>
        case Evict(other, victims, now) => if victims == [] { CreateActive(s, other, s.next, now, user); }
      }
    case _ =>
  }

  /** A claim that exchanges an active session of this user. */
  predicate Rotates(s: State, a: Action, user: nat) {
    a.Step? && a.call in s.calls && s.calls[a.call].Claim? && Active(s.sessions, user, s.calls[a.call].id)
  }

  lemma OtherStepCounts(s: State, a: Action, user: nat)
    requires Sound(s) && !CreatesFor(s, a, user)
    ensures var before, after := ActiveIds(s.sessions, user), ActiveIds(Next(s, a).sessions, user);
            |after| <= |before| || |after| <= 1
  {
    var before, after := ActiveIds(s.sessions, user), ActiveIds(Next(s, a).sessions, user);
    OtherStepActive(s, a, user);
    if after <= before {
      SubsetSize(after, before);
    } else if after != {s.next} {
      SwapSize(before, s.calls[a.call].id, s.next);
    }
  }

  /** A step takes a user with at most five active sessions above five exactly when it is the last step of a login
      and five are active. */
  lemma ExceedsExactly(s: State, a: Action, user: nat)
    requires Sound(s) && |ActiveIds(s.sessions, user)| <= MAX_SESSIONS
    ensures |ActiveIds(Next(s, a).sessions, user)| > MAX_SESSIONS
       <==> CreatesFor(s, a, user) && |ActiveIds(s.sessions, user)| == MAX_SESSIONS
  {
    var before, after := ActiveIds(s.sessions, user), ActiveIds(Next(s, a).sessions, user);
    if CreatesFor(s, a, user) {
      CreateCounts(s, a, user);
    } else {
      OtherStepCounts(s, a, user);
    }
  }

  ghost predicate EverExceeds(s: State, run: seq<Action>, user: nat)
    decreases run
  {
    |ActiveIds(s.sessions, user)| > MAX_SESSIONS || (run != [] && EverExceeds(Next(s, run[0]), run[1..], user))
  }

  ghost predicate CreatesAtFive(s: State, run: seq<Action>, user: nat)
    decreases run
  {
    run != []
    && ((CreatesFor(s, run[0], user) && |ActiveIds(s.sessions, user)| == MAX_SESSIONS)
        || CreatesAtFive(Next(s, run[0]), run[1..], user))
  }

  /** Over any run a user ever has more than five if and only if a login creates its session while five are active. */
  lemma {:induction false} EverExceedsExactly(s: State, run: seq<Action>, user: nat)
    requires Sound(s) && |ActiveIds(s.sessions, user)| <= MAX_SESSIONS
    ensures EverExceeds(s, run, user) <==> CreatesAtFive(s, run, user)
    decreases run
  {
    if run != [] {
      SoundStep(s, run[0]);
      ExceedsExactly(s, run[0], user);
      if |ActiveIds(Next(s, run[0]).sessions, user)| <= MAX_SESSIONS {
        EverExceedsExactly(Next(s, run[0]), run[1..], user);
      } else {
        assert EverExceeds(Next(s, run[0]), run[1..], user);
      }
    }
  }

  // ---- What keeps it

  predicate InFlight(s: State, call: nat, user: nat) {
    call in s.calls && s.calls[call].Evict? && s.calls[call].user == user
  }

  /** What must not happen while a login of this user is between its read and its create: that another one reads, or that
      a session it is about to evict is rotated. */
  ghost predicate Disturbs(s: State, a: Action, user: nat) {
    exists call | call in s.calls && InFlight(s, call, user) ::
      || (a.BeginLogin? && a.user == user && a.call !in s.calls && IsAnswer(s.sessions, user, a.found))
      || (Rotates(s, a, user) && s.calls[a.call].id in s.calls[call].victims)
  }

  ghost predicate Undisturbed(s: State, run: seq<Action>, user: nat)
    decreases run
  {
    run == [] || (!Disturbs(s, run[0], user) && Undisturbed(Next(s, run[0]), run[1..], user))
  }

  /** A login in flight has left room for the session it is going to create. */
  ghost predicate HasRoom(s: State, call: nat, user: nat)
    requires InFlight(s, call, user)
  {
    |ActiveIds(s.sessions, user) - Elements(s.calls[call].victims)| <= MAX_SESSIONS - 1
  }

  ghost predicate Roomy(s: State, user: nat) {
    && |ActiveIds(s.sessions, user)| <= MAX_SESSIONS
    && (forall c | c in s.calls && InFlight(s, c, user) :: HasRoom(s, c, user))
    && (forall c, d | c in s.calls && d in s.calls && InFlight(s, c, user) && InFlight(s, d, user) :: c == d)
  }

  /** A read finds at most five, and the victims are what is above four. */
  lemma ReadLeavesRoom(sessions: map<nat, Session>, user: nat, found: seq<nat>)
    requires IsAnswer(sessions, user, found)
    ensures |ActiveIds(sessions, user) - Elements(Victims(found))| <= MAX_SESSIONS - 1
  {
    AnswerCounts(sessions, user, found);
    ElementsSize(Victims(found));
    assert Elements(Victims(found)) <= Elements(found);
    MinusSubset(Elements(found), Elements(Victims(found)));
  }

  /** One call changes, to this user's only flight or away from one; the other calls are other people's. */
  ghost predicate SoleFlight(s: State, t: State, call: nat, user: nat) {
    && (forall c | c in s.calls && InFlight(s, c, user) :: c == call)
    && (forall c | c in t.calls && c != call :: c in s.calls && t.calls[c] == s.calls[c])
  }

  lemma SoleFlightRoomy(s: State, t: State, call: nat, user: nat)
    requires SoleFlight(s, t, call, user) && |ActiveIds(t.sessions, user)| <= MAX_SESSIONS
    requires InFlight(t, call, user) ==> HasRoom(t, call, user)
    ensures Roomy(t, user)
  {
    forall c | c in t.calls && c != call ensures InFlight(t, c, user) <==> InFlight(s, c, user) { }
  }

  lemma BeginOwn(s: State, a: Action, user: nat)
    requires a.BeginLogin? && a.user == user && Next(s, a) != s
    requires Roomy(s, user) && !Disturbs(s, a, user)
    ensures Roomy(Next(s, a), user)
  {
    var t := Next(s, a);
    assert t == s.(calls := s.calls[a.call := Evict(user, Victims(a.found), a.now)]);
    ReadLeavesRoom(s.sessions, user, a.found);
    SoleFlightRoomy(s, t, a.call, user);
  }

  lemma BeginOther(s: State, a: Action, user: nat)
    requires a.BeginLogin? && a.user != user && Roomy(s, user)
    ensures Roomy(Next(s, a), user)
  {
    var t := Next(s, a);
    forall c | c in t.calls && InFlight(t, c, user) ensures InFlight(s, c, user) && HasRoom(t, c, user) {
      assert HasRoom(s, c, user);
    }
  }

  lemma LeftSmaller(a: set<nat>, b: set<nat>, victims: set<nat>)
    requires a <= b
    ensures |a - victims| <= |b - victims|
  {
    SubsetSize(a - victims, b - victims);
  }

  lemma SwapLeft(a: set<nat>, x: nat, y: nat, victims: set<nat>)
    requires x in a && x !in victims
    ensures |(a - {x} + {y}) - victims| <= |a - victims|
  {
    SwapSize(a - victims, x, y);
    SubsetSize((a - {x} + {y}) - victims, a - victims - {x} + {y});
  }

  lemma OwnEviction(s: State, call: nat, user: nat)
    requires InFlight(s, call, user) && s.calls[call].victims != []
    ensures var Evict(_, victims, now) := s.calls[call];
            Next(s, Step(call))
            == s.(sessions := RevokeAll(s.sessions, {victims[0]}), calls := s.calls[call := Evict(user, victims[1..], now)])
  {
  }

  /** The login's own eviction: one victim fewer to come, one active session fewer. */
  lemma EvictRoomy(s: State, call: nat, user: nat)
    requires Roomy(s, user) && InFlight(s, call, user) && s.calls[call].victims != []
    ensures Roomy(Next(s, Step(call)), user)
  {
    var t, victims := Next(s, Step(call)), s.calls[call].victims;
    OwnEviction(s, call, user);
    RevokeActive(s.sessions, {victims[0]}, user);
    SubsetSize(ActiveIds(t.sessions, user), ActiveIds(s.sessions, user));
    OneVictimFewer(ActiveIds(s.sessions, user), victims);
    assert HasRoom(s, call, user);
    SoleFlightRoomy(s, t, call, user);
  }

  lemma OneVictimFewer(active: set<nat>, victims: seq<nat>)
    requires victims != []
    ensures active - {victims[0]} - Elements(victims[1..]) == active - Elements(victims)
  {
    assert Elements(victims) == {victims[0]} + Elements(victims[1..]);
  }

  lemma CreateRoomy(s: State, a: Action, user: nat)
    requires Sound(s) && Roomy(s, user) && CreatesFor(s, a, user)
    ensures Roomy(Next(s, a), user)
  {
    var t := Next(s, a);
    CreateCounts(s, a, user);
    assert InFlight(s, a.call, user) && HasRoom(s, a.call, user) && Elements<nat>([]) == {};
    assert ActiveIds(s.sessions, user) - {} == ActiveIds(s.sessions, user);
    SoleFlightRoomy(s, t, a.call, user);
  }

  /** Steps that are not the user's own login leave its pending victims alone. */
  lemma FlightsKept(s: State, a: Action, user: nat, c: nat)
    requires !a.BeginLogin? && !(a.Step? && InFlight(s, a.call, user))
    requires var t := Next(s, a); c in t.calls && InFlight(t, c, user)
    ensures InFlight(s, c, user) && s.calls[c] == Next(s, a).calls[c]
  {
  }

  /** Whatever another step leaves active, apart from the victims of a login in flight, is at most four. */
  lemma RoomLeft(s: State, a: Action, user: nat, c: nat)
    requires Sound(s) && !CreatesFor(s, a, user) && !Disturbs(s, a, user) && c in s.calls
    requires InFlight(s, c, user) && HasRoom(s, c, user)
    ensures |ActiveIds(Next(s, a).sessions, user) - Elements(s.calls[c].victims)| <= MAX_SESSIONS - 1
  {
    var before, after, victims := ActiveIds(s.sessions, user), ActiveIds(Next(s, a).sessions, user), Elements(s.calls[c].victims);
    OtherStepActive(s, a, user);
    if after <= before {
      LeftSmaller(after, before, victims);
    } else if after == {s.next} {
      SubsetSize(after - victims, after);
    } else {
      SwapLeft(before, s.calls[a.call].id, s.next, victims);
    }
  }

  lemma OtherRoomy(s: State, a: Action, user: nat)
    requires Sound(s) && Roomy(s, user) && !Disturbs(s, a, user)
    requires !a.BeginLogin? && !(a.Step? && InFlight(s, a.call, user))
    ensures Roomy(Next(s, a), user)
  {
    var t := Next(s, a);
    OtherStepCounts(s, a, user);
    forall c | c in t.calls && InFlight(t, c, user) ensures InFlight(s, c, user) && HasRoom(t, c, user) {
      FlightsKept(s, a, user, c);
      assert HasRoom(s, c, user);
      RoomLeft(s, a, user, c);
    }
  }

  lemma RoomyStep(s: State, a: Action, user: nat)
    requires Sound(s) && Roomy(s, user) && !Disturbs(s, a, user)
    ensures Roomy(Next(s, a), user)
  {
    if a.BeginLogin? {
      if a.user != user { BeginOther(s, a, user); } else if Next(s, a) != s { BeginOwn(s, a, user); }
    } else if a.Step? && InFlight(s, a.call, user) {
      if s.calls[a.call].victims == [] { CreateRoomy(s, a, user); } else { EvictRoomy(s, a.call, user); }
    } else {
      OtherRoomy(s, a, user);
    }
  }

  /** A user whose logins are not disturbed never has more than five, whatever all others do meanwhile. */
  lemma {:induction false} CapKept(s: State, run: seq<Action>, user: nat)
    requires Sound(s) && Roomy(s, user) && Undisturbed(s, run, user)
    ensures Roomy(Run(s, run), user) && !EverExceeds(s, run, user)
    decreases run
  {
    if run != [] {
      SoundStep(s, run[0]);
      RoomyStep(s, run[0], user);
      CapKept(Next(s, run[0]), run[1..], user);
    }
  }

  lemma NobodyAboveFive(run: seq<Action>, user: nat)
    requires Undisturbed(NO_SESSIONS, run, user)
    ensures !EverExceeds(NO_SESSIONS, run, user) && |ActiveIds(Run(NO_SESSIONS, run).sessions, user)| <= MAX_SESSIONS
  {
    assert ActiveIds(NO_SESSIONS.sessions, user) == {};
    CapKept(NO_SESSIONS, run, user);
  }

  // ---- What exceeds it

  /** Two logins that read the same four sessions. */
  function Overlap(user: nat, found: seq<nat>, now: int): seq<Action> {
    [BeginLogin(0, user, found, now), BeginLogin(1, user, found, now)] + [Step(0), Step(1)]
  }

  lemma OverlappingLoginsExceedCap(s: State, user: nat, found: seq<nat>, now: int)
    requires Sound(s) && s.calls == map[] && IsAnswer(s.sessions, user, found) && |found| == 4
    ensures |ActiveIds(Run(s, Overlap(user, found, now)).sessions, user)| == 6
  {
    var e := Evict(user, [], now);
    TwoSteps(s, BeginLogin(0, user, found, now), BeginLogin(1, user, found, now));
    var s2 := Run(s, [BeginLogin(0, user, found, now), BeginLogin(1, user, found, now)]);
    assert s2 == s.(calls := map[0 := e, 1 := e]);
    RunConcat(s, [BeginLogin(0, user, found, now), BeginLogin(1, user, found, now)], [Step(0), Step(1)]);
    TwoSteps(s2, Step(0), Step(1));
    SoundStep(s2, Step(0));
    CreateCounts(s2, Step(0), user);
    CreateCounts(Next(s2, Step(0)), Step(1), user);
    AnswerCounts(s.sessions, user, found);
  }

  /** A login that has read five sessions, and a rotation of the one it is about to evict. */
  function Crossing(user: nat, found: seq<nat>, now: int): seq<Action>
    requires found != []
  {
    [BeginLogin(0, user, found, now), Lookup(1, found[0], now)] + [Step(1), Step(0)] + [Step(0)]
  }

  lemma Crossed(s: State, user: nat, found: seq<nat>, now: int) returns (t: State)
    requires Sound(s) && s.calls == map[] && IsAnswer(s.sessions, user, found) && |found| == 5
    requires found[0] in s.sessions && s.sessions[found[0]].expiresAt > now
    ensures t == Run(s, [BeginLogin(0, user, found, now), Lookup(1, found[0], now)])
    ensures Sound(t) && t.sessions == s.sessions && t.next == s.next
    ensures t.calls == map[0 := Evict(user, [found[0]], now), 1 := Claim(found[0], now)]
  {
    TwoSteps(s, BeginLogin(0, user, found, now), Lookup(1, found[0], now));
    t := Run(s, [BeginLogin(0, user, found, now), Lookup(1, found[0], now)]);
    SoundStep(s, BeginLogin(0, user, found, now));
    SoundStep(Next(s, BeginLogin(0, user, found, now)), Lookup(1, found[0], now));
    assert Active(s.sessions, user, found[0]);
    assert Victims(found) == [found[0]];
  }

  /** The claim swaps the victim for a successor, and the eviction finds it revoked already. */
  lemma VictimRotated(t: State, user: nat, victim: nat, now: int) returns (u: State)
    requires Sound(t) && Active(t.sessions, user, victim)
    requires t.calls == map[0 := Evict(user, [victim], now), 1 := Claim(victim, now)]
    ensures u == Next(Next(t, Step(1)), Step(0)) && Sound(u)
    ensures u.calls == map[0 := Evict(user, [], now)]
    ensures ActiveIds(u.sessions, user) == ActiveIds(t.sessions, user) - {victim} + {t.next}
  {
    var t1 := Next(t, Step(1));
    assert t1 == DoClaim(t, 1, victim, now);
    ClaimActive(t, 1, victim, now, user);
    SoundStep(t, Step(1));
    assert t1.calls == map[0 := Evict(user, [victim], now)];
    u := EvictedAgain(t1, user, victim, now);
  }

  lemma EvictedAgain(t: State, user: nat, victim: nat, now: int) returns (u: State)
    requires Sound(t) && victim !in ActiveIds(t.sessions, user)
    requires t.calls == map[0 := Evict(user, [victim], now)]
    ensures u == Next(t, Step(0)) && Sound(u)
    ensures u.calls == map[0 := Evict(user, [], now)] && ActiveIds(u.sessions, user) == ActiveIds(t.sessions, user)
  {
    SoundStep(t, Step(0));
    u := Next(t, Step(0));
    assert u.sessions == RevokeAll(t.sessions, {victim}) && [victim][1..] == [];
    RevokeActive(t.sessions, {victim}, user);
  }

  lemma CrossedCounts(t: State, user: nat, victim: nat, now: int)
    requires Sound(t) && Active(t.sessions, user, victim) && |ActiveIds(t.sessions, user)| == 5
    requires t.calls == map[0 := Evict(user, [victim], now), 1 := Claim(victim, now)]
    ensures |ActiveIds(Next(Next(Next(t, Step(1)), Step(0)), Step(0)).sessions, user)| == 6
  {
    var u := VictimRotated(t, user, victim, now);
    CreateCounts(u, Step(0), user);
    var active := ActiveIds(t.sessions, user);
    assert victim in active && t.next !in active;
    assert |active - {victim}| == 4;
    assert |ActiveIds(u.sessions, user)| == 5;
  }

  lemma RotationDuringLoginExceedsCap(s: State, user: nat, found: seq<nat>, now: int)
    requires Sound(s) && s.calls == map[] && IsAnswer(s.sessions, user, found) && |found| == 5
    requires found[0] in s.sessions && s.sessions[found[0]].expiresAt > now
    ensures |ActiveIds(Run(s, Crossing(user, found, now)).sessions, user)| == 6
  {
    var first := [BeginLogin(0, user, found, now), Lookup(1, found[0], now)];
    var t := Crossed(s, user, found, now);
    assert Active(s.sessions, user, found[0]);
    AnswerCounts(s.sessions, user, found);
    CrossedCounts(t, user, found[0], now);
    TwoSteps(t, Step(1), Step(0));
    var t2 := Run(t, [Step(1), Step(0)]);
    RunConcat(s, first, [Step(1), Step(0)]);
    RunConcat(s, first + [Step(1), Step(0)], [Step(0)]);
    assert Run(t2, [Step(0)]) == Next(t2, Step(0));
  }

  // ---- Reached from an empty table

  /** A user with the sessions 0 to n - 1, one login after another. */
  function Opened(user: nat, n: nat): State {
    State(map k | k in Range(0, n) :: Session(user, k, false, k + LIFETIME, k), map[], n, [])
  }

  lemma OpenedAnswer(user: nat, n: nat)
    ensures Sound(Opened(user, n)) && IsAnswer(Opened(user, n).sessions, user, Range(0, n))
  {
    var sessions, found := Opened(user, n).sessions, Range(0, n);
    forall id: nat ensures id in found <==> id < n {
      if id < n { assert found[id] == id; }
    }
    forall i, j | 0 <= i < j < |found| ensures sessions[found[i]].refreshedAt <= sessions[found[j]].refreshedAt {
      assert found[i] in found && found[j] in found;
    }
  }

  lemma OneMoreLogin(user: nat, n: nat)
    requires n < MAX_SESSIONS
    ensures AfterLogin(Opened(user, n), user, Range(0, n), n) == Opened(user, n + 1)
  {
    var s := Opened(user, n);
    assert Elements(Victims(Range(0, n))) == {};
    assert RevokeAll(s.sessions, {}) == s.sessions;
    assert Range(0, n + 1) == Range(0, n) + [n];
    assert forall k | k in Range(0, n) :: k < n;
    var after, expected := AfterLogin(s, user, Range(0, n), n).sessions, Opened(user, n + 1).sessions;
    assert after == s.sessions[n := Session(user, n, false, n + LIFETIME, n)];
    forall k ensures k in after <==> k in expected { assert k in Range(0, n + 1) <==> k in Range(0, n) || k == n; }
    assert after == expected;
  }

  lemma {:induction false} OpenedReached(user: nat, n: nat) returns (run: seq<Action>)
    requires n <= MAX_SESSIONS
    ensures Run(NO_SESSIONS, run) == Opened(user, n)
    decreases n
  {
    if n == 0 {
      run := [];
      assert Opened(user, 0).sessions == map[];
    } else {
      var before := OpenedReached(user, n - 1);
      var found := Range(0, n - 1);
      OpenedAnswer(user, n - 1);
      LoginSteps(Opened(user, n - 1), 0, user, found, n - 1);
      OneMoreLogin(user, n - 1);
      var login := [BeginLogin(0, user, found, n - 1)] + Steps(0, |Victims(found)| + 1);
      RunConcat(NO_SESSIONS, before, login);
      run := before + login;
    }
  }

  /** Both happen to a user who logs in again and again from an empty table. */
  lemma SixReached(user: nat) returns (overlap: seq<Action>, crossing: seq<Action>)
    ensures |ActiveIds(Run(NO_SESSIONS, overlap).sessions, user)| == 6
    ensures |ActiveIds(Run(NO_SESSIONS, crossing).sessions, user)| == 6
  {
    var four := OpenedReached(user, 4);
    OpenedAnswer(user, 4);
    OverlappingLoginsExceedCap(Opened(user, 4), user, Range(0, 4), 4);
    RunConcat(NO_SESSIONS, four, Overlap(user, Range(0, 4), 4));
    overlap := four + Overlap(user, Range(0, 4), 4);
    var five := OpenedReached(user, 5);
    OpenedAnswer(user, 5);
    RotationDuringLoginExceedsCap(Opened(user, 5), user, Range(0, 5), 5);
    RunConcat(NO_SESSIONS, five, Crossing(user, Range(0, 5), 5));
    crossing := five + Crossing(user, Range(0, 5), 5);
  }
}
