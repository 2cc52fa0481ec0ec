/**
Refresh-token sessions: login, rotation, reuse detection, logout.

A rotation looks its session up in one database call and claims it in another; the family revocation after a
reuse is a third. Anything may run in between. A driver's login is one transaction. Which kind of login it is goes by
the role it read when it began; roles may change at any time, so any user may log in either way. Row ids and families
are numbers never used before; every row holds a refresh token of its own, so a row id also names its token.
*/
module Sessions {
  import opened Wrappers

  datatype Session = Session(user: nat, family: nat, revoked: bool, expiresAt: int, refreshedAt: int)

  datatype Call =
    | Claim(id: nat, now: int)
    | RevokeFamily(family: nat)
    | Evict(user: nat, victims: seq<nat>, now: int)

  /** `rotated` is history only: the rows whose token was exchanged for a new one, in order. */
  datatype State = State(sessions: map<nat, Session>, calls: map<nat, Call>, next: nat, rotated: seq<nat>)

  datatype Action =
    | LoginDriver(user: nat, now: int)
    | BeginLogin(call: nat, user: nat, found: seq<nat>, now: int)
    | Lookup(call: nat, token: nat, now: int)
    | Step(call: nat)
    | RevokeSession(id: nat)
    | RevokeUser(user: nat)

  const LIFETIME := 7 * 24 * 60 * 60 * 1000
  const MAX_SESSIONS := 5

  predicate Active(sessions: map<nat, Session>, user: nat, id: nat) {
    id in sessions && sessions[id].user == user && !sessions[id].revoked
  }

  function ActiveIds(sessions: map<nat, Session>, user: nat): set<nat> {
    set id | id in sessions && Active(sessions, user, id)
  }

  function Revoke(s: Session): Session { s.(revoked := true) }

  /** updateMany with a set of matched rows. */
  function RevokeAll(sessions: map<nat, Session>, ids: set<nat>): map<nat, Session> {
    map id | id in sessions :: if id in ids then Revoke(sessions[id]) else sessions[id]
  }

  function FamilyIds(sessions: map<nat, Session>, family: nat): set<nat> {
    set id | id in sessions && sessions[id].family == family
  }

  /** A new row in a family, under a fresh id. */
  function Create(s: State, user: nat, family: nat, now: int): State {
    s.(sessions := s.sessions[s.next := Session(user, family, false, now + LIFETIME, now)], next := s.next + 1)
  }

  /** What the query for a user's active sessions, least recently refreshed first, may return. */
  ghost predicate IsAnswer(sessions: map<nat, Session>, user: nat, found: seq<nat>) {
    && (forall i, j | 0 <= i < j < |found| :: found[i] != found[j])
    && (forall id | id in found :: Active(sessions, user, id))
    && (forall id | Active(sessions, user, id) :: id in found)
    && (forall i, j | 0 <= i < j < |found| && found[i] in sessions && found[j] in sessions ::
          sessions[found[i]].refreshedAt <= sessions[found[j]].refreshedAt)
  }

  function Victims(found: seq<nat>): seq<nat> {
    if |found| >= MAX_SESSIONS then found[..|found| - (MAX_SESSIONS - 1)] else []
  }

  function SetCall(s: State, call: nat, c: Option<Call>): State {
    s.(calls := if c.Some? then s.calls[call := c.value] else s.calls - {call})
  }

  function DoLoginDriver(s: State, user: nat, now: int): State {
    Create(s.(sessions := RevokeAll(s.sessions, ActiveIds(s.sessions, user))), user, s.next, now)
  }

  /** The lookup half of a rotation. */
  function DoLookup(s: State, call: nat, token: nat, now: int): State {
    if token !in s.sessions then s
    else if s.sessions[token].revoked || s.sessions[token].expiresAt <= now
    then SetCall(s, call, Some(RevokeFamily(s.sessions[token].family)))
    else SetCall(s, call, Some(Claim(token, now)))
  }

  /** The claim half: compare-and-set on `revoked`, then the successor row, in one transaction. */
  function DoClaim(s: State, call: nat, id: nat, now: int): State {
    if id !in s.sessions then SetCall(s, call, None)
    else if s.sessions[id].revoked then SetCall(s, call, Some(RevokeFamily(s.sessions[id].family)))
    else
      var row := s.sessions[id];
      var t := s.(sessions := s.sessions[id := row.(revoked := true, refreshedAt := now)], rotated := s.rotated + [id]);
      SetCall(Create(t, row.user, row.family, now), call, None)
  }

  function DoEvict(s: State, call: nat, user: nat, victims: seq<nat>, now: int): State {
    if victims == [] then SetCall(Create(s, user, s.next, now), call, None)
    else SetCall(s.(sessions := RevokeAll(s.sessions, {victims[0]})), call, Some(Evict(user, victims[1..], now)))
  }

  ghost function Next(s: State, a: Action): State {
    match a
    case LoginDriver(user, now) => DoLoginDriver(s, user, now)
    case BeginLogin(call, user, found, now) =>
      if call in s.calls || !IsAnswer(s.sessions, user, found) then s
      else SetCall(s, call, Some(Evict(user, Victims(found), now)))
    case Lookup(call, token, now) => if call in s.calls then s else DoLookup(s, call, token, now)
    case Step(call) =>
      if call !in s.calls then s
      else (
        match s.calls[call]
        case Claim(id, now) => DoClaim(s, call, id, now)
        case RevokeFamily(family) =>
          SetCall(s.(sessions := RevokeAll(s.sessions, FamilyIds(s.sessions, family))), call, None)
        case Evict(user, victims, now) => DoEvict(s, call, user, victims, now))
    case RevokeSession(id) => s.(sessions := RevokeAll(s.sessions, {id}))
    case RevokeUser(user) => s.(sessions := RevokeAll(s.sessions, ActiveIds(s.sessions, user)))
  }

  ghost function Run(s: State, run: seq<Action>): State
    decreases run
  {
    if run == [] then s else Run(Next(s, run[0]), run[1..])
  }

  const NO_SESSIONS := State(map[], map[], 0, [])

  lemma {:induction false} RunConcat(s: State, a: seq<Action>, b: seq<Action>)
    ensures Run(s, a + b) == Run(Run(s, a), b)
    decreases a
  {
    if a == [] {
      assert a + b == b;
    } else {
      assert (a + b)[0] == a[0] && (a + b)[1..] == a[1..] + b;
      RunConcat(Next(s, a[0]), a[1..], b);
    }
  }

  lemma TwoSteps(s: State, a: Action, b: Action)
    ensures Run(s, [a, b]) == Next(Next(s, a), b)
  {
    assert [a, b][1..] == [b];
    assert Run(Next(s, a), [b]) == Next(Next(s, a), b);
  }

  // ---- The invariant

  ghost predicate RowsBelow(sessions: map<nat, Session>, next: nat) {
    forall id | id in sessions :: id < next && sessions[id].family < next
  }

  /** At most one unrevoked session in each family. */
  ghost predicate OnePerFamily(sessions: map<nat, Session>) {
    forall a, b | a in sessions && b in sessions && !sessions[a].revoked && !sessions[b].revoked
      && sessions[a].family == sessions[b].family :: a == b
  }

  ghost predicate RotatedOnce(sessions: map<nat, Session>, rotated: seq<nat>) {
    && (forall k | k in rotated :: k in sessions && sessions[k].revoked)
    && (forall i, j | 0 <= i < j < |rotated| :: rotated[i] != rotated[j])
  }

  ghost predicate Sound(s: State) {
    RowsBelow(s.sessions, s.next) && OnePerFamily(s.sessions) && RotatedOnce(s.sessions, s.rotated)
  }

  /** Rows never go, never change owner or family, and a revoked row stays revoked. */
  ghost predicate Ages(s: map<nat, Session>, t: map<nat, Session>) {
    forall id | id in s ::
      && id in t && t[id].user == s[id].user && t[id].family == s[id].family
      && (s[id].revoked ==> t[id].revoked)
  }

  lemma RevokeAllSound(s: State, ids: set<nat>)
    requires Sound(s)
    ensures Sound(s.(sessions := RevokeAll(s.sessions, ids))) && Ages(s.sessions, RevokeAll(s.sessions, ids))
  {
  }

  /** A new row is sound when it opens a family, or succeeds a family's last unrevoked row. */
  lemma CreateSound(s: State, user: nat, family: nat, now: int)
    requires Sound(s) && family <= s.next
    requires forall id | id in s.sessions && s.sessions[id].family == family :: s.sessions[id].revoked
    ensures Sound(Create(s, user, family, now)) && Ages(s.sessions, Create(s, user, family, now).sessions)
  {
  }

  lemma ClaimSound(s: State, call: nat, id: nat, now: int)
    requires Sound(s)
    ensures Sound(DoClaim(s, call, id, now)) && Ages(s.sessions, DoClaim(s, call, id, now).sessions)
  {
    if id in s.sessions && !s.sessions[id].revoked {
      var row := s.sessions[id];
      var t := s.(sessions := s.sessions[id := row.(revoked := true, refreshedAt := now)], rotated := s.rotated + [id]);
      assert Sound(t) && Ages(s.sessions, t.sessions);
      CreateSound(t, row.user, row.family, now);
    }
  }

  lemma SoundStep(s: State, a: Action)
    requires Sound(s)
    ensures Sound(Next(s, a)) && Ages(s.sessions, Next(s, a).sessions)
  {
    match a
    case LoginDriver(user, now) =>
      RevokeAllSound(s, ActiveIds(s.sessions, user));
      CreateSound(s.(sessions := RevokeAll(s.sessions, ActiveIds(s.sessions, user))), user, s.next, now);
    case Step(call) =>
      if call in s.calls {
        match s.calls[call]
        case Claim(id, now) => ClaimSound(s, call, id, now);
        case RevokeFamily(family) => RevokeAllSound(s, FamilyIds(s.sessions, family));
        case Evict(user, victims, now) =>
          if victims == [] { CreateSound(s, user, s.next, now); } else { RevokeAllSound(s, {victims[0]}); }
      }
    case RevokeSession(id) => RevokeAllSound(s, {id});
    case RevokeUser(user) => RevokeAllSound(s, ActiveIds(s.sessions, user));
    case _ =>
  }

  // ---- Whole runs

  /** In every interleaving: one unrevoked session per family, and no token rotates twice. */
  lemma {:induction false} FamilySafety(s: State, run: seq<Action>)
    requires Sound(s)
    ensures Sound(Run(s, run)) && Ages(s.sessions, Run(s, run).sessions)
    decreases run
  {
    if run != [] {
      SoundStep(s, run[0]);
      FamilySafety(Next(s, run[0]), run[1..]);
    }
  }

  /** A family all of whose rows are revoked. */
  ghost predicate Dead(s: State, family: nat) {
    family < s.next && forall id | id in s.sessions && s.sessions[id].family == family :: s.sessions[id].revoked
  }

  /** Reuse detection kills the family, whatever else is in flight. */
  lemma ReuseKillsFamily(s: State, call: nat)
    requires Sound(s) && call in s.calls && s.calls[call].RevokeFamily? && s.calls[call].family < s.next
    ensures Dead(Next(s, Step(call)), s.calls[call].family)
  {
  }

  /** Presenting a revoked token, or losing the claim race, always ends in that family's revocation. */
  lemma ReuseIsDetected(s: State, call: nat, token: nat, now: int)
    requires Sound(s) && token in s.sessions && s.sessions[token].revoked
    ensures call !in s.calls ==>
              var t := Next(s, Lookup(call, token, now));
              call in t.calls && t.calls[call] == RevokeFamily(s.sessions[token].family)
    ensures call in s.calls && s.calls[call] == Claim(token, now) ==>
              var t := Next(s, Step(call));
              call in t.calls && t.calls[call] == RevokeFamily(s.sessions[token].family) && t.sessions == s.sessions
  {
  }

  /** A dead family stays dead: no later step gives it an active session again. */
  lemma {:induction false} DeadStaysDead(s: State, run: seq<Action>, family: nat)
    requires Sound(s) && Dead(s, family)
    ensures Dead(Run(s, run), family)
    decreases run
  {
    if run != [] {
      SoundStep(s, run[0]);
      DeadStep(s, run[0], family);
      DeadStaysDead(Next(s, run[0]), run[1..], family);
    }
  }

  lemma DeadStep(s: State, a: Action, family: nat)
    requires Sound(s) && Dead(s, family)
    ensures Dead(Next(s, a), family)
  {
  }

  ghost predicate Leaves(run: seq<Action>, call: nat) {
    Step(call) !in run
  }

  lemma {:induction false} PendingStays(s: State, run: seq<Action>, call: nat)
    requires call in s.calls && Leaves(run, call)
    ensures var t := Run(s, run);
            call in t.calls && t.calls[call] == s.calls[call] && t.next >= s.next
    decreases run
  {
    if run != [] {
      assert run[0] in run;
      PendingStays(Next(s, run[0]), run[1..], call);
    }
  }

  /** A token that is presented after it was revoked ends its family for good, whatever runs before the family
      revocation gets its turn and whatever runs after. */
  lemma ReuseIsFatal(s: State, call: nat, token: nat, now: int, before: seq<Action>, after: seq<Action>)
    requires Sound(s) && token in s.sessions && s.sessions[token].revoked && call !in s.calls && Leaves(before, call)
    ensures var detected := Run(Next(s, Lookup(call, token, now)), before);
            Dead(Run(Next(detected, Step(call)), after), s.sessions[token].family)
  {
    var family := s.sessions[token].family;
    SoundStep(s, Lookup(call, token, now));
    ReuseIsDetected(s, call, token, now);
    var found := Next(s, Lookup(call, token, now));
    PendingStays(found, before, call);
    FamilySafety(found, before);
    var detected := Run(found, before);
    ReuseKillsFamily(detected, call);
    SoundStep(detected, Step(call));
    DeadStaysDead(Next(detected, Step(call)), after, family);
  }

  // ---- A driver's one session

  ghost predicate SingleSession(sessions: map<nat, Session>, user: nat) {
    forall a, b | Active(sessions, user, a) && Active(sessions, user, b) :: a == b
  }

  /** The last step of a login that read another role than driver. */
  predicate CreatesFor(s: State, a: Action, user: nat) {
    a.Step? && a.call in s.calls && s.calls[a.call].Evict? && s.calls[a.call].user == user && s.calls[a.call].victims == []
  }

  predicate OpensSecond(s: State, a: Action, user: nat) {
    CreatesFor(s, a, user) && ActiveIds(s.sessions, user) != {}
  }

  lemma CreateIsSecond(s: State, a: Action, user: nat)
    requires Sound(s) && OpensSecond(s, a, user)
    ensures !SingleSession(Next(s, a).sessions, user)
  {
    var b :| b in ActiveIds(s.sessions, user);
    assert Active(Next(s, a).sessions, user, b) && Active(Next(s, a).sessions, user, s.next);
  }

  /** The active sessions any other step leaves were active before, or there is just the new one. */
  lemma OthersStaySingle(s: State, a: Action, user: nat)
    requires Sound(s) && SingleSession(s.sessions, user) && !OpensSecond(s, a, user)
    ensures SingleSession(Next(s, a).sessions, user)
  {
    var t := Next(s, a);
    if a.Step? && a.call in s.calls && s.calls[a.call].Claim? {
      var id := s.calls[a.call].id;
      if id in s.sessions && !s.sessions[id].revoked && s.sessions[id].user == user {
        assert Active(s.sessions, user, id);
        forall b | Active(t.sessions, user, b) ensures b == s.next {
          if b != s.next { assert Active(s.sessions, user, b); }
        }
      } else {
        forall b | Active(t.sessions, user, b) ensures Active(s.sessions, user, b) { }
      }
    } else if CreatesFor(s, a, user) {
      forall b | Active(t.sessions, user, b) ensures b == s.next {
        assert b != s.next ==> b in ActiveIds(s.sessions, user);
      }
    } else if a.LoginDriver? && a.user == user {
      forall b | Active(t.sessions, user, b) ensures b == s.next {
        assert b != s.next ==> b in ActiveIds(s.sessions, user);
      }
    } else {
      forall b | Active(t.sessions, user, b) ensures Active(s.sessions, user, b) { }
    }
  }

  ghost predicate EverTwo(s: State, run: seq<Action>, user: nat)
    decreases run
  {
    !SingleSession(s.sessions, user) || (run != [] && EverTwo(Next(s, run[0]), run[1..], user))
  }

  ghost predicate HasSecond(s: State, run: seq<Action>, user: nat)
    decreases run
  {
    run != [] && (OpensSecond(s, run[0], user) || HasSecond(Next(s, run[0]), run[1..], user))
  }

  /** Whatever roles the logins read: a user ever has two active sessions if and only if a login that did not read the
      role driver creates its session while one is active. */
  lemma {:induction false} EverTwoExactly(s: State, run: seq<Action>, user: nat)
    requires Sound(s) && SingleSession(s.sessions, user)
    ensures EverTwo(s, run, user) <==> HasSecond(s, run, user)
    decreases run
  {
    if run != [] {
      SoundStep(s, run[0]);
      if OpensSecond(s, run[0], user) {
        CreateIsSecond(s, run[0], user);
        assert EverTwo(Next(s, run[0]), run[1..], user);
      } else {
        OthersStaySingle(s, run[0], user);
        EverTwoExactly(Next(s, run[0]), run[1..], user);
      }
    }
  }

  /** Every login of this user, in flight or in the run, reads the role driver. */
  predicate OnlyDriverLogins(s: State, run: seq<Action>, user: nat) {
    && (forall c | c in s.calls && s.calls[c].Evict? :: s.calls[c].user != user)
    && (forall a | a in run && a.BeginLogin? :: a.user != user)
  }

  lemma DriverLoginsStep(s: State, run: seq<Action>, user: nat)
    requires run != [] && OnlyDriverLogins(s, run, user)
    ensures OnlyDriverLogins(Next(s, run[0]), run[1..], user) && !OpensSecond(s, run[0], user)
  {
    assert run[0] in run;
  }

  /** A user who only logs in as a driver never has two active sessions, whatever the others are and do. */
  lemma {:induction false} DriversHaveOneSession(s: State, run: seq<Action>, user: nat)
    requires Sound(s) && SingleSession(s.sessions, user) && OnlyDriverLogins(s, run, user)
    ensures SingleSession(Run(s, run).sessions, user) && !EverTwo(s, run, user)
    decreases run
  {
    if run != [] {
      SoundStep(s, run[0]);
      DriverLoginsStep(s, run, user);
      OthersStaySingle(s, run[0], user);
      DriversHaveOneSession(Next(s, run[0]), run[1..], user);
    }
  }

  /** A role change revokes the user's sessions after it; from there on there are ever two exactly as above, so a user
      made a driver has one unless a login from before the change is still in flight. */
  lemma TwoAfterRoleChange(s: State, run: seq<Action>, user: nat)
    requires Sound(s)
    ensures var t := Next(s, RevokeUser(user));
            && (EverTwo(t, run, user) <==> HasSecond(t, run, user))
            && (OnlyDriverLogins(s, run, user) ==> !EverTwo(t, run, user))
  {
    var t := Next(s, RevokeUser(user));
    SoundStep(s, RevokeUser(user));
    assert SingleSession(t.sessions, user);
    EverTwoExactly(t, run, user);
    if OnlyDriverLogins(s, run, user) { DriversHaveOneSession(t, run, user); }
  }

  /** It happens: a login begun before the change creates its session after a login as a driver. */
  lemma OldLoginOpensSecond(user: nat)
    ensures var run := [BeginLogin(0, user, [], 0), RevokeUser(user), LoginDriver(user, 1), Step(0)];
            ActiveIds(Run(NO_SESSIONS, run).sessions, user) == {0, 1}
  {
    var run := [BeginLogin(0, user, [], 0), RevokeUser(user), LoginDriver(user, 1), Step(0)];
    var s1 := Next(NO_SESSIONS, run[0]);
    assert s1 == NO_SESSIONS.(calls := map[0 := Evict(user, [], 0)]);
    var s2 := Next(s1, run[1]);
    assert s2 == s1;
    var s3 := Next(s2, run[2]);
    assert s3.sessions == map[0 := Session(user, 0, false, 1 + LIFETIME, 1)] && s3.next == 1 && s3.calls == s1.calls;
    var s4 := Next(s3, run[3]);
    assert s4.sessions == s3.sessions[1 := Session(user, 1, false, LIFETIME, 0)];
    assert run[1..][1..][1..] == [Step(0)] && Run(s3, [Step(0)]) == s4;
    assert Run(s2, run[1..][1..]) == s4;
  }

  /** From an empty table, whatever runs: one unrevoked session per family, no token exchanged twice, one per driver. */
  lemma SessionsFromEmpty(run: seq<Action>, user: nat)
    ensures var s := Run(NO_SESSIONS, run);
            OnePerFamily(s.sessions) && RotatedOnce(s.sessions, s.rotated)
            && (!HasSecond(NO_SESSIONS, run, user) ==> SingleSession(s.sessions, user))
  {
    FamilySafety(NO_SESSIONS, run);
    EverTwoExactly(NO_SESSIONS, run, user);
    if !EverTwo(NO_SESSIONS, run, user) { NeverTwoAtEnd(NO_SESSIONS, run, user); }
  }

  lemma {:induction false} NeverTwoAtEnd(s: State, run: seq<Action>, user: nat)
    requires !EverTwo(s, run, user)
    ensures SingleSession(Run(s, run).sessions, user)
    decreases run
  {
    if run != [] { NeverTwoAtEnd(Next(s, run[0]), run[1..], user); }
  }
}
