/** What logins, rotations and logouts write, and the line of tokens that one token has been exchanged for. */
module SessionLineage {
  import opened Collections
  import opened Sessions
  import opened SessionCaps

  const WEEK := 604_800_000

  // ---- Rows

  /** Rows that satisfy a condition are revoked, and nothing else changes in those there were. */
  ghost predicate RevokesExactly(before: map<nat, Session>, after: map<nat, Session>, gone: set<nat>) {
    forall id | id in before :: id in after && after[id] == if id in gone then before[id].(revoked := true) else before[id]
  }

  ghost predicate SameKeys(before: map<nat, Session>, after: map<nat, Session>) {
    forall id | id in after :: id in before
  }

  /** One new row, under the next id: unrevoked, for a week. */
  ghost predicate Opens(s: State, t: State, user: nat, family: nat, now: int) {
    && t.next == s.next + 1
    && (forall id | id in t.sessions :: id in s.sessions || id == s.next)
    && s.next !in s.sessions && s.next in t.sessions
    && t.sessions[s.next] == Session(user, family, false, now + WEEK, now)
  }

  /** A driver's login revokes all of the user's sessions and opens one, in a family of its own. */
  lemma DriverLoginExact(s: State, user: nat, now: int)
    requires Sound(s)
    ensures var t := Next(s, LoginDriver(user, now));
      && RevokesExactly(s.sessions, t.sessions, set id | id in s.sessions && s.sessions[id].user == user)
      && Opens(s, t, user, s.next, now) && t.calls == s.calls
  {
  }

  /** Any other login revokes the first found, all but four, when it found five or more, and opens one. */
  lemma LoginExact(s: State, call: nat, user: nat, found: seq<nat>, now: int)
    requires Sound(s) && call !in s.calls && IsAnswer(s.sessions, user, found)
    ensures var t := Run(s, [BeginLogin(call, user, found, now)] + Steps(call, |Victims(found)| + 1));
      && RevokesExactly(s.sessions, t.sessions, if |found| >= 5 then Elements(found[..|found| - 4]) else {})
      && Opens(s, t, user, s.next, now) && t.calls == s.calls
  {
    LoginSteps(s, call, user, found, now);
  }

  /** Logout revokes one session, a revocation of a user all of that user's. */
  lemma RevocationsExact(s: State, id: nat, user: nat)
    ensures var t := Next(s, RevokeSession(id));
            RevokesExactly(s.sessions, t.sessions, {id}) && SameKeys(s.sessions, t.sessions) && t == s.(sessions := t.sessions)
    ensures var t := Next(s, RevokeUser(user));
      && RevokesExactly(s.sessions, t.sessions, set k | k in s.sessions && s.sessions[k].user == user)
      && SameKeys(s.sessions, t.sessions) && t == s.(sessions := t.sessions)
  {
  }

  // ---- Rotation

  /** The step exchanges this token for a successor. */
  predicate Exchanges(s: State, a: Action, token: nat) {
    && a.Step? && a.call in s.calls && s.calls[a.call].Claim? && s.calls[a.call].id == token
    && token in s.sessions && !s.sessions[token].revoked
  }

  /** The token's row is revoked, and a row of the same user and the same family is opened for a week. */
  ghost predicate Succeeds(s: State, t: State, token: nat, now: int)
    requires token in s.sessions
  {
    && Opens(s, t, s.sessions[token].user, s.sessions[token].family, now)
    && forall id | id in s.sessions ::
         && id in t.sessions
         && t.sessions[id] == if id == token then s.sessions[id].(revoked := true, refreshedAt := now) else s.sessions[id]
  }

  lemma ExchangeExact(s: State, a: Action, token: nat)
    requires Sound(s) && Exchanges(s, a, token)
    ensures Succeeds(s, Next(s, a), token, s.calls[a.call].now) && Next(s, a).calls == s.calls - {a.call}
  {
  }

  /** Every row of the token's family is revoked, and nothing else changes. */
  ghost predicate EndsFamily(s: State, t: State, token: nat)
    requires token in s.sessions
  {
    && RevokesExactly(s.sessions, t.sessions, set id | id in s.sessions && s.sessions[id].family == s.sessions[token].family)
    && SameKeys(s.sessions, t.sessions) && t == s.(sessions := t.sessions)
  }

  lemma ReuseAlone(s: State, call: nat, token: nat, now: int)
    requires call !in s.calls && token in s.sessions && (s.sessions[token].revoked || now >= s.sessions[token].expiresAt)
    ensures EndsFamily(s, Next(Next(s, Lookup(call, token, now)), Step(call)), token)
  {
    var s1 := Next(s, Lookup(call, token, now));
    assert s1.calls[call] == RevokeFamily(s.sessions[token].family);
    assert s1.calls - {call} == s.calls;
  }

  /** A rotation with nothing in between: an unknown token is refused, a revoked or expired one costs its whole family,
      any other is exchanged. */
  lemma RotateAlone(s: State, call: nat, token: nat, now: int)
    requires Sound(s) && call !in s.calls
    ensures var t := Run(s, [Lookup(call, token, now), Step(call)]);
            if token !in s.sessions then t == s
            else if s.sessions[token].revoked || now >= s.sessions[token].expiresAt then EndsFamily(s, t, token)
            else Succeeds(s, t, token, now) && t.calls == s.calls
  {
    TwoSteps(s, Lookup(call, token, now), Step(call));
    var s1 := Next(s, Lookup(call, token, now));
    if token in s.sessions {
      assert s1.calls - {call} == s.calls;
      if s.sessions[token].revoked || now >= s.sessions[token].expiresAt {
        ReuseAlone(s, call, token, now);
      } else {
        ExchangeExact(s1, Step(call), token);
      }
    }
  }

  // ---- A token's line

  /** The line grows by the successor whenever one of its tokens is exchanged. */
  function Grown(s: State, a: Action, line: set<nat>): set<nat> {
    if a.Step? && a.call in s.calls && s.calls[a.call].Claim? && s.calls[a.call].id in line
       && Exchanges(s, a, s.calls[a.call].id)
    then line + {s.next} else line
  }

  /** What the tokens of a line have been exchanged for over a run, and what that has been exchanged for, and so on. */
  ghost function Line(s: State, run: seq<Action>, line: set<nat>): set<nat>
    decreases run
  {
    if run == [] then line else Line(Next(s, run[0]), run[1..], Grown(s, run[0], line))
  }

  ghost predicate InFamily(s: State, line: set<nat>, family: nat) {
    forall id | id in line :: id in s.sessions && s.sessions[id].family == family
  }

  lemma GrownInFamily(s: State, a: Action, line: set<nat>, family: nat)
    requires Sound(s) && InFamily(s, line, family)
    ensures InFamily(Next(s, a), Grown(s, a, line), family)
  {
    SoundStep(s, a);
    if Grown(s, a, line) != line { ExchangeExact(s, a, s.calls[a.call].id); }
  }

  /** A whole line stays in one family, whatever runs. */
  lemma {:induction false} LineInFamily(s: State, run: seq<Action>, line: set<nat>, family: nat)
    requires Sound(s) && InFamily(s, line, family)
    ensures InFamily(Run(s, run), Line(s, run, line), family)
    decreases run
  {
    if run != [] {
      SoundStep(s, run[0]);
      GrownInFamily(s, run[0], line, family);
      LineInFamily(Next(s, run[0]), run[1..], Grown(s, run[0], line), family);
    }
  }

  /** A token that is presented again after it was revoked, by its exchange or otherwise, takes everything down that it was
      ever exchanged for, directly or over more exchanges: once the family revocation has had its turn no token of the line
      is unrevoked, whatever ran before, runs in between and runs after. */
  lemma ReuseRevokesLine(s: State, token: nat, before: seq<Action>, call: nat, now: int, between: seq<Action>, after: seq<Action>)
    requires Sound(s) && token in s.sessions && Leaves(between, call)
    requires var t := Run(s, before);
             token in t.sessions && t.sessions[token].revoked && call !in t.calls
    ensures var run := before + ([Lookup(call, token, now)] + (between + ([Step(call)] + after)));
            forall id | id in Line(s, run, {token}) :: id in Run(s, run).sessions && Run(s, run).sessions[id].revoked
  {
    var family := s.sessions[token].family;
    var rest := [Lookup(call, token, now)] + (between + ([Step(call)] + after));
    var t := Run(s, before);
    FamilySafety(s, before);
    LineInFamily(s, before + rest, {token}, family);
    ReuseIsFatal(t, call, token, now, between, after);
    RunConcat(s, before, rest);
    var u := Next(t, Lookup(call, token, now));
    assert rest[1..] == between + ([Step(call)] + after);
    RunConcat(u, between, [Step(call)] + after);
    assert ([Step(call)] + after)[1..] == after;
    assert Dead(Run(s, before + rest), family);
  }
}
