/** The two-slot limiter in front of image processing: a counter, a queue of waiters and their timers. */
module Limiter {
  import opened Collections

  const MAX_CONCURRENCY := 2

  /** What an acquire call has come to; Released means its holder has given the slot back. */
  datatype Ticket = Waiting | Holding | TimedOut | Released

  /** The limiter's own fields, the armed timers, and every call's ticket. `arrivals` are the calls that had to
      queue and `resumed` those a release has let in, both in order. */
  datatype State = State(
    active: int, queue: seq<nat>, timers: set<nat>, tickets: map<nat, Ticket>, arrivals: seq<nat>, resumed: seq<nat>)

  datatype Action = Acquire(id: nat) | Release(id: nat) | Timeout(id: nat)

  const EMPTY := State(0, [], {}, map[], [], [])

  function Without(s: seq<nat>, id: nat): seq<nat> {
    if s == [] then [] else (if s[0] == id then [] else [s[0]]) + Without(s[1..], id)
  }

  /** The first position of an element, or -1. */
  function IndexOf(s: seq<nat>, id: nat): (i: int)
    ensures if id in s then 0 <= i < |s| && s[i] == id else i == -1
  {
    if s == [] then -1
    else if s[0] == id then 0
    else
      var i := IndexOf(s[1..], id);
      if i == -1 then -1 else i + 1
  }

  /** One call of acquire, one release by a holder, or one armed timer running out. */
  function Next(s: State, a: Action): State {
    match a
    case Acquire(id) =>
      if id in s.tickets then s
      else if s.active < MAX_CONCURRENCY then s.(active := s.active + 1, tickets := s.tickets[id := Holding])
      else s.(queue := s.queue + [id], timers := s.timers + {id}, tickets := s.tickets[id := Waiting], arrivals := s.arrivals + [id])
    case Release(id) =>
      if id !in s.tickets || s.tickets[id] != Holding then s
      else if s.queue != [] then
        s.(queue := s.queue[1..], timers := s.timers - {s.queue[0]},
           tickets := s.tickets[id := Released][s.queue[0] := Holding], resumed := s.resumed + [s.queue[0]])
      else s.(active := if s.active - 1 < 0 then 0 else s.active - 1, tickets := s.tickets[id := Released])
    case Timeout(id) =>
      if id !in s.timers then s
      else s.(queue := Without(s.queue, id), timers := s.timers - {id}, tickets := s.tickets[id := TimedOut])
  }

  function Run(s: State, run: seq<Action>): State
    decreases run
  {
    if run == [] then s else Run(Next(s, run[0]), run[1..])
  }

  function Holders(tickets: map<nat, Ticket>): set<nat> {
    set id | id in tickets && tickets[id] == Holding
  }

  function Waiters(tickets: map<nat, Ticket>): set<nat> {
    set id | id in tickets && tickets[id] == Waiting
  }

  /** The calls that queued and did not time out, in order. */
  function Patient(arrivals: seq<nat>, tickets: map<nat, Ticket>): seq<nat> {
    if arrivals == [] then []
    else (if arrivals[0] in tickets && tickets[arrivals[0]] == TimedOut then [] else [arrivals[0]]) + Patient(arrivals[1..], tickets)
  }

  ghost predicate SlotsSound(s: State) {
    && |Holders(s.tickets)| == s.active <= MAX_CONCURRENCY
    && (s.queue != [] ==> s.active == MAX_CONCURRENCY)
  }

  ghost predicate QueueSound(s: State) {
    && Distinct(s.arrivals)
    && (forall id | id in s.arrivals :: id in s.tickets)
    && Patient(s.arrivals, s.tickets) == s.resumed + s.queue
    && (forall id :: id in s.queue <==> id in Waiters(s.tickets))
    && s.timers == Waiters(s.tickets)
    && (forall id | id in s.resumed :: id in s.tickets && s.tickets[id] in {Holding, Released})
  }

  ghost predicate Sound(s: State) {
    SlotsSound(s) && QueueSound(s)
  }

  predicate Has(s: State, id: nat, ticket: Ticket) {
    id in s.tickets && s.tickets[id] == ticket
  }

  // ---- Sequences

  lemma {:induction false} WithoutElements(s: seq<nat>, id: nat)
    ensures forall x :: x in Without(s, id) <==> x in s && x != id
    ensures id !in s ==> Without(s, id) == s
  {
    if s != [] { WithoutElements(s[1..], id); }
  }

  lemma {:induction false} WithoutConcat(a: seq<nat>, b: seq<nat>, id: nat)
    ensures Without(a + b, id) == Without(a, id) + Without(b, id)
  {
    if a == [] {
      assert a + b == b;
    } else {
      WithoutConcat(a[1..], b, id);
      assert (a + b)[0] == a[0] && (a + b)[1..] == a[1..] + b;
      var head := if a[0] == id then [] else [a[0]];
      assert head + (Without(a[1..], id) + Without(b, id)) == head + Without(a[1..], id) + Without(b, id);
    }
  }

  lemma {:induction false} PatientElements(arrivals: seq<nat>, tickets: map<nat, Ticket>)
    ensures forall x :: x in Patient(arrivals, tickets) <==> x in arrivals && !(x in tickets && tickets[x] == TimedOut)
  {
    if arrivals != [] { PatientElements(arrivals[1..], tickets); }
  }

  lemma {:induction false} PatientDistinct(arrivals: seq<nat>, tickets: map<nat, Ticket>)
    requires Distinct(arrivals)
    ensures Distinct(Patient(arrivals, tickets))
  {
    if arrivals != [] {
      PatientDistinct(arrivals[1..], tickets);
      PatientElements(arrivals[1..], tickets);
    }
  }

  lemma {:induction false} PatientSame(arrivals: seq<nat>, before: map<nat, Ticket>, after: map<nat, Ticket>)
    requires forall id | id in arrivals :: (id in before && before[id] == TimedOut) <==> (id in after && after[id] == TimedOut)
    ensures Patient(arrivals, before) == Patient(arrivals, after)
  {
    if arrivals != [] {
      assert arrivals[0] in arrivals;
      assert forall id | id in arrivals[1..] :: id in arrivals;
      PatientSame(arrivals[1..], before, after);
    }
  }

  lemma {:induction false} PatientTimeout(arrivals: seq<nat>, tickets: map<nat, Ticket>, id: nat)
    ensures Patient(arrivals, tickets[id := TimedOut]) == Without(Patient(arrivals, tickets), id)
  {
    if arrivals != [] {
      PatientTimeout(arrivals[1..], tickets, id);
      var head := if arrivals[0] in tickets && tickets[arrivals[0]] == TimedOut then [] else [arrivals[0]];
      WithoutConcat(head, Patient(arrivals[1..], tickets), id);
    }
  }

  lemma {:induction false} PatientConcat(a: seq<nat>, b: seq<nat>, tickets: map<nat, Ticket>)
    ensures Patient(a + b, tickets) == Patient(a, tickets) + Patient(b, tickets)
  {
    if a == [] {
      assert a + b == b;
    } else {
      PatientConcat(a[1..], b, tickets);
      assert (a + b)[0] == a[0] && (a + b)[1..] == a[1..] + b;
      var head := if a[0] in tickets && tickets[a[0]] == TimedOut then [] else [a[0]];
      assert head + (Patient(a[1..], tickets) + Patient(b, tickets)) == head + Patient(a[1..], tickets) + Patient(b, tickets);
    }
  }

  // ---- Steps

  lemma AcquireFree(s: State, id: nat)
    requires Sound(s) && id !in s.tickets && s.active < MAX_CONCURRENCY
    ensures Sound(Next(s, Acquire(id)))
  {
    var next := Next(s, Acquire(id));
    PatientSame(s.arrivals, s.tickets, next.tickets);
    assert Holders(next.tickets) == Holders(s.tickets) + {id};
    assert Waiters(next.tickets) == Waiters(s.tickets);
  }

  lemma AcquireQueued(s: State, id: nat)
    requires Sound(s) && id !in s.tickets && s.active >= MAX_CONCURRENCY
    ensures Sound(Next(s, Acquire(id)))
  {
    var next := Next(s, Acquire(id));
    PatientSame(s.arrivals, s.tickets, next.tickets);
    assert Holders(next.tickets) == Holders(s.tickets);
    assert Waiters(next.tickets) == Waiters(s.tickets) + {id};
    PatientConcat(s.arrivals, [id], next.tickets);
    assert Patient(next.arrivals, next.tickets) == s.resumed + s.queue + [id] == s.resumed + next.queue;
  }

  lemma AcquireSound(s: State, id: nat)
    requires Sound(s) && id !in s.tickets
    ensures Sound(Next(s, Acquire(id)))
  {
    if s.active < MAX_CONCURRENCY { AcquireFree(s, id); } else { AcquireQueued(s, id); }
  }

  lemma HandOverSound(s: State, id: nat)
    requires Sound(s) && Has(s, id, Holding) && s.queue != []
    ensures Sound(Next(s, Release(id)))
  {
    var next, first := Next(s, Release(id)), s.queue[0];
    assert id in Holders(s.tickets);
    assert first in s.queue && first in Waiters(s.tickets);
    HeadOnce(s);
    PatientSame(s.arrivals, s.tickets, next.tickets);
    assert Holders(next.tickets) == Holders(s.tickets) - {id} + {first};
    assert |Holders(next.tickets)| == |Holders(s.tickets)|;
    assert Waiters(next.tickets) == Waiters(s.tickets) - {first};
    assert s.resumed + s.queue == next.resumed + next.queue;
  }

  lemma GiveBackSound(s: State, id: nat)
    requires Sound(s) && Has(s, id, Holding) && s.queue == []
    ensures Sound(Next(s, Release(id)))
  {
    var next := Next(s, Release(id));
    assert id in Holders(s.tickets);
    PatientSame(s.arrivals, s.tickets, next.tickets);
    assert Holders(next.tickets) == Holders(s.tickets) - {id};
    assert Waiters(next.tickets) == Waiters(s.tickets);
  }

  /** A release hands the slot to the first waiter; otherwise it lowers the count, never below zero by clamping. */
  lemma ReleaseSound(s: State, id: nat)
    requires Sound(s) && Has(s, id, Holding)
    ensures Sound(Next(s, Release(id)))
    ensures s.active >= 1
  {
    assert id in Holders(s.tickets);
    if s.queue != [] { HandOverSound(s, id); } else { GiveBackSound(s, id); }
  }

  lemma HeadOnce(s: State)
    requires QueueSound(s) && s.queue != []
    ensures forall id :: id in s.queue[1..] <==> id in s.queue && id != s.queue[0]
  {
    PatientDistinct(s.arrivals, s.tickets);
    var all, n := Patient(s.arrivals, s.tickets), |s.resumed|;
    assert all[n] == s.queue[0];
    forall k | 1 <= k < |s.queue| ensures s.queue[k] != s.queue[0] { assert all[n + k] == s.queue[k]; }
    assert s.queue == [s.queue[0]] + s.queue[1..];
  }

  lemma TimeoutSound(s: State, id: nat)
    requires Sound(s) && id in s.timers
    ensures Sound(Next(s, Timeout(id)))
    ensures id in s.queue
  {
    var next := Next(s, Timeout(id));
    assert Holders(next.tickets) == Holders(s.tickets);
    assert Waiters(next.tickets) == Waiters(s.tickets) - {id};
    PatientTimeout(s.arrivals, s.tickets, id);
    WithoutConcat(s.resumed, s.queue, id);
    WithoutElements(s.resumed, id);
    WithoutElements(s.queue, id);
  }

  lemma SoundStep(s: State, a: Action)
    requires Sound(s)
    ensures Sound(Next(s, a))
  {
    if Next(s, a) != s {
      match a
      case Acquire(id) => AcquireSound(s, id);
      case Release(id) => ReleaseSound(s, id);
      case Timeout(id) => TimeoutSound(s, id);
    }
  }

  lemma {:induction false} RunSound(s: State, run: seq<Action>)
    requires Sound(s)
    ensures Sound(Run(s, run))
    decreases run
  {
    if run != [] {
      SoundStep(s, run[0]);
      RunSound(Next(s, run[0]), run[1..]);
    }
  }

  // ---- What each step leaves

  /** A call that comes while fewer than two slots are held has one at once; any other goes to the end of the queue behind
      an armed timer. */
  lemma AcquireExact(s: State, id: nat)
    requires Sound(s) && id !in s.tickets
    ensures var t := Next(s, Acquire(id));
            if |Holders(s.tickets)| < 2 then
              Holders(t.tickets) == Holders(s.tickets) + {id} && t.active == s.active + 1 && t.queue == s.queue && t.timers == s.timers
            else
              Holders(t.tickets) == Holders(s.tickets) && t.active == s.active && t.queue == s.queue + [id] && t.timers == s.timers + {id}
  {
  }

  /** A release gives the slot to the first in the queue and stops its timer; from an empty queue it frees the slot. */
  lemma ReleaseExact(s: State, id: nat)
    requires Sound(s) && Has(s, id, Holding)
    ensures var t := Next(s, Release(id));
      && Has(t, id, Released)
      && if s.queue == [] then
           Holders(t.tickets) == Holders(s.tickets) - {id} && t.active == s.active - 1 && t.queue == [] && t.timers == s.timers
         else
           && Holders(t.tickets) == Holders(s.tickets) - {id} + {s.queue[0]} && t.active == s.active
           && t.queue == s.queue[1..] && t.timers == s.timers - {s.queue[0]} && t.resumed == s.resumed + [s.queue[0]]
  {
    assert id in Holders(s.tickets);
    if s.queue != [] { assert s.queue[0] in s.queue && s.queue[0] in Waiters(s.tickets); }
  }

  /** A timer that runs out takes its call, and no other, out of the queue, and the slots stay with their holders. */
  lemma TimeoutExact(s: State, id: nat, before: seq<nat>, behind: seq<nat>)
    requires Sound(s) && id in s.timers && s.queue == before + [id] + behind
    ensures var t := Next(s, Timeout(id));
      && Has(t, id, TimedOut) && t.queue == before + behind && t.timers == s.timers - {id}
      && Holders(t.tickets) == Holders(s.tickets) && t.active == s.active
  {
    QueueDistinct(s);
    forall x | x in before || x in behind ensures x != id {
      if x in before {
        var i :| 0 <= i < |before| && before[i] == x;
        assert s.queue[i] == x && s.queue[|before|] == id;
      } else {
        var i :| 0 <= i < |behind| && behind[i] == x;
        assert s.queue[|before| + 1 + i] == x && s.queue[|before|] == id;
      }
    }
    WithoutMiddle(before, id, behind);
    TimeoutSound(s, id);
  }

  // ---- Results

  lemma EmptySound()
    ensures Sound(EMPTY)
  {
    assert Holders(map[]) == {} && Waiters(map[]) == {};
  }

  /** The slots are conserved: the count is the number of holders, at most two, and nobody waits at a free slot. */
  lemma SlotsConserved(run: seq<Action>)
    ensures var s := Run(EMPTY, run);
            && |Holders(s.tickets)| == s.active <= MAX_CONCURRENCY
            && (Waiters(s.tickets) != {} ==> s.active == MAX_CONCURRENCY)
  {
    EmptySound();
    RunSound(EMPTY, run);
    var s := Run(EMPTY, run);
    if Waiters(s.tickets) != {} {
      var id :| id in Waiters(s.tickets);
      assert id in s.queue;
    }
  }

  /** Waiters are served first come, first served: those let in and those still queued are the arrivals that did
      not time out, in order, and none is let in twice. */
  lemma FirstComeFirstServed(run: seq<Action>)
    ensures var s := Run(EMPTY, run);
            Patient(s.arrivals, s.tickets) == s.resumed + s.queue && Distinct(s.resumed + s.queue)
  {
    EmptySound();
    RunSound(EMPTY, run);
    PatientDistinct(Run(EMPTY, run).arrivals, Run(EMPTY, run).tickets);
  }

  /** How a ticket may go on: a waiter is let in or times out, a holder releases, and the last two are final. */
  predicate Follows(before: Ticket, after: Ticket) {
    match before
    case Waiting => true
    case Holding => after in {Holding, Released}
    case TimedOut => after == TimedOut
    case Released => after == Released
  }

  ghost predicate Progress(before: State, after: State) {
    && (forall id | id in before.tickets :: id in after.tickets && Follows(before.tickets[id], after.tickets[id]))
    && before.arrivals <= after.arrivals && before.resumed <= after.resumed
  }

  lemma {:induction false} RunProgress(s: State, run: seq<Action>)
    requires Sound(s)
    ensures Progress(s, Run(s, run))
    decreases run
  {
    if run != [] {
      SoundStep(s, run[0]);
      StepProgress(s, run[0]);
      RunProgress(Next(s, run[0]), run[1..]);
    }
  }

  lemma StepProgress(s: State, a: Action)
    requires Sound(s)
    ensures Progress(s, Next(s, a))
  {
    if a.Release? && s.queue != [] { assert s.queue[0] in Waiters(s.tickets); }
    if a.Timeout? && a.id in s.timers { assert a.id in Waiters(s.tickets); }
  }

  /** Every call that queued is still queued with its timer armed, or was let in once, or timed out; never two of these,
      and once let in it is never timed out, nor the other way round. */
  lemma SettledOnce(run: seq<Action>, more: seq<Action>, id: nat)
    ensures var s := Run(EMPTY, run);
            var later := Run(s, more);
            id in s.arrivals ==>
              && (id in s.queue <==> id in s.timers)
              && (id in s.queue || id in s.resumed || Has(s, id, TimedOut))
              && !(id in s.queue && id in s.resumed) && (Has(s, id, TimedOut) ==> id !in s.queue && id !in s.resumed)
              && (id in s.resumed ==> Has(later, id, Holding) || Has(later, id, Released))
              && (Has(s, id, TimedOut) ==> Has(later, id, TimedOut) && id !in later.resumed)
  {
    EmptySound();
    RunSound(EMPTY, run);
    var s := Run(EMPTY, run);
    RunSound(s, more);
    RunProgress(s, more);
    PatientElements(s.arrivals, s.tickets);
    if id in s.arrivals && !Has(s, id, TimedOut) {
      assert id in Patient(s.arrivals, s.tickets);
      assert id in s.resumed + s.queue;
    }
  }

  // ---- The service

  class ImageNormalizer {
    var currentActive: int
    var queue: seq<nat>
    var timers: set<nat>
    ghost var tickets: map<nat, Ticket>
    ghost var arrivals: seq<nat>
    ghost var resumed: seq<nat>

    ghost function View(): State
      reads this
    {
      State(currentActive, queue, timers, tickets, arrivals, resumed)
    }

    constructor ()
      ensures View() == EMPTY
    {
      currentActive, queue, timers, tickets, arrivals, resumed := 0, [], {}, map[], [], [];
    }

    /** Takes a slot, or queues behind an armed timer. */
    method AcquireConcurrencySlot(id: nat) returns (acquired: bool)
      requires Sound(View()) && id !in tickets
      modifies this
      ensures Sound(View()) && View() == Next(old(View()), Acquire(id))
      ensures acquired == (id in Holders(tickets))
    {
      AcquireSound(View(), id);
      acquired := currentActive < MAX_CONCURRENCY;
      if acquired {
        currentActive := currentActive + 1;
        tickets := tickets[id := Holding];
      } else {
        queue, timers := queue + [id], timers + {id};
        tickets, arrivals := tickets[id := Waiting], arrivals + [id];
      }
    }

    method OnTimeout(id: nat)
      requires Sound(View()) && id in timers
      modifies this
      ensures Sound(View()) && View() == Next(old(View()), Timeout(id))
    {
      TimeoutSound(View(), id);
      var index := IndexOf(queue, id);
      if index != -1 {
        QueueDistinct(View());
        SpliceIsWithout(queue, index);
        queue := queue[..index] + queue[index + 1..];
      }
      timers := timers - {id};
      tickets := tickets[id := TimedOut];
    }

    /** `id` is the holder giving its slot back. */
    method ReleaseConcurrencySlot(ghost id: nat)
      requires Sound(View()) && id in Holders(tickets)
      modifies this
      ensures Sound(View()) && View() == Next(old(View()), Release(id))
      ensures currentActive == if old(queue) == [] then old(currentActive) - 1 else old(currentActive)
    {
      ReleaseSound(View(), id);
      if |queue| > 0 {
        var next := queue[0];
        queue, timers := queue[1..], timers - {next};
        tickets, resumed := tickets[id := Released][next := Holding], resumed + [next];
        return;
      }
      currentActive := if currentActive - 1 < 0 then 0 else currentActive - 1;
      tickets := tickets[id := Released];
    }
  }

  lemma QueueDistinct(s: State)
    requires QueueSound(s)
    ensures Distinct(s.queue)
  {
    PatientDistinct(s.arrivals, s.tickets);
    var all, n := Patient(s.arrivals, s.tickets), |s.resumed|;
    forall i, j | 0 <= i < j < |s.queue| ensures s.queue[i] != s.queue[j] {
      assert all[n + i] == s.queue[i] && all[n + j] == s.queue[j];
    }
  }

  lemma WithoutMiddle(a: seq<nat>, id: nat, b: seq<nat>)
    requires id !in a && id !in b
    ensures Without(a + [id] + b, id) == a + b
  {
    WithoutConcat(a + [id], b, id);
    WithoutConcat(a, [id], id);
    WithoutElements(a, id);
    WithoutElements(b, id);
    assert Without([id], id) == [];
    assert a + [] == a;
  }

  lemma SpliceIsWithout(s: seq<nat>, index: nat)
    requires index < |s| && Distinct(s)
    ensures Without(s, s[index]) == s[..index] + s[index + 1..]
  {
    assert s == s[..index] + [s[index]] + s[index + 1..];
    WithoutMiddle(s[..index], s[index], s[index + 1..]);
  }
}
