/** The circuit breaker in the whole system: what its fields mean, and which handlers it lets through. */
module ProtocolBreaker {
  import Breaker
  import opened Contracts
  import opened Protocol
  import opened ProtocolInvariant
  import opened Wrappers

  /**
   The breaker under any interleaving of overlapping calls, reads included: its fields are the
   failures since the last success and, once these reach the threshold, the clock reading of the
   latest failure, which is never in the future.
   */
  lemma BreakerTellsHistory(c: Config, s: State)
    requires ValidConfig(c) && Reachable(c, s)
    ensures var results, n := s.past.results, Breaker.TrailingFailures(s.past.results);
            && s.breaker.failures == n
            && (s.breaker.openedAt.Some? <==> n >= c.policy.threshold)
            && (s.breaker.openedAt.Some? ==> results != [] && results[|results| - 1].Failed?
                                             && s.breaker.openedAt.value == results[|results| - 1].at <= s.clock)
  {
    hide Reachable;
    ReachableInv(c, s);
    Breaker.BreakerClosedForm(c.policy, s.past.results);
  }

  /**
   In every reachable state, whatever the other handlers are doing: a handler whose event is not on
   record sends its first request exactly when there are fewer than `threshold` failures in a row
   or the window since the last of them has passed, and answers 503 at once otherwise. Either way
   the breaker stays as it is, so the next handler is let through just the same.
   */
  lemma FreshEventIsSentIff(c: Config, s: State, t: nat)
    requires ValidConfig(c) && Reachable(c, s) && At(s, t, Start) && s.tasks[t].event.eventId !in s.gateway
    ensures var after, letThrough := Step(c, s, Begin(t)), Breaker.LetsThrough(c.policy, s.past.results, s.clock);
            && (At(after, t, Waiting(1)) <==> letThrough)
            && (At(after, t, Done(CircuitOpen)) <==> !letThrough)
            && after.network == s.network + (if letThrough then multiset{Request(t, 1, Sent(c, s.tasks[t].event))}
                                             else multiset{})
            && after.breaker == s.breaker
  {
    hide Reachable, SameEvent, CountAnswer, Breaker.LetsThrough, Breaker.Admits;
    FieldsDecide(c, s);
  }

  lemma FieldsDecide(c: Config, s: State)
    requires ValidConfig(c) && Reachable(c, s)
    ensures Breaker.Admits(c.policy, s.breaker, s.clock) <==> Breaker.LetsThrough(c.policy, s.past.results, s.clock)
  {
    hide Reachable;
    ReachableInv(c, s);
    Breaker.AdmitsIff(c.policy, s.past.results, s.clock);
  }

  // ---- no single probe --------------------------------------------------------------------

  /** Submissions that arrive one after the other, each getting as far as its first request. */
  function BeginAll(first: nat, events: seq<EventPayload>): seq<Action> {
    if events == [] then []
    else
      var n := |events| - 1;
      BeginAll(first, events[..n]) + [Submit(events[n]), Begin(first + n)]
  }

  /** All of `events` wait for the reply to their first request, and no call has ended since `s`. */
  ghost predicate AllWaiting(s: State, after: State, events: seq<EventPayload>) {
    && after.nextTask == s.nextTask + |events| && after.gateway == s.gateway
    && after.breaker == s.breaker && after.clock == s.clock
    && forall t :: s.nextTask <= t < after.nextTask ==>
         t in after.tasks && after.tasks[t] == Task(events[t - s.nextTask], Waiting(1))
  }

  /** From any state whose breaker admits one call, any number of calls is admitted before one of them ends. */
  lemma {:induction false} AllAreAdmitted(c: Config, s: State, events: seq<EventPayload>)
    requires Breaker.Admits(c.policy, s.breaker, s.clock)
    requires forall e <- events :: ValidPayload(e) && e.eventId !in s.gateway
    ensures Run(c, s, BeginAll(s.nextTask, events)).Some?
    ensures AllWaiting(s, Run(c, s, BeginAll(s.nextTask, events)).value, events)
    decreases |events|
  {
    hide Run, AllWaiting, Breaker.Admits, ValidPayload;
    if events == [] {
      NoneWaiting(c, s);
    } else {
      var n := |events| - 1;
      var front, acts := events[..n], BeginAll(s.nextTask, events[..n]);
      assert events[n] in events && forall e <- front :: e in events;
      AllAreAdmitted(c, s, front);
      var mid := Run(c, s, acts).value;
      OneMoreWaits(c, s, mid, front, events[n]);
      assert mid.nextTask == s.nextTask + n by { NextAfter(s, mid, front); }
      assert front + [events[n]] == events;
      SubmitAndBegin(c, s, acts, mid, events[n]);
    }
  }

  lemma NextAfter(s: State, after: State, events: seq<EventPayload>)
    requires AllWaiting(s, after, events)
    ensures after.nextTask == s.nextTask + |events|
  {
  }

  lemma NoneWaiting(c: Config, s: State)
    ensures Run(c, s, []) == Some(s) && AllWaiting(s, s, [])
  {
  }

  lemma SubmitAndBegin(c: Config, s: State, acts: seq<Action>, mid: State, e: EventPayload)
    requires Run(c, s, acts) == Some(mid) && Enabled(c, mid, Submit(e))
    requires Enabled(c, SubmitStep(mid, e), Begin(mid.nextTask))
    ensures Run(c, s, acts + [Submit(e), Begin(mid.nextTask)]) == Some(BeginStep(c, SubmitStep(mid, e), mid.nextTask))
  {
    RunStep(c, s, acts, Submit(e));
    RunStep(c, s, acts + [Submit(e)], Begin(mid.nextTask));
    assert acts + [Submit(e)] + [Begin(mid.nextTask)] == acts + [Submit(e), Begin(mid.nextTask)];
  }

  lemma OneMoreWaits(c: Config, s: State, mid: State, front: seq<EventPayload>, e: EventPayload)
    requires AllWaiting(s, mid, front) && ValidPayload(e) && e.eventId !in s.gateway
    requires Breaker.Admits(c.policy, s.breaker, s.clock)
    ensures Enabled(c, mid, Submit(e)) && Enabled(c, SubmitStep(mid, e), Begin(mid.nextTask))
    ensures AllWaiting(s, BeginStep(c, SubmitStep(mid, e), mid.nextTask), front + [e])
  {
    hide SameEvent, CountAnswer, ValidPayload, Breaker.Admits, Sent;
    var s1 := SubmitStep(mid, e);
    assert BeginStep(c, s1, mid.nextTask) == SendAttempt(c, s1, mid.nextTask, 1);
    assert SendAttempt(c, s1, mid.nextTask, 1).tasks == mid.tasks[mid.nextTask := Task(e, Waiting(1))];
  }

  /** `n` read calls that fail at once. */
  function Outage(n: nat): seq<Action> {
    if n == 0 then [] else Outage(n - 1) + [ReadDone(Breaker.Failed(0.0))]
  }

  lemma ReadFails(c: Config, s: State)
    requires s.clock == 0.0
    ensures var a := ReadDone(Breaker.Failed(0.0));
            && Enabled(c, s, a)
            && var after := Step(c, s, a);
               && after.gateway == s.gateway && after.nextTask == s.nextTask && after.clock == s.clock
               && after.breaker == Breaker.Record(c.policy, s.breaker, Breaker.Failed(0.0))
  {
    hide CountAnswer, Breaker.Record;
  }

  lemma {:induction false} OutageOpens(c: Config, n: nat)
    ensures Run(c, Init, Outage(n)).Some?
    ensures var s := Run(c, Init, Outage(n)).value;
            && s.gateway == map[] && s.nextTask == 0 && s.clock == 0.0
            && s.breaker == Breaker.State(n, if n > 0 && n >= c.policy.threshold then Some(0.0) else None)
  {
    if n > 0 {
      OutageOpens(c, n - 1);
      hide Run, Step, Enabled;
      var s := Run(c, Init, Outage(n - 1)).value;
      ReadFails(c, s);
      RunStep(c, Init, Outage(n - 1), ReadDone(Breaker.Failed(0.0)));
    }
  }

  /**
   No single probe: for every configuration and any number of submissions some run opens the
   circuit, lets the window pass, and has all of them waiting for the Account Service at once.
   */
  lemma HalfOpenAdmitsAll(c: Config, events: seq<EventPayload>)
    requires ValidConfig(c) && forall e <- events :: ValidPayload(e)
    ensures exists s ::
              && Reachable(c, s) && s.breaker.openedAt.Some?
              && s.clock >= s.breaker.openedAt.value + c.policy.reset
              && forall t :: 0 <= t < |events| ==> t in s.tasks && s.tasks[t] == Task(events[t], Waiting(1))
  {
    var s := Ready(c);
    AllAreAdmitted(c, s, events);
    ReachableAfter(c, s, BeginAll(0, events));
    hide Run, Reachable, BeginAll;
    var after := Run(c, s, BeginAll(0, events)).value;
    assert after.breaker == s.breaker && after.clock == s.clock;
    assert Reachable(c, after);
  }

  /** The circuit is open, its window has passed, and nothing else has happened. */
  lemma Ready(c: Config) returns (s: State)
    requires ValidConfig(c)
    ensures Reachable(c, s) && s.gateway == map[] && s.nextTask == 0
    ensures s.breaker.openedAt.Some? && s.clock >= s.breaker.openedAt.value + c.policy.reset
  {
    var opening, tick := Outage(c.policy.threshold), Tick(c.policy.reset);
    OutageOpens(c, c.policy.threshold);
    RunStep(c, Init, opening, tick);
    s := Run(c, Init, opening + [tick]).value;
  }
}
