/** The two kinds of 503: after calls that failed, which tell nothing, and from an open circuit, which sent nothing. */
module ProtocolUnavailable {
  import opened AccountLedger
  import opened Contracts
  import opened Decimals
  import opened Protocol
  import opened ProtocolHandlers
  import opened ProtocolInvariant
  import opened ProtocolMoney
  import opened ProtocolRecovery
  import opened Rows
  import opened Timestamps
  import opened Wrappers

  /** Only this handler, the counters, the breaker and the network differ. */
  ghost predicate GaveUp(s: State, after: State, t: nat) {
    && after.account == s.account && after.gateway == s.gateway && t in s.tasks
    && At(after, t, Done(Unavailable)) && after.tasks[t].event == s.tasks[t].event
  }

  lemma TimesOut(c: Config, s: State, t: nat)
    requires t in s.tasks && s.tasks[t].pc.Waiting?
    ensures var s1 := AttemptFailed(c, s, t, s.tasks[t].pc.attempt);
            && Run(c, s, [TimeOut(t)]) == Some(s1)
            && (s.tasks[t].pc.attempt >= c.policy.maxAttempts ==> GaveUp(s, s1, t))
  {
  }

  lemma TimesOutAndRetries(c: Config, s: State, t: nat)
    requires t in s.tasks && s.tasks[t].pc.Waiting? && s.tasks[t].pc.attempt < c.policy.maxAttempts
    ensures var k := s.tasks[t].pc.attempt;
            var s2 := SendAttempt(c, AttemptFailed(c, s, t, k), t, k + 1);
            && Run(c, s, [TimeOut(t), Resend(t)]) == Some(s2)
            && s2.account == s.account && s2.gateway == s.gateway
            && s2.tasks == s.tasks[t := s.tasks[t].(pc := Waiting(k + 1))]
  {
    var k := s.tasks[t].pc.attempt;
    TimesOut(c, s, t);
    assert [TimeOut(t)] + [Resend(t)] == [TimeOut(t), Resend(t)];
    RunStep(c, s, [TimeOut(t)], Resend(t));
  }

  /** Timeouts alone make a waiting handler give up. */
  lemma {:induction false} TimeoutsExhaust(c: Config, s: State, t: nat) returns (acts: seq<Action>)
    requires t in s.tasks && s.tasks[t].pc.Waiting?
    ensures Run(c, s, acts).Some? && GaveUp(s, Run(c, s, acts).value, t)
    decreases c.policy.maxAttempts - s.tasks[t].pc.attempt
  {
    hide Run;
    var k := s.tasks[t].pc.attempt;
    TimesOut(c, s, t);
    if k < c.policy.maxAttempts {
      TimesOutAndRetries(c, s, t);
      var rest := TimeoutsExhaust(c, SendAttempt(c, AttemptFailed(c, s, t, k), t, k + 1), t);
      RunAppend(c, s, [TimeOut(t), Resend(t)], rest);
      acts := [TimeOut(t), Resend(t)] + rest;
    } else {
      acts := [TimeOut(t)];
    }
  }

  /** A handler of `e` has answered 503 after its calls failed. */
  ghost predicate GaveUpOn(s: State, t: nat, e: EventPayload) {
    At(s, t, Done(Unavailable)) && s.tasks[t].event == e
  }

  /**
   A 503 after failed calls tells nothing. For every configuration and every event, some run
   gives it although the event has been applied exactly when both services accept the event; and
   some run gives it with the event not applied exactly when the Gateway accepts it.
   */
  lemma UnavailableTellsNothing(c: Config, e: EventPayload, at: Utc)
    requires ValidConfig(c)
    ensures (exists s: State, t :: Reachable(c, s) && GaveUpOn(s, t, e) && OnRecord(s.account, Sent(c, e)))
            <==> ValidPayload(e) && ValidPayload(Sent(c, e))
    ensures (exists s: State, t :: Reachable(c, s) && GaveUpOn(s, t, e) && !OnRecord(s.account, Sent(c, e)))
            <==> ValidPayload(e)
  {
    hide Reachable;
    if s: State, t :| Reachable(c, s) && GaveUpOn(s, t, e) {
      SubmittedIsValid(c, s, t);
    }
    if s: State, t :| Reachable(c, s) && GaveUpOn(s, t, e) && OnRecord(s.account, Sent(c, e)) {
      RecordedIsValid(c, s, e);
    }
    if ValidPayload(e) {
      UnavailableMayBeLost(c, e);
      if ValidPayload(Sent(c, e)) {
        UnavailableMayBeApplied(c, e, at);
      }
    }
  }

  lemma SubmittedIsValid(c: Config, s: State, t: nat)
    requires ValidConfig(c) && Reachable(c, s) && t in s.tasks
    ensures ValidPayload(s.tasks[t].event)
  {
    hide Reachable;
    ReachableInv(c, s);
    assert TaskOk(c, s, t, s.tasks[t]);
  }

  lemma RecordedIsValid(c: Config, s: State, e: EventPayload)
    requires ValidConfig(c) && Reachable(c, s) && OnRecord(s.account, Sent(c, e))
    ensures ValidPayload(Sent(c, e))
  {
    hide Reachable;
    ReachableInv(c, s);
    SameEventValid(s.account[e.eventId].payload, Sent(c, e));
  }

  /** The 503 to the only submission of `e`, and its money has moved. */
  lemma UnavailableMayBeApplied(c: Config, e: EventPayload, at: Utc)
    requires ValidConfig(c) && ValidPayload(e) && ValidPayload(Sent(c, e))
    ensures exists s: State ::
              && Reachable(c, s) && GaveUpOn(s, 0, e)
              && e.eventId !in s.gateway && OnRecord(s.account, Sent(c, e))
              && Balance(s.account, e.accountId)
                 == if e.kind.Credit? then Value(c.amounts(e.amount)) else -Value(c.amounts(e.amount))
  {
    var s1, m := SubmitStep(Init, e), FirstRequest(c, Init, e);
    var s2, s3 := SendAttempt(c, s1, 0, 1), Answering(c, Init, e, at);
    BeginSends(c, Init, e);
    ArriveAnswers(c, Init, e, at);
    var acts := [Submit(e), Begin(0), Arrive(m, at)];
    RunThree(c, Init, s1, s2, s3, Submit(e), Begin(0), Arrive(m, at));
    AppliedFirst(c, e, at);
    var s := TimesOutAtLast(c, acts, s3, 0);
  }

  /** The 503 to the only submission of `e`, every request of which was lost. */
  lemma UnavailableMayBeLost(c: Config, e: EventPayload)
    requires ValidConfig(c) && ValidPayload(e)
    ensures exists s: State, t :: Reachable(c, s) && GaveUpOn(s, t, e) && !OnRecord(s.account, Sent(c, e))
  {
    var s1 := SubmitStep(Init, e);
    var s2 := SendAttempt(c, s1, 0, 1);
    BeginSends(c, Init, e);
    var acts := [Submit(e), Begin(0)];
    assert [] + [Submit(e)] == [Submit(e)] && [Submit(e)] + [Begin(0)] == acts;
    RunStep(c, Init, [], Submit(e));
    RunStep(c, Init, [Submit(e)], Begin(0));
    var s := TimesOutAtLast(c, acts, s2, 0);
  }

  lemma TimesOutAtLast(c: Config, acts: seq<Action>, mid: State, t: nat) returns (s: State)
    requires Run(c, Init, acts) == Some(mid) && t in mid.tasks && mid.tasks[t].pc.Waiting?
    ensures Reachable(c, s) && GaveUpOn(s, t, mid.tasks[t].event)
    ensures s.account == mid.account && s.gateway == mid.gateway
  {
    hide Run;
    var rest := TimeoutsExhaust(c, mid, t);
    RunAppend(c, Init, acts, rest);
    s := Run(c, mid, rest).value;
  }

  lemma AppliedFirst(c: Config, e: EventPayload, at: Utc)
    requires ValidPayload(Sent(c, e))
    ensures var s := Answering(c, Init, e, at);
            && s.gateway == map[] && At(s, 0, Waiting(1)) && s.tasks[0].event == e
            && OnRecord(s.account, Sent(c, e)) && Balance(s.account, e.accountId)
                 == if e.kind.Credit? then Value(c.amounts(e.amount)) else -Value(c.amounts(e.amount))
  {
    FirstIsCreated(c, e, at);
    ApplyMovesMoneyOnce(Init.account, Sent(c, e), at, e.accountId);
    assert AccountIds(Init.account, e.accountId) == {};
  }

  lemma RunThree(c: Config, s: State, s1: State, s2: State, s3: State, a1: Action, a2: Action, a3: Action)
    requires Enabled(c, s, a1) && Step(c, s, a1) == s1
    requires Enabled(c, s1, a2) && Step(c, s1, a2) == s2
    requires Enabled(c, s2, a3) && Step(c, s2, a3) == s3
    ensures Run(c, s, [a1, a2, a3]) == Some(s3)
  {
    hide Enabled, Step;
    assert [] + [a1] == [a1] && [a1] + [a2] == [a1, a2] && [a1, a2] + [a3] == [a1, a2, a3];
    RunStep(c, s, [], a1);
    RunStep(c, s, [a1], a2);
    RunStep(c, s, [a1, a2], a3);
  }

  /**
   The two kinds of 503 told apart: a handler that answered 503 has sent a request exactly when its
   calls failed. From an open circuit nothing was sent, nothing is under way, and in no later state
   has anything been sent or handled on its account.
   */
  lemma CircuitOpenSendsNothing(c: Config, s: State, t: nat, answer: Answer, acts: seq<Action>)
    requires ValidConfig(c) && Reachable(c, s) && At(s, t, Done(answer)) && (answer.Unavailable? || answer.CircuitOpen?)
    requires Run(c, s, acts).Some?
    ensures t in s.past.senders <==> answer.Unavailable?
    ensures var later := Run(c, s, acts).value;
            answer.CircuitOpen? ==>
              t !in later.past.senders && t !in later.past.carriers && forall m <- later.network :: m.task != t
  {
    hide Reachable, Run, CarriersOk, AcceptedOnce;
    ReachableHandlers(c, s);
    if answer.CircuitOpen? {
      RunKeepsSilent(c, s, acts, t);
    }
  }

  /**
   There is a handler behind every delivery, whose event was delivered; and once a request of a
   handler has been handled, its event is on record or refused, then and ever after.
   */
  lemma HandledIsDecided(c: Config, s: State, i: nat, t: nat, acts: seq<Action>)
    requires ValidConfig(c) && Reachable(c, s) && Run(c, s, acts).Some?
    requires i < |s.past.carriers| && t == s.past.carriers[i] && t in s.tasks
    ensures |s.past.carriers| == |s.past.deliveries|
    ensures var e, sent := s.tasks[t].event, s.past.deliveries[i].payload;
            && sent == e.(amount := c.amounts(e.amount))
            && Decided(Run(c, s, acts).value.account, sent)
  {
    hide Reachable, Run, SendersOk, AcceptedOnce, Decided, TasksOk, NetworkOk, GatewayOk, LedgerIsReplay, BreakerOk;
    ReachableHandlers(c, s);
    ReachableAfter(c, s, acts);
    ReachableInv(c, Run(c, s, acts).value);
    RowsAreForever(c, s, acts);
    DecidedGrows(s.account, Run(c, s, acts).value.account, s.past.deliveries[i].payload);
  }
}
