/** Recovery: what one fault-free submission does, whatever happened before it. */
module ProtocolRecovery {
  import opened AccountLedger
  import Breaker
  import opened Contracts
  import opened Decimals
  import opened Deliveries
  import opened Protocol
  import opened ProtocolInvariant
  import opened Rows
  import opened Timestamps
  import opened Wrappers

  ghost function FirstRequest(c: Config, s: State, e: EventPayload): Message {
    Request(s.nextTask, 1, Sent(c, e))
  }

  ghost function ReplyCode(c: Config, s: State, e: EventPayload, at: Utc): int {
    Respond(s.account, Sent(c, e).accountId, Sent(c, e), at).1
  }

  /** A submission that reaches the Account Service at once and hears back. */
  ghost function Forward(c: Config, s: State, e: EventPayload, at: Utc): seq<Action> {
    [Submit(e), Begin(s.nextTask), Arrive(FirstRequest(c, s, e), at),
     Receive(Reply(s.nextTask, 1, Sent(c, e), ReplyCode(c, s, e, at)))]
  }

  /** What those four steps leave behind, but for the counters. */
  ghost predicate Forwarded(c: Config, s: State, after: State, e: EventPayload, at: Utc, pc: Pc) {
    && after.gateway == s.gateway && after.network == s.network
    && after.account == Deliver(s.account, Delivery(Sent(c, e), at))
    && after.tasks == s.tasks[s.nextTask := Task(e, pc)] && after.nextTask == s.nextTask + 1
    && after.breaker == Breaker.Fresh
  }

  lemma RunFour(c: Config, s: State, s1: State, s2: State, s3: State, s4: State,
                a1: Action, a2: Action, a3: Action, a4: Action)
    requires Enabled(c, s, a1) && Step(c, s, a1) == s1
    requires Enabled(c, s1, a2) && Step(c, s1, a2) == s2
    requires Enabled(c, s2, a3) && Step(c, s2, a3) == s3
    requires Enabled(c, s3, a4) && Step(c, s3, a4) == s4
    ensures Run(c, s, [a1, a2, a3, a4]) == Some(s4)
  {
    hide Enabled, Step;
    assert [] + [a1] == [a1] && [a1] + [a2] == [a1, a2] && [a1, a2] + [a3] == [a1, a2, a3]
           && [a1, a2, a3] + [a4] == [a1, a2, a3, a4];
    RunStep(c, s, [], a1);
    RunStep(c, s, [a1], a2);
    RunStep(c, s, [a1, a2], a3);
    RunStep(c, s, [a1, a2, a3], a4);
  }

  /** The state as the reply arrives. */
  ghost function Answering(c: Config, s: State, e: EventPayload, at: Utc): State {
    AnswerStep(SendAttempt(c, SubmitStep(s, e), s.nextTask, 1), FirstRequest(c, s, e), true, ReplyCode(c, s, e, at), at)
  }

  lemma ForwardRuns(c: Config, s: State, e: EventPayload, at: Utc)
    requires ValidConfig(c) && ValidPayload(e) && e.eventId !in s.gateway
    requires Breaker.Admits(c.policy, s.breaker, s.clock)
    ensures var code, end := ReplyCode(c, s, e, at), Run(c, s, Forward(c, s, e, at));
            && code < 500 && end.Some?
            && Forwarded(c, s, end.value, e, at, if code < 400 then Inserting else Done(Rejected(code)))
  {
    hide ValidConfig, Respond, SameEvent, CountAnswer, ReplyCode, AnswerStep;
    var t, m, code := s.nextTask, FirstRequest(c, s, e), ReplyCode(c, s, e, at);
    var r := Reply(t, 1, Sent(c, e), code);
    var s1 := SubmitStep(s, e);
    var s2 := SendAttempt(c, s1, t, 1);
    var s3 := Answering(c, s, e, at);
    CodeBelow500(c, s, e, at);
    BeginSends(c, s, e);
    ArriveAnswers(c, s, e, at);
    ReceiveForwards(c, s, e, at);
    RunFour(c, s, s1, s2, s3, ReceiveStep(c, s3, r), Submit(e), Begin(t), Arrive(m, at), Receive(r));
  }

  lemma BeginSends(c: Config, s: State, e: EventPayload)
    requires e.eventId !in s.gateway && Breaker.Admits(c.policy, s.breaker, s.clock)
    ensures var s1 := SubmitStep(s, e);
            Enabled(c, s1, Begin(s.nextTask)) && Step(c, s1, Begin(s.nextTask)) == SendAttempt(c, s1, s.nextTask, 1)
  {
  }

  lemma ArriveAnswers(c: Config, s: State, e: EventPayload, at: Utc)
    ensures var s2 := SendAttempt(c, SubmitStep(s, e), s.nextTask, 1);
            Enabled(c, s2, Arrive(FirstRequest(c, s, e), at))
            && Step(c, s2, Arrive(FirstRequest(c, s, e), at)) == Answering(c, s, e, at)
  {
  }

  lemma ReceiveForwards(c: Config, s: State, e: EventPayload, at: Utc)
    requires ReplyCode(c, s, e, at) < 500
    ensures var s3, code := Answering(c, s, e, at), ReplyCode(c, s, e, at);
            var r := Reply(s.nextTask, 1, Sent(c, e), code);
            && Enabled(c, s3, Receive(r)) && Step(c, s3, Receive(r)) == ReceiveStep(c, s3, r)
            && Forwarded(c, s, ReceiveStep(c, s3, r), e, at, if code < 400 then Inserting else Done(Rejected(code)))
  {
    hide Respond, Deliver, ReplyCode, CountAnswer, SameEvent, Answering;
    AnsweringIs(c, s, e, at);
    var s3, t, r := Answering(c, s, e, at), s.nextTask, Reply(s.nextTask, 1, Sent(c, e), ReplyCode(c, s, e, at));
    assert r in s3.network && At(s3, t, Waiting(1));
    assert s3.network - multiset{r} == s.network;
  }

  lemma AnsweringIs(c: Config, s: State, e: EventPayload, at: Utc)
    ensures var s3 := Answering(c, s, e, at);
            && s3.tasks == s.tasks[s.nextTask := Task(e, Waiting(1))] && s3.nextTask == s.nextTask + 1
            && s3.network == s.network + multiset{Reply(s.nextTask, 1, Sent(c, e), ReplyCode(c, s, e, at))}
            && s3.gateway == s.gateway && s3.account == Deliver(s.account, Delivery(Sent(c, e), at))
  {
  }

  lemma FirstIsCreated(c: Config, a: EventPayload, at: Utc)
    requires ValidPayload(Sent(c, a))
    ensures ReplyCode(c, Init, a, at) == 201
    ensures Deliver(Init.account, Delivery(Sent(c, a), at)) == map[a.eventId := Row(Sent(c, a), AccountAudit(at))]
  {
  }

  lemma CodeBelow500(c: Config, s: State, e: EventPayload, at: Utc)
    ensures ReplyCode(c, s, e, at) < 500
  {
  }

  // ---- recovery ---------------------------------------------------------------------------

  /** How a fault-free submission of `e` ends, read off the two tables before it. */
  ghost function Verdict(c: Config, s: State, e: EventPayload): Answer {
    if e.eventId in s.gateway then
      (if SameEvent(s.gateway[e.eventId].payload, e) then DuplicateReplay else Conflicting)
    else
      var code := StatusFor(s.account, Sent(c, e).accountId, Sent(c, e));
      if code < 400 then Accepted else Rejected(code)
  }

  ghost function Resubmission(c: Config, s: State, e: EventPayload, at: Utc): seq<Action> {
    if e.eventId in s.gateway then [Submit(e), Begin(s.nextTask)]
    else Forward(c, s, e, at) + if ReplyCode(c, s, e, at) < 400 then [Insert(s.nextTask, at)] else []
  }

  /** Both tables after a submission that ended with `answer`. */
  ghost predicate Settled(c: Config, s: State, after: State, e: EventPayload, at: Utc, answer: Answer) {
    && At(after, s.nextTask, Done(answer))
    && (answer.Accepted? ==> e.eventId in after.gateway && after.gateway[e.eventId].payload == e)
    && (!answer.Accepted? ==> after.gateway == s.gateway)
    && (answer.Accepted? || answer.DuplicateReplay? ==> OnRecord(after.account, Sent(c, e)))
    && after.account == if answer.Accepted? && e.eventId !in s.account
                        then Deliver(s.account, Delivery(Sent(c, e), at)) else s.account
  }

  lemma ForwardSettles(c: Config, s: State, e: EventPayload, at: Utc)
    requires ValidConfig(c) && Keyed(s.account) && ValidPayload(e) && e.eventId !in s.gateway
    requires Breaker.Admits(c.policy, s.breaker, s.clock)
    ensures Run(c, s, Resubmission(c, s, e, at)).Some?
    ensures Settled(c, s, Run(c, s, Resubmission(c, s, e, at)).value, e, at, Verdict(c, s, e))
  {
    ForwardRuns(c, s, e, at);
    var acts, payload := Forward(c, s, e, at), Sent(c, e);
    var mid := Run(c, s, acts).value;
    StatusIgnoresTime(s.account, payload.accountId, payload, at);
    SuccessMeansRecorded(s.account, payload.accountId, payload, at);
    DeliveryEffect(s.account, Delivery(payload, at));
    if ReplyCode(c, s, e, at) < 400 {
      RunStep(c, s, acts, Insert(s.nextTask, at));
      InsertSettles(c, s, mid, e, at);
    } else {
      assert acts + [] == acts;
    }
  }

  lemma DeliveryEffect(table: Transactions, d: Delivery)
    ensures d.payload.eventId in table || StatusFor(table, d.payload.accountId, d.payload) >= 400 ==> Deliver(table, d) == table
  {
  }

  lemma InsertSettles(c: Config, s: State, mid: State, e: EventPayload, at: Utc)
    requires Forwarded(c, s, mid, e, at, Inserting) && e.eventId !in s.gateway
    requires OnRecord(mid.account, Sent(c, e)) && (e.eventId in s.account ==> mid.account == s.account)
    ensures Enabled(c, mid, Insert(s.nextTask, at))
    ensures Settled(c, s, Step(c, mid, Insert(s.nextTask, at)), e, at, Accepted)
  {
  }

  lemma KnownSettles(c: Config, s: State, e: EventPayload, at: Utc)
    requires GatewayOk(c, s) && Keyed(s.gateway) && ValidConfig(c) && ValidPayload(e) && e.eventId in s.gateway
    ensures Run(c, s, Resubmission(c, s, e, at)).Some?
    ensures Settled(c, s, Run(c, s, Resubmission(c, s, e, at)).value, e, at, Verdict(c, s, e))
  {
    hide CountAnswer, Forward;
    assert [] + [Submit(e)] == [Submit(e)] && [Submit(e)] + [Begin(s.nextTask)] == [Submit(e), Begin(s.nextTask)];
    RunStep(c, s, [], Submit(e));
    RunStep(c, s, [Submit(e)], Begin(s.nextTask));
    hide Run;
    var known := s.gateway[e.eventId].payload;
    if SameEvent(known, e) {
      WireKeepsSame(c.amounts, known, e);
    }
  }

  /** After a pause of the reset window the breaker admits a call, whatever its state. */
  lemma AdmitsAfterReset(c: Config, s: State, pause: real)
    requires BreakerOk(c, s) && c.policy.threshold >= 1 && pause >= c.policy.reset
    ensures Breaker.Admits(c.policy, s.breaker, s.clock + pause)
  {
    Breaker.BreakerClosedForm(c.policy, s.past.results);
  }

  /**
   Recovery: from every reachable state, after a pause that the breaker wants, and one reset window
   is always enough, one fault-free submission settles the event. It is answered 200 or 201, with
   the event in both tables, exactly when the rows under its id are absent or match and the
   account's currency and the amount as sent are acceptable; and the balance moves, by the signed
   amount, exactly when the event reached the Account Service for the first time.
   */
  lemma Recovery(c: Config, s: State, pause: real, e: EventPayload, at: Utc, account: string)
    requires ValidConfig(c) && Reachable(c, s) && ValidPayload(e)
    requires pause >= 0.0 && (pause >= c.policy.reset || Breaker.Admits(c.policy, s.breaker, s.clock + pause))
    ensures var end := Run(c, s, [Tick(pause)] + Resubmission(c, s, e, at));
            && end.Some?
            && Settled(c, s, end.value, e, at, Verdict(c, s, e))
            && Balance(end.value.account, account) - Balance(s.account, account)
               == (if Verdict(c, s, e).Accepted? && e.eventId !in s.account && e.accountId == account
                   then (if e.kind.Credit? then Value(c.amounts(e.amount)) else -Value(c.amounts(e.amount))) else 0.0)
            && (Verdict(c, s, e).Accepted? || Verdict(c, s, e).DuplicateReplay? <==>
                && (e.eventId in s.gateway ==> SameEvent(s.gateway[e.eventId].payload, e))
                && (e.eventId !in s.gateway && e.eventId in s.account ==> SameEvent(s.account[e.eventId].payload, Sent(c, e)))
                && (e.eventId !in s.gateway && e.eventId !in s.account ==> !Clashes(s.account, Sent(c, e)))
                && (e.eventId !in s.gateway ==> ValidPayload(Sent(c, e))))
  {
    ReachableInv(c, s);
    var later := s.(clock := s.clock + pause);
    CalmStep(c, s, later);
    if pause >= c.policy.reset {
      AdmitsAfterReset(c, s, pause);
    }
    hide Reachable, Inv, Resubmission, Run, Settled, Balance;
    SettlesBalance(c, later, e, at, account);
    AfterPause(c, s, pause, e, at);
  }

  /** The pause changes neither what is done nor what is settled. */
  lemma AfterPause(c: Config, s: State, pause: real, e: EventPayload, at: Utc)
    requires pause >= 0.0
    ensures var later, acts := s.(clock := s.clock + pause), Resubmission(c, s, e, at);
            && Resubmission(c, later, e, at) == acts && Verdict(c, later, e) == Verdict(c, s, e)
            && (Run(c, later, acts).Some? ==> Run(c, s, [Tick(pause)] + acts) == Run(c, later, acts))
            && forall after, answer :: Settled(c, later, after, e, at, answer) ==> Settled(c, s, after, e, at, answer)
  {
    var later, acts := s.(clock := s.clock + pause), Resubmission(c, s, e, at);
    assert Run(c, s, [Tick(pause)]) == Some(later) by {
      RunStep(c, s, [], Tick(pause));
      assert [] + [Tick(pause)] == [Tick(pause)];
    }
    RunAppend(c, s, [Tick(pause)], acts);
  }

  lemma SettlesBalance(c: Config, s: State, e: EventPayload, at: Utc, account: string)
    requires ValidConfig(c) && Inv(c, s) && ValidPayload(e)
    requires Breaker.Admits(c.policy, s.breaker, s.clock)
    ensures var end := Run(c, s, Resubmission(c, s, e, at));
            && end.Some? && Settled(c, s, end.value, e, at, Verdict(c, s, e))
            && Balance(end.value.account, account) - Balance(s.account, account)
               == (if Verdict(c, s, e).Accepted? && e.eventId !in s.account && e.accountId == account
                   then (if e.kind.Credit? then Value(c.amounts(e.amount)) else -Value(c.amounts(e.amount))) else 0.0)
  {
    if e.eventId in s.gateway {
      KnownSettles(c, s, e, at);
    } else {
      ForwardSettles(c, s, e, at);
      var payload := Sent(c, e);
      StatusIgnoresTime(s.account, payload.accountId, payload, at);
      ApplyMovesMoneyOnce(s.account, payload, at, account);
    }
  }
}
