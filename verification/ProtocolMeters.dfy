/** Conservation of outcomes: what the counters say about finished submissions, over every run. */
module ProtocolMeters {
  import opened AccountLedger
  import Breaker
  import opened Contracts
  import opened GatewayLedger
  import opened Metrics
  import opened Protocol
  import opened ProtocolInvariant
  import opened Timestamps
  import opened Wrappers

  /** Every way a submission can end has one counter; a refused call adds to a sixth as well. */
  function Outcomes(domain: Counts<Counter>): nat {
    Count(domain, GatewayAccepted) + Count(domain, GatewayDuplicateReplay) + Count(domain, GatewayConflict)
    + Count(domain, GatewayRejected) + Count(domain, GatewayUnavailable)
  }

  predicate FinishedWell(task: Task) {
    task.pc.Done? && (task.pc.answer.Rejected? ==> 400 <= task.pc.answer.code < 500)
  }

  /** Finished handlers that answered with a server error and are still to be counted. */
  function UncountedErrors(s: State): set<nat> {
    set t <- s.meters.uncounted | t in s.tasks && s.tasks[t].pc.Done? && StatusOf(s.tasks[t].pc.answer) >= 500
  }

  ghost predicate MetersOk(s: State) {
    var m := s.meters;
    && (forall t <- m.uncounted :: t in s.tasks && FinishedWell(s.tasks[t]))
    && m.requests + |m.uncounted| + m.readUnavailable == Outcomes(m.domain) + m.refused
    && m.errors + |UncountedErrors(s)| + m.readUnavailable == Count(m.domain, GatewayUnavailable)
    && Count(m.domain, GatewayCircuitOpen) <= Count(m.domain, GatewayUnavailable)
    && Count(m.domain, GatewayAccepted) + m.rowsAtBoot == |s.gateway|
  }

  /** A 201 goes out exactly once for each Gateway row ever written. */
  ghost predicate CreatedOk(s: State) {
    forall id :: s.past.created[id] == if id in s.gateway then 1 else 0
  }

  /** The counters do not look at the network, the breaker or the Account table. */
  lemma MetersFrame(s: State, after: State)
    requires MetersOk(s)
    requires after.meters == s.meters && after.gateway == s.gateway
    requires forall t <- s.meters.uncounted :: t in after.tasks && t in s.tasks && after.tasks[t] == s.tasks[t]
    ensures MetersOk(after)
  {
    assert UncountedErrors(after) == UncountedErrors(s);
  }

  lemma CountedOnce(domain: Counts<Counter>, answer: Answer)
    ensures var after := CountAnswer(domain, answer);
            && Outcomes(after) == Outcomes(domain) + 1
            && Count(after, GatewayUnavailable)
               == Count(domain, GatewayUnavailable) + (if answer.Unavailable? || answer.CircuitOpen? then 1 else 0)
            && Count(after, GatewayCircuitOpen)
               == Count(domain, GatewayCircuitOpen) + (if answer.CircuitOpen? then 1 else 0)
            && Count(after, GatewayAccepted) == Count(domain, GatewayAccepted) + (if answer.Accepted? then 1 else 0)
  {
  }

  lemma FinishMeters(s: State, t: nat, answer: Answer)
    requires MetersOk(s) && t in s.tasks && !s.tasks[t].pc.Done? && !answer.Accepted?
    requires answer.Rejected? ==> 400 <= answer.code < 500
    ensures MetersOk(Finish(s, t, answer))
  {
    hide CountAnswer, Outcomes, Count, UncountedErrors, FinishedWell;
    FinishUncounted(s, t, answer);
    FinishErrors(s, t, answer);
    CountedOnce(s.meters.domain, answer);
  }

  lemma FinishUncounted(s: State, t: nat, answer: Answer)
    requires forall u <- s.meters.uncounted :: u in s.tasks && FinishedWell(s.tasks[u])
    requires t in s.tasks && !s.tasks[t].pc.Done? && (answer.Rejected? ==> 400 <= answer.code < 500)
    ensures var after := Finish(s, t, answer);
            forall u <- after.meters.uncounted :: u in after.tasks && FinishedWell(after.tasks[u])
    ensures forall u <- s.meters.uncounted :: s.tasks[u].pc.Done?
    ensures t !in s.meters.uncounted
  {
    hide CountAnswer;
  }

  lemma FinishErrors(s: State, t: nat, answer: Answer)
    requires forall u <- s.meters.uncounted :: u in s.tasks && s.tasks[u].pc.Done?
    requires t in s.tasks && !s.tasks[t].pc.Done?
    ensures t !in s.meters.uncounted
    ensures UncountedErrors(Finish(s, t, answer))
            == UncountedErrors(s) + (if StatusOf(answer) >= 500 then {t} else {})
    ensures t !in UncountedErrors(s)
  {
  }

  /** A new Gateway row, its 201 and its counter go together. */
  lemma AcceptMeters(s: State, t: nat, e: EventPayload, at: Utc, after: State)
    requires MetersOk(s) && t in s.tasks && !s.tasks[t].pc.Done? && e.eventId !in s.gateway
    requires after.tasks == Finish(s, t, Accepted).tasks && after.meters == Finish(s, t, Accepted).meters
    requires after.gateway == InsertOnce(s.gateway, e, at).0
    ensures MetersOk(after)
  {
    hide CountAnswer, Outcomes, Count, UncountedErrors, FinishedWell, InsertOnce;
    FinishUncounted(s, t, Accepted);
    FinishErrors(s, t, Accepted);
    CountedOnce(s.meters.domain, Accepted);
    OneMoreRow(s.gateway, e, at);
    SameErrors(after, Finish(s, t, Accepted));
  }

  lemma OneMoreRow(table: Events, e: EventPayload, at: Utc)
    requires e.eventId !in table
    ensures |InsertOnce(table, e, at).0| == |table| + 1
  {
  }

  lemma SameErrors(s: State, t: State)
    requires s.tasks == t.tasks && s.meters == t.meters
    ensures UncountedErrors(s) == UncountedErrors(t)
  {
  }

  lemma InsertMeters(s: State, t: nat, at: Utc)
    requires MetersOk(s) && t in s.tasks && s.tasks[t].pc.Inserting?
    ensures MetersOk(InsertStep(s, t, at))
  {
    var e := s.tasks[t].event;
    match InsertOnce(s.gateway, e, at).1 {
      case Inserted => AcceptMeters(s, t, e, at, InsertStep(s, t, at));
      case Existing => FinishMeters(s, t, DuplicateReplay);
      case Differs => FinishMeters(s, t, Conflicting);
    }
  }

  lemma InsertCreated(s: State, t: nat, at: Utc)
    requires CreatedOk(s) && t in s.tasks
    ensures CreatedOk(InsertStep(s, t, at))
  {
  }

  lemma CountMeters(s: State, t: nat)
    requires MetersOk(s) && t in s.meters.uncounted && t in s.tasks && s.tasks[t].pc.Done?
    ensures MetersOk(CountStep(s, t))
  {
    assert UncountedErrors(CountStep(s, t)) == UncountedErrors(s) - {t};
    assert t in UncountedErrors(s) <==> StatusOf(s.tasks[t].pc.answer) >= 500;
  }

  lemma ReadMeters(s: State, answer: Answer)
    requires MetersOk(s) && (answer.Unavailable? || answer.CircuitOpen?)
    ensures MetersOk(ReadUnavailable(s, answer))
  {
    hide CountAnswer, Outcomes, Count;
    CountedOnce(s.meters.domain, answer);
    assert UncountedErrors(ReadUnavailable(s, answer)) == UncountedErrors(s);
  }

  lemma AttemptFailedMeters(c: Config, s: State, t: nat, k: nat)
    requires MetersOk(s) && t in s.tasks && !s.tasks[t].pc.Done?
    ensures MetersOk(AttemptFailed(c, s, t, k))
  {
    if k < c.policy.maxAttempts {
      MetersFrame(s, MoveTo(s, t, Pausing(k)));
    } else {
      var s1 := RecordResult(c, s, Breaker.Failed(s.clock));
      MetersFrame(s, s1);
      FinishMeters(s1, t, Unavailable);
    }
  }

  lemma BeginMeters(c: Config, s: State, t: nat)
    requires MetersOk(s) && t in s.tasks && s.tasks[t].pc.Start?
    ensures MetersOk(BeginStep(c, s, t))
  {
    var e := s.tasks[t].event;
    if e.eventId in s.gateway {
      FinishMeters(s, t, if SameEvent(s.gateway[e.eventId].payload, e) then DuplicateReplay else Conflicting);
    } else if !Breaker.Admits(c.policy, s.breaker, s.clock) {
      FinishMeters(s, t, CircuitOpen);
    } else {
      MetersFrame(s, SendAttempt(c, s, t, 1));
    }
  }

  lemma ReceiveMeters(c: Config, s: State, m: Message)
    requires MetersOk(s) && m.Reply? && m.task in s.tasks && !s.tasks[m.task].pc.Done?
    ensures MetersOk(ReceiveStep(c, s, m))
  {
    var s1 := s.(network := s.network - multiset{m});
    MetersFrame(s, s1);
    if m.code >= 500 {
      AttemptFailedMeters(c, s1, m.task, m.attempt);
    } else {
      var s2 := RecordResult(c, s1, Breaker.Succeeded);
      MetersFrame(s1, s2);
      if m.code >= 400 {
        FinishMeters(s2, m.task, Rejected(m.code));
      } else {
        MetersFrame(s2, MoveTo(s2, m.task, Inserting));
      }
    }
  }

  lemma CrashMeters(s: State)
    ensures MetersOk(CrashStep(s))
  {
  }

  lemma SubmitMeters(c: Config, s: State, e: EventPayload)
    requires MetersOk(s) && TasksOk(c, s)
    ensures MetersOk(SubmitStep(s, e))
  {
    forall t | t in s.meters.uncounted ensures t in s.tasks && t != s.nextTask {
      assert TaskOk(c, s, t, s.tasks[t]);
    }
    MetersFrame(s, SubmitStep(s, e));
  }

  lemma MalformedMeters(s: State)
    requires MetersOk(s)
    ensures MetersOk(MalformedStep(s))
  {
    assert UncountedErrors(MalformedStep(s)) == UncountedErrors(s);
  }

  lemma StepKeepsMeters(c: Config, s: State, a: Action)
    requires MetersOk(s) && TasksOk(c, s) && Enabled(c, s, a)
    ensures MetersOk(Step(c, s, a))
  {
    hide MetersOk, TasksOk;
    match a {
      case Submit(e) => SubmitMeters(c, s, e);
      case SubmitMalformed => MalformedMeters(s);
      case Begin(t) => BeginMeters(c, s, t);
      case Arrive(m, at) => AnswerMeters(s, m, true, Respond(s.account, m.payload.accountId, m.payload, at).1, at);
      case Fail(m, applied, code, at) => AnswerMeters(s, m, applied, code, at);
      case Lose(m) => UntouchedMeters(s, s.(network := s.network - multiset{m}));
      case Receive(m) => ReceiveMeters(c, s, m);
      case TimeOut(t) => AttemptFailedMeters(c, s, t, s.tasks[t].pc.attempt);
      case Resend(t) => ResendMeters(c, s, t, s.tasks[t].pc.attempt + 1);
      case Insert(t, at) => InsertMeters(s, t, at);
      case CountRequest(t) => CountMeters(s, t);
      case ReadDone(r) => ReadStepMeters(c, s, r);
      case ReadRefused => ReadMeters(s, CircuitOpen);
      case Tick(d) => UntouchedMeters(s, s.(clock := s.clock + d));
      case Crash => CrashMeters(s);
    }
  }

  lemma UntouchedMeters(s: State, after: State)
    requires MetersOk(s) && after.meters == s.meters && after.gateway == s.gateway && after.tasks == s.tasks
    ensures MetersOk(after)
  {
  }

  lemma AnswerMeters(s: State, m: Message, applied: bool, code: int, at: Utc)
    requires MetersOk(s) && m.Request?
    ensures MetersOk(AnswerStep(s, m, applied, code, at))
  {
  }

  lemma ResendMeters(c: Config, s: State, t: nat, k: nat)
    requires MetersOk(s) && t in s.tasks && !s.tasks[t].pc.Done?
    ensures MetersOk(SendAttempt(c, s, t, k))
  {
    MetersFrame(s, SendAttempt(c, s, t, k));
  }

  lemma ReadStepMeters(c: Config, s: State, r: Breaker.CallResult)
    requires MetersOk(s)
    ensures MetersOk(ReadStep(c, s, r))
  {
  }

  lemma AnswerCreated(s: State, m: Message, applied: bool, code: int, at: Utc)
    requires CreatedOk(s) && m.Request?
    ensures CreatedOk(AnswerStep(s, m, applied, code, at))
  {
  }

  lemma CreatedFrame(s: State, after: State)
    requires CreatedOk(s) && SameTables(s, after)
    ensures CreatedOk(after)
  {
  }

  lemma StepKeepsCreated(c: Config, s: State, a: Action)
    requires CreatedOk(s) && Enabled(c, s, a)
    ensures CreatedOk(Step(c, s, a))
  {
    hide CreatedOk, SameTables, InsertStep, AnswerStep;
    match a {
      case Insert(t, at) => InsertCreated(s, t, at);
      case Arrive(m, at) => AnswerCreated(s, m, true, Respond(s.account, m.payload.accountId, m.payload, at).1, at);
      case Fail(m, applied, code, at) => AnswerCreated(s, m, applied, code, at);
      case _ =>
        OtherStepsKeepTables(c, s, a);
        CreatedFrame(s, Step(c, s, a));
    }
  }

  lemma NothingCounted()
    ensures MetersOk(Init) && CreatedOk(Init)
  {
    assert UncountedErrors(Init) == {};
  }

  lemma {:induction false} RunKeepsMeters(c: Config, acts: seq<Action>)
    requires ValidConfig(c) && Run(c, Init, acts).Some?
    ensures MetersOk(Run(c, Init, acts).value) && CreatedOk(Run(c, Init, acts).value)
    decreases |acts|
  {
    hide MetersOk, CreatedOk, Step, Enabled, TasksOk;
    if acts == [] {
      NothingCounted();
    } else {
      var front := acts[..|acts| - 1];
      RunKeepsMeters(c, front);
      RunKeepsInv(c, front);
      StepKeepsMeters(c, Run(c, Init, front).value, acts[|acts| - 1]);
      StepKeepsCreated(c, Run(c, Init, front).value, acts[|acts| - 1]);
    }
  }

  lemma ReachableMeters(c: Config, s: State)
    requires ValidConfig(c) && Reachable(c, s)
    ensures MetersOk(s) && CreatedOk(s)
  {
    var acts :| Run(c, Init, acts) == Some(s);
    RunKeepsMeters(c, acts);
  }

  /**
   In every reachable state: the submissions counted as HTTP requests, together with those that
   finished but are not counted yet, are the accepted, replayed, conflicting, rejected and
   unavailable ones and those that validation refused, which no outcome counter shows; server
   errors are the unavailable ones; a refused call is an unavailable one; accepted ones are the
   rows written since the process started; and every event id is answered with 201 once if it is
   on record and never otherwise, crashes included.
   */
  lemma OutcomesConserved(c: Config, s: State, id: string)
    requires ValidConfig(c) && Reachable(c, s)
    ensures var m := s.meters;
            var unavailable := Count(m.domain, GatewayUnavailable) - m.readUnavailable;
            && m.requests + |m.uncounted|
               == Count(m.domain, GatewayAccepted) + Count(m.domain, GatewayDuplicateReplay)
                  + Count(m.domain, GatewayConflict) + Count(m.domain, GatewayRejected) + unavailable + m.refused
            && m.errors + |UncountedErrors(s)| == unavailable
            && Count(m.domain, GatewayCircuitOpen) <= Count(m.domain, GatewayUnavailable)
            && Count(m.domain, GatewayAccepted) == |s.gateway| - m.rowsAtBoot
            && s.past.created[id] == if id in s.gateway then 1 else 0
  {
    hide Reachable;
    ReachableMeters(c, s);
  }
}
