/** Each outcome has its own counter: what every counter says about the answers given. */
module ProtocolTallies {
  import opened AccountLedger
  import Breaker
  import opened Contracts
  import opened Deliveries
  import opened GatewayLedger
  import opened Metrics
  import opened Protocol
  import opened ProtocolHandlers
  import opened ProtocolInvariant
  import opened Timestamps
  import opened Wrappers

  /** The counters an answer adds one to. */
  predicate AddsTo(answer: Answer, name: Counter) {
    match name
    case GatewayAccepted => answer.Accepted?
    case GatewayDuplicateReplay => answer.DuplicateReplay?
    case GatewayConflict => answer.Conflicting?
    case GatewayRejected => answer.Rejected?
    case GatewayUnavailable => answer.Unavailable? || answer.CircuitOpen?
    case GatewayCircuitOpen => answer.CircuitOpen?
    case _ => false
  }

  /** The handlers whose answer adds to `name`. */
  function Answered(s: State, name: Counter): set<nat> {
    set t <- s.tasks | s.tasks[t].pc.Done? && AddsTo(s.tasks[t].pc.answer, name)
  }

  /** What the read routes have added to `name`. */
  function FromReads(s: State, name: Counter): nat {
    if name == GatewayUnavailable then s.meters.readUnavailable
    else if name == GatewayCircuitOpen then s.meters.readRefused else 0
  }

  ghost predicate TallyOk(s: State) {
    forall name :: Count(s.meters.domain, name) == |Answered(s, name)| + FromReads(s, name)
  }

  lemma CountsEach(domain: Counts<Counter>, answer: Answer, name: Counter)
    ensures Count(CountAnswer(domain, answer), name) == Count(domain, name) + if AddsTo(answer, name) then 1 else 0
  {
  }

  lemma SameTallies(s: State, after: State)
    requires TallyOk(s) && after.meters.domain == s.meters.domain
    requires after.meters.readUnavailable == s.meters.readUnavailable && after.meters.readRefused == s.meters.readRefused
    requires forall t :: FinishedAs(after, t) == FinishedAs(s, t)
    ensures TallyOk(after)
  {
    forall name ensures Answered(after, name) == Answered(s, name) {
      forall t ensures t in Answered(after, name) <==> t in Answered(s, name) {
        assert FinishedAs(after, t) == FinishedAs(s, t);
      }
    }
  }

  function FinishedAs(s: State, t: nat): Option<Answer> {
    if t in s.tasks && s.tasks[t].pc.Done? then Some(s.tasks[t].pc.answer) else None
  }

  lemma OneMoreAnswer(s: State, after: State, t: nat, answer: Answer)
    requires TallyOk(s) && FinishedAs(s, t) == None && FinishedAs(after, t) == Some(answer)
    requires forall u :: u != t ==> FinishedAs(after, u) == FinishedAs(s, u)
    requires after.meters.domain == CountAnswer(s.meters.domain, answer)
    requires after.meters.readUnavailable == s.meters.readUnavailable && after.meters.readRefused == s.meters.readRefused
    ensures TallyOk(after)
  {
    hide CountAnswer, Count, AddsTo;
    forall name ensures Count(after.meters.domain, name) == |Answered(after, name)| + FromReads(after, name) {
      CountsEach(s.meters.domain, answer, name);
      AnsweredGrows(s, after, t, answer, name);
    }
  }

  lemma AnsweredGrows(s: State, after: State, t: nat, answer: Answer, name: Counter)
    requires FinishedAs(s, t) == None && FinishedAs(after, t) == Some(answer)
    requires forall u :: u != t ==> FinishedAs(after, u) == FinishedAs(s, u)
    ensures |Answered(after, name)| == |Answered(s, name)| + if AddsTo(answer, name) then 1 else 0
  {
    hide AddsTo, Answered, FinishedAs;
    var before, now := Answered(s, name), Answered(after, name);
    forall u ensures u in now <==> u in before || (u == t && AddsTo(answer, name)) {
      AnsweredIff(s, u, name);
      AnsweredIff(after, u, name);
    }
    AnsweredIff(s, t, name);
    assert now == if AddsTo(answer, name) then before + {t} else before;
  }

  lemma AnsweredIff(s: State, u: nat, name: Counter)
    ensures u in Answered(s, name) <==> FinishedAs(s, u).Some? && AddsTo(FinishedAs(s, u).value, name)
  {
  }

  lemma FinishTally(s: State, t: nat, answer: Answer, after: State)
    requires TallyOk(s) && t in s.tasks && !s.tasks[t].pc.Done?
    requires after.tasks == Finish(s, t, answer).tasks && after.meters == Finish(s, t, answer).meters
    ensures TallyOk(after)
  {
    hide TallyOk, CountAnswer;
    OneMoreAnswer(s, after, t, answer);
  }

  /** A handler moves without finishing. */
  lemma MoveTally(s: State, after: State, t: nat)
    requires TallyOk(s) && after.meters == s.meters && t in s.tasks && t in after.tasks
    requires after.tasks == s.tasks[t := after.tasks[t]] && !s.tasks[t].pc.Done? && !after.tasks[t].pc.Done?
    ensures TallyOk(after)
  {
    hide TallyOk;
    SameTallies(s, after);
  }

  lemma BeginTally(c: Config, s: State, t: nat)
    requires TallyOk(s) && At(s, t, Start)
    ensures TallyOk(BeginStep(c, s, t))
  {
    hide TallyOk, CountAnswer, SameEvent, Breaker.Admits;
    var e := s.tasks[t].event;
    if e.eventId in s.gateway {
      FinishTally(s, t, if SameEvent(s.gateway[e.eventId].payload, e) then DuplicateReplay else Conflicting, BeginStep(c, s, t));
    } else if !Breaker.Admits(c.policy, s.breaker, s.clock) {
      FinishTally(s, t, CircuitOpen, BeginStep(c, s, t));
    } else {
      MoveTally(s, BeginStep(c, s, t), t);
    }
  }

  lemma AttemptFailedTally(c: Config, s: State, t: nat, k: nat)
    requires TallyOk(s) && t in s.tasks && !s.tasks[t].pc.Done?
    ensures TallyOk(AttemptFailed(c, s, t, k))
  {
    hide TallyOk, CountAnswer, Breaker.Record;
    if k < c.policy.maxAttempts {
      MoveTally(s, AttemptFailed(c, s, t, k), t);
    } else {
      FinishTally(s, t, Unavailable, AttemptFailed(c, s, t, k));
    }
  }

  lemma ReceiveTally(c: Config, s: State, m: Message)
    requires TallyOk(s) && m.Reply? && m.task in s.tasks && !s.tasks[m.task].pc.Done?
    ensures TallyOk(ReceiveStep(c, s, m))
  {
    hide TallyOk, CountAnswer, Breaker.Record, AttemptFailed;
    var s1 := s.(network := s.network - multiset{m});
    if m.code >= 500 {
      SameTallies(s, s1);
      AttemptFailedTally(c, s1, m.task, m.attempt);
    } else if m.code >= 400 {
      FinishTally(s, m.task, Rejected(m.code), ReceiveStep(c, s, m));
    } else {
      MoveTally(s, ReceiveStep(c, s, m), m.task);
    }
  }

  lemma InsertTally(s: State, t: nat, at: Utc)
    requires TallyOk(s) && At(s, t, Inserting)
    ensures TallyOk(InsertStep(s, t, at))
  {
    hide TallyOk, CountAnswer;
    match InsertOnce(s.gateway, s.tasks[t].event, at).1 {
      case Inserted => FinishTally(s, t, Accepted, InsertStep(s, t, at));
      case Existing => FinishTally(s, t, DuplicateReplay, InsertStep(s, t, at));
      case Differs => FinishTally(s, t, Conflicting, InsertStep(s, t, at));
    }
  }

  lemma ReadTally(s: State, answer: Answer)
    requires TallyOk(s) && (answer.Unavailable? || answer.CircuitOpen?)
    ensures TallyOk(ReadUnavailable(s, answer))
  {
    hide CountAnswer;
    var after := ReadUnavailable(s, answer);
    forall name ensures Count(after.meters.domain, name) == |Answered(after, name)| + FromReads(after, name) {
      CountsEach(s.meters.domain, answer, name);
      assert Answered(after, name) == Answered(s, name);
    }
  }

  lemma ReadStepTally(c: Config, s: State, r: Breaker.CallResult)
    requires TallyOk(s)
    ensures TallyOk(ReadStep(c, s, r))
  {
    hide TallyOk, CountAnswer, Breaker.Record;
    SameTallies(s, RecordResult(c, s, r));
    if r.Failed? {
      ReadTally(RecordResult(c, s, r), Unavailable);
    }
  }

  lemma EmptyTally(s: State)
    requires s.tasks == map[] && s.meters.domain == map[] && s.meters.readUnavailable == s.meters.readRefused == 0
    ensures TallyOk(s)
  {
    forall name ensures Answered(s, name) == {} {
    }
  }

  /** Neither the answers nor their counters are concerned. */
  lemma OtherTally(c: Config, s: State, a: Action)
    requires TallyOk(s) && Enabled(c, s, a) && s.nextTask !in s.tasks
    requires a.Submit? || a.SubmitMalformed? || a.Lose? || a.CountRequest? || a.Tick?
    ensures TallyOk(Step(c, s, a))
  {
    hide TallyOk, StatusOf;
    SameTallies(s, Step(c, s, a));
  }

  lemma AnswerTally(s: State, m: Message, applied: bool, code: int, at: Utc)
    requires TallyOk(s) && m.Request?
    ensures TallyOk(AnswerStep(s, m, applied, code, at))
  {
    hide TallyOk, Deliver;
    SameTallies(s, AnswerStep(s, m, applied, code, at));
  }

  lemma StepKeepsTally(c: Config, s: State, a: Action)
    requires TallyOk(s) && Enabled(c, s, a) && s.nextTask !in s.tasks
    ensures TallyOk(Step(c, s, a))
  {
    hide TallyOk, BeginStep, AttemptFailed, ReceiveStep, InsertStep, ReadStep, CountAnswer, ReadUnavailable, AnswerStep, Respond;
    match a {
      case Arrive(m, at) => AnswerTally(s, m, true, Respond(s.account, m.payload.accountId, m.payload, at).1, at);
      case Fail(m, applied, code, at) => AnswerTally(s, m, applied, code, at);
      case Begin(t) => BeginTally(c, s, t);
      case Receive(m) => ReceiveTally(c, s, m);
      case TimeOut(t) => AttemptFailedTally(c, s, t, s.tasks[t].pc.attempt);
      case Resend(t) => MoveTally(s, Step(c, s, a), t);
      case Insert(t, at) => InsertTally(s, t, at);
      case ReadDone(r) => ReadStepTally(c, s, r);
      case ReadRefused => ReadTally(s, CircuitOpen);
      case Crash => EmptyTally(Step(c, s, a));
      case _ => OtherTally(c, s, a);
    }
  }

  lemma {:induction false} RunKeepsTally(c: Config, acts: seq<Action>)
    requires ValidConfig(c) && Run(c, Init, acts).Some?
    ensures TallyOk(Run(c, Init, acts).value)
    decreases |acts|
  {
    hide TallyOk, Step, Enabled;
    if acts == [] {
      EmptyTally(Init);
    } else {
      var front := acts[..|acts| - 1];
      RunKeepsTally(c, front);
      RunKeepsInv(c, front);
      NextIsNew(c, Run(c, Init, front).value);
      StepKeepsTally(c, Run(c, Init, front).value, acts[|acts| - 1]);
    }
  }

  /**
   In every reachable state each outcome counter is the number of handlers of this process that
   gave this answer, told by its status where a status has one meaning, to which the read routes
   add where they share a counter.
   */
  lemma EachOutcomeCounted(c: Config, s: State)
    requires ValidConfig(c) && Reachable(c, s)
    ensures var d := s.meters.domain;
            && Count(d, GatewayAccepted) == |set t <- s.tasks | s.tasks[t].pc.Done? && StatusOf(s.tasks[t].pc.answer) == 201|
            && Count(d, GatewayDuplicateReplay)
               == |set t <- s.tasks | s.tasks[t].pc.Done? && StatusOf(s.tasks[t].pc.answer) == 200|
            && Count(d, GatewayConflict) == |set t <- s.tasks | s.tasks[t].pc == Done(Conflicting)|
            && Count(d, GatewayRejected) == |set t <- s.tasks | s.tasks[t].pc.Done? && s.tasks[t].pc.answer.Rejected?|
            && Count(d, GatewayCircuitOpen)
               == |set t <- s.tasks | s.tasks[t].pc == Done(CircuitOpen)| + s.meters.readRefused
            && Count(d, GatewayUnavailable)
               == |set t <- s.tasks | s.tasks[t].pc.Done? && StatusOf(s.tasks[t].pc.answer) == 503| + s.meters.readUnavailable
  {
    hide Count, TallyOk, Answered, StatusOf, CodesOk, Run;
    var acts :| Run(c, Init, acts) == Some(s);
    RunKeepsTally(c, acts);
    EachTally(s);
    RejectedCodes(c, s);
    AnsweredIs(s);
  }

  lemma EachTally(s: State)
    requires TallyOk(s)
    ensures var d := s.meters.domain;
            && Count(d, GatewayAccepted) == |Answered(s, GatewayAccepted)|
            && Count(d, GatewayDuplicateReplay) == |Answered(s, GatewayDuplicateReplay)|
            && Count(d, GatewayConflict) == |Answered(s, GatewayConflict)|
            && Count(d, GatewayRejected) == |Answered(s, GatewayRejected)|
            && Count(d, GatewayCircuitOpen) == |Answered(s, GatewayCircuitOpen)| + s.meters.readRefused
            && Count(d, GatewayUnavailable) == |Answered(s, GatewayUnavailable)| + s.meters.readUnavailable
  {
    hide Answered, Count;
  }

  lemma RejectedCodes(c: Config, s: State)
    requires ValidConfig(c) && Reachable(c, s)
    ensures CodesOk(s)
  {
    hide Reachable;
    ReachableInv(c, s);
    forall t | t in s.tasks && s.tasks[t].pc.Done? && s.tasks[t].pc.answer.Rejected?
      ensures 400 <= s.tasks[t].pc.answer.code < 500
    {
      assert TaskOk(c, s, t, s.tasks[t]);
    }
  }

  ghost predicate CodesOk(s: State) {
    forall t <- s.tasks :: s.tasks[t].pc.Done? && s.tasks[t].pc.answer.Rejected? ==> 400 <= s.tasks[t].pc.answer.code < 500
  }

  lemma AnsweredIs(s: State)
    requires CodesOk(s)
    ensures Answered(s, GatewayAccepted)
            == set t <- s.tasks | s.tasks[t].pc.Done? && StatusOf(s.tasks[t].pc.answer) == 201
    ensures Answered(s, GatewayDuplicateReplay)
            == set t <- s.tasks | s.tasks[t].pc.Done? && StatusOf(s.tasks[t].pc.answer) == 200
    ensures Answered(s, GatewayConflict) == set t <- s.tasks | s.tasks[t].pc == Done(Conflicting)
    ensures Answered(s, GatewayRejected) == set t <- s.tasks | s.tasks[t].pc.Done? && s.tasks[t].pc.answer.Rejected?
    ensures Answered(s, GatewayCircuitOpen) == set t <- s.tasks | s.tasks[t].pc == Done(CircuitOpen)
    ensures Answered(s, GatewayUnavailable)
            == set t <- s.tasks | s.tasks[t].pc.Done? && StatusOf(s.tasks[t].pc.answer) == 503
  {
  }
}
