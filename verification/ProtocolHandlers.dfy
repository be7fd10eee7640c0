/** How handlers move on from step to step, and which of them have sent anything. */
module ProtocolHandlers {
  import opened AccountLedger
  import Breaker
  import opened Contracts
  import opened Deliveries
  import opened Protocol
  import opened ProtocolInvariant
  import opened Rows
  import opened Timestamps
  import opened Wrappers

  // ---- one step ---------------------------------------------------------------------------

  /** Handler `t` alone moves, if any does. */
  ghost predicate OnlyMoves(s: State, after: State, t: nat) {
    && t in s.tasks && t in after.tasks && after.nextTask == s.nextTask
    && after.tasks == s.tasks[t := Task(s.tasks[t].event, after.tasks[t].pc)]
  }

  /** What one step may do to a handler: an answer is final, and a new handler is at its start. */
  ghost predicate GoesOn(s: State, after: State, t: nat) {
    && s.nextTask <= after.nextTask
    && (t in after.tasks && t in s.tasks ==>
          && after.tasks[t].event == s.tasks[t].event
          && (s.tasks[t].pc.Done? ==> after.tasks[t] == s.tasks[t]))
    && (t in after.tasks && t !in s.tasks ==> t == s.nextTask < after.nextTask && after.tasks[t].pc.Start?)
  }

  lemma BeginMoves(c: Config, s: State, t: nat)
    requires t in s.tasks
    ensures OnlyMoves(s, BeginStep(c, s, t), t)
    ensures BeginStep(c, s, t).tasks[t].pc != Done(Accepted)
  {
  }

  lemma AttemptFailedMoves(c: Config, s: State, t: nat, k: nat)
    requires t in s.tasks
    ensures OnlyMoves(s, AttemptFailed(c, s, t, k), t)
    ensures AttemptFailed(c, s, t, k).tasks[t].pc in {Pausing(k), Done(Unavailable)}
    ensures SamePost(s, AttemptFailed(c, s, t, k))
  {
  }

  /** Nothing is sent and nothing handled. */
  ghost predicate SamePost(s: State, after: State) {
    && after.network <= s.network && after.past.senders == s.past.senders && after.past.carriers == s.past.carriers
  }

  lemma FinishMoves(s: State, t: nat, answer: Answer)
    requires t in s.tasks
    ensures OnlyMoves(s, Finish(s, t, answer), t) && SamePost(s, Finish(s, t, answer))
    ensures Finish(s, t, answer).tasks[t].pc == Done(answer)
  {
    hide CountAnswer;
  }

  lemma RecordMovesNothing(c: Config, s: State, r: Breaker.CallResult)
    ensures RecordResult(c, s, r).tasks == s.tasks && RecordResult(c, s, r).nextTask == s.nextTask
    ensures SamePost(s, RecordResult(c, s, r))
  {
  }

  lemma ReceiveMoves(c: Config, s: State, m: Message)
    requires m.Reply? && m.task in s.tasks
    ensures OnlyMoves(s, ReceiveStep(c, s, m), m.task) && SamePost(s, ReceiveStep(c, s, m))
    ensures var pc := ReceiveStep(c, s, m).tasks[m.task].pc;
            pc.Pausing? || pc.Inserting? || (pc.Done? && (pc.answer.Unavailable? || pc.answer.Rejected?))
  {
    hide RecordResult, AttemptFailed, Finish;
    var s1 := s.(network := s.network - multiset{m});
    AttemptFailedMoves(c, s1, m.task, m.attempt);
    RecordMovesNothing(c, s1, Breaker.Succeeded);
    FinishMoves(RecordResult(c, s1, Breaker.Succeeded), m.task, Rejected(m.code));
  }

  lemma InsertMoves(s: State, t: nat, at: Utc)
    requires t in s.tasks
    ensures OnlyMoves(s, InsertStep(s, t, at), t) && SamePost(s, InsertStep(s, t, at))
    ensures var pc := InsertStep(s, t, at).tasks[t].pc;
            pc.Done? && !pc.answer.CircuitOpen? && !pc.answer.Unavailable?
            && (pc.answer.Accepted? ==> s.tasks[t].event.eventId !in s.gateway)
  {
  }

  lemma OneMoverGoesOn(s: State, after: State, mover: nat, t: nat)
    requires OnlyMoves(s, after, mover) && !s.tasks[mover].pc.Done?
    ensures GoesOn(s, after, t)
  {
  }

  /** The rest of the steps concern no handler. */
  lemma OthersMoveNothing(c: Config, s: State, a: Action)
    requires Enabled(c, s, a) && !HandlerAction(a) && !a.Crash?
    ensures Step(c, s, a).tasks == s.tasks && Step(c, s, a).nextTask == s.nextTask
  {
    hide AnswerStep, ReadStep, CountAnswer, Respond, StatusOf, Breaker.Admits;
    match a {
      case Arrive(m, at) => AnswerMovesNothing(s, m, true, Respond(s.account, m.payload.accountId, m.payload, at).1, at);
      case Fail(m, applied, code, at) => AnswerMovesNothing(s, m, applied, code, at);
      case ReadDone(r) => ReadMovesNothing(c, s, r);
      case _ =>
    }
  }

  lemma AnswerMovesNothing(s: State, m: Message, applied: bool, code: int, at: Utc)
    requires m.Request?
    ensures var after := AnswerStep(s, m, applied, code, at);
            after.tasks == s.tasks && after.nextTask == s.nextTask
  {
  }

  lemma ReadMovesNothing(c: Config, s: State, r: Breaker.CallResult)
    ensures ReadStep(c, s, r).tasks == s.tasks && ReadStep(c, s, r).nextTask == s.nextTask
  {
    hide CountAnswer;
    RecordMovesNothing(c, s, r);
  }

  lemma StepGoesOn(c: Config, s: State, a: Action, t: nat)
    requires Enabled(c, s, a) && s.nextTask !in s.tasks
    ensures GoesOn(s, Step(c, s, a), t)
  {
    if !HandlerAction(a) && !a.Crash? {
      OthersMoveNothing(c, s, a);
    } else {
      HandlerGoesOn(c, s, a, t);
    }
  }

  lemma HandlerGoesOn(c: Config, s: State, a: Action, t: nat)
    requires Enabled(c, s, a) && (HandlerAction(a) || a.Crash?) && s.nextTask !in s.tasks
    ensures GoesOn(s, Step(c, s, a), t)
  {
    hide BeginStep, AttemptFailed, ReceiveStep, InsertStep, OnlyMoves, CountAnswer;
    match a {
      case Begin(u) =>
        BeginMoves(c, s, u);
        OneMoverGoesOn(s, BeginStep(c, s, u), u, t);
      case Receive(m) =>
        ReceiveMoves(c, s, m);
        OneMoverGoesOn(s, ReceiveStep(c, s, m), m.task, t);
      case TimeOut(u) =>
        AttemptFailedMoves(c, s, u, s.tasks[u].pc.attempt);
        OneMoverGoesOn(s, AttemptFailed(c, s, u, s.tasks[u].pc.attempt), u, t);
      case Insert(u, at) =>
        InsertMoves(s, u, at);
        OneMoverGoesOn(s, InsertStep(s, u, at), u, t);
      case _ =>
    }
  }

  // ---- who has sent anything --------------------------------------------------------------

  /** Whether a handler that stands at `pc` has sent a request. */
  predicate PcTells(pc: Pc, sent: bool) {
    && (pc.Start? || (pc.Done? && pc.answer.CircuitOpen?) ==> !sent)
    && (pc.Waiting? || pc.Pausing? || pc.Inserting? || (pc.Done? && pc.answer.Unavailable?) ==> sent)
  }

  /** Every message, and everything handled, came from a sender; where a handler stands tells whether it is one. */
  ghost predicate SendersOk(s: State) {
    && (forall m <- s.network :: m.task in s.past.senders)
    && (forall t <- s.past.carriers :: t in s.past.senders)
    && (forall t <- s.past.senders :: t < s.nextTask)
    && (forall t <- s.tasks :: t < s.nextTask && PcTells(s.tasks[t].pc, t in s.past.senders))
  }

  lemma MoverKeepsSenders(s: State, after: State, t: nat)
    requires SendersOk(s) && OnlyMoves(s, after, t) && SamePost(s, after)
    requires PcTells(after.tasks[t].pc, t in s.past.senders)
    ensures SendersOk(after)
  {
  }

  lemma SendKeepsSenders(c: Config, s: State, t: nat, k: nat)
    requires SendersOk(s) && t in s.tasks
    ensures SendersOk(SendAttempt(c, s, t, k))
  {
  }

  lemma BeginKeepsSenders(c: Config, s: State, t: nat)
    requires SendersOk(s) && At(s, t, Start)
    ensures SendersOk(BeginStep(c, s, t))
  {
    hide CountAnswer, SameEvent, Breaker.Admits;
    if e :| e == s.tasks[t].event && e.eventId !in s.gateway && Breaker.Admits(c.policy, s.breaker, s.clock) {
      SendKeepsSenders(c, s, t, 1);
    } else {
      MoverKeepsSenders(s, BeginStep(c, s, t), t);
    }
  }

  lemma AnswerKeepsSenders(s: State, m: Message, applied: bool, code: int, at: Utc)
    requires SendersOk(s) && m in s.network && m.Request?
    ensures SendersOk(AnswerStep(s, m, applied, code, at))
  {
    hide Deliver;
    var after := AnswerStep(s, m, applied, code, at);
    forall n | n in after.network ensures n.task in after.past.senders {
      assert n in s.network || n.task == m.task;
    }
  }

  /** A step that moves no handler; a new one may start, or all of them may be lost. */
  lemma OtherStepKeepsSenders(c: Config, s: State, a: Action)
    requires SendersOk(s) && Enabled(c, s, a)
    requires a.Submit? || !HandlerAction(a)
    requires !a.Arrive? && !a.Fail?
    ensures SendersOk(Step(c, s, a))
  {
    hide StatusOf, CountAnswer, Breaker.Record, Breaker.Admits;
  }

  lemma StepKeepsSenders(c: Config, s: State, a: Action)
    requires SendersOk(s) && Enabled(c, s, a)
    ensures SendersOk(Step(c, s, a))
  {
    hide SendAttempt, AnswerStep, BeginStep, AttemptFailed, ReceiveStep, InsertStep, Respond, StatusOf, Breaker.Admits;
    hide ReadStep, ReadUnavailable, CountStep, CrashStep, SubmitStep, MalformedStep;
    match a {
      case Begin(t) => BeginKeepsSenders(c, s, t);
      case Arrive(m, at) => AnswerKeepsSenders(s, m, true, Respond(s.account, m.payload.accountId, m.payload, at).1, at);
      case Fail(m, applied, code, at) => AnswerKeepsSenders(s, m, applied, code, at);
      case Receive(m) =>
        ReceiveMoves(c, s, m);
        MoverKeepsSenders(s, ReceiveStep(c, s, m), m.task);
      case TimeOut(t) =>
        AttemptFailedMoves(c, s, t, s.tasks[t].pc.attempt);
        MoverKeepsSenders(s, AttemptFailed(c, s, t, s.tasks[t].pc.attempt), t);
      case Resend(t) => SendKeepsSenders(c, s, t, s.tasks[t].pc.attempt + 1);
      case Insert(t, at) =>
        InsertMoves(s, t, at);
        MoverKeepsSenders(s, InsertStep(s, t, at), t);
      case _ => OtherStepKeepsSenders(c, s, a);
    }
  }

  /** A handler that has finished without sending anything never sends anything. */
  ghost predicate Silent(s: State, t: nat) {
    t < s.nextTask && t !in s.past.senders && (t in s.tasks ==> s.tasks[t].pc.Done?)
  }

  lemma StepKeepsSilent(c: Config, s: State, a: Action, t: nat)
    requires SendersOk(s) && Silent(s, t) && Enabled(c, s, a)
    ensures Silent(Step(c, s, a), t)
  {
    StepGoesOn(c, s, a, t);
    hide AttemptFailed, ReceiveStep, InsertStep, Respond, Deliver, StatusOf, CountAnswer, Breaker.Admits, SendersOk;
    match a {
      case Receive(m) => ReceiveMoves(c, s, m);
      case TimeOut(u) => AttemptFailedMoves(c, s, u, s.tasks[u].pc.attempt);
      case Insert(u, at) => InsertMoves(s, u, at);
      case _ =>
    }
  }

  lemma {:induction false} RunKeepsSilent(c: Config, s: State, acts: seq<Action>, t: nat)
    requires SendersOk(s) && Silent(s, t) && Run(c, s, acts).Some?
    ensures SendersOk(Run(c, s, acts).value) && Silent(Run(c, s, acts).value, t)
    decreases |acts|
  {
    hide SendersOk, Silent, Step, Enabled;
    if acts != [] {
      RunKeepsSilent(c, s, acts[..|acts| - 1], t);
      StepKeepsSenders(c, Run(c, s, acts[..|acts| - 1]).value, acts[|acts| - 1]);
      StepKeepsSilent(c, Run(c, s, acts[..|acts| - 1]).value, acts[|acts| - 1], t);
    }
  }

  // ---- what was handled is settled --------------------------------------------------------

  /** On record, or refused for ever. */
  ghost predicate Decided(table: Transactions, e: EventPayload) {
    OnRecord(table, e) || Refused(table, e)
  }

  /** There is a handler behind each delivery, whose event it is, and whose event is decided. */
  ghost predicate CarriersOk(c: Config, s: State) {
    && |s.past.carriers| == |s.past.deliveries|
    && forall i :: 0 <= i < |s.past.carriers| && s.past.carriers[i] in s.tasks ==>
         && s.past.deliveries[i].payload == Sent(c, s.tasks[s.past.carriers[i]].event)
         && Decided(s.account, s.past.deliveries[i].payload)
  }

  lemma DecidedGrows(s: Transactions, t: Transactions, e: EventPayload)
    requires Decided(s, e) && Extends(s, t) && ValidLedger(t)
    ensures Decided(t, e)
  {
    if Refused(s, e) {
      RefusedForever(s, t, e);
    }
  }

  lemma DeliveryDecides(table: Transactions, d: Delivery)
    requires Keyed(table)
    ensures Decided(Deliver(table, d), d.payload)
  {
    SuccessMeansRecorded(table, d.payload.accountId, d.payload, d.at);
    RejectionMeansRefused(table, d.payload, d.at);
  }

  lemma AnswerKeepsCarriers(c: Config, s: State, m: Message, applied: bool, code: int, at: Utc)
    requires CarriersOk(c, s) && Inv(c, s) && m in s.network && m.Request?
    ensures CarriersOk(c, AnswerStep(s, m, applied, code, at))
  {
    hide Decided, Inv, MessageOk;
    var after := AnswerStep(s, m, applied, code, at);
    MessagesFine(c, s, m);
    DeliveryDecides(s.account, Delivery(m.payload, at));
    LedgerFine(c, s, Delivery(m.payload, at));
    forall i | 0 <= i < |after.past.carriers| && after.past.carriers[i] in after.tasks
      ensures after.past.deliveries[i].payload == Sent(c, after.tasks[after.past.carriers[i]].event)
      ensures Decided(after.account, after.past.deliveries[i].payload)
    {
      if i < |s.past.carriers| {
        DecidedGrows(s.account, after.account, s.past.deliveries[i].payload);
      } else {
        PayloadFine(c, s, m);
      }
    }
  }

  lemma LedgerFine(c: Config, s: State, d: Delivery)
    requires Inv(c, s)
    ensures ValidLedger(s.account) && ValidLedger(Deliver(s.account, d)) && Extends(s.account, Deliver(s.account, d))
  {
    DeliverLedger(s.account, d);
  }

  lemma PayloadFine(c: Config, s: State, m: Message)
    requires MessageOk(c, s, m) && m.task in s.tasks
    ensures m.payload == Sent(c, s.tasks[m.task].event)
  {
  }

  lemma StepKeepsCarriers(c: Config, s: State, a: Action)
    requires CarriersOk(c, s) && Inv(c, s) && SendersOk(s) && Enabled(c, s, a)
    ensures CarriersOk(c, Step(c, s, a))
  {
    hide Inv, Decided, Respond;
    match a {
      case Arrive(m, at) => AnswerKeepsCarriers(c, s, m, true, Respond(s.account, m.payload.accountId, m.payload, at).1, at);
      case Fail(m, applied, code, at) => AnswerKeepsCarriers(c, s, m, applied, code, at);
      case _ => OthersKeepCarriers(c, s, a);
    }
  }

  lemma OthersKeepCarriers(c: Config, s: State, a: Action)
    requires CarriersOk(c, s) && SendersOk(s) && Enabled(c, s, a) && !a.Arrive? && !a.Fail?
    ensures CarriersOk(c, Step(c, s, a))
  {
    hide Decided, Enabled;
    var after := Step(c, s, a);
    OthersCarryNothing(c, s, a);
    forall t | t in after.past.carriers && t in after.tasks ensures t in s.tasks && after.tasks[t].event == s.tasks[t].event {
      StepGoesOn(c, s, a, t);
    }
  }

  lemma OthersCarryNothing(c: Config, s: State, a: Action)
    requires Enabled(c, s, a) && !a.Arrive? && !a.Fail?
    ensures Step(c, s, a).past.carriers == s.past.carriers && Step(c, s, a).past.deliveries == s.past.deliveries
    ensures Step(c, s, a).account == s.account
  {
    if a.Insert? {
      InsertCarriesNothing(s, a.task, a.at);
    } else {
      OtherStepsKeepTables(c, s, a);
    }
  }

  lemma InsertCarriesNothing(s: State, t: nat, at: Utc)
    requires t in s.tasks
    ensures var after := InsertStep(s, t, at);
            && after.past.carriers == s.past.carriers && after.past.deliveries == s.past.deliveries
            && after.account == s.account
  {
  }

  // ---- one 201 for each event id ----------------------------------------------------------

  /** No two handlers have answered 201 for one event id. */
  ghost predicate AcceptedOnce(s: State) {
    forall t <- s.tasks, u <- s.tasks :: t != u && s.tasks[t].pc == s.tasks[u].pc == Done(Accepted)
                                         ==> s.tasks[t].event.eventId != s.tasks[u].event.eventId
  }

  /** A 201 is final, or it comes from this very insert of an id that was not on record. */
  lemma NewlyAccepted(c: Config, s: State, a: Action, t: nat)
    requires Enabled(c, s, a) && s.nextTask !in s.tasks && At(Step(c, s, a), t, Done(Accepted))
    ensures t in s.tasks && Step(c, s, a).tasks[t].event == s.tasks[t].event
    ensures s.tasks[t].pc == Done(Accepted) || (a.Insert? && a.task == t && s.tasks[t].event.eventId !in s.gateway)
  {
    StepGoesOn(c, s, a, t);
    if !HandlerAction(a) && !a.Crash? {
      OthersMoveNothing(c, s, a);
    } else {
      AcceptedByInsert(c, s, a, t);
    }
  }

  lemma AcceptedByInsert(c: Config, s: State, a: Action, t: nat)
    requires Enabled(c, s, a) && (HandlerAction(a) || a.Crash?) && At(Step(c, s, a), t, Done(Accepted))
    ensures t in s.tasks
    ensures s.tasks[t].pc == Done(Accepted) || (a.Insert? && a.task == t && s.tasks[t].event.eventId !in s.gateway)
  {
    hide BeginStep, AttemptFailed, ReceiveStep, InsertStep, CountAnswer;
    match a {
      case Begin(u) => BeginMoves(c, s, u);
      case Receive(m) => ReceiveMoves(c, s, m);
      case TimeOut(u) => AttemptFailedMoves(c, s, u, s.tasks[u].pc.attempt);
      case Insert(u, at) => InsertMoves(s, u, at);
      case _ =>
    }
  }

  lemma StepKeepsAcceptedOnce(c: Config, s: State, a: Action)
    requires AcceptedOnce(s) && Inv(c, s) && Enabled(c, s, a)
    ensures AcceptedOnce(Step(c, s, a))
  {
    hide Enabled, Step, Inv;
    var after := Step(c, s, a);
    NextIsNew(c, s);
    forall t, u | t in after.tasks && u in after.tasks && t != u && after.tasks[t].pc == after.tasks[u].pc == Done(Accepted)
      ensures after.tasks[t].event.eventId != after.tasks[u].event.eventId
    {
      NewlyAccepted(c, s, a, t);
      NewlyAccepted(c, s, a, u);
      AcceptedIsThere(c, s, t);
      AcceptedIsThere(c, s, u);
    }
  }

  lemma NextIsNew(c: Config, s: State)
    requires Inv(c, s)
    ensures s.nextTask !in s.tasks
  {
    assert s.nextTask in s.tasks ==> TaskOk(c, s, s.nextTask, s.tasks[s.nextTask]);
  }

  lemma AcceptedIsThere(c: Config, s: State, t: nat)
    requires Inv(c, s) && t in s.tasks
    ensures s.tasks[t].pc == Done(Accepted) ==> s.tasks[t].event.eventId in s.gateway
  {
    assert TaskOk(c, s, t, s.tasks[t]);
  }

  // ---- every run --------------------------------------------------------------------------

  ghost predicate HandlersOk(c: Config, s: State) {
    SendersOk(s) && CarriersOk(c, s) && AcceptedOnce(s)
  }

  lemma NoHandlersYet(c: Config)
    ensures HandlersOk(c, Init)
  {
  }

  lemma StepKeepsHandlers(c: Config, s: State, a: Action)
    requires HandlersOk(c, s) && Inv(c, s) && Enabled(c, s, a)
    ensures HandlersOk(c, Step(c, s, a))
  {
    hide SendersOk, CarriersOk, AcceptedOnce, Inv, Enabled, Step;
    StepKeepsSenders(c, s, a);
    StepKeepsCarriers(c, s, a);
    StepKeepsAcceptedOnce(c, s, a);
  }

  lemma {:induction false} RunKeepsHandlers(c: Config, acts: seq<Action>)
    requires ValidConfig(c) && Run(c, Init, acts).Some?
    ensures HandlersOk(c, Run(c, Init, acts).value)
    decreases |acts|
  {
    hide HandlersOk, Inv, Enabled, Step;
    if acts == [] {
      NoHandlersYet(c);
    } else {
      var front := acts[..|acts| - 1];
      RunKeepsHandlers(c, front);
      RunKeepsInv(c, front);
      StepKeepsHandlers(c, Run(c, Init, front).value, acts[|acts| - 1]);
    }
  }

  lemma ReachableHandlers(c: Config, s: State)
    requires ValidConfig(c) && Reachable(c, s)
    ensures HandlersOk(c, s)
  {
    hide HandlersOk;
    var acts :| Run(c, Init, acts) == Some(s);
    RunKeepsHandlers(c, acts);
  }

  /** Two handlers that both answered 201 did so for different event ids. */
  lemma CreatedOnce(c: Config, s: State, t: nat, u: nat, answer: Answer, other: Answer)
    requires ValidConfig(c) && Reachable(c, s) && t != u && At(s, t, Done(answer)) && At(s, u, Done(other))
    requires StatusOf(answer) == StatusOf(other) == 201
    ensures s.tasks[t].event.eventId != s.tasks[u].event.eventId
  {
    hide Reachable;
    ReachableHandlers(c, s);
    ReachableInv(c, s);
    assert TaskOk(c, s, t, s.tasks[t]) && TaskOk(c, s, u, s.tasks[u]);
  }
}
