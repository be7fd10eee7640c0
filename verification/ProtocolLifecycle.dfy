/** The life of a handler: from where to where a step may take it, what is sent, and what the breaker hears. */
module ProtocolLifecycle {
  import opened AccountLedger
  import Breaker
  import opened Contracts
  import opened Protocol
  import opened ProtocolHandlers

  /**
   A reply below 400 leads to the insert, any other below 500 to that answer, and the breaker hears
   of one success; anything else leads to a pause, or after the last attempt to a 503, of which the
   breaker hears as one failure at the present time.
   */
  ghost predicate CallGoesOn(c: Config, s: State, a: Action, k: nat, next: Pc, heard: seq<Breaker.CallResult>) {
    if a.Receive? && a.reply.Reply? && a.reply.code < 400 then next == Inserting && heard == [Breaker.Succeeded]
    else if a.Receive? && a.reply.Reply? && a.reply.code < 500 then
      next == Done(Rejected(a.reply.code)) && heard == [Breaker.Succeeded]
    else if k < c.policy.maxAttempts then next == Pausing(k) && heard == []
    else next == Done(Unavailable) && heard == [Breaker.Failed(s.clock)]
  }

  /** The moves of a handler, and what is heard by the breaker at each. */
  ghost predicate Moves(c: Config, s: State, a: Action, pc: Pc, next: Pc, heard: seq<Breaker.CallResult>) {
    match pc
    case Start =>
      heard == [] && (next == Waiting(1) || next in {Done(DuplicateReplay), Done(Conflicting), Done(CircuitOpen)})
    case Waiting(k) => (a.Receive? || a.TimeOut?) && CallGoesOn(c, s, a, k, next, heard)
    case Pausing(k) => next == Waiting(k + 1) && heard == []
    case Inserting => next in {Done(Accepted), Done(DuplicateReplay), Done(Conflicting)} && heard == []
    case Done(_) => false
  }

  /** The messages a move puts on the network: one request for each attempt, its payload the submission's. */
  function NewRequests(c: Config, t: nat, e: EventPayload, next: Pc): multiset<Message> {
    if next.Waiting? then multiset{Request(t, next.attempt, e.(amount := c.amounts(e.amount)))} else multiset{}
  }

  ghost predicate MovesTo(c: Config, s: State, a: Action, after: State, t: nat)
    requires t in s.tasks && t in after.tasks
  {
    && |s.past.results| <= |after.past.results| && after.past.results[..|s.past.results|] == s.past.results
    && Moves(c, s, a, s.tasks[t].pc, after.tasks[t].pc, after.past.results[|s.past.results|..])
    && after.network + (if a.Receive? then multiset{a.reply} else multiset{})
       == s.network + NewRequests(c, t, s.tasks[t].event, after.tasks[t].pc)
  }

  lemma FailedMoves(c: Config, s: State, a: Action, t: nat)
    requires Enabled(c, s, a) && ((a.TimeOut? && a.task == t) || (a.Receive? && a.reply.task == t && a.reply.code >= 500))
    ensures MovesTo(c, s, a, Step(c, s, a), t)
  {
  }

  lemma AnsweredMoves(c: Config, s: State, a: Action, t: nat)
    requires Enabled(c, s, a) && a.Receive? && a.reply.task == t && a.reply.code < 500
    ensures MovesTo(c, s, a, Step(c, s, a), t)
  {
  }

  lemma StartMoves(c: Config, s: State, a: Action, t: nat)
    requires Enabled(c, s, a) && a.Begin? && a.task == t
    ensures MovesTo(c, s, a, Step(c, s, a), t)
  {
  }

  lemma ResendMoves(c: Config, s: State, a: Action, t: nat)
    requires Enabled(c, s, a) && a.Resend? && a.task == t
    ensures MovesTo(c, s, a, Step(c, s, a), t)
  {
  }

  lemma InsertionMoves(c: Config, s: State, a: Action, t: nat)
    requires Enabled(c, s, a) && a.Insert? && a.task == t
    ensures MovesTo(c, s, a, Step(c, s, a), t)
  {
  }

  /** The handler a step is about. */
  predicate Acts(a: Action, t: nat) {
    match a
    case Begin(u) => u == t
    case Receive(m) => m.task == t
    case TimeOut(u) => u == t
    case Resend(u) => u == t
    case Insert(u, _) => u == t
    case _ => false
  }

  lemma OthersStay(c: Config, s: State, a: Action, t: nat)
    requires Enabled(c, s, a) && !Acts(a, t) && t in s.tasks && t in Step(c, s, a).tasks && s.nextTask !in s.tasks
    ensures Step(c, s, a).tasks[t].pc == s.tasks[t].pc
  {
    hide BeginStep, AttemptFailed, ReceiveStep, InsertStep, ReadStep, AnswerStep, CountAnswer;
    match a {
      case Begin(u) => BeginMoves(c, s, u);
      case Receive(m) => ReceiveMoves(c, s, m);
      case TimeOut(u) => AttemptFailedMoves(c, s, u, s.tasks[u].pc.attempt);
      case Insert(u, at) => InsertMoves(s, u, at);
      case Submit(_) =>
      case Resend(_) =>
      case Crash =>
      case _ => OthersMoveNothing(c, s, a);
    }
  }

  /**
   Whatever step is taken, a handler that moves takes one of these moves, with what it sends and
   what the breaker hears.
   */
  lemma HandlerMoves(c: Config, s: State, a: Action, t: nat)
    requires Enabled(c, s, a) && t in s.tasks && t in Step(c, s, a).tasks && s.nextTask !in s.tasks
    ensures Step(c, s, a).tasks[t].pc != s.tasks[t].pc ==> MovesTo(c, s, a, Step(c, s, a), t)
    ensures Step(c, s, a).tasks[t].event == s.tasks[t].event
  {
    StepGoesOn(c, s, a, t);
    hide Step, MovesTo, Enabled;
    if !Acts(a, t) {
      OthersStay(c, s, a, t);
    } else {
      match a {
        case Begin(_) => StartMoves(c, s, a, t);
        case Receive(m) => ReceivedMoves(c, s, a, t);
        case TimeOut(_) => FailedMoves(c, s, a, t);
        case Resend(_) => ResendMoves(c, s, a, t);
        case Insert(_, _) => InsertionMoves(c, s, a, t);
      }
    }
  }

  lemma ReceivedMoves(c: Config, s: State, a: Action, t: nat)
    requires Enabled(c, s, a) && a.Receive? && a.reply.task == t
    ensures MovesTo(c, s, a, Step(c, s, a), t)
  {
    hide Step, MovesTo;
    if a.reply.code >= 500 {
      FailedMoves(c, s, a, t);
    } else {
      AnsweredMoves(c, s, a, t);
    }
  }

  /** The breaker hears of nothing else: when its history changes, a call of a handler or of a read has ended. */
  lemma HeardOnlyAtTheEnd(c: Config, s: State, a: Action)
    requires Enabled(c, s, a) && Step(c, s, a).past.results != s.past.results
    ensures match a
            case Receive(m) => Step(c, s, a).tasks[m.task].pc != s.tasks[m.task].pc
            case TimeOut(t) => Step(c, s, a).tasks[t].pc != s.tasks[t].pc
            case ReadDone(r) => Step(c, s, a).past.results == s.past.results + [r]
            case Crash => Step(c, s, a).past.results == []
            case _ => false
  {
    hide CountAnswer, StatusOf, Breaker.Record, Breaker.Admits, Respond;
    match a {
      case Receive(m) => ReceivedMoves(c, s, a, m.task);
      case TimeOut(t) => FailedMoves(c, s, a, t);
      case _ =>
    }
  }
}
