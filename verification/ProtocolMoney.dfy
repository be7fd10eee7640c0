/** What a run of the whole system does to the tables and the balances. */
module ProtocolMoney {
  import opened AccountLedger
  import opened Contracts
  import opened Decimals
  import opened Deliveries
  import opened Protocol
  import opened ProtocolInvariant
  import opened Rows
  import opened Timestamps

  /**
   In every reachable state each Gateway row stands on an Account row that differs from it in the
   amount alone, and there only by the conversion on the way.
   */
  lemma GatewayRowsAreBacked(c: Config, s: State, id: string)
    requires ValidConfig(c) && Reachable(c, s) && id in s.gateway
    ensures id in s.account
    ensures var here, there := s.gateway[id].payload, s.account[id].payload;
            there == here.(amount := there.amount) && Value(there.amount) == Value(c.amounts(here.amount))
    ensures s.gateway[id].payload in s.past.submitted
  {
    hide Reachable;
    ReachableInv(c, s);
    assert s.gateway[id].payload.eventId == id;
  }

  /**
   Exactly-once money: in every reachable state an account's balance is the signed sum of the
   deliveries that took effect; their event ids are distinct and are the ids on record, and each
   of them, like each row, is a submission with its amount converted.
   */
  lemma MoneyExactlyOnce(c: Config, s: State, account: string)
    requires ValidConfig(c) && Reachable(c, s)
    ensures var events := Effective(map[], s.past.deliveries);
            && Balance(s.account, account) == SignedSum(events, account)
            && (forall i, j :: 0 <= i < j < |events| ==> events[i].eventId != events[j].eventId)
            && (forall id :: id in s.account <==> exists e <- events :: e.eventId == id)
            && (forall e <- events :: exists original <- s.past.submitted ::
                  e == original.(amount := c.amounts(original.amount)))
            && (forall id <- s.account :: exists original <- s.past.submitted ::
                  s.account[id].payload == original.(amount := c.amounts(original.amount)))
  {
    hide FromSubmission, Reachable, Balance, SignedSum, Effective, DeliverAll, TasksOk, NetworkOk, GatewayOk, TablesOk, BreakerOk;
    ReachableInv(c, s);
    var none: Transactions := map[];
    MoneyMovesOnce(none, s.past.deliveries, account);
    EffectiveAreDelivered(none, s.past.deliveries);
    NothingYet(account);
    forall e | e in Effective(none, s.past.deliveries)
      ensures exists original <- s.past.submitted :: e == original.(amount := c.amounts(original.amount))
    {
      var d :| d in s.past.deliveries && d.payload == e;
      Submitted(c, s.past.submitted, e);
    }
    RowsAreSubmitted(c, s);
  }

  lemma Submitted(c: Config, submitted: set<EventPayload>, e: EventPayload)
    requires FromSubmission(c, submitted, e)
    ensures exists original <- submitted :: e == original.(amount := c.amounts(original.amount))
  {
  }

  lemma RowsAreSubmitted(c: Config, s: State)
    requires TablesOk(c, s)
    ensures forall id <- s.account :: exists original <- s.past.submitted ::
              s.account[id].payload == original.(amount := c.amounts(original.amount))
  {
    hide FromSubmission;
    forall id | id in s.account
      ensures exists original <- s.past.submitted ::
                s.account[id].payload == original.(amount := c.amounts(original.amount))
    {
      Submitted(c, s.past.submitted, s.account[id].payload);
    }
  }

  lemma NothingYet(account: string)
    ensures var none: Transactions := map[]; Balance(none, account) == 0.0
  {
  }

  lemma AnswerExtends(s: State, m: Message, applied: bool, code: int, at: Utc)
    requires m.Request?
    ensures Extends(s.account, AnswerStep(s, m, applied, code, at).account)
    ensures AnswerStep(s, m, applied, code, at).gateway == s.gateway
  {
  }

  lemma InsertExtends(s: State, t: nat, at: Utc)
    requires t in s.tasks
    ensures InsertStep(s, t, at).account == s.account && Extends(s.gateway, InsertStep(s, t, at).gateway)
  {
  }

  lemma StepExtends(c: Config, s: State, a: Action)
    requires Enabled(c, s, a)
    ensures Extends(s.account, Step(c, s, a).account) && Extends(s.gateway, Step(c, s, a).gateway)
  {
    hide AnswerStep, InsertStep, BeginStep, ReceiveStep, AttemptFailed, ReadStep, CountAnswer;
    match a {
      case Arrive(m, at) => AnswerExtends(s, m, true, Respond(s.account, m.payload.accountId, m.payload, at).1, at);
      case Fail(m, applied, code, at) => AnswerExtends(s, m, applied, code, at);
      case Insert(t, at) => InsertExtends(s, t, at);
      case _ => OtherStepsKeepTables(c, s, a);
    }
  }

  /** From any state on, no run ever alters or removes a row of either table. */
  lemma {:induction false} RowsAreForever(c: Config, s: State, acts: seq<Action>)
    requires Run(c, s, acts).Some?
    ensures Extends(s.account, Run(c, s, acts).value.account) && Extends(s.gateway, Run(c, s, acts).value.gateway)
    decreases |acts|
  {
    if acts != [] {
      RowsAreForever(c, s, acts[..|acts| - 1]);
      StepExtends(c, Run(c, s, acts[..|acts| - 1]).value, acts[|acts| - 1]);
    }
  }

  lemma BackedFor(c: Config, s: State, e: EventPayload)
    requires ValidConfig(c) && Inv(c, s)
    requires e.eventId in s.gateway && SameEvent(s.gateway[e.eventId].payload, e)
    ensures OnRecord(s.account, Sent(c, e))
  {
    WireKeepsSame(c.amounts, s.gateway[e.eventId].payload, e);
  }

  /**
   Answers stand for ever, whatever happens afterwards. After a 200 or 201 the event stays in both
   tables; after a conflict its id keeps standing for another event; after any other 4xx it is in
   neither table and never will be. Only a 503 leaves the matter open.
   */
  lemma AnswersStand(c: Config, s: State, t: nat, answer: Answer, acts: seq<Action>)
    requires ValidConfig(c) && Reachable(c, s) && At(s, t, Done(answer))
    requires Run(c, s, acts).Some?
    ensures var e, later := s.tasks[t].event, Run(c, s, acts).value;
            var here := e.eventId in later.gateway && SameEvent(later.gateway[e.eventId].payload, e);
            && (StatusOf(answer) < 400 ==> here && OnRecord(later.account, Sent(c, e)))
            && (400 <= StatusOf(answer) < 500 ==> !here)
            && match answer
            case Conflicting => StatusOf(answer) == 409 && e.eventId in later.gateway && !here
            case Rejected(_) => !here && !OnRecord(later.account, Sent(c, e))
            case _ => true
  {
    hide Reachable, SameEvent, Run, MessageOk, FromSubmission, ValidLedger, Refused;
    var e, later := s.tasks[t].event, Run(c, s, acts).value;
    ReachableInv(c, s);
    ReachableAfter(c, s, acts);
    ReachableInv(c, later);
    RowsAreForever(c, s, acts);
    assert ValidLedger(later.account);
    assert TaskOk(c, s, t, s.tasks[t]);
    if e.eventId in later.gateway && SameEvent(later.gateway[e.eventId].payload, e) {
      BackedFor(c, later, e);
    }
    if answer.Rejected? {
      RefusedForever(s.account, later.account, Sent(c, e));
    }
  }

  // ---- two runs ---------------------------------------------------------------------------

  /** One payload per event id and one currency per account among everything submitted. */
  ghost predicate SubmissionsAgree(submitted: set<EventPayload>) {
    forall a <- submitted, b <- submitted :: Agree(a, b)
  }

  lemma DeliveriesConsistent(c: Config, submitted: set<EventPayload>, ds: seq<Delivery>)
    requires ValidConfig(c) && SubmissionsAgree(submitted)
    requires forall d <- ds :: FromSubmission(c, submitted, d.payload)
    ensures Consistent(map[], ds)
  {
  }

  /**
   Convergence: two runs of the whole system, with whatever interleavings, losses, retries,
   replays and crashes, in which the same agreeing events reached the Account Service, end with
   the same Account table, apart from `applied_at`, and the same balances.
   */
  lemma RunsConverge(c: Config, s: State, t: State, account: string)
    requires ValidConfig(c) && Reachable(c, s) && Reachable(c, t)
    requires SubmissionsAgree(s.past.submitted + t.past.submitted)
    requires Covers(s.past.deliveries, t.past.deliveries) && Covers(t.past.deliveries, s.past.deliveries)
    ensures SameTable(s.account, t.account)
    ensures Balance(s.account, account) == Balance(t.account, account)
  {
    hide Reachable;
    ReachableInv(c, s);
    ReachableInv(c, t);
    DeliveriesConsistent(c, s.past.submitted, s.past.deliveries);
    DeliveriesConsistent(c, t.past.submitted, t.past.deliveries);
    OrderAndRepeatsDoNotMatter(map[], s.past.deliveries, t.past.deliveries, account);
  }
}
