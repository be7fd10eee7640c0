/** What every step of the protocol keeps, and so what holds in every reachable state. */
module ProtocolInvariant {
  import opened AccountLedger
  import Breaker
  import opened Contracts
  import opened Deliveries
  import opened GatewayLedger
  import opened Protocol
  import opened Rows
  import opened Timestamps
  import opened Wrappers

  /** The Account Service has applied this very event. */
  ghost predicate OnRecord(table: Transactions, e: EventPayload) {
    e.eventId in table && SameEvent(table[e.eventId].payload, e)
  }

  /** `e` is what some submission looks like on the wire. */
  ghost predicate FromSubmission(c: Config, submitted: set<EventPayload>, e: EventPayload) {
    exists original <- submitted :: e == Sent(c, original)
  }

  ghost predicate TablesOk(c: Config, s: State) {
    && ValidLedger(s.account) && Keyed(s.gateway)
    && (forall id <- s.account :: FromSubmission(c, s.past.submitted, s.account[id].payload))
    && (forall e <- s.past.submitted :: ValidPayload(e))
  }

  /** What an answer says about the tables; a 503 says nothing. */
  ghost predicate AnswerTrue(c: Config, s: State, e: EventPayload, answer: Answer) {
    match answer
    case Accepted => e.eventId in s.gateway && SameEvent(s.gateway[e.eventId].payload, e)
    case DuplicateReplay => e.eventId in s.gateway && SameEvent(s.gateway[e.eventId].payload, e)
    case Conflicting => e.eventId in s.gateway && !SameEvent(s.gateway[e.eventId].payload, e)
    case Rejected(code) => 400 <= code < 500 && Refused(s.account, Sent(c, e))
    case _ => true
  }

  ghost predicate TaskOk(c: Config, s: State, t: nat, task: Task) {
    && t < s.nextTask && task.event in s.past.submitted
    && (task.pc.Waiting? ==> 1 <= task.pc.attempt <= c.policy.maxAttempts)
    && (task.pc.Pausing? ==> 1 <= task.pc.attempt < c.policy.maxAttempts)
    && (task.pc.Inserting? ==> OnRecord(s.account, Sent(c, task.event)))
    && (task.pc.Done? ==> AnswerTrue(c, s, task.event, task.pc.answer))
  }

  ghost predicate TasksOk(c: Config, s: State) {
    forall t <- s.tasks :: TaskOk(c, s, t, s.tasks[t])
  }

  /** A success reply under way means that its event is on record, a 4xx that it never will be. */
  ghost predicate MessageOk(c: Config, s: State, m: Message) {
    && m.task < s.nextTask && 1 <= m.attempt <= c.policy.maxAttempts
    && FromSubmission(c, s.past.submitted, m.payload)
    && (m.task in s.tasks ==> m.payload == Sent(c, s.tasks[m.task].event))
    && (m.Reply? && m.code < 400 ==> OnRecord(s.account, m.payload))
    && (m.Reply? && 400 <= m.code < 500 ==> Refused(s.account, m.payload))
  }

  ghost predicate NetworkOk(c: Config, s: State) {
    forall m <- s.network :: MessageOk(c, s, m)
  }

  ghost predicate GatewayOk(c: Config, s: State) {
    forall id <- s.gateway ::
      s.gateway[id].payload in s.past.submitted && OnRecord(s.account, Sent(c, s.gateway[id].payload))
  }

  /** The Account table is what the recorded deliveries make of an empty one. */
  ghost predicate LedgerIsReplay(c: Config, s: State) {
    && s.account == DeliverAll(map[], s.past.deliveries)
    && forall d <- s.past.deliveries :: FromSubmission(c, s.past.submitted, d.payload)
  }

  ghost predicate BreakerOk(c: Config, s: State) {
    && s.breaker == Breaker.RecordAll(c.policy, s.past.results)
    && forall r <- s.past.results :: r.Failed? ==> r.at <= s.clock
  }

  ghost predicate Inv(c: Config, s: State) {
    TablesOk(c, s) && TasksOk(c, s) && NetworkOk(c, s) && GatewayOk(c, s) && LedgerIsReplay(c, s) && BreakerOk(c, s)
  }

  // ---- steps that leave both tables alone -------------------------------------------------

  /** Both tables and their history stay; handlers and messages stay in order. */
  ghost predicate TablesKept(s: State, after: State) {
    && after.account == s.account && after.gateway == s.gateway && after.nextTask == s.nextTask
    && after.past.submitted == s.past.submitted && after.past.deliveries == s.past.deliveries
  }

  lemma QuietStep(c: Config, s: State, after: State)
    requires Inv(c, s) && TablesKept(s, after) && BreakerOk(c, after)
    requires after.tasks == s.tasks || after.tasks == map[]
    requires after.network <= s.network
    ensures Inv(c, after)
  {
    hide SameEvent, OnRecord, Refused, FromSubmission, ValidLedger;
    forall m | m in after.network ensures MessageOk(c, after, m) {
      assert m in s.network && MessageOk(c, s, m);
    }
    forall t | t in after.tasks ensures TaskOk(c, after, t, after.tasks[t]) {
      assert TaskOk(c, s, t, s.tasks[t]);
    }
  }

  /** Not even a call result is recorded. */
  lemma CalmStep(c: Config, s: State, after: State)
    requires Inv(c, s) && TablesKept(s, after)
    requires after.tasks == s.tasks && after.network <= s.network
    requires after.breaker == s.breaker && after.past == s.past && s.clock <= after.clock
    ensures Inv(c, after)
  {
    QuietStep(c, s, after);
  }

  /** One handler moves on; anything it sends is in order. */
  lemma TaskMoves(c: Config, s: State, after: State, t: nat, pc: Pc)
    requires Inv(c, s) && TablesKept(s, after) && BreakerOk(c, after)
    requires t in s.tasks && after.tasks == s.tasks[t := s.tasks[t].(pc := pc)]
    requires TaskOk(c, s, t, s.tasks[t].(pc := pc))
    requires forall m <- after.network :: m in s.network || MessageOk(c, s, m)
    ensures Inv(c, after)
  {
    hide SameEvent, OnRecord, Refused, FromSubmission, ValidLedger;
    forall m | m in after.network ensures MessageOk(c, after, m) {
      assert MessageOk(c, s, m);
    }
    forall u | u in after.tasks ensures TaskOk(c, after, u, after.tasks[u]) {
      assert u != t ==> TaskOk(c, s, u, s.tasks[u]);
    }
  }

  lemma RecordedResult(c: Config, s: State, r: Breaker.CallResult)
    requires BreakerOk(c, s) && (r.Failed? ==> r.at <= s.clock)
    ensures BreakerOk(c, RecordResult(c, s, r))
  {
  }

  lemma FreshRequest(c: Config, s: State, t: nat, k: nat)
    requires Inv(c, s) && t in s.tasks && 1 <= k <= c.policy.maxAttempts
    ensures MessageOk(c, s, Request(t, k, Sent(c, s.tasks[t].event)))
  {
  }

  lemma SendAttemptKeeps(c: Config, s: State, t: nat, k: nat)
    requires Inv(c, s) && t in s.tasks && 1 <= k <= c.policy.maxAttempts
    ensures Inv(c, SendAttempt(c, s, t, k))
  {
    FreshRequest(c, s, t, k);
    assert TaskOk(c, s, t, s.tasks[t]);
    TaskMoves(c, s, SendAttempt(c, s, t, k), t, Waiting(k));
  }

  lemma FinishKeeps(c: Config, s: State, t: nat, answer: Answer)
    requires Inv(c, s) && t in s.tasks && AnswerTrue(c, s, s.tasks[t].event, answer)
    ensures Inv(c, Finish(s, t, answer))
  {
    hide SameEvent, OnRecord, Refused, FromSubmission, ValidLedger, AnswerTrue, CountAnswer, TablesOk, NetworkOk, GatewayOk;
    assert TaskOk(c, s, t, s.tasks[t]);
    forall m | m in s.network ensures m in s.network || MessageOk(c, s, m) {
    }
    TaskMoves(c, s, Finish(s, t, answer), t, Done(answer));
  }

  lemma RecordResultKeeps(c: Config, s: State, r: Breaker.CallResult)
    requires Inv(c, s) && (r.Failed? ==> r.at <= s.clock)
    ensures Inv(c, RecordResult(c, s, r))
  {
    RecordedResult(c, s, r);
    QuietStep(c, s, RecordResult(c, s, r));
  }

  lemma BeginKeeps(c: Config, s: State, t: nat)
    requires ValidConfig(c) && Inv(c, s) && t in s.tasks
    ensures Inv(c, BeginStep(c, s, t))
  {
    var e := s.tasks[t].event;
    if e.eventId in s.gateway {
      FinishKeeps(c, s, t, if SameEvent(s.gateway[e.eventId].payload, e) then DuplicateReplay else Conflicting);
    } else if !Breaker.Admits(c.policy, s.breaker, s.clock) {
      FinishKeeps(c, s, t, CircuitOpen);
    } else {
      SendAttemptKeeps(c, s, t, 1);
    }
  }

  lemma AttemptFailedKeeps(c: Config, s: State, t: nat, k: nat)
    requires Inv(c, s) && t in s.tasks && k >= 1
    ensures Inv(c, AttemptFailed(c, s, t, k))
  {
    if k < c.policy.maxAttempts {
      assert TaskOk(c, s, t, s.tasks[t]);
      TaskMoves(c, s, MoveTo(s, t, Pausing(k)), t, Pausing(k));
    } else {
      RecordResultKeeps(c, s, Breaker.Failed(s.clock));
      FinishKeeps(c, RecordResult(c, s, Breaker.Failed(s.clock)), t, Unavailable);
    }
  }

  lemma ReceiveKeeps(c: Config, s: State, m: Message)
    requires Inv(c, s) && m in s.network && m.Reply? && m.task in s.tasks
    ensures Inv(c, ReceiveStep(c, s, m))
  {
    hide SameEvent, FromSubmission, ValidLedger, Refused, CountAnswer, AttemptFailed;
    assert MessageOk(c, s, m) && TaskOk(c, s, m.task, s.tasks[m.task]);
    var s1 := s.(network := s.network - multiset{m});
    QuietStep(c, s, s1);
    if m.code >= 500 {
      AttemptFailedKeeps(c, s1, m.task, m.attempt);
    } else {
      RecordResultKeeps(c, s1, Breaker.Succeeded);
      AnsweredKeeps(c, RecordResult(c, s1, Breaker.Succeeded), m);
    }
  }

  lemma AnsweredKeeps(c: Config, s: State, m: Message)
    requires Inv(c, s) && MessageOk(c, s, m) && m.Reply? && m.code < 500 && m.task in s.tasks
    ensures Inv(c, if m.code >= 400 then Finish(s, m.task, Rejected(m.code)) else MoveTo(s, m.task, Inserting))
  {
    hide SameEvent, FromSubmission, ValidLedger, Refused, CountAnswer;
    if m.code >= 400 {
      FinishKeeps(c, s, m.task, Rejected(m.code));
    } else {
      assert TaskOk(c, s, m.task, s.tasks[m.task]);
      TaskMoves(c, s, MoveTo(s, m.task, Inserting), m.task, Inserting);
    }
  }

  // ---- steps that write -------------------------------------------------------------------

  lemma SubmitKeeps(c: Config, s: State, e: EventPayload)
    requires Inv(c, s) && ValidPayload(e)
    ensures Inv(c, SubmitStep(s, e))
  {
    var more := s.(past := s.past.(submitted := s.past.submitted + {e}));
    MoreSubmitted(c, s, e, more);
    HandlerStarts(c, more, e, SubmitStep(s, e));
  }

  lemma HandlerStarts(c: Config, s: State, e: EventPayload, after: State)
    requires Inv(c, s) && e in s.past.submitted
    requires after == s.(tasks := s.tasks[s.nextTask := Task(e, Start)], nextTask := s.nextTask + 1)
    ensures Inv(c, after)
  {
    hide SameEvent, OnRecord, Refused, FromSubmission, ValidLedger;
    forall m | m in after.network ensures MessageOk(c, after, m) {
      assert MessageOk(c, s, m);
    }
    forall t | t in after.tasks ensures TaskOk(c, after, t, after.tasks[t]) {
      assert t in s.tasks ==> TaskOk(c, s, t, s.tasks[t]);
    }
  }

  lemma MoreSubmitted(c: Config, s: State, e: EventPayload, after: State)
    requires Inv(c, s) && ValidPayload(e)
    requires after == s.(past := s.past.(submitted := s.past.submitted + {e}))
    ensures Inv(c, after)
  {
    hide SameEvent, OnRecord, Refused, ValidLedger;
    forall x | FromSubmission(c, s.past.submitted, x) ensures FromSubmission(c, after.past.submitted, x) {
      var original :| original in s.past.submitted && x == Sent(c, original);
      assert original in after.past.submitted;
    }
    forall m | m in after.network ensures MessageOk(c, after, m) {
      assert MessageOk(c, s, m);
    }
    forall t | t in after.tasks ensures TaskOk(c, after, t, after.tasks[t]) {
      assert t in s.tasks ==> TaskOk(c, s, t, s.tasks[t]);
    }
  }

  lemma InsertKeeps(c: Config, s: State, t: nat, at: Utc)
    requires Inv(c, s) && t in s.tasks && s.tasks[t].pc.Inserting?
    ensures Inv(c, InsertStep(s, t, at))
  {
    hide Refused, FromSubmission, ValidLedger, MessageOk, CountAnswer;
    var e := s.tasks[t].event;
    assert TaskOk(c, s, t, s.tasks[t]);
    match InsertOnce(s.gateway, e, at).1 {
      case Inserted =>
        var more := s.(gateway := InsertOnce(s.gateway, e, at).0,
                       past := s.past.(created := s.past.created + multiset{e.eventId}));
        GatewayGains(c, s, more, e, at);
        FinishKeeps(c, more, t, Accepted);
      case Existing => FinishKeeps(c, s, t, DuplicateReplay);
      case Differs => FinishKeeps(c, s, t, Conflicting);
    }
  }

  /** A new Gateway row changes no answer and no message. */
  lemma GatewayGains(c: Config, s: State, after: State, e: EventPayload, at: Utc)
    requires Inv(c, s) && e in s.past.submitted && OnRecord(s.account, Sent(c, e)) && e.eventId !in s.gateway
    requires after.gateway == s.gateway[e.eventId := Row(e, EventAudit(Applied, at, at))]
    requires after == s.(gateway := after.gateway, past := s.past.(created := after.past.created))
    ensures Inv(c, after)
  {
    hide SameEvent, OnRecord, Refused, FromSubmission, ValidLedger;
    forall m | m in after.network ensures MessageOk(c, after, m) {
      assert MessageOk(c, s, m);
    }
    forall t | t in after.tasks ensures TaskOk(c, after, t, after.tasks[t]) {
      assert TaskOk(c, s, t, s.tasks[t]);
    }
    assert GatewayOk(c, after);
    assert TablesOk(c, after);
  }

  lemma OnRecordGrows(s: Transactions, t: Transactions, e: EventPayload)
    requires Extends(s, t) && OnRecord(s, e)
    ensures OnRecord(t, e)
  {
  }

  /** A larger Account table keeps everything that rests on it. */
  lemma LedgerGrowthKeeps(c: Config, s: State, after: State)
    requires Inv(c, s) && Extends(s.account, after.account)
    requires after == s.(account := after.account, past := s.past.(deliveries := after.past.deliveries, carriers := after.past.carriers))
    requires TablesOk(c, after) && LedgerIsReplay(c, after)
    ensures Inv(c, after)
  {
    hide SameEvent, FromSubmission, Refused;
    NetworkAfterGrowth(c, s, after);
    TasksAfterGrowth(c, s, after);
    forall id | id in after.gateway ensures OnRecord(after.account, Sent(c, after.gateway[id].payload)) {
      OnRecordGrows(s.account, after.account, Sent(c, s.gateway[id].payload));
    }
  }

  lemma NetworkAfterGrowth(c: Config, s: State, after: State)
    requires NetworkOk(c, s) && Extends(s.account, after.account) && ValidLedger(after.account)
    requires after == s.(account := after.account, past := s.past.(deliveries := after.past.deliveries, carriers := after.past.carriers))
    ensures NetworkOk(c, after)
  {
  }

  lemma TasksAfterGrowth(c: Config, s: State, after: State)
    requires TasksOk(c, s) && Extends(s.account, after.account) && ValidLedger(after.account)
    requires after == s.(account := after.account, past := s.past.(deliveries := after.past.deliveries, carriers := after.past.carriers))
    ensures TasksOk(c, after)
  {
  }

  lemma DeliveryKeeps(c: Config, s: State, d: Delivery, t: nat)
    requires Inv(c, s) && FromSubmission(c, s.past.submitted, d.payload)
    ensures Inv(c, s.(account := Deliver(s.account, d), past := Delivered(s.past, d, t)))
  {
    var after := s.(account := Deliver(s.account, d), past := Delivered(s.past, d, t));
    DeliverLedger(s.account, d);
    assert after.past.deliveries[..|s.past.deliveries|] == s.past.deliveries;
    assert LedgerIsReplay(c, after);
    LedgerGrowthKeeps(c, s, after);
  }

  lemma DeliverLedger(table: Transactions, d: Delivery)
    requires ValidLedger(table)
    ensures ValidLedger(Deliver(table, d)) && Extends(table, Deliver(table, d))
    ensures forall id <- Deliver(table, d) :: id in table || Deliver(table, d)[id].payload == d.payload
  {
    if ValidPayload(d.payload) {
      ApplyKeepsLedger(table, d.payload, d.at);
    }
  }

  lemma AnswerKeeps(c: Config, s: State, m: Message, applied: bool, code: int, at: Utc)
    requires Inv(c, s) && m in s.network && m.Request?
    requires code < 500 ==> applied && code == Respond(s.account, m.payload.accountId, m.payload, at).1
    ensures Inv(c, AnswerStep(s, m, applied, code, at))
  {
    hide SameEvent, ValidLedger, Clashes, Inv, TaskOk;
    MessagesFine(c, s, m);
    var d, reply := Delivery(m.payload, at), Reply(m.task, m.attempt, m.payload, code);
    var mid := s;
    if applied {
      mid := s.(account := Deliver(s.account, d), past := Delivered(s.past, d, m.task));
      DeliveryKeeps(c, s, d, m.task);
      SuccessMeansRecorded(s.account, m.payload.accountId, m.payload, at);
      RejectionMeansRefused(s.account, m.payload, at);
    }
    var after := AnswerStep(s, m, applied, code, at);
    assert MessageOk(c, mid, reply);
    hide MessageOk;
    assert after == mid.(network := after.network);
    NetworkChanges(c, mid, after, reply);
  }

  lemma MessagesFine(c: Config, s: State, m: Message)
    requires Inv(c, s) && m in s.network
    ensures MessageOk(c, s, m) && Keyed(s.account)
  {
  }

  /** One more message in order is all that is new. */
  lemma NetworkChanges(c: Config, s: State, after: State, m: Message)
    requires Inv(c, s) && after == s.(network := after.network) && MessageOk(c, s, m)
    requires forall n <- after.network :: n in s.network || n == m
    ensures Inv(c, after)
  {
    hide SameEvent, OnRecord, Refused, FromSubmission, ValidLedger;
    forall n | n in after.network ensures MessageOk(c, after, n) {
      assert MessageOk(c, s, n);
    }
    forall t | t in after.tasks ensures TaskOk(c, after, t, after.tasks[t]) {
      assert TaskOk(c, s, t, s.tasks[t]);
    }
  }

  // ---- what writes to the tables ----------------------------------------------------------

  /** Neither table has changed, nor the record of 201 answers and of deliveries. */
  ghost predicate SameTables(s: State, after: State) {
    && after.account == s.account && after.gateway == s.gateway
    && after.past.created == s.past.created
    && after.past.deliveries == s.past.deliveries && after.past.carriers == s.past.carriers
  }

  lemma FailedAttemptKeepsTables(c: Config, s: State, t: nat, k: nat)
    requires t in s.tasks
    ensures SameTables(s, AttemptFailed(c, s, t, k))
  {
  }

  lemma BeginKeepsTables(c: Config, s: State, t: nat)
    requires t in s.tasks
    ensures SameTables(s, BeginStep(c, s, t))
  {
  }

  lemma ReceiveKeepsTables(c: Config, s: State, m: Message)
    requires m.Reply? && m.task in s.tasks
    ensures SameTables(s, ReceiveStep(c, s, m))
  {
    hide CountAnswer, Breaker.Record, AttemptFailed;
    FailedAttemptKeepsTables(c, s.(network := s.network - multiset{m}), m.task, m.attempt);
  }

  lemma ReadKeepsTables(c: Config, s: State, r: Breaker.CallResult)
    ensures SameTables(s, ReadStep(c, s, r))
  {
  }

  /** Only a request that is handled writes the Account table, only an insert the Gateway's. */
  lemma OtherStepsKeepTables(c: Config, s: State, a: Action)
    requires Enabled(c, s, a) && !a.Arrive? && !a.Fail? && !a.Insert?
    ensures SameTables(s, Step(c, s, a))
  {
    hide CountAnswer, AttemptFailed, BeginStep, ReceiveStep, ReadStep, AnswerStep, InsertStep, StatusOf, SameEvent, Breaker.Admits;
    match a {
      case Begin(t) => BeginKeepsTables(c, s, t);
      case Receive(m) => ReceiveKeepsTables(c, s, m);
      case TimeOut(t) => FailedAttemptKeepsTables(c, s, t, s.tasks[t].pc.attempt);
      case ReadDone(r) => ReadKeepsTables(c, s, r);
      case _ =>
    }
  }

  // ---- every step, every run --------------------------------------------------------------

  predicate HandlerAction(a: Action) {
    a.Submit? || a.Begin? || a.Receive? || a.TimeOut? || a.Resend? || a.Insert?
  }

  lemma HandlerActionKeeps(c: Config, s: State, a: Action)
    requires ValidConfig(c) && Inv(c, s) && Enabled(c, s, a) && HandlerAction(a)
    ensures Inv(c, Step(c, s, a))
  {
    hide Inv, ValidConfig;
    match a {
      case Submit(e) => SubmitKeeps(c, s, e);
      case Begin(t) => BeginKeeps(c, s, t);
      case Receive(m) => ReceiveKeeps(c, s, m);
      case TimeOut(t) => TimeOutKeeps(c, s, t);
      case Resend(t) => ResendKeeps(c, s, t);
      case Insert(t, at) => InsertKeeps(c, s, t, at);
    }
  }

  lemma EnvironmentActionKeeps(c: Config, s: State, a: Action)
    requires ValidConfig(c) && Inv(c, s) && Enabled(c, s, a) && !HandlerAction(a)
    ensures Inv(c, Step(c, s, a))
  {
    hide Inv, ValidConfig;
    match a {
      case Arrive(m, at) => AnswerKeeps(c, s, m, true, Respond(s.account, m.payload.accountId, m.payload, at).1, at);
      case Fail(m, applied, code, at) => AnswerKeeps(c, s, m, applied, code, at);
      case SubmitMalformed => CalmStep(c, s, MalformedStep(s));
      case Lose(m) => CalmStep(c, s, s.(network := s.network - multiset{m}));
      case CountRequest(t) => CalmStep(c, s, CountStep(s, t));
      case ReadDone(r) => ReadKeeps(c, s, r);
      case ReadRefused => CalmStep(c, s, ReadUnavailable(s, CircuitOpen));
      case Tick(d) => CalmStep(c, s, s.(clock := s.clock + d));
      case Crash => QuietStep(c, s, CrashStep(s));
    }
  }

  lemma StepKeepsInv(c: Config, s: State, a: Action)
    requires ValidConfig(c) && Inv(c, s) && Enabled(c, s, a)
    ensures Inv(c, Step(c, s, a))
  {
    if HandlerAction(a) {
      HandlerActionKeeps(c, s, a);
    } else {
      EnvironmentActionKeeps(c, s, a);
    }
  }

  lemma TimeOutKeeps(c: Config, s: State, t: nat)
    requires Inv(c, s) && t in s.tasks && s.tasks[t].pc.Waiting?
    ensures Inv(c, AttemptFailed(c, s, t, s.tasks[t].pc.attempt))
  {
    assert TaskOk(c, s, t, s.tasks[t]);
    AttemptFailedKeeps(c, s, t, s.tasks[t].pc.attempt);
  }

  lemma ResendKeeps(c: Config, s: State, t: nat)
    requires Inv(c, s) && t in s.tasks && s.tasks[t].pc.Pausing?
    ensures Inv(c, SendAttempt(c, s, t, s.tasks[t].pc.attempt + 1))
  {
    hide SameEvent, OnRecord, Refused, FromSubmission, ValidLedger, AnswerTrue, MessageOk, SendAttempt;
    assert TaskOk(c, s, t, s.tasks[t]);
    SendAttemptKeeps(c, s, t, s.tasks[t].pc.attempt + 1);
  }

  lemma ReadKeeps(c: Config, s: State, r: Breaker.CallResult)
    requires Inv(c, s) && (r.Failed? ==> r.at <= s.clock)
    ensures Inv(c, ReadStep(c, s, r))
  {
    RecordResultKeeps(c, s, r);
    QuietStep(c, RecordResult(c, s, r), ReadStep(c, s, r));
  }

  lemma {:induction false} RunKeepsInv(c: Config, acts: seq<Action>)
    requires ValidConfig(c) && Run(c, Init, acts).Some?
    ensures Inv(c, Run(c, Init, acts).value)
    decreases |acts|
  {
    if acts != [] {
      RunKeepsInv(c, acts[..|acts| - 1]);
      StepKeepsInv(c, Run(c, Init, acts[..|acts| - 1]).value, acts[|acts| - 1]);
    }
  }

  lemma ReachableInv(c: Config, s: State)
    requires ValidConfig(c) && Reachable(c, s)
    ensures Inv(c, s)
  {
    var acts :| Run(c, Init, acts) == Some(s);
    RunKeepsInv(c, acts);
  }
}
