/**
 Both services, the link between them and any number of overlapping submissions as one step
 system. A handler runs without interruption between two `await`s, and a repository call is one
 step. The network may lose, delay and reorder requests and replies, a reply may be a server
 error whether or not the event was applied, and the Gateway process may crash at any point,
 losing its handlers, breaker and counters but not its table.
 */
module Protocol {
  import opened AccountLedger
  import Breaker
  import opened Contracts
  import opened Decimals
  import opened Deliveries
  import opened GatewayLedger
  import opened Metrics
  import opened Timestamps
  import opened Wrappers

  datatype Config = Config(policy: Breaker.Policy, amounts: Decimal -> Decimal)

  ghost predicate ValidConfig(c: Config) {
    Breaker.ValidPolicy(c.policy) && Congruent(c.amounts)
  }

  function Sent(c: Config, e: EventPayload): EventPayload {
    Wire(c.amounts, e)
  }

  /** How a submission ends. */
  datatype Answer = Accepted | DuplicateReplay | Conflicting | Rejected(code: int) | Unavailable | CircuitOpen

  function StatusOf(answer: Answer): int {
    match answer
    case Accepted => 201
    case DuplicateReplay => 200
    case Conflicting => 409
    case Rejected(code) => code
    case Unavailable => 503
    case CircuitOpen => 503
  }

  /** Where a handler stands: about to check its table, awaiting attempt `k`, pausing after it, about to insert, finished. */
  datatype Pc = Start | Waiting(attempt: nat) | Pausing(attempt: nat) | Inserting | Done(answer: Answer)

  datatype Task = Task(event: EventPayload, pc: Pc)

  datatype Message =
    | Request(task: nat, attempt: nat, payload: EventPayload)
    | Reply(task: nat, attempt: nat, payload: EventPayload, code: int)

  /** Counters of the running Gateway process; its middleware has yet to count the handlers in `uncounted`. */
  datatype Meters = Meters(
    domain: Counts<Counter>,
    requests: nat,
    errors: nat,
    uncounted: set<nat>,
    // History: read calls that ended unavailable, those of them the circuit refused, submissions
    // that validation refused, and the rows there were at the last start.
    readUnavailable: nat,
    readRefused: nat,
    refused: nat,
    rowsAtBoot: nat)

  /**
   History, read by no step. The breaker results start anew with each Gateway process. `senders`
   are the handlers that have put a request on the network; `carriers` has the handler behind each
   delivery.
   */
  datatype Past = Past(
    results: seq<Breaker.CallResult>,
    submitted: set<EventPayload>,
    created: multiset<string>,
    deliveries: seq<Delivery>,
    senders: set<nat>,
    carriers: seq<nat>)

  datatype State = State(
    gateway: Events,
    account: Transactions,
    network: multiset<Message>,
    tasks: map<nat, Task>,
    nextTask: nat,
    breaker: Breaker.State,
    clock: real,
    meters: Meters,
    past: Past)

  const Init := State(map[], map[], multiset{}, map[], 0, Breaker.Fresh, 0.0,
                      Meters(map[], 0, 0, {}, 0, 0, 0, 0), Past([], {}, multiset{}, [], {}, []))

  datatype Action =
    | Submit(event: EventPayload)
    | SubmitMalformed
    | Begin(task: nat)
    | Arrive(request: Message, at: Utc)
    | Fail(request: Message, applied: bool, code: int, at: Utc)
    | Lose(message: Message)
    | Receive(reply: Message)
    | TimeOut(task: nat)
    | Resend(task: nat)
    | Insert(task: nat, at: Utc)
    | CountRequest(task: nat)
    | ReadDone(result: Breaker.CallResult)
    | ReadRefused
    | Tick(elapsed: real)
    | Crash

  predicate At(s: State, t: nat, pc: Pc) {
    t in s.tasks && s.tasks[t].pc == pc
  }

  predicate Enabled(c: Config, s: State, a: Action) {
    match a
    case Submit(e) => ValidPayload(e)
    case SubmitMalformed => true
    case Begin(t) => At(s, t, Start)
    case Arrive(m, _) => m in s.network && m.Request?
    case Fail(m, _, code, _) => m in s.network && m.Request? && code >= 500
    case Lose(m) => m in s.network
    case Receive(m) => m in s.network && m.Reply? && At(s, m.task, Waiting(m.attempt))
    case TimeOut(t) => t in s.tasks && s.tasks[t].pc.Waiting?
    case Resend(t) => t in s.tasks && s.tasks[t].pc.Pausing?
    case Insert(t, _) => At(s, t, Inserting)
    case CountRequest(t) => t in s.meters.uncounted && t in s.tasks && s.tasks[t].pc.Done?
    case ReadDone(r) => r.Failed? ==> r.at == s.clock
    case ReadRefused => !Breaker.Admits(c.policy, s.breaker, s.clock)
    case Tick(d) => d >= 0.0
    case Crash => true
  }

  function MoveTo(s: State, t: nat, pc: Pc): State
    requires t in s.tasks
  {
    s.(tasks := s.tasks[t := s.tasks[t].(pc := pc)])
  }

  function CountAnswer(domain: Counts<Counter>, answer: Answer): Counts<Counter> {
    match answer
    case Accepted => Bump(domain, GatewayAccepted, 1)
    case DuplicateReplay => Bump(domain, GatewayDuplicateReplay, 1)
    case Conflicting => Bump(domain, GatewayConflict, 1)
    case Rejected(_) => Bump(domain, GatewayRejected, 1)
    case Unavailable => Bump(domain, GatewayUnavailable, 1)
    case CircuitOpen => Bump(Bump(domain, GatewayCircuitOpen, 1), GatewayUnavailable, 1)
  }

  function Finish(s: State, t: nat, answer: Answer): State
    requires t in s.tasks
  {
    MoveTo(s, t, Done(answer)).(
      meters := s.meters.(domain := CountAnswer(s.meters.domain, answer), uncounted := s.meters.uncounted + {t}))
  }

  function RecordResult(c: Config, s: State, r: Breaker.CallResult): State {
    s.(breaker := Breaker.Record(c.policy, s.breaker, r), past := s.past.(results := s.past.results + [r]))
  }

  function SendAttempt(c: Config, s: State, t: nat, k: nat): State
    requires t in s.tasks
  {
    MoveTo(s, t, Waiting(k)).(
      network := s.network + multiset{Request(t, k, Sent(c, s.tasks[t].event))},
      past := s.past.(senders := s.past.senders + {t}))
  }

  /** Attempt `k` brought no reply below 500: pause and retry, or give up. */
  function AttemptFailed(c: Config, s: State, t: nat, k: nat): State
    requires t in s.tasks
  {
    if k < c.policy.maxAttempts then MoveTo(s, t, Pausing(k))
    else Finish(RecordResult(c, s, Breaker.Failed(s.clock)), t, Unavailable)
  }

  /** A validated submission starts a handler. */
  function SubmitStep(s: State, e: EventPayload): State {
    s.(tasks := s.tasks[s.nextTask := Task(e, Start)], nextTask := s.nextTask + 1,
       past := s.past.(submitted := s.past.submitted + {e}))
  }

  /** Validation refuses a submission with 422: the middleware counts it, and no handler starts. */
  function MalformedStep(s: State): State {
    s.(meters := s.meters.(requests := s.meters.requests + 1, refused := s.meters.refused + 1))
  }

  /** From the table check to the first request, without an `await`. */
  function BeginStep(c: Config, s: State, t: nat): State
    requires t in s.tasks
  {
    var e := s.tasks[t].event;
    if e.eventId in s.gateway then
      Finish(s, t, if SameEvent(s.gateway[e.eventId].payload, e) then DuplicateReplay else Conflicting)
    else if !Breaker.Admits(c.policy, s.breaker, s.clock) then Finish(s, t, CircuitOpen)
    else SendAttempt(c, s, t, 1)
  }

  function Delivered(past: Past, d: Delivery, t: nat): Past {
    past.(deliveries := past.deliveries + [d], carriers := past.carriers + [t])
  }

  /** A request is handled, when `applied`, and a reply with `code` sets out. */
  ghost function AnswerStep(s: State, m: Message, applied: bool, code: int, at: Utc): State
    requires m.Request?
  {
    var d := Delivery(m.payload, at);
    var s1 := s.(network := s.network - multiset{m} + multiset{Reply(m.task, m.attempt, m.payload, code)});
    if applied then s1.(account := Deliver(s.account, d), past := Delivered(s.past, d, m.task)) else s1
  }

  function ReceiveStep(c: Config, s: State, m: Message): State
    requires m.Reply? && m.task in s.tasks
  {
    var s1 := s.(network := s.network - multiset{m});
    if m.code >= 500 then AttemptFailed(c, s1, m.task, m.attempt)
    else
      var s2 := RecordResult(c, s1, Breaker.Succeeded);
      if m.code >= 400 then Finish(s2, m.task, Rejected(m.code)) else MoveTo(s2, m.task, Inserting)
  }

  function InsertStep(s: State, t: nat, at: Utc): State
    requires t in s.tasks
  {
    var e := s.tasks[t].event;
    var (table, outcome) := InsertOnce(s.gateway, e, at);
    match outcome
    case Inserted =>
      Finish(s, t, Accepted).(gateway := table, past := s.past.(created := s.past.created + multiset{e.eventId}))
    case Existing => Finish(s, t, DuplicateReplay)
    case Differs => Finish(s, t, Conflicting)
  }

  /** The middleware counts a finished request. */
  function CountStep(s: State, t: nat): State
    requires t in s.tasks && s.tasks[t].pc.Done?
  {
    s.(meters := s.meters.(
         requests := s.meters.requests + 1,
         errors := s.meters.errors + if StatusOf(s.tasks[t].pc.answer) >= 500 then 1 else 0,
         uncounted := s.meters.uncounted - {t}))
  }

  function ReadUnavailable(s: State, answer: Answer): State {
    s.(meters := s.meters.(
         domain := CountAnswer(s.meters.domain, answer),
         readUnavailable := s.meters.readUnavailable + 1,
         readRefused := s.meters.readRefused + if answer.CircuitOpen? then 1 else 0))
  }

  /** A balance or details call through the same client ends. */
  function ReadStep(c: Config, s: State, r: Breaker.CallResult): State {
    if r.Failed? then ReadUnavailable(RecordResult(c, s, r), Unavailable) else RecordResult(c, s, r)
  }

  function CrashStep(s: State): State {
    s.(tasks := map[], breaker := Breaker.Fresh,
       meters := Meters(map[], 0, 0, {}, 0, 0, 0, |s.gateway|), past := s.past.(results := []))
  }

  ghost function Step(c: Config, s: State, a: Action): State
    requires Enabled(c, s, a)
  {
    match a
    case Submit(e) => SubmitStep(s, e)
    case SubmitMalformed => MalformedStep(s)
    case Begin(t) => BeginStep(c, s, t)
    case Arrive(m, at) => AnswerStep(s, m, true, Respond(s.account, m.payload.accountId, m.payload, at).1, at)
    case Fail(m, applied, code, at) => AnswerStep(s, m, applied, code, at)
    case Lose(m) => s.(network := s.network - multiset{m})
    case Receive(m) => ReceiveStep(c, s, m)
    case TimeOut(t) => AttemptFailed(c, s, t, s.tasks[t].pc.attempt)
    case Resend(t) => SendAttempt(c, s, t, s.tasks[t].pc.attempt + 1)
    case Insert(t, at) => InsertStep(s, t, at)
    case CountRequest(t) => CountStep(s, t)
    case ReadDone(r) => ReadStep(c, s, r)
    case ReadRefused => ReadUnavailable(s, CircuitOpen)
    case Tick(d) => s.(clock := s.clock + d)
    case Crash => CrashStep(s)
  }

  /** The state after `acts`, when each of them is possible in turn. */
  ghost function Run(c: Config, s: State, acts: seq<Action>): Option<State> {
    if acts == [] then Some(s)
    else
      var before := Run(c, s, acts[..|acts| - 1]);
      if before.Some? && Enabled(c, before.value, acts[|acts| - 1])
      then Some(Step(c, before.value, acts[|acts| - 1]))
      else None
  }

  lemma RunStep(c: Config, s: State, acts: seq<Action>, a: Action)
    requires Run(c, s, acts).Some? && Enabled(c, Run(c, s, acts).value, a)
    ensures Run(c, s, acts + [a]) == Some(Step(c, Run(c, s, acts).value, a))
  {
  }

  lemma {:induction false} RunAppend(c: Config, s: State, acts: seq<Action>, more: seq<Action>)
    requires Run(c, s, acts).Some?
    ensures Run(c, s, acts + more) == Run(c, Run(c, s, acts).value, more)
    decreases |more|
  {
    if more == [] {
      assert acts + more == acts;
    } else {
      RunAppend(c, s, acts, more[..|more| - 1]);
      assert (acts + more)[..|acts + more| - 1] == acts + more[..|more| - 1];
    }
  }

  ghost predicate Reachable(c: Config, s: State) {
    exists acts :: Run(c, Init, acts) == Some(s)
  }

  lemma ReachableAfter(c: Config, s: State, acts: seq<Action>)
    requires Reachable(c, s) && Run(c, s, acts).Some?
    ensures Reachable(c, Run(c, s, acts).value)
  {
    var before :| Run(c, Init, before) == Some(s);
    RunAppend(c, Init, before, acts);
  }
}
