/** The public write path, one submission at a time; Protocol treats overlapping submissions. */
module EventGateway {
  import opened AccountClient
  import opened AccountLedger
  import opened AccountService
  import Breaker
  import opened Contracts
  import opened Decimals
  import opened GatewayLedger
  import opened Metrics
  import opened Rows
  import opened Timestamps

  /** Every Gateway row stands on an Account row for the same event as sent. */
  ghost predicate Backed(amounts: Decimal -> Decimal, events: Events, transactions: Transactions) {
    forall id <- events :: id in transactions && SameEvent(transactions[id].payload, Wire(amounts, events[id].payload))
  }

  lemma BackedGrows(amounts: Decimal -> Decimal, events: Events, before: Transactions, after: Transactions, e: EventPayload, at: Utc)
    requires Backed(amounts, events, before) && Extends(before, after)
    ensures Backed(amounts, events, after)
    ensures e.eventId in after && SameEvent(after[e.eventId].payload, Wire(amounts, e))
            ==> Backed(amounts, InsertOnce(events, e, at).0, after)
  {
  }

  /** Which events the Account Service takes, and what it answers to the others. */
  lemma TakenIff(table: Transactions, amounts: Decimal -> Decimal, e: EventPayload)
    requires ValidLedger(table) && ValidPayload(e)
    ensures var code := StatusFor(table, e.accountId, Wire(amounts, e));
            && code in {200, 201, 409, 422}
            && (code == 422 <==> Value(amounts(e.amount)) <= 0.0)
            && (code < 400 <==>
                  && Value(amounts(e.amount)) > 0.0
                  && if e.eventId in table then
                       var row := table[e.eventId].payload;
                       row == e.(amount := row.amount) && Value(row.amount) == Value(amounts(e.amount))
                     else
                       forall id <- table :: table[id].payload.accountId == e.accountId
                                             ==> table[id].payload.currency == e.currency)
  {
    StatusForIs(table, e.accountId, Wire(amounts, e));
    hide Value;
  }

  class Gateway {
    const repository: GatewayRepository
    const client: HttpAccountClient
    const metrics: MetricsRegistry

    constructor (repository: GatewayRepository, client: HttpAccountClient, metrics: MetricsRegistry)
      ensures this.repository == repository && this.client == client && this.metrics == metrics
    {
      this.repository, this.client, this.metrics := repository, client, metrics;
    }

    /** The answer for an event already on record: a replay, or a conflicting use of its id. */
    method AnswerKnown(existing: EventPayload, event: EventPayload) returns (status: int)
      modifies metrics
      ensures status == if existing == event.(amount := existing.amount) && Value(existing.amount) == Value(event.amount)
                        then 200 else 409
      ensures metrics.domainCounts
              == Bump(old(metrics.domainCounts), if status == 200 then GatewayDuplicateReplay else GatewayConflict, 1)
    {
      SameEventIff(event, existing);
      if !SameEvent(existing, event) {
        var _ := metrics.RecordDomainEvent(GatewayConflict);
        return 409;
      }
      var _ := metrics.RecordDomainEvent(GatewayDuplicateReplay);
      return 200;
    }

    /** The stretch after the downstream call: counters, the status, and the row if the event was applied. */
    method FinishSubmission(event: EventPayload, outcome: CallOutcome, at: Utc) returns (status: int)
      requires repository.Valid()
      modifies repository, metrics
      ensures repository.Valid()
      ensures repository.events
              == if outcome.Applied? then InsertOnce(old(repository.events), event, at).0 else old(repository.events)
      ensures (status, metrics.domainCounts) == match outcome
                case CircuitOpen => (503, Bump(Bump(old(metrics.domainCounts), GatewayCircuitOpen, 1), GatewayUnavailable, 1))
                case Unavailable => (503, Bump(old(metrics.domainCounts), GatewayUnavailable, 1))
                case Rejected(code) => (code, Bump(old(metrics.domainCounts), GatewayRejected, 1))
                case Applied => match InsertOnce(old(repository.events), event, at).1
                                case Inserted => (201, Bump(old(metrics.domainCounts), GatewayAccepted, 1))
                                case Existing => (200, Bump(old(metrics.domainCounts), GatewayDuplicateReplay, 1))
                                case Differs => (409, Bump(old(metrics.domainCounts), GatewayConflict, 1))
    {
      match outcome {
        case CircuitOpen =>
          var _ := metrics.RecordDomainEvent(GatewayCircuitOpen);
          var _ := metrics.RecordDomainEvent(GatewayUnavailable);
          return 503;
        case Unavailable =>
          var _ := metrics.RecordDomainEvent(GatewayUnavailable);
          return 503;
        case Rejected(code) =>
          var _ := metrics.RecordDomainEvent(GatewayRejected);
          return code;
        case Applied =>
      }
      var inserted := repository.InsertAppliedEvent(event, at);
      match inserted {
        case Differs =>
          var _ := metrics.RecordDomainEvent(GatewayConflict);
          return 409;
        case Existing =>
          var _ := metrics.RecordDomainEvent(GatewayDuplicateReplay);
          return 200;
        case Inserted =>
          var _ := metrics.RecordDomainEvent(GatewayAccepted);
          return 201;
      }
    }

    /** Sends an event not on record here to the Account Service and records it if it was applied. */
    method ForwardEvent(event: EventPayload, api: AccountApi, now: real, net: nat -> Attempt, at: Utc)
      returns (status: int, ghost attempts: nat)
      requires repository.Valid() && client.Valid() && api.repository.Valid() && metrics != api.metrics
      requires Backed(client.amounts, repository.events, api.repository.transactions)
      requires forall k :: net(k).fault.ServerError? ==> net(k).fault.code >= 500
      requires ValidPayload(event) && event.eventId !in repository.events
      modifies repository, client, metrics, api.repository, api.metrics
      ensures repository.Valid() && client.Valid() && api.repository.Valid()
      // Nothing is sent exactly when the circuit refuses, and 503 needs that or only failed attempts.
      ensures attempts <= client.policy.maxAttempts
      ensures attempts == 0 <==> !Breaker.LetsThrough(client.policy, old(client.history), now)
      ensures status == 503 <==> attempts == 0 || forall k :: 1 <= k <= client.policy.maxAttempts ==> !net(k).fault.Healthy?
      // Otherwise the status is the Account Service's own, with 201 for an event it takes.
      ensures status != 503 ==>
                var code := StatusFor(old(api.repository.transactions), event.accountId, Wire(client.amounts, event));
                status == if code < 400 then 201 else code
      ensures status in {201, 503} || 400 <= status < 500
      // Both tables.
      ensures api.repository.transactions
              == TableAfter(old(api.repository.transactions), event.accountId, Wire(client.amounts, event), net, attempts)
      ensures Extends(old(api.repository.transactions), api.repository.transactions)
      ensures Backed(client.amounts, repository.events, api.repository.transactions)
      ensures repository.events
              == if status == 201
                 then old(repository.events)[event.eventId := Row(event, EventAudit(EventStatus.Applied, at, at))]
                 else old(repository.events)
      ensures 400 <= status < 500 ==> api.repository.transactions == old(api.repository.transactions)
      ensures metrics.domainCounts
              == if status == 201 then Bump(old(metrics.domainCounts), GatewayAccepted, 1)
                 else if status != 503 then Bump(old(metrics.domainCounts), GatewayRejected, 1)
                 else if attempts > 0 then Bump(old(metrics.domainCounts), GatewayUnavailable, 1)
                 else Bump(Bump(old(metrics.domainCounts), GatewayCircuitOpen, 1), GatewayUnavailable, 1)
    {
      ghost var before, payload := api.repository.transactions, Wire(client.amounts, event);
      var outcome;
      outcome, attempts := client.ApplyTransaction(api, event, now, net);
      ghost var after := api.repository.transactions;
      RetriesRecord(before, event.accountId, payload, net, attempts);
      BackedGrows(client.amounts, repository.events, before, after, event, at);
      status := FinishSubmission(event, outcome, at);
    }

    /** `POST /events`. */
    method SubmitEvent(event: EventPayload, api: AccountApi, now: real, net: nat -> Attempt, at: Utc)
      returns (status: int, ghost attempts: nat)
      requires repository.Valid() && client.Valid() && api.repository.Valid() && metrics != api.metrics
      requires Backed(client.amounts, repository.events, api.repository.transactions)
      requires forall k :: net(k).fault.ServerError? ==> net(k).fault.code >= 500
      modifies repository, client, metrics, api.repository, api.metrics
      ensures repository.Valid() && client.Valid() && api.repository.Valid()
      // Validation comes first.
      ensures !ValidPayload(event) ==> status == 422 && metrics.domainCounts == old(metrics.domainCounts)
      // A known event is answered without calling the Account Service.
      ensures !ValidPayload(event) || event.eventId in old(repository.events) ==>
                && attempts == 0 && repository.events == old(repository.events)
                && api.repository.transactions == old(api.repository.transactions)
                && client.history == old(client.history)
      ensures ValidPayload(event) && event.eventId in old(repository.events) ==>
                var known := old(repository.events)[event.eventId].payload;
                && status == (if known == event.(amount := known.amount) && Value(known.amount) == Value(event.amount)
                              then 200 else 409)
                && metrics.domainCounts
                   == Bump(old(metrics.domainCounts), if status == 200 then GatewayDuplicateReplay else GatewayConflict, 1)
      // A new event is sent exactly when the circuit allows it, and 503 is given exactly when it
      // does not or all attempts fail.
      ensures attempts <= client.policy.maxAttempts
      ensures ValidPayload(event) && event.eventId !in old(repository.events) ==>
                && (attempts == 0 <==> !Breaker.LetsThrough(client.policy, old(client.history), now))
                && (status == 503 <==>
                      attempts == 0 || forall k :: 1 <= k <= client.policy.maxAttempts ==> !net(k).fault.Healthy?)
      // Otherwise it is taken unless its amount vanishes on the wire, or the Account Service knows
      // another event by its id or another currency on its account.
      ensures ValidPayload(event) && event.eventId !in old(repository.events) && status != 503 ==>
                var table := old(api.repository.transactions);
                && status in {201, 409, 422}
                && (status == 422 <==> Value(client.amounts(event.amount)) <= 0.0)
                && (status == 201 <==>
                      && status != 422
                      && if event.eventId in table then
                           var row := table[event.eventId].payload;
                           row == event.(amount := row.amount) && Value(row.amount) == Value(client.amounts(event.amount))
                         else
                           forall id <- table :: table[id].payload.accountId == event.accountId
                                                 ==> table[id].payload.currency == event.currency)
      ensures ValidPayload(event) && event.eventId !in old(repository.events) ==>
                metrics.domainCounts
                == if status == 201 then Bump(old(metrics.domainCounts), GatewayAccepted, 1)
                   else if status != 503 then Bump(old(metrics.domainCounts), GatewayRejected, 1)
                   else if attempts > 0 then Bump(old(metrics.domainCounts), GatewayUnavailable, 1)
                   else Bump(Bump(old(metrics.domainCounts), GatewayCircuitOpen, 1), GatewayUnavailable, 1)
      // 201 is the one status that comes with a new Gateway row; the Account table sees at most one
      // delivery, and a 4xx leaves it alone; both tables only grow, the Gateway's never ahead.
      ensures repository.events
              == if status == 201
                 then old(repository.events)[event.eventId := Row(event, EventAudit(EventStatus.Applied, at, at))]
                 else old(repository.events)
      ensures status == 201 ==> event.eventId !in old(repository.events)
      ensures ValidPayload(event) ==>
                (status in {200, 201} <==>
                   event.eventId in repository.events && SameEvent(repository.events[event.eventId].payload, event))
      ensures api.repository.transactions
              == TableAfter(old(api.repository.transactions), event.accountId, Wire(client.amounts, event), net, attempts)
      ensures 400 <= status < 500 ==> api.repository.transactions == old(api.repository.transactions)
      ensures Extends(old(repository.events), repository.events)
      ensures Extends(old(api.repository.transactions), api.repository.transactions)
      ensures Backed(client.amounts, repository.events, api.repository.transactions)
    {
      SameEventIff(event, event);
      hide SameEvent, StatusFor, Backed, Value, Wire, ValidLedger, ValidPayload, Breaker.LetsThrough, Breaker.RecordAll;
      if !ValidPayload(event) {
        return 422, 0;
      }
      var existing := repository.GetEvent(event.eventId);
      if existing.Some? {
        SameEventIff(existing.value.payload, event);
        status := AnswerKnown(existing.value.payload, event);
        attempts := 0;
        return;
      }
      TakenIff(api.repository.transactions, client.amounts, event);
      status, attempts := ForwardEvent(event, api, now, net, at);
    }
  }
}
