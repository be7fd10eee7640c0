/** The Gateway's client for the Account Service: bounded retries behind a circuit breaker. */
module AccountClient {
  import opened AccountLedger
  import opened AccountService
  import Breaker
  import opened Contracts
  import opened Decimals
  import opened Rows
  import opened Timestamps
  import opened Wrappers

  /** What the network and the server do to one attempt. */
  datatype Fault =
    | Healthy
    | RequestLost
    | ReplyLost
    | ServerError(applied: bool, code: int)

  /** One attempt's fate, the service's clock when it is reached, and the client's clock when it fails. */
  datatype Attempt = Attempt(fault: Fault, appliedAt: Utc, failedAt: real)

  /** `NoReply` stands for a refused connection or a timeout: it says nothing about what was applied. */
  datatype Reply = NoReply | Status(code: int)

  predicate Reached(f: Fault) {
    f.Healthy? || f.ReplyLost? || (f.ServerError? && f.applied)
  }

  ghost function Exchange(table: Transactions, path: string, e: EventPayload, a: Attempt): (Transactions, Reply) {
    var (after, code) := Respond(table, path, e, a.appliedAt);
    (if Reached(a.fault) then after else table,
     match a.fault
     case Healthy => Status(code)
     case ServerError(_, status) => Status(status)
     case _ => NoReply)
  }

  /** The table after attempts 1 to `k`. */
  ghost function TableAfter(table: Transactions, path: string, e: EventPayload, net: nat -> Attempt, k: nat): Transactions {
    if k == 0 then table else Exchange(TableAfter(table, path, e, net, k - 1), path, e, net(k)).0
  }

  lemma RespondTwice(table: Transactions, path: string, e: EventPayload, at: Utc, later: Utc)
    ensures var (after, status) := Respond(table, path, e, at);
            Respond(after, path, e, later) == (after, if status == 201 then 200 else status)
  {
  }

  /**
   However many attempts are made and whatever is lost, the table ends unchanged, when no attempt
   got through, or as after the single delivery of the first attempt that did.
   */
  lemma {:induction false} RetriesAreOneDelivery(table: Transactions, path: string, e: EventPayload, net: nat -> Attempt, k: nat)
    ensures var after := TableAfter(table, path, e, net, k);
            || (after == table && forall j :: 1 <= j <= k ==> !Reached(net(j).fault))
            || exists j :: 1 <= j <= k && Reached(net(j).fault) && (forall i :: 1 <= i < j ==> !Reached(net(i).fault))
                           && after == Respond(table, path, e, net(j).appliedAt).0
  {
    if k > 0 {
      RetriesAreOneDelivery(table, path, e, net, k - 1);
      var before := TableAfter(table, path, e, net, k - 1);
      if j :| 1 <= j <= k - 1 && Reached(net(j).fault) && (forall i :: 1 <= i < j ==> !Reached(net(i).fault))
              && before == Respond(table, path, e, net(j).appliedAt).0 {
        RespondTwice(table, path, e, net(j).appliedAt, net(k).appliedAt);
      }
    }
  }

  /** A reply that arrives after retries tells what a single delivery would have told. */
  lemma RetriedReply(table: Transactions, path: string, e: EventPayload, net: nat -> Attempt, k: nat)
    requires k >= 1 && net(k).fault.Healthy?
    ensures var (after, reply) := Exchange(TableAfter(table, path, e, net, k - 1), path, e, net(k));
            var once := StatusFor(table, path, e);
            && (reply.code < 400 <==> once < 400)
            && (reply.code >= 400 ==> reply.code == once && after == table)
            && reply.code < 500
  {
    hide SameEvent, Clashes, ApplyOnce, ValidPayload, Respond;
    RetriesAreOneDelivery(table, path, e, net, k - 1);
    var before := TableAfter(table, path, e, net, k - 1);
    StatusIgnoresTime(before, path, e, net(k).appliedAt);
    if j :| 1 <= j <= k - 1 && before == Respond(table, path, e, net(j).appliedAt).0 {
      RespondTwice(table, path, e, net(j).appliedAt, net(k).appliedAt);
      StatusIgnoresTime(table, path, e, net(j).appliedAt);
    }
  }

  /** Retries only ever add rows, and after a success reply the event is on record. */
  lemma RetriesRecord(table: Transactions, path: string, e: EventPayload, net: nat -> Attempt, k: nat)
    requires Keyed(table)
    ensures var after := TableAfter(table, path, e, net, k);
            && Extends(table, after)
            && (k >= 1 && net(k).fault.Healthy? && StatusFor(table, path, e) < 400
                ==> e.eventId in after && SameEvent(after[e.eventId].payload, e))
  {
    RetriesAreOneDelivery(table, path, e, net, k);
    if j :| 1 <= j <= k && TableAfter(table, path, e, net, k) == Respond(table, path, e, net(j).appliedAt).0 {
      StatusIgnoresTime(table, path, e, net(j).appliedAt);
      SuccessMeansRecorded(table, path, e, net(j).appliedAt);
    }
  }

  function Pow2(n: nat): nat {
    if n == 0 then 1 else 2 * Pow2(n - 1)
  }

  /** The pauses before attempt `k`, one after each earlier attempt. */
  function SleptBefore(backoff: real, k: nat): real {
    if k <= 1 then 0.0 else SleptBefore(backoff, k - 1) + backoff * Pow2(k - 2) as real
  }

  /** Doubling pauses add up to `backoff * (2^(k-1) - 1)`. */
  lemma {:induction false} BackoffClosedForm(backoff: real, k: nat)
    requires k >= 1
    ensures SleptBefore(backoff, k) == backoff * (Pow2(k - 1) - 1) as real
  {
    if k > 1 {
      BackoffClosedForm(backoff, k - 1);
      var p := Pow2(k - 2) as real;
      assert (Pow2(k - 1) - 1) as real == 2.0 * p - 1.0 && (Pow2(k - 2) - 1) as real == p - 1.0;
      assert backoff * (p - 1.0) + backoff * p == backoff * (2.0 * p - 1.0);
    }
  }

  /** How a call to the client ends: a value or one of its three exceptions. */
  datatype CallOutcome = Applied | Rejected(code: int) | Unavailable | CircuitOpen

  class HttpAccountClient {
    const policy: Breaker.Policy
    const amounts: Decimal -> Decimal
    var consecutiveFailures: nat
    var circuitOpenedAt: Option<real>
    ghost var history: seq<Breaker.CallResult>

    ghost predicate Valid()
      reads this
    {
      && Breaker.ValidPolicy(policy)
      && Fields() == Breaker.RecordAll(policy, history)
    }

    function Fields(): Breaker.State
      reads this
    {
      Breaker.State(consecutiveFailures, circuitOpenedAt)
    }

    constructor (amounts: Decimal -> Decimal,
                 maxAttempts: int := 3, backoff: real := 0.1, threshold: int := 3, reset: real := 5.0)
      ensures Valid() && history == [] && this.amounts == amounts
      ensures policy == Breaker.Clamp(maxAttempts, backoff, threshold, reset)
    {
      this.policy := Breaker.Clamp(maxAttempts, backoff, threshold, reset);
      this.amounts := amounts;
      consecutiveFailures, circuitOpenedAt := 0, None;
      history := [];
    }

    /** Fewer than `threshold` failures in a row, or the window since the last of them has passed. */
    method EnsureCircuitAllowsRequest(now: real) returns (allowed: bool)
      requires Valid()
      ensures allowed <==> Breaker.LetsThrough(policy, history, now)
    {
      Breaker.AdmitsIff(policy, history, now);
      if circuitOpenedAt.None? {
        return true;
      }
      var elapsed := now - circuitOpenedAt.value;
      return elapsed >= policy.reset;
    }

    method RecordDownstreamSuccess()
      requires Valid()
      modifies this
      ensures Valid() && history == old(history) + [Breaker.Succeeded]
    {
      consecutiveFailures, circuitOpenedAt := 0, None;
      history := history + [Breaker.Succeeded];
      assert history[..|history| - 1] == old(history);
    }

    method RecordDownstreamFailure(now: real)
      requires Valid()
      modifies this
      ensures Valid() && history == old(history) + [Breaker.Failed(now)]
    {
      consecutiveFailures := consecutiveFailures + 1;
      if consecutiveFailures >= policy.threshold {
        circuitOpenedAt := Some(now);
      }
      history := history + [Breaker.Failed(now)];
      assert history[..|history| - 1] == old(history);
    }

    /** One HTTP exchange with the given fate. */
    method Send(api: AccountApi, path: string, payload: EventPayload, a: Attempt) returns (reply: Reply)
      requires api.repository.Valid()
      modifies api.repository, api.metrics
      ensures api.repository.Valid()
      ensures (api.repository.transactions, reply) == Exchange(old(api.repository.transactions), path, payload, a)
      ensures a.fault.Healthy? ==> reply == Status(StatusFor(old(api.repository.transactions), path, payload))
      ensures a.fault.ServerError? ==> reply == Status(a.fault.code)
      ensures a.fault.RequestLost? || a.fault.ReplyLost? ==> reply == NoReply
      ensures api.repository.transactions
              == if a.fault.RequestLost? || (a.fault.ServerError? && !a.fault.applied) then old(api.repository.transactions)
                 else Respond(old(api.repository.transactions), path, payload, a.appliedAt).0
    {
      var code := 0;
      StatusIgnoresTime(api.repository.transactions, path, payload, a.appliedAt);
      if Reached(a.fault) {
        code := api.PostTransaction(path, payload, a.appliedAt);
      }
      match a.fault {
        case Healthy => return Status(code);
        case ServerError(_, status) => return Status(status);
        case RequestLost => return NoReply;
        case ReplyLost => return NoReply;
      }
    }

    /**
     Sends a request until a reply below 500 arrives or the attempts run out, sleeping
     `backoff * 2^(attempt-1)` in between.
     */
    method Request(api: AccountApi, path: string, payload: EventPayload, now: real, net: nat -> Attempt)
      returns (outcome: CallOutcome, attempts: nat, slept: real)
      requires Valid() && api.repository.Valid()
      requires forall k :: net(k).fault.ServerError? ==> net(k).fault.code >= 500
      modifies this, api.repository, api.metrics
      ensures Valid() && api.repository.Valid()
      // The breaker decides alone whether anything is sent.
      ensures outcome.CircuitOpen? <==> attempts == 0
      ensures outcome.CircuitOpen? <==> !Breaker.LetsThrough(policy, old(history), now)
      ensures outcome.CircuitOpen? ==> history == old(history) && slept == 0.0
      // The call ends with the first reply below 500, or after the last attempt.
      ensures attempts <= policy.maxAttempts
      ensures forall k :: 1 <= k < attempts ==> !net(k).fault.Healthy?
      ensures attempts > 0 ==> (net(attempts).fault.Healthy? <==> outcome.Applied? || outcome.Rejected?)
      ensures outcome.Unavailable? ==> attempts == policy.maxAttempts
      ensures attempts > 0 ==> slept == SleptBefore(policy.backoff, attempts)
      // It tells the breaker exactly once.
      ensures outcome.Applied? || outcome.Rejected? ==> history == old(history) + [Breaker.Succeeded]
      ensures outcome.Unavailable? ==> history == old(history) + [Breaker.Failed(net(attempts).failedAt)]
      // The Account table ends as after at most one delivery, and the outcome is that delivery's.
      ensures api.repository.transactions == TableAfter(old(api.repository.transactions), path, payload, net, attempts)
      ensures outcome.Applied? ==> StatusFor(old(api.repository.transactions), path, payload) < 400
      ensures outcome.Rejected? ==>
                && api.repository.transactions == old(api.repository.transactions)
                && StatusFor(old(api.repository.transactions), path, payload) == outcome.code >= 400
    {
      slept := 0.0;
      attempts := 0;
      var allowed := EnsureCircuitAllowsRequest(now);
      if !allowed {
        return CircuitOpen, 0, 0.0;
      }
      var attempt := 1;
      while attempt <= policy.maxAttempts
        invariant 1 <= attempt <= policy.maxAttempts
        invariant Valid() && api.repository.Valid() && history == old(history)
        invariant api.repository.transactions
                  == TableAfter(old(api.repository.transactions), path, payload, net, attempt - 1)
        invariant forall k :: 1 <= k < attempt ==> !net(k).fault.Healthy?
        invariant slept == SleptBefore(policy.backoff, attempt)
        decreases policy.maxAttempts - attempt
      {
        var reply := Send(api, path, payload, net(attempt));
        if net(attempt).fault.Healthy? {
          RetriedReply(old(api.repository.transactions), path, payload, net, attempt);
        }
        if reply.NoReply? || reply.code >= 500 {
          if attempt < policy.maxAttempts {
            slept := slept + policy.backoff * Pow2(attempt - 1) as real;
            attempt := attempt + 1;
            continue;
          }
          RecordDownstreamFailure(net(attempt).failedAt);
          return Unavailable, attempt, slept;
        }
        RecordDownstreamSuccess();
        if reply.code >= 400 {
          return Rejected(reply.code), attempt, slept;
        }
        return Applied, attempt, slept;
      }
      // The loop never runs out: the last attempt always returns.
      assert false;
    }

    /** Sends one event to its own account, its amount as a JSON float. */
    method ApplyTransaction(api: AccountApi, event: EventPayload, now: real, net: nat -> Attempt)
      returns (outcome: CallOutcome, ghost attempts: nat)
      requires Valid() && api.repository.Valid()
      requires forall k :: net(k).fault.ServerError? ==> net(k).fault.code >= 500
      modifies this, api.repository, api.metrics
      ensures Valid() && api.repository.Valid()
      // Whether anything is sent, and which attempt ends the call.
      ensures outcome.CircuitOpen? <==> !Breaker.LetsThrough(policy, old(history), now)
      ensures attempts <= policy.maxAttempts && (attempts == 0 <==> outcome.CircuitOpen?)
      ensures forall k :: 1 <= k < attempts ==> !net(k).fault.Healthy?
      ensures attempts > 0 ==> (net(attempts).fault.Healthy? <==> outcome.Applied? || outcome.Rejected?)
      ensures outcome.Unavailable? ==> attempts == policy.maxAttempts
      // The Account table, and what a reply says about it.
      ensures api.repository.transactions
              == TableAfter(old(api.repository.transactions), event.accountId, Wire(amounts, event), net, attempts)
      ensures outcome.Applied? ==>
                && StatusFor(old(api.repository.transactions), event.accountId, Wire(amounts, event)) < 400
                && event.eventId in api.repository.transactions
                && var row := api.repository.transactions[event.eventId].payload;
                   row == event.(amount := row.amount) && Value(row.amount) == Value(amounts(event.amount))
      ensures outcome.Rejected? ==>
                && api.repository.transactions == old(api.repository.transactions)
                && StatusFor(old(api.repository.transactions), event.accountId, Wire(amounts, event)) == outcome.code >= 400
    {
      ghost var before := api.repository.transactions;
      var sent, slept;
      outcome, sent, slept := Request(api, event.accountId, Wire(amounts, event), now, net);
      attempts := sent;
      if outcome.Applied? {
        RetriesRecord(before, event.accountId, Wire(amounts, event), net, sent);
      }
    }
  }

  /**
   Calls one at a time, from a fresh client, to a service that never answers below 500: up to
   time `t` they make at most `max_attempts * (threshold + floor((t - first opening) / reset))`
   network attempts, by the client's own count.
   */
  method CallThroughOutage(client: HttpAccountClient, api: AccountApi, path: string, payload: EventPayload,
                           calls: seq<Breaker.Span>, net: (nat, nat) -> Attempt, ghost t: real)
    returns (attempts: nat)
    requires client.Valid() && client.history == [] && client.policy.reset > 0.0 && api.repository.Valid()
    requires forall i, k :: !net(i, k).fault.Healthy? && (net(i, k).fault.ServerError? ==> net(i, k).fault.code >= 500)
    requires forall i :: 0 <= i < |calls| ==> net(i, client.policy.maxAttempts).failedAt == calls[i].end
    requires Breaker.Sequential(calls) && forall c <- calls :: c.start <= t
    requires |calls| >= client.policy.threshold && calls[client.policy.threshold - 1].end <= t
    modifies client, api.repository, api.metrics
    ensures client.Valid() && api.repository.Valid()
    ensures var p := client.policy;
            attempts <= p.maxAttempts * (p.threshold + ((t - calls[p.threshold - 1].end) / p.reset).Floor)
  {
    hide Breaker.RecordAll, Breaker.Outage, Breaker.LetsThrough, Breaker.Sequential, TableAfter, SleptBefore, StatusFor;
    attempts := 0;
    ghost var p, admitted := client.policy, 0;
    Breaker.NothingRecorded(p);
    for i := 0 to |calls|
      invariant client.Valid() && api.repository.Valid()
      invariant Breaker.Outage(p, calls[..i]) == (Breaker.RecordAll(p, client.history), admitted)
      invariant attempts == p.maxAttempts * admitted
    {
      Breaker.OutageGoesOn(p, calls, i, client.history);
      var outcome, sent, slept := client.Request(api, path, payload, calls[i].start, (k: nat) => net(i, k));
      assert sent == 0 || sent == p.maxAttempts;
      DistributeOne(p.maxAttempts, admitted);
      attempts, admitted := attempts + sent, if sent == 0 then admitted else admitted + 1;
    }
    assert calls[..|calls|] == calls;
    Breaker.OutageAdmissionsBound(p, calls, t);
    AttemptsMonotone(p.maxAttempts, admitted, p.threshold + ((t - calls[p.threshold - 1].end) / p.reset).Floor);
  }

  lemma DistributeOne(m: nat, a: nat)
    ensures m * (a + 1) == m * a + m
  {
  }

  lemma AttemptsMonotone(m: nat, a: nat, b: int)
    requires a <= b
    ensures m * a <= m * b
  {
  }
}
