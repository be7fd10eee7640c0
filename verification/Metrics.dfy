/** In-process counters. A missing key counts zero, as in a Python `defaultdict(int)`. */
module Metrics {

  /** The domain counters both services use, one per name passed to `record_domain_event`. */
  datatype Counter =
    | GatewayAccepted | GatewayDuplicateReplay | GatewayConflict
    | GatewayUnavailable | GatewayCircuitOpen | GatewayRejected
    | AccountApplied | AccountDuplicateReplay | AccountConflict | AccountCurrencyConflict | AccountPathMismatch

  type Counts<!K> = map<K, nat>

  function Count<K>(m: Counts<K>, k: K): nat {
    if k in m then m[k] else 0
  }

  function Bump<K(!new)>(m: Counts<K>, k: K, n: nat): (r: Counts<K>)
    ensures forall x :: Count(r, x) == Count(m, x) + if x == k then n else 0
  {
    m[k := Count(m, k) + n]
  }

  class MetricsRegistry {
    var requestCounts: Counts<string>
    var errorCounts: Counts<string>
    var domainCounts: Counts<Counter>

    constructor ()
      ensures requestCounts == map[] && errorCounts == map[] && domainCounts == map[]
    {
      requestCounts, errorCounts, domainCounts := map[], map[], map[];
    }

    /** Counts one finished request; only server errors count as errors. */
    method RecordRequest(key: string, statusCode: int)
      modifies this
      ensures requestCounts == Bump(old(requestCounts), key, 1)
      ensures errorCounts == if statusCode >= 500 then Bump(old(errorCounts), key, 1) else old(errorCounts)
      ensures domainCounts == old(domainCounts)
    {
      requestCounts := Bump(requestCounts, key, 1);
      if statusCode >= 500 {
        errorCounts := Bump(errorCounts, key, 1);
      }
    }

    /** Adds to a business counter; an amount below one is refused and changes nothing. */
    method RecordDomainEvent(name: Counter, amount: int := 1) returns (ok: bool)
      modifies this
      ensures ok <==> amount >= 1
      ensures domainCounts == if ok then Bump(old(domainCounts), name, amount) else old(domainCounts)
      ensures requestCounts == old(requestCounts) && errorCounts == old(errorCounts)
    {
      if amount < 1 {
        return false;
      }
      domainCounts := Bump(domainCounts, name, amount);
      return true;
    }
  }
}
