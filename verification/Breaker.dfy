/** The circuit breaker as a machine over recorded call results, whatever calls they came from. */
module Breaker {
  import opened Wrappers

  /** The client's settings after the constructor has clamped them. */
  datatype Policy = Policy(maxAttempts: nat, backoff: real, threshold: nat, reset: real)

  predicate ValidPolicy(p: Policy) {
    p.maxAttempts >= 1 && p.backoff >= 0.0 && p.threshold >= 1 && p.reset >= 0.0
  }

  function Clamp(maxAttempts: int, backoff: real, threshold: int, reset: real): (p: Policy)
    ensures ValidPolicy(p)
    // A setting in range is kept; any other ends up at the bound.
    ensures (maxAttempts >= 1 ==> p.maxAttempts == maxAttempts) && (maxAttempts < 1 ==> p.maxAttempts == 1)
    ensures (backoff >= 0.0 ==> p.backoff == backoff) && (backoff < 0.0 ==> p.backoff == 0.0)
    ensures (threshold >= 1 ==> p.threshold == threshold) && (threshold < 1 ==> p.threshold == 1)
    ensures (reset >= 0.0 ==> p.reset == reset) && (reset < 0.0 ==> p.reset == 0.0)
  {
    Policy(if maxAttempts < 1 then 1 else maxAttempts, if backoff < 0.0 then 0.0 else backoff,
           if threshold < 1 then 1 else threshold, if reset < 0.0 then 0.0 else reset)
  }

  datatype State = State(failures: nat, openedAt: Option<real>)

  const Fresh := State(0, None)

  /** A finished call: a response below 500, or an availability failure at a clock reading. */
  datatype CallResult = Succeeded | Failed(at: real)

  function Record(p: Policy, b: State, r: CallResult): State {
    match r
    case Succeeded => State(0, None)
    case Failed(at) => State(b.failures + 1, if b.failures + 1 >= p.threshold then Some(at) else b.openedAt)
  }

  predicate Admits(p: Policy, b: State, now: real) {
    b.openedAt.None? || now - b.openedAt.value >= p.reset
  }

  function RecordAll(p: Policy, results: seq<CallResult>): State {
    if results == [] then Fresh
    else Record(p, RecordAll(p, results[..|results| - 1]), results[|results| - 1])
  }

  /** Failures since the last success. */
  function TrailingFailures(results: seq<CallResult>): nat {
    if results == [] || results[|results| - 1].Succeeded? then 0
    else 1 + TrailingFailures(results[..|results| - 1])
  }

  /**
   For any interleaving of overlapping calls the two fields are a function of the order in which
   results were recorded: the failures since the last success, and, once these reach the
   threshold, the clock reading of the latest failure.
   */
  lemma {:induction false} BreakerClosedForm(p: Policy, results: seq<CallResult>)
    requires p.threshold >= 1
    ensures var n := TrailingFailures(results);
            && (n > 0 ==> results[|results| - 1].Failed?)
            && RecordAll(p, results)
               == State(n, if n >= p.threshold then Some(results[|results| - 1].at) else None)
    decreases |results|
  {
    if results != [] {
      BreakerClosedForm(p, results[..|results| - 1]);
    }
  }

  /** Too few failures in a row, or the reset window has passed since the last one. */
  predicate LetsThrough(p: Policy, results: seq<CallResult>, now: real)
    requires p.threshold >= 1
  {
    TrailingFailures(results) < p.threshold || now >= results[|results| - 1].at + p.reset
  }

  /** The test on the two fields decides by the recorded results alone. */
  lemma AdmitsIff(p: Policy, results: seq<CallResult>, now: real)
    requires p.threshold >= 1
    ensures Admits(p, RecordAll(p, results), now) <==> LetsThrough(p, results, now)
  {
    BreakerClosedForm(p, results);
  }

  // ---- the two-state circuit the fields stand for -----------------------------------------

  datatype Circuit = Closed(failures: nat) | Open(since: real)

  function Step(p: Policy, c: Circuit, r: CallResult): Circuit {
    match (c, r)
    case (_, Succeeded) => Closed(0)
    case (Closed(n), Failed(at)) => if n + 1 >= p.threshold then Open(at) else Closed(n + 1)
    case (Open(_), Failed(at)) => Open(at)
  }

  function Abstract(b: State): Circuit {
    if b.openedAt.Some? then Open(b.openedAt.value) else Closed(b.failures)
  }

  /** From any reachable state the fields follow the circuit; a failed probe reopens it at once. */
  lemma {:induction false} BreakerRefinesCircuit(p: Policy, results: seq<CallResult>, r: CallResult)
    requires p.threshold >= 1
    ensures var b := RecordAll(p, results);
            && Abstract(Record(p, b, r)) == Step(p, Abstract(b), r)
            && Abstract(Fresh) == Closed(0)
            && (b.openedAt.None? ==> b.failures < p.threshold)
  {
    BreakerClosedForm(p, results);
  }

  // ---- work sent to a service that is down ------------------------------------------------

  /** One call's arrival and the moment its last attempt failed. */
  datatype Span = Span(start: real, end: real)

  /** One call at a time, on a clock that never goes back. */
  ghost predicate Sequential(calls: seq<Span>) {
    && (forall c <- calls :: c.start <= c.end)
    && (forall i, j :: 0 <= i < j < |calls| ==> calls[i].end <= calls[j].start)
  }

  /** The breaker and the number of admitted calls when every admitted call fails. */
  function Outage(p: Policy, calls: seq<Span>): (State, nat) {
    if calls == [] then (Fresh, 0)
    else
      var (b, admitted) := Outage(p, calls[..|calls| - 1]);
      var c := calls[|calls| - 1];
      if Admits(p, b, c.start) then (Record(p, b, Failed(c.end)), admitted + 1) else (b, admitted)
  }

  lemma NothingRecorded(p: Policy)
    ensures Outage(p, []) == (RecordAll(p, []), 0)
  {
  }

  lemma OutageGoesOn(p: Policy, calls: seq<Span>, i: nat, results: seq<CallResult>)
    requires p.threshold >= 1 && i < |calls| && Outage(p, calls[..i]).0 == RecordAll(p, results)
    ensures Outage(p, calls[..i + 1])
            == if LetsThrough(p, results, calls[i].start)
               then (RecordAll(p, results + [Failed(calls[i].end)]), Outage(p, calls[..i]).1 + 1)
               else Outage(p, calls[..i])
  {
    AdmitsIff(p, results, calls[i].start);
    assert calls[..i + 1][..i] == calls[..i];
  }

  /** The start of the `k`-th reset window after the first opening. */
  function WindowStart(p: Policy, first: real, k: nat): real {
    if k == 0 then first else WindowStart(p, first, k - 1) + p.reset
  }

  lemma {:induction false} WindowStartIs(p: Policy, first: real, k: nat)
    ensures WindowStart(p, first, k) == first + k as real * p.reset
  {
    if k > 0 {
      WindowStartIs(p, first, k - 1);
      assert k as real * p.reset == (k - 1) as real * p.reset + p.reset;
    }
  }

  /** Every admitted call past the threshold arrives at least one reset window after the one before. */
  ghost predicate OutageInvariant(p: Policy, calls: seq<Span>, t: real)
    requires p.threshold >= 1
  {
    var (b, admitted) := Outage(p, calls);
    && b.failures == admitted
    && (admitted < p.threshold ==> admitted == |calls| && b.openedAt.None?)
    && (admitted >= p.threshold ==>
          && |calls| >= p.threshold && b.openedAt.Some?
          && b.openedAt.value <= calls[|calls| - 1].end
          && b.openedAt.value >= WindowStart(p, calls[p.threshold - 1].end, admitted - p.threshold)
          && (admitted > p.threshold ==> WindowStart(p, calls[p.threshold - 1].end, admitted - p.threshold) <= t))
  }

  lemma {:induction false} OutageHolds(p: Policy, calls: seq<Span>, t: real)
    requires ValidPolicy(p) && Sequential(calls) && forall c <- calls :: c.start <= t
    ensures OutageInvariant(p, calls, t)
    decreases |calls|
  {
    if calls != [] {
      var front, c := calls[..|calls| - 1], calls[|calls| - 1];
      assert c in calls;
      OutageHolds(p, front, t);
    }
  }

  /**
   While the service is down the first `threshold` calls open the circuit, and from then on a
   reset window passes before each further call that reaches the network: up to time `t` there
   are at most `threshold + floor((t - first opening) / reset)` of them.
   */
  lemma OutageAdmissionsBound(p: Policy, calls: seq<Span>, t: real)
    requires ValidPolicy(p) && p.reset > 0.0
    requires Sequential(calls) && forall c <- calls :: c.start <= t
    requires |calls| >= p.threshold && calls[p.threshold - 1].end <= t
    ensures Outage(p, calls).1 <= p.threshold + ((t - calls[p.threshold - 1].end) / p.reset).Floor
  {
    hide Outage, Sequential, WindowStart;
    OutageHolds(p, calls, t);
    var extra, first := Outage(p, calls).1 - p.threshold, calls[p.threshold - 1].end;
    if extra > 0 {
      WindowStartIs(p, first, extra);
    }
    hide OutageInvariant;
    WindowsCounted(extra, t - first, p.reset);
  }

  lemma WindowsCounted(k: int, elapsed: real, reset: real)
    requires reset > 0.0 && elapsed >= 0.0 && (k > 0 ==> k as real * reset <= elapsed)
    ensures k <= (elapsed / reset).Floor
  {
    if k > 0 {
      DivideBy(k as real, elapsed, reset);
    } else {
      DivideBy(0.0, elapsed, reset);
    }
  }

  lemma DivideBy(k: real, elapsed: real, reset: real)
    requires reset > 0.0 && k * reset <= elapsed
    ensures k <= elapsed / reset
  {
  }
}
