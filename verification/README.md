# Event Ledger, modelled and proved

Event Ledger moves money through two services. The Gateway takes a submission, sends it to the
Account Service over a link that may lose or delay anything, retries behind a circuit breaker, and
records the event once the Account Service has applied it. The Account Service applies each event
id once, keeps one currency per account, and derives balances and histories from its rows.

This project models both services and the link, and proves what the design rests on: money moves
exactly once however often an event is sent, the two tables never disagree in the harmful
direction, answers other than 503 are final, and what is derived from the rows does not depend on
the order of arrival, as far as that is true.

| file | what it models |
|---|---|
| `Numerals`, `Decimals` | Python `Decimal` with the default context's 28-digit rounding |
| `Wrappers` | optional values |
| `Text`, `Timestamps` | ISO 8601 printing and parsing, and the order of the stored text |
| `Contracts` | the event payload, when two payloads are the same event, the trip through JSON floats |
| `Rows` | tables by event id, unordered and sorted listings, sums over rows |
| `AccountLedger`, `AccountService`, `PrecisionLimit` | applying events, the repository, the route, balances |
| `Deliveries` | any sequence of deliveries to the Account Service |
| `GatewayLedger`, `EventGateway` | the Gateway's repository and its write path for one submission at a time |
| `Breaker`, `AccountClient` | the circuit breaker and the retry loop |
| `Metrics` | the in-process counters |
| `Protocol`, `ProtocolInvariant`, `ProtocolHandlers` | both services and the link as one step system, what every step keeps, how handlers move on |
| `ProtocolMoney`, `ProtocolMeters`, `ProtocolTallies`, `ProtocolLifecycle`, `ProtocolBreaker`, `ProtocolRecovery`, `ProtocolConflicts`, `ProtocolUnavailable` | what holds over every run: money and answers, counters, the life of a handler, the breaker, recovery, late conflicts, the two kinds of 503 |

The objects that the services update in place (the two repositories, the client with its breaker
fields, the metrics, the Gateway) are classes whose methods are proved against functions on
values; the step system uses the same functions. In the step system a handler runs undisturbed
between two `await`s and a repository call is one step, since everything runs on one event loop.
One step is split further than the code needs: the insert after a success reply is a step of its
own, which only adds interleavings.

Clocks, the fate of each attempt and the row order storage yields are inputs or free choices.
The conversion of amounts to JSON floats is a function parameter; the only thing assumed about it
is that it looks at the number and not at how the decimal is written.

## Findings

- `503` does not mean that the transaction was not applied, as the message text and ADR 006 say.
  After failed calls it tells nothing: some run gives it with the event applied exactly when both
  services accept the event, and some run with the event not applied exactly when the Gateway
  accepts it (`ProtocolUnavailable.UnavailableTellsNothing`). From an open circuit it does mean that
  nothing was sent (`ProtocolUnavailable.CircuitOpenSendsNothing`). A later fault-free submission
  settles the event without moving money again (`ProtocolRecovery.Recovery`).
- A submission can be answered 409 after its downstream call succeeded. Two events can get there
  exactly when they differ and become the same event on the wire, because their amounts become one
  JSON float (`ProtocolConflicts.LateConflictIff`).
- History sorts by stored text, not by time. The two orders part exactly within one second, when
  one of two times has a fraction and the other none (`Timestamps.TextOrderIsTimeOrderIff`).
- A balance can depend on the order in which its rows are read
  (`PrecisionLimit.BalanceCanDependOnOrder`). The fold is exact at every stage in every order exactly
  when the sum of any of the account's rows fits in 28 digits (`AccountLedger.BalanceOrderFree`);
  an order that rounds on the way may still end on the right sum by chance.
- The comment on the half-open circuit speaks of the next request as a probe. The code admits every
  call that arrives after the window until one result is recorded: for any number of submissions
  some run has all of them waiting at once (`ProtocolBreaker.HalfOpenAdmitsAll`), and the exact
  condition for one handler does not look at the others (`ProtocolBreaker.FreshEventIsSentIff`).

## Model

| member | source | states |
|---|---|---|
| Decimals.ValueIs | src/account_service/db.py:212-216 | a decimal is its coefficient times, or over, a power of ten |
| Decimals.RoundIsNearestEven | src/account_service/db.py:212-216 | the context's rounding yields at most 28 digits, all 28 when digits are dropped, within half a unit of the value, ties to the even coefficient, for either sign |
| Decimals.RoundedOnce | src/account_service/db.py:216 | a sum and a unary minus are the exact result rounded once |
| Decimals.RoundExactIff | src/account_service/db.py:212-216 | rounding leaves a number alone exactly when some 28-digit decimal equals it |
| Decimals.AddExactIff | src/account_service/db.py:216 | a decimal sum is the true sum exactly when that sum needs at most 28 digits |
| Decimals.NegateExactIff | src/account_service/db.py:216 | unary minus is exact exactly when the amount needs at most 28 digits |
| Timestamps.TimestampRoundTrip | src/event_ledger_common/time.py:36-54 | parsing what was printed gives the same instant, for every UTC datetime |
| Timestamps.ParsesExactly | src/event_ledger_common/time.py:47-54 | what is parsed is exactly what is printed, apart from a zero fraction written out and the two ways to write UTC |
| Timestamps.FormatInjective | src/event_ledger_common/time.py:36-44 | two instants have the same text exactly when they are equal |
| Timestamps.FormatShape | src/event_ledger_common/time.py:43-44 | `isoformat` followed by the replacement of the offset gives the stamp, a fraction only for non-zero microseconds, and `Z` |
| Timestamps.FormatFields | src/event_ledger_common/time.py:43-44 | every field can be read off the text at its place, between the separators of ISO 8601 |
| Timestamps.CalendarLaw | src/event_ledger_common/time.py:36 | months and leap years make up the Gregorian calendar that `datetime` admits |
| Timestamps.EarlierIsFewerMicroseconds | src/event_ledger_common/time.py:36 | comparing fields is comparing microseconds since the calendar began |
| Text.LessIff | src/gateway_service/db.py:195 | texts are ordered by the first character in which they differ, a proper prefix first |
| Timestamps.TextOrder | src/gateway_service/db.py:195 | stored text sorts by (whole second, has no fraction, microsecond), for all UTC datetimes |
| Timestamps.TextOrderIsTimeOrderIff | src/gateway_service/db.py:195 | text order equals time order for a pair exactly unless they share a second and one alone has a fraction |
| Timestamps.FractionSortsBeforeItsSecond | src/event_ledger_common/time.py:43-44 | a concrete pair whose stored order contradicts time |
| Contracts.SameEventIff | src/gateway_service/main.py:329-337 | two payloads are the same event exactly when at most the way the amount is written differs |
| Contracts.SameEventAgrees | src/gateway_service/main.py:322-337 | the handler's comparison and the repositories' text-based one agree on all pairs |
| Contracts.SameEventEquivalence | src/gateway_service/db.py:240-248 | both comparisons are reflexive, symmetric and transitive |
| Contracts.WireKeepsSame | src/event_ledger_common/contracts.py:98-107 | the same event sent twice is the same event on arrival, however its amount was written |
| Rows.BalanceAfterInsert | src/account_service/db.py:197-218 | a new credit row adds its amount to its own account's balance, a new debit row subtracts it, and no other balance moves |
| Rows.BalanceIsCreditsMinusDebits | src/account_service/db.py:197-218 | a balance is the sum of the account's credits minus the sum of its debits |
| Rows.ListingTotal | src/account_service/db.py:204-216 | every order of the same rows has the same sum |
| Rows.OrderedRows | src/gateway_service/db.py:189-199 | the sorted query returns each of the rows once, by stored timestamp, and by event id where timestamps are equal |
| Rows.SortedListingUnique | src/gateway_service/db.py:182-199 | the sorted history is determined by the set of rows, whatever the arrival order |
| Rows.HistoryInversion | src/gateway_service/db.py:182-199 | a sorted history goes back in time between two rows exactly where a fraction precedes its own whole second |
| AccountLedger.ApplyKeepsLedger | src/account_service/db.py:132-177 | rows stay under their own ids, with one currency per account, after any delivery |
| AccountLedger.ApplyMovesMoneyOnce | src/account_service/db.py:132-177 | a delivery alters no row, adds at most its own, and moves the balance exactly when it adds it, up for a credit and down for a debit |
| AccountLedger.StatusForIs | src/account_service/main.py:124-153 | each status of the route, condition by condition on the payload and the rows |
| AccountLedger.RedeliveryIsHarmless | src/account_service/db.py:133-137 | after a success, any redelivery of the same event is a replay that changes nothing |
| AccountLedger.RefusedOnlyWhenNecessary | src/account_service/db.py:133-143 | conflict and currency mismatch are answered exactly when the id stands for another event, or the row would mix currencies |
| AccountLedger.RefusedForever | src/account_service/db.py:133-143 | an event refused once is refused by every larger table and is on record in none |
| AccountLedger.SuccessMeansRecorded | src/account_service/main.py:124-153 | a status below 400 is returned exactly when the very event is then on record, 201 exactly when the table changed |
| AccountLedger.AnyRowDecidesCurrency | src/account_service/db.py:246-262 | under one currency per account any row the unordered `LIMIT 1` returns gives the same verdict |
| AccountLedger.FirstCurrencyOrderFree | src/account_service/db.py:213-217 | the first currency seen by the fold is the same in every row order |
| AccountLedger.RunningBalanceExact | src/account_service/db.py:212-216 | positive multiples of 10^-s that sum to less than 10^(28-s) are folded without any rounding |
| AccountLedger.RunningBalanceExactIff | src/account_service/db.py:212-216 | in one row order no operation rounds exactly when every partial sum and every debited amount fits in 28 digits |
| AccountLedger.BalanceOrderFree | src/account_service/db.py:197-218 | the fold is exact at every stage in every row order exactly when the sum of any of the rows fits in 28 digits; every order then yields credits minus debits, each summed on its own |
| AccountLedger.BoundIsEnough | src/account_service/db.py:212-216 | positive multiples of 10^-s that sum to less than 10^(28-s) meet that condition |
| PrecisionLimit.BalanceCanDependOnOrder | src/account_service/db.py:204-216 | three deliveries make a table two of whose listings have different computed balances |
| AccountService.AccountRepository.SelectForAccount | src/account_service/db.py:204-211 | the query returns exactly the account's rows, each once, in any order |
| AccountService.AccountRepository.SelectOrdered | src/account_service/db.py:228-238 | the same rows by stored timestamp, and by event id where timestamps are equal |
| AccountService.AccountRepository.AccountCurrency | src/account_service/db.py:246-262 | none for an account without rows, otherwise the currency of some row |
| AccountService.AccountRepository.ApplyTransaction | src/account_service/db.py:121-177 | a new row exactly for a new id in the account's currency, a replay exactly for an event equal up to the way its amount is written, and nothing else changes |
| AccountService.AccountRepository.GetBalance | src/account_service/db.py:197-218 | the fold over some row order; the credits minus the debits whenever the sums of the rows fit in 28 digits; the account's one currency |
| AccountService.AccountRepository.GetAccountDetails | src/account_service/db.py:220-244 | the balance over all rows with the first `limit` rows of the one sorted history; their sum is the balance when all are listed |
| AccountService.AccountApi.PostTransaction | src/account_service/main.py:104-153 | validation, path check and statuses, with the one counter of each outcome |
| Deliveries.OrderAndRepeatsDoNotMatter | src/account_service/db.py:132-177 | consistent deliveries of the same events, in any order with any repeats, end in the same table apart from `applied_at`, and the same balances |
| Deliveries.PairOrderIff | src/account_service/db.py:132-143 | two events may arrive in either order without a trace exactly when they agree on id and currency |
| Deliveries.MoneyMovesOnce | src/account_service/db.py:132-177 | over any deliveries, each id takes effect at most once and the balance moves by exactly the effective events |
| GatewayLedger.GatewayRepository.InsertAppliedEvent | src/gateway_service/db.py:108-162 | a new id is recorded once, the same event is returned unwritten, another event under the id is refused |
| GatewayLedger.GatewayRepository.ListEventsForAccount | src/gateway_service/db.py:182-199 | the account's events by stored timestamp and then event id, the only such listing, never going back by a whole second |
| Breaker.Clamp | src/gateway_service/account_client.py:93-96 | a setting in range is kept and any other ends up at the bound |
| Breaker.BreakerClosedForm | src/gateway_service/account_client.py:237-256 | for any interleaving the fields are the failures since the last success and, from the threshold on, the reading of the latest failure |
| Breaker.BreakerRefinesCircuit | src/gateway_service/account_client.py:222-256 | the fields follow a closed/open circuit in which one failed probe reopens and any response below 500 closes |
| Breaker.OutageAdmissionsBound | src/gateway_service/account_client.py:222-256 | of calls one at a time to a dead service at most threshold + floor(elapsed / reset) are let through |
| Breaker.AdmitsIff | src/gateway_service/account_client.py:222-235 | the test on the fields lets a call through exactly with fewer than threshold failures in a row, or one window after the last of them |
| AccountClient.RetriesAreOneDelivery | src/gateway_service/account_client.py:168-217 | after any pattern of losses and 5xx the Account table is unchanged or as after the first attempt that got through |
| AccountClient.RetriedReply | src/gateway_service/account_client.py:194-217 | a reply after retries succeeds or fails as a single delivery would have, and a rejection changed nothing |
| AccountClient.RetriesRecord | src/gateway_service/account_client.py:168-217 | retries only add rows, and after a success reply the event is on record |
| AccountClient.BackoffClosedForm | src/gateway_service/account_client.py:188-189 | the pauses before attempt k add up to backoff * (2^(k-1) - 1) |
| AccountClient.HttpAccountClient.EnsureCircuitAllowsRequest | src/gateway_service/account_client.py:222-235 | whatever calls were recorded, a call is allowed exactly with fewer than threshold failures in a row, or one window after the last of them |
| AccountClient.HttpAccountClient.Request | src/gateway_service/account_client.py:144-220 | attempts, pauses, one breaker update, the outcome and the Account table after a call; the code after the loop is never reached |
| AccountClient.HttpAccountClient.ApplyTransaction | src/gateway_service/account_client.py:102-114 | an event is sent to its own account, nothing changed but its amount; when it is sent, which attempt ends the call, and the row on record after a success |
| AccountClient.CallThroughOutage | src/gateway_service/account_client.py:168-207 | calls one at a time to a dead service make at most max_attempts * (threshold + floor(elapsed / reset)) network attempts, as the client itself makes them |
| EventGateway.Gateway.SubmitEvent | src/gateway_service/main.py:122-194 | one submission: exactly when each status is given and a request is sent, both tables, the one counter of each outcome, and every Gateway row backed by an Account row |
| Metrics.Bump | src/event_ledger_common/metrics.py:66-79 | one counter moves by the amount and no other |
| Metrics.MetricsRegistry.RecordRequest | src/event_ledger_common/metrics.py:41-58 | every request is counted, and as an error exactly from 500 on |
| Metrics.MetricsRegistry.RecordDomainEvent | src/event_ledger_common/metrics.py:66-79 | an amount below one is refused without a trace |
| ProtocolInvariant.StepKeepsInv | src/gateway_service/main.py:137-194 | every step of any interleaving keeps the system invariant, with losses, late arrivals, server errors and crashes |
| ProtocolInvariant.ReachableInv | src/gateway_service/main.py:137-194 | the invariant holds in every reachable state |
| ProtocolMoney.GatewayRowsAreBacked | src/gateway_service/main.py:156-176 | in every reachable state each Gateway row has an Account row that differs in the amount alone, and there only by the conversion |
| ProtocolMoney.MoneyExactlyOnce | src/account_service/db.py:132-177 | in every reachable state a balance is the signed sum of deliveries with distinct ids, each of them a submission with nothing but its amount converted |
| ProtocolMoney.RowsAreForever | src/gateway_service/db.py:119-162 | no run alters or removes a row of either table |
| ProtocolMoney.AnswersStand | src/gateway_service/main.py:140-194 | 200 and 201 mean in both tables for ever, a conflict means another event for ever, any other 4xx means in neither table ever |
| ProtocolBreaker.BreakerTellsHistory | src/gateway_service/account_client.py:237-256 | in every reachable state the breaker is open exactly from the threshold on, since the latest failure |
| ProtocolBreaker.FreshEventIsSentIff | src/gateway_service/account_client.py:222-235 | in every reachable state a new event is sent exactly with fewer than threshold failures in a row, or one window after the last of them, and the breaker stays as it is |
| ProtocolBreaker.AllAreAdmitted | src/gateway_service/account_client.py:222-235 | from any state that admits one call, any number of submissions is sent before one of the calls ends |
| ProtocolBreaker.HalfOpenAdmitsAll | src/gateway_service/account_client.py:222-235 | for any submissions some run opens the circuit, lets the window pass and has all of them waiting at once |
| ProtocolMoney.RunsConverge | src/account_service/db.py:132-177 | two runs in which the same agreeing events arrived end with the same Account rows and balances |
| ProtocolMeters.OutcomesConserved | src/gateway_service/main.py:80-194 | counted and finished requests equal the outcome counters and the refused malformed submissions; errors equal unavailable; accepted equals rows written; one 201 for each id on record |
| ProtocolTallies.EachOutcomeCounted | src/gateway_service/main.py:140-194 | each outcome counter is the number of handlers that gave that answer, plus what the read routes add |
| ProtocolLifecycle.HandlerMoves | src/gateway_service/account_client.py:168-217 | which moves a handler can make, with the request each sends and the one result each ended call records on the breaker |
| ProtocolLifecycle.HeardOnlyAtTheEnd | src/gateway_service/account_client.py:237-256 | the breaker changes only when a handler's call or a read ends |
| ProtocolHandlers.CreatedOnce | src/gateway_service/main.py:175-188 | two handlers that answered 201 did so for different event ids |
| ProtocolRecovery.Recovery | src/gateway_service/main.py:140-194 | from any reachable state, after at most one reset window, one fault-free submission settles the event; exactly when it succeeds, and exactly when the balance moves |
| ProtocolConflicts.LateConflictIff | src/gateway_service/main.py:175-182 | for any two events the conflict after a successful call is reachable between them exactly when they differ and the float conversion confuses them |
| ProtocolConflicts.FaithfulWireNeverConflictsLate | src/gateway_service/main.py:175-182 | no handler gets there in a run whose submitted events stay different on the wire |
| ProtocolConflicts.IdentityWireNeverConflictsLate | src/gateway_service/main.py:175-182 | a conversion that changes no amount is a valid one, and no handler gets there |
| ProtocolUnavailable.UnavailableTellsNothing | src/gateway_service/main.py:165-170 | a 503 after failed calls can be given with the event applied exactly when both services accept it, and with the event not applied exactly when the Gateway accepts it |
| ProtocolUnavailable.UnavailableMayBeApplied | src/gateway_service/main.py:165-170 | the 503 may go to the only submission of an event whose money has moved |
| ProtocolUnavailable.CircuitOpenSendsNothing | src/gateway_service/main.py:158-164 | a handler that answered 503 has sent a request exactly when its calls failed; from an open circuit nothing was sent, and nothing is ever handled on its account |
| ProtocolUnavailable.HandledIsDecided | src/account_service/main.py:124-153 | once a request of a handler has been handled, its event is on record or refused for ever |

## Left out

- FastAPI, Pydantic, httpx and SQLite themselves: tables are maps by event id, requests and replies are messages, and validation is a predicate on payloads.
- Transport errors the client does not catch, reply bodies that are not JSON, and 3xx replies.
- The float algorithm: amounts pass through an arbitrary function of their value. An amount the conversion makes zero is refused by the Account Service with 422, as modelled; overflow to infinity is not.
- Exponent limits of the decimal context: exponents are unbounded.
- Timezone conversion of submitted times, and the refusal of naive ones: a payload's time is a UTC datetime from the start.
- Timestamps.ParseTimestamp: reads the forms `isoformat` prints, and a zero fraction written out; `fromisoformat` accepts more, which the databases never hold.
- Whitespace stripping and upper-casing of ids and currency, and URL encoding of ids: payloads are taken as normalised, ids as path-safe.
- Metadata: a map compared by equality that storage and the wire keep.
- AccountClient.CallThroughOutage: calls one at a time, because overlapping calls are all admitted in the half-open window.
- Deliveries.OrderAndRepeatsDoNotMatter: consistent deliveries only; `Deliveries.PairOrderIff` shows that two events that disagree leave a trace of their order.
- The read routes of the Gateway: in the step system they only record a result on the shared breaker and count an unavailable service.
- Latency figures, the metrics snapshot, logging, trace headers, health checks and configuration.
- Locks and threads: repository calls are single steps.
