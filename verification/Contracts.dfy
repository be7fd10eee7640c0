/** The event payload both services exchange, and when two payloads count as the same event. */
module Contracts {
  import opened Decimals
  import opened Timestamps

  datatype TransactionType = Credit | Debit

  /** Metadata is opaque JSON; only its equality matters. */
  type Metadata = map<string, string>

  datatype EventPayload = EventPayload(
    eventId: string,
    accountId: string,
    kind: TransactionType,
    amount: Decimal,
    currency: string,
    eventTimestamp: Utc,
    metadata: Metadata)

  /** What request validation accepts. */
  predicate ValidPayload(e: EventPayload) {
    e.eventId != "" && e.accountId != "" && e.amount.coef > 0 && |e.currency| == 3
  }

  /** Everything but the amount and the time. */
  predicate SameDetails(a: EventPayload, b: EventPayload) {
    && a.eventId == b.eventId && a.accountId == b.accountId && a.kind == b.kind
    && a.currency == b.currency && a.metadata == b.metadata
  }

  /** The handler's comparison: amounts as numbers, times as datetimes. */
  predicate SameEvent(a: EventPayload, b: EventPayload) {
    SameDetails(a, b) && SameAmount(a.amount, b.amount) && a.eventTimestamp == b.eventTimestamp
  }

  /** The repositories' comparison: amounts as numbers, times as stored text. */
  predicate SameStoredEvent(a: EventPayload, b: EventPayload) {
    && SameDetails(a, b) && SameAmount(a.amount, b.amount)
    && FormatTimestamp(a.eventTimestamp) == FormatTimestamp(b.eventTimestamp)
  }

  /** The same event: nothing differs but the way the amount is written. */
  lemma SameEventIff(a: EventPayload, b: EventPayload)
    ensures SameEvent(a, b) <==> b == a.(amount := b.amount) && Value(b.amount) == Value(a.amount)
  {
  }

  /** The handler and the two repositories never disagree on what a replay is. */
  lemma SameEventAgrees(a: EventPayload, b: EventPayload)
    ensures SameStoredEvent(a, b) <==> SameEvent(a, b)
  {
    FormatInjective(a.eventTimestamp, b.eventTimestamp);
  }

  /** Being a replay is an equivalence, for the text-based comparison as for the other. */
  lemma SameEventEquivalence(a: EventPayload, b: EventPayload, c: EventPayload)
    ensures SameEvent(a, a) && SameStoredEvent(a, a)
    ensures SameEvent(a, b) ==> SameEvent(b, a)
    ensures SameStoredEvent(a, b) ==> SameStoredEvent(b, a)
    ensures SameEvent(a, b) && SameStoredEvent(b, c) ==> SameEvent(a, c) && SameStoredEvent(a, c)
  {
    SameEventAgrees(b, c);
    SameEventAgrees(a, c);
  }

  function Size(e: EventPayload): real {
    Value(e.amount)
  }

  /** What one event adds to its account's balance. */
  function Signed(e: EventPayload): real {
    if e.kind.Credit? then Size(e) else -Size(e)
  }

  lemma SameEventValid(a: EventPayload, b: EventPayload)
    requires SameEvent(a, b)
    ensures ValidPayload(a) <==> ValidPayload(b)
  {
    ValueSign(a.amount);
    ValueSign(b.amount);
  }

  /** Amounts travel between the services as JSON floats; every other field arrives unchanged. */
  function Wire(amounts: Decimal -> Decimal, e: EventPayload): EventPayload {
    e.(amount := amounts(e.amount))
  }

  /** Converting to a float looks at the number only, not at how the decimal is written. */
  ghost predicate Congruent(amounts: Decimal -> Decimal) {
    forall a, b :: SameAmount(a, b) ==> SameAmount(amounts(a), amounts(b))
  }

  lemma WireKeepsSame(amounts: Decimal -> Decimal, a: EventPayload, b: EventPayload)
    requires Congruent(amounts) && SameEvent(a, b)
    ensures SameEvent(Wire(amounts, a), Wire(amounts, b))
  {
  }
}
