/** The Gateway's own event records: written once, listed by event time. */
module GatewayLedger {
  import opened Contracts
  import opened Decimals
  import opened Rows
  import opened Text
  import opened Timestamps
  import opened Wrappers

  datatype EventStatus = Applied

  datatype EventAudit = EventAudit(status: EventStatus, createdAt: Utc, updatedAt: Utc)

  type EventRecord = Row<EventAudit>
  type Events = Table<EventAudit>

  datatype InsertOutcome = Inserted | Existing | Differs

  /** What recording an applied event does to the table, and what the repository answers. */
  function InsertOnce(table: Events, e: EventPayload, at: Utc): (Events, InsertOutcome) {
    if e.eventId in table then
      (table, if SameEvent(table[e.eventId].payload, e) then Existing else Differs)
    else
      (table[e.eventId := Row(e, EventAudit(Applied, at, at))], Inserted)
  }

  class GatewayRepository {
    var events: Events

    ghost predicate Valid()
      reads this
    {
      Keyed(events)
    }

    constructor ()
      ensures Valid() && events == map[]
    {
      events := map[];
    }

    method GetEvent(eventId: string) returns (record: Option<EventRecord>)
      ensures record == if eventId in events then Some(events[eventId]) else None
    {
      return if eventId in events then Some(events[eventId]) else None;
    }

    /** Records an event the Account Service has applied; a replay is returned without a write. */
    method InsertAppliedEvent(event: EventPayload, now: Utc) returns (outcome: InsertOutcome)
      requires Valid()
      modifies this
      ensures Valid()
      ensures (events, outcome) == InsertOnce(old(events), event, now)
      ensures event.eventId !in old(events) ==>
                outcome.Inserted? && events == old(events)[event.eventId := Row(event, EventAudit(Applied, now, now))]
      ensures event.eventId in old(events) ==>
                var known := old(events)[event.eventId].payload;
                && events == old(events)
                && (outcome.Existing? <==> known == event.(amount := known.amount) && Value(known.amount) == Value(event.amount))
                && (outcome.Differs? <==> !outcome.Existing?)
    {
      var existing := GetEvent(event.eventId);
      if existing.Some? {
        SameEventAgrees(existing.value.payload, event);
        if !SameStoredEvent(existing.value.payload, event) {
          return Differs;
        }
        return Existing;
      }
      events := events[event.eventId := Row(event, EventAudit(Applied, now, now))];
      return Inserted;
    }

    /** The account's events by stored timestamp, then event id: one possible result for one set of rows. */
    method ListEventsForAccount(accountId: string) returns (rows: seq<EventRecord>)
      requires Valid()
      ensures Listing(rows, events, AccountIds(events, accountId)) && StrictlyOrdered(rows)
      ensures forall other :: Listing(other, events, AccountIds(events, accountId)) && StrictlyOrdered(other)
                              ==> other == rows
      ensures forall i, j :: 0 <= i < j < |rows| ==>
                var t, u := rows[i].payload.eventTimestamp, rows[j].payload.eventTimestamp;
                Less(FormatTimestamp(t), FormatTimestamp(u)) || (t == u && Less(rows[i].payload.eventId, rows[j].payload.eventId))
      ensures forall i, j :: 0 <= i < j < |rows|
                ==> !EarlierSecond(rows[j].payload.eventTimestamp, rows[i].payload.eventTimestamp)
    {
      ghost var ids := AccountIds(events, accountId);
      rows := OrderedRows(events, AccountIds(events, accountId));
      OneSortedListing(rows, events, ids);
      forall i, j | 0 <= i < j < |rows|
        ensures !EarlierSecond(rows[j].payload.eventTimestamp, rows[i].payload.eventTimestamp)
      {
        OrderedBySecond(rows, i, j);
      }
    }
  }
}
