/** Sequences of deliveries to the Account Service, in any order and with any repeats. */
module Deliveries {
  import opened AccountLedger
  import opened Contracts
  import opened Decimals
  import opened Rows
  import opened Timestamps

  /** One payload reaching the Account Service, at its own path, at a given time. */
  datatype Delivery = Delivery(payload: EventPayload, at: Utc)

  ghost function Deliver(table: Transactions, d: Delivery): Transactions {
    Respond(table, d.payload.accountId, d.payload, d.at).0
  }

  ghost function DeliverAll(table: Transactions, ds: seq<Delivery>): Transactions {
    if ds == [] then table else Deliver(DeliverAll(table, ds[..|ds| - 1]), ds[|ds| - 1])
  }

  /** One event per id, one currency per account. */
  predicate Agree(a: EventPayload, b: EventPayload) {
    && (a.eventId == b.eventId ==> SameEvent(a, b))
    && (a.accountId == b.accountId ==> a.currency == b.currency)
  }

  ghost predicate Consistent(table: Transactions, ds: seq<Delivery>) {
    && (forall c <- ds, d <- ds :: ValidPayload(c.payload) && ValidPayload(d.payload) ==> Agree(c.payload, d.payload))
    && (forall id <- table, d <- ds :: ValidPayload(d.payload) ==> Agree(table[id].payload, d.payload))
  }

  /** Every valid event of `ds` is delivered by `es` as well. */
  ghost predicate Covers(es: seq<Delivery>, ds: seq<Delivery>) {
    forall d <- ds :: ValidPayload(d.payload) ==> exists e <- es :: SameEvent(e.payload, d.payload)
  }

  /** Equal apart from `applied_at` and the way an amount is written. */
  ghost predicate SameTable(s: Transactions, t: Transactions) {
    s.Keys == t.Keys && forall id <- s :: SameEvent(s[id].payload, t[id].payload)
  }

  /** The id of a row and of every valid delivery is on record with that very event, and nothing else is. */
  ghost predicate Absorbed(before: Transactions, ds: seq<Delivery>, after: Transactions) {
    && Extends(before, after)
    && (forall d <- ds :: ValidPayload(d.payload) ==>
          d.payload.eventId in after && SameEvent(after[d.payload.eventId].payload, d.payload))
    && (forall id <- after :: id in before
          || exists d <- ds :: ValidPayload(d.payload) && d.payload.eventId == id && after[id].payload == d.payload)
  }

  lemma {:induction false} DeliveriesAbsorbed(table: Transactions, ds: seq<Delivery>)
    requires ValidLedger(table) && Consistent(table, ds)
    ensures ValidLedger(DeliverAll(table, ds)) && Absorbed(table, ds, DeliverAll(table, ds))
    decreases |ds|
  {
    if ds != [] {
      var front, last := ds[..|ds| - 1], ds[|ds| - 1];
      assert last in ds && forall d <- front :: d in ds;
      DeliveriesAbsorbed(table, front);
      assert forall d <- ds :: d in front || d == last by { assert ds == front + [last]; }
      AbsorbOne(table, front, ds, last, DeliverAll(table, front));
    }
  }

  lemma AbsorbOne(table: Transactions, front: seq<Delivery>, ds: seq<Delivery>, last: Delivery, mid: Transactions)
    requires ValidLedger(mid) && Absorbed(table, front, mid) && Consistent(table, ds) && last in ds
    requires (forall d <- front :: d in ds) && forall d <- ds :: d in front || d == last
    ensures ValidLedger(Deliver(mid, last)) && Absorbed(table, ds, Deliver(mid, last))
  {
    var e := last.payload;
    if ValidPayload(e) {
      ApplyKeepsLedger(mid, e, last.at);
      forall id | id in mid ensures Agree(mid[id].payload, e) {
        if id !in table {
          var d :| d in front && ValidPayload(d.payload) && d.payload.eventId == id && mid[id].payload == d.payload;
        }
      }
      assert !Clashes(mid, e);
      var after := Deliver(mid, last);
      if e.eventId !in mid {
        assert after == mid[e.eventId := Row(e, AccountAudit(last.at))];
      } else {
        assert Agree(mid[e.eventId].payload, e);
        assert after == mid;
      }
    }
  }

  /** Which events were delivered decides the table and every balance; order and repeats do not. */
  lemma {:induction false} OrderAndRepeatsDoNotMatter(table: Transactions, ds: seq<Delivery>, es: seq<Delivery>, account: string)
    requires ValidLedger(table) && Consistent(table, ds) && Consistent(table, es)
    requires Covers(es, ds) && Covers(ds, es)
    ensures SameTable(DeliverAll(table, ds), DeliverAll(table, es))
    ensures Balance(DeliverAll(table, ds), account) == Balance(DeliverAll(table, es), account)
  {
    var s, t := DeliverAll(table, ds), DeliverAll(table, es);
    DeliveriesAbsorbed(table, ds);
    DeliveriesAbsorbed(table, es);
    CoveredRows(table, ds, es, s, t);
    CoveredRows(table, es, ds, t, s);
    BalanceSame(s, t, account);
  }

  lemma CoveredRows(table: Transactions, ds: seq<Delivery>, es: seq<Delivery>, s: Transactions, t: Transactions)
    requires Absorbed(table, ds, s) && Absorbed(table, es, t) && Covers(es, ds)
    ensures forall id <- s :: id in t && SameEvent(s[id].payload, t[id].payload)
  {
    forall id | id in s ensures id in t && SameEvent(s[id].payload, t[id].payload) {
      if id !in table {
        var d :| d in ds && ValidPayload(d.payload) && d.payload.eventId == id && s[id].payload == d.payload;
        var e :| e in es && SameEvent(e.payload, d.payload);
        SameEventValid(e.payload, d.payload);
      }
    }
  }

  /** Two events may arrive in either order without a trace exactly when they agree. */
  lemma PairOrderIff(a: EventPayload, b: EventPayload, at: Utc)
    requires ValidPayload(a) && ValidPayload(b)
    ensures SameTable(DeliverAll(map[], [Delivery(a, at), Delivery(b, at)]),
                      DeliverAll(map[], [Delivery(b, at), Delivery(a, at)]))
            <==> Agree(a, b)
  {
    DeliverTwo(a, b, at);
    DeliverTwo(b, a, at);
  }

  lemma DeliverTwo(a: EventPayload, b: EventPayload, at: Utc)
    requires ValidPayload(a) && ValidPayload(b)
    ensures var first: Transactions := map[a.eventId := Row(a, AccountAudit(at))];
            DeliverAll(map[], [Delivery(a, at), Delivery(b, at)])
            == if a.eventId == b.eventId || (a.accountId == b.accountId && a.currency != b.currency) then first
               else first[b.eventId := Row(b, AccountAudit(at))]
  {
    var ds := [Delivery(a, at), Delivery(b, at)];
    var first: Transactions := map[a.eventId := Row(a, AccountAudit(at))];
    assert ds[..1] == [Delivery(a, at)] && ds[..1][..0] == [];
    var none: Transactions := map[];
    assert !Clashes(none, a);
    assert DeliverAll(none, ds[..1]) == first by { assert DeliverAll(none, []) == none; }
    assert Clashes(first, b) <==> a.accountId == b.accountId && a.currency != b.currency by {
      assert a.accountId == b.accountId ==> a.eventId in AccountIds(first, b.accountId);
    }
  }

  // ---- money ------------------------------------------------------------------------------

  /** The deliveries answered with 201, in order. */
  ghost function Effective(table: Transactions, ds: seq<Delivery>): seq<EventPayload> {
    if ds == [] then []
    else
      var front, last := ds[..|ds| - 1], ds[|ds| - 1];
      var status := Respond(DeliverAll(table, front), last.payload.accountId, last.payload, last.at).1;
      Effective(table, front) + if status == 201 then [last.payload] else []
  }

  /** Credits minus debits among the events of one account. */
  ghost function SignedSum(events: seq<EventPayload>, account: string): real {
    if events == [] then 0.0
    else
      var last := events[|events| - 1];
      SignedSum(events[..|events| - 1], account)
      + if last.accountId != account then 0.0 else if last.kind.Credit? then Value(last.amount) else -Value(last.amount)
  }

  /** The ids in `after` are those of `table` and of `events`, none of them twice. */
  ghost predicate IdsAdd(table: Transactions, events: seq<EventPayload>, after: Transactions) {
    && (forall id :: id in after <==> id in table || exists e <- events :: e.eventId == id)
    && (forall e <- events :: e.eventId !in table)
    && (forall i, j :: 0 <= i < j < |events| ==> events[i].eventId != events[j].eventId)
  }

  lemma IdsAddOne(table: Transactions, events: seq<EventPayload>, mid: Transactions, after: Transactions, e: EventPayload)
    requires IdsAdd(table, events, mid) && e.eventId !in mid && after.Keys == mid.Keys + {e.eventId}
    ensures IdsAdd(table, events + [e], after)
  {
  }

  /**
   Over any deliveries at all, consistent or not: each event id takes effect at most once, rows
   are never altered or removed, and the balance moves by exactly the effective events.
   */
  lemma {:induction false} MoneyMovesOnce(table: Transactions, ds: seq<Delivery>, account: string)
    ensures var after, events := DeliverAll(table, ds), Effective(table, ds);
            && Extends(table, after) && IdsAdd(table, events, after)
            && Balance(after, account) == Balance(table, account) + SignedSum(events, account)
    decreases |ds|
  {
    if ds != [] {
      var front, last := ds[..|ds| - 1], ds[|ds| - 1];
      MoneyMovesOnce(table, front, account);
      EffectOfOne(table, Effective(table, front), DeliverAll(table, front), last, account);
    }
  }

  lemma EffectOfOne(table: Transactions, before: seq<EventPayload>, mid: Transactions, last: Delivery, account: string)
    requires IdsAdd(table, before, mid)
    ensures var e := last.payload;
            var events := before + if Respond(mid, e.accountId, e, last.at).1 == 201 then [e] else [];
            && Extends(mid, Deliver(mid, last)) && IdsAdd(table, events, Deliver(mid, last))
            && Balance(Deliver(mid, last), account) - Balance(mid, account)
               == SignedSum(events, account) - SignedSum(before, account)
  {
    hide SameEvent, Balance, Clashes;
    var e := last.payload;
    ApplyMovesMoneyOnce(mid, e, last.at, account);
    if Respond(mid, e.accountId, e, last.at).1 == 201 {
      IdsAddOne(table, before, mid, Deliver(mid, last), e);
      assert (before + [e])[..|before|] == before;
    } else {
      assert before + [] == before;
    }
  }

  lemma {:induction false} EffectiveAreDelivered(table: Transactions, ds: seq<Delivery>)
    ensures forall e <- Effective(table, ds) :: exists d <- ds :: d.payload == e
    decreases |ds|
  {
    if ds != [] {
      var front, last := ds[..|ds| - 1], ds[|ds| - 1];
      EffectiveAreDelivered(table, front);
      assert last in ds && forall d <- front :: d in ds;
      forall e | e in Effective(table, ds) ensures exists d <- ds :: d.payload == e {
        if e in Effective(table, front) {
          var d :| d in front && d.payload == e;
        } else {
          assert e == last.payload;
        }
      }
    }
  }
}
