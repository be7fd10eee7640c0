/** Past 28 digits the documented balance and the computed one part: arrival order can show. */
module PrecisionLimit {
  import opened AccountLedger
  import opened Contracts
  import opened Decimals
  import opened Deliveries
  import opened Numerals
  import opened Rows
  import opened Timestamps

  const Noon: Utc := Fields(2026, 5, 15, 12, 0, 0, 0)

  function CreditRow(id: string, amount: Decimal): TransactionRecord {
    Row(EventPayload(id, "acct", Credit, amount, "USD", Noon, map[]), AccountAudit(Noon))
  }

  const Big := CreditRow("big", Decimal(1, PRECISION))
  const FourA := CreditRow("a", Decimal(4, 0))
  const FourB := CreditRow("b", Decimal(4, 0))

  const Arrivals := [Delivery(Big.payload, Noon), Delivery(FourA.payload, Noon), Delivery(FourB.payload, Noon)]

  /** The table after these three events have arrived. */
  const Held: Transactions := map["big" := Big, "a" := FourA, "b" := FourB]

  lemma DigitsAre(n: nat, d: nat)
    requires d >= 1 && (d == 1 || Pow10(d - 1) <= n) && n < Pow10(d)
    ensures Digits(n) == d
  {
    DigitsBound(n);
    if Digits(n) < d {
      Pow10Monotone(Digits(n), d - 1);
    } else if Digits(n) > d {
      Pow10Monotone(d, Digits(n) - 1);
    }
  }

  /** A 29-digit number loses its last digit: down from 4, up from 6. */
  lemma DropLastDigit(n: nat, q: nat, r: nat)
    requires Digits(n) == PRECISION + 1 && n == q * 10 + r && r < 10 && r != 5 && q + 1 < Pow10(PRECISION)
    ensures Round(Decimal(n, 0)) == Decimal(if r < 5 then q else q + 1, 1)
  {
    assert Pow10(1) == 10;
    DivUnique(n, 10, q, r);
    assert Cut(n, 1) == (if r < 5 then q else q + 1, 1);
  }

  /** Adding a small whole number `r` to `10^28`, in either order. */
  lemma AddToTop(x: Decimal, y: Decimal, top: nat, r: nat)
    requires top == Pow10(PRECISION - 1) && r < 10 && r != 5
    requires ExactSum(x, y) == Decimal(10 * top + r, 0)
    ensures Add(x, y) == Decimal(if r < 5 then top else top + 1, 1)
  {
    hide Round, Digits, ExactSum;
    var n := top * 10 + r;
    Pow10Monotone(1, PRECISION - 1);
    assert Pow10(1) == 10;
    TopDigits(top, r);
    DropLastDigit(n, top, r);
  }

  lemma TopDigits(top: nat, r: nat)
    requires top == Pow10(PRECISION - 1) && r < 10
    ensures Digits(top * 10 + r) == PRECISION + 1 && top + 1 < Pow10(PRECISION)
  {
    Pow10Monotone(1, PRECISION - 1);
    assert Pow10(1) == 10 && Pow10(PRECISION) == 10 * top && Pow10(PRECISION + 1) == 10 * Pow10(PRECISION);
    DigitsAre(top * 10 + r, PRECISION + 1);
  }

  /** Aligning a whole number with `c * 10^e`. */
  lemma SumAtUnits(a: nat, c: nat, e: nat, scale: nat)
    requires scale == Pow10(e)
    ensures ExactSum(Decimal(a, 0), Decimal(c, e)) == Decimal(a + c * scale, 0)
    ensures ExactSum(Decimal(c, e), Decimal(a, 0)) == Decimal(a + c * scale, 0)
  {
  }

  lemma SmallSum(a: nat, b: nat)
    requires a + b < 10
    ensures Add(Decimal(a, 0), Decimal(b, 0)) == Decimal(a + b, 0)
  {
  }

  lemma UnfoldThree(x: TransactionRecord, y: TransactionRecord, z: TransactionRecord)
    requires x.payload.kind == y.payload.kind == z.payload.kind == Credit
    ensures RunningBalance([x, y, z])
            == Add(Add(Add(Decimal(0, 0), x.payload.amount), y.payload.amount), z.payload.amount)
  {
    FoldStep([], x);
    FoldStep([x], y);
    FoldStep([x, y], z);
    assert [] + [x] == [x] && [x] + [y] == [x, y] && [x, y] + [z] == [x, y, z];
  }

  lemma FoldStep(rows: seq<TransactionRecord>, row: TransactionRecord)
    ensures RunningBalance(rows + [row]) == Add(RunningBalance(rows), SignedDecimal(row.payload))
  {
  }

  /**
   Three deliveries to an empty table make a table whose rows the fold may read in two orders with
   different results: `10^28 + 4 + 4` comes out as `10^28`, but `4 + 4 + 10^28` as `10^28 + 10`.
   */
  lemma BalanceCanDependOnOrder()
    ensures Held == DeliverAll(map[], Arrivals)
    ensures ValidLedger(Held)
    ensures Listing([Big, FourA, FourB], Held, AccountIds(Held, "acct"))
    ensures Listing([FourA, FourB, Big], Held, AccountIds(Held, "acct"))
    ensures Value(RunningBalance([Big, FourA, FourB])) != Value(RunningBalance([FourA, FourB, Big]))
  {
    HeldIsReached();
    HeldListings();
    BothOrders(Pow10(PRECISION - 1));
  }

  lemma HeldListings()
    ensures ValidLedger(Held)
    ensures Listing([Big, FourA, FourB], Held, AccountIds(Held, "acct"))
    ensures Listing([FourA, FourB, Big], Held, AccountIds(Held, "acct"))
  {
    assert |"big"| == 3 && "a"[0] != "b"[0];
    var ids := {"big", "a", "b"};
    assert Held.Keys == ids;
    forall id | id in ids ensures id in AccountIds(Held, "acct") && ValidPayload(Held[id].payload) {
    }
    assert AccountIds(Held, "acct") == ids;
    assert Keyed(Held) && OneCurrency(Held);
    hide Listing;
    ListsThree(Held, Big, FourA, FourB);
    ListsThree(Held, FourA, FourB, Big);
    assert ids == {"a", "b", "big"};
  }

  lemma ListsThree(table: Transactions, x: TransactionRecord, y: TransactionRecord, z: TransactionRecord)
    requires Keyed(table) && forall r <- [x, y, z] :: r.payload.eventId in table && table[r.payload.eventId] == r
    requires x.payload.eventId != y.payload.eventId && y.payload.eventId != z.payload.eventId
    requires z.payload.eventId != x.payload.eventId
    ensures Listing([x, y, z], table, {x.payload.eventId, y.payload.eventId, z.payload.eventId})
  {
    var rows := [x, y, z];
    assert x in rows && y in rows && z in rows;
  }

  lemma HeldIsReached()
    ensures Held == DeliverAll(map[], Arrivals)
  {
    hide DeliverAll, Clashes;
    assert |"big"| == 3 && "a"[0] != "b"[0];
    var d1, d2, d3 := Delivery(Big.payload, Noon), Delivery(FourA.payload, Noon), Delivery(FourB.payload, Noon);
    DeliverNext([], map[], Big);
    DeliverNext([d1], map["big" := Big], FourA);
    DeliverNext([d1, d2], map["big" := Big, "a" := FourA], FourB);
    assert [] + [d1] == [d1] && [d1] + [d2] == [d1, d2] && [d1, d2] + [d3] == [d1, d2, d3];
    NothingDelivered();
  }

  lemma NothingDelivered()
    ensures DeliverAll(map[], []) == map[]
  {
  }

  /** A delivery in the table's one currency, under a new id, is recorded. */
  lemma DeliverNext(ds: seq<Delivery>, table: Transactions, row: TransactionRecord)
    requires ValidPayload(row.payload) && row.payload.eventId !in table && row.audit == AccountAudit(Noon)
    requires forall id <- table :: table[id].payload.currency == row.payload.currency
    ensures table == DeliverAll(map[], ds) ==>
              DeliverAll(map[], ds + [Delivery(row.payload, Noon)]) == table[row.payload.eventId := row]
  {
    var e := row.payload;
    assert (ds + [Delivery(e, Noon)])[..|ds|] == ds;
    assert !Clashes(table, e);
  }

  lemma BothOrders(top: nat)
    requires top == Pow10(PRECISION - 1)
    ensures Value(RunningBalance([Big, FourA, FourB])) != Value(RunningBalance([FourA, FourB, Big]))
  {
    hide Round, ExactSum, Add;
    var zero, four, big, kept := Decimal(0, 0), Decimal(4, 0), Decimal(1, PRECISION), Decimal(top, 1);
    assert Pow10(PRECISION) == 10 * top && Pow10(1) == 10;
    UnfoldThree(Big, FourA, FourB);
    SumAtUnits(0, 1, PRECISION, 10 * top);
    AddToTop(zero, big, top, 0);
    SumAtUnits(4, top, 1, 10);
    AddToTop(kept, four, top, 4);
    UnfoldThree(FourA, FourB, Big);
    SmallSum(0, 4);
    SmallSum(4, 4);
    SumAtUnits(8, 1, PRECISION, 10 * top);
    AddToTop(Decimal(8, 0), big, top, 8);
    ShiftMonotone(top as real, (top + 1) as real, 1);
  }
}
