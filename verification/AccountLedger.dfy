/** Account state: applying events once, one currency per account, balances and histories. */
module AccountLedger {
  import opened Contracts
  import opened Decimals
  import opened Numerals
  import opened Rows
  import opened Timestamps
  import opened Wrappers

  datatype AccountAudit = AccountAudit(appliedAt: Utc)

  type TransactionRecord = Row<AccountAudit>
  type Transactions = Table<AccountAudit>

  datatype Outcome = Created | Replayed | Conflict | CurrencyMismatch

  // ---- applying one event -----------------------------------------------------------------

  /** Some row of the event's account is in another currency. */
  ghost predicate Clashes(table: Transactions, e: EventPayload) {
    exists id <- AccountIds(table, e.accountId) :: table[id].payload.currency != e.currency
  }

  /** What one delivery does to the table, and what the repository answers. */
  ghost function ApplyOnce(table: Transactions, e: EventPayload, at: Utc): (Transactions, Outcome) {
    if e.eventId in table then
      (table, if SameEvent(table[e.eventId].payload, e) then Replayed else Conflict)
    else if Clashes(table, e) then
      (table, CurrencyMismatch)
    else
      (table[e.eventId := Row(e, AccountAudit(at))], Created)
  }

  ghost predicate OneCurrency(table: Transactions) {
    forall a <- table, b <- table :: table[a].payload.accountId == table[b].payload.accountId
                                     ==> table[a].payload.currency == table[b].payload.currency
  }

  /** Holds of every table the service can build. */
  ghost predicate ValidLedger(table: Transactions) {
    Keyed(table) && OneCurrency(table) && forall id <- table :: ValidPayload(table[id].payload)
  }

  lemma ApplyKeepsLedger(table: Transactions, e: EventPayload, at: Utc)
    requires ValidLedger(table) && ValidPayload(e)
    ensures ValidLedger(ApplyOnce(table, e, at).0)
  {
  }

  /** Rows are never altered or removed, and the money moves exactly when a row is created. */
  lemma ApplyMovesMoneyOnce(table: Transactions, e: EventPayload, at: Utc, account: string)
    ensures var (after, outcome) := ApplyOnce(table, e, at);
            && Extends(table, after)
            && after.Keys == table.Keys + (if outcome.Created? then {e.eventId} else {})
            && (outcome.Created? ==> e.eventId !in table)
            && (outcome.Created? ==> after[e.eventId] == Row(e, AccountAudit(at)))
            && Balance(after, account)
               == Balance(table, account)
                  + if !outcome.Created? || e.accountId != account then 0.0
                    else if e.kind.Credit? then Value(e.amount) else -Value(e.amount)
  {
    if e.eventId !in table && !Clashes(table, e) {
      BalanceAfterInsert(table, Row(e, AccountAudit(at)), account);
    }
  }

  /** After a success every further delivery of the same event is answered as a replay and changes nothing. */
  lemma RedeliveryIsHarmless(table: Transactions, e: EventPayload, at: Utc, again: EventPayload, later: Utc)
    requires SameEvent(e, again)
    ensures var (after, outcome) := ApplyOnce(table, e, at);
            outcome.Created? || outcome.Replayed? ==> ApplyOnce(after, again, later) == (after, Replayed)
  {
  }

  /** What the Account Service answers, condition by condition. */
  lemma StatusForIs(table: Transactions, path: string, e: EventPayload)
    requires Keyed(table)
    ensures var code := StatusFor(table, path, e);
            && (code == 422 <==> e.eventId == "" || e.accountId == "" || Value(e.amount) <= 0.0 || |e.currency| != 3)
            && (code == 400 <==> code != 422 && e.accountId != path)
            && (code == 200 || code == 409 || code == 201 <==> code != 422 && code != 400)
            && (code == 200 <==> code != 422 && code != 400 && e.eventId in table
                                 && table[e.eventId].payload == e.(amount := table[e.eventId].payload.amount)
                                 && Value(table[e.eventId].payload.amount) == Value(e.amount))
            && (code == 201 <==> code != 422 && code != 400 && e.eventId !in table
                                 && forall id <- table :: table[id].payload.accountId == e.accountId
                                                          ==> table[id].payload.currency == e.currency)
  {
    ValueSign(e.amount);
    if id :| id in table && table[id].payload.accountId == e.accountId && table[id].payload.currency != e.currency {
      assert id in AccountIds(table, e.accountId);
    }
  }

  /** An event is refused only when its id stands for another event, or recording it would mix currencies. */
  lemma RefusedOnlyWhenNecessary(table: Transactions, e: EventPayload, at: Utc)
    requires ValidLedger(table)
    ensures var outcome := ApplyOnce(table, e, at).1;
            && (outcome.Conflict? <==> e.eventId in table && !SameEvent(table[e.eventId].payload, e))
            && (outcome.CurrencyMismatch?
                <==> e.eventId !in table && !OneCurrency(table[e.eventId := Row(e, AccountAudit(at))]))
  {
    var more := table[e.eventId := Row(e, AccountAudit(at))];
    if e.eventId !in table {
      if Clashes(table, e) {
        var id :| id in AccountIds(table, e.accountId) && table[id].payload.currency != e.currency;
        assert more[id].payload.accountId == more[e.eventId].payload.accountId;
      } else {
        ClashFreeInsert(table, e, at);
      }
    }
  }

  lemma ClashFreeInsert(table: Transactions, e: EventPayload, at: Utc)
    requires OneCurrency(table) && e.eventId !in table && !Clashes(table, e)
    ensures OneCurrency(table[e.eventId := Row(e, AccountAudit(at))])
  {
  }

  // ---- the route --------------------------------------------------------------------------

  /** Validation, the path check, and the status each repository outcome becomes. */
  ghost function Respond(table: Transactions, path: string, e: EventPayload, at: Utc): (Transactions, int) {
    if !ValidPayload(e) then (table, 422)
    else if e.accountId != path then (table, 400)
    else
      var (after, outcome) := ApplyOnce(table, e, at);
      (after, match outcome
              case Created => 201
              case Replayed => 200
              case Conflict => 409
              case CurrencyMismatch => 409)
  }

  /** The status an event would get from this table; the time of arrival plays no part. */
  ghost function StatusFor(table: Transactions, path: string, e: EventPayload): int {
    if !ValidPayload(e) then 422
    else if e.accountId != path then 400
    else if e.eventId in table then (if SameEvent(table[e.eventId].payload, e) then 200 else 409)
    else if Clashes(table, e) then 409
    else 201
  }

  lemma StatusIgnoresTime(table: Transactions, path: string, e: EventPayload, at: Utc)
    ensures Respond(table, path, e, at).1 == StatusFor(table, path, e)
    ensures StatusFor(table, path, e) >= 400 ==> Respond(table, path, e, at).0 == table
  {
  }

  /** No delivery of `e` can succeed any more: it is invalid, its id is taken, or its account has another currency. */
  ghost predicate Refused(table: Transactions, e: EventPayload) {
    || !ValidPayload(e)
    || (e.eventId in table && !SameEvent(table[e.eventId].payload, e))
    || Clashes(table, e)
  }

  lemma RejectionMeansRefused(table: Transactions, e: EventPayload, at: Utc)
    ensures Respond(table, e.accountId, e, at).1 >= 400 ==> Refused(Respond(table, e.accountId, e, at).0, e)
  {
  }

  /** A refusal is for ever, and a refused event is not on record. */
  lemma RefusedForever(table: Transactions, later: Transactions, e: EventPayload)
    requires Refused(table, e) && Extends(table, later) && ValidLedger(later)
    ensures Refused(later, e)
    ensures !(e.eventId in later && SameEvent(later[e.eventId].payload, e))
  {
    if Clashes(table, e) {
      var id :| id in AccountIds(table, e.accountId) && table[id].payload.currency != e.currency;
      assert id in AccountIds(later, e.accountId) && later[id] == table[id];
    } else if e.eventId in later && SameEvent(later[e.eventId].payload, e) {
      SameEventValid(later[e.eventId].payload, e);
    }
  }

  /** A success status is returned exactly when the event is now on record. */
  lemma SuccessMeansRecorded(table: Transactions, path: string, e: EventPayload, at: Utc)
    requires Keyed(table)
    ensures var (after, status) := Respond(table, path, e, at);
            && (status < 400 <==> ValidPayload(e) && e.accountId == path
                                  && e.eventId in after && SameEvent(after[e.eventId].payload, e))
            && (status == 201 <==> after != table)
            && status in {200, 201, 400, 409, 422}
  {
  }

  // ---- one currency per account -----------------------------------------------------------

  /** Under one currency per account, any row the unordered lookup returns decides the clash. */
  lemma AnyRowDecidesCurrency(table: Transactions, e: EventPayload, id: string)
    requires OneCurrency(table) && id in AccountIds(table, e.accountId)
    ensures Clashes(table, e) <==> table[id].payload.currency != e.currency
  {
  }

  /** The fold's "first currency seen". */
  function FirstCurrency(rows: seq<TransactionRecord>): Option<string> {
    if rows == [] then None else Some(rows[0].payload.currency)
  }

  lemma FirstCurrencyOrderFree(p: seq<TransactionRecord>, q: seq<TransactionRecord>, table: Transactions, account: string)
    requires OneCurrency(table)
    requires Listing(p, table, AccountIds(table, account)) && Listing(q, table, AccountIds(table, account))
    ensures FirstCurrency(p) == FirstCurrency(q)
  {
  }

  // ---- the balance fold -------------------------------------------------------------------

  function SignedDecimal(e: EventPayload): Decimal {
    if e.kind.Credit? then e.amount else Negate(e.amount)
  }

  /** The balance after each row in turn, rounded at every step as the context does. */
  function RunningBalance(rows: seq<TransactionRecord>): Decimal {
    if rows == [] then Decimal(0, 0)
    else Add(RunningBalance(rows[..|rows| - 1]), SignedDecimal(rows[|rows| - 1].payload))
  }

  /** Positive amounts, all whole units of `10^-s`, together below `10^(28-s)`. */
  ghost predicate WithinPrecision(rows: seq<TransactionRecord>, s: int) {
    && (forall r <- rows :: Size(r.payload) > 0.0 && MultipleOf(Size(r.payload), s))
    && Total(rows, Size) < Shift(1.0, PRECISION - s)
  }

  lemma {:induction false} SizeBoundsSum(rows: seq<TransactionRecord>, s: int)
    requires forall r <- rows :: Size(r.payload) > 0.0 && MultipleOf(Size(r.payload), s)
    ensures -Total(rows, Size) <= Total(rows, Signed) <= Total(rows, Size)
    ensures MultipleOf(Total(rows, Signed), s)
    decreases |rows|
  {
    if rows == [] {
      Rescale(0, -s, 0);
      ValueNegates(0, -s);
      assert Value(Decimal(0, -s)) == 0.0;
    } else {
      var last := rows[|rows| - 1];
      assert last in rows;
      SizeBoundsSum(rows[..|rows| - 1], s);
      MultipleSum(Total(rows[..|rows| - 1], Signed), Size(last.payload), s);
    }
  }

  /** Within the bound no step of the fold rounds: the result is the exact signed sum. */
  lemma {:induction false} RunningBalanceExact(rows: seq<TransactionRecord>, s: int)
    requires WithinPrecision(rows, s)
    ensures Value(RunningBalance(rows)) == Total(rows, Signed)
    decreases |rows|
  {
    if rows == [] {
      assert Value(Decimal(0, 0)) == 0.0;
    } else {
      var front, last := rows[..|rows| - 1], rows[|rows| - 1].payload;
      assert rows[|rows| - 1] in rows;
      assert forall r <- front :: r in rows;
      SizeBoundsSum(front, s);
      SizeBoundsSum(rows, s);
      RunningBalanceExact(front, s);
      MultipleRepresentable(Total(rows, Signed), s);
      MultipleRepresentable(Size(last), s);
      NegateExactIff(last.amount);
      AddExactIff(RunningBalance(front), SignedDecimal(last));
    }
  }

  ghost predicate ExactThroughout(rows: seq<TransactionRecord>) {
    forall k :: 0 <= k <= |rows| ==> Value(RunningBalance(rows[..k])) == Total(rows[..k], Signed)
  }

  /** No operation of the fold rounds, neither a sum nor a unary minus. */
  ghost predicate NeverRounds(rows: seq<TransactionRecord>) {
    && (forall r <- rows :: r.payload.kind.Debit? ==> Value(Negate(r.payload.amount)) == -Size(r.payload))
    && ExactThroughout(rows)
  }

  /**
   In one order: no operation rounds exactly when every partial sum and every debited amount can
   be written with 28 digits.
   */
  lemma {:induction false} RunningBalanceExactIff(rows: seq<TransactionRecord>)
    ensures NeverRounds(rows) <==>
            && (forall r <- rows :: r.payload.kind.Debit? ==> Representable(Size(r.payload)))
            && (forall k :: 0 <= k <= |rows| ==> Representable(Total(rows[..k], Signed)))
  {
    forall r | r in rows ensures Value(Negate(r.payload.amount)) == -Size(r.payload) <==> Representable(Size(r.payload)) {
      NegateExactIff(r.payload.amount);
    }
    if (forall r <- rows :: r.payload.kind.Debit? ==> Representable(Size(r.payload)))
       && (forall k :: 0 <= k <= |rows| ==> Representable(Total(rows[..k], Signed))) {
      forall k | 0 <= k <= |rows| ensures Value(RunningBalance(rows[..k])) == Total(rows[..k], Signed) {
        PrefixExact(rows, k);
      }
    }
    if ExactThroughout(rows) {
      forall k | 0 <= k <= |rows| ensures Representable(Total(rows[..k], Signed)) {
        RunningBalanceFits(rows[..k]);
      }
    }
  }

  lemma {:induction false} PrefixExact(rows: seq<TransactionRecord>, k: nat)
    requires k <= |rows|
    requires forall r <- rows :: r.payload.kind.Debit? ==> Representable(Size(r.payload))
    requires forall j :: 0 <= j <= |rows| ==> Representable(Total(rows[..j], Signed))
    ensures Value(RunningBalance(rows[..k])) == Total(rows[..k], Signed)
  {
    if k == 0 {
      assert Value(Decimal(0, 0)) == 0.0;
    } else {
      PrefixExact(rows, k - 1);
      var last := rows[k - 1].payload;
      assert rows[..k][..k - 1] == rows[..k - 1];
      NegateExactIff(last.amount);
      AddExactIff(RunningBalance(rows[..k - 1]), SignedDecimal(last));
    }
  }

  lemma RunningBalanceFits(rows: seq<TransactionRecord>)
    ensures Fits(RunningBalance(rows))
  {
    if rows == [] {
      assert Abs(0) < Pow10(PRECISION);
    } else {
      RoundFits(ExactSum(RunningBalance(rows[..|rows| - 1]), SignedDecimal(rows[|rows| - 1].payload)));
    }
  }

  // ---- the balance in every order ---------------------------------------------------------

  /** Whichever of the account's rows are added up, 28 digits can hold the sum. */
  ghost predicate EverySumFits(table: Transactions, account: string) {
    forall ids :: ids <= AccountIds(table, account) ==> Representable(SumOver(table, ids, Signed))
  }

  /**
   The balance is exact at every stage of the fold, whatever the order of the rows, exactly when
   the sum of any of them fits in 28 digits. Then no operation rounds in any order, and every
   order yields the documented balance.
   */
  lemma {:induction false} BalanceOrderFree(table: Transactions, account: string)
    requires Keyed(table)
    ensures (forall rows :: Listing(rows, table, AccountIds(table, account)) ==> ExactThroughout(rows))
            <==> EverySumFits(table, account)
    ensures EverySumFits(table, account) ==>
              forall rows :: Listing(rows, table, AccountIds(table, account))
                ==> NeverRounds(rows) && Value(RunningBalance(rows)) == Balance(table, account)
    ensures Balance(table, account) == AmountsOf(table, account, Credit) - AmountsOf(table, account, Debit)
  {
    hide ExactThroughout, NeverRounds;
    BalanceIsCreditsMinusDebits(table, account);
    var ids := AccountIds(table, account);
    if EverySumFits(table, account) {
      forall rows | Listing(rows, table, ids)
        ensures NeverRounds(rows) && ExactThroughout(rows) && Value(RunningBalance(rows)) == Balance(table, account)
      {
        FittingSumsNeverRound(rows, table, account);
      }
    }
    if forall rows :: Listing(rows, table, ids) ==> ExactThroughout(rows) {
      forall some | some <= ids ensures Representable(SumOver(table, some, Signed)) {
        SomeFirst(table, some, account);
      }
    }
  }

  lemma {:induction false} FittingSumsNeverRound(rows: seq<TransactionRecord>, table: Transactions, account: string)
    requires EverySumFits(table, account) && Listing(rows, table, AccountIds(table, account))
    ensures NeverRounds(rows) && ExactThroughout(rows) && Value(RunningBalance(rows)) == Balance(table, account)
  {
    var ids := AccountIds(table, account);
    forall k | 0 <= k <= |rows| ensures Representable(Total(rows[..k], Signed)) {
      var some := ListingPrefix(rows, table, ids, k);
      ListingTotal(rows[..k], table, some, Signed);
    }
    forall r | r in rows && r.payload.kind.Debit? ensures Representable(Size(r.payload)) {
      var id := r.payload.eventId;
      SumOverTakes(table, {id}, Signed, id);
      assert {id} - {id} == {};
      RepresentableNegation(SumOver(table, {id}, Signed));
    }
    RunningBalanceExactIff(rows);
    ListingTotal(rows, table, ids, Signed);
    assert rows[..|rows|] == rows;
  }

  /** Some order of the rows begins with the chosen ones. */
  lemma {:induction false} SomeFirst(table: Transactions, some: set<string>, account: string)
    requires Keyed(table) && some <= AccountIds(table, account)
    requires forall rows :: Listing(rows, table, AccountIds(table, account)) ==> ExactThroughout(rows)
    ensures Representable(SumOver(table, some, Signed))
  {
    var ids := AccountIds(table, account);
    var first := ListingOf(table, some);
    var rest := ListingOf(table, ids - some);
    ListingsJoin(first, rest, table, some, ids - some);
    assert some + (ids - some) == ids;
    assert (first + rest)[..|first|] == first;
    assert ExactThroughout(first + rest);
    ListingTotal(first, table, some, Signed);
    RunningBalanceFits(first);
  }

  lemma {:induction false} PrefixWithin(rows: seq<TransactionRecord>, s: int, k: nat)
    requires WithinPrecision(rows, s) && k <= |rows|
    ensures WithinPrecision(rows[..k], s)
    decreases |rows|
  {
    if k == |rows| {
      assert rows[..k] == rows;
    } else {
      var front := rows[..|rows| - 1];
      assert rows[|rows| - 1] in rows && forall r <- front :: r in rows;
      PrefixWithin(front, s, k);
      assert front[..k] == rows[..k];
    }
  }

  /** One listing within the exactness bound puts every listing of the same rows within it. */
  lemma ListingPrecision(p: seq<TransactionRecord>, q: seq<TransactionRecord>, table: Transactions, ids: set<string>, s: int)
    requires ids <= table.Keys && Listing(p, table, ids) && Listing(q, table, ids) && WithinPrecision(p, s)
    ensures WithinPrecision(q, s)
  {
    ListingTotal(p, table, ids, Size);
    ListingTotal(q, table, ids, Size);
    forall r | r in q ensures r in p {
      var other :| other in p && other.payload.eventId == r.payload.eventId;
    }
  }

  /** A bound a caller can check on one listing: within it, every order yields the documented balance. */
  lemma {:induction false} BoundIsEnough(rows: seq<TransactionRecord>, table: Transactions, account: string, s: int)
    requires Keyed(table) && Listing(rows, table, AccountIds(table, account)) && WithinPrecision(rows, s)
    ensures EverySumFits(table, account)
  {
    var ids := AccountIds(table, account);
    forall other | Listing(other, table, ids) ensures ExactThroughout(other) {
      ListingPrecision(rows, other, table, ids, s);
      forall k | 0 <= k <= |other| ensures Value(RunningBalance(other[..k])) == Total(other[..k], Signed) {
        PrefixWithin(other, s, k);
        RunningBalanceExact(other[..k], s);
      }
    }
    BalanceOrderFree(table, account);
  }
}
