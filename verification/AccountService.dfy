/** The Account Service: its repository, and the route that maps outcomes to HTTP statuses. */
module AccountService {
  import opened AccountLedger
  import opened Contracts
  import opened Decimals
  import opened Metrics
  import opened Rows
  import opened Text
  import opened Timestamps
  import opened Wrappers

  datatype BalanceResponse = BalanceResponse(accountId: string, balance: Decimal, currency: Option<string>)

  datatype DetailsResponse = DetailsResponse(summary: BalanceResponse, recentTransactions: seq<TransactionRecord>)

  /** The one currency of the account's rows, or none when it has no rows. */
  ghost predicate CurrencyOf(table: Transactions, accountId: string, currency: Option<string>) {
    && (currency.None? <==> forall id <- table :: table[id].payload.accountId != accountId)
    && forall id <- table :: table[id].payload.accountId == accountId ==> currency == Some(table[id].payload.currency)
  }

  lemma FirstCurrencyIs(rows: seq<TransactionRecord>, table: Transactions, accountId: string)
    requires OneCurrency(table) && Listing(rows, table, AccountIds(table, accountId))
    ensures CurrencyOf(table, accountId, FirstCurrency(rows))
  {
    if rows != [] {
      assert rows[0] in rows;
    }
    forall id | id in table && table[id].payload.accountId == accountId ensures rows != [] {
      assert id in AccountIds(table, accountId);
    }
  }

  class AccountRepository {
    var transactions: Transactions

    ghost predicate Valid()
      reads this
    {
      ValidLedger(transactions)
    }

    constructor ()
      ensures Valid() && transactions == map[]
    {
      transactions := map[];
    }

    /** `SELECT … WHERE account_id = ?`: the account's rows, in whatever order storage yields them. */
    method SelectForAccount(accountId: string) returns (rows: seq<TransactionRecord>)
      requires Valid()
      ensures Listing(rows, transactions, AccountIds(transactions, accountId))
    {
      var remaining, taken: set<string> := AccountIds(transactions, accountId), {};
      rows := [];
      while remaining != {}
        invariant remaining !! taken && remaining + taken == AccountIds(transactions, accountId)
        invariant Listing(rows, transactions, taken)
        decreases remaining
      {
        var id :| id in remaining;
        var more := rows + [transactions[id]];
        ListingGrows(rows, more, transactions, taken, id);
        rows, remaining, taken := more, remaining - {id}, taken + {id};
      }
      assert taken == AccountIds(transactions, accountId);
    }

    /** The same rows `ORDER BY event_timestamp ASC, event_id ASC`. */
    method SelectOrdered(accountId: string) returns (rows: seq<TransactionRecord>)
      requires Valid()
      ensures Listing(rows, transactions, AccountIds(transactions, accountId)) && StrictlyOrdered(rows)
      ensures forall i, j :: 0 <= i < j < |rows| ==>
                var t, u := rows[i].payload.eventTimestamp, rows[j].payload.eventTimestamp;
                Less(FormatTimestamp(t), FormatTimestamp(u)) || (t == u && Less(rows[i].payload.eventId, rows[j].payload.eventId))
    {
      rows := OrderedRows(transactions, AccountIds(transactions, accountId));
    }

    /** `LIMIT 1` with no order: the currency of some row of the account, if it has any. */
    method AccountCurrency(accountId: string) returns (currency: Option<string>)
      requires Valid()
      ensures currency.None? <==> AccountIds(transactions, accountId) == {}
      ensures currency.Some? ==>
                exists id <- AccountIds(transactions, accountId) :: transactions[id].payload.currency == currency.value
    {
      var ids := AccountIds(transactions, accountId);
      if ids == {} {
        return None;
      }
      var id :| id in ids;
      return Some(transactions[id].payload.currency);
    }

    /** Applies an event exactly once by its id. */
    method ApplyTransaction(event: EventPayload, now: Utc) returns (outcome: Outcome)
      requires Valid() && ValidPayload(event)
      modifies this
      ensures Valid()
      ensures (transactions, outcome) == ApplyOnce(old(transactions), event, now)
      ensures event.eventId in old(transactions) ==>
                var known := old(transactions)[event.eventId].payload;
                && (outcome.Replayed? <==> known == event.(amount := known.amount) && Value(known.amount) == Value(event.amount))
                && (outcome.Conflict? <==> !outcome.Replayed?)
      ensures event.eventId !in old(transactions) ==> outcome.Created? || outcome.CurrencyMismatch?
      ensures event.eventId !in old(transactions) ==>
                (outcome.CurrencyMismatch? <==> exists id <- old(transactions) ::
                   && old(transactions)[id].payload.accountId == event.accountId
                   && old(transactions)[id].payload.currency != event.currency)
      ensures transactions == if outcome.Created? then old(transactions)[event.eventId := Row(event, AccountAudit(now))]
                              else old(transactions)
    {
      ApplyKeepsLedger(transactions, event, now);
      if event.eventId in transactions {
        SameEventAgrees(transactions[event.eventId].payload, event);
        if !SameStoredEvent(transactions[event.eventId].payload, event) {
          return Conflict;
        }
        return Replayed;
      }
      var currency := AccountCurrency(event.accountId);
      if currency.Some? {
        ghost var id :| id in AccountIds(transactions, event.accountId)
                        && transactions[id].payload.currency == currency.value;
        AnyRowDecidesCurrency(transactions, event, id);
        if currency.value != event.currency {
          return CurrencyMismatch;
        }
      }
      transactions := transactions[event.eventId := Row(event, AccountAudit(now))];
      return Created;
    }

    /** Folds the account's rows, in the order storage yields them, with rounded decimal arithmetic. */
    method GetBalance(accountId: string) returns (response: BalanceResponse)
      requires Valid()
      ensures response.accountId == accountId
      ensures exists rows :: Listing(rows, transactions, AccountIds(transactions, accountId))
                             && response.balance == RunningBalance(rows)
      ensures forall rows :: Listing(rows, transactions, AccountIds(transactions, accountId))
                             ==> response.currency == FirstCurrency(rows)
      ensures EverySumFits(transactions, accountId) ==>
                && Value(response.balance) == Balance(transactions, accountId)
                && Value(response.balance)
                   == AmountsOf(transactions, accountId, Credit) - AmountsOf(transactions, accountId, Debit)
      ensures CurrencyOf(transactions, accountId, response.currency)
    {
      var rows := SelectForAccount(accountId);
      var balance := Decimal(0, 0);
      var currency: Option<string> := None;
      for i := 0 to |rows|
        invariant balance == RunningBalance(rows[..i])
        invariant currency == FirstCurrency(rows[..i])
      {
        var amount := rows[i].payload.amount;
        balance := Add(balance, if rows[i].payload.kind.Credit? then amount else Negate(amount));
        currency := if currency.Some? then currency else Some(rows[i].payload.currency);
        assert rows[..i + 1][..i] == rows[..i];
      }
      assert rows[..|rows|] == rows;
      response := BalanceResponse(accountId, balance, currency);
      ghost var ids := AccountIds(transactions, accountId);
      forall other | Listing(other, transactions, ids) ensures currency == FirstCurrency(other) {
        FirstCurrencyOrderFree(rows, other, transactions, accountId);
      }
      BalanceOrderFree(transactions, accountId);
      FirstCurrencyIs(rows, transactions, accountId);
    }

    /** The balance over all rows, with the first `limit` rows of the sorted history (all of them if negative). */
    method GetAccountDetails(accountId: string, limit: int := 25) returns (response: DetailsResponse)
      requires Valid()
      ensures response.summary.accountId == accountId
      ensures forall sorted :: Listing(sorted, transactions, AccountIds(transactions, accountId)) && StrictlyOrdered(sorted)
                ==> response.recentTransactions == sorted[..if 0 <= limit < |sorted| then limit else |sorted|]
      ensures exists rows :: Listing(rows, transactions, AccountIds(transactions, accountId))
                             && response.summary.balance == RunningBalance(rows)
      ensures EverySumFits(transactions, accountId) ==>
                && Value(response.summary.balance) == Balance(transactions, accountId)
                && Value(response.summary.balance)
                   == AmountsOf(transactions, accountId, Credit) - AmountsOf(transactions, accountId, Debit)
      ensures CurrencyOf(transactions, accountId, response.summary.currency)
      ensures forall i, j :: 0 <= i < j < |response.recentTransactions| ==>
                var a, b := response.recentTransactions[i].payload, response.recentTransactions[j].payload;
                Less(FormatTimestamp(a.eventTimestamp), FormatTimestamp(b.eventTimestamp))
                || (a.eventTimestamp == b.eventTimestamp && Less(a.eventId, b.eventId))
      ensures (limit < 0 || |AccountIds(transactions, accountId)| <= limit)
                ==> Total(response.recentTransactions, Signed) == Balance(transactions, accountId)
    {
      hide EverySumFits, CurrencyOf, RunningBalance, AmountsOf, FormatTimestamp, Less, Listing, StrictlyOrdered, Total, Balance;
      var summary := GetBalance(accountId);
      var rows := SelectOrdered(accountId);
      var recent := if 0 <= limit < |rows| then rows[..limit] else rows;
      response := DetailsResponse(summary, recent);
      OneSortedListing(rows, transactions, AccountIds(transactions, accountId));
      ListingSize(rows, transactions, AccountIds(transactions, accountId));
      ListingBalance(rows, transactions, accountId);
    }
  }

  class AccountApi {
    const repository: AccountRepository
    const metrics: MetricsRegistry

    constructor (repository: AccountRepository, metrics: MetricsRegistry)
      ensures this.repository == repository && this.metrics == metrics
    {
      this.repository, this.metrics := repository, metrics;
    }

    /** `POST /accounts/{account_id}/transactions`. */
    method PostTransaction(path: string, event: EventPayload, now: Utc) returns (status: int)
      requires repository.Valid()
      modifies repository, metrics
      ensures repository.Valid()
      ensures (repository.transactions, status) == Respond(old(repository.transactions), path, event, now)
      ensures status == 422 <==>
                event.eventId == "" || event.accountId == "" || Value(event.amount) <= 0.0 || |event.currency| != 3
      ensures status != 422 ==> (status == 400 <==> event.accountId != path)
      ensures status == StatusFor(old(repository.transactions), path, event)
      ensures metrics.domainCounts == match status
                case 201 => Bump(old(metrics.domainCounts), AccountApplied, 1)
                case 200 => Bump(old(metrics.domainCounts), AccountDuplicateReplay, 1)
                case 400 => Bump(old(metrics.domainCounts), AccountPathMismatch, 1)
                case 409 =>
                  Bump(old(metrics.domainCounts),
                       if event.eventId in old(repository.transactions) then AccountConflict else AccountCurrencyConflict, 1)
                case _ => old(metrics.domainCounts)
      ensures metrics.requestCounts == old(metrics.requestCounts) && metrics.errorCounts == old(metrics.errorCounts)
    {
      hide SameEvent, Clashes, ApplyOnce;
      StatusForIs(repository.transactions, path, event);
      StatusIgnoresTime(repository.transactions, path, event, now);
      if !ValidPayload(event) {
        return 422;
      }
      if event.accountId != path {
        var _ := metrics.RecordDomainEvent(AccountPathMismatch);
        return 400;
      }
      var outcome := repository.ApplyTransaction(event, now);
      match outcome {
        case Created => { var _ := metrics.RecordDomainEvent(AccountApplied); return 201; }
        case Replayed => { var _ := metrics.RecordDomainEvent(AccountDuplicateReplay); return 200; }
        case Conflict => { var _ := metrics.RecordDomainEvent(AccountConflict); return 409; }
        case CurrencyMismatch => { var _ := metrics.RecordDomainEvent(AccountCurrencyConflict); return 409; }
      }
    }
  }
}
