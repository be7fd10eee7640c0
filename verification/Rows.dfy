/**
 Stored events. Both databases keep one row per event id; a query returns the rows of one
 account, in an unspecified order or sorted by (stored timestamp, event id).
 */
module Rows {
  import opened Contracts
  import opened Decimals
  import opened Text
  import opened Timestamps

  /** A stored event with the columns only its own service writes. */
  datatype Row<+A> = Row(payload: EventPayload, audit: A)

  type Table<A> = map<string, Row<A>>

  /** Every row sits under its own event id. */
  predicate Keyed<A>(table: Table<A>) {
    forall id <- table :: table[id].payload.eventId == id
  }

  function AccountIds<A>(table: Table<A>, account: string): set<string> {
    set id <- table | table[id].payload.accountId == account
  }

  /** `after` has every row of `before`, unaltered. */
  ghost predicate Extends<A>(before: Table<A>, after: Table<A>) {
    forall id <- before :: id in after && after[id] == before[id]
  }

  /** `rows` holds exactly the rows of `table` under `ids`, each once, in any order. */
  ghost predicate Listing<A>(rows: seq<Row<A>>, table: Table<A>, ids: set<string>) {
    && (forall r <- rows :: r.payload.eventId in ids && r.payload.eventId in table && table[r.payload.eventId] == r)
    && (forall id <- ids :: exists r <- rows :: r.payload.eventId == id)
    && (forall i, j :: 0 <= i < j < |rows| ==> rows[i].payload.eventId != rows[j].payload.eventId)
  }

  // ---- sums over rows ---------------------------------------------------------------------

  /** The sum of `f` over a sequence of rows. */
  ghost function Total<A>(rows: seq<Row<A>>, f: EventPayload -> real): real {
    if rows == [] then 0.0 else Total(rows[..|rows| - 1], f) + f(rows[|rows| - 1].payload)
  }

  /** The sum of `f` over the rows under `ids`, taken in some order. */
  ghost function SumOver<A>(table: Table<A>, ids: set<string>, f: EventPayload -> real): real
    requires ids <= table.Keys
  {
    if ids == {} then 0.0
    else
      var id :| id in ids;
      f(table[id].payload) + SumOver(table, ids - {id}, f)
  }

  /** The balance the documentation promises: credits minus debits over all applied events. */
  ghost function Balance<A>(table: Table<A>, account: string): real {
    SumOver(table, AccountIds(table, account), Signed)
  }

  /** The order does not matter: any id may be taken first. */
  lemma {:induction false} SumOverTakes<A>(table: Table<A>, ids: set<string>, f: EventPayload -> real, x: string)
    requires ids <= table.Keys && x in ids
    ensures SumOver(table, ids, f) == f(table[x].payload) + SumOver(table, ids - {x}, f)
    decreases ids
  {
    var id :| id in ids && SumOver(table, ids, f) == f(table[id].payload) + SumOver(table, ids - {id}, f);
    if id != x {
      SumOverTakes(table, ids - {id}, f, x);
      SumOverTakes(table, ids - {x}, f, id);
      assert ids - {id} - {x} == ids - {x} - {id};
    }
  }

  /** Two tables whose rows weigh the same have the same sum. */
  lemma {:induction false} SumOverSame<A, B>(s: Table<A>, t: Table<B>, ids: set<string>, f: EventPayload -> real)
    requires ids <= s.Keys && ids <= t.Keys
    requires forall id <- ids :: f(s[id].payload) == f(t[id].payload)
    ensures SumOver(s, ids, f) == SumOver(t, ids, f)
    decreases ids
  {
    if ids != {} {
      var id :| id in ids;
      SumOverTakes(s, ids, f, id);
      SumOverTakes(t, ids, f, id);
      SumOverSame(s, t, ids - {id}, f);
    }
  }

  /** Tables that agree event by event give every account the same balance. */
  lemma BalanceSame<A, B>(s: Table<A>, t: Table<B>, account: string)
    requires s.Keys == t.Keys && forall id <- s :: SameEvent(s[id].payload, t[id].payload)
    ensures Balance(s, account) == Balance(t, account)
  {
    assert AccountIds(s, account) == AccountIds(t, account);
    SumOverSame(s, t, AccountIds(s, account), Signed);
  }

  /** Adding one row moves the balance of its own account by its signed amount and no other. */
  lemma BalanceAfterInsert<A>(table: Table<A>, row: Row<A>, account: string)
    requires row.payload.eventId !in table
    ensures Balance(table[row.payload.eventId := row], account)
            == Balance(table, account)
               + if row.payload.accountId != account then 0.0
                 else if row.payload.kind.Credit? then Value(row.payload.amount) else -Value(row.payload.amount)
  {
    var id := row.payload.eventId;
    var after := table[id := row];
    var ids := AccountIds(table, account);
    SumOverSame(table, after, ids, Signed);
    if row.payload.accountId == account {
      assert AccountIds(after, account) == ids + {id};
      SumOverTakes(after, ids + {id}, Signed, id);
      assert ids + {id} - {id} == ids;
    } else {
      assert AccountIds(after, account) == ids;
    }
  }

  function OfKind<A>(table: Table<A>, ids: set<string>, kind: TransactionType): set<string> {
    set id <- ids | id in table && table[id].payload.kind == kind
  }

  /** What the account's rows of one kind add up to. */
  ghost function AmountsOf<A>(table: Table<A>, account: string, kind: TransactionType): real {
    SumOver(table, OfKind(table, AccountIds(table, account), kind), Size)
  }

  /** The documented formula: credits minus debits. */
  lemma BalanceIsCreditsMinusDebits<A>(table: Table<A>, account: string)
    ensures Balance(table, account) == AmountsOf(table, account, Credit) - AmountsOf(table, account, Debit)
  {
    SumSplits(table, AccountIds(table, account));
  }

  lemma {:induction false} SumSplits<A>(table: Table<A>, ids: set<string>)
    requires ids <= table.Keys
    ensures SumOver(table, ids, Signed)
            == SumOver(table, OfKind(table, ids, Credit), Size) - SumOver(table, OfKind(table, ids, Debit), Size)
    decreases ids
  {
    if ids == {} {
      assert OfKind(table, ids, Credit) == {} && OfKind(table, ids, Debit) == {};
    } else {
      var id :| id in ids;
      var kind := table[id].payload.kind;
      var other := if kind.Credit? then Debit else Credit;
      SumOverTakes(table, ids, Signed, id);
      SumSplits(table, ids - {id});
      SumOverTakes(table, OfKind(table, ids, kind), Size, id);
      assert OfKind(table, ids - {id}, kind) == OfKind(table, ids, kind) - {id};
      assert OfKind(table, ids - {id}, other) == OfKind(table, ids, other);
    }
  }

  /** Every listing of the rows has the same sum. */
  lemma {:induction false} ListingTotal<A>(rows: seq<Row<A>>, table: Table<A>, ids: set<string>, f: EventPayload -> real)
    requires ids <= table.Keys && Listing(rows, table, ids)
    ensures Total(rows, f) == SumOver(table, ids, f)
    decreases |rows|
  {
    if rows != [] {
      var last := rows[|rows| - 1];
      assert last in rows;
      ListingFront(rows, table, ids);
      ListingTotal(rows[..|rows| - 1], table, ids - {last.payload.eventId}, f);
      SumOverTakes(table, ids, f, last.payload.eventId);
    } else {
      assert ids == {};
    }
  }

  lemma ListingBalance<A>(rows: seq<Row<A>>, table: Table<A>, account: string)
    requires Listing(rows, table, AccountIds(table, account))
    ensures Total(rows, Signed) == Balance(table, account)
  {
    ListingTotal(rows, table, AccountIds(table, account), Signed);
  }

  lemma ListingFront<A>(rows: seq<Row<A>>, table: Table<A>, ids: set<string>)
    requires Listing(rows, table, ids) && rows != []
    ensures Listing(rows[..|rows| - 1], table, ids - {rows[|rows| - 1].payload.eventId})
  {
  }

  /** A prefix of a listing lists some of the rows. */
  lemma ListingPrefix<A>(rows: seq<Row<A>>, table: Table<A>, ids: set<string>, k: nat) returns (some: set<string>)
    requires Listing(rows, table, ids) && k <= |rows|
    ensures some <= ids && Listing(rows[..k], table, some)
  {
    some := set i | 0 <= i < k :: rows[i].payload.eventId;
    forall id | id in some ensures exists r <- rows[..k] :: r.payload.eventId == id {
      var i :| 0 <= i < k && rows[i].payload.eventId == id;
      assert rows[..k][i] == rows[i];
    }
    forall r | r in rows[..k] ensures r in rows && r.payload.eventId in some {
      var i :| 0 <= i < k && rows[..k][i] == r;
    }
  }

  /** Listings of different rows, one after the other, list them all. */
  lemma ListingsJoin<A>(p: seq<Row<A>>, q: seq<Row<A>>, table: Table<A>, some: set<string>, others: set<string>)
    requires some !! others && Listing(p, table, some) && Listing(q, table, others)
    ensures Listing(p + q, table, some + others)
  {
    forall id | id in some + others ensures exists r <- p + q :: r.payload.eventId == id {
      if id in some {
        var r :| r in p && r.payload.eventId == id;
        assert r in p + q;
      } else {
        var r :| r in q && r.payload.eventId == id;
        assert r in p + q;
      }
    }
  }

  lemma {:induction false} ListingOf<A>(table: Table<A>, ids: set<string>) returns (rows: seq<Row<A>>)
    requires Keyed(table) && ids <= table.Keys
    ensures Listing(rows, table, ids)
    decreases ids
  {
    if ids == {} {
      rows := [];
    } else {
      var id :| id in ids;
      var fewer := ListingOf(table, ids - {id});
      rows := fewer + [table[id]];
      ListingGrows(fewer, rows, table, ids - {id}, id);
      assert ids - {id} + {id} == ids;
    }
  }

  /** A listing grows by a row that is not in it yet. */
  lemma ListingGrows<A>(rows: seq<Row<A>>, more: seq<Row<A>>, table: Table<A>, ids: set<string>, id: string)
    requires Listing(rows, table, ids) && Keyed(table) && id in table && id !in ids
    requires multiset(more) == multiset(rows) + multiset{table[id]}
    ensures Listing(more, table, ids + {id})
  {
    var row := table[id];
    forall r | r in more ensures r in rows || r == row {
      assert r in multiset(more);
    }
    forall r | r in rows || r == row ensures r in more {
      assert r in multiset(rows) + multiset{row};
    }
    assert row !in rows;
    OnceEach(rows, more, row);
  }

  lemma OnceEach<A>(rows: seq<Row<A>>, more: seq<Row<A>>, row: Row<A>)
    requires multiset(more) == multiset(rows) + multiset{row}
    requires forall i, j :: 0 <= i < j < |rows| ==> rows[i].payload.eventId != rows[j].payload.eventId
    requires forall r <- rows :: r.payload.eventId != row.payload.eventId
    ensures forall i, j :: 0 <= i < j < |more| ==> more[i].payload.eventId != more[j].payload.eventId
  {
    forall i, j | 0 <= i < j < |more| ensures more[i].payload.eventId != more[j].payload.eventId {
      TwoInMultiset(more, i, j);
      assert row !in rows;
      assert more[i] in multiset(more) && more[j] in multiset(more);
      if more[i] == more[j] {
        assert multiset(more)[more[i]] >= 2;
        DistinctOnce(rows, more[i]);
      } else if more[i] != row && more[j] != row {
        assert more[i] in multiset(rows) && more[j] in multiset(rows);
      }
    }
  }

  lemma TwoInMultiset<T>(s: seq<T>, i: nat, j: nat)
    requires i < j < |s|
    ensures multiset{s[i], s[j]} <= multiset(s)
  {
    assert s == s[..i] + [s[i]] + s[i + 1..j] + [s[j]] + s[j + 1..];
  }

  lemma {:induction false} DistinctOnce<A>(rows: seq<Row<A>>, r: Row<A>)
    requires forall i, j :: 0 <= i < j < |rows| ==> rows[i].payload.eventId != rows[j].payload.eventId
    ensures multiset(rows)[r] <= 1
    decreases |rows|
  {
    if rows != [] {
      assert rows == [rows[0]] + rows[1..];
      DistinctOnce(rows[1..], r);
      if r == rows[0] {
        assert r !in rows[1..];
      }
    }
  }

  // ---- sorted listings --------------------------------------------------------------------

  /** `ORDER BY event_timestamp ASC, event_id ASC` on the stored text. */
  predicate Before(a: EventPayload, b: EventPayload) {
    var s, t := FormatTimestamp(a.eventTimestamp), FormatTimestamp(b.eventTimestamp);
    Less(s, t) || (s == t && Less(a.eventId, b.eventId))
  }

  ghost predicate StrictlyOrdered<A>(rows: seq<Row<A>>) {
    forall i, j :: 0 <= i < j < |rows| ==> Before(rows[i].payload, rows[j].payload)
  }

  /** By the instant as stored, then by event id. */
  lemma StrictlyOrderedIff<A>(rows: seq<Row<A>>)
    ensures StrictlyOrdered(rows) <==> forall i, j :: 0 <= i < j < |rows| ==>
              var t, u := rows[i].payload.eventTimestamp, rows[j].payload.eventTimestamp;
              Less(FormatTimestamp(t), FormatTimestamp(u)) || (t == u && Less(rows[i].payload.eventId, rows[j].payload.eventId))
  {
    forall i, j | 0 <= i < j < |rows| ensures
      FormatTimestamp(rows[i].payload.eventTimestamp) == FormatTimestamp(rows[j].payload.eventTimestamp)
      <==> rows[i].payload.eventTimestamp == rows[j].payload.eventTimestamp
    {
      FormatInjective(rows[i].payload.eventTimestamp, rows[j].payload.eventTimestamp);
    }
  }

  lemma BeforeTransitive(a: EventPayload, b: EventPayload, c: EventPayload)
    requires Before(a, b) && Before(b, c)
    ensures Before(a, c)
  {
    var s, t, u := FormatTimestamp(a.eventTimestamp), FormatTimestamp(b.eventTimestamp), FormatTimestamp(c.eventTimestamp);
    if Less(s, t) && Less(t, u) {
      LessTransitive(s, t, u);
    } else if s == t == u {
      LessTransitive(a.eventId, b.eventId, c.eventId);
    }
  }

  lemma BeforeIrreflexive(a: EventPayload)
    ensures !Before(a, a)
  {
    LessIrreflexive(FormatTimestamp(a.eventTimestamp));
    LessIrreflexive(a.eventId);
  }

  lemma BeforeTotal(a: EventPayload, b: EventPayload)
    ensures a.eventId == b.eventId || Before(a, b) || Before(b, a)
  {
    LessTotal(FormatTimestamp(a.eventTimestamp), FormatTimestamp(b.eventTimestamp));
    LessTotal(a.eventId, b.eventId);
  }

  /** Places `row` among rows already in order. */
  function InsertInOrder<A>(rows: seq<Row<A>>, row: Row<A>): seq<Row<A>> {
    if rows == [] || Before(row.payload, rows[0].payload) then [row] + rows
    else [rows[0]] + InsertInOrder(rows[1..], row)
  }

  lemma {:induction false} InsertKeepsRows<A>(rows: seq<Row<A>>, row: Row<A>)
    ensures multiset(InsertInOrder(rows, row)) == multiset(rows) + multiset{row}
    decreases |rows|
  {
    if rows != [] && !Before(row.payload, rows[0].payload) {
      InsertKeepsRows(rows[1..], row);
      assert rows == [rows[0]] + rows[1..];
    }
  }

  lemma {:induction false} InsertKeepsOrder<A>(rows: seq<Row<A>>, row: Row<A>)
    requires StrictlyOrdered(rows)
    requires forall r <- rows :: r.payload.eventId != row.payload.eventId
    ensures StrictlyOrdered(InsertInOrder(rows, row))
    decreases |rows|
  {
    hide Before;
    if rows == [] {
    } else if Before(row.payload, rows[0].payload) {
      forall j | 0 < j < |rows| ensures Before(row.payload, rows[j].payload) {
        BeforeTransitive(row.payload, rows[0].payload, rows[j].payload);
      }
    } else {
      BeforeTotal(row.payload, rows[0].payload);
      assert rows[0] in rows;
      var rest := InsertInOrder(rows[1..], row);
      InsertKeepsOrder(rows[1..], row);
      InsertKeepsRows(rows[1..], row);
      forall r | r in rest ensures Before(rows[0].payload, r.payload) {
        assert r in multiset(rest);
        if r != row {
          assert r in rows[1..];
        }
      }
    }
  }

  /** The rows under `ids`, put in order one by one. */
  method OrderedRows<A>(table: Table<A>, ids: set<string>) returns (rows: seq<Row<A>>)
    requires Keyed(table) && ids <= table.Keys
    ensures Listing(rows, table, ids) && StrictlyOrdered(rows)
    ensures forall i, j :: 0 <= i < j < |rows| ==>
              var t, u := rows[i].payload.eventTimestamp, rows[j].payload.eventTimestamp;
              Less(FormatTimestamp(t), FormatTimestamp(u)) || (t == u && Less(rows[i].payload.eventId, rows[j].payload.eventId))
  {
    var remaining, taken: set<string> := ids, {};
    rows := [];
    while remaining != {}
      invariant remaining !! taken && remaining + taken == ids
      invariant Listing(rows, table, taken) && StrictlyOrdered(rows)
      decreases remaining
    {
      var id :| id in remaining;
      InsertKeepsRows(rows, table[id]);
      InsertKeepsOrder(rows, table[id]);
      ListingGrows(rows, InsertInOrder(rows, table[id]), table, taken, id);
      rows := InsertInOrder(rows, table[id]);
      remaining, taken := remaining - {id}, taken + {id};
    }
    assert taken == ids;
    StrictlyOrderedIff(rows);
  }

  lemma {:induction false} ListingSize<A>(rows: seq<Row<A>>, table: Table<A>, ids: set<string>)
    requires Listing(rows, table, ids)
    ensures |rows| == |ids|
    decreases |rows|
  {
    if rows == [] {
      assert ids == {};
    } else {
      var last := rows[|rows| - 1];
      assert last in rows;
      ListingFront(rows, table, ids);
      ListingSize(rows[..|rows| - 1], table, ids - {last.payload.eventId});
    }
  }

  /** The sorted listing is determined by the rows: arrival order leaves no trace. */
  lemma {:induction false} SortedListingUnique<A>(p: seq<Row<A>>, q: seq<Row<A>>, table: Table<A>, ids: set<string>)
    requires Listing(p, table, ids) && Listing(q, table, ids)
    requires StrictlyOrdered(p) && StrictlyOrdered(q)
    ensures p == q
    decreases |p|
  {
    SameEmptiness(p, q, table, ids);
    if p != [] {
      SameFirst(p, q, table, ids);
      ListingTail(p, table, ids);
      ListingTail(q, table, ids);
      OrderedTail(p);
      OrderedTail(q);
      SortedListingUnique(p[1..], q[1..], table, ids - {p[0].payload.eventId});
      assert p == [p[0]] + p[1..] && q == [q[0]] + q[1..];
    }
  }

  lemma OneSortedListing<A(!new)>(rows: seq<Row<A>>, table: Table<A>, ids: set<string>)
    requires Listing(rows, table, ids) && StrictlyOrdered(rows)
    ensures forall other :: Listing(other, table, ids) && StrictlyOrdered(other) ==> other == rows
  {
    forall other | Listing(other, table, ids) && StrictlyOrdered(other) ensures other == rows {
      SortedListingUnique(other, rows, table, ids);
    }
  }

  lemma SameEmptiness<A>(p: seq<Row<A>>, q: seq<Row<A>>, table: Table<A>, ids: set<string>)
    requires Listing(p, table, ids) && Listing(q, table, ids)
    ensures p == [] <==> q == []
  {
    if p != [] {
      assert p[0] in p;
    }
    if q != [] {
      assert q[0] in q;
    }
  }

  lemma OrderedTail<A>(p: seq<Row<A>>)
    requires StrictlyOrdered(p) && p != []
    ensures StrictlyOrdered(p[1..])
  {
  }

  lemma SameFirst<A>(p: seq<Row<A>>, q: seq<Row<A>>, table: Table<A>, ids: set<string>)
    requires Listing(p, table, ids) && Listing(q, table, ids) && p != [] && q != []
    requires StrictlyOrdered(p) && StrictlyOrdered(q)
    ensures p[0] == q[0]
  {
    assert p[0] in p && q[0] in q;
    FirstIsLeast(p, q[0], table, ids);
    FirstIsLeast(q, p[0], table, ids);
    if p[0] != q[0] {
      BeforeTransitive(p[0].payload, q[0].payload, p[0].payload);
      BeforeIrreflexive(p[0].payload);
    }
  }

  lemma FirstIsLeast<A>(p: seq<Row<A>>, r: Row<A>, table: Table<A>, ids: set<string>)
    requires Listing(p, table, ids) && StrictlyOrdered(p) && p != []
    requires r.payload.eventId in ids && r.payload.eventId in table && table[r.payload.eventId] == r
    ensures p[0] == r || Before(p[0].payload, r.payload)
  {
  }

  lemma ListingTail<A>(p: seq<Row<A>>, table: Table<A>, ids: set<string>)
    requires Listing(p, table, ids) && p != []
    ensures Listing(p[1..], table, ids - {p[0].payload.eventId})
  {
  }

  /** Sorted rows never go back by a whole second, whatever their fractions. */
  lemma OrderedBySecond<A>(rows: seq<Row<A>>, i: nat, j: nat)
    requires StrictlyOrdered(rows) && i < j < |rows|
    ensures !EarlierSecond(rows[j].payload.eventTimestamp, rows[i].payload.eventTimestamp)
  {
    TextOrder(rows[i].payload.eventTimestamp, rows[j].payload.eventTimestamp);
    FormatInjective(rows[i].payload.eventTimestamp, rows[j].payload.eventTimestamp);
  }

  /** A sorted history goes back in time exactly where a fraction precedes its own whole second. */
  lemma HistoryInversion<A>(rows: seq<Row<A>>, i: nat, j: nat)
    requires StrictlyOrdered(rows) && i < j < |rows|
    ensures var t, u := rows[i].payload.eventTimestamp, rows[j].payload.eventTimestamp;
            Earlier(u, t) <==> SameSecond(t, u) && u.micro == 0 && t.micro != 0
  {
    TextOrder(rows[i].payload.eventTimestamp, rows[j].payload.eventTimestamp);
    FormatInjective(rows[i].payload.eventTimestamp, rows[j].payload.eventTimestamp);
  }
}
