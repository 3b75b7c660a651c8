/** Keyset pages over an append-only table, newest row first. */
module Pagination {
  import opened Entities

  /** kind is a column that never changes; ids are compared as the database compares them. */
  datatype Row = Row(createdAt: Instant, id: nat, merchant: nat, kind: string)

  datatype Cursor = Cursor(createdAt: Instant, id: nat)

  datatype Query = Query(merchant: nat, kind: Option<string>, createdFrom: Option<Instant>, createdTo: Option<Instant>)

  datatype Page = Page(items: seq<Row>, next: Option<Cursor>)

  predicate Older(a: Row, b: Row) {
    a.createdAt < b.createdAt || (a.createdAt == b.createdAt && a.id < b.id)
  }

  predicate IsBelow(row: Row, cursor: Option<Cursor>) {
    cursor.Some? ==>
      || row.createdAt < cursor.value.createdAt
      || (row.createdAt == cursor.value.createdAt && row.id < cursor.value.id)
  }

  predicate Selects(query: Query, row: Row) {
    && row.merchant == query.merchant
    && (query.kind.Some? ==> row.kind == query.kind.value)
    && (query.createdFrom.Some? ==> query.createdFrom.value <= row.createdAt)
    && (query.createdTo.Some? ==> row.createdAt < query.createdTo.value)
  }

  function Where(table: seq<Row>, query: Query, cursor: Option<Cursor>): (rows: seq<Row>)
    ensures forall row :: row in rows <==> row in table && Selects(query, row) && IsBelow(row, cursor)
    ensures |rows| <= |table|
  {
    if table == [] then []
    else
      var rest := Where(table[1..], query, cursor);
      if Selects(query, table[0]) && IsBelow(table[0], cursor) then [table[0]] + rest else rest
  }

  function Insert(row: Row, rows: seq<Row>): (inserted: seq<Row>)
    ensures forall other :: other in inserted <==> other == row || other in rows
    ensures |inserted| == |rows| + 1
  {
    if rows == [] then [row]
    else if Older(rows[0], row) then [row] + rows
    else [rows[0]] + Insert(row, rows[1..])
  }

  function OrderBy(rows: seq<Row>): (ordered: seq<Row>)
    ensures forall row :: row in ordered <==> row in rows
    ensures |ordered| == |rows|
  {
    if rows == [] then [] else Insert(rows[0], OrderBy(rows[1..]))
  }

  /** All the rows the query still has to show below the cursor. */
  function Listing(table: seq<Row>, query: Query, cursor: Option<Cursor>): seq<Row> {
    OrderBy(Where(table, query, cursor))
  }

  /** One row more than the limit, so that the caller can tell whether a further page exists. */
  function Fetch(table: seq<Row>, query: Query, cursor: Option<Cursor>, limit: nat): (rows: seq<Row>) {
    var all := Listing(table, query, cursor);
    if |all| <= limit + 1 then all else all[..limit + 1]
  }

  function NextCursor(rows: seq<Row>, limit: nat): Option<Cursor>
    requires limit >= 1
  {
    if |rows| <= limit then None else Some(Cursor(rows[limit - 1].createdAt, rows[limit - 1].id))
  }

  function ReadPage(table: seq<Row>, query: Query, cursor: Option<Cursor>, limit: nat): Page
    requires limit >= 1
  {
    var rows := Fetch(table, query, cursor, limit);
    Page(if |rows| <= limit then rows else rows[..limit], NextCursor(rows, limit))
  }

  // ----- the order of a listing -----

  ghost predicate NewestFirst(rows: seq<Row>) {
    forall i, j :: 0 <= i < j < |rows| ==> Older(rows[j], rows[i])
  }

  ghost predicate DistinctIds(table: seq<Row>) {
    forall i, j :: 0 <= i < j < |table| ==> table[i].id != table[j].id
  }

  lemma {:induction false} InsertKeepsNewestFirst(row: Row, rows: seq<Row>)
    requires NewestFirst(rows) && forall other :: other in rows ==> other.id != row.id
    ensures NewestFirst(Insert(row, rows))
  {
    if rows != [] && !Older(rows[0], row) {
      InsertKeepsNewestFirst(row, rows[1..]);
      var rest := Insert(row, rows[1..]);
      forall j | 0 <= j < |rest|
        ensures Older(rest[j], rows[0])
      {
        assert rest[j] in rest;
      }
    }
  }

  lemma {:induction false} OrderByIsNewestFirst(rows: seq<Row>)
    requires DistinctIds(rows)
    ensures NewestFirst(OrderBy(rows))
  {
    if rows != [] {
      OrderByIsNewestFirst(rows[1..]);
      InsertKeepsNewestFirst(rows[0], OrderBy(rows[1..]));
    }
  }

  lemma {:induction false} WhereKeepsIdsDistinct(table: seq<Row>, query: Query, cursor: Option<Cursor>)
    requires DistinctIds(table)
    ensures DistinctIds(Where(table, query, cursor))
  {
    if table != [] {
      WhereKeepsIdsDistinct(table[1..], query, cursor);
      var rest := Where(table[1..], query, cursor);
      forall j | 0 <= j < |rest|
        ensures rest[j].id != table[0].id
      {
        assert rest[j] in table[1..];
      }
    }
  }

  lemma ListingIsNewestFirst(table: seq<Row>, query: Query, cursor: Option<Cursor>)
    requires DistinctIds(table)
    ensures NewestFirst(Listing(table, query, cursor))
  {
    WhereKeepsIdsDistinct(table, query, cursor);
    OrderByIsNewestFirst(Where(table, query, cursor));
  }

  /** Rows newest first are determined by which rows they are. */
  lemma {:induction false} NewestFirstIsUnique(a: seq<Row>, b: seq<Row>)
    requires NewestFirst(a) && NewestFirst(b)
    requires forall row :: row in a <==> row in b
    ensures a == b
  {
    assert a != [] ==> a[0] in a;
    assert b != [] ==> b[0] in b;
    if a != [] && b != [] {
      forall row
        ensures row in a[1..] <==> row in b[1..]
      {
        assert row in a[1..] <==> row in a && row != a[0];
        assert row in b[1..] <==> row in b && row != b[0];
      }
      NewestFirstIsUnique(a[1..], b[1..]);
    }
  }

  lemma TailIsBelow(all: seq<Row>, limit: nat, row: Row)
    requires NewestFirst(all) && 1 <= limit < |all|
    ensures row in all[limit..] <==> row in all && IsBelow(row, NextCursor(all, limit))
  {
    if row in all {
      var i :| 0 <= i < |all| && all[i] == row;
      if i < limit {
        assert row !in all[limit..];
      } else {
        assert all[limit..][i - limit] == row;
      }
    }
  }

  /** The listing below a later cursor is what the listing has below it. */
  lemma ListingBelow(table: seq<Row>, query: Query, cursor: Option<Cursor>, last: Row, row: Row)
    requires IsBelow(last, cursor)
    ensures var next := Some(Cursor(last.createdAt, last.id));
      row in Listing(table, query, next) <==> row in Listing(table, query, cursor) && IsBelow(row, next)
  {
  }

  lemma TailIsTheListingBelow(table: seq<Row>, query: Query, cursor: Option<Cursor>, limit: nat)
    requires DistinctIds(table) && 1 <= limit < |Listing(table, query, cursor)|
    ensures var all := Listing(table, query, cursor); all[limit..] == Listing(table, query, NextCursor(all, limit))
  {
    var all := Listing(table, query, cursor);
    var next := NextCursor(all, limit);
    ListingIsNewestFirst(table, query, cursor);
    ListingIsNewestFirst(table, query, next);
    assert all[limit - 1] in all;
    forall row
      ensures row in all[limit..] <==> row in Listing(table, query, next)
    {
      TailIsBelow(all, limit, row);
      ListingBelow(table, query, cursor, all[limit - 1], row);
    }
    NewestFirstIsUnique(all[limit..], Listing(table, query, next));
  }

  /** The page is the head of the listing, and the listing below its cursor is the tail. */
  lemma PageSplitsListing(table: seq<Row>, query: Query, cursor: Option<Cursor>, limit: nat)
    requires DistinctIds(table) && limit >= 1
    ensures var page := ReadPage(table, query, cursor, limit);
      var all := Listing(table, query, cursor);
      if page.next.None? then page.items == all
      else all == page.items + Listing(table, query, page.next) && |page.items| == limit
  {
    var all := Listing(table, query, cursor);
    if limit < |all| {
      TailIsTheListingBelow(table, query, cursor, limit);
      assert all == all[..limit] + all[limit..];
    }
  }

  // ----- a walk over a table that grows -----

  datatype Walked = Walked(items: seq<Row>, ended: bool)

  /** inserted[k] is what other requests insert between page k and the next one. The walk ends with
      a page that has no further cursor, or is broken off when inserted is used up. */
  function Walk(table: seq<Row>, inserted: seq<seq<Row>>, query: Query, cursor: Option<Cursor>, limit: nat): Walked
    requires limit >= 1
    decreases |inserted|
  {
    var page := ReadPage(table, query, cursor, limit);
    if page.next.None? then Walked(page.items, true)
    else if inserted == [] then Walked(page.items, false)
    else
      var rest := Walk(table + inserted[0], inserted[1..], query, page.next, limit);
      Walked(page.items + rest.items, rest.ended)
  }

  function Final(table: seq<Row>, inserted: seq<seq<Row>>): seq<Row>
    decreases |inserted|
  {
    if inserted == [] then table else Final(table + inserted[0], inserted[1..])
  }

  lemma {:induction false} FinalExtends(table: seq<Row>, inserted: seq<seq<Row>>)
    ensures table <= Final(table, inserted)
    decreases |inserted|
  {
    if inserted != [] {
      FinalExtends(table + inserted[0], inserted[1..]);
    }
  }

  /** However the table grows, the walk lists rows of the query strictly newest first, so it never
      shows a row twice. */
  lemma {:induction false} WalkNeverRepeats(table: seq<Row>, inserted: seq<seq<Row>>, query: Query,
                                            cursor: Option<Cursor>, limit: nat)
    requires DistinctIds(Final(table, inserted)) && limit >= 1
    ensures var items := Walk(table, inserted, query, cursor, limit).items;
      && NewestFirst(items)
      && forall row :: row in items ==> row in Final(table, inserted) && Selects(query, row) && IsBelow(row, cursor)
    decreases |inserted|
  {
    var page := ReadPage(table, query, cursor, limit);
    FinalExtends(table, inserted);
    ListingIsNewestFirst(table, query, cursor);
    if page.next.Some? && inserted != [] {
      WalkNeverRepeats(table + inserted[0], inserted[1..], query, page.next, limit);
      RestComesAfter(page.items, Walk(table + inserted[0], inserted[1..], query, page.next, limit).items, cursor);
    }
  }

  lemma RestComesAfter(items: seq<Row>, rest: seq<Row>, cursor: Option<Cursor>)
    requires NewestFirst(items) && NewestFirst(rest) && items != []
    requires forall row :: row in items ==> IsBelow(row, cursor)
    requires forall row :: row in rest ==> IsBelow(row, NextCursor(items + [items[0]], |items|))
    ensures NewestFirst(items + rest)
    ensures forall row :: row in rest ==> IsBelow(row, cursor)
  {
    var last := items[|items| - 1];
    forall row | row in rest
      ensures Older(row, last) && IsBelow(row, cursor)
    {
      assert IsBelow(last, cursor);
    }
    forall j | 0 <= j < |rest|
      ensures Older(rest[j], last)
    {
      assert rest[j] in rest;
    }
  }

  /** When the walk ends, it has shown every row of the query that was there when it began. */
  lemma {:induction false} WalkMissesNothing(table: seq<Row>, inserted: seq<seq<Row>>, query: Query,
                                             cursor: Option<Cursor>, limit: nat, row: Row)
    requires DistinctIds(Final(table, inserted)) && limit >= 1
    requires Walk(table, inserted, query, cursor, limit).ended
    requires row in table && Selects(query, row) && IsBelow(row, cursor)
    ensures row in Walk(table, inserted, query, cursor, limit).items
    decreases |inserted|
  {
    var page := ReadPage(table, query, cursor, limit);
    FinalExtends(table, inserted);
    PageSplitsListing(table, query, cursor, limit);
    assert row in Listing(table, query, cursor);
    if page.next.Some? && row !in page.items {
      assert row in Listing(table, query, page.next);
      WalkMissesNothing(table + inserted[0], inserted[1..], query, page.next, limit, row);
    }
  }

  /** On a table that stays as it is, the walk ends and its pages put together are the listing. */
  lemma {:induction false} WalkOfFixedTableIsTheListing(table: seq<Row>, inserted: seq<seq<Row>>, query: Query,
                                                        cursor: Option<Cursor>, limit: nat)
    requires DistinctIds(table) && limit >= 1
    requires forall k :: 0 <= k < |inserted| ==> inserted[k] == []
    requires |Listing(table, query, cursor)| <= |inserted|
    ensures Walk(table, inserted, query, cursor, limit) == Walked(Listing(table, query, cursor), true)
    decreases |inserted|
  {
    PageSplitsListing(table, query, cursor, limit);
    var page := ReadPage(table, query, cursor, limit);
    if page.next.Some? {
      assert table + inserted[0] == table;
      WalkOfFixedTableIsTheListing(table, inserted[1..], query, page.next, limit);
    }
  }
}
