/**
 Keyset paging of the lead and the project list, and the project board whose columns continue in the list
 (internal/crmapi/leads.go, projects.go): newest first by creation time and id, one row more than the page is read
 to see whether there is a next page.
 */
module Paging {
  import opened Prelude
  import opened Cursor

  predicate Less(a: Key, b: Key) {
    a.created < b.created || (a.created == b.created && a.id < b.id)
  }

  predicate Descending(rows: seq<Key>) {
    forall i, j :: 0 <= i < j < |rows| ==> Less(rows[j], rows[i])
  }

  predicate IsNewest(table: set<Key>, k: Key) {
    k in table && forall x :: x in table && x != k ==> Less(x, k)
  }

  lemma {:induction false} NewestExists(table: set<Key>)
    requires table != {}
    ensures exists k :: IsNewest(table, k)
  {
    var some :| some in table;
    var rest := table - {some};
    assert forall x :: x in table ==> x == some || x in rest;
    if rest == {} {
      assert IsNewest(table, some);
    } else {
      NewestExists(rest);
      var k :| IsNewest(rest, k);
      if Less(some, k) {
        assert IsNewest(table, k);
      } else {
        assert IsNewest(table, some);
      }
    }
  }

  function Newest(table: set<Key>): (k: Key)
    requires table != {}
    ensures IsNewest(table, k)
  {
    NewestExists(table);
    var k :| IsNewest(table, k);
    k
  }

  /** `order by created_at desc, id desc`. */
  function Listing(table: set<Key>): seq<Key> {
    if table == {} then [] else [Newest(table)] + Listing(table - {Newest(table)})
  }

  /** `(created_at, id) < (cursor)`. */
  function Below(table: set<Key>, cursor: Option<Key>): set<Key> {
    if cursor.None? then table else set k | k in table && Less(k, cursor.value)
  }

  lemma {:induction false} ListingIs(table: set<Key>)
    ensures Descending(Listing(table)) && |Listing(table)| == |table|
    ensures forall k :: k in Listing(table) <==> k in table
  {
    if table != {} {
      var k := Newest(table);
      var rest := Listing(table - {k});
      ListingIs(table - {k});
      forall j | 0 <= j < |rest| ensures Less(rest[j], k) {
        assert rest[j] in rest;
      }
    }
  }

  /** A set has one descending listing. */
  lemma {:induction false} DescendingIsUnique(a: seq<Key>, b: seq<Key>)
    requires Descending(a) && Descending(b) && forall k :: k in a <==> k in b
    ensures a == b
  {
    assert a != [] ==> a[0] in a;
    assert b != [] ==> b[0] in b;
    if a != [] {
      assert a[0] == b[0];
      forall k ensures k in a[1..] <==> k in b[1..] {
        TailHolds(a, k);
        TailHolds(b, k);
      }
      DescendingIsUnique(a[1..], b[1..]);
      assert a == [a[0]] + a[1..] && b == [b[0]] + b[1..];
    }
  }

  lemma {:induction false} TailHolds(a: seq<Key>, k: Key)
    requires Descending(a) && a != []
    ensures k in a[1..] <==> k in a && k != a[0]
  {
    if k in a && k != a[0] {
      var i :| 0 <= i < |a| && a[i] == k;
      assert a[1..][i - 1] == k;
    }
  }

  lemma {:induction false} AfterIsBelow(rows: seq<Key>, i: nat, k: Key)
    requires Descending(rows) && i < |rows|
    ensures k in rows[i + 1..] <==> k in rows && Less(k, rows[i])
  {
    if k in rows[i + 1..] {
      var j :| 0 <= j < |rows| - i - 1 && rows[i + 1..][j] == k;
      assert rows[i + 1 + j] == k;
    }
    if k in rows && Less(k, rows[i]) {
      var j :| 0 <= j < |rows| && rows[j] == k;
      assert j > i;
      assert rows[i + 1..][j - i - 1] == k;
    }
  }

  /** Reading on below a row of the listing gives the rows after it. */
  lemma {:induction false} ReadingOn(table: set<Key>, i: nat)
    requires i < |Listing(table)|
    ensures Listing(Below(table, Some(Listing(table)[i]))) == Listing(table)[i + 1..]
  {
    var all := Listing(table);
    var below := Below(table, Some(all[i]));
    ListingIs(table);
    ListingIs(below);
    forall k ensures k in Listing(below) <==> k in all[i + 1..] {
      AfterIsBelow(all, i, k);
    }
    DescendingIsUnique(Listing(below), all[i + 1..]);
  }

  // ---- one page ------------------------------------------------------------------------------

  datatype Error = InvalidCursor
  datatype Page = Page(items: seq<Key>, next: Option<string>)

  /** The page size asked for: `fallback` when it is missing, not a number or not positive, and never above `most`. */
  function Limit(raw: Option<int>, fallback: nat, most: nat): (limit: nat)
    requires 0 < fallback <= most
    ensures 0 < limit <= most
  {
    if raw.None? || raw.value <= 0 then fallback else if raw.value > most then most else raw.value
  }

  lemma {:induction false} LimitIs(raw: Option<int>, fallback: nat, most: nat)
    requires 0 < fallback <= most
    ensures raw.None? || raw.value <= 0 ==> Limit(raw, fallback, most) == fallback
    ensures raw.Some? && 0 < raw.value ==> Limit(raw, fallback, most) == if raw.value < most then raw.value else most
  {
  }

  function Take(rows: seq<Key>, n: nat): seq<Key> {
    if |rows| <= n then rows else rows[..n]
  }

  /** The first `limit` rows below the cursor, and the last of them as the next cursor when there are more. */
  method List(f: Formats, table: set<Key>, raw: Option<string>, limit: nat) returns (r: Result<Page, Error>)
    requires limit > 0
    ensures r.Err? <==> raw.Some? && DecodeCursor(f, raw.value).None?
    ensures r.Ok? ==>
              var rows := Listing(Below(table, if raw.None? then None else DecodeCursor(f, raw.value)));
              r.value == Page(Take(rows, limit),
                              if |rows| > limit then Some(EncodeCursor(f, rows[limit - 1])) else None)
  {
    var cursor: Option<Key> := None;
    if raw.Some? {
      cursor := DecodeCursor(f, raw.value);
      if cursor.None? {
        return Err(InvalidCursor);
      }
    }
    ghost var all := Listing(Below(table, cursor));
    var rows := Take(Listing(Below(table, cursor)), limit + 1);
    var items: seq<Key> := [];
    var next: Option<string> := None;
    for i := 0 to |rows|
      invariant i <= limit && items == rows[..i]
    {
      if |items| == limit {
        next := Some(EncodeCursor(f, items[limit - 1]));
        break;
      }
      items := items + [rows[i]];
    }
    return Ok(Page(items, next));
  }

  /** Following the next cursor to the end visits every row once, newest first. */
  method ListAll(f: Formats, table: set<Key>, limit: nat) returns (visited: seq<Key>)
    requires Lawful(f) && limit > 0
    ensures visited == Listing(table)
  {
    visited := Follow(f, table, None, limit, 0);
  }

  /** The cursor text stands after the first `n` rows. */
  ghost predicate At(f: Formats, table: set<Key>, raw: Option<string>, n: nat) {
    n <= |Listing(table)|
    && if n == 0 then raw.None? else raw == Some(EncodeCursor(f, Listing(table)[n - 1]))
  }

  lemma {:induction false} AtReadsOn(f: Formats, table: set<Key>, raw: Option<string>, n: nat)
    requires Lawful(f) && At(f, table, raw, n)
    ensures raw.Some? ==> DecodeCursor(f, raw.value).Some?
    ensures Listing(Below(table, if raw.None? then None else DecodeCursor(f, raw.value))) == Listing(table)[n..]
  {
    if n > 0 {
      CursorReadsBack(f, Listing(table)[n - 1]);
      ReadingOn(table, n - 1);
    } else {
      assert Listing(table)[0..] == Listing(table);
    }
  }

  /** A page read from after the first `n` rows holds the next rows, and its cursor stands after them. */
  method NextPage(f: Formats, table: set<Key>, raw: Option<string>, limit: nat, ghost n: nat)
    returns (page: Page, ghost after: nat)
    requires Lawful(f) && limit > 0 && At(f, table, raw, n)
    ensures n <= after <= |Listing(table)| && page.items == Listing(table)[n..after]
    ensures page.next.None? ==> after == |Listing(table)|
    ensures page.next.Some? ==> n < after && At(f, table, page.next, after)
  {
    ghost var all := Listing(table);
    AtReadsOn(f, table, raw, n);
    var r := List(f, table, raw, limit);
    page := r.value;
    after := n + |page.items|;
    assert page.items == all[n..after];
    assert |all[n..]| > limit ==> all[n..][limit - 1] == all[after - 1];
  }

  /** Reading on from the cursor after the first `n` rows. */
  method Follow(f: Formats, table: set<Key>, from: Option<string>, limit: nat, ghost n: nat) returns (visited: seq<Key>)
    requires Lawful(f) && limit > 0 && At(f, table, from, n)
    ensures visited == Listing(table)[n..]
  {
    ghost var at := n;
    visited := [];
    var raw := from;
    while true
      invariant n <= at <= |Listing(table)| && visited == Listing(table)[n..at] && At(f, table, raw, at)
      decreases |Listing(table)| - at
    {
      ghost var after;
      var page;
      page, after := NextPage(f, table, raw, limit, at);
      Joined(Listing(table), n, at, after);
      visited := visited + page.items;
      at := after;
      if page.next.None? {
        break;
      }
      raw := page.next;
    }
  }

  lemma {:induction false} Joined(all: seq<Key>, a: nat, b: nat, c: nat)
    requires a <= b <= c <= |all|
    ensures all[a..b] + all[b..c] == all[a..c]
  {
  }

  /** So a full read visits each row of the table exactly once, in strictly descending order. */
  lemma {:induction false} ListingVisitsOnce(table: set<Key>, k: Key)
    requires k in table
    ensures Descending(Listing(table)) && multiset(Listing(table))[k] == 1
    ensures forall x :: x in Listing(table) ==> x in table
  {
    ListingIs(table);
    OnceIn(Listing(table), k);
  }

  lemma {:induction false} OnceIn(rows: seq<Key>, k: Key)
    requires Descending(rows)
    ensures multiset(rows)[k] == if k in rows then 1 else 0
  {
    if rows != [] {
      var init, last := rows[..|rows| - 1], rows[|rows| - 1];
      OnceIn(init, k);
      assert rows == init + [last];
      assert last !in init;
    }
  }

  // ---- the board -----------------------------------------------------------------------------

  /** One column: how many rows match, the first of them, and where the list goes on when there are more. */
  method Column(f: Formats, table: set<Key>, limit: nat) returns (count: nat, cards: seq<Key>, next: Option<string>)
    requires limit > 0
    ensures count == |table| && cards == Take(Listing(table), limit)
    ensures next == if count > |cards| then Some(EncodeCursor(f, cards[|cards| - 1])) else None
  {
    ListingIs(table);
    count := |table|;
    cards := [];
    var last: Option<Key> := None;
    var rows := Take(Listing(table), limit);
    for i := 0 to |rows|
      invariant cards == rows[..i] && last == if i == 0 then None else Some(rows[i - 1])
    {
      cards := cards + [rows[i]];
      last := Some(rows[i]);
    }
    next := None;
    if count > |cards| {
      next := Some(EncodeCursor(f, last.value));
    }
  }

  /** A board column continued through the list, with a page size of its own, visits the column's rows once. */
  method ColumnThenList(f: Formats, table: set<Key>, cardLimit: nat, limit: nat) returns (visited: seq<Key>)
    requires Lawful(f) && cardLimit > 0 && limit > 0
    ensures visited == Listing(table)
  {
    ListingIs(table);
    var count, cards, next := Column(f, table, cardLimit);
    visited := cards;
    if next.Some? {
      var rest := Follow(f, table, next, limit, |cards|);
      visited := visited + rest;
    }
  }
}
