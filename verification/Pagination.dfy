/** Keyset pagination over the journals, newest first, and what walking its pages returns. */
module Pagination {
  import opened Currencies
  import opened Ledger

  // A journal row with its creation time, in the column's microseconds.
  datatype Stored = Stored(createdAt: nat, journal: Journal)

  // The position of a row in the order (createdAt, id).
  datatype Position = Position(createdAt: nat, id: nat)

  datatype Filter = Filter(user: nat, ccy: Option<Currency>, side: Option<Side>, purpose: Option<Purpose>)

  datatype Page = Page(items: seq<Stored>, next: Option<Position>)

  function At(r: Stored): Position {
    Position(r.createdAt, r.journal.id)
  }

  /** Newest first; the id breaks ties. */
  predicate Precedes(a: Position, b: Position) {
    a.createdAt > b.createdAt || (a.createdAt == b.createdAt && a.id > b.id)
  }

  /** Currency and side select on the legs, both on the same leg; the rest on the journal. */
  predicate Matches(r: Stored, f: Filter) {
    && r.journal.key.user == f.user
    && (f.ccy.Some? || f.side.Some? ==>
          exists i :: 0 <= i < |r.journal.legs| && LegMatches(r.journal.legs[i], f))
    && (f.purpose.Some? ==> r.journal.purpose == f.purpose.value)
  }

  predicate LegMatches(l: Leg, f: Filter) {
    (f.ccy.Some? ==> l.slot.ccy == f.ccy.value) && (f.side.Some? ==> l.side == f.side.value)
  }

  /** The rows a query sees: those that match, past the cursor. */
  function Visible(table: set<Stored>, f: Filter, cursor: Option<Position>): set<Stored> {
    set r | r in table && Matches(r, f) && (cursor.Some? ==> Precedes(cursor.value, At(r)))
  }

  ghost predicate UniqueIds(table: set<Stored>) {
    forall a, b :: a in table && b in table && a.journal.id == b.journal.id ==> a == b
  }

  // ---- The sorted list ----

  ghost predicate Newest(s: set<Stored>, r: Stored) {
    r in s && forall b :: b in s && b != r ==> Precedes(At(r), At(b))
  }

  lemma {:induction false} NewestExists(s: set<Stored>)
    requires s != {} && UniqueIds(s)
    ensures exists r :: Newest(s, r)
    decreases |s|
  {
    var r :| r in s;
    if s == {r} {
      assert Newest(s, r);
    } else {
      NewestExists(s - {r});
      var best :| Newest(s - {r}, best);
      assert Newest(s, if Precedes(At(best), At(r)) then best else r);
    }
  }

  /** The rows in query order. */
  ghost function Sorted(s: set<Stored>): (list: seq<Stored>)
    requires UniqueIds(s)
    ensures |list| == |s| && (forall r :: r in list <==> r in s)
  {
    if s == {} then []
    else
      NewestExists(s);
      var r :| Newest(s, r);
      [r] + Sorted(s - {r})
  }

  ghost predicate Descending(list: seq<Stored>) {
    forall i, j :: 0 <= i < j < |list| ==> Precedes(At(list[i]), At(list[j]))
  }

  lemma {:induction false} SortedDescends(s: set<Stored>)
    requires UniqueIds(s)
    ensures Descending(Sorted(s))
  {
    if s != {} {
      var r := Sorted(s)[0];
      assert Newest(s, r) && Sorted(s)[1..] == Sorted(s - {r});
      SortedDescends(s - {r});
    }
  }

  lemma FirstIn(s: seq<Stored>)
    requires s != []
    ensures s[0] in s
  {
  }

  /** A set has only one descending list. */
  lemma {:induction false} DescendingUnique(a: seq<Stored>, b: seq<Stored>)
    requires Descending(a) && Descending(b) && forall r :: r in a <==> r in b
    ensures a == b
  {
    if a == [] {
      if b != [] { FirstIn(b); assert false; }
    } else {
      assert a[0] in b;
      assert b[0] in a;
      assert a[0] == b[0];
      forall r ensures r in a[1..] <==> r in b[1..] {
        TailOf(a, r);
        TailOf(b, r);
      }
      DescendingUnique(a[1..], b[1..]);
    }
  }

  lemma TailOf(list: seq<Stored>, r: Stored)
    requires list != [] && Descending(list)
    ensures r in list[1..] <==> r in list && r != list[0]
  {
    if r in list[1..] {
      var i :| 0 <= i < |list[1..]| && list[1..][i] == r;
      assert list[i + 1] == r && Precedes(At(list[0]), At(r));
    }
  }

  // ---- One page ----

  ghost predicate HasId(table: set<Stored>, id: nat) {
    exists r :: r in table && r.journal.id == id
  }

  /** The journal with an id, as the second query loads it. */
  ghost function ById(table: set<Stored>, id: nat): Stored
    requires HasId(table, id)
  {
    var r :| r in table && r.journal.id == id;
    r
  }

  /** Load whole journals by id and put them back into the page's order. */
  ghost function Hydrate(table: set<Stored>, ids: seq<nat>): seq<Stored>
    requires forall i :: 0 <= i < |ids| ==> HasId(table, ids[i])
  {
    seq(|ids|, i requires 0 <= i < |ids| => ById(table, ids[i]))
  }

  function Ids(rows: seq<Stored>): (ids: seq<nat>)
    ensures |ids| == |rows|
  {
    seq(|rows|, i requires 0 <= i < |rows| => rows[i].journal.id)
  }

  lemma IdsFound(table: set<Stored>, rows: seq<Stored>)
    requires forall i :: 0 <= i < |rows| ==> rows[i] in table
    ensures forall i :: 0 <= i < |rows| ==> HasId(table, Ids(rows)[i])
  {
    forall i | 0 <= i < |rows| ensures HasId(table, Ids(rows)[i]) {
      assert rows[i] in table && rows[i].journal.id == Ids(rows)[i];
    }
  }

  lemma HydrateRestores(table: set<Stored>, rows: seq<Stored>)
    requires UniqueIds(table) && forall i :: 0 <= i < |rows| ==> rows[i] in table
    ensures (IdsFound(table, rows); Hydrate(table, Ids(rows)) == rows)
  {
    IdsFound(table, rows);
    forall i | 0 <= i < |rows| ensures ById(table, Ids(rows)[i]) == rows[i] { }
  }

  /** The query's answer: at most n rows off the top. */
  function Top(list: seq<Stored>, n: nat): (top: seq<Stored>)
    ensures |top| <= |list| && top == list[..|top|]
  {
    if |list| > n then list[..n] else list
  }

  /** The page made of the rows the query returned: one more than asked shows there is a next
      page, whose cursor is the position of the last row kept. */
  ghost function PageOf(table: set<Stored>, rows: seq<Stored>, limit: nat): Page
    requires 0 < limit && forall i :: 0 <= i < |rows| ==> rows[i] in table
  {
    var hasNext := |rows| > limit;
    var pageRows := if hasNext then rows[..limit] else rows;
    IdsFound(table, pageRows);
    Page(Hydrate(table, Ids(pageRows)), if hasNext then Some(At(pageRows[|pageRows| - 1])) else None)
  }

  /** One request. */
  ghost function GetTransactions(table: set<Stored>, f: Filter, cursor: Option<Position>, limit: nat): Page
    requires UniqueIds(table) && 0 < limit
  {
    var sorted := Sorted(Visible(table, f, cursor));
    SortedInTable(table, f, cursor);
    PageOf(table, Top(sorted, limit + 1), limit)
  }

  lemma SortedInTable(table: set<Stored>, f: Filter, cursor: Option<Position>)
    requires UniqueIds(table)
    ensures forall i :: 0 <= i < |Sorted(Visible(table, f, cursor))| ==> Sorted(Visible(table, f, cursor))[i] in table
  {
    var sorted := Sorted(Visible(table, f, cursor));
    forall i | 0 <= i < |sorted| ensures sorted[i] in table {
      assert sorted[i] in sorted;
    }
  }

  /** A list cut at the limit. */
  function Cut(list: seq<Stored>, limit: nat): Page
    requires 0 < limit
  {
    if |list| > limit then Page(list[..limit], Some(At(list[limit - 1]))) else Page(list, None)
  }

  lemma PageOfCut(table: set<Stored>, list: seq<Stored>, limit: nat)
    requires UniqueIds(table) && 0 < limit && forall i :: 0 <= i < |list| ==> list[i] in table
    ensures PageOf(table, Top(list, limit + 1), limit) == Cut(list, limit)
  {
    var rows := Top(list, limit + 1);
    var pageRows := if |rows| > limit then rows[..limit] else rows;
    assert pageRows == Cut(list, limit).items;
    HydrateRestores(table, pageRows);
  }

  /** Loading by id and reordering loses nothing: a page is the sorted list cut at the limit. */
  lemma PageIsCut(table: set<Stored>, f: Filter, cursor: Option<Position>, limit: nat)
    requires UniqueIds(table) && 0 < limit
    ensures GetTransactions(table, f, cursor, limit) == Cut(Sorted(Visible(table, f, cursor)), limit)
  {
    SortedInTable(table, f, cursor);
    PageOfCut(table, Sorted(Visible(table, f, cursor)), limit);
  }

  /** A page is newest first, by falling identifier on ties, and no longer than the limit. */
  lemma PageNewestFirst(table: set<Stored>, f: Filter, cursor: Option<Position>, limit: nat, i: nat, j: nat)
    requires UniqueIds(table) && 0 < limit && i < j < |GetTransactions(table, f, cursor, limit).items|
    ensures var items := GetTransactions(table, f, cursor, limit).items;
            && |items| <= limit && items[i].createdAt >= items[j].createdAt
            && (items[i].createdAt == items[j].createdAt ==> items[i].journal.id > items[j].journal.id)
  {
    var sorted := Sorted(Visible(table, f, cursor));
    PageIsCut(table, f, cursor, limit);
    SortedDescends(Visible(table, f, cursor));
    assert Precedes(At(sorted[i]), At(sorted[j]));
  }

  lemma CutHoldsListed(list: seq<Stored>, limit: nat, r: Stored)
    requires 0 < limit && r in Cut(list, limit).items
    ensures r in list
  {
  }

  /** What a page holds, in plain terms: the user's own rows, each with the purpose asked for and one
      leg with the currency and the side asked for, all of them past the cursor. */
  lemma PageHolds(table: set<Stored>, f: Filter, cursor: Option<Position>, limit: nat, r: Stored)
    requires UniqueIds(table) && 0 < limit && r in GetTransactions(table, f, cursor, limit).items
    ensures r in table && r.journal.key.user == f.user && (f.purpose.Some? ==> r.journal.purpose == f.purpose.value)
    ensures f.ccy.Some? || f.side.Some? ==>
              exists l :: l in r.journal.legs && (f.ccy.Some? ==> l.slot.ccy == f.ccy.value)
                          && (f.side.Some? ==> l.side == f.side.value)
    ensures cursor.Some? ==>
              r.createdAt < cursor.value.createdAt
              || (r.createdAt == cursor.value.createdAt && r.journal.id < cursor.value.id)
  {
    PageIsCut(table, f, cursor, limit);
    CutHoldsListed(Sorted(Visible(table, f, cursor)), limit, r);
    assert r in Visible(table, f, cursor) && Matches(r, f);
    if f.ccy.Some? || f.side.Some? {
      var i :| 0 <= i < |r.journal.legs| && LegMatches(r.journal.legs[i], f);
      assert r.journal.legs[i] in r.journal.legs;
    }
  }

  /** And what it leaves out: of the rows asked for, only those after its last one, which is then the
      next cursor. */
  lemma PageMissesNothing(table: set<Stored>, f: Filter, cursor: Option<Position>, limit: nat, r: Stored)
    requires UniqueIds(table) && 0 < limit && r in table && r.journal.key.user == f.user
    requires f.purpose.Some? ==> r.journal.purpose == f.purpose.value
    requires f.ccy.Some? || f.side.Some? ==>
               exists l :: l in r.journal.legs && (f.ccy.Some? ==> l.slot.ccy == f.ccy.value)
                           && (f.side.Some? ==> l.side == f.side.value)
    requires cursor.Some? ==>
               r.createdAt < cursor.value.createdAt
               || (r.createdAt == cursor.value.createdAt && r.journal.id < cursor.value.id)
    ensures var page := GetTransactions(table, f, cursor, limit);
            r in page.items ||
            (&& |page.items| == limit
             && var last := page.items[limit - 1];
                && page.next == Some(Position(last.createdAt, last.journal.id))
                && (r.createdAt < last.createdAt || (r.createdAt == last.createdAt && r.journal.id < last.journal.id)))
  {
    if f.ccy.Some? || f.side.Some? {
      var l :| l in r.journal.legs && (f.ccy.Some? ==> l.slot.ccy == f.ccy.value)
               && (f.side.Some? ==> l.side == f.side.value);
      var i :| 0 <= i < |r.journal.legs| && r.journal.legs[i] == l;
      assert LegMatches(r.journal.legs[i], f);
    }
    var sorted := Sorted(Visible(table, f, cursor));
    PageIsCut(table, f, cursor, limit);
    SortedDescends(Visible(table, f, cursor));
    assert r in sorted;
    var k :| 0 <= k < |sorted| && sorted[k] == r;
    if limit <= k { assert Precedes(At(sorted[limit - 1]), At(sorted[k])); }
  }

  // ---- Walking all pages of a table that does not change ----

  /** What lies past the k-th row of a list is the rest of the list. */
  lemma PastRowOfList(s: set<Stored>, past: set<Stored>, k: nat)
    requires UniqueIds(s) && UniqueIds(past) && 0 < k <= |s|
    requires forall r :: r in past <==> r in s && Precedes(At(Sorted(s)[k - 1]), At(r))
    ensures Sorted(past) == Sorted(s)[k..]
  {
    var sorted := Sorted(s);
    SortedDescends(s);
    SortedDescends(past);
    forall r ensures r in Sorted(past) <==> r in sorted[k..] { TailPast(sorted, k, r); }
    DescendingUnique(Sorted(past), sorted[k..]);
  }

  lemma NotAfter(list: seq<Stored>, i: nat, j: nat)
    requires Descending(list) && i < |list| && j < |list|
    ensures Precedes(At(list[i]), At(list[j])) ==> i < j
  {
  }

  lemma TailPast(list: seq<Stored>, k: nat, r: Stored)
    requires Descending(list) && 0 < k <= |list|
    ensures r in list[k..] <==> r in list && Precedes(At(list[k - 1]), At(r))
  {
    if r in list[k..] {
      var i :| 0 <= i < |list[k..]| && list[k..][i] == r;
      assert list[k + i] == r;
    }
    if r in list && Precedes(At(list[k - 1]), At(r)) {
      var i :| 0 <= i < |list| && list[i] == r;
      NotAfter(list, k - 1, i);
      assert list[k..][i - k] == r;
    }
  }

  lemma VisiblePast(table: set<Stored>, f: Filter, cursor: Option<Position>, row: Stored, r: Stored)
    requires row in Visible(table, f, cursor)
    ensures r in Visible(table, f, Some(At(row))) <==> r in Visible(table, f, cursor) && Precedes(At(row), At(r))
  {
  }

  lemma PastRow(table: set<Stored>, f: Filter, cursor: Option<Position>, k: nat)
    requires UniqueIds(table) && 0 < k <= |Sorted(Visible(table, f, cursor))|
    ensures var sorted := Sorted(Visible(table, f, cursor));
            Sorted(Visible(table, f, Some(At(sorted[k - 1])))) == sorted[k..]
  {
    var row := Sorted(Visible(table, f, cursor))[k - 1];
    assert row in Sorted(Visible(table, f, cursor));
    forall r
      ensures r in Visible(table, f, Some(At(row))) <==> r in Visible(table, f, cursor) && Precedes(At(row), At(r))
    {
      VisiblePast(table, f, cursor, row, r);
    }
    PastRowOfList(Visible(table, f, cursor), Visible(table, f, Some(At(row))), k);
  }

  /** Where the list past a page's last row starts. */
  lemma CutContinues(list: seq<Stored>, limit: nat)
    requires 0 < limit < |list|
    ensures Cut(list, limit).items + list[limit..] == list && |list[limit..]| == |list| - limit
  {
  }

  /** When there is a next page, it continues exactly where this one stops. */
  lemma NextPage(table: set<Stored>, f: Filter, cursor: Option<Position>, limit: nat)
    requires UniqueIds(table) && 0 < limit
    ensures GetTransactions(table, f, cursor, limit) == Cut(Sorted(Visible(table, f, cursor)), limit)
    ensures |Visible(table, f, cursor)| > limit ==>
              Sorted(Visible(table, f, GetTransactions(table, f, cursor, limit).next))
              == Sorted(Visible(table, f, cursor))[limit..]
    ensures |Visible(table, f, cursor)| > limit ==>
              |Visible(table, f, GetTransactions(table, f, cursor, limit).next)| == |Visible(table, f, cursor)| - limit
  {
    PageIsCut(table, f, cursor, limit);
    if |Visible(table, f, cursor)| > limit {
      PastRow(table, f, cursor, limit);
    }
  }

  /** The pages from a cursor on, following `next` until there is none. */
  ghost function Walk(table: set<Stored>, f: Filter, cursor: Option<Position>, limit: nat): (pages: seq<Page>)
    requires UniqueIds(table) && 0 < limit
    decreases |Visible(table, f, cursor)|
  {
    NextPage(table, f, cursor, limit);
    var page := GetTransactions(table, f, cursor, limit);
    if page.next == None then [page] else [page] + Walk(table, f, page.next, limit)
  }

  function Items(pages: seq<Page>): seq<Stored> {
    if pages == [] then [] else pages[0].items + Items(pages[1..])
  }

  lemma ItemsCons(page: Page, rest: seq<Page>)
    ensures Items([page] + rest) == page.items + Items(rest)
  {
    assert ([page] + rest)[1..] == rest;
  }

  /** p is max(1, ceil(n / limit)). */
  ghost predicate IsPageCount(p: nat, n: nat, limit: nat) {
    1 <= p && n <= p * limit && (1 < p ==> (p - 1) * limit < n)
  }

  lemma OneMorePage(p: nat, n: nat, limit: nat)
    requires limit < n && IsPageCount(p, n - limit, limit)
    ensures IsPageCount(p + 1, n, limit)
  {
    assert (p + 1) * limit == p * limit + limit;
    if 1 < p { assert p * limit == (p - 1) * limit + limit; } else { assert p * limit == limit; }
  }

  /** The pages put together are exactly the filtered journals in order, over
      max(1, ceil(n / limit)) pages. */
  lemma {:induction false} WalkIsSortedList(table: set<Stored>, f: Filter, cursor: Option<Position>, limit: nat)
    requires UniqueIds(table) && 0 < limit
    ensures Items(Walk(table, f, cursor, limit)) == Sorted(Visible(table, f, cursor))
    ensures IsPageCount(|Walk(table, f, cursor, limit)|, |Visible(table, f, cursor)|, limit)
    decreases |Visible(table, f, cursor)|
  {
    var page := GetTransactions(table, f, cursor, limit);
    NextPage(table, f, cursor, limit);
    if page.next == None {
      assert Walk(table, f, cursor, limit) == [page];
      ItemsCons(page, []);
    } else {
      WalkIsSortedList(table, f, page.next, limit);
      var rest := Walk(table, f, page.next, limit);
      assert Walk(table, f, cursor, limit) == [page] + rest;
      ItemsCons(page, rest);
      CutContinues(Sorted(Visible(table, f, cursor)), limit);
      OneMorePage(|rest|, |Visible(table, f, cursor)|, limit);
    }
  }

  // ---- Walking while journals are being added ----

  /** Each request sees the table as it is then; tables only grow. */
  ghost predicate Growing(tables: seq<set<Stored>>) {
    tables != [] ==> UniqueIds(tables[0]) && (|tables| > 1 ==> tables[0] <= tables[1]) && Growing(tables[1..])
  }

  /** Everything returned by following the cursors through the tables. */
  ghost function LiveWalk(tables: seq<set<Stored>>, f: Filter, cursor: Option<Position>, limit: nat): seq<Stored>
    requires Growing(tables) && 0 < limit
  {
    if tables == [] then []
    else
      var page := GetTransactions(tables[0], f, cursor, limit);
      page.items + if page.next == None then [] else LiveWalk(tables[1..], f, page.next, limit)
  }

  /** Whether the last page is reached. */
  ghost predicate ReachesEnd(tables: seq<set<Stored>>, f: Filter, cursor: Option<Position>, limit: nat)
    requires Growing(tables) && 0 < limit
  {
    tables != [] &&
    var page := GetTransactions(tables[0], f, cursor, limit);
    page.next == None || ReachesEnd(tables[1..], f, page.next, limit)
  }

  /** Every row of the list is one the filter selects, past the cursor. */
  ghost predicate Continues(list: seq<Stored>, f: Filter, cursor: Option<Position>) {
    forall r :: r in list ==> Matches(r, f) && (cursor.Some? ==> Precedes(cursor.value, At(r)))
  }

  lemma PrefixThenPast(a: seq<Stored>, b: seq<Stored>, cut: Position)
    requires a != [] && Descending(a) && Descending(b) && At(a[|a| - 1]) == cut
    requires forall r :: r in b ==> Precedes(cut, At(r))
    ensures Descending(a + b)
  {
    var list := a + b;
    forall i, j | 0 <= i < j < |list| ensures Precedes(At(list[i]), At(list[j])) {
      if i < |a| <= j {
        assert list[j] in b;
        if i < |a| - 1 { assert Precedes(At(a[i]), At(a[|a| - 1])); }
      }
    }
  }

  /** Every row of a list is on its first page, or past that page's last row. */
  lemma OnPageOrPast(sorted: seq<Stored>, limit: nat, r: Stored)
    requires Descending(sorted) && 0 < limit < |sorted| && r in sorted
    ensures r in sorted[..limit] || Precedes(At(sorted[limit - 1]), At(r))
  {
    var i :| 0 <= i < |sorted| && sorted[i] == r;
    if i < limit { assert sorted[..limit][i] == r; }
  }

  /** One page, and what comes after it, make a list that misses nothing of the first. */
  lemma PageThenRest(sorted: seq<Stored>, f: Filter, cursor: Option<Position>, limit: nat, rest: seq<Stored>)
    requires 0 < limit < |sorted| && Descending(sorted) && Continues(sorted, f, cursor)
    requires forall r :: r in sorted && Precedes(At(sorted[limit - 1]), At(r)) ==> r in rest
    requires Descending(rest) && Continues(rest, f, Some(At(sorted[limit - 1])))
    ensures forall r :: r in sorted ==> r in sorted[..limit] + rest
    ensures Descending(sorted[..limit] + rest) && Continues(sorted[..limit] + rest, f, cursor)
  {
    forall r | r in sorted ensures r in sorted[..limit] + rest { OnPageOrPast(sorted, limit, r); }
    PrefixThenPast(sorted[..limit], rest, At(sorted[limit - 1]));
    assert sorted[limit - 1] in sorted;
    forall r | r in sorted[..limit] ensures r in sorted { }
  }

  /** A row seen now past this page's end will be seen by the next request, whatever the table
      has become by then. */
  lemma StillVisible(now: set<Stored>, later: set<Stored>, f: Filter, cursor: Option<Position>, at: Position, r: Stored)
    requires now <= later && r in Visible(now, f, cursor) && Precedes(at, At(r))
    ensures r in Visible(later, f, Some(at))
  {
  }

  /** The list has every row visible at first, none that the filter excludes, and, being strictly
      descending, none twice. */
  ghost predicate ExactlyOnce(list: seq<Stored>, now: set<Stored>, f: Filter, cursor: Option<Position>) {
    Descending(list) && Continues(list, f, cursor) && forall r :: r in Visible(now, f, cursor) ==> r in list
  }

  lemma OnlyPage(now: set<Stored>, f: Filter, cursor: Option<Position>)
    requires UniqueIds(now)
    ensures ExactlyOnce(Sorted(Visible(now, f, cursor)), now, f, cursor)
  {
    SortedDescends(Visible(now, f, cursor));
  }

  lemma PageThenLater(now: set<Stored>, later: set<Stored>, f: Filter, cursor: Option<Position>, limit: nat,
                      rest: seq<Stored>)
    requires UniqueIds(now) && now <= later && 0 < limit < |Sorted(Visible(now, f, cursor))|
    requires ExactlyOnce(rest, later, f, Some(At(Sorted(Visible(now, f, cursor))[limit - 1])))
    ensures ExactlyOnce(Sorted(Visible(now, f, cursor))[..limit] + rest, now, f, cursor)
  {
    var sorted := Sorted(Visible(now, f, cursor));
    var at := At(sorted[limit - 1]);
    forall r | r in sorted && Precedes(at, At(r)) ensures r in rest {
      StillVisible(now, later, f, cursor, at, r);
    }
    SortedDescends(Visible(now, f, cursor));
    PageThenRest(sorted, f, cursor, limit, rest);
  }

  /** Wherever new journals land between requests, a walk that reaches its last page returns
      exactly once every journal that was there at the start. */
  lemma {:induction false} LiveWalkExactlyOnce(tables: seq<set<Stored>>, f: Filter, cursor: Option<Position>,
                                               limit: nat)
    requires Growing(tables) && 0 < limit && ReachesEnd(tables, f, cursor, limit)
    ensures ExactlyOnce(LiveWalk(tables, f, cursor, limit), tables[0], f, cursor)
    decreases |tables|
  {
    var page := GetTransactions(tables[0], f, cursor, limit);
    PageIsCut(tables[0], f, cursor, limit);
    if page.next == None {
      OnlyPage(tables[0], f, cursor);
    } else {
      LiveWalkExactlyOnce(tables[1..], f, page.next, limit);
      PageThenLater(tables[0], tables[1], f, cursor, limit, LiveWalk(tables[1..], f, page.next, limit));
    }
  }

  // ---- The cursor as text ----

  /** Where a character first occurs, if it does. */
  function IndexOf(s: string, c: char): (k: Option<nat>)
    ensures k.Some? ==> k.value < |s| && s[k.value] == c && c !in s[..k.value]
    ensures k == None ==> c !in s
  {
    if s == [] then None
    else if s[0] == c then Some(0)
    else
      match IndexOf(s[1..], c)
      case None => None
      case Some(k) => assert s[..k + 1] == [s[0]] + s[1..][..k]; Some(k + 1)
  }

  datatype Cursor = Cursor(createdAt: string, id: string)

  function EncodeCursor(c: Cursor): string {
    c.createdAt + "|" + c.id
  }

  /** Split at the first bar; both parts must be there and the first must be a date. */
  function DecodeCursor(s: string, isDate: string -> bool): Option<Cursor> {
    match IndexOf(s, '|')
    case None => None
    case Some(k) => if k == 0 || k + 1 == |s| || !isDate(s[..k]) then None else Some(Cursor(s[..k], s[k + 1..]))
  }

  lemma {:induction false} IndexOfLeast(s: string, c: char, i: nat)
    requires i < |s| && s[i] == c
    ensures IndexOf(s, c).Some? && IndexOf(s, c).value <= i
  {
    if s[0] != c { IndexOfLeast(s[1..], c, i - 1); }
  }

  /** Decoding undoes encoding exactly for a dated timestamp without a bar and a non-empty id. */
  lemma CursorRoundTrip(c: Cursor, isDate: string -> bool)
    ensures DecodeCursor(EncodeCursor(c), isDate) == Some(c)
       <==> '|' !in c.createdAt && c.createdAt != "" && c.id != "" && isDate(c.createdAt)
  {
    var s := EncodeCursor(c);
    var n := |c.createdAt|;
    assert s[n] == '|' && s[..n] == c.createdAt && s[n + 1..] == c.id;
    IndexOfLeast(s, '|', n);
    var k := IndexOf(s, '|').value;
    if '|' in c.createdAt {
      var i :| 0 <= i < n && c.createdAt[i] == '|';
      IndexOfLeast(s, '|', i);
      assert |s[..k]| < n;
    } else {
      assert forall i :: 0 <= i < n ==> s[i] == c.createdAt[i] && c.createdAt[i] in c.createdAt;
      assert k == n;
    }
  }

  /** And nothing decodes to anything but what encodes to it. */
  lemma DecodedCursorEncodesBack(s: string, isDate: string -> bool)
    ensures DecodeCursor(s, isDate).Some? ==> EncodeCursor(DecodeCursor(s, isDate).value) == s
  {
    var k := IndexOf(s, '|');
    if k.Some? { assert s == s[..k.value] + "|" + s[k.value + 1..]; }
  }
}
