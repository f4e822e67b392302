/** Keyset pagination over (createdAt DESC, id DESC): the ledger of a wallet and the admin's wallet list. */
module Pagination {
  import opened Schema

  /** Ids break ties; they are distinct and strictly ordered. */
  datatype Key = Key(createdAt: int, id: int)

  /** A row as the queries see it: its key and whatever the WHERE clause reads. */
  datatype Row<T> = Row(key: Key, data: T)

  datatype Page<T> = Page(rows: seq<Row<T>>, nextCursor: Option<Key>, hasMore: bool)

  /** createdAt < cursor.createdAt, or equal and id < cursor.id. */
  predicate Below(a: Key, b: Key) {
    a.createdAt < b.createdAt || (a.createdAt == b.createdAt && a.id < b.id)
  }

  /** No two rows share a key. */
  ghost predicate Keyed<T(!new)>(table: set<Row<T>>) {
    forall a, b | a in table && b in table && a.key == b.key :: a == b
  }

  /** The WHERE clause: the filter, and strictly below the cursor if there is one. */
  ghost function Matching<T(!new)>(table: set<Row<T>>, filter: T -> bool, cursor: Option<Key>): set<Row<T>> {
    set r | r in table && filter(r.data) && (cursor.Some? ==> Below(r.key, cursor.value))
  }

  ghost predicate IsTop<T(!new)>(s: set<Row<T>>, r: Row<T>) {
    r in s && forall q | q in s && q != r :: Below(q.key, r.key)
  }

  lemma {:induction false} TopExists<T(!new)>(s: set<Row<T>>)
    requires s != {} && Keyed(s)
    ensures exists r :: IsTop(s, r)
    decreases |s|
  {
    var x :| x in s;
    var rest := s - {x};
    if rest != {} {
      TopExists(rest);
      var t :| IsTop(rest, t);
      assert t.key != x.key;
      if Below(x.key, t.key) {
        assert IsTop(s, t);
      } else {
        assert forall q | q in rest && q != t :: Below(q.key, t.key);
        assert Below(t.key, x.key);
        assert forall q | q in s && q != x :: q == t || q in rest;
        assert IsTop(s, x);
      }
    } else {
      assert s == {x};
      assert IsTop(s, x);
    }
  }

  /** rows lists exactly s, strictly descending. */
  ghost predicate Lists<T(!new)>(rows: seq<Row<T>>, s: set<Row<T>>) {
    && (forall r :: r in rows <==> r in s)
    && forall i, j | 0 <= i < j < |rows| :: Below(rows[j].key, rows[i].key)
  }

  /** ORDER BY createdAt DESC, id DESC. */
  ghost function Descending<T(!new)>(s: set<Row<T>>): (rows: seq<Row<T>>)
    requires Keyed(s)
    ensures |rows| == |s| && Lists(rows, s)
    decreases |s|
  {
    if s == {} then []
    else
      TopExists(s);
      var top :| IsTop(s, top);
      var rest := Descending(s - {top});
      TopThenRest(s, top, rest);
      [top] + rest
  }

  lemma {:induction false} TopThenRest<T(!new)>(s: set<Row<T>>, top: Row<T>, rest: seq<Row<T>>)
    requires IsTop(s, top) && Lists(rest, s - {top})
    ensures Lists([top] + rest, s)
  {
    var rows := [top] + rest;
    forall i, j | 0 <= i < j < |rows|
      ensures Below(rows[j].key, rows[i].key)
    {
      assert rest[j - 1] in rest;
      if i > 0 { assert Below(rest[j - 1].key, rest[i - 1].key); }
    }
    forall r
      ensures r in rows <==> r in s
    {
      assert r in rows <==> r == top || r in rest;
    }
  }

  lemma {:induction false} FirstIsTop<T(!new)>(rows: seq<Row<T>>, s: set<Row<T>>)
    requires Lists(rows, s) && s != {}
    ensures rows != [] && IsTop(s, rows[0]) && Lists(rows[1..], s - {rows[0]})
  {
    var x :| x in s;
    assert x in rows;
    forall q | q in s && q != rows[0]
      ensures Below(q.key, rows[0].key) && q in rows[1..]
    {
      var i :| 0 <= i < |rows| && rows[i] == q;
      assert rows[1..][i - 1] == q;
    }
    forall q | q in rows[1..]
      ensures q in s - {rows[0]}
    {
      var i :| 0 <= i < |rows[1..]| && rows[1..][i] == q;
      assert rows[i + 1] == q && Below(rows[i + 1].key, rows[0].key);
    }
  }

  lemma {:induction false} ListedIsMember<T(!new)>(rows: seq<Row<T>>, s: set<Row<T>>)
    requires Lists(rows, s) && rows != []
    ensures rows[0] in s
  {
    assert rows[0] in rows;
  }

  /** A set has one descending listing. */
  lemma {:induction false} ListingIsUnique<T(!new)>(a: seq<Row<T>>, b: seq<Row<T>>, s: set<Row<T>>)
    requires Lists(a, s) && Lists(b, s)
    ensures a == b
    decreases |s|
  {
    if a != [] { ListedIsMember(a, s); }
    if b != [] { ListedIsMember(b, s); }
    if s != {} {
      FirstIsTop(a, s);
      FirstIsTop(b, s);
      assert a[0] != b[0] ==> Below(a[0].key, b[0].key) && Below(b[0].key, a[0].key);
      ListingIsUnique(a[1..], b[1..], s - {a[0]});
    }
  }

  /** All rows the query would return without a limit. */
  ghost function Listing<T(!new)>(table: set<Row<T>>, filter: T -> bool, cursor: Option<Key>): (rows: seq<Row<T>>)
    requires Keyed(table)
    ensures |rows| == |Matching(table, filter, cursor)|
  {
    Descending(Matching(table, filter, cursor))
  }

  /** Take limit + 1 rows, drop the extra one, point the cursor at the last one kept. */
  function PageOf<T>(all: seq<Row<T>>, limit: nat): Page<T> {
    var fetched := if |all| <= limit + 1 then all else all[..limit + 1];
    var hasMore := limit < |fetched|;
    var rows := if hasMore then fetched[..limit] else fetched;
    Page(rows, if hasMore && 0 < |rows| then Some(rows[|rows| - 1].key) else None, hasMore)
  }

  /** findLedgerPage, findAll and their callers. */
  ghost function FetchPage<T(!new)>(table: set<Row<T>>, filter: T -> bool, cursor: Option<Key>, limit: nat): Page<T>
    requires Keyed(table)
  {
    PageOf(Listing(table, filter, cursor), limit)
  }

  lemma {:induction false} PageOfListing<T(!new)>(all: seq<Row<T>>, limit: nat)
    requires 1 <= limit
    ensures var page := PageOf(all, limit);
            && (page.hasMore <==> page.nextCursor.Some?)
            && (page.hasMore <==> limit < |all|)
            && (page.hasMore ==> page.nextCursor == Some(all[limit - 1].key) && page.rows == all[..limit])
            && all == page.rows + (if page.hasMore then all[limit..] else [])
  {
    if limit < |all| {
      assert all[..limit + 1][..limit] == all[..limit];
    }
  }

  /** Rows strictly below the n-th of a descending listing are the ones after it. */
  lemma {:induction false} TailLists<T(!new)>(rows: seq<Row<T>>, s: set<Row<T>>, n: nat, rest: set<Row<T>>)
    requires Lists(rows, s) && 0 < n <= |rows|
    requires rest == set r | r in s && Below(r.key, rows[n - 1].key)
    ensures Lists(rows[n..], rest)
  {
    var tail := rows[n..];
    forall r | r in rest
      ensures r in tail
    {
      assert r in rows;
      var i :| 0 <= i < |rows| && rows[i] == r;
      assert n <= i;
      assert tail[i - n] == r;
    }
    forall i | 0 <= i < |tail|
      ensures tail[i] in rest
    {
      assert tail[i] == rows[i + n];
      assert rows[i + n] in rows;
      assert Below(rows[i + n].key, rows[n - 1].key);
    }
  }

  lemma {:induction false} RestBelow<T(!new)>(s: set<Row<T>>, n: nat)
    requires Keyed(s) && 0 < n <= |s|
    ensures var rows := Descending(s);
            var rest := set r | r in s && Below(r.key, rows[n - 1].key);
            Descending(rest) == rows[n..]
  {
    var rows := Descending(s);
    var rest := set r | r in s && Below(r.key, rows[n - 1].key);
    TailLists(rows, s, n, rest);
    ListingIsUnique(rows[n..], Descending(rest), rest);
  }

  /** The cursor's own WHERE clause selects what was matching and lies below the last row. */
  lemma {:induction false} CursorNarrows<T(!new)>(table: set<Row<T>>, filter: T -> bool, cursor: Option<Key>,
                                                  last: Row<T>)
    requires last in Matching(table, filter, cursor)
    ensures (set r | r in Matching(table, filter, cursor) && Below(r.key, last.key))
            == Matching(table, filter, Some(last.key))
    ensures cursor.Some? ==> Below(last.key, cursor.value)
  {
  }

  lemma {:induction false} ListingContinues<T(!new)>(table: set<Row<T>>, filter: T -> bool, cursor: Option<Key>,
                                                     limit: nat)
    requires Keyed(table) && 1 <= limit < |Matching(table, filter, cursor)|
    ensures var rows := Listing(table, filter, cursor);
            && (cursor.Some? ==> Below(rows[limit - 1].key, cursor.value))
            && Listing(table, filter, Some(rows[limit - 1].key)) == rows[limit..]
  {
    var s := Matching(table, filter, cursor);
    var last := Descending(s)[limit - 1];
    assert last in s;
    RestBelow(s, limit);
    CursorNarrows(table, filter, cursor, last);
  }

  /**
   * A page and the listing below its cursor make up the listing; the cursor is given exactly when something is left.
   */
  lemma {:induction false} PageSplits<T(!new)>(table: set<Row<T>>, filter: T -> bool, cursor: Option<Key>, limit: nat)
    requires Keyed(table) && 1 <= limit
    ensures var page := FetchPage(table, filter, cursor, limit);
            && (page.hasMore <==> page.nextCursor.Some?)
            && (page.hasMore <==> limit < |Matching(table, filter, cursor)|)
            && (page.hasMore ==> |page.rows| == limit)
            && Listing(table, filter, cursor) ==
               page.rows + (if page.hasMore then Listing(table, filter, page.nextCursor) else [])
            && (page.hasMore ==> cursor.Some? ==> Below(page.nextCursor.value, cursor.value))
  {
    var rows := Listing(table, filter, cursor);
    PageOfListing(rows, limit);
    if limit < |rows| {
      ListingContinues(table, filter, cursor, limit);
    }
  }

  /** Between two fetches rows may appear above the cursor; those below it stay as they are. */
  ghost predicate SameBelow<T(!new)>(before: set<Row<T>>, after: set<Row<T>>, filter: T -> bool, cursor: Option<Key>) {
    Matching(before, filter, cursor) == Matching(after, filter, cursor)
  }

  /** All pages by following nextCursor until hasMore is false; tables[k] is what the k-th fetch finds. */
  ghost function Follow<T(!new)>(tables: seq<set<Row<T>>>, filter: T -> bool, cursor: Option<Key>,
                                 limit: nat): seq<Row<T>>
    requires forall t | t in tables :: Keyed(t)
    decreases |tables|
  {
    if tables == [] then []
    else
      var page := FetchPage(tables[0], filter, cursor, limit);
      page.rows + (if page.hasMore then Follow(tables[1..], filter, page.nextCursor, limit) else [])
  }

  /** Every fetch finds the rows below its cursor as the previous one left them. */
  ghost predicate StableBelow<T(!new)>(tables: seq<set<Row<T>>>, filter: T -> bool, cursor: Option<Key>, limit: nat)
    requires forall t | t in tables :: Keyed(t)
    decreases |tables|
  {
    |tables| <= 1 ||
    var page := FetchPage(tables[0], filter, cursor, limit);
    page.hasMore ==>
      SameBelow(tables[0], tables[1], filter, page.nextCursor)
      && StableBelow(tables[1..], filter, page.nextCursor, limit)
  }

  /** How many fetches it takes: one per full page, and one for what is left. */
  function PagesNeeded(rows: nat, limit: nat): (pages: nat)
    requires 1 <= limit
    ensures 1 <= pages
    ensures (pages - 1) * limit <= rows <= pages * limit
  {
    if rows <= limit then 1 else 1 + PagesNeeded(rows - limit, limit)
  }

  /**
   * Complete and stable: for any limit of at least 1 and any ties in createdAt, following the cursors yields exactly
   * the matching rows of the first fetch's snapshot, in order, each once, in PagesNeeded fetches, even while
   * rows are inserted above the cursor between them.
   */
  lemma {:induction false} PagesAreComplete<T(!new)>(tables: seq<set<Row<T>>>, filter: T -> bool, cursor: Option<Key>,
                                                     limit: nat)
    requires 1 <= limit && tables != [] && forall t | t in tables :: Keyed(t)
    requires PagesNeeded(|Matching(tables[0], filter, cursor)|, limit) <= |tables|
    requires StableBelow(tables, filter, cursor, limit)
    ensures Follow(tables, filter, cursor, limit) == Listing(tables[0], filter, cursor)
    decreases |tables|
  {
    if FetchPage(tables[0], filter, cursor, limit).hasMore {
      NextFetch(tables, filter, cursor, limit);
      PagesAreComplete(tables[1..], filter, FetchPage(tables[0], filter, cursor, limit).nextCursor, limit);
    }
    OnePageMore(tables, filter, cursor, limit);
  }

  lemma {:induction false} NextFetch<T(!new)>(tables: seq<set<Row<T>>>, filter: T -> bool, cursor: Option<Key>,
                                              limit: nat)
    requires 1 <= limit && tables != [] && (forall t | t in tables :: Keyed(t))
             && StableBelow(tables, filter, cursor, limit)
    requires FetchPage(tables[0], filter, cursor, limit).hasMore
    requires PagesNeeded(|Matching(tables[0], filter, cursor)|, limit) <= |tables|
    ensures |tables| > 1 && (forall t | t in tables[1..] :: Keyed(t)) && tables[1..][0] == tables[1]
    ensures var next := FetchPage(tables[0], filter, cursor, limit).nextCursor;
            && SameBelow(tables[0], tables[1], filter, next)
            && StableBelow(tables[1..], filter, next, limit)
            && PagesNeeded(|Matching(tables[1], filter, next)|, limit) <= |tables| - 1
  {
    OnePageFewer(tables[0], filter, cursor, limit);
    assert |tables| > 1;
    StaysStable(tables, filter, cursor, limit);
  }

  lemma {:induction false} OnePageFewer<T(!new)>(table: set<Row<T>>, filter: T -> bool, cursor: Option<Key>, limit: nat)
    requires 1 <= limit && Keyed(table) && FetchPage(table, filter, cursor, limit).hasMore
    ensures PagesNeeded(|Matching(table, filter, cursor)|, limit) ==
            1 + PagesNeeded(|Matching(table, filter, FetchPage(table, filter, cursor, limit).nextCursor)|, limit)
  {
    MoreIsLeft(table, filter, cursor, limit);
  }

  lemma {:induction false} StaysStable<T(!new)>(tables: seq<set<Row<T>>>, filter: T -> bool, cursor: Option<Key>,
                                                limit: nat)
    requires |tables| > 1 && (forall t | t in tables :: Keyed(t)) && StableBelow(tables, filter, cursor, limit)
    requires FetchPage(tables[0], filter, cursor, limit).hasMore
    ensures forall t | t in tables[1..] :: Keyed(t)
    ensures var next := FetchPage(tables[0], filter, cursor, limit).nextCursor;
            SameBelow(tables[0], tables[1], filter, next) && StableBelow(tables[1..], filter, next, limit)
  {
    assert forall t | t in tables[1..] :: t in tables;
  }

  lemma {:induction false} OnePageMore<T(!new)>(tables: seq<set<Row<T>>>, filter: T -> bool, cursor: Option<Key>,
                                                limit: nat)
    requires 1 <= limit && tables != [] && forall t | t in tables :: Keyed(t)
    requires var page := FetchPage(tables[0], filter, cursor, limit);
             page.hasMore ==>
               && |tables| > 1
               && SameBelow(tables[0], tables[1], filter, page.nextCursor)
               && Follow(tables[1..], filter, page.nextCursor, limit) == Listing(tables[1], filter, page.nextCursor)
    ensures Follow(tables, filter, cursor, limit) == Listing(tables[0], filter, cursor)
  {
    PageSplits(tables[0], filter, cursor, limit);
    var page := FetchPage(tables[0], filter, cursor, limit);
    if page.hasMore {
      assert tables[1] in tables;
      ListingOfSame(tables[0], tables[1], filter, page.nextCursor);
    }
  }

  /** A full page leaves exactly its rows fewer to fetch. */
  lemma {:induction false} MoreIsLeft<T(!new)>(table: set<Row<T>>, filter: T -> bool, cursor: Option<Key>, limit: nat)
    requires 1 <= limit && Keyed(table) && FetchPage(table, filter, cursor, limit).hasMore
    ensures var next := FetchPage(table, filter, cursor, limit).nextCursor;
            && limit < |Matching(table, filter, cursor)|
            && |Matching(table, filter, next)| == |Matching(table, filter, cursor)| - limit
  {
    PageSplits(table, filter, cursor, limit);
  }

  lemma {:induction false} ListingOfSame<T(!new)>(before: set<Row<T>>, after: set<Row<T>>, filter: T -> bool,
                                                  cursor: Option<Key>)
    requires Keyed(before) && Keyed(after) && SameBelow(before, after, filter, cursor)
    ensures Listing(before, filter, cursor) == Listing(after, filter, cursor)
  {
  }

  /** New rows, as long as they come above the cursor, do not disturb what is below it. */
  lemma {:induction false} InsertsAboveAreInvisible<T(!new)>(before: set<Row<T>>, added: set<Row<T>>, filter: T -> bool,
                                                             cursor: Key)
    requires forall r | r in added :: !Below(r.key, cursor)
    ensures SameBelow(before, before + added, filter, Some(cursor))
  {
    assert Matching(before + added, filter, Some(cursor)) == Matching(before, filter, Some(cursor));
  }

  /** A row inserted below the cursor while paging is picked up: it shows the snapshot claim needs its condition. */
  lemma {:induction false} InsertBelowIsSeenIff<T(!new)>(before: set<Row<T>>, r: Row<T>, filter: T -> bool, cursor: Key)
    requires r !in before
    ensures SameBelow(before, before + {r}, filter, Some(cursor)) <==> !(filter(r.data) && Below(r.key, cursor))
  {
    var after := Matching(before + {r}, filter, Some(cursor));
    assert after == Matching(before, filter, Some(cursor))
                    + (if filter(r.data) && Below(r.key, cursor) then {r} else {});
    assert r !in Matching(before, filter, Some(cursor));
  }

  // ---- the two listings

  /** findLedgerPage's filter: one wallet's entries. */
  function OfWallet(wallet: WalletId): LedgerEntry -> bool {
    (e: LedgerEntry) => e.wallet == wallet
  }

  /** What findAll's filter reads of a wallet; its balances may change between the fetches. */
  datatype ListedWallet = ListedWallet(wallet: WalletId, status: AccountStatus, currency: Currency)

  /** findAll's filter: wallets by optional status and currency. */
  function WithStatusAndCurrency(status: Option<AccountStatus>, currency: Option<Currency>): ListedWallet -> bool {
    (w: ListedWallet) => (status.Some? ==> w.status == status.value)
      && (currency.Some? ==> w.currency == currency.value)
  }

  /** Rows are only added, and no new one is below a row that was there. */
  ghost predicate Grows<T(!new)>(before: set<Row<T>>, after: set<Row<T>>) {
    before <= after && forall r, q | r in after && r !in before && q in before :: !Below(r.key, q.key)
  }

  ghost predicate GrowsOnTop<T(!new)>(tables: seq<set<Row<T>>>) {
    forall k | 0 <= k < |tables| - 1 :: Grows(tables[k], tables[k + 1])
  }

  /** A cursor is the key of a row that was there, so growth on top happens above it. */
  lemma {:induction false} CursorIsAKey<T(!new)>(table: set<Row<T>>, filter: T -> bool, cursor: Option<Key>, limit: nat)
    requires 1 <= limit && Keyed(table) && FetchPage(table, filter, cursor, limit).hasMore
    ensures exists q :: q in table && FetchPage(table, filter, cursor, limit).nextCursor == Some(q.key)
  {
    var rows := Listing(table, filter, cursor);
    PageOfListing(rows, limit);
    assert rows[limit - 1] in Matching(table, filter, cursor);
  }

  lemma {:induction false} GrowthIsInvisible<T(!new)>(before: set<Row<T>>, after: set<Row<T>>, filter: T -> bool,
                                                      q: Row<T>)
    requires before <= after && q in before
    requires forall r | r in after && r !in before :: !Below(r.key, q.key)
    ensures SameBelow(before, after, filter, Some(q.key))
  {
    InsertsAboveAreInvisible(before, after - before, filter, q.key);
    assert before + (after - before) == after;
  }

  lemma {:induction false} GrowingOnTopIsStable<T(!new)>(tables: seq<set<Row<T>>>, filter: T -> bool,
                                                         cursor: Option<Key>, limit: nat)
    requires 1 <= limit && GrowsOnTop(tables) && forall t | t in tables :: Keyed(t)
    ensures StableBelow(tables, filter, cursor, limit)
    decreases |tables|
  {
    if |tables| > 1 {
      assert tables[0] in tables;
      var page := FetchPage(tables[0], filter, cursor, limit);
      if page.hasMore {
        CursorIsAKey(tables[0], filter, cursor, limit);
        var q :| q in tables[0] && page.nextCursor == Some(q.key);
        assert Grows(tables[0], tables[0 + 1]);
        GrowthIsInvisible(tables[0], tables[1], filter, q);
        GrowsLater(tables);
        GrowingOnTopIsStable(tables[1..], filter, page.nextCursor, limit);
      }
    }
  }

  lemma {:induction false} GrowsLater<T(!new)>(tables: seq<set<Row<T>>>)
    requires |tables| > 1 && GrowsOnTop(tables)
    ensures GrowsOnTop(tables[1..])
    ensures forall t | t in tables[1..] :: t in tables
  {
    var later := tables[1..];
    forall k | 0 <= k < |later| - 1
      ensures Grows(later[k], later[k + 1])
    {
      assert later[k] == tables[k + 1] && later[k + 1] == tables[k + 2];
    }
  }

  /** A wallet's ledger, paged while newer entries arrive: its entries at the first fetch, newest first, each once. */
  lemma {:induction false} LedgerHistoryIsComplete(tables: seq<set<Row<LedgerEntry>>>, wallet: WalletId, limit: nat)
    requires 1 <= limit && tables != [] && GrowsOnTop(tables) && forall t | t in tables :: Keyed(t)
    requires PagesNeeded(|Matching(tables[0], OfWallet(wallet), None)|, limit) <= |tables|
    ensures var history := Follow(tables, OfWallet(wallet), None, limit);
            && (forall r :: r in history <==> r in tables[0] && r.data.wallet == wallet)
            && forall i, j | 0 <= i < j < |history| ::
                 history[j].key.createdAt < history[i].key.createdAt
                 || (history[j].key.createdAt == history[i].key.createdAt && history[j].key.id < history[i].key.id)
  {
    GrowingOnTopIsStable(tables, OfWallet(wallet), None, limit);
    PagesAreComplete(tables, OfWallet(wallet), None, limit);
    assert tables[0] in tables;
    assert Lists(Listing(tables[0], OfWallet(wallet), None), Matching(tables[0], OfWallet(wallet), None));
  }

  /**
   * The admin's wallet list, paged while wallets register and move money: every wallet matching at the first fetch,
   * each once.
   */
  lemma {:induction false} WalletListIsComplete(tables: seq<set<Row<ListedWallet>>>, status: Option<AccountStatus>,
                                                currency: Option<Currency>, limit: nat)
    requires 1 <= limit && tables != [] && GrowsOnTop(tables) && forall t | t in tables :: Keyed(t)
    requires PagesNeeded(|Matching(tables[0], WithStatusAndCurrency(status, currency), None)|, limit) <= |tables|
    ensures var list := Follow(tables, WithStatusAndCurrency(status, currency), None, limit);
            && (forall r :: r in list <==>
                  r in tables[0] && (status.Some? ==> r.data.status == status.value)
                    && (currency.Some? ==> r.data.currency == currency.value))
            && forall i, j | 0 <= i < j < |list| ::
                 list[j].key.createdAt < list[i].key.createdAt
                 || (list[j].key.createdAt == list[i].key.createdAt && list[j].key.id < list[i].key.id)
  {
    var filter := WithStatusAndCurrency(status, currency);
    GrowingOnTopIsStable(tables, filter, None, limit);
    PagesAreComplete(tables, filter, None, limit);
    assert tables[0] in tables;
    assert Lists(Listing(tables[0], filter, None), Matching(tables[0], filter, None));
  }

  // ---- rows inserted anywhere

  /** Rows are only added, above or below any cursor. */
  ghost predicate Gains<T(!new)>(tables: seq<set<Row<T>>>) {
    forall k | 0 <= k < |tables| - 1 :: tables[k] <= tables[k + 1]
  }

  /** The client follows the cursors until a page says there is no more. */
  ghost predicate ReachesEnd<T(!new)>(tables: seq<set<Row<T>>>, filter: T -> bool, cursor: Option<Key>, limit: nat)
    requires forall t | t in tables :: Keyed(t)
    decreases |tables|
  {
    && tables != []
    && var page := FetchPage(tables[0], filter, cursor, limit);
       page.hasMore ==> ReachesEnd(tables[1..], filter, page.nextCursor, limit)
  }

  /** Strictly descending, every row matching and below the cursor. */
  ghost predicate Orderly<T(!new)>(rows: seq<Row<T>>, filter: T -> bool, cursor: Option<Key>) {
    && (forall i, j | 0 <= i < j < |rows| :: Below(rows[j].key, rows[i].key))
    && (forall r | r in rows :: filter(r.data) && (cursor.Some? ==> Below(r.key, cursor.value)))
  }

  lemma {:induction false} PageIsOrderly<T(!new)>(table: set<Row<T>>, filter: T -> bool, cursor: Option<Key>,
                                                  limit: nat)
    requires 1 <= limit && Keyed(table)
    ensures var page := FetchPage(table, filter, cursor, limit);
            && Orderly(page.rows, filter, cursor)
            && (page.hasMore ==> page.rows != [] && page.nextCursor == Some(page.rows[|page.rows| - 1].key))
            && (forall r | r in page.rows :: r in table)
  {
    var all := Listing(table, filter, cursor);
    PageOfListing(all, limit);
    var rows := FetchPage(table, filter, cursor, limit).rows;
    assert rows == all[..|rows|];
    forall r | r in rows
      ensures r in Matching(table, filter, cursor)
    {
      assert r in all;
    }
  }

  /** A row that matches is on the page, or below the page's cursor. */
  lemma {:induction false} OnPageOrBelow<T(!new)>(table: set<Row<T>>, filter: T -> bool, cursor: Option<Key>,
                                                  limit: nat, r: Row<T>)
    requires 1 <= limit && Keyed(table) && r in Matching(table, filter, cursor)
    ensures var page := FetchPage(table, filter, cursor, limit);
            r in page.rows || (page.hasMore && r in Matching(table, filter, page.nextCursor))
  {
    PageSplits(table, filter, cursor, limit);
    var page := FetchPage(table, filter, cursor, limit);
    assert r in Listing(table, filter, cursor);
    if r !in page.rows && page.hasMore {
      assert r in Listing(table, filter, page.nextCursor);
    }
  }

  lemma {:induction false} OrderlyAppend<T(!new)>(top: seq<Row<T>>, rest: seq<Row<T>>, filter: T -> bool,
                                                  cursor: Option<Key>, last: Key)
    requires Orderly(top, filter, cursor) && top != [] && last == top[|top| - 1].key
             && Orderly(rest, filter, Some(last))
    ensures Orderly(top + rest, filter, cursor)
  {
    var all := top + rest;
    forall r | r in rest
      ensures cursor.Some? ==> Below(r.key, cursor.value)
    {
      assert top[|top| - 1] in top;
      assert Below(r.key, last);
    }
    forall i, j | 0 <= i < j < |all|
      ensures Below(all[j].key, all[i].key)
    {
      if i < |top| <= j {
        assert rest[j - |top|] in rest;
        assert i == |top| - 1 || Below(last, top[i].key);
      } else if |top| <= i {
        assert Below(rest[j - |top|].key, rest[i - |top|].key);
      }
    }
  }

  lemma {:induction false} PageThenRest<T(!new)>(table: set<Row<T>>, filter: T -> bool, cursor: Option<Key>, limit: nat,
                                                 rest: seq<Row<T>>)
    requires 1 <= limit && Keyed(table)
    requires var page := FetchPage(table, filter, cursor, limit);
             if page.hasMore then Orderly(rest, filter, page.nextCursor) else rest == []
    ensures Orderly(FetchPage(table, filter, cursor, limit).rows + rest, filter, cursor)
  {
    var page := FetchPage(table, filter, cursor, limit);
    PageIsOrderly(table, filter, cursor, limit);
    if page.hasMore {
      OrderlyAppend(page.rows, rest, filter, cursor, page.nextCursor.value);
    } else {
      assert page.rows + rest == page.rows;
    }
  }

  /** What a client that follows the cursors has seen is in order, whatever is added in between. */
  lemma {:induction false} FollowIsOrderly<T(!new)>(tables: seq<set<Row<T>>>, filter: T -> bool, cursor: Option<Key>,
                                                    limit: nat)
    requires 1 <= limit && forall t | t in tables :: Keyed(t)
    ensures Orderly(Follow(tables, filter, cursor, limit), filter, cursor)
    decreases |tables|
  {
    if tables != [] {
      assert tables[0] in tables;
      var page := FetchPage(tables[0], filter, cursor, limit);
      var rest := [];
      if page.hasMore {
        assert forall t | t in tables[1..] :: t in tables;
        FollowIsOrderly(tables[1..], filter, page.nextCursor, limit);
        rest := Follow(tables[1..], filter, page.nextCursor, limit);
      }
      PageThenRest(tables[0], filter, cursor, limit, rest);
      assert Follow(tables, filter, cursor, limit) == page.rows + rest;
    }
  }

  /** And nothing that matched at the first fetch is missing from it. */
  lemma {:induction false} FollowMissesNothing<T(!new)>(tables: seq<set<Row<T>>>, filter: T -> bool,
                                                        cursor: Option<Key>, limit: nat,
                                                        r: Row<T>)
    requires 1 <= limit && Gains(tables) && forall t | t in tables :: Keyed(t)
    requires ReachesEnd(tables, filter, cursor, limit)
    requires r in Matching(tables[0], filter, cursor)
    ensures r in Follow(tables, filter, cursor, limit)
    decreases |tables|
  {
    assert tables[0] in tables;
    var page := FetchPage(tables[0], filter, cursor, limit);
    OnPageOrBelow(tables[0], filter, cursor, limit, r);
    if r !in page.rows {
      var rest := tables[1..];
      assert forall t | t in rest :: t in tables;
      assert rest != [] && rest[0] == tables[1] && tables[0] <= tables[0 + 1];
      LaterGains(tables);
      FollowMissesNothing(rest, filter, page.nextCursor, limit, r);
    }
  }

  lemma {:induction false} LaterGains<T(!new)>(tables: seq<set<Row<T>>>)
    requires Gains(tables) && tables != []
    ensures Gains(tables[1..])
  {
    var later := tables[1..];
    forall k | 0 <= k < |later| - 1
      ensures later[k] <= later[k + 1]
    {
      assert later[k] == tables[k + 1] && later[k + 1] == tables[k + 2];
    }
  }

  /**
   * A wallet's ledger while entries are committed anywhere, even with an older createdAt: newest first, none twice,
   * and every entry of the first fetch is there.
   */
  lemma {:induction false} LedgerMissesNothing(tables: seq<set<Row<LedgerEntry>>>, wallet: WalletId, limit: nat)
    requires 1 <= limit && Gains(tables) && forall t | t in tables :: Keyed(t)
    requires ReachesEnd(tables, OfWallet(wallet), None, limit)
    ensures var history := Follow(tables, OfWallet(wallet), None, limit);
            && (forall i, j | 0 <= i < j < |history| ::
                 history[j].key.createdAt < history[i].key.createdAt
                 || (history[j].key.createdAt == history[i].key.createdAt && history[j].key.id < history[i].key.id))
            && (forall r | r in history :: r.data.wallet == wallet)
            && (forall r | r in tables[0] && r.data.wallet == wallet :: r in history)
  {
    FollowIsOrderly(tables, OfWallet(wallet), None, limit);
    forall r | r in tables[0] && r.data.wallet == wallet
      ensures r in Follow(tables, OfWallet(wallet), None, limit)
    {
      FollowMissesNothing(tables, OfWallet(wallet), None, limit, r);
    }
  }
}
