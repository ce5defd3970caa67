/** Keyset paging over the tenant list: newest first by (created at, id), strictly
    older than the cursor, one row more than the limit to see whether there is more. */
module Paging {
  import opened Common
  import opened Sorting
  import opened Cursor
  import opened Phases

  /** A tenant joined with its status row. */
  datatype Row = Row(id: Guid, createdAt: Ticks, phase: Phase, softDeleted: bool)

  datatype Query = Query(phase: Option<Phase>, cursor: Option<string>, limit: int)

  datatype Page = Page(items: seq<Row>, next: Option<string>)

  const MAX_LIMIT: nat := 100

  function EffectiveLimit(limit: int): (r: nat)
    ensures 1 <= r <= MAX_LIMIT
  {
    if limit < 1 then 1 else if limit > MAX_LIMIT then MAX_LIMIT else limit
  }

  function KeyOf(r: Row): Position { Position(r.createdAt, r.id) }

  // ----- The order of keys

  predicate Le(a: Position, b: Position) {
    a.createdAt < b.createdAt || (a.createdAt == b.createdAt && LexLe(a.id, b.id))
  }

  predicate Less(a: Position, b: Position) { Le(a, b) && a != b }

  lemma LeOrder(a: Position, b: Position, c: Position)
    ensures Le(a, b) || Le(b, a)
    ensures Le(a, b) && Le(b, a) ==> a == b
    ensures Le(a, b) && Le(b, c) ==> Le(a, c)
    ensures Less(a, b) && Less(b, c) ==> Less(a, c)
    ensures Less(a, b) ==> !Less(b, a) && a != b
  {
    LexTotal(a.id, b.id);
    if LexLe(a.id, b.id) && LexLe(b.id, c.id) { LexTransitive(a.id, b.id, c.id); }
    LexTotal(b.id, c.id);
  }

  predicate NewestFirst(r: Row, s: Row) { Le(KeyOf(s), KeyOf(r)) }

  lemma NewestFirstIsPreorder()
    ensures TotalPreorder(NewestFirst)
  {
    forall r, s ensures NewestFirst(r, s) || NewestFirst(s, r) {
      LeOrder(KeyOf(r), KeyOf(s), KeyOf(s));
    }
    forall r, s, t | NewestFirst(r, s) && NewestFirst(s, t) ensures NewestFirst(r, t) {
      LeOrder(KeyOf(t), KeyOf(s), KeyOf(r));
    }
  }

  // ----- ListAsync

  predicate Matches(r: Row, phase: Option<Phase>) { !r.softDeleted && (phase.None? || r.phase == phase.value) }

  predicate Selected(r: Row, phase: Option<Phase>, after: Option<Position>) {
    Matches(r, phase) && (after.None? || Less(KeyOf(r), after.value))
  }

  function Where(table: seq<Row>, phase: Option<Phase>, after: Option<Position>): (r: seq<Row>)
    ensures forall x :: x in r <==> x in table && Selected(x, phase, after)
  {
    if table == [] then []
    else if Selected(table[0], phase, after) then [table[0]] + Where(table[1..], phase, after)
    else Where(table[1..], phase, after)
  }

  /** The rows the query is about, in page order. */
  function Ordered(table: seq<Row>, phase: Option<Phase>, after: Option<Position>): seq<Row> {
    Sort(NewestFirst, Where(table, phase, after))
  }

  function List(table: seq<Row>, q: Query): Page {
    var limit := EffectiveLimit(q.limit);
    var rows := Ordered(table, q.phase, Decoded(q.cursor));
    var page := rows[..Min(limit + 1, |rows|)];
    var hasMore := |page| > limit;
    var items := page[..Min(limit, |page|)];
    Page(items, if hasMore && items != [] then Some(Encoded(KeyOf(items[|items| - 1]))) else None)
  }

  /** The primary key. */
  ghost predicate UniqueIds(table: seq<Row>) {
    forall i, j | 0 <= i < j < |table| :: table[i].id != table[j].id
  }

  /** Keys strictly descending: in page order and without repetition. */
  ghost predicate Descending(rows: seq<Row>) {
    forall i, j | 0 <= i < j < |rows| :: Less(KeyOf(rows[j]), KeyOf(rows[i]))
  }

  lemma {:induction false} WhereKeepsUnique(table: seq<Row>, phase: Option<Phase>, after: Option<Position>)
    requires UniqueIds(table)
    ensures UniqueIds(Where(table, phase, after))
  {
    if table != [] {
      WhereKeepsUnique(table[1..], phase, after);
      var rest := Where(table[1..], phase, after);
      forall j | 0 <= j < |rest| ensures rest[j].id != table[0].id {
        assert rest[j] in table[1..];
      }
    }
  }

  lemma {:induction false} UniqueIsDistinct(s: seq<Row>, x: Row)
    requires UniqueIds(s)
    ensures multiset(s)[x] <= 1
  {
    if s != [] {
      UniqueIsDistinct(s[1..], x);
      assert s == [s[0]] + s[1..];
      assert multiset(s) == multiset{s[0]} + multiset(s[1..]);
      if s[0] == x {
        assert x !in s[1..];
      }
    }
  }

  lemma {:induction false} PickTwo(s: seq<Row>, i: nat, j: nat)
    requires i < j < |s|
    ensures s[i] == s[j] ==> multiset(s)[s[i]] >= 2
  {
    assert s == s[..j] + s[j..];
    assert s[i] in s[..j] && s[j] in s[j..];
  }

  lemma OrderedFacts(table: seq<Row>, phase: Option<Phase>, after: Option<Position>)
    requires UniqueIds(table)
    ensures var rows := Ordered(table, phase, after);
      Descending(rows) && forall x :: x in rows <==> x in table && Selected(x, phase, after)
  {
    var ms, rows := Where(table, phase, after), Ordered(table, phase, after);
    NewestFirstIsPreorder();
    SortFacts(NewestFirst, ms);
    WhereKeepsUnique(table, phase, after);
    forall x ensures x in rows <==> x in ms { SortMembership(NewestFirst, ms, x); }
    forall i, j | 0 <= i < j < |rows| ensures Less(KeyOf(rows[j]), KeyOf(rows[i])) {
      assert NewestFirst(rows[i], rows[j]);
      PickTwo(rows, i, j);
      UniqueIsDistinct(ms, rows[i]);
      assert rows[i] in rows && rows[j] in rows;
    }
  }

  /** Not deleted, of the asked phase, and strictly older than the cursor row: created earlier, or at the
      same time with the smaller id. */
  ghost predicate Due(r: Row, phase: Option<Phase>, after: Option<Position>) {
    && !r.softDeleted && (phase.Some? ==> r.phase == phase.value)
    && (after.Some? ==> Older(KeyOf(r), after.value))
  }

  ghost predicate Older(a: Position, b: Position) {
    a.createdAt < b.createdAt || (a.createdAt == b.createdAt && a.id != b.id && LexLe(a.id, b.id))
  }

  lemma SelectedMeans(r: Row, phase: Option<Phase>, after: Option<Position>, a: Position, b: Position)
    ensures Selected(r, phase, after) <==> Due(r, phase, after)
    ensures Less(a, b) <==> Older(a, b)
  {
  }

  /** A page, in the query's own terms: as many of the due rows as the clamped limit allows, newest first; what
      is left out is older than all it shows; there is a next cursor exactly when something is left out. */
  lemma PageMeans(table: seq<Row>, q: Query)
    requires UniqueIds(table)
    ensures var page, after := List(table, q), Decoded(q.cursor);
      var due := set x <- table | Due(x, q.phase, after);
      var limit := if q.limit < 1 then 1 else if q.limit > 100 then 100 else q.limit;
      && (forall x <- page.items :: x in due)
      && (forall i, j | 0 <= i < j < |page.items| :: Older(KeyOf(page.items[j]), KeyOf(page.items[i])))
      && |page.items| == Min(limit, |due|)
      && (page.next.None? <==> |due| <= limit)
      && (page.next.Some? ==>
            forall x <- due, y <- page.items | x !in page.items :: Older(KeyOf(x), KeyOf(y)))
  {
    var page, after := List(table, q), Decoded(q.cursor);
    var due := set x <- table | Due(x, q.phase, after);
    var rows := Ordered(table, q.phase, after);
    PageFacts(table, q);
    PageSize(table, q);
    OrderedFacts(table, q.phase, after);
    forall x ensures x in rows <==> x in due { SelectedMeans(x, q.phase, after, KeyOf(x), KeyOf(x)); }
    hide Due, Selected, List, Ordered, Decoded, Less, Older;
    OrderIsWithoutRepeats(rows, due);
    forall i, j | 0 <= i < j < |page.items| ensures Older(KeyOf(page.items[j]), KeyOf(page.items[i])) {
      SelectedMeans(page.items[i], q.phase, after, KeyOf(page.items[j]), KeyOf(page.items[i]));
    }
    if page.next.Some? {
      forall x, y | x in due && y in page.items && x !in page.items ensures Older(KeyOf(x), KeyOf(y)) {
        LeftOutIsOlder(page.items, x, y);
      }
    }
  }

  lemma LeftOutIsOlder(items: seq<Row>, x: Row, y: Row)
    requires Descending(items) && y in items && Less(KeyOf(x), KeyOf(items[|items| - 1]))
    ensures Older(KeyOf(x), KeyOf(y))
  {
    var last := KeyOf(items[|items| - 1]);
    hide Less;
    LeOrder(KeyOf(x), last, KeyOf(y));
    SelectedMeans(x, None, None, KeyOf(x), KeyOf(y));
  }

  lemma PageSize(table: seq<Row>, q: Query)
    ensures var page, rows := List(table, q), Ordered(table, q.phase, Decoded(q.cursor));
      && |page.items| == Min(EffectiveLimit(q.limit), |rows|)
      && (page.next.None? <==> |rows| <= EffectiveLimit(q.limit))
  {
    hide Ordered, Decoded, Encoded, EffectiveLimit;
  }

  /** A strictly descending list has as many rows as its set of rows. */
  lemma {:induction false} OrderIsWithoutRepeats(rows: seq<Row>, due: set<Row>)
    requires Descending(rows) && forall x :: x in rows <==> x in due
    ensures |rows| == |due|
  {
    if rows == [] {
      assert due == {};
    } else {
      forall x ensures x in rows[1..] <==> x in due - {rows[0]} { TailMembers(rows, x); }
      OrderIsWithoutRepeats(rows[1..], due - {rows[0]});
    }
  }

  /** One page: the newest selected rows; nothing selected is skipped, and the next
      cursor is the last row shown. */
  lemma PageFacts(table: seq<Row>, q: Query)
    requires UniqueIds(table)
    ensures var page, after := List(table, q), Decoded(q.cursor);
      && Descending(page.items)
      && (forall x <- page.items :: x in table && Selected(x, q.phase, after))
      && (page.next.None? ==> page.items == Ordered(table, q.phase, after))
      && (page.next.Some? ==>
            && page.items != []
            && Decoded(page.next) == Some(KeyOf(page.items[|page.items| - 1]))
            && forall x <- table | Selected(x, q.phase, after) && x !in page.items ::
                 Less(KeyOf(x), KeyOf(page.items[|page.items| - 1])))
  {
    hide *;
    var page, rows := List(table, q), Ordered(table, q.phase, Decoded(q.cursor));
    PageIsPrefix(table, q);
    OrderedFacts(table, q.phase, Decoded(q.cursor));
    PrefixFacts(rows, |page.items|);
  }

  /** The first n rows of a list in page order. */
  lemma PrefixFacts(rows: seq<Row>, n: nat)
    requires Descending(rows) && n <= |rows|
    ensures Descending(rows[..n])
    ensures forall x <- rows[..n] :: x in rows
    ensures n > 0 ==> forall x <- rows | x !in rows[..n] :: Less(KeyOf(x), KeyOf(rows[n - 1]))
  {
    hide Less;
    forall i | 0 <= i < n ensures rows[i] in rows[..n] {
      assert rows[..n][i] == rows[i];
    }
    if n > 0 {
      forall x | x in rows && x !in rows[..n] ensures Less(KeyOf(x), KeyOf(rows[n - 1])) {
        var i :| 0 <= i < |rows| && rows[i] == x;
      }
    }
  }

  // ----- Following the cursor

  /** The pages of a client that follows the cursor to its end, where every page may
      see a different table and ask for a different limit. */
  ghost predicate Walk(tables: seq<seq<Row>>, limits: seq<int>, phase: Option<Phase>, cursor: Option<string>,
                       pages: seq<Page>) {
    && |tables| == |limits| == |pages| > 0
    && pages[0] == List(tables[0], Query(phase, cursor, limits[0]))
    && if |pages| == 1 then pages[0].next.None?
       else pages[0].next.Some? && Walk(tables[1..], limits[1..], phase, pages[0].next, pages[1..])
  }

  function Returned(pages: seq<Page>): seq<Row> {
    if pages == [] then [] else pages[0].items + Returned(pages[1..])
  }

  ghost predicate AllUnique(tables: seq<seq<Row>>) { forall i | 0 <= i < |tables| :: UniqueIds(tables[i]) }

  /** No row is returned twice, and all come newest first, whatever is inserted or
      removed between two pages. */
  lemma {:induction false} NoRowTwice(tables: seq<seq<Row>>, limits: seq<int>, phase: Option<Phase>,
                                      cursor: Option<string>, pages: seq<Page>)
    requires Walk(tables, limits, phase, cursor, pages) && AllUnique(tables)
    ensures Descending(Returned(pages))
    ensures Below(Returned(pages), Decoded(cursor))
    decreases |pages|
  {
    hide List, Decoded, UniqueIds, Descending, Selected;
    PageIsBelow(tables[0], Query(phase, cursor, limits[0]));
    if |pages| == 1 {
      assert Returned(pages) == pages[0].items;
    } else {
      NoRowTwice(tables[1..], limits[1..], phase, pages[0].next, pages[1..]);
      DescendingConcat(pages[0].items, Returned(pages[1..]));
      BelowConcat(pages[0].items, Returned(pages[1..]), Decoded(cursor));
    }
  }

  ghost predicate Below(rows: seq<Row>, after: Option<Position>) {
    forall x <- rows :: after.Some? ==> Less(KeyOf(x), after.value)
  }

  lemma PageIsBelow(table: seq<Row>, q: Query)
    requires UniqueIds(table)
    ensures var page := List(table, q);
      && Descending(page.items) && Below(page.items, Decoded(q.cursor))
      && (page.next.Some? ==>
            page.items != [] && Decoded(page.next) == Some(KeyOf(page.items[|page.items| - 1])))
  {
    hide List, Decoded, UniqueIds, Descending;
    PageFacts(table, q);
  }

  /** What comes after the last row of a page is below what the page is below. */
  lemma BelowConcat(x: seq<Row>, y: seq<Row>, after: Option<Position>)
    requires x != [] && Below(x, after) && Below(y, Some(KeyOf(x[|x| - 1])))
    ensures Below(x + y, after)
  {
    hide Less;
    if after.Some? {
      var last := x[|x| - 1];
      assert last in x;
      forall r | r in x + y ensures Less(KeyOf(r), after.value) {
        if r in y { LeOrder(KeyOf(r), KeyOf(last), after.value); }
      }
    }
  }

  lemma DescendingConcat(x: seq<Row>, y: seq<Row>)
    requires Descending(x) && Descending(y)
    requires x != [] && forall r <- y :: Less(KeyOf(r), KeyOf(x[|x| - 1]))
    ensures Descending(x + y)
  {
    var s := x + y;
    var last := KeyOf(x[|x| - 1]);
    forall i, j | 0 <= i < j < |s| ensures Less(KeyOf(s[j]), KeyOf(s[i])) {
      if i < |x| <= j {
        assert s[j] in y;
        LeOrder(KeyOf(s[j]), last, KeyOf(s[i]));
      }
    }
  }

  /** A key is in the table and matches the filter. */
  ghost predicate Shows(table: seq<Row>, phase: Option<Phase>, key: Position) {
    exists x <- table :: KeyOf(x) == key && Due(x, phase, None)
  }

  /** A tenant that is present and matching on every page is returned (and, by
      NoRowTwice, only once). */
  lemma {:induction false} NoRowMissed(tables: seq<seq<Row>>, limits: seq<int>, phase: Option<Phase>,
                                       cursor: Option<string>, pages: seq<Page>, key: Position)
    requires Walk(tables, limits, phase, cursor, pages) && AllUnique(tables)
    requires forall i | 0 <= i < |tables| :: Shows(tables[i], phase, key)
    requires Decoded(cursor).Some? ==> Less(key, Decoded(cursor).value)
    ensures HasKey(Returned(pages), key)
    decreases |pages|
  {
    hide List, Decoded, UniqueIds, Shows, Selected, Descending;
    ReturnedHead(pages);
    if !HasKey(pages[0].items, key) {
      NotOnPage(tables[0], Query(phase, cursor, limits[0]), key);
      NoRowMissed(tables[1..], limits[1..], phase, pages[0].next, pages[1..], key);
    }
  }

  ghost predicate HasKey(rows: seq<Row>, key: Position) { exists x <- rows :: KeyOf(x) == key }

  lemma ReturnedHead(pages: seq<Page>)
    requires pages != []
    ensures forall x :: x in Returned(pages) <==> x in pages[0].items || x in Returned(pages[1..])
  {
  }

  /** A row that should come and is not on the page comes after it. */
  lemma NotOnPage(table: seq<Row>, q: Query, key: Position)
    requires UniqueIds(table) && Shows(table, q.phase, key) && !HasKey(List(table, q).items, key)
    requires Decoded(q.cursor).Some? ==> Less(key, Decoded(q.cursor).value)
    ensures var next := List(table, q).next;
      next.Some? && Decoded(next).Some? && Less(key, Decoded(next).value)
  {
    hide List, Decoded, UniqueIds, Less, Descending;
    PageFacts(table, q);
    var x :| x in table && KeyOf(x) == key && Due(x, q.phase, None);
    OrderedFacts(table, q.phase, Decoded(q.cursor));
    assert Selected(x, q.phase, Decoded(q.cursor));
  }

  // ----- On a table that does not change

  lemma {:induction false} DescendingIsDetermined(s: seq<Row>, t: seq<Row>)
    requires Descending(s) && Descending(t) && forall x :: x in s <==> x in t
    ensures s == t
  {
    assert t != [] ==> t[0] in t;
    if s != [] {
      assert s[0] in t;
      assert t[0] in s;
      var i :| 0 <= i < |t| && t[i] == s[0];
      var j :| 0 <= j < |s| && s[j] == t[0];
      LeOrder(KeyOf(s[0]), KeyOf(t[0]), KeyOf(t[0]));
      assert s[0] == t[0];
      forall x ensures x in s[1..] <==> x in t[1..] {
        TailMembers(s, x);
        TailMembers(t, x);
      }
      DescendingIsDetermined(s[1..], t[1..]);
      assert s == [s[0]] + s[1..] && t == [t[0]] + t[1..];
    }
  }

  lemma TailMembers(s: seq<Row>, x: Row)
    requires Descending(s) && s != []
    ensures x in s[1..] <==> x in s && x != s[0]
  {
    assert s == [s[0]] + s[1..];
    if x in s[1..] {
      var i :| 0 <= i < |s[1..]| && s[1..][i] == x;
      assert Less(KeyOf(s[i + 1]), KeyOf(s[0]));
    }
  }

  /** What is older than the n-th row is the list without its first n rows. */
  lemma RestOfOrder(table: seq<Row>, phase: Option<Phase>, after: Option<Position>, n: nat)
    requires UniqueIds(table) && 0 < n <= |Ordered(table, phase, after)|
    ensures var rows := Ordered(table, phase, after);
      Ordered(table, phase, Some(KeyOf(rows[n - 1]))) == rows[n..]
  {
    hide Ordered, UniqueIds, Matches, Less, Descending;
    var rows := Ordered(table, phase, after);
    var last := KeyOf(rows[n - 1]);
    OrderedFacts(table, phase, after);
    OrderedFacts(table, phase, Some(last));
    SuffixFacts(rows, n);
    assert rows[n - 1] in rows;
    forall x ensures x in Ordered(table, phase, Some(last)) <==> x in rows[n..] {
      if x in table && Matches(x, phase) && Less(KeyOf(x), last) && after.Some? {
        LeOrder(KeyOf(x), last, after.value);
      }
    }
    DescendingIsDetermined(Ordered(table, phase, Some(last)), rows[n..]);
  }

  /** Behind the n-th row of a list in page order is exactly what is older. */
  lemma SuffixFacts(rows: seq<Row>, n: nat)
    requires Descending(rows) && 0 < n <= |rows|
    ensures Descending(rows[n..])
    ensures forall x :: x in rows[n..] <==> x in rows && Less(KeyOf(x), KeyOf(rows[n - 1]))
  {
    hide Less;
    var last := KeyOf(rows[n - 1]);
    forall x ensures x in rows[n..] <==> x in rows && Less(KeyOf(x), last) {
      if x in rows && Less(KeyOf(x), last) {
        var i :| 0 <= i < |rows| && rows[i] == x;
        LeOrder(last, KeyOf(x), last);
        assert i >= n;
        assert rows[n..][i - n] == x;
      }
    }
  }

  /** The pages concatenate to the whole list, newest first, whatever the limits. */
  lemma {:induction false} FixedTableIsListed(table: seq<Row>, tables: seq<seq<Row>>, limits: seq<int>,
                                              phase: Option<Phase>, cursor: Option<string>, pages: seq<Page>)
    requires UniqueIds(table) && forall i | 0 <= i < |tables| :: tables[i] == table
    requires Walk(tables, limits, phase, cursor, pages)
    ensures Returned(pages) == Ordered(table, phase, Decoded(cursor))
    decreases |pages|
  {
    hide *;
    var rows := Ordered(table, phase, Decoded(cursor));
    WalkUnfold(tables, limits, phase, cursor, pages);
    var page := pages[0];
    assert tables[0] == table;
    PageIsPrefix(table, Query(phase, cursor, limits[0]));
    if |pages| > 1 {
      var n := |page.items|;
      RestOfOrder(table, phase, Decoded(cursor), n);
      FixedTableIsListed(table, tables[1..], limits[1..], phase, page.next, pages[1..]);
      assert rows == rows[..n] + rows[n..];
    }
  }

  lemma PageIsPrefix(table: seq<Row>, q: Query)
    ensures var page, rows := List(table, q), Ordered(table, q.phase, Decoded(q.cursor));
      && |page.items| <= |rows| && page.items == rows[..|page.items|]
      && (page.next.None? ==> page.items == rows)
      && (page.next.Some? ==> page.items != [] && Decoded(page.next) == Some(KeyOf(rows[|page.items| - 1])))
  {
    hide Ordered, Encoded, Decoded, EffectiveLimit;
    var page, rows := List(table, q), Ordered(table, q.phase, Decoded(q.cursor));
    var n := Min(EffectiveLimit(q.limit), |rows|);
    assert page.items == rows[..n];
    if page.next.Some? {
      EncodedDecodes(KeyOf(rows[n - 1]));
    }
  }

  lemma WalkUnfold(tables: seq<seq<Row>>, limits: seq<int>, phase: Option<Phase>, cursor: Option<string>,
                   pages: seq<Page>)
    requires Walk(tables, limits, phase, cursor, pages)
    ensures |tables| == |limits| == |pages| > 0 && pages[0] == List(tables[0], Query(phase, cursor, limits[0]))
    ensures |pages| == 1 ==> pages[0].next.None? && Returned(pages) == pages[0].items
    ensures |pages| > 1 ==>
      && pages[0].next.Some? && Walk(tables[1..], limits[1..], phase, pages[0].next, pages[1..])
      && Returned(pages) == pages[0].items + Returned(pages[1..])
  {
    hide List;
    assert |pages| == 1 ==> Returned(pages[1..]) == [];
  }

  /** Following the cursor on a fixed table ends. */
  function Follow(table: seq<Row>, limit: int, phase: Option<Phase>, cursor: Option<string>): (pages: seq<Page>)
    requires UniqueIds(table)
    ensures Walk(seq(|pages|, _ => table), seq(|pages|, _ => limit), phase, cursor, pages)
    decreases |Ordered(table, phase, Decoded(cursor))|
  {
    var page := List(table, Query(phase, cursor, limit));
    if page.next.None? then [page]
    else
      NextIsShorter(table, Query(phase, cursor, limit));
      var rest := Follow(table, limit, phase, page.next);
      WalkCons(table, limit, phase, cursor, rest);
      [page] + rest
  }

  lemma NextIsShorter(table: seq<Row>, q: Query)
    requires UniqueIds(table) && List(table, q).next.Some?
    ensures |Ordered(table, q.phase, Decoded(List(table, q).next))| < |Ordered(table, q.phase, Decoded(q.cursor))|
  {
    hide *;
    var page := List(table, q);
    PageIsPrefix(table, q);
    RestOfOrder(table, q.phase, Decoded(q.cursor), |page.items|);
  }

  lemma WalkCons(table: seq<Row>, limit: int, phase: Option<Phase>, cursor: Option<string>, rest: seq<Page>)
    requires List(table, Query(phase, cursor, limit)).next.Some?
    requires Walk(seq(|rest|, _ => table), seq(|rest|, _ => limit), phase,
                  List(table, Query(phase, cursor, limit)).next, rest)
    ensures var pages := [List(table, Query(phase, cursor, limit))] + rest;
      Walk(seq(|pages|, _ => table), seq(|pages|, _ => limit), phase, cursor, pages)
  {
    hide List;
    var pages := [List(table, Query(phase, cursor, limit))] + rest;
    assert pages[1..] == rest;
    assert seq(|pages|, _ => table)[1..] == seq(|rest|, _ => table);
    assert seq(|pages|, _ => limit)[1..] == seq(|rest|, _ => limit);
  }
}
