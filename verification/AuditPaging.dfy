/** Keyset paging over the audit trail (`AuditRepository.list`,
    `AuditQueryService.query`): following the cursors yields every row of the
    window once, in order, even while rows are being added. */
module AuditPaging {
  import opened Nums

  datatype Row = Row(at: int, id: nat, action: string, user: Option<nat>, node: Option<nat>, session: Option<nat>)

  datatype Key = Key(at: int, id: nat)

  /** The resolved window and filters; None and the empty list mean no filter. */
  datatype Query = Query(start: int, end: int, actions: seq<string>, user: Option<nat>, node: Option<nat>,
                         session: Option<nat>)

  function KeyOf(r: Row): Key { Key(r.at, r.id) }

  predicate Less(a: Key, b: Key) {
    a.at < b.at || (a.at == b.at && a.id < b.id)
  }

  /** `id` is the primary key. */
  predicate UniqueIds(t: set<Row>) {
    forall r, s :: r in t && s in t && r.id == s.id ==> r == s
  }

  predicate Matches(q: Query, r: Row) {
    && q.start <= r.at <= q.end
    && (q.actions != [] ==> r.action in q.actions)
    && (q.user.Some? ==> r.user == q.user)
    && (q.node.Some? ==> r.node == q.node)
    && (q.session.Some? ==> r.session == q.session)
  }

  predicate Past(cursor: Option<Key>, r: Row) {
    cursor.Some? ==> r.at < cursor.value.at || (r.at == cursor.value.at && r.id < cursor.value.id)
  }

  /** The rows the statement selects before its limit. */
  function Eligible(t: set<Row>, q: Query, cursor: Option<Key>): set<Row> {
    set r | r in t && Matches(q, r) && Past(cursor, r)
  }

  // ------------------------------------------------------------ newest first

  predicate IsNewest(s: set<Row>, m: Row) {
    m in s && forall r :: r in s && r != m ==> Less(KeyOf(r), KeyOf(m))
  }

  lemma {:induction false} HasNewest(s: set<Row>)
    requires s != {} && UniqueIds(s)
    ensures exists m :: IsNewest(s, m)
    decreases |s|
  {
    var x :| x in s;
    if s == {x} {
      assert IsNewest(s, x);
    } else {
      HasNewest(s - {x});
      var m :| IsNewest(s - {x}, m);
      assert x.id != m.id;
      if Less(KeyOf(m), KeyOf(x)) {
        assert IsNewest(s, x);
      } else {
        assert IsNewest(s, m);
      }
    }
  }

  /** `order by created_at desc, id desc`. */
  ghost function Ordered(s: set<Row>): seq<Row>
    requires UniqueIds(s)
    decreases |s|
  {
    if s == {} then []
    else
      HasNewest(s);
      var m :| IsNewest(s, m);
      [m] + Ordered(s - {m})
  }

  predicate Descending(rows: seq<Row>) {
    forall i, j :: 0 <= i < j < |rows| ==> Less(KeyOf(rows[j]), KeyOf(rows[i]))
  }

  lemma {:induction false} OrderedIs(s: set<Row>)
    requires UniqueIds(s)
    ensures Descending(Ordered(s)) && |Ordered(s)| == |s|
    ensures forall r :: r in Ordered(s) <==> r in s
    decreases |s|
  {
    hide Descending;
    NoRows();
    if s != {} {
      HasNewest(s);
      var m := Ordered(s)[0];
      assert IsNewest(s, m);
      OrderedIs(s - {m});
      NewestFirst(s, m, Ordered(s - {m}));
    }
  }

  lemma NoRows()
    ensures Descending([])
  {
  }

  lemma NewestFirst(s: set<Row>, m: Row, rest: seq<Row>)
    requires IsNewest(s, m) && Descending(rest) && forall r :: r in rest <==> r in s && r != m
    ensures Descending([m] + rest)
    ensures forall r :: r in [m] + rest <==> r in s
  {
    assert forall j :: 0 <= j < |rest| ==> rest[j] in rest;
  }

  /** There is only one descending list of a set. */
  lemma {:induction false} OrderIsUnique(a: seq<Row>, b: seq<Row>)
    requires Descending(a) && Descending(b) && forall r :: r in a <==> r in b
    ensures a == b
  {
    if a == [] {
      HasFirst(b);
    } else {
      assert a[0] in b;
      assert b[0] in a;
      var i :| 0 <= i < |b| && b[i] == a[0];
      var j :| 0 <= j < |a| && a[j] == b[0];
      assert i == 0 && j == 0;
      forall r
        ensures r in a[1..] <==> r in b[1..]
      {
        TailMembers(a, r);
        TailMembers(b, r);
      }
      OrderIsUnique(a[1..], b[1..]);
      assert a == [a[0]] + a[1..] && b == [b[0]] + b[1..];
    }
  }

  lemma HasFirst(b: seq<Row>)
    ensures b != [] ==> exists r :: r in b
  {
    if b != [] {
      assert b[0] in b;
    }
  }

  lemma TailMembers(a: seq<Row>, r: Row)
    requires Descending(a) && a != []
    ensures r in a[1..] <==> r in a && r != a[0]
  {
    if r in a && r != a[0] {
      var i :| 0 <= i < |a| && a[i] == r;
      assert a[1..][i - 1] == r;
    }
    if r in a[1..] {
      var i :| 0 <= i < |a[1..]| && a[1..][i] == r;
      assert a[i + 1] == r;
    }
  }

  // ------------------------------------------------------------ one page

  datatype Page = Page(items: seq<Row>, next: Option<Key>)

  /** `list` with its limit, which is one more than the page. */
  ghost function Listed(t: set<Row>, q: Query, cursor: Option<Key>, limit: nat): seq<Row>
    requires UniqueIds(t)
  {
    var rows := Ordered(Eligible(t, q, cursor));
    if |rows| <= limit then rows else rows[..limit]
  }

  /** `query`. */
  ghost function GetPage(t: set<Row>, q: Query, cursor: Option<Key>, size: nat): Page
    requires UniqueIds(t) && size >= 1
  {
    var rows := Listed(t, q, cursor, size + 1);
    var page := if |rows| <= size then rows else rows[..size];
    Page(page, if |rows| > size && page != [] then Some(KeyOf(page[|page| - 1])) else None)
  }

  /** A page is the newest rows past its cursor; it has a successor exactly when
      there are more, and what the successor selects is exactly the rest. */
  lemma PageIs(t: set<Row>, q: Query, cursor: Option<Key>, size: nat)
    requires UniqueIds(t) && size >= 1
    ensures var page, rows := GetPage(t, q, cursor, size), Ordered(Eligible(t, q, cursor));
            && page.items <= rows
            && (page.next.None? ==> page.items == rows)
            && (page.next.Some? ==>
                  |page.items| == size < |rows|
                  && page.next == Some(KeyOf(rows[size - 1]))
                  && rows[size..] == Ordered(Eligible(t, q, page.next)))
  {
    hide Eligible, Ordered, Descending;
    StillUnique(t, q, cursor);
    if |Ordered(Eligible(t, q, cursor))| > size {
      RestIsEligible(t, q, cursor, size);
    }
  }

  lemma RestIsEligible(t: set<Row>, q: Query, cursor: Option<Key>, size: nat)
    requires UniqueIds(t) && size >= 1 && |Ordered(Eligible(t, q, cursor))| > size
    ensures var rows := Ordered(Eligible(t, q, cursor));
            rows[size..] == Ordered(Eligible(t, q, Some(KeyOf(rows[size - 1]))))
  {
    var s := Eligible(t, q, cursor);
    var rows := Ordered(s);
    var rest := Eligible(t, q, Some(KeyOf(rows[size - 1])));
    OrderedIs(s);
    OrderedIs(rest);
    hide Ordered;
    assert rows[size - 1] in s by {
      assert rows[size - 1] in rows;
    }
    forall r
      ensures r in rows[size..] <==> r in rest
    {
      RestMembers(rows, size, r);
      assert r in rest ==> r in s;
    }
    OrderIsUnique(rows[size..], Ordered(rest));
  }

  lemma RestMembers(rows: seq<Row>, k: nat, r: Row)
    requires Descending(rows) && 1 <= k <= |rows|
    ensures r in rows[k..] <==> r in rows && Less(KeyOf(r), KeyOf(rows[k - 1]))
  {
    if r in rows && Less(KeyOf(r), KeyOf(rows[k - 1])) {
      var i :| 0 <= i < |rows| && rows[i] == r;
      assert rows[k..][i - k] == r;
    }
    if r in rows[k..] {
      var i :| 0 <= i < |rows[k..]| && rows[k..][i] == r;
      assert rows[k + i] == r;
    }
  }

  // ------------------------------------------------------------ the walk over a fixed table

  /** All pages, following the cursors to the end: it ends because the rows past
      the cursor become fewer. */
  ghost function AllPages(t: set<Row>, q: Query, cursor: Option<Key>, size: nat): seq<Row>
    requires UniqueIds(t) && size >= 1
    decreases |Eligible(t, q, cursor)|
  {
    var page := GetPage(t, q, cursor, size);
    PageIs(t, q, cursor, size);
    OrderedIs(Eligible(t, q, cursor));
    OrderedIs(Eligible(t, q, page.next));
    if page.next.None? then page.items else page.items + AllPages(t, q, page.next, size)
  }

  /** Whatever the page size, the pages together are the whole window, newest first. */
  lemma {:induction false} PagesAreTheWindow(t: set<Row>, q: Query, cursor: Option<Key>, size: nat)
    requires UniqueIds(t) && size >= 1
    ensures AllPages(t, q, cursor, size) == Ordered(Eligible(t, q, cursor))
    decreases |Eligible(t, q, cursor)|
  {
    hide GetPage, Eligible, Ordered, Descending, UniqueIds;
    var page := GetPage(t, q, cursor, size);
    StillUnique(t, q, cursor);
    PageIs(t, q, cursor, size);
    if page.next.Some? {
      StillUnique(t, q, page.next);
      OrderedIs(Eligible(t, q, cursor));
      OrderedIs(Eligible(t, q, page.next));
      PagesAreTheWindow(t, q, page.next, size);
      var rows := Ordered(Eligible(t, q, cursor));
      assert rows == page.items + rows[size..];
    }
  }

  lemma StillUnique(t: set<Row>, q: Query, cursor: Option<Key>)
    requires UniqueIds(t)
    ensures UniqueIds(Eligible(t, q, cursor))
  {
  }

  /** Each cursor is strictly below the one before it. */
  lemma CursorsDecrease(t: set<Row>, q: Query, cursor: Option<Key>, size: nat)
    requires UniqueIds(t) && size >= 1
    ensures var next := GetPage(t, q, cursor, size).next;
            next.Some? && cursor.Some? ==> Less(next.value, cursor.value)
  {
    PageIs(t, q, cursor, size);
    OrderedIs(Eligible(t, q, cursor));
    var page := GetPage(t, q, cursor, size);
    if page.next.Some? {
      assert page.items[size - 1] in page.items;
    }
  }

  // ------------------------------------------------------------ the walk while rows are added

  /** Page `i` is read from `tables[i]`, and the walk ends with its last page. */
  ghost predicate Walk(tables: seq<set<Row>>, q: Query, cursor: Option<Key>, size: nat, pages: seq<seq<Row>>)
    requires size >= 1 && forall i :: 0 <= i < |tables| ==> UniqueIds(tables[i])
    decreases |tables|
  {
    && |tables| == |pages| > 0
    && var page := GetPage(tables[0], q, cursor, size);
       && pages[0] == page.items
       && if page.next.None? then |pages| == 1 else Walk(tables[1..], q, page.next, size, pages[1..])
  }

  /** Rows are only ever added. */
  predicate Growing(tables: seq<set<Row>>) {
    forall i, j :: 0 <= i <= j < |tables| ==> tables[i] <= tables[j]
  }

  function Flat(pages: seq<seq<Row>>): seq<Row> {
    if pages == [] then [] else pages[0] + Flat(pages[1..])
  }

  /** What a walk of growing tables returned: nothing twice, everything that was
      there at its first page, and nothing that was not there at its last. */
  lemma {:induction false} WalkIsComplete(tables: seq<set<Row>>, q: Query, cursor: Option<Key>, size: nat,
                                          pages: seq<seq<Row>>)
    requires size >= 1 && forall i :: 0 <= i < |tables| ==> UniqueIds(tables[i])
    requires Walk(tables, q, cursor, size, pages) && Growing(tables)
    ensures Descending(Flat(pages))
    ensures forall r :: r in Eligible(tables[0], q, cursor) ==> r in Flat(pages)
    ensures forall r :: r in Flat(pages) ==> r in Eligible(tables[|tables| - 1], q, cursor)
    decreases |tables|
  {
    hide GetPage, Eligible, Ordered, Descending, UniqueIds;
    var page := GetPage(tables[0], q, cursor, size);
    if page.next.None? {
      LastPage(tables[0], q, cursor, size);
      assert Flat(pages[1..]) == [];
      assert Flat(pages) == pages[0];
    } else {
      assert tables[1..][|tables| - 2] == tables[|tables| - 1];
      assert Growing(tables[1..]) by {
        assert forall i :: 0 <= i < |tables| - 1 ==> tables[1..][i] == tables[i + 1];
      }
      WalkIsComplete(tables[1..], q, page.next, size, pages[1..]);
      FirstPageThenRest(tables[0], tables[1], tables[|tables| - 1], q, cursor, size, page, Flat(pages[1..]));
    }
  }

  /** So a row that was there all along is returned exactly if it is what was asked for. */
  lemma WalkReturnsWhatWasAsked(tables: seq<set<Row>>, q: Query, size: nat, pages: seq<seq<Row>>, r: Row)
    requires size >= 1 && forall i :: 0 <= i < |tables| ==> UniqueIds(tables[i])
    requires Walk(tables, q, None, size, pages) && Growing(tables) && r in tables[0]
    ensures r in Flat(pages)
       <==> && q.start <= r.at && r.at <= q.end
            && (q.actions == [] || exists i :: 0 <= i < |q.actions| && q.actions[i] == r.action)
            && (q.user == None || r.user == q.user)
            && (q.node == None || r.node == q.node)
            && (q.session == None || r.session == q.session)
  {
    WalkIsComplete(tables, q, None, size, pages);
    assert Growing(tables) ==> tables[0] <= tables[|tables| - 1];
    assert r in tables[|tables| - 1];
    hide Walk, Flat, Growing, UniqueIds, Descending;
  }

  lemma LastPage(t: set<Row>, q: Query, cursor: Option<Key>, size: nat)
    requires UniqueIds(t) && size >= 1 && GetPage(t, q, cursor, size).next.None?
    ensures Descending(GetPage(t, q, cursor, size).items)
    ensures forall r :: r in GetPage(t, q, cursor, size).items <==> r in Eligible(t, q, cursor)
  {
    PageIs(t, q, cursor, size);
    OrderedIs(Eligible(t, q, cursor));
  }

  lemma DescendingJoin(a: seq<Row>, b: seq<Row>)
    requires Descending(a) && Descending(b) && a != []
    requires forall r :: r in b ==> Less(KeyOf(r), KeyOf(a[|a| - 1]))
    ensures Descending(a + b)
  {
    forall i, j | 0 <= i < j < |a + b|
      ensures Less(KeyOf((a + b)[j]), KeyOf((a + b)[i]))
    {
      if i < |a| <= j {
        assert (a + b)[j] == b[j - |a|] && b[j - |a|] in b;
        assert i < |a| - 1 ==> Less(KeyOf(a[|a| - 1]), KeyOf(a[i]));
      }
    }
  }

  /** What a page with a successor says about rows: its own are eligible, and an
      eligible row is on it or past its cursor. */
  lemma PageDivides(t: set<Row>, q: Query, cursor: Option<Key>, size: nat)
    requires UniqueIds(t) && size >= 1 && GetPage(t, q, cursor, size).next.Some?
    ensures var page := GetPage(t, q, cursor, size);
            && page.items != [] && page.next == Some(KeyOf(page.items[|page.items| - 1]))
            && Descending(page.items)
            && (forall r :: r in page.items ==> r in Eligible(t, q, cursor))
            && (forall r :: r in Eligible(t, q, cursor) ==> r in page.items || r in Eligible(t, q, page.next))
  {
    hide GetPage, Eligible, Ordered, UniqueIds;
    StillUnique(t, q, cursor);
    var page, rows := GetPage(t, q, cursor, size), Ordered(Eligible(t, q, cursor));
    StillUnique(t, q, page.next);
    PageIs(t, q, cursor, size);
    OrderedIs(Eligible(t, q, cursor));
    OrderedIs(Eligible(t, q, page.next));
    assert rows == page.items + rows[size..];
  }

  /** Past a page's cursor means past the page's own cursor as well. */
  lemma PastNext(t: set<Row>, u: set<Row>, q: Query, cursor: Option<Key>, size: nat, r: Row)
    requires UniqueIds(t) && size >= 1 && GetPage(t, q, cursor, size).next.Some?
    requires r in Eligible(u, q, GetPage(t, q, cursor, size).next)
    ensures r in Eligible(u, q, cursor)
    ensures Less(KeyOf(r), GetPage(t, q, cursor, size).next.value)
  {
    var page := GetPage(t, q, cursor, size);
    PageDivides(t, q, cursor, size);
    var last := page.items[|page.items| - 1];
    assert last in Eligible(t, q, cursor);
    hide GetPage;
  }

  /** One page in front of the rest of the walk. */
  lemma FirstPageThenRest(first: set<Row>, second: set<Row>, final: set<Row>, q: Query, cursor: Option<Key>, size: nat,
                          page: Page, rest: seq<Row>)
    requires size >= 1 && UniqueIds(first) && first <= second && first <= final
    requires page == GetPage(first, q, cursor, size) && page.next.Some?
    requires Descending(rest)
    requires forall r :: r in Eligible(second, q, page.next) ==> r in rest
    requires forall r :: r in rest ==> r in Eligible(final, q, page.next)
    ensures Descending(page.items + rest)
    ensures forall r :: r in Eligible(first, q, cursor) ==> r in page.items + rest
    ensures forall r :: r in page.items + rest ==> r in Eligible(final, q, cursor)
  {
    PageDivides(first, q, cursor, size);
    EligibleGrows(first, second, q, page.next);
    EligibleGrows(first, final, q, cursor);
    hide GetPage, Eligible, Descending, UniqueIds;
    forall r | r in rest
      ensures r in Eligible(final, q, cursor) && Less(KeyOf(r), page.next.value)
    {
      PastNext(first, final, q, cursor, size, r);
    }
    DescendingJoin(page.items, rest);
  }

  lemma EligibleGrows(t: set<Row>, u: set<Row>, q: Query, cursor: Option<Key>)
    requires t <= u
    ensures Eligible(t, q, cursor) <= Eligible(u, q, cursor)
  {
  }

  // ------------------------------------------------------------ the window

  datatype Window = Window(start: int, end: int) | Invalid

  /** `_window`: what is missing is filled in from the clock. */
  function Resolve(start: Option<int>, end: Option<int>, now: int, span: nat): Window {
    var last := if end.Some? then end.value else now;
    var first := if start.Some? then start.value else last - span;
    if first > last || last - first > span then Invalid else Window(first, last)
  }

  lemma WindowIsBounded(start: Option<int>, end: Option<int>, now: int, span: nat)
    ensures var w := Resolve(start, end, now, span);
            && (w.Window? ==> 0 <= w.end - w.start <= span)
            && (w.Window? ==> w.end == (if end.Some? then end.value else now))
            && (w.Window? ==> if start.Some? then w.start == start.value else w.end - w.start == span)
            && (w.Invalid? <==> start.Some? && !(0 <= (if end.Some? then end.value else now) - start.value <= span))
  {
  }

  /** The window stands still between pages exactly when it depends on no clock:
      `to` is given, or else the two pages are read at the same instant. */
  lemma WindowIsFixedIffEndGiven(start: Option<int>, end: Option<int>, now: int, later: int, span: nat)
    requires now <= later && Resolve(start, end, now, span).Window?
    ensures Resolve(start, end, later, span) == Resolve(start, end, now, span) <==> end.Some? || now == later
  {
  }

  // ------------------------------------------------------------ the walk with its window resolved per page

  function In(q: Query, w: Window): Query
    requires w.Window?
  {
    q.(start := w.start, end := w.end)
  }

  /** Every page resolves its window again: page `i` reads the clock as `nows[i]`, and
      is accepted. */
  ghost predicate ClockedWalk(tables: seq<set<Row>>, nows: seq<int>, start: Option<int>, end: Option<int>, span: nat,
                              q: Query, cursor: Option<Key>, size: nat, pages: seq<seq<Row>>)
    requires size >= 1 && forall i :: 0 <= i < |tables| ==> UniqueIds(tables[i])
    decreases |tables|
  {
    && |tables| == |nows| == |pages| > 0
    && var w := Resolve(start, end, nows[0], span);
       && w.Window?
       && var page := GetPage(tables[0], In(q, w), cursor, size);
          && pages[0] == page.items
          && if page.next.None? then |pages| == 1
             else ClockedWalk(tables[1..], nows[1..], start, end, span, q, page.next, size, pages[1..])
  }

  predicate Forward(nows: seq<int>) {
    forall i, j :: 0 <= i <= j < |nows| ==> nows[i] <= nows[j]
  }

  /** Whether a page's window starts where the first one did: the clock does not move
      that bound, or does not move. */
  predicate StartStands(start: Option<int>, end: Option<int>, nows: seq<int>) {
    start.Some? || end.Some? || forall i, j :: 0 <= i < j < |nows| ==> nows[i] == nows[j]
  }

  /** `w` selects, past this cursor, what the window `v` does. */
  predicate SameBelow(w: Window, v: Window, cursor: Option<Key>) {
    && w.Window? && v.Window? && w.start == v.start && w.end <= v.end
    && (w == v || (cursor.Some? && cursor.value.at <= w.end))
  }

  lemma SamePage(t: set<Row>, q: Query, w: Window, v: Window, cursor: Option<Key>, size: nat)
    requires UniqueIds(t) && size >= 1 && SameBelow(w, v, cursor)
    ensures GetPage(t, In(q, w), cursor, size) == GetPage(t, In(q, v), cursor, size)
  {
    assert Eligible(t, In(q, w), cursor) == Eligible(t, In(q, v), cursor);
    hide Eligible, Ordered, SameBelow;
  }

  lemma CursorInWindow(t: set<Row>, q: Query, cursor: Option<Key>, size: nat)
    requires UniqueIds(t) && size >= 1
    ensures var next := GetPage(t, q, cursor, size).next; next.Some? ==> next.value.at <= q.end
  {
    var page := GetPage(t, q, cursor, size);
    if page.next.Some? {
      PageDivides(t, q, cursor, size);
      hide GetPage;
      assert page.items[|page.items| - 1] in Eligible(t, q, cursor);
    }
  }

  /** Only the upper bound moves, above every cursor: it is a walk over one window. */
  lemma {:induction false} ClockedIsWalk(tables: seq<set<Row>>, nows: seq<int>, start: Option<int>, end: Option<int>,
                                         span: nat, q: Query, cursor: Option<Key>, size: nat, pages: seq<seq<Row>>,
                                         w: Window)
    requires size >= 1 && forall i :: 0 <= i < |tables| ==> UniqueIds(tables[i])
    requires ClockedWalk(tables, nows, start, end, span, q, cursor, size, pages)
    requires Forward(nows) && StartStands(start, end, nows)
    requires SameBelow(w, Resolve(start, end, nows[0], span), cursor)
    ensures Walk(tables, In(q, w), cursor, size, pages)
    decreases |tables|
  {
    hide GetPage, UniqueIds;
    var v := Resolve(start, end, nows[0], span);
    SamePage(tables[0], q, w, v, cursor, size);
    CursorInWindow(tables[0], In(q, w), cursor, size);
    var page := GetPage(tables[0], In(q, w), cursor, size);
    if page.next.Some? {
      var u := Resolve(start, end, nows[1], span);
      assert nows[1..][0] == nows[1] && nows[0] <= nows[1];
      assert SameBelow(w, u, page.next);
      TailClock(start, end, nows);
      ClockedIsWalk(tables[1..], nows[1..], start, end, span, q, page.next, size, pages[1..], w);
    }
  }

  lemma TailClock(start: Option<int>, end: Option<int>, nows: seq<int>)
    requires nows != [] && Forward(nows) && StartStands(start, end, nows)
    ensures Forward(nows[1..]) && StartStands(start, end, nows[1..])
  {
    assert forall i :: 0 <= i < |nows| - 1 ==> nows[1..][i] == nows[i + 1];
  }

  /** With `from` or `to` given, or with no time between the pages, every accepted walk
      of growing tables returns all rows of its first window once, newest first, and no
      row from outside that window. */
  lemma ClockedWalkIsComplete(tables: seq<set<Row>>, nows: seq<int>, start: Option<int>, end: Option<int>, span: nat,
                              q: Query, size: nat, pages: seq<seq<Row>>)
    requires size >= 1 && forall i :: 0 <= i < |tables| ==> UniqueIds(tables[i])
    requires ClockedWalk(tables, nows, start, end, span, q, None, size, pages) && Growing(tables)
    requires Forward(nows) && StartStands(start, end, nows)
    ensures var first := In(q, Resolve(start, end, nows[0], span));
            && Descending(Flat(pages))
            && (forall r :: r in Eligible(tables[0], first, None) ==> r in Flat(pages))
            && (forall r :: r in Flat(pages) ==> r in Eligible(tables[|tables| - 1], first, None))
  {
    var w := Resolve(start, end, nows[0], span);
    ClockedIsWalk(tables, nows, start, end, span, q, None, size, pages, w);
    hide *;
    WalkIsComplete(tables, In(q, w), None, size, pages);
  }

  /** A walk has a first page, and its window was accepted. */
  predicate Accepted(tables: seq<set<Row>>, nows: seq<int>, start: Option<int>, end: Option<int>, span: nat) {
    tables != [] && nows != [] && Resolve(start, end, nows[0], span).Window?
  }

  lemma FirstPageAccepted(tables: seq<set<Row>>, nows: seq<int>, start: Option<int>, end: Option<int>, span: nat,
                          q: Query, cursor: Option<Key>, size: nat, pages: seq<seq<Row>>)
    requires size >= 1 && forall i :: 0 <= i < |tables| ==> UniqueIds(tables[i])
    requires ClockedWalk(tables, nows, start, end, span, q, cursor, size, pages)
    ensures Accepted(tables, nows, start, end, span)
  {
  }

  /** No accepted walk with these clock readings misses a row of its first window. */
  ghost predicate LosesNothing(start: Option<int>, end: Option<int>, span: nat, nows: seq<int>) {
    forall tables: seq<set<Row>>, q: Query, size: nat, pages: seq<seq<Row>> ::
      size >= 1 && (forall i :: 0 <= i < |tables| ==> UniqueIds(tables[i])) && Growing(tables)
      && ClockedWalk(tables, nows, start, end, span, q, None, size, pages) ==>
        forall r :: r in Eligible(tables[0], In(q, Resolve(start, end, nows[0], span)), None) ==> r in Flat(pages)
  }

  lemma NothingLost(start: Option<int>, end: Option<int>, span: nat, nows: seq<int>)
    requires Forward(nows) && StartStands(start, end, nows)
    ensures LosesNothing(start, end, span, nows)
  {
    hide Eligible, Growing, ClockedWalk, StartStands, Flat, Forward, Descending;
    forall tables: seq<set<Row>>, q: Query, size: nat, pages: seq<seq<Row>> |
      size >= 1 && (forall i :: 0 <= i < |tables| ==> UniqueIds(tables[i])) && Growing(tables)
      && ClockedWalk(tables, nows, start, end, span, q, None, size, pages)
      ensures Accepted(tables, nows, start, end, span)
      ensures forall r :: r in Eligible(tables[0], In(q, Resolve(start, end, nows[0], span)), None) ==> r in Flat(pages)
    {
      FirstPageAccepted(tables, nows, start, end, span, q, None, size, pages);
      ClockedWalkIsComplete(tables, nows, start, end, span, q, size, pages);
    }
  }

  const UNFILTERED := Query(0, 0, [], None, None, None)

  function PlainRow(at: int, id: nat): Row { Row(at, id, "a", None, None, None) }

  /** A table of two rows, read one by one over a window that holds both. */
  lemma FirstOfTwo(newer: Row, older: Row, q: Query)
    requires Less(KeyOf(older), KeyOf(newer)) && newer.id != older.id && Matches(q, newer) && Matches(q, older)
    ensures UniqueIds({newer, older}) && Eligible({newer, older}, q, None) == {newer, older}
    ensures GetPage({newer, older}, q, None, 1) == Page([newer], Some(KeyOf(newer)))
  {
    var table := {newer, older};
    assert Eligible(table, q, None) == table;
    OrderedIs(table);
    assert Descending([newer, older]);
    hide Ordered, Eligible;
    OrderIsUnique(Ordered(table), [newer, older]);
  }

  lemma NothingEligible(t: set<Row>, q: Query, cursor: Option<Key>)
    requires UniqueIds(t) && Eligible(t, q, cursor) == {}
    ensures GetPage(t, q, cursor, 1) == Page([], None)
  {
    OrderedIs({});
    hide Eligible, Ordered;
  }

  lemma WalkOfTwo(table: set<Row>, now: int, later: int, start: Option<int>, end: Option<int>, span: nat, q: Query,
                  first: seq<Row>, second: seq<Row>, key: Key)
    requires UniqueIds(table) && Resolve(start, end, now, span).Window? && Resolve(start, end, later, span).Window?
    requires GetPage(table, In(q, Resolve(start, end, now, span)), None, 1) == Page(first, Some(key))
    requires GetPage(table, In(q, Resolve(start, end, later, span)), Some(key), 1) == Page(second, None)
    ensures ClockedWalk([table, table], [now, later], start, end, span, q, None, 1, [first, second])
    ensures Flat([first, second]) == first + second
  {
    hide GetPage, Resolve;
    var tables, nows, pages := [table, table], [now, later], [first, second];
    assert tables[1..] == [table] && nows[1..] == [later] && pages[1..] == [second];
    assert ClockedWalk(tables[1..], nows[1..], start, end, span, q, Some(key), 1, pages[1..]);
    assert [second][1..] == [] && Flat([second]) == second + Flat([]);
  }

  /** Two rows, one at either end of the first window, and pages of one row. */
  lemma SlidingWindowLosesRows(span: nat, now: int, later: int)
    returns (table: set<Row>, pages: seq<seq<Row>>, lost: Row)
    requires now < later
    ensures UniqueIds(table)
    ensures ClockedWalk([table, table], [now, later], None, None, span, UNFILTERED, None, 1, pages)
    ensures lost in Eligible(table, In(UNFILTERED, Resolve(None, None, now, span)), None) && lost !in Flat(pages)
  {
    var newer := PlainRow(now, 1);
    lost := PlainRow(now - span, 0);
    table, pages := {newer, lost}, [[newer], []];
    FirstOfTwo(newer, lost, In(UNFILTERED, Window(now - span, now)));
    assert Eligible(table, In(UNFILTERED, Window(later - span, later)), Some(KeyOf(newer))) == {};
    NothingEligible(table, In(UNFILTERED, Window(later - span, later)), Some(KeyOf(newer)));
    WalkOfTwo(table, now, later, None, None, span, UNFILTERED, [newer], [], KeyOf(newer));
  }

  /** For two pages the condition is exact: a row can be lost exactly if neither bound
      is given and time passed between them. */
  lemma NothingLostIff(start: Option<int>, end: Option<int>, span: nat, now: int, later: int)
    requires now <= later
    ensures LosesNothing(start, end, span, [now, later]) <==> start.Some? || end.Some? || now == later
  {
    hide Eligible, ClockedWalk, Flat;
    var nows := [now, later];
    if start.Some? || end.Some? || now == later {
      NothingLost(start, end, span, nows);
    } else {
      var table, pages, lost := SlidingWindowLosesRows(span, now, later);
      var tables := [table, table];
      assert tables[0] == table && nows[0] == now && Growing(tables);
    }
  }
}
