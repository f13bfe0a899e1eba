/** Following the keyset cursor to the end of the estate. */
module Paging {
  import opened Sorting
  import opened Addresses

  const MAX_LIMIT: int := 500
  const DEFAULT_LIMIT: int := 100
  const ACTIVE: string := "active"

  datatype Row = Row(id: Bytes, lifecycle: string, environments: set<string>, name: string)
  datatype Cursor = End | At(id: Bytes)
  datatype Fetched = Failed | Rows(rows: seq<Row>)

  // ---- what the store promises

  function ApiLimit(n: int): int {
    if n <= 0 then DEFAULT_LIMIT else if n > MAX_LIMIT then MAX_LIMIT else n
  }

  /** In at least one environment, and in none outside the scope. */
  predicate Visible(scope: set<string>, r: Row) {
    r.lifecycle == ACTIVE && r.environments != {} && r.environments <= scope
  }

  predicate Lt(a: Bytes, b: Bytes) { Compare(a, b) < 0 }

  lemma LtOrders(a: Bytes, b: Bytes, c: Bytes)
    ensures Lt(a, b) ==> !Lt(b, a)
    ensures Lt(a, b) || Lt(b, a) || a == b
    ensures Lt(a, b) && Lt(b, c) ==> Lt(a, c)
    ensures !Lt(a, [])
  {
    CompareIsOrder(a, b, c);
    CompareIsOrder(c, a, b);
    CompareIsOrder(b, c, a);
  }

  /** An empty cursor means no lower bound. */
  predicate Past(after: Bytes, id: Bytes) { after == [] || Lt(after, id) }

  function ById(): (Row, Row) -> bool { (a: Row, b: Row) => Lt(a.id, b.id) }

  lemma ByIdIsOrder()
    ensures IsOrder(ById())
  {
    hide Lt;
    forall a: Row, b: Row ensures ById()(a, b) ==> !ById()(b, a) { LtOrders(a.id, b.id, a.id); }
    forall a: Row, b: Row, c: Row ensures !ById()(a, b) && !ById()(b, c) ==> !ById()(a, c) {
      LtOrders(a.id, c.id, b.id);
      LtOrders(b.id, c.id, a.id);
      LtOrders(a.id, b.id, c.id);
    }
  }

  /** The id is the primary key. */
  predicate Keyed(table: seq<Row>) { forall i, j :: 0 <= i < j < |table| ==> table[i].id != table[j].id }

  predicate Ascending(rows: seq<Row>) { forall i, j :: 0 <= i < j < |rows| ==> Lt(rows[i].id, rows[j].id) }

  function Matching(table: seq<Row>, scope: set<string>, after: Bytes): (r: seq<Row>)
    ensures forall x :: x in r <==> x in table && Visible(scope, x) && Past(after, x.id)
    ensures Keyed(table) ==> Keyed(r)
  {
    hide Lt, Visible;
    if table == [] then []
    else
      var x := table[|table| - 1];
      var init := Matching(table[..|table| - 1], scope, after);
      assert table == table[..|table| - 1] + [x];
      if Visible(scope, x) && Past(after, x.id) then
        assert Keyed(table) ==> forall k :: 0 <= k < |init| ==> init[k] in table[..|table| - 1] && init[k].id != x.id;
        init + [x]
      else init
  }

  /** Everything after the cursor, in id order. */
  function Query(table: seq<Row>, scope: set<string>, after: Bytes): (r: seq<Row>)
    ensures forall x :: x in r <==> x in table && Visible(scope, x) && Past(after, x.id)
    ensures Keyed(table) ==> Ascending(r)
  {
    hide Lt, Visible, Insert, SortBy;
    ByIdIsOrder();
    var rows := Matching(table, scope, after);
    var r := SortBy(ById(), rows);
    Rearranged(rows, r);
    assert Keyed(table) ==> Ascending(r) by { if Keyed(table) { SortedKeyed(rows, r); } }
    r
  }

  lemma SortedKeyed(rows: seq<Row>, r: seq<Row>)
    requires multiset(rows) == multiset(r) && Keyed(rows) && Sorted(ById(), r)
    ensures Ascending(r)
  {
    hide Lt;
    assert NoDup(rows);
    Rearranged(rows, r);
    forall i, j | 0 <= i < j < |r| ensures Lt(r[i].id, r[j].id) {
      assert !ById()(r[j], r[i]);
      assert r[i] in rows && r[j] in rows && r[i] != r[j];
      LtOrders(r[i].id, r[j].id, []);
    }
  }

  function Upto(rows: seq<Row>, n: nat): seq<Row> { if |rows| <= n then rows else rows[..n] }

  function ListAssets(table: seq<Row>, scope: set<string>, after: Bytes, limit: int): (page: seq<Row>) {
    Upto(Query(table, scope, after), ApiLimit(limit))
  }

  // ---- one page after another

  function PageSize(configured: int): (size: int)
    ensures ApiLimit(size) == size && 1 <= size <= 500
    ensures size == configured || (size == 500 && !(1 <= configured <= 500))
  {
    if configured <= 0 || configured > MAX_LIMIT then MAX_LIMIT else configured
  }

  function NextCursor(rows: seq<Row>, limit: int): Cursor {
    if limit <= 0 || |rows| < limit then End else At(rows[|rows| - 1].id)
  }

  /** A strictly ascending sequence is determined by its members. */
  lemma {:induction false} AscendingUnique(a: seq<Row>, b: seq<Row>)
    requires Ascending(a) && Ascending(b) && forall x :: x in a <==> x in b
    ensures a == b
  {
    hide Lt;
    assert forall k :: 0 <= k < |b| ==> b[k] in a;
    assert forall k :: 0 <= k < |a| ==> a[k] in b;
    if |a| > 0 && |b| > 0 {
      if a[0] != b[0] { LtOrders(a[0].id, b[0].id, []); }
      assert a[0] == b[0];
      LtOrders(a[0].id, a[0].id, []);
      assert a == [a[0]] + a[1..] && b == [b[0]] + b[1..];
      forall x ensures x in a[1..] <==> x in b[1..] {
        assert x in a <==> x == a[0] || x in a[1..];
        assert x in b <==> x == b[0] || x in b[1..];
      }
      AscendingUnique(a[1..], b[1..]);
    }
  }

  /** Asking for what follows the m-th row gives exactly the rest. */
  lemma Resumes(table: seq<Row>, scope: set<string>, m: nat)
    requires Keyed(table) && 0 < m <= |Query(table, scope, [])| && Query(table, scope, [])[m - 1].id != []
    ensures Query(table, scope, Query(table, scope, [])[m - 1].id) == Query(table, scope, [])[m..]
  {
    hide Lt, Visible, Query;
    var all := Query(table, scope, []);
    var after := all[m - 1].id;
    var rest := Query(table, scope, after);
    forall x ensures x in rest <==> x in all[m..] {
      if x in all {
        var k :| 0 <= k < |all| && all[k] == x;
        LtOrders(after, x.id, []);
        LtOrders(after, after, []);
        if k >= m { assert all[m..][k - m] == x; }
        if x in all[m..] {
          var j :| 0 <= j < |all[m..]| && all[m..][j] == x;
          assert all[m + j] == x;
        }
      }
    }
    AscendingUnique(rest, all[m..]);
  }

  /** The row with the empty id comes first, if it comes at all. */
  lemma OnlyFirstEmpty(rows: seq<Row>, k: nat)
    requires Ascending(rows) && 0 < k < |rows|
    ensures rows[k].id != []
  {
    hide Lt;
    LtOrders(rows[0].id, rows[k].id, []);
  }

  /** No full page can end on an empty id, which the store would read as no
      cursor at all. */
  predicate NeverRestarts(table: seq<Row>, scope: set<string>, size: int) {
    size > 1 || forall r :: r in table && Visible(scope, r) ==> r.id != []
  }

  /** Where a run stands after m rows: at the start, or at the last of them. */
  ghost predicate Stands(all: seq<Row>, m: nat, after: Bytes) {
    m <= |all| && if m == 0 then after == [] else after == all[m - 1].id && after != []
  }

  /** page is the next rows after the first m, cut at size; a full one hands on
      where to go next. */
  ghost predicate Continues(all: seq<Row>, m: nat, page: seq<Row>, size: int) {
    && m + |page| <= |all| && page == all[m..m + |page|] && |page| <= size
    && (if |page| < size then m + |page| == |all| else 0 < size && Stands(all, m + size, page[size - 1].id))
  }

  lemma PageIs(table: seq<Row>, scope: set<string>, m: nat, after: Bytes, size: int)
    requires Keyed(table) && NeverRestarts(table, scope, size) && 0 < size <= MAX_LIMIT
    requires Stands(Query(table, scope, []), m, after)
    ensures Continues(Query(table, scope, []), m, ListAssets(table, scope, after, size), size)
  {
    hide Lt, Visible, Query;
    var all, page := Query(table, scope, []), ListAssets(table, scope, after, size);
    if m > 0 { Resumes(table, scope, m); }
    assert page == Upto(all[m..], size);
    if |page| == size {
      assert page[size - 1] == all[m + size - 1];
      if m + size > 1 { OnlyFirstEmpty(all, m + size - 1); } else { assert all[0] in table; }
    }
  }

  /** Every configured size, every estate: the answer is each visible row exactly
      once, in id order, and never a part of them. Trip k happens when k full
      pages leave something to ask. */
  method FetchAllAssets(table: seq<Row>, scope: set<string>, configured: int, fails: nat -> bool) returns (r: Fetched)
    requires Keyed(table) && NeverRestarts(table, scope, PageSize(configured))
    ensures r.Failed? <==> scope == {} || exists k: nat :: k * PageSize(configured) <= |Query(table, scope, [])| && fails(k)
    ensures r.Rows? ==> Ascending(r.rows)
    ensures r.Rows? ==> forall x :: x in r.rows <==> x in table && x.lifecycle == "active" && x.environments != {} && x.environments <= scope
  {
    hide Lt, Visible, Query, PageSize, ListAssets, Keyed, Ascending, NeverRestarts, NextCursor;
    if scope == {} {
      return Failed;
    }
    var size := PageSize(configured);
    ghost var all := Query(table, scope, []);
    var rows: seq<Row>, after: Bytes, trips: nat := [], [], 0;
    while true
      invariant trips * size == |rows| && Stands(all, |rows|, after) && rows == all[..|rows|]
      invariant forall k: nat :: k < trips ==> !fails(k)
      decreases |all| - |rows|
    {
      if fails(trips) {
        return Failed;
      }
      PageIs(table, scope, |rows|, after, size);
      forall k: nat | trips < k ensures k * size >= (trips + 1) * size == |rows| + size { MoreTrips(trips, k, size); }
      var page := ListAssets(table, scope, after, size);
      assert rows + page == all[..|rows| + |page|];
      rows := rows + page;
      var cursor := NextCursor(page, size);
      ShortPageEnds(page, size);
      if cursor.End? {
        assert rows == all;
        assert forall k: nat :: fails(k) ==> k > trips;
        Answered(table, scope, rows);
        return Rows(rows);
      }
      after := cursor.id;
      trips := trips + 1;
    }
  }

  lemma Answered(table: seq<Row>, scope: set<string>, rows: seq<Row>)
    requires rows == Query(table, scope, [])
    ensures forall x :: x in rows <==> x in table && x.lifecycle == "active" && x.environments != {} && x.environments <= scope
  {
    hide Query;
  }

  lemma ShortPageEnds(page: seq<Row>, size: int)
    requires size > 0
    ensures if |page| < size then NextCursor(page, size) == End else NextCursor(page, size) == At(page[|page| - 1].id)
  {
  }

  lemma {:induction false} MoreTrips(trips: nat, k: nat, size: int)
    requires size > 0 && trips < k
    ensures k * size >= (trips + 1) * size == trips * size + size
  {
    if k > trips + 1 { MoreTrips(trips, k - 1, size); }
  }

  // ---- exactly when it ends, and what it answers while the estate changes

  datatype Trip = Trip(rows: seq<Row>, after: Bytes, done: bool)

  /** After n trips, trip k reading the table as it is then. */
  ghost function After(world: nat -> seq<Row>, scope: set<string>, size: int, n: nat): Trip {
    if n == 0 then Trip([], [], false)
    else
      var s := After(world, scope, size, n - 1);
      if s.done then s
      else
        var page := ListAssets(world(n - 1), scope, s.after, size);
        match NextCursor(page, size)
        case End => Trip(s.rows + page, s.after, true)
        case At(id) => Trip(s.rows + page, id, false)
  }

  function Still(table: seq<Row>): nat -> seq<Row> { (n: nat) => table }

  ghost predicate Ends(table: seq<Row>, scope: set<string>, size: int) { exists n :: After(Still(table), scope, size, n).done }

  lemma {:induction false} Spins(table: seq<Row>, scope: set<string>, r: Row, n: nat)
    requires Keyed(table) && r in table && Visible(scope, r) && r.id == []
    ensures var s := After(Still(table), scope, 1, n); !s.done && s.after == []
  {
    hide Lt, Visible, Query;
    if n > 0 {
      Spins(table, scope, r, n - 1);
      var all := Query(table, scope, []);
      var k :| 0 <= k < |all| && all[k] == r;
      if k > 0 { OnlyFirstEmpty(all, k); }
    }
  }

  ghost predicate Reached(all: seq<Row>, n: nat, s: Trip) {
    if s.done then s.rows == all else n <= |s.rows| && Stands(all, |s.rows|, s.after) && s.rows == all[..|s.rows|]
  }

  lemma {:induction false} Advances(table: seq<Row>, scope: set<string>, size: int, n: nat)
    requires Keyed(table) && NeverRestarts(table, scope, size) && 0 < size <= MAX_LIMIT
    ensures Reached(Query(table, scope, []), n, After(Still(table), scope, size, n))
  {
    hide Lt, Visible, Query, ListAssets, Keyed, NeverRestarts;
    if n > 0 {
      Advances(table, scope, size, n - 1);
      var s, all := After(Still(table), scope, size, n - 1), Query(table, scope, []);
      if !s.done {
        PageIs(table, scope, |s.rows|, s.after, size);
        var page := ListAssets(table, scope, s.after, size);
        assert s.rows + page == all[..|s.rows| + |page|];
      }
    }
  }

  /** The loop ends exactly when no page of one row can be the row whose id is
      empty. */
  lemma EndsIff(table: seq<Row>, scope: set<string>, configured: int)
    requires Keyed(table)
    ensures Ends(table, scope, PageSize(configured)) <==> NeverRestarts(table, scope, PageSize(configured))
  {
    hide Lt, Visible, Query, After, PageSize;
    var size := PageSize(configured);
    if NeverRestarts(table, scope, size) {
      Advances(table, scope, size, |Query(table, scope, [])| + 1);
    } else {
      var r :| r in table && Visible(scope, r) && r.id == [];
      forall n ensures !After(Still(table), scope, size, n).done { Spins(table, scope, r, n); }
    }
  }

  ghost predicate Shown(table: seq<Row>, scope: set<string>, id: Bytes) {
    exists r :: r in table && Visible(scope, r) && r.id == id
  }

  ghost predicate Holds(rows: seq<Row>, id: Bytes) { exists r :: r in rows && r.id == id }

  ghost predicate ShownThroughout(world: nat -> seq<Row>, scope: set<string>, n: nat, id: Bytes) {
    forall k: nat :: k < n ==> Shown(world(k), scope, id)
  }

  ghost predicate ShownOnce(world: nat -> seq<Row>, scope: set<string>, n: nat, r: Row) {
    Visible(scope, r) && exists k: nat :: k < n && r in world(k)
  }

  /** The cursor is the last id answered so far. */
  ghost predicate AtLast(s: Trip) {
    if s.rows == [] then s.after == [] else s.after != [] && s.after == s.rows[|s.rows| - 1].id
  }

  /** Rows may come and go between trips: no id is answered twice, nothing is
      answered that was not there, and what was there all along is not missed. */
  ghost predicate Sound(world: nat -> seq<Row>, scope: set<string>, n: nat, s: Trip) {
    && Ascending(s.rows) && (!s.done ==> AtLast(s))
    && (forall r :: r in s.rows ==> ShownOnce(world, scope, n, r))
    && forall id :: ShownThroughout(world, scope, n, id) && (s.done || (s.rows != [] && !Lt(s.after, id))) ==> Holds(s.rows, id)
  }

  ghost predicate Page(table: seq<Row>, scope: set<string>, after: Bytes, size: int, page: seq<Row>) {
    && Ascending(page) && |page| <= size
    && (forall r :: r in page ==> r in table && Visible(scope, r) && Past(after, r.id))
    && (forall id :: Shown(table, scope, id) && Past(after, id) ==> Holds(page, id) || (0 < size == |page| && Lt(page[size - 1].id, id)))
    && (0 < size == |page| ==> page[size - 1].id != [])
  }

  lemma ListIsPage(table: seq<Row>, scope: set<string>, after: Bytes, size: int)
    requires Keyed(table) && NeverRestarts(table, scope, size) && 0 < size <= MAX_LIMIT
    ensures Page(table, scope, after, size, ListAssets(table, scope, after, size))
  {
    hide Lt, Visible, Query;
    var all, page := Query(table, scope, after), ListAssets(table, scope, after, size);
    forall id | Shown(table, scope, id) && Past(after, id)
      ensures Holds(page, id) || (size == |page| && Lt(page[size - 1].id, id))
    {
      var r :| r in table && Visible(scope, r) && r.id == id;
      var k :| 0 <= k < |all| && all[k] == r;
      if k < |page| { assert page[k] == r; }
    }
    if |page| == size { assert page[size - 1] in table; if size > 1 { OnlyFirstEmpty(page, size - 1); } }
  }

  lemma Joins(a: seq<Row>, b: seq<Row>, after: Bytes)
    requires Ascending(a) && Ascending(b) && AtLast(Trip(a, after, false)) && forall r :: r in b ==> Past(after, r.id)
    ensures Ascending(a + b)
  {
    hide Lt;
    forall i, j | 0 <= i < |a| && 0 <= j < |b| ensures Lt(a[i].id, b[j].id) {
      assert b[j] in b;
      LtOrders(a[i].id, after, b[j].id);
    }
  }

  lemma NotMissed(world: nat -> seq<Row>, scope: set<string>, size: int, n: nat, s: Trip, page: seq<Row>, id: Bytes)
    requires n > 0 && 0 < size && Sound(world, scope, n - 1, s) && !s.done && Page(world(n - 1), scope, s.after, size, page)
    requires ShownThroughout(world, scope, n, id) && (|page| < size || !Lt(page[size - 1].id, id))
    ensures Holds(s.rows + page, id)
  {
    hide Lt, Visible, Ascending, ShownOnce;
    assert Shown(world(n - 1), scope, id);
    if Past(s.after, id) {
      var r :| r in page && r.id == id;
      assert r in s.rows + page;
    } else {
      assert ShownThroughout(world, scope, n - 1, id);
      var r :| r in s.rows && r.id == id;
      assert r in s.rows + page;
    }
  }

  lemma LiveStep(world: nat -> seq<Row>, scope: set<string>, size: int, n: nat, s: Trip, page: seq<Row>, t: Trip)
    requires n > 0 && 0 < size && Sound(world, scope, n - 1, s) && !s.done && Page(world(n - 1), scope, s.after, size, page)
    requires t == Trip(s.rows + page, if |page| < size then s.after else page[size - 1].id, |page| < size)
    ensures Sound(world, scope, n, t)
  {
    hide Lt, Visible, Holds, ShownThroughout;
    Joins(s.rows, page, s.after);
    forall r | r in t.rows ensures ShownOnce(world, scope, n, r) { if r in s.rows { assert ShownOnce(world, scope, n - 1, r); } }
    forall id | ShownThroughout(world, scope, n, id) && (t.done || !Lt(t.after, id)) ensures Holds(t.rows, id) {
      NotMissed(world, scope, size, n, s, page, id);
    }
  }

  lemma StaysSound(world: nat -> seq<Row>, scope: set<string>, n: nat, s: Trip)
    requires Sound(world, scope, n, s) && s.done
    ensures Sound(world, scope, n + 1, s)
  {
    hide Lt, Visible, Holds, Shown;
    forall r | r in s.rows ensures ShownOnce(world, scope, n + 1, r) { assert ShownOnce(world, scope, n, r); }
    forall id | ShownThroughout(world, scope, n + 1, id) ensures Holds(s.rows, id) { assert ShownThroughout(world, scope, n, id); }
  }

  /** Whatever happens to the estate between trips, every run stays sound. */
  lemma {:induction false} LiveFetch(world: nat -> seq<Row>, scope: set<string>, configured: int, n: nat)
    requires forall k: nat :: Keyed(world(k)) && NeverRestarts(world(k), scope, PageSize(configured))
    ensures Sound(world, scope, n, After(world, scope, PageSize(configured), n))
  {
    hide Lt, Visible, ListAssets, PageSize, Page, NextCursor, Keyed, NeverRestarts;
    var size := PageSize(configured);
    if n > 0 {
      hide Sound;
      LiveFetch(world, scope, configured, n - 1);
      var s := After(world, scope, size, n - 1);
      if s.done {
        StaysSound(world, scope, n - 1, s);
      } else {
        assert Keyed(world(n - 1));
        ListIsPage(world(n - 1), scope, s.after, size);
        var page := ListAssets(world(n - 1), scope, s.after, size);
        ShortPageEnds(page, size);
        PageFits(world(n - 1), scope, s.after, size, page);
        LiveStep(world, scope, size, n, s, page, After(world, scope, size, n));
      }
    }
  }

  lemma PageFits(table: seq<Row>, scope: set<string>, after: Bytes, size: int, page: seq<Row>)
    requires Page(table, scope, after, size, page)
    ensures |page| <= size
  {
    hide Lt, Visible, Past, Ascending;
  }
}
