/** Keyset pagination of the operator's tenant list. */
module TenantPages {
  import opened Wrappers
  import opened Sequences

  type Time = int

  const EPOCH: Time := 0

  datatype Row = Row(rank: int, lastCall: Option<Time>, id: int, summary: string)

  /** The decoded cursor: the sort columns of the last row delivered. */
  datatype Cursor = Cursor(rank: int, lastCall: Option<Time>, id: int)

  function CursorOf(r: Row): Cursor {
    Cursor(r.rank, r.lastCall, r.id)
  }

  function Coalesced(t: Option<Time>): Time {
    if t.Some? then t.value else EPOCH
  }

  /** The WHERE clause of the next page. */
  predicate Follows(c: Cursor, r: Row) {
    || r.rank < c.rank
    || (r.rank == c.rank && Coalesced(r.lastCall) < Coalesced(c.lastCall))
    || (r.rank == c.rank && Coalesced(r.lastCall) == Coalesced(c.lastCall) && r.id < c.id)
  }

  /** Descending with nulls last. */
  predicate LaterCall(a: Option<Time>, b: Option<Time>) {
    a.Some? && (b.None? || a.value > b.value)
  }

  /** The ORDER BY clause. */
  predicate Before(a: Row, b: Row) {
    || a.rank > b.rank
    || (a.rank == b.rank && LaterCall(a.lastCall, b.lastCall))
    || (a.rank == b.rank && a.lastCall == b.lastCall && a.id > b.id)
  }

  predicate Matches(c: Option<Cursor>, r: Row) {
    c.Some? ==> Follows(c.value, r)
  }

  function Selected(table: seq<Row>, c: Option<Cursor>): seq<Row> {
    if table == [] then []
    else (if Matches(c, table[0]) then [table[0]] else []) + Selected(table[1..], c)
  }

  function Insert(sorted: seq<Row>, r: Row): seq<Row> {
    if sorted == [] || Before(r, sorted[0]) then [r] + sorted else [sorted[0]] + Insert(sorted[1..], r)
  }

  function Ordered(rows: seq<Row>): seq<Row> {
    if rows == [] then [] else Insert(Ordered(rows[1..]), rows[0])
  }

  function Query(table: seq<Row>, c: Option<Cursor>, n: nat): seq<Row> {
    FirstOf(Ordered(Selected(table, c)), n)
  }

  datatype Page = Page(rows: seq<Row>, next: Option<Cursor>)

  /** One request: fetch one row more than asked for to learn whether there is a next page. */
  function ListTenants(table: seq<Row>, c: Option<Cursor>, limit: nat): Page
    requires limit >= 1
  {
    var rows := Query(table, c, limit + 1);
    if |rows| > limit then Page(rows[..limit], Some(CursorOf(rows[limit - 1]))) else Page(rows, None)
  }

  // ----- following the cursors -----

  lemma {:induction false} SelectedMembers(table: seq<Row>, c: Option<Cursor>)
    ensures forall r :: r in Selected(table, c) <==> r in table && Matches(c, r)
  {
    if table != [] {
      SelectedMembers(table[1..], c);
      assert forall r :: r in table <==> r == table[0] || r in table[1..];
    }
  }

  lemma {:induction false} InsertMembers(sorted: seq<Row>, r: Row)
    ensures forall x :: x in Insert(sorted, r) <==> x == r || x in sorted
  {
    if sorted != [] && !Before(r, sorted[0]) {
      InsertMembers(sorted[1..], r);
      assert forall x :: x in sorted <==> x == sorted[0] || x in sorted[1..];
    }
  }

  lemma {:induction false} OrderedMembers(rows: seq<Row>)
    ensures forall r :: r in Ordered(rows) <==> r in rows
  {
    if rows != [] {
      OrderedMembers(rows[1..]);
      InsertMembers(Ordered(rows[1..]), rows[0]);
      assert forall x :: x in rows <==> x == rows[0] || x in rows[1..];
    }
  }

  lemma {:induction false} SelectedShrinks(table: seq<Row>, c: Option<Cursor>, d: Option<Cursor>)
    requires forall r :: Matches(d, r) ==> Matches(c, r)
    ensures |Selected(table, d)| <= |Selected(table, c)|
    ensures (exists r :: r in table && Matches(c, r) && !Matches(d, r)) ==> |Selected(table, d)| < |Selected(table, c)|
  {
    if table != [] {
      SelectedShrinks(table[1..], c, d);
    }
  }

  /** Every cursor handed out leaves strictly fewer rows to come, so following cursors ends. */
  lemma {:induction false} NextLeavesLess(table: seq<Row>, c: Option<Cursor>, limit: nat)
    requires limit >= 1
    ensures var next := ListTenants(table, c, limit).next;
      next.Some? ==> |Selected(table, next)| < |Selected(table, c)|
  {
    var rows := Query(table, c, limit + 1);
    if |rows| > limit {
      var last := rows[limit - 1];
      OrderedMembers(Selected(table, c));
      SelectedMembers(table, c);
      assert last in Ordered(Selected(table, c));
      SelectedShrinks(table, c, Some(CursorOf(last)));
    }
  }

  /** All pages from cursor `c` on, concatenated. */
  function Traversal(table: seq<Row>, c: Option<Cursor>, limit: nat): seq<Row>
    requires limit >= 1
    decreases |Selected(table, c)|
  {
    var page := ListTenants(table, c, limit);
    NextLeavesLess(table, c, limit);
    if page.next.None? then page.rows else page.rows + Traversal(table, page.next, limit)
  }

  // ----- when the two clauses agree -----

  predicate DistinctIds(table: seq<Row>) {
    forall a, b :: a in table && b in table && a != b ==> a.id != b.id
  }

  /** WHERE and ORDER BY put the same rows after each row of the table. */
  predicate ClausesAgree(table: seq<Row>) {
    forall a, b :: a in table && b in table ==> (Follows(CursorOf(a), b) <==> Before(a, b))
  }

  /** A real timestamp that competes with a missing one is after the epoch (or at it, with the larger id). */
  predicate TimestampsAfterEpoch(table: seq<Row>) {
    forall a, b :: a in table && b in table && a.rank == b.rank && a.lastCall.Some? && b.lastCall.None? ==>
      a.lastCall.value > 0 || (a.lastCall.value == 0 && a.id > b.id)
  }

  lemma {:induction false} ClausesAgreeIff(table: seq<Row>)
    requires DistinctIds(table)
    ensures ClausesAgree(table) <==> TimestampsAfterEpoch(table)
  {
    if TimestampsAfterEpoch(table) {
      forall a, b | a in table && b in table ensures Follows(CursorOf(a), b) <==> Before(a, b) {}
    } else {
      var a, b :| a in table && b in table && a.rank == b.rank && a.lastCall.Some? && b.lastCall.None?
        && !(a.lastCall.value > EPOCH || (a.lastCall.value == EPOCH && a.id > b.id));
      assert Before(a, b) && !Follows(CursorOf(a), b);
    }
  }

  // ----- exactly once, in order -----

  predicate Sorted(rows: seq<Row>) {
    forall i, j :: 0 <= i < j < |rows| ==> Before(rows[i], rows[j])
  }

  predicate OneRowPerId(rows: seq<Row>) {
    forall i, j :: 0 <= i < j < |rows| ==> rows[i].id != rows[j].id
  }

  lemma {:induction false} InsertSorts(sorted: seq<Row>, r: Row)
    requires Sorted(sorted) && forall x :: x in sorted ==> x.id != r.id
    ensures Sorted(Insert(sorted, r))
  {
    if sorted != [] {
      if Before(r, sorted[0]) {
        assert forall j :: 0 < j < |sorted| ==> Before(r, sorted[j]);
      } else {
        InsertSorts(sorted[1..], r);
        InsertMembers(sorted[1..], r);
        var rest := Insert(sorted[1..], r);
        assert Before(sorted[0], r) by {
          assert sorted[0] in sorted;
        }
        forall j | 0 <= j < |rest| ensures Before(sorted[0], rest[j]) {
          assert rest[j] == r || rest[j] in sorted[1..];
        }
      }
    }
  }

  lemma {:induction false} OrderedSorts(rows: seq<Row>)
    requires OneRowPerId(rows)
    ensures Sorted(Ordered(rows))
  {
    if rows != [] {
      OrderedSorts(rows[1..]);
      OrderedMembers(rows[1..]);
      InsertSorts(Ordered(rows[1..]), rows[0]);
    }
  }

  lemma {:induction false} SelectedKeepsIds(table: seq<Row>, c: Option<Cursor>)
    requires OneRowPerId(table)
    ensures OneRowPerId(Selected(table, c))
  {
    if table != [] {
      SelectedKeepsIds(table[1..], c);
      SelectedMembers(table[1..], c);
      var rest := Selected(table[1..], c);
      forall j | 0 <= j < |rest| ensures rest[j].id != table[0].id {
        assert rest[j] in table[1..];
      }
    }
  }

  /** A sorted sequence is determined by its members. */
  lemma {:induction false} SortedIsUnique(a: seq<Row>, b: seq<Row>)
    requires Sorted(a) && Sorted(b) && forall r :: r in a <==> r in b
    ensures a == b
    decreases |a|
  {
    assert |a| > 0 ==> a[0] in a;
    assert |b| > 0 ==> b[0] in b;
    if a != [] && b != [] {
      assert a[0] in b && b[0] in a;
      assert a[0] == b[0];
      forall r ensures r in a[1..] <==> r in b[1..] {
        assert r in a <==> r == a[0] || r in a[1..];
        assert r in b <==> r == b[0] || r in b[1..];
      }
      SortedIsUnique(a[1..], b[1..]);
    }
  }

  /** The cursor that ends the first `k` rows. */
  function CursorAt(all: seq<Row>, k: nat): Option<Cursor>
    requires k <= |all|
  {
    if k == 0 then None else Some(CursorOf(all[k - 1]))
  }

  /** The rows selected after the `k`th of the sorted list are the rest of it. */
  lemma {:induction false} SelectedAfter(table: seq<Row>, all: seq<Row>, k: nat, r: Row)
    requires Sorted(all) && ClausesAgree(table) && k <= |all| && (forall x :: x in all <==> x in table)
    ensures r in table && Matches(CursorAt(all, k), r) <==> r in all[k..]
  {
    if r in table {
      var i :| 0 <= i < |all| && all[i] == r;
      if k > 0 {
        var a := all[k - 1];
        assert a in table;
        assert Before(a, r) <==> k - 1 < i;
      }
      if i >= k {
        assert all[k..][i - k] == r;
      }
    }
  }

  /** Selecting what follows the `k`th row and sorting it gives the rest of the sorted list. */
  lemma {:induction false} RestOfList(table: seq<Row>, all: seq<Row>, k: nat)
    requires OneRowPerId(table) && all == Ordered(table) && ClausesAgree(table) && k <= |all|
    ensures Ordered(Selected(table, CursorAt(all, k))) == all[k..]
  {
    var c := CursorAt(all, k);
    OrderedSorts(table);
    OrderedMembers(table);
    SelectedMembers(table, c);
    SelectedKeepsIds(table, c);
    OrderedSorts(Selected(table, c));
    OrderedMembers(Selected(table, c));
    forall r ensures r in Ordered(Selected(table, c)) <==> r in all[k..] {
      SelectedAfter(table, all, k, r);
    }
    SortedIsUnique(Ordered(Selected(table, c)), all[k..]);
  }

  /** After `k` rows, what the query selects is the rest of the list. */
  ghost predicate ResumesAt(table: seq<Row>, all: seq<Row>, k: nat)
    requires k <= |all|
  {
    Ordered(Selected(table, CursorAt(all, k))) == all[k..]
  }

  ghost predicate ResumesAnywhere(table: seq<Row>, all: seq<Row>) {
    forall k: nat :: k <= |all| ==> ResumesAt(table, all, k)
  }

  /** The page after the first `k` rows is the next `limit` rows of the list. */
  lemma {:induction false} PageOfList(table: seq<Row>, all: seq<Row>, k: nat, limit: nat)
    requires limit >= 1 && k <= |all| && ResumesAt(table, all, k)
    ensures ListTenants(table, CursorAt(all, k), limit) ==
      if |all| - k > limit then Page(all[k..k + limit], CursorAt(all, k + limit)) else Page(all[k..], None)
  {
    var rest := all[k..];
    if |rest| > limit {
      var rows := FirstOf(rest, limit + 1);
      assert rows[..limit] == all[k..k + limit] && rows[limit - 1] == all[k + limit - 1];
    }
  }

  lemma {:induction false} TraversalStep(table: seq<Row>, all: seq<Row>, k: nat, limit: nat)
    requires limit >= 1 && k <= |all| && ResumesAt(table, all, k)
    ensures Traversal(table, CursorAt(all, k), limit) ==
      if |all| - k > limit then all[k..k + limit] + Traversal(table, CursorAt(all, k + limit), limit) else all[k..]
  {
    PageOfList(table, all, k, limit);
    NextLeavesLess(table, CursorAt(all, k), limit);
  }

  lemma {:induction false} NextSlice(all: seq<Row>, k: nat, n: nat)
    requires k + n <= |all|
    ensures all[k..k + n] + all[k + n..] == all[k..]
  {
  }

  lemma {:induction false} TraversalFrom(table: seq<Row>, all: seq<Row>, k: nat, limit: nat)
    requires limit >= 1 && k <= |all| && ResumesAnywhere(table, all)
    ensures Traversal(table, CursorAt(all, k), limit) == all[k..]
    decreases |all| - k
  {
    assert ResumesAt(table, all, k);
    TraversalStep(table, all, k, limit);
    if |all| - k > limit {
      TraversalFrom(table, all, k + limit, limit);
      NextSlice(all, k, limit);
    }
  }

  lemma {:induction false} RowsHaveDistinctIds(table: seq<Row>)
    requires OneRowPerId(table)
    ensures DistinctIds(table)
  {
    forall a, b | a in table && b in table && a != b ensures a.id != b.id {
      var i :| 0 <= i < |table| && table[i] == a;
      var j :| 0 <= j < |table| && table[j] == b;
    }
  }

  /** With any page size, following the cursors delivers the whole list in order, every
      tenant once, provided real timestamps are after the epoch. */
  lemma {:induction false} PagesAreTheList(table: seq<Row>, limit: nat)
    requires limit >= 1 && OneRowPerId(table) && TimestampsAfterEpoch(table)
    ensures Traversal(table, None, limit) == Ordered(table)
    ensures Sorted(Traversal(table, None, limit))
    ensures forall r :: r in Traversal(table, None, limit) <==> r in table
  {
    RowsHaveDistinctIds(table);
    ClausesAgreeIff(table);
    var all := Ordered(table);
    forall k: nat | k <= |all| ensures ResumesAt(table, all, k) {
      RestOfList(table, all, k);
    }
    TraversalFrom(table, all, 0, limit);
    OrderedSorts(table);
    OrderedMembers(table);
  }

  // ----- and only then -----

  lemma {:induction false} FollowsIsTransitive(c: Cursor, r: Row, x: Row)
    requires Follows(c, r) && Follows(CursorOf(r), x)
    ensures Follows(c, x)
  {
  }

  /** A one-by-one page: the first selected row, which is also the next cursor if any is left. */
  lemma {:induction false} PageOfOne(table: seq<Row>, c: Option<Cursor>)
    ensures var page := ListTenants(table, c, 1);
      && |page.rows| <= 1 && (forall r :: r in page.rows ==> r in table && Matches(c, r))
      && (page.next.Some? ==> |page.rows| == 1 && page.next.value == CursorOf(page.rows[0]))
  {
    SelectedMembers(table, c);
    OrderedMembers(Selected(table, c));
    var sorted := Ordered(Selected(table, c));
    assert forall i :: 0 <= i < |sorted| ==> sorted[i] in sorted;
  }

  /** Every row comes after each row delivered before it in the sense of the WHERE clause. */
  predicate Chain(rows: seq<Row>) {
    forall i, j :: 0 <= i < j < |rows| ==> Follows(CursorOf(rows[i]), rows[j])
  }

  lemma {:induction false} OneByOneIsChain(table: seq<Row>, c: Option<Cursor>)
    ensures var rows := Traversal(table, c, 1);
      Chain(rows) && forall i :: 0 <= i < |rows| ==> Matches(c, rows[i])
    decreases |Selected(table, c)|
  {
    PageOfOne(table, c);
    NextLeavesLess(table, c, 1);
    var page := ListTenants(table, c, 1);
    if page.next.Some? {
      OneByOneIsChain(table, page.next);
      var first, rest := page.rows[0], Traversal(table, page.next, 1);
      assert page.rows == [first] && Matches(c, first);
      forall i | 0 <= i < |rest| ensures Follows(CursorOf(first), rest[i]) && Matches(c, rest[i]) {
        assert Matches(page.next, rest[i]);
        if c.Some? {
          FollowsIsTransitive(c.value, first, rest[i]);
        }
      }
    }
  }

  /** In a chain that is sorted, what comes later in the order also follows. */
  lemma {:induction false} ChainFollowsOrder(all: seq<Row>, a: Row, b: Row)
    requires Sorted(all) && Chain(all) && a in all && b in all && Before(a, b) && a.lastCall != b.lastCall
    ensures Follows(CursorOf(a), b)
  {
    var i :| 0 <= i < |all| && all[i] == a;
    var j :| 0 <= j < |all| && all[j] == b;
    assert !Before(b, a);
  }

  /** Following the cursors with this page size delivers every tenant, once and in order. */
  ghost predicate Delivers(table: seq<Row>, limit: nat)
    requires limit >= 1
  {
    Traversal(table, None, limit) == Ordered(table)
  }

  /** If paging one by one delivers the list, real timestamps are after the epoch. */
  lemma {:induction false} OneByOneNeedsEpoch(table: seq<Row>)
    requires OneRowPerId(table) && Delivers(table, 1)
    ensures TimestampsAfterEpoch(table)
  {
    OneByOneIsChain(table, None);
    OrderedSorts(table);
    OrderedMembers(table);
    forall a, b | a in table && b in table && a.rank == b.rank && a.lastCall.Some? && b.lastCall.None?
      ensures a.lastCall.value > EPOCH || (a.lastCall.value == EPOCH && a.id > b.id)
    {
      ChainFollowsOrder(Ordered(table), a, b);
    }
  }

  /** Following the cursors delivers every tenant, once and in order, for every page size, if
      and only if real timestamps are after the epoch; paging one by one alone decides it. */
  lemma {:induction false} PagesAreTheListIff(table: seq<Row>)
    requires OneRowPerId(table)
    ensures Delivers(table, 1) <==> TimestampsAfterEpoch(table)
    ensures (forall limit: nat | limit >= 1 :: Delivers(table, limit)) <==> TimestampsAfterEpoch(table)
  {
    if TimestampsAfterEpoch(table) {
      forall limit: nat | limit >= 1 ensures Delivers(table, limit) {
        PagesAreTheList(table, limit);
      }
    }
    if Delivers(table, 1) {
      OneByOneNeedsEpoch(table);
    }
  }

  /** The smallest such table: a tenant whose last call is at the epoch, paged one by one,
      hides a tenant that has never called and has the larger id. */
  lemma {:induction false} EpochTimestampHides(called: Row, silent: Row)
    requires called.rank == silent.rank && called.lastCall == Some(0) && silent.lastCall.None?
    requires called.id < silent.id
    ensures Traversal([called, silent], None, 1) == [called]
  {
    var table := [called, silent];
    var next := Some(CursorOf(called));
    assert table[0] == called && table[1..] == [silent] && [silent][0] == silent && [silent][1..] == [];
    assert Selected([silent], None) == [silent] + Selected([], None) == [silent];
    assert Selected(table, None) == [called] + Selected([silent], None) == table;
    assert Ordered([silent]) == Insert(Ordered([]), silent) == [silent];
    assert Ordered(table) == Insert([silent], called) == table;
    assert Selected([silent], next) == [] + Selected([], next) == [];
    assert Selected(table, next) == [] + Selected([silent], next) == [];
    assert ListTenants(table, None, 1) == Page([called], next);
    assert Selected(table, next) == [];
    assert ListTenants(table, next, 1) == Page([], None);
  }
}
