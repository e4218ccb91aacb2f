/** The byte-budgeted memory list of the public tenant interface. */
module McpPages {
  import opened Wrappers
  import opened Sequences

  /** Ids and times in their database order. */
  type Id = int
  type Time = int

  /** `bytes`: the size of the memory's encoded summary. */
  datatype Memory = Memory(id: Id, createdAt: Time, bytes: nat)

  const MAX_BYTES: nat := 7_000

  /** The WHERE clause that resumes after `m`. */
  predicate ComesAfter(m: Memory, later: Memory) {
    later.createdAt < m.createdAt || (later.createdAt == m.createdAt && later.id < m.id)
  }

  /** The caller's memories as the query orders them: newest first, then by descending id. */
  predicate Ordered(all: seq<Memory>) {
    forall i, j :: 0 <= i < j < |all| ==>
      && all[i].id != all[j].id
      && (all[i].createdAt > all[j].createdAt || (all[i].createdAt == all[j].createdAt && all[i].id > all[j].id))
  }

  function FindById(all: seq<Memory>, id: Id): Option<Memory> {
    if all == [] then None else if all[0].id == id then Some(all[0]) else FindById(all[1..], id)
  }

  function Later(all: seq<Memory>, m: Memory): seq<Memory> {
    if all == [] then []
    else (if ComesAfter(m, all[0]) then [all[0]] else []) + Later(all[1..], m)
  }

  /** The memories listed after `cursor`, exclusive; an unknown cursor lists from the start. */
  function Following(all: seq<Memory>, cursor: Option<Id>): seq<Memory> {
    if cursor.None? then all
    else match FindById(all, cursor.value)
      case None => all
      case Some(m) => Later(all, m)
  }

  datatype Listing = Listing(memories: seq<Memory>, next: Option<Id>)

  /** `list_memories`: one row more than asked for tells whether there are more. */
  function ListMemories(all: seq<Memory>, cursor: Option<Id>, limit: nat): Listing {
    var rows := FirstOf(Following(all, cursor), limit + 1);
    var memories := FirstOf(rows, limit);
    Listing(memories, if |rows| > limit && memories != [] then Some(memories[|memories| - 1].id) else None)
  }

  function Total(s: seq<Memory>): nat {
    if s == [] then 0 else Total(s[..|s| - 1]) + s[|s| - 1].bytes
  }

  /** How many memories the budget lets through, from the `k`th on. */
  function Fit(memories: seq<Memory>, k: nat): nat
    requires k <= |memories|
    decreases |memories| - k
  {
    if k == |memories| then k
    else if k > 0 && Total(memories[..k]) + memories[k].bytes > MAX_BYTES then k
    else Fit(memories, k + 1)
  }

  lemma {:induction false} TotalNext(memories: seq<Memory>, i: nat)
    requires i < |memories|
    ensures memories[..i + 1] == memories[..i] + [memories[i]]
    ensures Total(memories[..i + 1]) == Total(memories[..i]) + memories[i].bytes
  {
    assert memories[..i + 1][..i] == memories[..i];
  }

  /** The handler's loop over one listing. */
  method FitPage(listing: Listing) returns (summaries: seq<Memory>, effectiveNext: Option<Id>)
    ensures Listing(summaries, effectiveNext) == Budgeted(listing)
  {
    var memories := listing.memories;
    summaries := [];
    var usedBytes, nextCursor, i := 0, listing.next, 0;
    while i < |memories|
      invariant 0 <= i <= |memories| && summaries == memories[..i] && usedBytes == Total(summaries)
      invariant Fit(memories, i) == Fit(memories, 0) && nextCursor == listing.next
    {
      var summaryBytes := memories[i].bytes;
      if summaries != [] && usedBytes + summaryBytes > MAX_BYTES {
        nextCursor := Some(summaries[|summaries| - 1].id);
        break;
      }
      TotalNext(memories, i);
      summaries := summaries + [memories[i]];
      usedBytes := usedBytes + summaryBytes;
      i := i + 1;
    }
    assert memories[..|memories|] == memories;
    effectiveNext := nextCursor;
    if |summaries| < |memories| && summaries != [] {
      effectiveNext := Some(summaries[|summaries| - 1].id);
    }
  }

  function Budgeted(listing: Listing): (page: Listing) {
    var k := Fit(listing.memories, 0);
    FitStays(listing.memories, 0);
    Listing(listing.memories[..k],
            if 0 < k < |listing.memories| then Some(listing.memories[k - 1].id) else listing.next)
  }

  lemma {:induction false} FitStays(memories: seq<Memory>, k: nat)
    requires k <= |memories|
    ensures k <= Fit(memories, k) <= |memories|
    ensures k < |memories| && k == 0 ==> Fit(memories, k) > 0
    decreases |memories| - k
  {
    if k < |memories| && !(k > 0 && Total(memories[..k]) + memories[k].bytes > MAX_BYTES) {
      FitStays(memories, k + 1);
    }
  }

  lemma {:induction false} FitFrom(memories: seq<Memory>, k: nat)
    requires k <= |memories| && (k > 1 ==> Total(memories[..k]) <= MAX_BYTES)
    ensures var n := Fit(memories, k);
      && k <= n <= |memories|
      && (n > 1 ==> Total(memories[..n]) <= MAX_BYTES)
      && (0 < n < |memories| ==> Total(memories[..n + 1]) > MAX_BYTES)
    decreases |memories| - k
  {
    if k < |memories| {
      assert memories[..k + 1][..k] == memories[..k];
      if !(k > 0 && Total(memories[..k]) + memories[k].bytes > MAX_BYTES) {
        FitFrom(memories, k + 1);
      }
    }
  }

  /** A page holds at least one memory while there are any, keeps within the budget unless
      it holds just one, and stops only before a memory that would break it. */
  lemma {:induction false} PageFitsBudget(listing: Listing)
    ensures var page := Budgeted(listing).memories;
      && (listing.memories != [] ==> page != [])
      && page <= listing.memories
      && (|page| > 1 ==> Total(page) <= MAX_BYTES)
      && (|page| < |listing.memories| ==> Total(listing.memories[..|page| + 1]) > MAX_BYTES)
  {
    FitStays(listing.memories, 0);
    FitFrom(listing.memories, 0);
  }

  // ----- following the effective cursor -----

  function Request(all: seq<Memory>, cursor: Option<Id>, limit: nat): Listing {
    Budgeted(ListMemories(all, cursor, limit))
  }

  lemma {:induction false} FindByIdFinds(all: seq<Memory>, k: nat)
    requires Ordered(all) && k < |all|
    ensures FindById(all, all[k].id) == Some(all[k])
  {
    if k > 0 {
      assert all[0].id != all[k].id;
      assert all[1..][k - 1] == all[k];
      FindByIdFinds(all[1..], k - 1);
    }
  }

  lemma {:induction false} FoundHasPosition(all: seq<Memory>, id: Id)
    ensures FindById(all, id).Some? ==> FindById(all, id).value in all
  {
    if all != [] {
      FoundHasPosition(all[1..], id);
    }
  }

  /** What the WHERE clause selects after the `k`th memory is the rest of the list. */
  lemma {:induction false} LaterIsSuffix(all: seq<Memory>, m: Memory, k: nat)
    requires k <= |all|
    requires forall i :: 0 <= i < k ==> !ComesAfter(m, all[i])
    requires forall i :: k <= i < |all| ==> ComesAfter(m, all[i])
    ensures Later(all, m) == all[k..]
  {
    if all != [] {
      var rest := all[1..];
      assert forall i :: 0 <= i < |rest| ==> rest[i] == all[i + 1];
      if k == 0 {
        LaterIsSuffix(rest, m, 0);
        assert [all[0]] + rest == all;
      } else {
        LaterIsSuffix(rest, m, k - 1);
        assert rest[k - 1..] == all[k..];
      }
    }
  }

  lemma {:induction false} LaterThanKth(all: seq<Memory>, k: nat)
    requires Ordered(all) && k < |all|
    ensures Later(all, all[k]) == all[k + 1..]
  {
    forall i | 0 <= i <= k ensures !ComesAfter(all[k], all[i]) {
      if i < k {
        assert ComesAfter(all[i], all[k]);
      }
    }
    LaterIsSuffix(all, all[k], k + 1);
  }

  /** A request delivers a part of what follows its cursor: at most `limit` memories, of at most
      7000 bytes unless it is just one, and no fewer than both allow; its own cursor, if any,
      names the last memory delivered. */
  lemma {:induction false} RequestDelivers(all: seq<Memory>, cursor: Option<Id>, limit: nat)
    requires limit >= 1
    ensures var page, rest := Request(all, cursor, limit), Following(all, cursor);
      && page.memories <= rest && |page.memories| <= limit
      && (rest != [] ==> page.memories != [])
      && (|page.memories| > 1 ==> Total(page.memories) <= 7000)
      && (|page.memories| < limit && |page.memories| < |rest| ==> Total(rest[..|page.memories| + 1]) > 7000)
      && (page.next.Some? <==> |page.memories| < |rest|)
      && (page.next.Some? ==> page.memories != [] && page.next.value == page.memories[|page.memories| - 1].id)
  {
    var l, rest := ListMemories(all, cursor, limit), Following(all, cursor);
    PageFitsBudget(l);
    FitStays(l.memories, 0);
    assert l.memories == FirstOf(rest, limit);
    var n := |Request(all, cursor, limit).memories|;
    assert n == |l.memories| ==> Request(all, cursor, limit).memories == l.memories;
    assert n < |l.memories| ==> rest[..n + 1] == l.memories[..n + 1];
  }

  /** All pages from `cursor` on, concatenated. */
  function Traversal(all: seq<Memory>, cursor: Option<Id>, limit: nat): seq<Memory>
    requires limit >= 1 && Ordered(all)
    decreases |Following(all, cursor)|
  {
    var page := Request(all, cursor, limit);
    if page.next.None? then page.memories
    else
      NextFollows(all, cursor, limit);
      page.memories + Traversal(all, page.next, limit)
  }

  /** What follows a cursor is the list from some position on. */
  lemma {:induction false} FollowingIsSuffix(all: seq<Memory>, cursor: Option<Id>) returns (k: nat)
    requires Ordered(all)
    ensures k <= |all| && Following(all, cursor) == all[k..]
  {
    k := 0;
    if cursor.Some? && FindById(all, cursor.value).Some? {
      FoundHasPosition(all, cursor.value);
      var i :| 0 <= i < |all| && all[i] == FindById(all, cursor.value).value;
      LaterThanKth(all, i);
      k := i + 1;
    }
  }

  /** The id of the last of `n` memories read from the `k`th on is a cursor to the rest. */
  lemma {:induction false} CursorFollows(all: seq<Memory>, k: nat, n: nat)
    requires Ordered(all) && 0 < n && k + n <= |all|
    ensures Following(all, Some(all[k..][n - 1].id)) == all[k..][n..]
  {
    FindByIdFinds(all, k + n - 1);
    LaterThanKth(all, k + n - 1);
  }

  lemma {:induction false} NextFollows(all: seq<Memory>, cursor: Option<Id>, limit: nat)
    requires limit >= 1 && Ordered(all) && Request(all, cursor, limit).next.Some?
    ensures Request(all, cursor, limit).memories != []
    ensures Request(all, cursor, limit).memories <= Following(all, cursor)
    ensures Following(all, Request(all, cursor, limit).next) == Following(all, cursor)[|Request(all, cursor, limit).memories|..]
  {
    RequestDelivers(all, cursor, limit);
    var k := FollowingIsSuffix(all, cursor);
    CursorFollows(all, k, |Request(all, cursor, limit).memories|);
  }

  lemma {:induction false} PrefixAndRest(prefix: seq<Memory>, all: seq<Memory>)
    requires prefix <= all
    ensures prefix + all[|prefix|..] == all && (|prefix| == |all| ==> prefix == all)
  {
  }

  lemma {:induction false} TraversalIsTheRest(all: seq<Memory>, cursor: Option<Id>, limit: nat)
    requires limit >= 1 && Ordered(all)
    ensures Traversal(all, cursor, limit) == Following(all, cursor)
    decreases |Following(all, cursor)|
  {
    RequestDelivers(all, cursor, limit);
    var page, rest := Request(all, cursor, limit), Following(all, cursor);
    if page.next.Some? {
      NextFollows(all, cursor, limit);
      TraversalIsTheRest(all, page.next, limit);
      PrefixAndRest(page.memories, rest);
    } else {
      PrefixAndRest(page.memories, rest);
    }
  }

  /** Whatever the sizes of the summaries, following the effective cursor delivers every
      memory once, in order. */
  lemma {:induction false} PagesAreTheList(all: seq<Memory>, limit: nat)
    requires limit >= 1 && Ordered(all)
    ensures Traversal(all, None, limit) == all
  {
    TraversalIsTheRest(all, None, limit);
  }
}
