/** The stratified sample for the blind importance review. */
module Sampling {
  import opened Sequences
  import opened Wrappers

  datatype Category = Preference | Relationship | Fact | Goal | OtherCategory(name: string)
  datatype Disposition = Pending | OtherDisposition(name: string)

  datatype Item = Item(category: Category, disposition: Disposition, absoluteDelta: real, content: string)

  type Stratum = Item -> bool

  function Count(s: seq<Item>, p: Stratum): nat {
    if s == [] then 0 else (if p(s[0]) then 1 else 0) + Count(s[1..], p)
  }

  lemma {:induction false} CountConcat(a: seq<Item>, b: seq<Item>, p: Stratum)
    ensures Count(a + b, p) == Count(a, p) + Count(b, p)
    decreases |a|
  {
    if a == [] {
      assert a + b == b;
    } else {
      assert (a + b)[1..] == a[1..] + b;
      CountConcat(a[1..], b, p);
    }
  }

  lemma {:induction false} CountSame(s: seq<Item>, p: Stratum, q: Stratum)
    requires forall x :: p(x) == q(x)
    ensures Count(s, p) == Count(s, q)
  {
    if s != [] {
      CountSame(s[1..], p, q);
    }
  }

  lemma {:induction false} CountZero(s: seq<Item>, p: Stratum)
    requires Count(s, p) == 0
    ensures forall x :: x in s ==> !p(x)
  {
    if s != [] {
      CountZero(s[1..], p);
    }
  }

  // ----- the source's functions -----

  /** `list.remove`: drops the first equal element. */
  function RemoveFirst(pool: seq<Item>, x: Item): seq<Item> {
    if pool == [] then []
    else if pool[0] == x then pool[1..]
    else [pool[0]] + RemoveFirst(pool[1..], x)
  }

  datatype Draft = Draft(selected: seq<Item>, pool: seq<Item>)

  /** `take`, from the part of the pool's snapshot still to be visited. */
  function TakeFrom(snapshot: seq<Item>, d: Draft, p: Stratum, count: int): Draft
    decreases |snapshot|
  {
    if snapshot == [] || Count(d.selected, p) >= count then d
    else if p(snapshot[0])
    then TakeFrom(snapshot[1..], Draft(d.selected + [snapshot[0]], RemoveFirst(d.pool, snapshot[0])), p, count)
    else TakeFrom(snapshot[1..], d, p, count)
  }

  function Take(d: Draft, p: Stratum, count: int): Draft {
    TakeFrom(d.pool, d, p, count)
  }

  method TakeInto(selected: seq<Item>, pool: seq<Item>, p: Stratum, count: int) returns (selected': seq<Item>, pool': seq<Item>)
    ensures Draft(selected', pool') == Take(Draft(selected, pool), p, count)
  {
    selected', pool' := selected, pool;
    var i := 0;
    while i < |pool|
      invariant 0 <= i <= |pool|
      invariant TakeFrom(pool[i..], Draft(selected', pool'), p, count) == Take(Draft(selected, pool), p, count)
    {
      if Count(selected', p) >= count {
        break;
      }
      assert pool[i..][1..] == pool[i + 1..];
      if p(pool[i]) {
        selected', pool' := selected' + [pool[i]], RemoveFirst(pool', pool[i]);
      }
      i := i + 1;
    }
  }

  function InCategory(c: Category): Stratum {
    (x: Item) => x.category == c
  }

  const PRIORITY_CATEGORIES: seq<Category> := [Preference, Relationship, Fact, Goal]
  const PENDING: Stratum := (x: Item) => x.disposition == Pending
  const LARGE: Stratum := (x: Item) => x.absoluteDelta >= 2.0
  const SMALL: Stratum := (x: Item) => x.absoluteDelta <= 1.0

  function AtLeast(floor: nat, n: nat): nat {
    if n > floor then n else floor
  }

  function PerCategory(size: nat): nat { AtLeast(2, size / 8) }
  function PendingQuota(size: nat): nat { AtLeast(3, size / 6) }
  function DeltaQuota(size: nat): nat { AtLeast(4, size / 4) }

  function TakeCategories(d: Draft, categories: seq<Category>, count: nat): Draft {
    if categories == [] then d
    else Take(TakeCategories(d, categories[..|categories| - 1], count), InCategory(categories[|categories| - 1]), count)
  }

  /** The six strata whose quotas the sample promises, before the small ones and the fill. */
  function Strata(pool: seq<Item>, size: nat): Draft {
    var d := TakeCategories(Draft([], pool), PRIORITY_CATEGORIES, PerCategory(size));
    Take(Take(d, PENDING, PendingQuota(size)), LARGE, DeltaQuota(size))
  }

  function Fill(d: Draft, size: nat): seq<Item> {
    if |d.selected| >= size then d.selected
    else if |d.pool| <= size - |d.selected| then d.selected + d.pool
    else d.selected + d.pool[..size - |d.selected|]
  }

  function Sample(pool: seq<Item>, size: nat): seq<Item> {
    FirstOf(Fill(Take(Strata(pool, size), SMALL, DeltaQuota(size)), size), size)
  }

  /** The last loop: anything left over fills the sample up. */
  method FillUp(selected: seq<Item>, pool: seq<Item>, size: nat) returns (filled: seq<Item>)
    ensures filled == Fill(Draft(selected, pool), size)
  {
    filled := selected;
    var i := 0;
    while i < |pool| && |filled| < size
      invariant 0 <= i <= |pool| && filled == selected + pool[..i]
      invariant i == 0 || |filled| <= size
    {
      filled := filled + [pool[i]];
      i := i + 1;
    }
    assert pool[..|pool|] == pool;
  }

  /** `select_sample`, given the shuffled candidates. */
  method SelectSample(shuffled: seq<Item>, size: nat) returns (sample: seq<Item>)
    ensures sample == Sample(shuffled, size)
  {
    var pool, selected := shuffled, [];
    var perCategory := AtLeast(2, size / 8);
    for i := 0 to |PRIORITY_CATEGORIES|
      invariant Draft(selected, pool) == TakeCategories(Draft([], shuffled), PRIORITY_CATEGORIES[..i], perCategory)
    {
      assert PRIORITY_CATEGORIES[..i + 1][..i] == PRIORITY_CATEGORIES[..i];
      selected, pool := TakeInto(selected, pool, InCategory(PRIORITY_CATEGORIES[i]), perCategory);
    }
    assert PRIORITY_CATEGORIES[..|PRIORITY_CATEGORIES|] == PRIORITY_CATEGORIES;
    selected, pool := TakeInto(selected, pool, PENDING, AtLeast(3, size / 6));
    selected, pool := TakeInto(selected, pool, LARGE, AtLeast(4, size / 4));
    selected, pool := TakeInto(selected, pool, SMALL, AtLeast(4, size / 4));
    selected := FillUp(selected, pool, size);
    sample := FirstOf(selected, size);
  }

  // ----- one take -----

  lemma {:induction false} RemoveFirstCounts(pool: seq<Item>, x: Item, p: Stratum)
    requires x in pool
    ensures Count(RemoveFirst(pool, x), p) == Count(pool, p) - if p(x) then 1 else 0
  {
    if pool[0] != x {
      RemoveFirstCounts(pool[1..], x, p);
      assert ([pool[0]] + RemoveFirst(pool[1..], x))[1..] == RemoveFirst(pool[1..], x);
    }
  }

  lemma {:induction false} DropFirst(a: seq<Item>)
    requires a != []
    ensures a[0] in multiset(a) && multiset(a[1..]) == multiset(a) - multiset{a[0]}
  {
    assert a == [a[0]] + a[1..];
  }

  lemma {:induction false} KeepHead(head: Item, rest: seq<Item>, less: seq<Item>, x: Item)
    requires x in rest && multiset(less) == multiset(rest) - multiset{x}
    ensures multiset([head] + less) == multiset([head] + rest) - multiset{x}
  {
    assert x in multiset(rest);
  }

  lemma {:induction false} RemoveFirstRemoves(pool: seq<Item>, x: Item)
    requires x in pool
    ensures multiset(RemoveFirst(pool, x)) == multiset(pool) - multiset{x}
  {
    assert pool == [pool[0]] + pool[1..];
    if pool[0] == x {
      DropFirst(pool);
    } else {
      RemoveFirstRemoves(pool[1..], x);
      KeepHead(pool[0], pool[1..], RemoveFirst(pool[1..], x), x);
    }
  }

  /** Equal multisets have equal counts. */
  lemma {:induction false} CountIsByMultiset(a: seq<Item>, b: seq<Item>, p: Stratum)
    requires multiset(a) == multiset(b)
    ensures Count(a, p) == Count(b, p)
    decreases |a|
  {
    assert |a| == |multiset(a)| == |multiset(b)| == |b|;
    if a != [] {
      DropFirst(a);
      RemoveFirstRemoves(b, a[0]);
      RemoveFirstCounts(b, a[0], p);
      CountIsByMultiset(a[1..], RemoveFirst(b, a[0]), p);
    }
  }

  /** A take keeps every item, extends the selection by at most what its stratum lacks, and
      stops only when the quota is reached or the pool has no more of the stratum. */
  ghost predicate Taken(d: Draft, d': Draft, p: Stratum, count: int) {
    && multiset(d'.selected) + multiset(d'.pool) == multiset(d.selected) + multiset(d.pool)
    && d.selected <= d'.selected
    && |d'.selected| - |d.selected| == Count(d'.selected, p) - Count(d.selected, p)
    && (d' == d || Count(d'.selected, p) <= count)
    && (Count(d'.selected, p) >= count || Count(d'.pool, p) == 0)
  }

  lemma {:induction false} TakingOne(d: Draft, x: Item, p: Stratum)
    requires x in d.pool && p(x)
    ensures var next := Draft(d.selected + [x], RemoveFirst(d.pool, x));
      && multiset(next.selected) + multiset(next.pool) == multiset(d.selected) + multiset(d.pool)
      && multiset(next.pool) == multiset(d.pool) - multiset{x}
      && Count(next.selected, p) == Count(d.selected, p) + 1
      && Count(next.pool, p) == Count(d.pool, p) - 1
  {
    RemoveFirstRemoves(d.pool, x);
    RemoveFirstCounts(d.pool, x, p);
    CountConcat(d.selected, [x], p);
    assert [x][1..] == [];
  }

  lemma {:induction false} TakenAfterOne(d: Draft, next: Draft, end: Draft, p: Stratum, count: int)
    requires Taken(next, end, p, count) && d.selected <= next.selected
    requires multiset(next.selected) + multiset(next.pool) == multiset(d.selected) + multiset(d.pool)
    requires |next.selected| == |d.selected| + 1 && Count(next.selected, p) == Count(d.selected, p) + 1 <= count
    ensures Taken(d, end, p, count)
  {
  }

  /** Taking the head of the snapshot leaves the rest of it in the pool. */
  lemma {:induction false} TakeHead(snapshot: seq<Item>, d: Draft, p: Stratum, next: Draft)
    requires snapshot != [] && p(snapshot[0])
    requires multiset(snapshot) <= multiset(d.pool) && Count(snapshot, p) == Count(d.pool, p)
    requires next == Draft(d.selected + [snapshot[0]], RemoveFirst(d.pool, snapshot[0]))
    ensures multiset(snapshot[1..]) <= multiset(next.pool) && Count(snapshot[1..], p) == Count(next.pool, p)
    ensures multiset(next.selected) + multiset(next.pool) == multiset(d.selected) + multiset(d.pool)
    ensures Count(next.selected, p) == Count(d.selected, p) + 1
  {
    DropFirst(snapshot);
    assert snapshot[0] in multiset(d.pool);
    TakingOne(d, snapshot[0], p);
  }

  lemma {:induction false} TakeFromTakes(snapshot: seq<Item>, d: Draft, p: Stratum, count: int)
    requires multiset(snapshot) <= multiset(d.pool) && Count(snapshot, p) == Count(d.pool, p)
    ensures Taken(d, TakeFrom(snapshot, d, p, count), p, count)
    decreases |snapshot|
  {
    if snapshot != [] && Count(d.selected, p) < count {
      var rest := snapshot[1..];
      if p(snapshot[0]) {
        var next := Draft(d.selected + [snapshot[0]], RemoveFirst(d.pool, snapshot[0]));
        TakeHead(snapshot, d, p, next);
        TakeFromTakes(rest, next, p, count);
        TakenAfterOne(d, next, TakeFrom(rest, next, p, count), p, count);
      } else {
        DropFirst(snapshot);
        TakeFromTakes(rest, d, p, count);
      }
    }
  }

  lemma {:induction false} TakeTakes(d: Draft, p: Stratum, count: int)
    ensures Taken(d, Take(d, p, count), p, count)
  {
    TakeFromTakes(d.pool, d, p, count);
  }

  /** As many of a stratum as its quota, or all there are. */
  predicate QuotaMet(selected: seq<Item>, all: seq<Item>, p: Stratum, count: nat) {
    Count(selected, p) >= count || Count(selected, p) >= Count(all, p)
  }

  ghost predicate Splits(d: Draft, all: seq<Item>) {
    multiset(d.selected) + multiset(d.pool) == multiset(all)
  }

  lemma {:induction false} TakeMeetsQuota(d: Draft, all: seq<Item>, p: Stratum, count: nat)
    requires Splits(d, all)
    ensures var d' := Take(d, p, count);
      && Splits(d', all) && d.selected <= d'.selected
      && QuotaMet(d'.selected, all, p, count)
      && |d'.selected| <= |d.selected| + count
  {
    TakeTakes(d, p, count);
    var d' := Take(d, p, count);
    CountConcat(d'.selected, d'.pool, p);
    CountIsByMultiset(d'.selected + d'.pool, all, p);
  }

  lemma {:induction false} ExtensionKeepsQuota(s: seq<Item>, s': seq<Item>, all: seq<Item>, p: Stratum, count: nat)
    requires s <= s' && QuotaMet(s, all, p, count)
    ensures QuotaMet(s', all, p, count)
  {
    assert s' == s + s'[|s|..];
    CountConcat(s, s'[|s|..], p);
  }

  // ----- the whole sample -----

  ghost predicate PrioritiesMet(selected: seq<Item>, all: seq<Item>, count: nat) {
    && QuotaMet(selected, all, InCategory(Preference), count)
    && QuotaMet(selected, all, InCategory(Relationship), count)
    && QuotaMet(selected, all, InCategory(Fact), count)
    && QuotaMet(selected, all, InCategory(Goal), count)
  }

  lemma {:induction false} PrioritiesStayMet(s: seq<Item>, s': seq<Item>, all: seq<Item>, count: nat)
    requires s <= s' && PrioritiesMet(s, all, count)
    ensures PrioritiesMet(s', all, count)
  {
    ExtensionKeepsQuota(s, s', all, InCategory(Preference), count);
    ExtensionKeepsQuota(s, s', all, InCategory(Relationship), count);
    ExtensionKeepsQuota(s, s', all, InCategory(Fact), count);
    ExtensionKeepsQuota(s, s', all, InCategory(Goal), count);
  }

  function Categories(all: seq<Item>, size: nat): Draft {
    TakeCategories(Draft([], all), PRIORITY_CATEGORIES, PerCategory(size))
  }

  lemma {:induction false} UnrollCategories(d: Draft, count: nat)
    ensures TakeCategories(d, PRIORITY_CATEGORIES, count) ==
      Take(Take(Take(Take(d, InCategory(Preference), count), InCategory(Relationship), count), InCategory(Fact), count),
           InCategory(Goal), count)
  {
    var p := PRIORITY_CATEGORIES;
    assert p[..3][..2] == p[..2] && p[..2][..1] == p[..1] && p[..1][..0] == [];
    assert TakeCategories(d, p[..1], count) == Take(d, InCategory(Preference), count);
    assert TakeCategories(d, p[..2], count) == Take(TakeCategories(d, p[..1], count), InCategory(Relationship), count);
    assert TakeCategories(d, p[..3], count) == Take(TakeCategories(d, p[..2], count), InCategory(Fact), count);
  }

  lemma {:induction false} CategoriesMeetQuotas(all: seq<Item>, size: nat)
    ensures var d := Categories(all, size);
      && Splits(d, all) && PrioritiesMet(d.selected, all, PerCategory(size))
      && |d.selected| <= 4 * PerCategory(size)
  {
    var n, d0 := PerCategory(size), Draft([], all);
    UnrollCategories(d0, n);
    TakeMeetsQuota(d0, all, InCategory(Preference), n);
    var d1 := Take(d0, InCategory(Preference), n);
    TakeMeetsQuota(d1, all, InCategory(Relationship), n);
    var d2 := Take(d1, InCategory(Relationship), n);
    TakeMeetsQuota(d2, all, InCategory(Fact), n);
    var d3 := Take(d2, InCategory(Fact), n);
    TakeMeetsQuota(d3, all, InCategory(Goal), n);
    var d4 := Take(d3, InCategory(Goal), n);
    ExtensionKeepsQuota(d1.selected, d4.selected, all, InCategory(Preference), n);
    ExtensionKeepsQuota(d2.selected, d4.selected, all, InCategory(Relationship), n);
    ExtensionKeepsQuota(d3.selected, d4.selected, all, InCategory(Fact), n);
  }

  ghost predicate StrataMet(selected: seq<Item>, all: seq<Item>, size: nat) {
    && PrioritiesMet(selected, all, PerCategory(size))
    && QuotaMet(selected, all, PENDING, PendingQuota(size))
    && QuotaMet(selected, all, LARGE, DeltaQuota(size))
  }

  lemma {:induction false} StrataMeetQuotas(all: seq<Item>, size: nat)
    ensures var d := Strata(all, size);
      && Splits(d, all) && StrataMet(d.selected, all, size) && Categories(all, size).selected <= d.selected
      && |d.selected| <= 4 * PerCategory(size) + PendingQuota(size) + DeltaQuota(size)
  {
    CategoriesMeetQuotas(all, size);
    var c := Categories(all, size);
    TakeMeetsQuota(c, all, PENDING, PendingQuota(size));
    var p := Take(c, PENDING, PendingQuota(size));
    TakeMeetsQuota(p, all, LARGE, DeltaQuota(size));
    var d := Take(p, LARGE, DeltaQuota(size));
    ExtensionKeepsQuota(p.selected, d.selected, all, PENDING, PendingQuota(size));
    PrioritiesStayMet(c.selected, d.selected, all, PerCategory(size));
  }

  /** Fill and cut together take the selection and then the pool, up to the size. */
  lemma {:induction false} FillIsFirst(d: Draft, size: nat)
    ensures FirstOf(Fill(d, size), size) == FirstOf(d.selected + d.pool, size)
  {
  }

  lemma {:induction false} PrefixOfFirst<T>(s: seq<T>, all: seq<T>, size: nat)
    requires s <= all && |s| <= size
    ensures s <= FirstOf(all, size)
  {
  }

  /** The sample consists of candidates, none used more often than it occurs, and has
      exactly `min(size, candidates)` items; it starts with as much of the strata as fits. */
  lemma {:induction false} SampleIsSubset(all: seq<Item>, size: nat)
    ensures var r := Sample(all, size);
      && multiset(r) <= multiset(all) && |r| == Min(size, |all|)
      && forall s :: s <= Strata(all, size).selected && |s| <= size ==> s <= r
  {
    StrataMeetQuotas(all, size);
    var d0 := Strata(all, size);
    TakeMeetsQuota(d0, all, SMALL, DeltaQuota(size));
    var d := Take(d0, SMALL, DeltaQuota(size));
    var both := d.selected + d.pool;
    FillIsFirst(d, size);
    var r := FirstOf(both, size);
    assert multiset(both) == multiset(all);
    assert |both| == |all| by {
      assert |multiset(both)| == |multiset(all)|;
    }
    assert both == r + both[|r|..];
    forall s | s <= d0.selected && |s| <= size ensures s <= r {
      assert s <= d.selected <= both;
      PrefixOfFirst(s, both, size);
    }
  }

  // ----- what the sample promises, in the words of the review -----

  ghost predicate OfCategory(p: Stratum, c: Category) {
    forall x: Item :: p(x) <==> x.category == c
  }

  ghost predicate OfPending(p: Stratum) {
    forall x: Item :: p(x) <==> x.disposition == Pending
  }

  ghost predicate OfLarge(p: Stratum) {
    forall x: Item :: p(x) <==> x.absoluteDelta >= 2.0
  }

  ghost predicate OfSmall(p: Stratum) {
    forall x: Item :: p(x) <==> x.absoluteDelta <= 1.0
  }

  /** At least `floor` and at least `share` of a stratum, or all there are. */
  predicate Meets(selected: seq<Item>, all: seq<Item>, p: Stratum, floor: nat, share: nat) {
    QuotaMet(selected, all, p, floor) && QuotaMet(selected, all, p, share)
  }

  ghost predicate CategoriesMet(selected: seq<Item>, all: seq<Item>, size: nat) {
    forall p: Stratum, c: Category :: (c.Preference? || c.Relationship? || c.Fact? || c.Goal?) && OfCategory(p, c) ==>
      Meets(selected, all, p, 2, size / 8)
  }

  ghost predicate AllMet(selected: seq<Item>, all: seq<Item>, size: nat) {
    && CategoriesMet(selected, all, size)
    && (forall p :: OfPending(p) ==> Meets(selected, all, p, 3, size / 6))
    && (forall p :: OfLarge(p) ==> Meets(selected, all, p, 4, size / 4))
  }

  ghost predicate SmallMet(selected: seq<Item>, all: seq<Item>, size: nat) {
    forall p :: OfSmall(p) ==> Meets(selected, all, p, 4, size / 4)
  }

  lemma {:induction false} SameStratum(selected: seq<Item>, all: seq<Item>, p: Stratum, q: Stratum, count: nat)
    requires forall x :: p(x) == q(x)
    requires QuotaMet(selected, all, q, count)
    ensures forall n: nat :: n <= count ==> QuotaMet(selected, all, p, n)
  {
    CountSame(selected, p, q);
    CountSame(all, p, q);
  }

  lemma {:induction false} PrioritiesAreCategories(selected: seq<Item>, all: seq<Item>, size: nat)
    requires PrioritiesMet(selected, all, PerCategory(size))
    ensures CategoriesMet(selected, all, size)
  {
    forall p: Stratum, c: Category | (c.Preference? || c.Relationship? || c.Fact? || c.Goal?) && OfCategory(p, c)
      ensures Meets(selected, all, p, 2, size / 8)
    {
      SameStratum(selected, all, p, InCategory(c), PerCategory(size));
    }
  }

  /** From size 15 on, the final cut never breaks a category, pending or large-disagreement quota. */
  lemma {:induction false} QuotasSurviveTheCut(all: seq<Item>, size: nat)
    requires size >= 15
    ensures AllMet(Sample(all, size), all, size)
  {
    StrataMeetQuotas(all, size);
    SampleIsSubset(all, size);
    var d, r := Strata(all, size), Sample(all, size);
    assert d.selected <= d.selected;
    PrioritiesStayMet(d.selected, r, all, PerCategory(size));
    PrioritiesAreCategories(r, all, size);
    forall p | OfPending(p) ensures Meets(r, all, p, 3, size / 6) {
      ExtensionKeepsQuota(d.selected, r, all, PENDING, PendingQuota(size));
      SameStratum(r, all, p, PENDING, PendingQuota(size));
    }
    forall p | OfLarge(p) ensures Meets(r, all, p, 4, size / 4) {
      ExtensionKeepsQuota(d.selected, r, all, LARGE, DeltaQuota(size));
      SameStratum(r, all, p, LARGE, DeltaQuota(size));
    }
  }

  /** From size 8 on, it never breaks a category quota. */
  lemma {:induction false} CategoriesSurviveTheCut(all: seq<Item>, size: nat)
    requires size >= 8
    ensures CategoriesMet(Sample(all, size), all, size)
  {
    CategoriesMeetQuotas(all, size);
    StrataMeetQuotas(all, size);
    SampleIsSubset(all, size);
    PrioritiesStayMet(Categories(all, size).selected, Sample(all, size), all, PerCategory(size));
    PrioritiesAreCategories(Sample(all, size), all, size);
  }

  /** The strata and the small-disagreement memories come first, up to the size. */
  lemma {:induction false} SmallComeNext(all: seq<Item>, size: nat)
    ensures var d := Take(Strata(all, size), SMALL, DeltaQuota(size));
      && QuotaMet(d.selected, all, SMALL, DeltaQuota(size))
      && |d.selected| <= |Strata(all, size).selected| + DeltaQuota(size)
      && Strata(all, size).selected <= d.selected
      && (|d.selected| <= size ==> d.selected <= Sample(all, size))
      && (size <= |d.selected| ==> Sample(all, size) <= d.selected)
  {
    StrataMeetQuotas(all, size);
    TakeMeetsQuota(Strata(all, size), all, SMALL, DeltaQuota(size));
    FillIsFirst(Take(Strata(all, size), SMALL, DeltaQuota(size)), size);
  }

  /** The small-disagreement quota is last in line: a sample that misses it is full of the other
      strata, or goes on after them with small disagreements alone. */
  lemma {:induction false} SmallIsLastInLine(all: seq<Item>, size: nat)
    ensures var r, n := Sample(all, size), |Strata(all, size).selected|;
      SmallMet(r, all, size) || (|r| == size && forall i :: n <= i < size ==> r[i].absoluteDelta <= 1.0)
  {
    var d0, r := Strata(all, size), Sample(all, size);
    var d := Take(d0, SMALL, DeltaQuota(size));
    SmallComeNext(all, size);
    if |d.selected| <= size {
      SmallAreMet(d.selected, r, all, size);
    } else {
      TakeTakes(d0, SMALL, DeltaQuota(size));
      AddedAreOf(d0.selected, d.selected, SMALL);
    }
  }

  lemma {:induction false} SmallAreMet(s: seq<Item>, r: seq<Item>, all: seq<Item>, size: nat)
    requires s <= r && QuotaMet(s, all, SMALL, DeltaQuota(size))
    ensures SmallMet(r, all, size)
  {
    ExtensionKeepsQuota(s, r, all, SMALL, DeltaQuota(size));
    forall p | OfSmall(p) ensures Meets(r, all, p, 4, size / 4) {
      SameStratum(r, all, p, SMALL, DeltaQuota(size));
    }
  }

  lemma {:induction false} CountAll(s: seq<Item>, p: Stratum)
    ensures Count(s, p) <= |s|
    ensures Count(s, p) == |s| ==> forall i :: 0 <= i < |s| ==> p(s[i])
  {
    if s != [] {
      CountAll(s[1..], p);
      assert forall i :: 0 < i < |s| ==> s[i] == s[1..][i - 1];
    }
  }

  lemma {:induction false} AddedAreOf(s: seq<Item>, s': seq<Item>, p: Stratum)
    requires s <= s' && |s'| - |s| == Count(s', p) - Count(s, p)
    ensures forall i :: |s| <= i < |s'| ==> p(s'[i])
  {
    var added := s'[|s|..];
    assert s' == s + added;
    CountConcat(s, added, p);
    CountAll(added, p);
    assert forall i :: |s| <= i < |s'| ==> s'[i] == added[i - |s|];
  }

  /** Room for all seven quotas at once. */
  predicate HasRoom(size: nat) {
    4 * AtLeast(2, size / 8) + AtLeast(3, size / 6) + 2 * AtLeast(4, size / 4) <= size
  }

  // ----- candidates that meet each quota exactly, and no two at once -----

  function Repeat(x: Item, n: nat): seq<Item> {
    seq(n, _ => x)
  }

  lemma {:induction false} CountRepeat(x: Item, n: nat, p: Stratum)
    ensures Count(Repeat(x, n), p) == if p(x) then n else 0
  {
    if n > 0 {
      assert Repeat(x, n)[1..] == Repeat(x, n - 1);
      CountRepeat(x, n - 1, p);
    }
  }

  function Of(category: Category): Item {
    Item(category, OtherDisposition("active"), 1.5, "")
  }

  const WAITING := Item(OtherCategory("event"), Pending, 1.5, "")
  const DISPUTED := Item(OtherCategory("event"), OtherDisposition("active"), 2.0, "")
  const AGREED := Item(OtherCategory("event"), OtherDisposition("active"), 1.0, "")

  function EachCategory(n: nat): seq<Item> {
    Repeat(Of(Preference), n) + Repeat(Of(Relationship), n) + Repeat(Of(Fact), n) + Repeat(Of(Goal), n)
  }

  function Exactly(size: nat): seq<Item> {
    EachCategory(PerCategory(size)) + Repeat(WAITING, PendingQuota(size)) + Repeat(DISPUTED, DeltaQuota(size))
      + Repeat(AGREED, DeltaQuota(size))
  }

  function If(b: bool, n: nat): nat {
    if b then n else 0
  }

  lemma {:induction false} CountEachCategory(n: nat, p: Stratum)
    ensures Count(EachCategory(n), p)
         == If(p(Of(Preference)), n) + If(p(Of(Relationship)), n) + If(p(Of(Fact)), n) + If(p(Of(Goal)), n)
  {
    var a, b, c, d := Repeat(Of(Preference), n), Repeat(Of(Relationship), n), Repeat(Of(Fact), n), Repeat(Of(Goal), n);
    CountRepeat(Of(Preference), n, p);
    CountRepeat(Of(Relationship), n, p);
    CountRepeat(Of(Fact), n, p);
    CountRepeat(Of(Goal), n, p);
    CountConcat(a, b, p);
    CountConcat(a + b, c, p);
    CountConcat(a + b + c, d, p);
  }

  lemma {:induction false} CountExactly(size: nat, p: Stratum)
    ensures Count(Exactly(size), p)
         == If(p(Of(Preference)), PerCategory(size)) + If(p(Of(Relationship)), PerCategory(size))
          + If(p(Of(Fact)), PerCategory(size)) + If(p(Of(Goal)), PerCategory(size))
          + If(p(WAITING), PendingQuota(size)) + If(p(DISPUTED), DeltaQuota(size)) + If(p(AGREED), DeltaQuota(size))
  {
    var a, b, c := EachCategory(PerCategory(size)), Repeat(WAITING, PendingQuota(size)), Repeat(DISPUTED, DeltaQuota(size));
    CountEachCategory(PerCategory(size), p);
    CountRepeat(WAITING, PendingQuota(size), p);
    CountRepeat(DISPUTED, DeltaQuota(size), p);
    CountRepeat(AGREED, DeltaQuota(size), p);
    CountConcat(a, b, p);
    CountConcat(a + b, c, p);
    CountConcat(a + b + c, Repeat(AGREED, DeltaQuota(size)), p);
  }

  /** What those candidates offer to each stratum. */
  lemma {:induction false} OfferedExactly(size: nat)
    ensures Count(Exactly(size), InCategory(Preference)) == PerCategory(size)
    ensures Count(Exactly(size), InCategory(Relationship)) == PerCategory(size)
    ensures Count(Exactly(size), InCategory(Fact)) == PerCategory(size)
    ensures Count(Exactly(size), InCategory(Goal)) == PerCategory(size)
    ensures Count(Exactly(size), PENDING) == PendingQuota(size)
    ensures Count(Exactly(size), LARGE) == DeltaQuota(size)
    ensures Count(Exactly(size), SMALL) == DeltaQuota(size)
  {
    CountExactly(size, InCategory(Preference));
    CountExactly(size, InCategory(Relationship));
    CountExactly(size, InCategory(Fact));
    CountExactly(size, InCategory(Goal));
    CountExactly(size, PENDING);
    CountExactly(size, LARGE);
    CountExactly(size, SMALL);
  }

  function Hits(x: Item): nat {
    If(InCategory(Preference)(x), 1) + If(InCategory(Relationship)(x), 1) + If(InCategory(Fact)(x), 1)
    + If(InCategory(Goal)(x), 1) + If(PENDING(x), 1) + If(LARGE(x), 1) + If(SMALL(x), 1)
  }

  function InCategories(s: seq<Item>): nat {
    Count(s, InCategory(Preference)) + Count(s, InCategory(Relationship)) + Count(s, InCategory(Fact)) + Count(s, InCategory(Goal))
  }

  /** Strata that do not overlap have together no more items than there are. */
  lemma {:induction false} DisjointCounts(s: seq<Item>)
    requires forall x :: x in s ==> Hits(x) <= 1
    ensures InCategories(s) + Count(s, PENDING) + Count(s, LARGE) + Count(s, SMALL) <= |s|
  {
    if s != [] {
      assert s[0] in s;
      DisjointCounts(s[1..]);
    }
  }

  predicate Listed(x: Item) {
    x == Of(Preference) || x == Of(Relationship) || x == Of(Fact) || x == Of(Goal)
    || x == WAITING || x == DISPUTED || x == AGREED
  }

  lemma {:induction false} AllAreListed(size: nat)
    ensures forall x :: x in Exactly(size) ==> Listed(x)
  {
    var n, q := PerCategory(size), DeltaQuota(size);
    forall x | x in Exactly(size) ensures Listed(x) {
      assert x in EachCategory(n) || x in Repeat(WAITING, PendingQuota(size)) || x in Repeat(DISPUTED, q) || x in Repeat(AGREED, q);
    }
  }

  lemma {:induction false} ListedHitsOnce(x: Item)
    requires Listed(x)
    ensures Hits(x) <= 1
  {
  }

  /** So the quotas of a sample of them add up. */
  lemma {:induction false} SampleOfExactly(size: nat)
    ensures var r := Sample(Exactly(size), size);
      InCategories(r) + Count(r, PENDING) + Count(r, LARGE) + Count(r, SMALL) <= size
  {
    var r := Sample(Exactly(size), size);
    SampleIsSubset(Exactly(size), size);
    AllAreListed(size);
    forall x | x in r ensures Hits(x) <= 1 {
      assert x in multiset(r);
      ListedHitsOnce(x);
    }
    DisjointCounts(r);
  }

  /** A stratum of which its quota is available and met. */
  lemma {:induction false} MetExactly(r: seq<Item>, all: seq<Item>, p: Stratum, floor: nat, share: nat)
    requires Meets(r, all, p, floor, share) && Count(all, p) == AtLeast(floor, share)
    ensures Count(r, p) >= AtLeast(floor, share)
  {
  }

  lemma {:induction false} CategoriesMetExactly(size: nat)
    requires CategoriesMet(Sample(Exactly(size), size), Exactly(size), size)
    ensures InCategories(Sample(Exactly(size), size)) >= 4 * PerCategory(size)
  {
    var all, r := Exactly(size), Sample(Exactly(size), size);
    OfferedExactly(size);
    assert OfCategory(InCategory(Preference), Preference);
    assert OfCategory(InCategory(Relationship), Relationship);
    assert OfCategory(InCategory(Fact), Fact);
    assert OfCategory(InCategory(Goal), Goal);
    MetExactly(r, all, InCategory(Preference), 2, size / 8);
    MetExactly(r, all, InCategory(Relationship), 2, size / 8);
    MetExactly(r, all, InCategory(Fact), 2, size / 8);
    MetExactly(r, all, InCategory(Goal), 2, size / 8);
  }

  lemma {:induction false} AllMetExactly(size: nat)
    requires AllMet(Sample(Exactly(size), size), Exactly(size), size)
    ensures 4 * PerCategory(size) + PendingQuota(size) + DeltaQuota(size) + Count(Sample(Exactly(size), size), SMALL) <= size
  {
    var all, r := Exactly(size), Sample(Exactly(size), size);
    CategoriesMetExactly(size);
    OfferedExactly(size);
    assert OfPending(PENDING) && OfLarge(LARGE);
    MetExactly(r, all, PENDING, 3, size / 6);
    MetExactly(r, all, LARGE, 4, size / 4);
    SampleOfExactly(size);
  }

  /** The bound 15 is exact: below it, these candidates lose some quota to the cut. */
  lemma {:induction false} QuotasBreakBelow15(size: nat)
    requires size < 15
    ensures !AllMet(Sample(Exactly(size), size), Exactly(size), size)
  {
    if AllMet(Sample(Exactly(size), size), Exactly(size), size) {
      AllMetExactly(size);
      assert false;
    }
  }

  /** The bound 8 is exact for the category quotas. */
  lemma {:induction false} CategoriesBreakBelow8(size: nat)
    requires size < 8
    ensures !CategoriesMet(Sample(Exactly(size), size), Exactly(size), size)
  {
    if CategoriesMet(Sample(Exactly(size), size), Exactly(size), size) {
      CategoriesMetExactly(size);
      SampleOfExactly(size);
      assert false;
    }
  }

  lemma {:induction false} RoomForAll(size: nat)
    ensures HasRoom(size) <==> size in {19, 21, 22, 23, 31}
  {
    var k, r := size / 24, size % 24;
    assert size / 8 == 3 * k + r / 8 && size / 6 == 4 * k + r / 6 && size / 4 == 6 * k + r / 4;
    if k >= 2 {
      assert 4 * AtLeast(2, size / 8) + AtLeast(3, size / 6) + 2 * AtLeast(4, size / 4) >= 28 * k + 4 * (r / 8) + r / 6 + 2 * (r / 4);
    }
  }

  lemma {:induction false} SevenQuotasSurvive(all: seq<Item>, size: nat)
    requires HasRoom(size)
    ensures AllMet(Sample(all, size), all, size) && SmallMet(Sample(all, size), all, size)
  {
    QuotasSurviveTheCut(all, size);
    StrataMeetQuotas(all, size);
    SmallComeNext(all, size);
    SmallAreMet(Take(Strata(all, size), SMALL, DeltaQuota(size)).selected, Sample(all, size), all, size);
  }

  /** The small-disagreement quota takes part only at five sizes: at no other do all seven
      quotas hold for all candidates. */
  lemma {:induction false} SevenQuotasSurviveIff(size: nat)
    ensures (forall all :: AllMet(Sample(all, size), all, size) && SmallMet(Sample(all, size), all, size))
       <==> size in {19, 21, 22, 23, 31}
  {
    RoomForAll(size);
    if HasRoom(size) {
      forall all ensures AllMet(Sample(all, size), all, size) && SmallMet(Sample(all, size), all, size) {
        SevenQuotasSurvive(all, size);
      }
    } else if forall all :: AllMet(Sample(all, size), all, size) && SmallMet(Sample(all, size), all, size) {
      var all, r := Exactly(size), Sample(Exactly(size), size);
      assert AllMet(r, all, size) && SmallMet(r, all, size);
      AllMetExactly(size);
      OfferedExactly(size);
      assert OfSmall(SMALL);
      MetExactly(r, all, SMALL, 4, size / 4);
      assert false;
    }
  }
}
