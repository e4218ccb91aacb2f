/** Merging the answers of several collections: best score per id, sorted, cut. */
module SearchMerge {
  import opened Sequences

  type Id = string

  datatype Score = Missing | Scored(value: real)

  datatype Point = Point(id: Id, score: Score, payload: nat)

  /** A missing score counts as zero. */
  function ScoreOf(p: Point): real {
    match p.score
    case Missing => 0.0
    case Scored(v) => v
  }

  /** A dictionary that remembers the order its keys were first inserted in. */
  datatype Merged = Merged(order: seq<Id>, best: map<Id, Point>) {
    ghost predicate Valid() {
      && Distinct(order)
      && (forall id :: id in order <==> id in best)
      && (forall id :: id in best ==> best[id].id == id)
    }

    function Values(): (ps: seq<Point>)
      requires Valid()
      ensures |ps| == |order| && forall i :: 0 <= i < |ps| ==> ps[i] == best[order[i]] && ps[i].id == order[i]
    {
      seq(|order|, i requires 0 <= i < |order| => best[order[i]])
    }
  }

  const NOTHING := Merged([], map[])

  function Put(m: Merged, p: Point): Merged {
    if p.id !in m.best then Merged(m.order + [p.id], m.best[p.id := p])
    else if ScoreOf(p) > ScoreOf(m.best[p.id]) then Merged(m.order, m.best[p.id := p])
    else m
  }

  function PutAll(m: Merged, ps: seq<Point>): Merged {
    if ps == [] then m else Put(PutAll(m, ps[..|ps| - 1]), ps[|ps| - 1])
  }

  function Flatten(answers: seq<seq<Point>>): seq<Point> {
    if answers == [] then [] else Flatten(answers[..|answers| - 1]) + answers[|answers| - 1]
  }

  /** `m` holds, for each id among `ps`, one of its points with the highest score. */
  ghost predicate HoldsBest(m: Merged, ps: seq<Point>) {
    && m.Valid()
    && (forall id :: id in m.best ==> m.best[id] in ps)
    && (forall p :: p in ps ==> p.id in m.best && ScoreOf(p) <= ScoreOf(m.best[p.id]))
  }

  lemma {:induction false} PutAllHoldsBest(ps: seq<Point>)
    ensures HoldsBest(PutAll(NOTHING, ps), ps)
  {
    if ps != [] {
      var front, last := ps[..|ps| - 1], ps[|ps| - 1];
      PutAllHoldsBest(front);
      assert ps == front + [last];
      forall p | p in ps ensures p in front || p == last {}
    }
  }

  // ----- the library's stable descending sort -----

  function InsertDescending(sorted: seq<Point>, p: Point): seq<Point> {
    if sorted == [] || ScoreOf(sorted[|sorted| - 1]) >= ScoreOf(p) then sorted + [p]
    else InsertDescending(sorted[..|sorted| - 1], p) + [sorted[|sorted| - 1]]
  }

  /** Later equal scores go after earlier ones. */
  function SortDescending(ps: seq<Point>): seq<Point> {
    if ps == [] then [] else InsertDescending(SortDescending(ps[..|ps| - 1]), ps[|ps| - 1])
  }

  predicate Descending(ps: seq<Point>) {
    forall i, j :: 0 <= i < j < |ps| ==> ScoreOf(ps[i]) >= ScoreOf(ps[j])
  }

  function Ids(ps: seq<Point>): (ids: seq<Id>)
    ensures |ids| == |ps| && forall i :: 0 <= i < |ids| ==> ids[i] == ps[i].id
  {
    seq(|ps|, i requires 0 <= i < |ps| => ps[i].id)
  }

  predicate OnePerId(ps: seq<Point>) {
    forall i, j :: 0 <= i < j < |ps| ==> ps[i].id != ps[j].id
  }

  lemma {:induction false} InsertMembers(sorted: seq<Point>, p: Point)
    ensures forall q :: q in InsertDescending(sorted, p) <==> q in sorted || q == p
    decreases |sorted|
  {
    if sorted != [] && ScoreOf(sorted[|sorted| - 1]) < ScoreOf(p) {
      InsertMembers(sorted[..|sorted| - 1], p);
      assert sorted == sorted[..|sorted| - 1] + [sorted[|sorted| - 1]];
    }
  }

  lemma {:induction false} InsertSorts(sorted: seq<Point>, p: Point)
    requires Descending(sorted) && OnePerId(sorted) && forall q :: q in sorted ==> q.id != p.id
    ensures Descending(InsertDescending(sorted, p)) && OnePerId(InsertDescending(sorted, p))
    decreases |sorted|
  {
    if sorted != [] && ScoreOf(sorted[|sorted| - 1]) < ScoreOf(p) {
      var front, last := sorted[..|sorted| - 1], sorted[|sorted| - 1];
      InsertSorts(front, p);
      InsertMembers(front, p);
      var r := InsertDescending(front, p);
      forall i | 0 <= i < |r| ensures ScoreOf(r[i]) >= ScoreOf(last) && r[i].id != last.id {
        assert r[i] in front || r[i] == p;
      }
    }
  }

  lemma {:induction false} SortSorts(ps: seq<Point>)
    requires OnePerId(ps)
    ensures var r := SortDescending(ps);
      && Descending(r) && OnePerId(r)
      && (forall q :: q in r <==> q in ps)
    decreases |ps|
  {
    if ps != [] {
      var front, last := ps[..|ps| - 1], ps[|ps| - 1];
      SortSorts(front);
      assert forall q :: q in front ==> q.id != last.id;
      var sorted := SortDescending(front);
      forall i | 0 <= i < |sorted| ensures sorted[i].id != last.id {
        assert sorted[i] in front;
      }
      InsertSorts(sorted, last);
      InsertMembers(sorted, last);
      assert forall q :: q in ps <==> q in front || q == last;
    }
  }

  /** The answer of a search over the given per-collection answers. */
  ghost function TopMerged(answers: seq<seq<Point>>, limit: nat): seq<Point> {
    PutAllHoldsBest(Flatten(answers));
    FirstOf(SortDescending(PutAll(NOTHING, Flatten(answers)).Values()), limit)
  }

  // ----- which of equals -----

  predicate SeenAt(ps: seq<Point>, a: Id, b: Id, i: nat) {
    i < |ps| && ps[i].id == a && forall j :: 0 <= j <= i ==> ps[j].id != b
  }

  /** A point with id `a` comes before the first with id `b`. */
  ghost predicate SeenBefore(ps: seq<Point>, a: Id, b: Id) {
    exists i: nat :: SeenAt(ps, a, b, i)
  }

  predicate FirstBestAt(ps: seq<Point>, p: Point, i: nat) {
    && i < |ps| && ps[i] == p
    && (forall j :: 0 <= j < i && ps[j].id == p.id ==> ScoreOf(ps[j]) < ScoreOf(p))
    && (forall j :: i < j < |ps| && ps[j].id == p.id ==> ScoreOf(ps[j]) <= ScoreOf(p))
  }

  /** `p` is the first of the points with its id that have the highest score. */
  ghost predicate FirstBest(ps: seq<Point>, p: Point) {
    exists i: nat :: FirstBestAt(ps, p, i)
  }

  lemma {:induction false} SeenStays(ps: seq<Point>, p: Point, a: Id, b: Id)
    requires SeenBefore(ps, a, b)
    ensures SeenBefore(ps + [p], a, b)
  {
    var i: nat :| SeenAt(ps, a, b, i);
    assert SeenAt(ps + [p], a, b, i);
  }

  lemma {:induction false} FirstBestStays(ps: seq<Point>, p: Point, q: Point)
    requires FirstBest(ps, p) && (q.id == p.id ==> ScoreOf(q) <= ScoreOf(p))
    ensures FirstBest(ps + [q], p)
  {
    var i: nat :| FirstBestAt(ps, p, i);
    assert FirstBestAt(ps + [q], p, i);
  }

  ghost predicate OrderedAsSeen(ps: seq<Point>, order: seq<Id>) {
    forall i, j :: 0 <= i < j < |order| ==> SeenBefore(ps, order[i], order[j])
  }

  lemma {:induction false} NewIdIsLast(ps: seq<Point>, m: Merged, p: Point)
    requires HoldsBest(m, ps) && OrderedAsSeen(ps, m.order) && p.id !in m.best
    ensures OrderedAsSeen(ps + [p], m.order + [p.id])
  {
    var order := m.order + [p.id];
    forall i, j | 0 <= i < j < |order| ensures SeenBefore(ps + [p], order[i], order[j]) {
      if j == |m.order| {
        var k :| 0 <= k < |ps| && ps[k] == m.best[m.order[i]];
        assert forall l :: 0 <= l < |ps| ==> ps[l] in ps;
        assert SeenAt(ps, order[i], p.id, k);
      }
      SeenStays(ps, p, order[i], order[j]);
    }
  }

  /** The dictionary lists ids as they were first seen. */
  lemma {:induction false} OrderIsFirstSeen(ps: seq<Point>)
    ensures OrderedAsSeen(ps, PutAll(NOTHING, ps).order)
  {
    if ps != [] {
      var front, p := ps[..|ps| - 1], ps[|ps| - 1];
      var was := PutAll(NOTHING, front);
      OrderIsFirstSeen(front);
      PutAllHoldsBest(front);
      assert ps == front + [p];
      if p.id !in was.best {
        NewIdIsLast(front, was, p);
      } else {
        forall i, j | 0 <= i < j < |was.order| ensures SeenBefore(ps, was.order[i], was.order[j]) {
          SeenStays(front, p, was.order[i], was.order[j]);
        }
      }
    }
  }

  lemma {:induction false} LaterIsFirst(ps: seq<Point>, p: Point)
    requires forall q :: q in ps && q.id == p.id ==> ScoreOf(q) < ScoreOf(p)
    ensures FirstBest(ps + [p], p)
  {
    assert forall j :: 0 <= j < |ps| ==> (ps + [p])[j] in ps;
    assert FirstBestAt(ps + [p], p, |ps|);
  }

  ghost predicate AllFirstBest(ps: seq<Point>, m: Merged) {
    forall id :: id in m.best ==> FirstBest(ps, m.best[id])
  }

  /** It keeps the first of the best points of each id. */
  lemma {:induction false} KeepsFirstBest(ps: seq<Point>)
    ensures AllFirstBest(ps, PutAll(NOTHING, ps))
  {
    if ps != [] {
      var front, p := ps[..|ps| - 1], ps[|ps| - 1];
      var was := PutAll(NOTHING, front);
      KeepsFirstBest(front);
      PutAllHoldsBest(front);
      PutKeepsFirst(front, was, p);
      assert ps == front + [p];
    }
  }

  lemma {:induction false} PutKeepsFirst(ps: seq<Point>, m: Merged, p: Point)
    requires HoldsBest(m, ps) && AllFirstBest(ps, m)
    ensures AllFirstBest(ps + [p], Put(m, p))
  {
    forall id | id in Put(m, p).best ensures FirstBest(ps + [p], Put(m, p).best[id]) {
      if id in m.best && Put(m, p).best[id] == m.best[id] {
        FirstBestStays(ps, m.best[id], p);
      } else {
        LaterIsFirst(ps, p);
      }
    }
  }

  /** Points of equal score stay in their order. */
  ghost predicate Stable(ps: seq<Point>, sorted: seq<Point>) {
    forall i, j :: 0 <= i < j < |sorted| && ScoreOf(sorted[i]) == ScoreOf(sorted[j]) ==> SeenBefore(ps, sorted[i].id, sorted[j].id)
  }

  lemma {:induction false} InsertIsStable(ps: seq<Point>, sorted: seq<Point>, p: Point)
    requires Descending(sorted) && Stable(ps, sorted) && forall q :: q in sorted ==> SeenBefore(ps, q.id, p.id)
    ensures Stable(ps, InsertDescending(sorted, p))
    decreases |sorted|
  {
    if sorted != [] && ScoreOf(sorted[|sorted| - 1]) < ScoreOf(p) {
      var front, last := sorted[..|sorted| - 1], sorted[|sorted| - 1];
      InsertIsStable(ps, front, p);
      InsertMembers(front, p);
      var r := InsertDescending(front, p);
      forall i | 0 <= i < |r| && ScoreOf(r[i]) == ScoreOf(last) ensures SeenBefore(ps, r[i].id, last.id) {
        assert r[i] in front;
      }
    }
  }

  lemma {:induction false} SortIsStable(ps: seq<Point>)
    requires OnePerId(ps)
    ensures Stable(ps, SortDescending(ps))
  {
    if ps != [] {
      var front, p := ps[..|ps| - 1], ps[|ps| - 1];
      SortIsStable(front);
      SortSorts(front);
      var sorted := SortDescending(front);
      assert ps == front + [p];
      forall i, j | 0 <= i < j < |sorted| && ScoreOf(sorted[i]) == ScoreOf(sorted[j]) ensures SeenBefore(ps, sorted[i].id, sorted[j].id) {
        SeenStays(front, p, sorted[i].id, sorted[j].id);
      }
      forall q | q in sorted ensures SeenBefore(ps, q.id, p.id) {
        var k :| 0 <= k < |front| && front[k] == q;
        assert SeenAt(ps, q.id, p.id, k);
      }
      InsertIsStable(ps, sorted, p);
    }
  }

  /** The values of a dictionary, sorted: what it keeps of equals. */
  lemma {:induction false} SortedValuesKeepOrder(all: seq<Point>, m: Merged)
    requires m.Valid() && OrderedAsSeen(all, m.order)
    ensures Stable(all, SortDescending(m.Values()))
    ensures forall p :: p in SortDescending(m.Values()) ==> p.id in m.best && m.best[p.id] == p
  {
    var values := m.Values();
    var sorted := SortDescending(values);
    SortSorts(values);
    SortIsStable(values);
    forall i, j | 0 <= i < j < |sorted| && ScoreOf(sorted[i]) == ScoreOf(sorted[j])
      ensures SeenBefore(all, sorted[i].id, sorted[j].id)
    {
      assert sorted[i] in values && sorted[j] in values;
      SeenInOrder(all, m.order, values, sorted[i].id, sorted[j]);
    }
    forall p | p in sorted ensures p.id in m.best && m.best[p.id] == p {
      assert p in values;
    }
  }

  lemma {:induction false} SeenInOrder(all: seq<Point>, order: seq<Id>, values: seq<Point>, a: Id, b: Point)
    requires OrderedAsSeen(all, order) && Ids(values) == order && SeenBefore(values, a, b.id) && b in values
    ensures SeenBefore(all, a, b.id)
  {
    var i: nat :| SeenAt(values, a, b.id, i);
    var j :| 0 <= j < |values| && values[j] == b;
    assert order[i] == a && order[j] == b.id;
  }

  lemma {:induction false} SortedKeepsOrder(answers: seq<seq<Point>>) returns (sorted: seq<Point>)
    ensures forall limit: nat :: TopMerged(answers, limit) == FirstOf(sorted, limit)
    ensures Descending(sorted) && Stable(Flatten(answers), sorted)
    ensures forall p :: p in sorted ==> FirstBest(Flatten(answers), p)
  {
    var all := Flatten(answers);
    PutAllHoldsBest(all);
    KeepsFirstBest(all);
    OrderIsFirstSeen(all);
    var m := PutAll(NOTHING, all);
    SortedValuesKeepOrder(all, m);
    SortSorts(m.Values());
    sorted := SortDescending(m.Values());
  }

  /** A missing score is zero. */
  predicate NoLess(p: Score, q: Score) {
    (if p.Missing? then 0.0 else p.value) >= (if q.Missing? then 0.0 else q.value)
  }

  /** In the answer of a search each id has the first of its best points, scores fall, and points
      of equal score come in the order in which their ids were first answered. */
  lemma {:induction false} EqualsKeepOrder(answers: seq<seq<Point>>, limit: nat)
    ensures var all, top := Flatten(answers), TopMerged(answers, limit);
      && (forall p :: p in top ==> FirstBest(all, p))
      && (forall i, j :: 0 <= i < j < |top| ==> NoLess(top[i].score, top[j].score))
      && (forall i, j :: 0 <= i < j < |top| && NoLess(top[j].score, top[i].score) ==> SeenBefore(all, top[i].id, top[j].id))
  {
    var sorted := SortedKeepsOrder(answers);
    var top := TopMerged(answers, limit);
    assert top == FirstOf(sorted, limit);
    forall i, j | 0 <= i < j < |top|
      ensures NoLess(top[i].score, top[j].score)
      ensures NoLess(top[j].score, top[i].score) ==> SeenBefore(Flatten(answers), top[i].id, top[j].id)
    {
      assert sorted[i] == top[i] && sorted[j] == top[j];
    }
  }

  // ----- what a top-`limit` answer is -----

  /** One collection's own answer: `limit` of its points, none beaten by a point left out. */
  ghost predicate TopOfCollection(answer: seq<Point>, collection: seq<Point>, limit: nat) {
    && OnePerId(answer)
    && |answer| <= limit
    && (forall p :: p in answer ==> p in collection)
    && (|answer| < limit ==> forall p :: p in collection ==> p in answer)
    && (forall p, q :: p in collection && p !in answer && q in answer ==> ScoreOf(p) <= ScoreOf(q))
  }

  ghost predicate BestOf(all: seq<Point>, p: Point) {
    p in all && forall q :: q in all && q.id == p.id ==> ScoreOf(q) <= ScoreOf(p)
  }

  /** The top `limit` ids of `all` by their best score, in order. */
  ghost predicate TopOfUnion(top: seq<Point>, all: seq<Point>, limit: nat) {
    && OnePerId(top) && Descending(top)
    && |top| <= limit
    && (forall p :: p in top ==> BestOf(all, p))
    && (|top| < limit ==> forall q :: q in all ==> q.id in Ids(top))
    && (forall q, p :: q in all && q.id !in Ids(top) && p in top ==> ScoreOf(q) <= ScoreOf(p))
  }

  // ----- truncation loses nothing -----

  lemma {:induction false} FlattenContains(parts: seq<seq<Point>>)
    ensures forall i, p :: 0 <= i < |parts| && p in parts[i] ==> p in Flatten(parts)
    ensures forall p :: p in Flatten(parts) ==> exists i :: 0 <= i < |parts| && p in parts[i]
  {
    if parts != [] {
      var front := parts[..|parts| - 1];
      FlattenContains(front);
      forall p | p in Flatten(parts) ensures exists i :: 0 <= i < |parts| && p in parts[i] {
        if p in Flatten(front) {
          var i :| 0 <= i < |front| && p in front[i];
          assert p in parts[i];
        } else {
          assert p in parts[|parts| - 1];
        }
      }
      forall i, p | 0 <= i < |parts| && p in parts[i] ensures p in Flatten(parts) {
        if i < |front| { assert p in front[i]; }
      }
    }
  }

  ghost predicate TopsOfCollections(answers: seq<seq<Point>>, collections: seq<seq<Point>>, limit: nat) {
    && |answers| == |collections|
    && forall i :: 0 <= i < |answers| ==> TopOfCollection(answers[i], collections[i], limit)
  }

  /** The sorted, merged points before the cut. */
  lemma {:induction false} MergedIsSorted(answers: seq<seq<Point>>) returns (sorted: seq<Point>)
    ensures HoldsBest(PutAll(NOTHING, Flatten(answers)), Flatten(answers))
    ensures forall limit: nat :: TopMerged(answers, limit) == FirstOf(sorted, limit)
    ensures OnePerId(sorted) && Descending(sorted)
    ensures forall p :: p in sorted <==> p.id in PutAll(NOTHING, Flatten(answers)).best && PutAll(NOTHING, Flatten(answers)).best[p.id] == p
  {
    var ps := Flatten(answers);
    PutAllHoldsBest(ps);
    var m := PutAll(NOTHING, ps);
    sorted := SortDescending(m.Values());
    SortSorts(m.Values());
    forall p: Point | p.id in m.best && m.best[p.id] == p ensures p in sorted {
      var i :| 0 <= i < |m.order| && m.order[i] == p.id;
      assert m.Values()[i] == p;
    }
  }

  /** The first of the best points, sorted, are the top. */
  lemma {:induction false} CutIsTop(m: Merged, all: seq<Point>, sorted: seq<Point>, limit: nat)
    requires HoldsBest(m, all) && OnePerId(sorted) && Descending(sorted)
    requires forall p :: p in sorted <==> p.id in m.best && m.best[p.id] == p
    ensures TopOfUnion(FirstOf(sorted, limit), all, limit)
  {
    var top := FirstOf(sorted, limit);
    forall p | p in top ensures BestOf(all, p) {
      assert p in sorted;
    }
    forall q | q in all && q.id !in Ids(top) ensures |top| == limit && forall p :: p in top ==> ScoreOf(q) <= ScoreOf(p) {
      assert m.best[q.id] in sorted;
      var k :| 0 <= k < |sorted| && sorted[k] == m.best[q.id];
      forall j | 0 <= j < |top| ensures sorted[j].id != q.id {
        assert Ids(top)[j] == sorted[j].id;
      }
    }
  }

  /** The merged, sorted and cut answers are the top of all answered points. */
  lemma {:induction false} MergedIsTop(answers: seq<seq<Point>>, limit: nat)
    ensures TopOfUnion(TopMerged(answers, limit), Flatten(answers), limit)
  {
    var sorted := MergedIsSorted(answers);
    CutIsTop(PutAll(NOTHING, Flatten(answers)), Flatten(answers), sorted, limit);
  }

  /** Each of the points that keep `q` out of its collection's answer is merged with at
      least its own score. */
  lemma {:induction false} RivalsAreMerged(answers: seq<seq<Point>>, collection: seq<Point>, limit: nat, i: nat, q: Point, sorted: seq<Point>)
    requires i < |answers| && TopOfCollection(answers[i], collection, limit) && q in collection && q !in answers[i]
    requires HoldsBest(PutAll(NOTHING, Flatten(answers)), Flatten(answers))
    requires forall p :: p in sorted <==> p.id in PutAll(NOTHING, Flatten(answers)).best && PutAll(NOTHING, Flatten(answers)).best[p.id] == p
    ensures var best := PutAll(NOTHING, Flatten(answers)).best;
      forall r :: r in answers[i] ==>
        r.id in best && best[r.id].id == r.id && best[r.id] in sorted && ScoreOf(best[r.id]) >= ScoreOf(q)
  {
    var best := PutAll(NOTHING, Flatten(answers)).best;
    forall r | r in answers[i]
      ensures r.id in best && best[r.id].id == r.id && best[r.id] in sorted && ScoreOf(best[r.id]) >= ScoreOf(q)
    {
      FlattenContains(answers);
      assert r in Flatten(answers);
    }
  }

  /** A list that holds a point for each of some ids is at least as long. */
  lemma {:induction false} RivalsFit(rivals: seq<Point>, sorted: seq<Point>, best: map<Id, Point>)
    requires OnePerId(rivals)
    requires forall r :: r in rivals ==> r.id in best && best[r.id].id == r.id && best[r.id] in sorted
    ensures |rivals| <= |sorted|
  {
    forall id | id in Ids(rivals) ensures id in Ids(sorted) {
      var k :| 0 <= k < |rivals| && Ids(rivals)[k] == id;
      assert rivals[k] in rivals;
      var l :| 0 <= l < |sorted| && sorted[l] == best[rivals[k].id];
      assert Ids(sorted)[l] == id;
    }
    Pigeonhole(Ids(rivals), Ids(sorted));
  }

  /** A point its own collection left out is no better than any point of the merged top. */
  lemma {:induction false} LeftOutIsBeaten(answers: seq<seq<Point>>, collections: seq<seq<Point>>, limit: nat, i: nat, q: Point)
    requires TopsOfCollections(answers, collections, limit) && i < |collections|
    requires q in collections[i] && q !in answers[i]
    ensures |TopMerged(answers, limit)| == limit
    ensures forall p :: p in TopMerged(answers, limit) ==> ScoreOf(q) <= ScoreOf(p)
  {
    var sorted := MergedIsSorted(answers);
    var top, best, rivals := TopMerged(answers, limit), PutAll(NOTHING, Flatten(answers)).best, answers[i];
    assert TopOfCollection(rivals, collections[i], limit);
    assert |rivals| == limit;
    RivalsAreMerged(answers, collections[i], limit, i, q, sorted);
    RivalsFit(rivals, sorted, best);
    forall p | p in top ensures ScoreOf(q) <= ScoreOf(p) {
      RivalsFillTop(sorted, top, rivals, best, p);
    }
  }

  /** Not all of `limit` rivals can beat a point of the top: it would hold one id too many. */
  lemma {:induction false} RivalsFillTop(sorted: seq<Point>, top: seq<Point>, rivals: seq<Point>, best: map<Id, Point>, p: Point)
    requires Descending(sorted) && top <= sorted && p in top
    requires OnePerId(rivals) && |rivals| >= |top|
    requires forall r :: r in rivals ==> r.id in best && best[r.id].id == r.id && best[r.id] in sorted
    requires forall id :: id in best && id == p.id ==> best[id] == p
    ensures exists r :: r in rivals && ScoreOf(best[r.id]) <= ScoreOf(p)
  {
    if forall r :: r in rivals ==> ScoreOf(best[r.id]) > ScoreOf(p) {
      var j :| 0 <= j < |top| && top[j] == p;
      var ids := Ids(rivals) + [p.id];
      forall k | 0 <= k < |ids| ensures ids[k] in Ids(top) {
        if k == |rivals| {
          assert Ids(top)[j] == p.id;
        } else {
          assert rivals[k] in rivals;
          var l :| 0 <= l < |sorted| && sorted[l] == best[rivals[k].id];
          assert l < j;
          assert Ids(top)[l] == rivals[k].id;
        }
      }
      forall k | 0 <= k < |rivals| ensures ids[k] != p.id {
        assert rivals[k] in rivals;
      }
      Pigeonhole(ids, Ids(top));
    }
  }

  /** Asking each collection for only its own top `limit` loses nothing: the merged answer
      is the top `limit` of the whole union, each id with its best score over all collections,
      whatever ids the collections share and however ties fall. */
  lemma {:induction false} TruncationLosesNothing(answers: seq<seq<Point>>, collections: seq<seq<Point>>, limit: nat)
    requires TopsOfCollections(answers, collections, limit)
    ensures TopOfUnion(TopMerged(answers, limit), Flatten(collections), limit)
  {
    var top := TopMerged(answers, limit);
    MergedIsTop(answers, limit);
    FlattenContains(answers);
    FlattenContains(collections);
    forall p | p in Flatten(answers) ensures p in Flatten(collections) {
      var i :| 0 <= i < |answers| && p in answers[i];
      assert TopOfCollection(answers[i], collections[i], limit);
      assert p in collections[i];
    }
    forall q | q in Flatten(collections) && q !in Flatten(answers)
      ensures |top| == limit && forall p :: p in top ==> ScoreOf(q) <= ScoreOf(p)
    {
      var i :| 0 <= i < |collections| && q in collections[i];
      assert q !in answers[i];
      LeftOutIsBeaten(answers, collections, limit, i, q);
    }
    forall p | p in top ensures BestOf(Flatten(collections), p) {
      assert BestOf(Flatten(answers), p);
    }
  }

  /** The scores of a top are determined: every top of the same points has the same ones. */
  lemma {:induction false} TopScoresAreUnique(a: seq<Point>, b: seq<Point>, all: seq<Point>, limit: nat)
    requires TopOfUnion(a, all, limit) && TopOfUnion(b, all, limit)
    ensures |a| == |b| && forall i :: 0 <= i < |a| ==> ScoreOf(a[i]) == ScoreOf(b[i])
  {
    TopIsNoLonger(a, b, all, limit);
    TopIsNoLonger(b, a, all, limit);
    forall i | 0 <= i < |a| ensures ScoreOf(a[i]) == ScoreOf(b[i]) {
      TopIsNoBetter(a, b, all, limit, i);
      TopIsNoBetter(b, a, all, limit, i);
    }
  }

  lemma {:induction false} TopIsNoLonger(a: seq<Point>, b: seq<Point>, all: seq<Point>, limit: nat)
    requires TopOfUnion(a, all, limit) && TopOfUnion(b, all, limit)
    ensures |a| <= |b|
  {
    if |b| < limit {
      forall id | id in Ids(a) ensures id in Ids(b) {
        var k :| 0 <= k < |a| && Ids(a)[k] == id;
        assert BestOf(all, a[k]);
      }
      Pigeonhole(Ids(a), Ids(b));
    }
  }

  lemma {:induction false} TopIsNoBetter(a: seq<Point>, b: seq<Point>, all: seq<Point>, limit: nat, i: nat)
    requires TopOfUnion(a, all, limit) && TopOfUnion(b, all, limit) && i < |a| && i < |b|
    ensures ScoreOf(a[i]) <= ScoreOf(b[i])
  {
    if ScoreOf(a[i]) > ScoreOf(b[i]) {
      var better := Ids(a[..i + 1]);
      forall k | 0 <= k <= i ensures better[k] in Ids(b[..i]) {
        BetterComesEarlier(a[k], b, all, limit, i);
      }
      Pigeonhole(better, Ids(b[..i]));
    }
  }

  /** A best point that beats the `i`th of a top has its id among the first `i`. */
  lemma {:induction false} BetterComesEarlier(p: Point, b: seq<Point>, all: seq<Point>, limit: nat, i: nat)
    requires TopOfUnion(b, all, limit) && i < |b| && BestOf(all, p) && ScoreOf(p) > ScoreOf(b[i])
    ensures p.id in Ids(b[..i])
  {
    assert b[i] in b;
    var l :| 0 <= l < |b| && Ids(b)[l] == p.id;
    assert BestOf(all, b[l]);
    assert l < i;
    assert Ids(b[..i])[l] == p.id;
  }

  /** The same scores as merging everything the collections hold, untruncated. */
  lemma {:induction false} SameScoresAsFullMerge(answers: seq<seq<Point>>, collections: seq<seq<Point>>, limit: nat)
    requires TopsOfCollections(answers, collections, limit)
    ensures var top, full := TopMerged(answers, limit), TopMerged(collections, limit);
      |top| == |full| && forall i :: 0 <= i < |top| ==> ScoreOf(top[i]) == ScoreOf(full[i])
  {
    TruncationLosesNothing(answers, collections, limit);
    MergedIsTop(collections, limit);
    TopScoresAreUnique(TopMerged(answers, limit), TopMerged(collections, limit), Flatten(collections), limit);
  }
}
