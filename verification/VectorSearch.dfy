/** The vector search service: one retried query per collection, merged. */
module VectorSearch {
  import opened CircuitSpec
  import opened Breaker
  import opened RetryWrapper
  import opened SearchMerge
  import opened Sequences

  type QueryPlan = Plan<seq<Point>>

  const QUERY_OPTIONS := Options(true, true, 3, 0.5)

  datatype SearchResult = Found(points: seq<Point>) | Unavailable | Failed(failure: Failure)

  /** What one collection's reply means to the search: a list to merge, or the end of it. */
  datatype Reading = List(points: seq<Point>) | Stop(result: SearchResult)

  function Read(reply: Reply<seq<Point>>, requireAvailable: bool): Reading {
    match reply
    case Returned(points) => List(points)
    case FellBack => if requireAvailable then Stop(Unavailable) else List([])
    case Raised(f) =>
      if requireAvailable && (f.ConnectionFailure? || f.ResponseFailure? || f.CircuitOpen?)
      then Stop(Unavailable) else Stop(Failed(f))
  }

  predicate AllCover(plans: seq<QueryPlan>) {
    forall i :: 0 <= i < |plans| ==> Covers(plans[i], QUERY_OPTIONS)
  }

  datatype Gathered = Answers(lists: seq<seq<Point>>) | Stopped(result: SearchResult)

  /** The lists of all collections in order, or the first result that ended the search. */
  function Gather(c: Config, w: Wiring, v: View, plans: seq<QueryPlan>, requireAvailable: bool): (View, Gathered)
    requires AllCover(plans)
    decreases |plans|
  {
    if plans == [] then (v, Answers([]))
    else
      var front := plans[..|plans| - 1];
      var (v1, got) := Gather(c, w, v, front, requireAvailable);
      match got
      case Stopped(_) => (v1, got)
      case Answers(lists) =>
        var t := Attempts(c, w, v1, plans[|plans| - 1], 0, QUERY_OPTIONS);
        match Read(t.reply, requireAvailable)
        case List(points) => (t.view, Answers(lists + [points]))
        case Stop(result) => (t.view, Stopped(result))
  }

  ghost function Result(got: Gathered, limit: nat): SearchResult {
    match got
    case Answers(lists) => Found(TopMerged(lists, limit))
    case Stopped(result) => result
  }

  lemma {:induction false} PutAllSplits(m: Merged, ps: seq<Point>, k: nat)
    requires k < |ps|
    ensures PutAll(m, ps[..k + 1]) == Put(PutAll(m, ps[..k]), ps[k])
  {
    assert ps[..k + 1][..k] == ps[..k];
  }

  lemma {:induction false} PutAllJoins(m: Merged, a: seq<Point>, b: seq<Point>)
    ensures PutAll(m, a + b) == PutAll(PutAll(m, a), b)
    decreases |b|
  {
    if b == [] {
      assert a + b == a;
    } else {
      assert (a + b)[..|a + b| - 1] == a + b[..|b| - 1];
      PutAllJoins(m, a, b[..|b| - 1]);
    }
  }

  lemma {:induction false} PutKeepsValid(m: Merged, p: Point)
    requires m.Valid()
    ensures Put(m, p).Valid()
  {
  }

  /** The inner loop: keep the better of two points with one id. */
  method MergeList(m: Merged, points: seq<Point>) returns (merged: Merged)
    requires m.Valid()
    ensures merged.Valid() && merged == PutAll(m, points)
  {
    merged := m;
    for k := 0 to |points|
      invariant merged.Valid() && merged == PutAll(m, points[..k])
    {
      var point := points[k];
      PutAllSplits(m, points, k);
      PutKeepsValid(merged, point);
      if point.id !in merged.best {
        merged := Merged(merged.order + [point.id], merged.best[point.id := point]);
      } else if ScoreOf(point) > ScoreOf(merged.best[point.id]) {
        merged := merged.(best := merged.best[point.id := point]);
      }
    }
    assert points[..|points|] == points;
  }

  /** One collection more. */
  lemma {:induction false} GatherNext(c: Config, w: Wiring, v0: View, plans: seq<QueryPlan>, i: nat, requireAvailable: bool,
                                      view: View, lists: seq<seq<Point>>)
    requires AllCover(plans) && i < |plans|
    requires Gather(c, w, v0, plans[..i], requireAvailable) == (view, Answers(lists))
    ensures var t := Attempts(c, w, view, plans[i], 0, QUERY_OPTIONS);
      Gather(c, w, v0, plans[..i + 1], requireAvailable) ==
        match Read(t.reply, requireAvailable)
        case List(points) => (t.view, Answers(lists + [points]))
        case Stop(result) => (t.view, Stopped(result))
  {
    assert plans[..i + 1][..i] == plans[..i] && plans[..i + 1][i] == plans[i];
  }

  lemma {:induction false} MergeNext(lists: seq<seq<Point>>, points: seq<Point>)
    ensures PutAll(NOTHING, Flatten(lists + [points])) == PutAll(PutAll(NOTHING, Flatten(lists)), points)
  {
    assert (lists + [points])[..|lists|] == lists;
    PutAllJoins(NOTHING, Flatten(lists), points);
  }

  class QdrantService {
    const breaker: CircuitBreaker

    constructor (breaker: CircuitBreaker)
      ensures this.breaker == breaker
    {
      this.breaker := breaker;
    }

    method SearchMemories(plans: seq<QueryPlan>, limit: nat, requireAvailable: bool) returns (result: SearchResult)
      requires AllCover(plans)
      modifies breaker.Footprint()
      ensures breaker.localState == old(breaker.localState) || fresh(breaker.localState)
      ensures var (v, got) := Gather(breaker.config, breaker.Wired(), old(breaker.Look()), plans, requireAvailable);
        breaker.Look() == v && result == Result(got, limit)
    {
      ghost var c, w, v0 := breaker.config, breaker.Wired(), breaker.Look();
      var merged := NOTHING;
      ghost var lists: seq<seq<Point>> := [];
      for i := 0 to |plans|
        invariant breaker.localState == old(breaker.localState) || fresh(breaker.localState)
        invariant Gather(c, w, v0, plans[..i], requireAvailable) == (breaker.Look(), Answers(lists))
        invariant merged.Valid() && merged == PutAll(NOTHING, Flatten(lists))
      {
        GatherNext(c, w, v0, plans, i, requireAvailable, breaker.Look(), lists);
        var reply, slept;
        ghost var ran;
        reply, slept, ran := WithRetries(breaker, plans[i], QUERY_OPTIONS);
        match Read(reply, requireAvailable) {
          case Stop(stopped) =>
            StoppedStays(c, w, v0, plans, i + 1, requireAvailable);
            return stopped;
          case List(points) =>
            merged := MergeList(merged, points);
            MergeNext(lists, points);
            lists := lists + [points];
        }
      }
      assert plans[..|plans|] == plans;
      PutAllHoldsBest(Flatten(lists));
      result := Found(FirstOf(SortDescending(merged.Values()), limit));
    }
  }

  /** Once the search has stopped, later collections are not queried. */
  lemma {:induction false} StoppedStays(c: Config, w: Wiring, v: View, plans: seq<QueryPlan>, k: nat, requireAvailable: bool)
    requires AllCover(plans) && k <= |plans|
    requires Gather(c, w, v, plans[..k], requireAvailable).1.Stopped?
    ensures Gather(c, w, v, plans, requireAvailable) == Gather(c, w, v, plans[..k], requireAvailable)
    decreases |plans|
  {
    if k == |plans| {
      assert plans[..k] == plans;
    } else {
      var front := plans[..|plans| - 1];
      assert front[..k] == plans[..k];
      StoppedStays(c, w, v, front, k, requireAvailable);
    }
  }

  /** List `i` was answered by the operation itself, in its last run, for collection `i`. */
  ghost predicate ReallyAnswered(c: Config, w: Wiring, plan: QueryPlan, list: seq<Point>)
    requires Covers(plan, QUERY_OPTIONS)
  {
    exists v: View, k: nat ::
      var t := Attempts(c, w, v, plan, 0, QUERY_OPTIONS);
      t.reply == Returned(list) && AnsweredBy(plan, t, list, k)
  }

  lemma {:induction false} GovernanceListIsAnswer(c: Config, w: Wiring, v: View, plan: QueryPlan)
    requires Covers(plan, QUERY_OPTIONS)
    ensures var reading := Read(Attempts(c, w, v, plan, 0, QUERY_OPTIONS).reply, true);
      reading.List? ==> ReallyAnswered(c, w, plan, reading.points)
  {
    var t := Attempts(c, w, v, plan, 0, QUERY_OPTIONS);
    if t.reply.Returned? {
      ReturnsRealAnswers(c, w, v, plan, 0, QUERY_OPTIONS);
      assert t.reply == Returned(t.reply.value);
    }
  }

  lemma {:induction false} AllWithLast(c: Config, w: Wiring, plans: seq<QueryPlan>, lists: seq<seq<Point>>, all: seq<seq<Point>>)
    requires AllCover(plans) && |plans| == |all| == |lists| + 1 && all[..|lists|] == lists
    requires forall i :: 0 <= i < |lists| ==> ReallyAnswered(c, w, plans[..|lists|][i], lists[i])
    requires ReallyAnswered(c, w, plans[|lists|], all[|lists|])
    ensures forall i :: 0 <= i < |plans| ==> ReallyAnswered(c, w, plans[i], all[i])
  {
    forall i | 0 <= i < |lists| ensures ReallyAnswered(c, w, plans[i], all[i]) {
      assert plans[..|lists|][i] == plans[i] && all[..|lists|][i] == all[i];
    }
  }

  lemma {:induction false} GovernanceListsAreAnswers(c: Config, w: Wiring, v: View, plans: seq<QueryPlan>)
    requires AllCover(plans) && Gather(c, w, v, plans, true).1.Answers?
    ensures var lists := Gather(c, w, v, plans, true).1.lists;
      |lists| == |plans| && forall i :: 0 <= i < |plans| ==> ReallyAnswered(c, w, plans[i], lists[i])
    decreases |plans|
  {
    if plans != [] {
      var front := plans[..|plans| - 1];
      GovernanceListsAreAnswers(c, w, v, front);
      GovernanceListIsAnswer(c, w, Gather(c, w, v, front, true).0, plans[|plans| - 1]);
      AllWithLast(c, w, plans, Gather(c, w, v, front, true).1.lists, Gather(c, w, v, plans, true).1.lists);
    }
  }

  /** A governance search returns a list only if every collection's query ran and answered,
      and then the list is the top of the union of everything the collections hold. */
  lemma {:induction false} GovernanceSearchIsComplete(c: Config, w: Wiring, v: View, plans: seq<QueryPlan>, limit: nat,
                                   collections: seq<seq<Point>>)
    requires AllCover(plans) && |collections| == |plans|
    requires forall i, list ::
               0 <= i < |plans| && ReallyAnswered(c, w, plans[i], list) ==> TopOfCollection(list, collections[i], limit)
    requires Result(Gather(c, w, v, plans, true).1, limit).Found?
    ensures var got := Gather(c, w, v, plans, true).1;
      && got.Answers? && |got.lists| == |plans|
      && forall i :: 0 <= i < |plans| ==> ReallyAnswered(c, w, plans[i], got.lists[i])
    ensures TopOfUnion(Result(Gather(c, w, v, plans, true).1, limit).points, Flatten(collections), limit)
  {
    StoppedIsNotFound(c, w, v, plans, true);
    GovernanceListsAreAnswers(c, w, v, plans);
    TruncationLosesNothing(Gather(c, w, v, plans, true).1.lists, collections, limit);
  }

  lemma {:induction false} StoppedIsNotFound(c: Config, w: Wiring, v: View, plans: seq<QueryPlan>, requireAvailable: bool)
    requires AllCover(plans)
    ensures var got := Gather(c, w, v, plans, requireAvailable).1; got.Stopped? ==> !got.result.Found?
    decreases |plans|
  {
    if plans != [] {
      StoppedIsNotFound(c, w, v, plans[..|plans| - 1], requireAvailable);
    }
  }

  // ----- every search, by the replies of its collections -----

  /** The breaker's view when collection `i` is queried, if all before it were. */
  function ViewBefore(c: Config, w: Wiring, v: View, plans: seq<QueryPlan>, i: nat): View
    requires AllCover(plans) && i <= |plans|
  {
    if i == 0 then v else Attempts(c, w, ViewBefore(c, w, v, plans, i - 1), plans[i - 1], 0, Options(true, true, 3, 0.5)).view
  }

  /** What the retries of collection `i` come to: at most three attempts, half a second first,
      with a fallback that also serves response errors. */
  function Queried(c: Config, w: Wiring, v: View, plans: seq<QueryPlan>, i: nat): Trace<seq<Point>>
    requires AllCover(plans) && i < |plans|
  {
    Attempts(c, w, ViewBefore(c, w, v, plans, i), plans[i], 0, Options(true, true, 3, 0.5))
  }

  /** A reply that ends the search: an error, or the fallback where an answer is required. */
  predicate Ends(reply: Reply<seq<Point>>, requireAvailable: bool) {
    reply.Raised? || (reply.FellBack? && requireAvailable)
  }

  /** `list` is what the operation answered for collection `i`, in the last run of its retries. */
  ghost predicate AnswersAt(c: Config, w: Wiring, v: View, plans: seq<QueryPlan>, i: nat, list: seq<Point>)
    requires AllCover(plans) && i < |plans|
  {
    && Queried(c, w, v, plans, i).reply == Returned(list)
    && exists k: nat :: AnsweredBy(plans[i], Queried(c, w, v, plans, i), list, k)
  }

  /** `lists` are the answers of the first collections, empty where a query fell back. */
  ghost predicate Listed(c: Config, w: Wiring, v: View, plans: seq<QueryPlan>, requireAvailable: bool, lists: seq<seq<Point>>)
    requires AllCover(plans) && |lists| <= |plans|
  {
    forall i :: 0 <= i < |lists| ==>
      AnswersAt(c, w, v, plans, i, lists[i])
      || (Queried(c, w, v, plans, i).reply.FellBack? && !requireAvailable && lists[i] == [])
  }

  /** The error of a search that `reply` ended. */
  predicate EndsAs(reply: Reply<seq<Point>>, requireAvailable: bool, result: SearchResult) {
    match reply
    case Returned(_) => false
    case FellBack => requireAvailable && result == Unavailable
    case Raised(f) =>
      result == if requireAvailable && (f == ConnectionFailure || f == ResponseFailure || f == CircuitOpen)
                then Unavailable else Failed(f)
  }

  /** Collection `k` is the first whose reply ends the search, as `result`. */
  predicate EndedBy(c: Config, w: Wiring, v: View, plans: seq<QueryPlan>, requireAvailable: bool, k: nat, result: SearchResult)
    requires AllCover(plans)
  {
    && k < |plans| && EndsAs(Queried(c, w, v, plans, k).reply, requireAvailable, result)
    && forall i :: 0 <= i < k ==> !Ends(Queried(c, w, v, plans, i).reply, requireAvailable)
  }

  /** How far the first `n` collections took the search: all listed, or ended by one of them,
      after which no other is queried. */
  ghost predicate GotTo(c: Config, w: Wiring, v: View, plans: seq<QueryPlan>, n: nat, requireAvailable: bool, at: (View, Gathered))
    requires AllCover(plans) && n <= |plans|
  {
    match at.1
    case Answers(lists) => |lists| == n && at.0 == ViewBefore(c, w, v, plans, n) && Listed(c, w, v, plans, requireAvailable, lists)
    case Stopped(result) => exists k: nat :: k < n && at.0 == ViewBefore(c, w, v, plans, k + 1) && EndedBy(c, w, v, plans, requireAvailable, k, result)
  }

  lemma {:induction false} AnswersAreReal(c: Config, w: Wiring, v: View, plans: seq<QueryPlan>, i: nat)
    requires AllCover(plans) && i < |plans| && Queried(c, w, v, plans, i).reply.Returned?
    ensures AnswersAt(c, w, v, plans, i, Queried(c, w, v, plans, i).reply.value)
  {
    ReturnsRealAnswers(c, w, ViewBefore(c, w, v, plans, i), plans[i], 0, QUERY_OPTIONS);
  }

  /** One collection more. */
  lemma {:induction false} GetsFurther(c: Config, w: Wiring, v: View, plans: seq<QueryPlan>, n: nat, requireAvailable: bool,
                                       before: (View, Gathered), t: Trace<seq<Point>>, next: (View, Gathered))
    requires AllCover(plans) && n < |plans| && before.1.Answers? && GotTo(c, w, v, plans, n, requireAvailable, before)
    requires t == Attempts(c, w, before.0, plans[n], 0, QUERY_OPTIONS) && next.0 == t.view
    requires next.1 == match Read(t.reply, requireAvailable)
                       case List(points) => Answers(before.1.lists + [points])
                       case Stop(result) => Stopped(result)
    ensures GotTo(c, w, v, plans, n + 1, requireAvailable, next)
  {
    var lists := before.1.lists;
    assert next.0 == ViewBefore(c, w, v, plans, n + 1);
    if next.1.Stopped? {
      assert EndedBy(c, w, v, plans, requireAvailable, n, next.1.result);
    } else {
      if t.reply.Returned? {
        AnswersAreReal(c, w, v, plans, n);
      }
      forall i | 0 <= i < n
        ensures AnswersAt(c, w, v, plans, i, next.1.lists[i])
          || (Queried(c, w, v, plans, i).reply.FellBack? && !requireAvailable && next.1.lists[i] == [])
      {
        assert next.1.lists[i] == lists[i];
      }
    }
  }

  lemma {:induction false} StaysStopped(c: Config, w: Wiring, v: View, plans: seq<QueryPlan>, n: nat, requireAvailable: bool, at: (View, Gathered))
    requires AllCover(plans) && n < |plans| && at.1.Stopped? && GotTo(c, w, v, plans, n, requireAvailable, at)
    ensures GotTo(c, w, v, plans, n + 1, requireAvailable, at)
  {
  }

  lemma {:induction false} StartsOut(c: Config, w: Wiring, v: View, plans: seq<QueryPlan>, requireAvailable: bool)
    requires AllCover(plans)
    ensures GotTo(c, w, v, plans, 0, requireAvailable, Gather(c, w, v, plans[..0], requireAvailable))
  {
  }

  /** The next collection, from wherever the search has got to. */
  lemma {:induction false} GatherGoesOn(c: Config, w: Wiring, v: View, plans: seq<QueryPlan>, n: nat, requireAvailable: bool)
    requires AllCover(plans) && n < |plans|
    requires GotTo(c, w, v, plans, n, requireAvailable, Gather(c, w, v, plans[..n], requireAvailable))
    ensures GotTo(c, w, v, plans, n + 1, requireAvailable, Gather(c, w, v, plans[..n + 1], requireAvailable))
  {
    var before, next := Gather(c, w, v, plans[..n], requireAvailable), Gather(c, w, v, plans[..n + 1], requireAvailable);
    if before.1.Stopped? {
      assert plans[..n + 1][..n] == plans[..n];
      assert next == before;
      StaysStopped(c, w, v, plans, n, requireAvailable, before);
    } else {
      GatherNext(c, w, v, plans, n, requireAvailable, before.0, before.1.lists);
      GetsFurther(c, w, v, plans, n, requireAvailable, before, Attempts(c, w, before.0, plans[n], 0, QUERY_OPTIONS), next);
    }
  }

  lemma {:induction false} GathersByReplies(c: Config, w: Wiring, v: View, plans: seq<QueryPlan>, n: nat, requireAvailable: bool)
    requires AllCover(plans) && n <= |plans|
    ensures GotTo(c, w, v, plans, n, requireAvailable, Gather(c, w, v, plans[..n], requireAvailable))
  {
    StartsOut(c, w, v, plans, requireAvailable);
    for k := 0 to n
      invariant GotTo(c, w, v, plans, k, requireAvailable, Gather(c, w, v, plans[..k], requireAvailable))
    {
      GatherGoesOn(c, w, v, plans, k, requireAvailable);
    }
  }

  /** Every search, whether or not it requires the store to be available, by the replies of its
      collections' retries. It is found exactly if no collection raised or, where availability is
      required, fell back; then it is the top of the union of one list per collection, the
      operation's own answer or, after a fallback, the empty list. Otherwise the first
      collection that did ends it with its error. */
  lemma {:induction false} SearchByReplies(c: Config, w: Wiring, v: View, plans: seq<QueryPlan>, requireAvailable: bool, limit: nat,
                                           result: SearchResult)
    requires AllCover(plans) && result == Result(Gather(c, w, v, plans, requireAvailable).1, limit)
    ensures result.Found? <==> forall i :: 0 <= i < |plans| ==> !Ends(Queried(c, w, v, plans, i).reply, requireAvailable)
    ensures result.Found? ==> exists lists ::
      |lists| == |plans| && Listed(c, w, v, plans, requireAvailable, lists) && TopOfUnion(result.points, Flatten(lists), limit)
    ensures !result.Found? ==> exists k: nat :: EndedBy(c, w, v, plans, requireAvailable, k, result)
  {
    GathersByReplies(c, w, v, plans, |plans|, requireAvailable);
    assert plans[..|plans|] == plans;
    match Gather(c, w, v, plans, requireAvailable).1
    case Answers(lists) =>
      MergedIsTop(lists, limit);
      assert Listed(c, w, v, plans, requireAvailable, lists);
    case Stopped(stopped) =>
      var k: nat :| EndedBy(c, w, v, plans, requireAvailable, k, stopped);
      EndedByEnds(c, w, v, plans, requireAvailable, k, stopped);
  }

  lemma {:induction false} EndedByEnds(c: Config, w: Wiring, v: View, plans: seq<QueryPlan>, requireAvailable: bool, k: nat, result: SearchResult)
    requires AllCover(plans) && EndedBy(c, w, v, plans, requireAvailable, k, result)
    ensures k < |plans| && Ends(Queried(c, w, v, plans, k).reply, requireAvailable) && !result.Found?
  {
  }

  /** Each collection's query runs at most three times and sleeps at most a second and a half. */
  lemma {:induction false} QueriesAreBounded(c: Config, w: Wiring, v: View, plans: seq<QueryPlan>, i: nat)
    requires AllCover(plans) && i < |plans|
    ensures |Queried(c, w, v, plans, i).ran| <= 3 && 0.0 <= Queried(c, w, v, plans, i).slept <= 1.5
  {
    AttemptsBounds(c, w, ViewBefore(c, w, v, plans, i), plans[i], 0, Options(true, true, 3, 0.5));
    assert Pause(0.5, 2) == 2.0;
  }
}
