/** Greedy matching of expected to predicted memories, over an arbitrary similarity. */
module Matching {
  import opened Wrappers
  import opened Sequences

  datatype Memory = Memory(category: string, content: string)

  type Similarity = (string, string) -> real

  const ENOUGH: real := 0.55

  predicate Compatible(sim: Similarity, e: Memory, p: Memory) {
    p.category == e.category && sim(e.content, p.content) >= 0.55
  }

  /** The best candidate of a scan so far: its position, and its score or zero. */
  datatype Best = Best(index: Option<nat>, score: real)

  function Scan(sim: Similarity, e: Memory, pool: seq<Memory>): Best {
    if pool == [] then Best(None, 0.0)
    else
      var best, p := Scan(sim, e, pool[..|pool| - 1]), pool[|pool| - 1];
      if p.category == e.category && sim(e.content, p.content) > best.score
      then Best(Some(|pool| - 1), sim(e.content, p.content)) else best
  }

  predicate Accepts(best: Best) {
    best.index.Some? && best.score >= ENOUGH
  }

  /** The scan finds the first of the most similar candidates of the right category. */
  lemma {:induction false} ScanFindsBest(sim: Similarity, e: Memory, pool: seq<Memory>)
    ensures var b := Scan(sim, e, pool);
      && b.score >= 0.0
      && (forall j :: 0 <= j < |pool| && pool[j].category == e.category ==> sim(e.content, pool[j].content) <= b.score)
      && (b.index.Some? ==>
            var k := b.index.value;
            && k < |pool| && pool[k].category == e.category && sim(e.content, pool[k].content) == b.score
            && forall j :: 0 <= j < k && pool[j].category == e.category ==> sim(e.content, pool[j].content) < b.score)
      && (b.index.None? ==> b.score == 0.0)
  {
    if pool != [] {
      ScanFindsBest(sim, e, pool[..|pool| - 1]);
    }
  }

  // ----- the matching, in terms of positions in the two lists -----

  /** Pair `k` is expected position `firsts[k]` with predicted position `seconds[k]`. */
  datatype State = State(firsts: seq<nat>, seconds: seq<nat>, missing: seq<nat>, left: seq<nat>)

  predicate Below(at: seq<nat>, n: nat) {
    forall k :: 0 <= k < |at| ==> at[k] < n
  }

  predicate Sound(s: State, n: nat, m: nat) {
    |s.firsts| == |s.seconds| && Below(s.firsts, n) && Below(s.missing, n) && Below(s.seconds, m) && Below(s.left, m)
  }

  function Pick(all: seq<Memory>, at: seq<nat>): seq<Memory>
    requires Below(at, |all|)
  {
    seq(|at|, k requires 0 <= k < |at| => all[at[k]])
  }

  function RemoveAt<T>(s: seq<T>, k: nat): seq<T>
    requires k < |s|
  {
    s[..k] + s[k + 1..]
  }

  function BestFor(sim: Similarity, e: Memory, predicted: seq<Memory>, left: seq<nat>): (b: Best)
    requires Below(left, |predicted|)
    ensures b.index.Some? ==> b.index.value < |left|
  {
    ScanFindsBest(sim, e, Pick(predicted, left));
    Scan(sim, e, Pick(predicted, left))
  }

  function Advance(s: State, n: nat, best: Best): State
    requires best.index.Some? ==> best.index.value < |s.left|
  {
    if Accepts(best)
    then State(s.firsts + [n], s.seconds + [s.left[best.index.value]], s.missing, RemoveAt(s.left, best.index.value))
    else State(s.firsts, s.seconds, s.missing + [n], s.left)
  }

  function Start(m: nat): State {
    State([], [], [], seq(m, k => k))
  }

  function Greedy(sim: Similarity, expected: seq<Memory>, predicted: seq<Memory>, n: nat): (s: State)
    requires n <= |expected|
    ensures Sound(s, n, |predicted|)
  {
    if n == 0 then Start(|predicted|)
    else
      var s := Greedy(sim, expected, predicted, n - 1);
      Advance(s, n - 1, BestFor(sim, expected[n - 1], predicted, s.left))
  }

  lemma {:induction false} PickAppend(all: seq<Memory>, at: seq<nat>, x: nat)
    requires Below(at, |all|) && x < |all|
    ensures Below(at + [x], |all|) && Pick(all, at + [x]) == Pick(all, at) + [all[x]]
  {
  }

  lemma {:induction false} PickRemove(all: seq<Memory>, at: seq<nat>, k: nat)
    requires Below(at, |all|) && k < |at|
    ensures Below(RemoveAt(at, k), |all|) && Pick(all, RemoveAt(at, k)) == RemoveAt(Pick(all, at), k)
  {
  }

  /** What advancing does to the lists that the positions stand for. */
  lemma {:induction false} AdvancePicks(expected: seq<Memory>, predicted: seq<Memory>, s: State, n: nat, best: Best)
    requires Sound(s, n, |predicted|) && n < |expected| && (best.index.Some? ==> best.index.value < |s.left|)
    ensures var s' := Advance(s, n, best);
      && Sound(s', n + 1, |predicted|)
      && |s'.firsts| == |s.firsts| + (if Accepts(best) then 1 else 0)
      && Pick(expected, s'.firsts) == Pick(expected, s.firsts) + (if Accepts(best) then [expected[n]] else [])
      && Pick(expected, s'.missing) == Pick(expected, s.missing) + (if Accepts(best) then [] else [expected[n]])
      && Pick(predicted, s'.left) == if Accepts(best) then RemoveAt(Pick(predicted, s.left), best.index.value) else Pick(predicted, s.left)
  {
    if Accepts(best) {
      PickAppend(expected, s.firsts, n);
      PickRemove(predicted, s.left, best.index.value);
    } else {
      PickAppend(expected, s.missing, n);
    }
  }

  /** The inner loop: a scan of the predictions still unmatched. */
  method FindBest(sim: Similarity, e: Memory, pool: seq<Memory>) returns (best: Best)
    ensures best == Scan(sim, e, pool)
    ensures best.index.Some? ==> best.index.value < |pool|
  {
    var bestIndex: Option<nat> := None;
    var bestScore := 0.0;
    for index := 0 to |pool|
      invariant Best(bestIndex, bestScore) == Scan(sim, e, pool[..index])
      invariant bestIndex.Some? ==> bestIndex.value < index
    {
      var p := pool[index];
      assert pool[..index + 1][..index] == pool[..index];
      if p.category != e.category {
        continue;
      }
      var score := sim(e.content, p.content);
      if score > bestScore {
        bestScore := score;
        bestIndex := Some(index);
      }
    }
    assert pool[..|pool|] == pool;
    best := Best(bestIndex, bestScore);
  }

  /** The loop of the evaluation script. */
  method MatchExpectedToPredicted(sim: Similarity, expected: seq<Memory>, predicted: seq<Memory>)
      returns (matched: nat, matchedExpected: seq<Memory>, missingExpected: seq<Memory>, unmatchedPredicted: seq<Memory>)
    ensures var s := Greedy(sim, expected, predicted, |expected|);
      && matched == |s.firsts|
      && matchedExpected == Pick(expected, s.firsts)
      && missingExpected == Pick(expected, s.missing)
      && unmatchedPredicted == Pick(predicted, s.left)
  {
    matched, matchedExpected, missingExpected := 0, [], [];
    unmatchedPredicted := predicted;
    ghost var s := Greedy(sim, expected, predicted, 0);
    assert Pick(predicted, s.left) == predicted;
    for n := 0 to |expected|
      invariant s == Greedy(sim, expected, predicted, n)
      invariant Matched(expected, predicted, s, matched, matchedExpected, missingExpected, unmatchedPredicted)
    {
      var e := expected[n];
      var best := FindBest(sim, e, unmatchedPredicted);
      GreedyNext(sim, expected, predicted, s, n, best);
      AdvancePicks(expected, predicted, s, n, best);
      s := Advance(s, n, best);
      if best.index.Some? && best.score >= ENOUGH {
        matched := matched + 1;
        matchedExpected := matchedExpected + [e];
        unmatchedPredicted := RemoveAt(unmatchedPredicted, best.index.value);
      } else {
        missingExpected := missingExpected + [e];
      }
    }
  }

  lemma {:induction false} GreedyNext(sim: Similarity, expected: seq<Memory>, predicted: seq<Memory>, s: State, n: nat, best: Best)
    requires n < |expected| && s == Greedy(sim, expected, predicted, n)
    requires best == Scan(sim, expected[n], Pick(predicted, s.left))
    ensures best.index.Some? ==> best.index.value < |s.left|
    ensures Greedy(sim, expected, predicted, n + 1) == Advance(s, n, best)
  {
    assert best == BestFor(sim, expected[n], predicted, s.left);
  }

  /** The lists that a state stands for. */
  predicate Matched(expected: seq<Memory>, predicted: seq<Memory>, s: State, matched: nat, matchedExpected: seq<Memory>,
                    missingExpected: seq<Memory>, unmatchedPredicted: seq<Memory>)
    requires Sound(s, |expected|, |predicted|)
  {
    && matched == |s.firsts|
    && matchedExpected == Pick(expected, s.firsts)
    && missingExpected == Pick(expected, s.missing)
    && unmatchedPredicted == Pick(predicted, s.left)
  }

  // ----- what the matching is -----

  /** Every expected position below `n` is in exactly one of `firsts` and `missing`, every
      predicted position in exactly one of `seconds` and `left`, and none is used twice. */
  ghost predicate Partitions(s: State, n: nat, m: nat) {
    && Sound(s, n, m)
    && Distinct(s.firsts + s.missing) && Distinct(s.seconds + s.left)
    && (forall i: nat :: i < n ==> i in s.firsts || i in s.missing)
    && (forall j: nat :: j < m ==> j in s.seconds || j in s.left)
  }

  lemma {:induction false} SkipKeepsPartition(s: State, n: nat, m: nat)
    requires Partitions(s, n, m)
    ensures Partitions(State(s.firsts, s.seconds, s.missing + [n], s.left), n + 1, m)
  {
    assert s.firsts + (s.missing + [n]) == (s.firsts + s.missing) + [n];
    assert forall x :: x in s.missing + [n] <==> x in s.missing || x == n;
  }

  lemma {:induction false} TakeKeepsPartition(s: State, n: nat, m: nat, k: nat)
    requires Partitions(s, n, m) && k < |s.left|
    ensures Partitions(State(s.firsts + [n], s.seconds + [s.left[k]], s.missing, RemoveAt(s.left, k)), n + 1, m)
  {
    var all, x := s.seconds + s.left, |s.seconds| + k;
    var all' := (s.seconds + [s.left[k]]) + RemoveAt(s.left, k);
    forall i, j | 0 <= i < j < |all'| ensures all'[i] != all'[j] {
      var i' := if i < |s.seconds| then i else if i == |s.seconds| then x else if i <= x then i - 1 else i;
      var j' := if j < |s.seconds| then j else if j == |s.seconds| then x else if j <= x then j - 1 else j;
      assert all'[i] == all[i'] && all'[j] == all[j'] && i' != j';
    }
    forall j: nat | j in s.left && j != s.left[k] ensures j in RemoveAt(s.left, k) {
      var l :| 0 <= l < |s.left| && s.left[l] == j;
      assert RemoveAt(s.left, k)[if l < k then l else l - 1] == j;
    }
    assert forall j :: j in s.seconds + [s.left[k]] <==> j in s.seconds || j == s.left[k];
    FreshFirst(s.firsts, s.missing, n);
  }

  lemma {:induction false} FreshFirst(a: seq<nat>, b: seq<nat>, n: nat)
    requires Distinct(a + b) && Below(a, n) && Below(b, n)
    ensures Distinct((a + [n]) + b)
    ensures forall x :: x in a + [n] <==> x in a || x == n
  {
    forall i, j | 0 <= i < j < |a| + 1 + |b| ensures (a + [n] + b)[i] != (a + [n] + b)[j] {
      assert i < |a| ==> (a + b)[i] == a[i];
      assert j > |a| ==> (a + b)[j - 1] == b[j - |a| - 1];
      assert i > |a| ==> (a + b)[i - 1] == b[i - |a| - 1];
      assert j < |a| ==> (a + b)[j] == a[j];
    }
  }

  lemma {:induction false} StartPartitions(m: nat)
    ensures Partitions(Start(m), 0, m)
  {
    var left := Start(m).left;
    assert [] + left == left;
    assert Start(m).firsts + Start(m).missing == [];
    forall j: nat | j < m ensures j in left {
      assert left[j] == j;
    }
  }

  lemma {:induction false} AdvanceKeepsPartition(s: State, n: nat, m: nat, best: Best)
    requires Partitions(s, n, m) && (best.index.Some? ==> best.index.value < |s.left|)
    ensures Partitions(Advance(s, n, best), n + 1, m)
  {
    if Accepts(best) {
      TakeKeepsPartition(s, n, m, best.index.value);
    } else {
      SkipKeepsPartition(s, n, m);
    }
  }

  lemma {:induction false} GreedyPartitions(sim: Similarity, expected: seq<Memory>, predicted: seq<Memory>, n: nat)
    requires n <= |expected|
    ensures Partitions(Greedy(sim, expected, predicted, n), n, |predicted|)
  {
    var s := Start(|predicted|);
    StartPartitions(|predicted|);
    for k := 0 to n
      invariant s == Greedy(sim, expected, predicted, k) && Partitions(s, k, |predicted|)
    {
      var best := BestFor(sim, expected[k], predicted, s.left);
      AdvanceKeepsPartition(s, k, |predicted|, best);
      s := Advance(s, k, best);
    }
  }

  ghost predicate PairsCompatible(sim: Similarity, expected: seq<Memory>, predicted: seq<Memory>, s: State)
    requires Sound(s, |expected|, |predicted|)
  {
    forall k :: 0 <= k < |s.firsts| ==> Compatible(sim, expected[s.firsts[k]], predicted[s.seconds[k]])
  }

  ghost predicate NothingLeftToPair(sim: Similarity, expected: seq<Memory>, predicted: seq<Memory>, s: State)
    requires Sound(s, |expected|, |predicted|)
  {
    forall i, j :: 0 <= i < |s.missing| && 0 <= j < |s.left| ==>
      !Compatible(sim, expected[s.missing[i]], predicted[s.left[j]])
  }

  lemma {:induction false} PairingKeepsCompatible(sim: Similarity, expected: seq<Memory>, predicted: seq<Memory>, s: State, n: nat)
    requires Sound(s, n, |predicted|) && n < |expected| && PairsCompatible(sim, expected, predicted, s)
    ensures PairsCompatible(sim, expected, predicted, Advance(s, n, BestFor(sim, expected[n], predicted, s.left)))
  {
    ScanFindsBest(sim, expected[n], Pick(predicted, s.left));
  }

  lemma {:induction false} SkippingIsFine(sim: Similarity, expected: seq<Memory>, predicted: seq<Memory>, s: State, n: nat)
    requires Sound(s, n, |predicted|) && n < |expected| && NothingLeftToPair(sim, expected, predicted, s)
    requires !Accepts(BestFor(sim, expected[n], predicted, s.left))
    ensures NothingLeftToPair(sim, expected, predicted, Advance(s, n, BestFor(sim, expected[n], predicted, s.left)))
  {
    ScanFindsBest(sim, expected[n], Pick(predicted, s.left));
    forall j | 0 <= j < |s.left| ensures !Compatible(sim, expected[n], predicted[s.left[j]]) {
      assert Pick(predicted, s.left)[j] == predicted[s.left[j]];
    }
  }

  lemma {:induction false} LeavingFewerIsFine(sim: Similarity, expected: seq<Memory>, predicted: seq<Memory>, s: State, n: nat, best: Best)
    requires Sound(s, n, |predicted|) && n < |expected| && Accepts(best) && best.index.value < |s.left|
    requires NothingLeftToPair(sim, expected, predicted, s)
    ensures NothingLeftToPair(sim, expected, predicted, Advance(s, n, best))
  {
    var left := RemoveAt(s.left, best.index.value);
    forall i, j | 0 <= i < |s.missing| && 0 <= j < |left|
      ensures !Compatible(sim, expected[s.missing[i]], predicted[left[j]])
    {
      assert left[j] == s.left[if j < best.index.value then j else j + 1];
    }
  }

  lemma {:induction false} AdvanceLeavesNothing(sim: Similarity, expected: seq<Memory>, predicted: seq<Memory>, s: State, n: nat)
    requires Sound(s, n, |predicted|) && n < |expected| && NothingLeftToPair(sim, expected, predicted, s)
    ensures NothingLeftToPair(sim, expected, predicted, Advance(s, n, BestFor(sim, expected[n], predicted, s.left)))
  {
    var best := BestFor(sim, expected[n], predicted, s.left);
    if Accepts(best) {
      LeavingFewerIsFine(sim, expected, predicted, s, n, best);
    } else {
      SkippingIsFine(sim, expected, predicted, s, n);
    }
  }

  /** Every pair is of one category and similar enough, and no missing expected memory
      could have been paired with a leftover prediction. */
  lemma {:induction false} GreedyIsMaximal(sim: Similarity, expected: seq<Memory>, predicted: seq<Memory>, n: nat)
    requires n <= |expected|
    ensures PairsCompatible(sim, expected, predicted, Greedy(sim, expected, predicted, n))
    ensures NothingLeftToPair(sim, expected, predicted, Greedy(sim, expected, predicted, n))
  {
    var s := Start(|predicted|);
    for k := 0 to n
      invariant s == Greedy(sim, expected, predicted, k) && Sound(s, k, |predicted|)
      invariant PairsCompatible(sim, expected, predicted, s) && NothingLeftToPair(sim, expected, predicted, s)
    {
      PairingKeepsCompatible(sim, expected, predicted, s, k);
      AdvanceLeavesNothing(sim, expected, predicted, s, k);
      s := Advance(s, k, BestFor(sim, expected[k], predicted, s.left));
    }
  }

  predicate Rising(at: seq<nat>) {
    forall i, j :: 0 <= i < j < |at| ==> at[i] < at[j]
  }

  /** Pair `k` took, of all predictions of its category that the pairs before it had left, the
      most similar one, and of those the first. */
  predicate TookBest(sim: Similarity, expected: seq<Memory>, predicted: seq<Memory>, s: State, k: nat)
    requires Sound(s, |expected|, |predicted|) && k < |s.firsts|
  {
    var e, score := expected[s.firsts[k]], sim(expected[s.firsts[k]].content, predicted[s.seconds[k]].content);
    forall j: nat :: j < |predicted| && j !in s.seconds[..k] && predicted[j].category == e.category ==>
      sim(e.content, predicted[j].content) < score || (sim(e.content, predicted[j].content) == score && s.seconds[k] <= j)
  }

  /** The scan's choice among the predictions left, as a position among all. */
  lemma {:induction false} BestOfLeft(sim: Similarity, e: Memory, predicted: seq<Memory>, left: seq<nat>, j: nat)
    requires Below(left, |predicted|) && Rising(left) && j in left && predicted[j].category == e.category
    requires BestFor(sim, e, predicted, left).index.Some?
    ensures var chosen := left[BestFor(sim, e, predicted, left).index.value];
      sim(e.content, predicted[j].content) < sim(e.content, predicted[chosen].content)
      || (sim(e.content, predicted[j].content) == sim(e.content, predicted[chosen].content) && chosen <= j)
  {
    var pool := Pick(predicted, left);
    ScanFindsBest(sim, e, pool);
    var i :| 0 <= i < |left| && left[i] == j;
    assert pool[i] == predicted[j];
  }

  lemma {:induction false} RemovalKeepsRising(at: seq<nat>, k: nat)
    requires Rising(at) && k < |at|
    ensures Rising(RemoveAt(at, k))
  {
  }

  /** The first `n` expected memories are matched so, and everything is in its order. */
  ghost predicate BestSoFar(sim: Similarity, expected: seq<Memory>, predicted: seq<Memory>, s: State, n: nat) {
    && n <= |expected| && Partitions(s, n, |predicted|)
    && Rising(s.firsts) && Rising(s.missing) && Rising(s.left)
    && forall k :: 0 <= k < |s.firsts| ==> TookBest(sim, expected, predicted, s, k)
  }

  lemma {:induction false} SkippingKeepsBest(sim: Similarity, expected: seq<Memory>, predicted: seq<Memory>, s: State, n: nat)
    requires n < |expected| && BestSoFar(sim, expected, predicted, s, n)
    ensures BestSoFar(sim, expected, predicted, State(s.firsts, s.seconds, s.missing + [n], s.left), n + 1)
  {
    SkipKeepsPartition(s, n, |predicted|);
    var next := State(s.firsts, s.seconds, s.missing + [n], s.left);
    forall k | 0 <= k < |next.firsts| ensures TookBest(sim, expected, predicted, next, k) {
      assert TookBest(sim, expected, predicted, s, k);
    }
  }

  lemma {:induction false} TakingKeepsBest(sim: Similarity, expected: seq<Memory>, predicted: seq<Memory>, s: State, n: nat, best: Best)
    requires n < |expected| && BestSoFar(sim, expected, predicted, s, n)
    requires best == BestFor(sim, expected[n], predicted, s.left) && Accepts(best)
    ensures BestSoFar(sim, expected, predicted, Advance(s, n, best), n + 1)
  {
    var next := Advance(s, n, best);
    TakeKeepsPartition(s, n, |predicted|, best.index.value);
    RemovalKeepsRising(s.left, best.index.value);
    LastTakesBest(sim, expected, predicted, s, n);
    forall k | 0 <= k < |s.firsts| ensures TookBest(sim, expected, predicted, next, k) {
      assert next.seconds[..k] == s.seconds[..k];
      assert TookBest(sim, expected, predicted, s, k);
    }
  }

  lemma {:induction false} LastTakesBest(sim: Similarity, expected: seq<Memory>, predicted: seq<Memory>, s: State, n: nat)
    requires n < |expected| && Partitions(s, n, |predicted|) && Rising(s.left)
    requires Accepts(BestFor(sim, expected[n], predicted, s.left))
    ensures var next := Advance(s, n, BestFor(sim, expected[n], predicted, s.left));
      Sound(next, n + 1, |predicted|) && TookBest(sim, expected, predicted, next, |s.firsts|)
  {
    var best := BestFor(sim, expected[n], predicted, s.left);
    var next := Advance(s, n, best);
    AdvanceKeepsPartition(s, n, |predicted|, best);
    assert next.seconds[..|s.firsts|] == s.seconds;
    forall j: nat | j < |predicted| && j !in s.seconds && predicted[j].category == expected[n].category
      ensures sim(expected[n].content, predicted[j].content) < sim(expected[n].content, predicted[next.seconds[|s.firsts|]].content)
        || (sim(expected[n].content, predicted[j].content) == sim(expected[n].content, predicted[next.seconds[|s.firsts|]].content)
            && next.seconds[|s.firsts|] <= j)
    {
      BestOfLeft(sim, expected[n], predicted, s.left, j);
    }
  }

  lemma {:induction false} StartIsBest(sim: Similarity, expected: seq<Memory>, predicted: seq<Memory>)
    ensures BestSoFar(sim, expected, predicted, Start(|predicted|), 0)
  {
    StartPartitions(|predicted|);
  }

  lemma {:induction false} AdvanceKeepsBest(sim: Similarity, expected: seq<Memory>, predicted: seq<Memory>, s: State, n: nat)
    requires n < |expected| && BestSoFar(sim, expected, predicted, s, n)
    ensures BestSoFar(sim, expected, predicted, Advance(s, n, BestFor(sim, expected[n], predicted, s.left)), n + 1)
  {
    var best := BestFor(sim, expected[n], predicted, s.left);
    if Accepts(best) {
      TakingKeepsBest(sim, expected, predicted, s, n, best);
    } else {
      SkippingKeepsBest(sim, expected, predicted, s, n);
    }
  }

  /** Every pair takes the best prediction that the pairs before it have left, and pairs,
      missing memories and leftovers keep the order of the lists. */
  lemma {:induction false} GreedyTakesBest(sim: Similarity, expected: seq<Memory>, predicted: seq<Memory>, n: nat)
    requires n <= |expected|
    ensures BestSoFar(sim, expected, predicted, Greedy(sim, expected, predicted, n), n)
  {
    var s := Start(|predicted|);
    StartIsBest(sim, expected, predicted);
    for k := 0 to n
      invariant s == Greedy(sim, expected, predicted, k) && BestSoFar(sim, expected, predicted, s, k)
    {
      AdvanceKeepsBest(sim, expected, predicted, s, k);
      s := Advance(s, k, BestFor(sim, expected[k], predicted, s.left));
    }
  }

  /** Any set of compatible pairs of positions that uses no position twice. */
  ghost predicate ValidMatching(sim: Similarity, expected: seq<Memory>, predicted: seq<Memory>, m: set<(nat, nat)>) {
    && (forall p :: p in m ==> p.0 < |expected| && p.1 < |predicted| && Compatible(sim, expected[p.0], predicted[p.1]))
    && (forall p, q :: p in m && q in m && p != q ==> p.0 != q.0 && p.1 != q.1)
  }

  /** Pairs with different keys in a set are no more than the set has elements. */
  lemma {:induction false} KeyedSize(m: set<(nat, nat)>, keys: set<nat>, key: ((nat, nat)) -> nat)
    requires forall p :: p in m ==> key(p) in keys
    requires forall p, q :: p in m && q in m && p != q ==> key(p) != key(q)
    ensures |m| <= |keys|
  {
    if m != {} {
      var p :| p in m;
      KeyedSize(m - {p}, keys - {key(p)}, key);
    }
  }

  /** A compatible pair whose expected memory is missing has its prediction matched. */
  lemma {:induction false} OneEndIsMatched(sim: Similarity, expected: seq<Memory>, predicted: seq<Memory>, s: State, i: nat, j: nat)
    requires Partitions(s, |expected|, |predicted|) && NothingLeftToPair(sim, expected, predicted, s)
    requires i < |expected| && j < |predicted| && Compatible(sim, expected[i], predicted[j])
    ensures i in s.firsts || j in s.seconds
  {
    assert i in s.firsts || i in s.missing;
    assert j in s.seconds || j in s.left;
  }

  /** Pairs whose predictions are all among `seconds` are no more than those. */
  lemma {:induction false} SecondsBound(sim: Similarity, expected: seq<Memory>, predicted: seq<Memory>, m: set<(nat, nat)>, seconds: seq<nat>)
    requires ValidMatching(sim, expected, predicted, m) && forall p :: p in m ==> p.1 in seconds
    ensures |m| <= |seconds|
  {
    KeyedSize(m, Elements(seconds), (p: (nat, nat)) => p.1);
    ElementsSize(seconds);
  }

  lemma {:induction false} FirstsBound(sim: Similarity, expected: seq<Memory>, predicted: seq<Memory>, m: set<(nat, nat)>, firsts: seq<nat>)
    requires ValidMatching(sim, expected, predicted, m) && forall p :: p in m ==> p.0 in firsts
    ensures |m| <= |firsts|
  {
    KeyedSize(m, Elements(firsts), (p: (nat, nat)) => p.0);
    ElementsSize(firsts);
  }

  lemma {:induction false} ByFirst(m: set<(nat, nat)>, firsts: seq<nat>) returns (paired: set<(nat, nat)>, rest: set<(nat, nat)>)
    ensures paired <= m && rest <= m && |m| == |paired| + |rest|
    ensures forall p :: p in paired ==> p.0 in firsts
    ensures forall p :: p in rest ==> p.0 !in firsts
  {
    paired := set p | p in m && p.0 in firsts;
    rest := m - paired;
    assert m == paired + rest;
  }

  /** Any maximal matching has at least half as many pairs as any valid one. */
  lemma {:induction false} MaximalIsHalfOptimal(sim: Similarity, expected: seq<Memory>, predicted: seq<Memory>, s: State, m: set<(nat, nat)>)
    requires Partitions(s, |expected|, |predicted|) && NothingLeftToPair(sim, expected, predicted, s)
    requires ValidMatching(sim, expected, predicted, m)
    ensures |m| <= 2 * |s.firsts|
  {
    var paired, rest := ByFirst(m, s.firsts);
    forall p | p in rest ensures p.1 in s.seconds {
      OneEndIsMatched(sim, expected, predicted, s, p.0, p.1);
    }
    FirstsBound(sim, expected, predicted, paired, s.firsts);
    SecondsBound(sim, expected, predicted, rest, s.seconds);
  }

  /** The greedy matching has at least half as many pairs as any valid matching. */
  lemma {:induction false} GreedyIsHalfOptimal(sim: Similarity, expected: seq<Memory>, predicted: seq<Memory>, m: set<(nat, nat)>)
    requires ValidMatching(sim, expected, predicted, m)
    ensures |m| <= 2 * |Greedy(sim, expected, predicted, |expected|).firsts|
  {
    GreedyPartitions(sim, expected, predicted, |expected|);
    GreedyIsMaximal(sim, expected, predicted, |expected|);
    MaximalIsHalfOptimal(sim, expected, predicted, Greedy(sim, expected, predicted, |expected|), m);
  }

  lemma {:induction false} GreedyStarts(sim: Similarity, a: Memory, b: Memory, x: Memory, y: Memory)
    requires a.category == x.category == y.category && sim(a.content, x.content) > sim(a.content, y.content) >= 0.55
    ensures Greedy(sim, [a, b], [x, y], 1) == State([0], [0], [], [1])
  {
    var s0 := Start(2);
    assert Greedy(sim, [a, b], [x, y], 0) == s0;
    assert Pick([x, y], s0.left) == [x, y];
    ScanFindsBest(sim, a, [x, y]);
    var best := BestFor(sim, a, [x, y], s0.left);
    assert [x, y][0] == x && [x, y][1] == y;
    assert best.index == Some(0) && Accepts(best);
    assert RemoveAt(s0.left, 0) == [1];
    assert [a, b][0] == a;
    assert Greedy(sim, [a, b], [x, y], 1) == Advance(s0, 0, best);
  }

  /** The bound is reached: one greedy pair where two are possible. */
  lemma {:induction false} HalfIsTight(sim: Similarity, a: Memory, b: Memory, x: Memory, y: Memory)
    requires a.category == b.category == x.category == y.category
    requires sim(a.content, x.content) > sim(a.content, y.content) >= 0.55
    requires sim(b.content, x.content) >= 0.55 > sim(b.content, y.content)
    ensures ValidMatching(sim, [a, b], [x, y], {(0, 1), (1, 0)}) && |{(0, 1), (1, 0)}| == 2
    ensures |Greedy(sim, [a, b], [x, y], 2).firsts| == 1
  {
    GreedyStarts(sim, a, b, x, y);
    var s1 := Greedy(sim, [a, b], [x, y], 1);
    assert Pick([x, y], s1.left) == [y];
    ScanFindsBest(sim, b, [y]);
    assert [y][0] == y && [a, b][1] == b;
    var best := BestFor(sim, b, [x, y], s1.left);
    assert !Accepts(best);
    assert Greedy(sim, [a, b], [x, y], 2) == Advance(s1, 1, best);
  }

  // ----- nothing is lost or invented -----

  ghost predicate Conserves(expected: seq<Memory>, predicted: seq<Memory>, s: State, n: nat)
    requires n <= |expected| && Sound(s, n, |predicted|)
  {
    && multiset(Pick(expected, s.firsts)) + multiset(Pick(expected, s.missing)) == multiset(expected[..n])
    && multiset(Pick(predicted, s.seconds)) + multiset(Pick(predicted, s.left)) == multiset(predicted)
  }

  lemma {:induction false} MovingConserves(all: seq<Memory>, taken: seq<nat>, left: seq<nat>, k: nat)
    requires Below(taken, |all|) && Below(left, |all|) && k < |left|
    ensures Below(taken + [left[k]], |all|) && Below(RemoveAt(left, k), |all|)
    ensures multiset(Pick(all, taken + [left[k]])) + multiset(Pick(all, RemoveAt(left, k)))
         == multiset(Pick(all, taken)) + multiset(Pick(all, left))
  {
    var pool := Pick(all, left);
    PickAppend(all, taken, left[k]);
    PickRemove(all, left, k);
    assert pool == pool[..k] + [pool[k]] + pool[k + 1..];
    assert multiset(pool) == multiset(pool[..k]) + multiset{pool[k]} + multiset(pool[k + 1..]);
  }

  lemma {:induction false} AdvanceConserves(expected: seq<Memory>, predicted: seq<Memory>, s: State, n: nat, best: Best)
    requires n < |expected| && Sound(s, n, |predicted|) && Conserves(expected, predicted, s, n)
    requires best.index.Some? ==> best.index.value < |s.left|
    ensures Sound(Advance(s, n, best), n + 1, |predicted|)
    ensures Conserves(expected, predicted, Advance(s, n, best), n + 1)
  {
    assert expected[..n + 1] == expected[..n] + [expected[n]];
    if Accepts(best) {
      PickAppend(expected, s.firsts, n);
      MovingConserves(predicted, s.seconds, s.left, best.index.value);
    } else {
      PickAppend(expected, s.missing, n);
    }
  }

  /** Matched and missing make up the expected memories, matched predictions and leftovers
      the predicted ones, with multiplicities. */
  lemma {:induction false} GreedyConserves(sim: Similarity, expected: seq<Memory>, predicted: seq<Memory>, n: nat)
    requires n <= |expected|
    ensures Conserves(expected, predicted, Greedy(sim, expected, predicted, n), n)
  {
    var s := Start(|predicted|);
    assert Pick(predicted, s.left) == predicted;
    for k := 0 to n
      invariant s == Greedy(sim, expected, predicted, k) && Sound(s, k, |predicted|)
      invariant Conserves(expected, predicted, s, k)
    {
      var best := BestFor(sim, expected[k], predicted, s.left);
      AdvanceConserves(expected, predicted, s, k, best);
      s := Advance(s, k, best);
    }
  }
}
