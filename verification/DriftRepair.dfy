/** The repair of drift between the memory table and the vector index. */
module DriftRepair {
  import opened Wrappers
  import opened Sequences

  /** Ids in their database order. */
  type Id = int

  /** `scanned`: the memory's vectors belong to the collection the tool scans. */
  datatype Memory = Memory(id: Id, archived: bool, scanned: bool)

  datatype Operation = Upsert | Archive | Delete
  datatype Status = Pending | Processing | Done | Failed
  /** `privacy`: a privacy deletion, which is retried without limit. */
  datatype Row = Row(memory: Id, operation: Operation, status: Status, attempts: nat, scanned: bool, privacy: bool)

  /** The memory table in primary-key order. */
  predicate Ascending(s: seq<Memory>) {
    forall i, j :: 0 <= i < j < |s| ==> s[i].id < s[j].id
  }

  // ----- the queries -----

  function Active(table: seq<Memory>): seq<Memory> {
    if table == [] then []
    else (if table[0].archived then [] else [table[0]]) + Active(table[1..])
  }

  function After(s: seq<Memory>, last: Option<Id>): seq<Memory> {
    if s == [] then []
    else (if last.Some? && s[0].id <= last.value then [] else [s[0]]) + After(s[1..], last)
  }

  function Page(table: seq<Memory>, last: Option<Id>, size: nat): seq<Memory> {
    FirstOf(After(Active(table), last), size)
  }

  function ActiveIds(table: seq<Memory>): set<Id> {
    set m | m in Active(table) :: m.id
  }

  function Missing(s: seq<Memory>, vectors: set<Id>): seq<Memory> {
    if s == [] then []
    else Missing(s[..|s| - 1], vectors) + if s[|s| - 1].id in vectors then [] else [s[|s| - 1]]
  }

  lemma {:induction false} ActiveMembers(table: seq<Memory>)
    ensures forall m :: m in Active(table) <==> m in table && !m.archived
  {
    if table != [] {
      ActiveMembers(table[1..]);
      assert forall m :: m in table <==> m == table[0] || m in table[1..];
    }
  }

  lemma {:induction false} ActiveIsAscending(table: seq<Memory>)
    requires Ascending(table)
    ensures Ascending(Active(table))
  {
    if table != [] {
      var rest := Active(table[1..]);
      ActiveIsAscending(table[1..]);
      ActiveMembers(table[1..]);
      forall i | 0 <= i < |rest| ensures table[0].id < rest[i].id {
        assert rest[i] in table[1..];
      }
    }
  }

  lemma {:induction false} AfterIsSuffix(s: seq<Memory>, last: Option<Id>, k: nat)
    requires Ascending(s) && k <= |s|
    requires forall i :: 0 <= i < k ==> last.Some? && s[i].id <= last.value
    requires forall i :: k <= i < |s| ==> last.Some? ==> s[i].id > last.value
    ensures After(s, last) == s[k..]
    decreases |s|
  {
    if s != [] {
      if k == 0 {
        AfterIsSuffix(s[1..], last, 0);
        assert [s[0]] + s[1..] == s;
      } else {
        AfterIsSuffix(s[1..], last, k - 1);
        assert s[1..][k - 1..] == s[k..];
      }
    }
  }

  lemma {:induction false} MissingMembers(s: seq<Memory>, vectors: set<Id>)
    requires Ascending(s)
    ensures Ascending(Missing(s, vectors))
    ensures forall m :: m in Missing(s, vectors) <==> m in s && m.id !in vectors
  {
    if s != [] {
      var front, last := s[..|s| - 1], s[|s| - 1];
      MissingMembers(front, vectors);
      assert forall m :: m in s <==> m in front || m == last;
    }
  }

  lemma {:induction false} MissingJoins(a: seq<Memory>, b: seq<Memory>, vectors: set<Id>)
    ensures Missing(a + b, vectors) == Missing(a, vectors) + Missing(b, vectors)
    decreases |b|
  {
    if b == [] {
      assert a + b == a;
    } else {
      assert (a + b)[..|a + b| - 1] == a + b[..|b| - 1];
      MissingJoins(a, b[..|b| - 1], vectors);
    }
  }

  // ----- the outbox -----

  predicate Open(r: Row) {
    r.operation.Upsert? && (r.status.Pending? || r.status.Processing?)
  }

  predicate HasOpenUpsert(outbox: seq<Row>, id: Id) {
    exists i :: 0 <= i < |outbox| && outbox[i].memory == id && Open(outbox[i])
  }

  function NewRow(m: Memory): Row {
    Row(m.id, Upsert, Pending, 0, m.scanned, false)
  }

  /** What enqueueing appends: one row per memory without an open upsert, up to the cap. */
  function Enqueued(outbox: seq<Row>, memories: seq<Memory>, cap: Option<int>, n: nat): seq<Row>
    requires n <= |memories|
  {
    if n == 0 then []
    else
      var rows := Enqueued(outbox, memories, cap, n - 1);
      if cap.Some? && |rows| >= cap.value then rows
      else if HasOpenUpsert(outbox + rows, memories[n - 1].id) then rows
      else rows + [NewRow(memories[n - 1])]
  }

  lemma {:induction false} CapReached(outbox: seq<Row>, memories: seq<Memory>, cap: Option<int>, k: nat, n: nat)
    requires k <= n <= |memories| && cap.Some? && |Enqueued(outbox, memories, cap, k)| >= cap.value
    ensures Enqueued(outbox, memories, cap, n) == Enqueued(outbox, memories, cap, k)
    decreases n
  {
    if k < n {
      CapReached(outbox, memories, cap, k, n - 1);
    }
  }

  /** A cap enqueues the first rows that would be enqueued without it. */
  lemma {:induction false} CappedIsPrefix(outbox: seq<Row>, memories: seq<Memory>, cap: int, n: nat)
    requires n <= |memories|
    ensures var all := Enqueued(outbox, memories, None, n);
      Enqueued(outbox, memories, Some(cap), n) == FirstOf(all, if cap < 0 then 0 else cap)
  {
    if n > 0 {
      CappedIsPrefix(outbox, memories, cap, n - 1);
    }
  }

  /** Without a cap every listed memory ends with an open upsert, and the rows added are
      exactly one for each listed memory that had none. */
  lemma {:induction false} EnqueuedCovers(outbox: seq<Row>, memories: seq<Memory>, n: nat)
    requires n <= |memories| && Ascending(memories)
    ensures forall r :: r in Enqueued(outbox, memories, None, n) <==>
      exists i :: 0 <= i < n && r == NewRow(memories[i]) && !HasOpenUpsert(outbox, memories[i].id)
  {
    if n > 0 {
      EnqueuedCovers(outbox, memories, n - 1);
      var rows, m := Enqueued(outbox, memories, None, n - 1), memories[n - 1];
      forall k | 0 <= k < |rows| ensures rows[k].memory != m.id {
        assert rows[k] in rows;
      }
      OpenInJoin(outbox, rows, m.id);
    }
  }

  predicate InIdOrder(rows: seq<Row>) {
    forall i, j :: 0 <= i < j < |rows| ==> rows[i].memory < rows[j].memory
  }

  /** They come in the order of the memories, so none has two. */
  lemma {:induction false} EnqueuedInOrder(outbox: seq<Row>, memories: seq<Memory>, n: nat)
    requires n <= |memories| && Ascending(memories)
    ensures InIdOrder(Enqueued(outbox, memories, None, n))
  {
    if n > 0 {
      EnqueuedInOrder(outbox, memories, n - 1);
      EnqueuedCovers(outbox, memories, n - 1);
      var rows := Enqueued(outbox, memories, None, n - 1);
      forall k | 0 <= k < |rows| ensures rows[k].memory < memories[n - 1].id {
        assert rows[k] in rows;
      }
    }
  }

  /** A memory gets a row exactly if every upsert of it in the outbox is done or failed. */
  lemma {:induction false} EnqueuedUnlessOpen(outbox: seq<Row>, memories: seq<Memory>, i: nat)
    requires i < |memories| && Ascending(memories)
    ensures NewRow(memories[i]) in Enqueued(outbox, memories, None, |memories|) <==>
      forall r :: r in outbox && r.memory == memories[i].id && r.operation == Upsert ==> r.status == Done || r.status == Failed
  {
    EnqueuedCovers(outbox, memories, |memories|);
    if HasOpenUpsert(outbox, memories[i].id) {
      var k :| 0 <= k < |outbox| && outbox[k].memory == memories[i].id && Open(outbox[k]);
      assert outbox[k] in outbox;
    }
  }

  lemma {:induction false} OpenInJoin(a: seq<Row>, b: seq<Row>, id: Id)
    ensures HasOpenUpsert(a + b, id) <==> HasOpenUpsert(a, id) || HasOpenUpsert(b, id)
  {
    if HasOpenUpsert(a, id) {
      var i :| 0 <= i < |a| && a[i].memory == id && Open(a[i]);
      assert (a + b)[i] == a[i];
    }
    if HasOpenUpsert(b, id) {
      var i :| 0 <= i < |b| && b[i].memory == id && Open(b[i]);
      assert (a + b)[|a| + i] == b[i];
    }
  }

  // ----- one outbox cycle, as the vector sync worker runs it -----

  /** How a chunk of ten claimed rows of one operation fares: applied and marked done, or
      failed with the scanned collection's group already applied or not. */
  datatype Verdict = Delivered | FailedAfter | FailedBefore

  const BATCH: nat := 100
  const CHUNK: nat := 10
  const MAX_ATTEMPTS: nat := 3

  function PendingBefore(outbox: seq<Row>, i: nat): nat
    requires i <= |outbox|
  {
    if i == 0 then 0 else PendingBefore(outbox, i - 1) + if outbox[i - 1].status.Pending? then 1 else 0
  }

  predicate Claimed(outbox: seq<Row>, i: nat)
    requires i < |outbox|
  {
    outbox[i].status.Pending? && PendingBefore(outbox, i) < BATCH
  }

  /** Rows are processed by operation, in chunks. */
  function ClaimedBefore(outbox: seq<Row>, i: nat, operation: Operation): nat
    requires i <= |outbox|
  {
    if i == 0 then 0
    else ClaimedBefore(outbox, i - 1, operation)
         + if Claimed(outbox, i - 1) && outbox[i - 1].operation == operation then 1 else 0
  }

  type Verdicts = (Operation, nat) -> Verdict

  function VerdictOf(outbox: seq<Row>, i: nat, verdict: Verdicts): Verdict
    requires i < |outbox|
  {
    verdict(outbox[i].operation, ClaimedBefore(outbox, i, outbox[i].operation) / CHUNK)
  }

  function Settled(r: Row, v: Verdict): Row {
    var tried := r.(attempts := r.attempts + 1);
    if v.Delivered? then tried.(status := Done)
    else if tried.attempts >= MAX_ATTEMPTS && !r.privacy then tried.(status := Failed)
    else tried.(status := Pending)
  }

  function CycleRows(outbox: seq<Row>, verdict: Verdicts): (r: seq<Row>)
    ensures |r| == |outbox|
  {
    seq(|outbox|, i requires 0 <= i < |outbox| =>
      if Claimed(outbox, i) then Settled(outbox[i], VerdictOf(outbox, i, verdict)) else outbox[i])
  }

  /** The memories whose `operation` the cycle applied to the scanned collection. */
  function Applied(outbox: seq<Row>, operation: Operation, verdict: Verdicts): set<Id> {
    set i: nat | i < |outbox| && Claimed(outbox, i) && outbox[i].operation == operation && outbox[i].scanned
      && !VerdictOf(outbox, i, verdict).FailedBefore? :: outbox[i].memory
  }

  /** Upserts first, deletions last; an archive changes the payload of a point it leaves there. */
  function CycleVectors(outbox: seq<Row>, vectors: set<Id>, verdict: Verdicts): set<Id> {
    vectors + Applied(outbox, Upsert, verdict) - Applied(outbox, Delete, verdict)
  }

  function TriesLeft(r: Row): nat {
    if !r.status.Pending? then 0 else if r.attempts < MAX_ATTEMPTS - 1 then MAX_ATTEMPTS - r.attempts else 1
  }

  function Work(outbox: seq<Row>, n: nat): nat
    requires n <= |outbox|
  {
    if n == 0 then 0 else Work(outbox, n - 1) + TriesLeft(outbox[n - 1])
  }

  /** No privacy deletion is pending. */
  predicate NoPrivacyPending(outbox: seq<Row>) {
    forall i :: 0 <= i < |outbox| && outbox[i].status.Pending? ==> !outbox[i].privacy
  }

  /** However its chunks fare, a cycle that claims anything leaves less work. */
  lemma {:induction false} CycleProgresses(outbox: seq<Row>, verdict: Verdicts, n: nat)
    requires n <= |outbox| && NoPrivacyPending(outbox)
    ensures Work(CycleRows(outbox, verdict), n) <= Work(outbox, n)
    ensures PendingBefore(outbox, n) > 0 ==> Work(CycleRows(outbox, verdict), n) < Work(outbox, n)
  {
    if n > 0 {
      CycleProgresses(outbox, verdict, n - 1);
    }
  }

  /** So does one whose chunks are all delivered, whatever is pending. */
  lemma {:induction false} DeliveredCycleProgresses(outbox: seq<Row>, verdict: Verdicts, n: nat)
    requires n <= |outbox| && AlwaysDelivers(verdict, outbox)
    ensures PendingBefore(CycleRows(outbox, verdict), n) <= PendingBefore(outbox, n)
    ensures PendingBefore(outbox, n) > 0 ==> PendingBefore(CycleRows(outbox, verdict), n) < PendingBefore(outbox, n)
  {
    if n > 0 {
      DeliveredCycleProgresses(outbox, verdict, n - 1);
    }
  }

  predicate AlwaysDelivers(verdict: Verdicts, outbox: seq<Row>) {
    forall i :: 0 <= i < |outbox| ==> VerdictOf(outbox, i, verdict).Delivered?
  }

  /** The claimed rows that a cycle leaves undone. */
  function Undone(outbox: seq<Row>, verdict: Verdicts, n: nat): nat
    requires n <= |outbox|
  {
    if n == 0 then 0
    else Undone(outbox, verdict, n - 1)
         + if Claimed(outbox, n - 1) && !CycleRows(outbox, verdict)[n - 1].status.Done? then 1 else 0
  }

  /** A cycle whose chunks are all delivered but one of `operation` leaves undone exactly the
      rows of that chunk, which are ten at most. */
  lemma {:induction false} FailureIsContained(outbox: seq<Row>, verdict: Verdicts, operation: Operation, chunk: nat, n: nat)
    requires n <= |outbox|
    requires forall o, j :: verdict(o, j).Delivered? <==> !(o == operation && j == chunk)
    ensures var before := ClaimedBefore(outbox, n, operation) - 10 * chunk;
      Undone(outbox, verdict, n) == if before < 0 then 0 else if before > 10 then 10 else before
  {
    if n > 0 {
      FailureIsContained(outbox, verdict, operation, chunk, n - 1);
    }
  }

  /** What a claimed row of the scanned collection does to the index: unless its chunk failed
      before that collection's group, a deletion has removed its memory, and an upsert has put
      it in unless a deletion of the same cycle removed it; and nothing else enters or leaves. */
  lemma {:induction false} CycleReaches(outbox: seq<Row>, vectors: set<Id>, verdict: Verdicts, i: nat, id: Id)
    requires i < |outbox| && Claimed(outbox, i) && outbox[i].scanned && VerdictOf(outbox, i, verdict) != FailedBefore
    ensures var after := CycleVectors(outbox, vectors, verdict);
      && (outbox[i].operation == Delete ==> outbox[i].memory !in after)
      && (outbox[i].operation == Upsert && outbox[i].memory !in after ==>
            exists j :: 0 <= j < |outbox| && Claimed(outbox, j) && outbox[j].operation == Delete && outbox[j].memory == outbox[i].memory)
      && ((id in after <==> id in vectors)
          || exists j :: 0 <= j < |outbox| && Claimed(outbox, j) && outbox[j].memory == id && outbox[j].scanned
               && VerdictOf(outbox, j, verdict) != FailedBefore
               && outbox[j].operation == if id in after then Upsert else Delete)
  {
  }

  /** A delivered cycle settles the first hundred pending rows, and no others. */
  lemma {:induction false} CycleClaims(outbox: seq<Row>, verdict: Verdicts, n: nat)
    requires n <= |outbox| && AlwaysDelivers(verdict, outbox)
    ensures var before := PendingBefore(outbox, n);
      PendingBefore(CycleRows(outbox, verdict), n) == if before < 100 then 0 else before - 100
  {
    if n > 0 {
      CycleClaims(outbox, verdict, n - 1);
    }
  }

  // ----- draining: cycles until one claims nothing -----

  /** The outbox after `k` cycles, the chunks of cycle `j` faring as in `verdict(j)`. */
  function Drained(outbox: seq<Row>, verdict: nat -> Verdicts, k: nat): (rows: seq<Row>)
    ensures |rows| == |outbox|
  {
    if k == 0 then outbox else CycleRows(Drained(outbox, verdict, k - 1), verdict(k - 1))
  }

  predicate NothingPending(outbox: seq<Row>) {
    PendingBefore(outbox, |outbox|) == 0
  }

  ghost predicate DrainEnds(outbox: seq<Row>, verdict: nat -> Verdicts) {
    exists n: nat :: NothingPending(Drained(outbox, verdict, n))
  }

  lemma {:induction false} CycleKeepsPrivacyOut(outbox: seq<Row>, verdict: Verdicts)
    requires NoPrivacyPending(outbox)
    ensures NoPrivacyPending(CycleRows(outbox, verdict))
  {
  }

  lemma {:induction false} DrainEndsFrom(outbox: seq<Row>, verdict: nat -> Verdicts, k: nat)
    requires NoPrivacyPending(Drained(outbox, verdict, k))
    ensures DrainEnds(outbox, verdict)
    decreases Work(Drained(outbox, verdict, k), |outbox|)
  {
    var rows := Drained(outbox, verdict, k);
    if !NothingPending(rows) {
      CycleProgresses(rows, verdict(k), |rows|);
      CycleKeepsPrivacyOut(rows, verdict(k));
      DrainEndsFrom(outbox, verdict, k + 1);
    }
  }

  ghost predicate AllDeliver(verdict: nat -> Verdicts) {
    forall k, operation, j :: verdict(k)(operation, j).Delivered?
  }

  lemma {:induction false} DeliveredDrainEndsFrom(outbox: seq<Row>, verdict: nat -> Verdicts, k: nat)
    requires AllDeliver(verdict)
    ensures DrainEnds(outbox, verdict)
    decreases PendingBefore(Drained(outbox, verdict, k), |outbox|)
  {
    var rows := Drained(outbox, verdict, k);
    if !NothingPending(rows) {
      DeliveredCycleProgresses(rows, verdict(k), |rows|);
      DeliveredDrainEndsFrom(outbox, verdict, k + 1);
    }
  }

  /** Every chunk of every cycle fails. */
  function AlwaysFails(): nat -> Verdicts {
    (k: nat) => (operation: Operation, j: nat) => FailedBefore
  }

  lemma {:induction false} PrivacyStaysPending(outbox: seq<Row>, i: nat, k: nat)
    requires i < |outbox| && outbox[i].status.Pending? && outbox[i].privacy
    ensures Drained(outbox, AlwaysFails(), k)[i].status.Pending? && Drained(outbox, AlwaysFails(), k)[i].privacy
  {
    if k > 0 {
      PrivacyStaysPending(outbox, i, k - 1);
    }
  }

  /** The drain that never ends: one privacy deletion whose chunks keep failing. */
  lemma {:induction false} PrivacyNeverDrains(outbox: seq<Row>, i: nat)
    requires i < |outbox| && outbox[i].status.Pending? && outbox[i].privacy
    ensures !DrainEnds(outbox, AlwaysFails())
  {
    forall n: nat ensures !NothingPending(Drained(outbox, AlwaysFails(), n)) {
      PrivacyStaysPending(outbox, i, n);
      NonePending(Drained(outbox, AlwaysFails(), n), |outbox|);
    }
  }

  /** Draining an outbox ends, however its chunks fare, if and only if no privacy deletion is
      pending in it; and it always ends if every chunk is delivered. */
  lemma {:induction false} DrainEndsIff(outbox: seq<Row>)
    ensures (forall verdict :: DrainEnds(outbox, verdict)) <==> NoPrivacyPending(outbox)
    ensures forall verdict :: AllDeliver(verdict) ==> DrainEnds(outbox, verdict)
  {
    if NoPrivacyPending(outbox) {
      forall verdict ensures DrainEnds(outbox, verdict) {
        assert Drained(outbox, verdict, 0) == outbox;
        DrainEndsFrom(outbox, verdict, 0);
      }
    } else {
      var i :| 0 <= i < |outbox| && outbox[i].status.Pending? && outbox[i].privacy;
      PrivacyNeverDrains(outbox, i);
    }
    forall verdict | AllDeliver(verdict) ensures DrainEnds(outbox, verdict) {
      DeliveredDrainEndsFrom(outbox, verdict, 0);
    }
  }

  lemma {:induction false} NonePending(outbox: seq<Row>, n: nat)
    requires n <= |outbox|
    ensures PendingBefore(outbox, n) == 0 <==> forall i :: 0 <= i < n ==> !outbox[i].status.Pending?
  {
    if n > 0 {
      NonePending(outbox, n - 1);
    }
  }

  /** The memories that pending rows of an operation would touch in the scanned collection. */
  function Touchable(outbox: seq<Row>, operation: Operation): set<Id> {
    set i | 0 <= i < |outbox| && outbox[i].status.Pending? && outbox[i].operation == operation && outbox[i].scanned
      :: outbox[i].memory
  }

  function Deliverable(outbox: seq<Row>): set<Id> { Touchable(outbox, Upsert) }

  function Removable(outbox: seq<Row>): set<Id> { Touchable(outbox, Delete) }

  /** What a drain makes of a pending row: it is given up at the third failure, or at the next
      one if it had failed so often before, and a privacy deletion never. */
  predicate Tried(r: Row, r': Row) {
    match r'.status
    case Processing => false
    case Failed => !r.privacy && r'.attempts == if r.attempts < 3 then 3 else r.attempts + 1
    case Pending => r'.attempts == r.attempts || (r'.attempts > r.attempts && (r.privacy || r'.attempts < 3))
    case Done => r'.attempts > r.attempts && (r.privacy || r'.attempts == r.attempts + 1 || r'.attempts <= 3)
  }

  /** Rows only settle: none is added, rewritten or made pending again once it is not. */
  ghost predicate Settles(outbox: seq<Row>, outbox': seq<Row>) {
    && |outbox'| == |outbox|
    && forall i :: 0 <= i < |outbox| ==>
      && outbox'[i].memory == outbox[i].memory && outbox'[i].operation == outbox[i].operation && outbox'[i].scanned == outbox[i].scanned
      && outbox'[i].privacy == outbox[i].privacy
      && (!outbox[i].status.Pending? ==> outbox'[i] == outbox[i])
      && (outbox[i].status.Pending? ==> Tried(outbox[i], outbox'[i]))
  }

  /** An upsert marked done is in the index, unless a deletion was pending for it too. */
  ghost predicate DoneAreIndexed(outbox: seq<Row>, outbox': seq<Row>, vectors': set<Id>)
    requires Settles(outbox, outbox')
  {
    forall i :: 0 <= i < |outbox| ==>
      (outbox[i].status.Pending? && outbox'[i].status.Done? && outbox[i].operation.Upsert? && outbox[i].scanned ==>
         outbox[i].memory in vectors' + Removable(outbox))
  }

  /** What draining makes of the outbox and the index, however the chunks fared. */
  ghost predicate Drains(outbox: seq<Row>, vectors: set<Id>, outbox': seq<Row>, vectors': set<Id>) {
    && Settles(outbox, outbox') && DoneAreIndexed(outbox, outbox', vectors')
    && vectors - Removable(outbox) <= vectors' <= vectors + Deliverable(outbox)
  }

  lemma {:induction false} CycleDrains(outbox: seq<Row>, vectors: set<Id>, verdict: Verdicts)
    ensures Drains(outbox, vectors, CycleRows(outbox, verdict), CycleVectors(outbox, vectors, verdict))
  {
  }

  lemma {:induction false} SettlingTouchesLess(o1: seq<Row>, o2: seq<Row>, operation: Operation)
    requires Settles(o1, o2)
    ensures Touchable(o2, operation) <= Touchable(o1, operation)
  {
    forall x | x in Touchable(o2, operation) ensures x in Touchable(o1, operation) {
      var i :| 0 <= i < |o2| && o2[i].status.Pending? && o2[i].operation == operation && o2[i].scanned && o2[i].memory == x;
      assert o1[i].status.Pending?;
    }
  }

  lemma {:induction false} DrainsCompose(o1: seq<Row>, v1: set<Id>, o2: seq<Row>, v2: set<Id>, o3: seq<Row>, v3: set<Id>)
    requires Drains(o1, v1, o2, v2) && Drains(o2, v2, o3, v3)
    ensures Drains(o1, v1, o3, v3)
  {
    SettlingTouchesLess(o1, o2, Upsert);
    SettlingTouchesLess(o1, o2, Delete);
    forall i | 0 <= i < |o1| && o1[i].status.Pending? && o3[i].status.Done? && o1[i].operation.Upsert? && o1[i].scanned
      ensures o1[i].memory in v3 + Removable(o1)
    {
      assert o2[i].status.Pending? || o2[i].status.Done?;
    }
  }

  lemma {:induction false} AppliedWereTouchable(outbox: seq<Row>, operation: Operation, verdict: Verdicts)
    ensures Applied(outbox, operation, verdict) <= Touchable(outbox, operation)
  {
    forall x | x in Applied(outbox, operation, verdict) ensures x in Touchable(outbox, operation) {
      var i: nat :| i < |outbox| && Claimed(outbox, i) && outbox[i].operation == operation && outbox[i].scanned && outbox[i].memory == x;
    }
  }

  /** A delivered cycle loses no pending upsert: but for memories that a pending row is to
      delete, what is indexed or still to be upserted stays the same. */
  lemma {:induction false} DeliveredCycle(outbox: seq<Row>, vectors: set<Id>, verdict: Verdicts)
    requires AlwaysDelivers(verdict, outbox)
    ensures CycleVectors(outbox, vectors, verdict) + Deliverable(CycleRows(outbox, verdict)) - Removable(outbox)
         == vectors + Deliverable(outbox) - Removable(outbox)
  {
    var rows, found := CycleRows(outbox, verdict), CycleVectors(outbox, vectors, verdict);
    CycleDrains(outbox, vectors, verdict);
    SettlingTouchesLess(outbox, rows, Upsert);
    AppliedWereTouchable(outbox, Delete, verdict);
    forall x | x in Deliverable(outbox) - Removable(outbox) ensures x in found + Deliverable(rows) {
      var i :| 0 <= i < |outbox| && outbox[i].status.Pending? && outbox[i].operation.Upsert? && outbox[i].scanned && outbox[i].memory == x;
      if Claimed(outbox, i) {
        assert x in Applied(outbox, Upsert, verdict);
      } else {
        assert rows[i] == outbox[i];
      }
    }
  }

  /** But for what pending rows were to delete at the start, the index and the pending upserts
      together are still what they were. */
  ghost predicate NothingLost(o0: seq<Row>, v0: set<Id>, o: seq<Row>, v: set<Id>) {
    v + Deliverable(o) - Removable(o0) == v0 + Deliverable(o0) - Removable(o0)
  }

  lemma {:induction false} DeliveredCycleLosesNothing(o0: seq<Row>, v0: set<Id>, o: seq<Row>, v: set<Id>, verdict: Verdicts)
    requires Drains(o0, v0, o, v) && NothingLost(o0, v0, o, v) && AlwaysDelivers(verdict, o)
    ensures NothingLost(o0, v0, CycleRows(o, verdict), CycleVectors(o, v, verdict))
  {
    SettlingTouchesLess(o0, o, Delete);
    DeliveredCycle(o, v, verdict);
    SubtractMore(CycleVectors(o, v, verdict) + Deliverable(CycleRows(o, verdict)), v + Deliverable(o), Removable(o), Removable(o0));
  }

  lemma {:induction false} SubtractMore(a: set<Id>, b: set<Id>, r: set<Id>, more: set<Id>)
    requires a - r == b - r && r <= more
    ensures a - more == b - more
  {
    assert a - more == (a - r) - more;
    assert b - more == (b - r) - more;
  }

  /** One cycle of the drain. */
  lemma {:induction false} CycleContinues(o0: seq<Row>, v0: set<Id>, o: seq<Row>, v: set<Id>, verdict: Verdicts)
    requires Drains(o0, v0, o, v)
    ensures Drains(o0, v0, CycleRows(o, verdict), CycleVectors(o, v, verdict))
  {
    CycleDrains(o, v, verdict);
    DrainsCompose(o0, v0, o, v, CycleRows(o, verdict), CycleVectors(o, v, verdict));
  }

  /** Where `k` cycles of a drain have led. */
  ghost predicate AfterCycles(o0: seq<Row>, v0: set<Id>, verdict: nat -> Verdicts, k: nat, o: seq<Row>, v: set<Id>) {
    && o == Drained(o0, verdict, k) && Drains(o0, v0, o, v)
    && (AllDeliver(verdict) ==> NothingLost(o0, v0, o, v))
  }

  lemma {:induction false} OneMoreCycle(o0: seq<Row>, v0: set<Id>, verdict: nat -> Verdicts, k: nat, o: seq<Row>, v: set<Id>)
    requires AfterCycles(o0, v0, verdict, k, o, v)
    ensures AfterCycles(o0, v0, verdict, k + 1, CycleRows(o, verdict(k)), CycleVectors(o, v, verdict(k)))
    ensures NothingPending(o) ==> NothingPending(CycleRows(o, verdict(k)))
    ensures NothingPending(Drained(o0, verdict, k)) ==> NothingPending(o)
  {
    CycleContinues(o0, v0, o, v, verdict(k));
    if AllDeliver(verdict) {
      DeliveredCycleLosesNothing(o0, v0, o, v, verdict(k));
    }
    NonePending(o, |o|);
    NonePending(CycleRows(o, verdict(k)), |o|);
  }

  lemma {:induction false} DrainIsOver(o0: seq<Row>, v0: set<Id>, verdict: nat -> Verdicts, k: nat, o: seq<Row>, v: set<Id>)
    requires AfterCycles(o0, v0, verdict, k, o, v) && NothingPending(o)
    ensures o == Drained(o0, verdict, k) && Drains(o0, v0, o, v)
    ensures forall i :: 0 <= i < |o| ==> !o[i].status.Pending?
    ensures AllDeliver(verdict) ==> v - Removable(o0) == v0 + Deliverable(o0) - Removable(o0)
  {
    NonePending(o, |o|);
    assert Deliverable(o) == {};
  }

  /** Every missing memory can reach the scanned collection: by an upsert already pending
      for it, or by the one this run enqueues, which needs no other upsert to be open and
      the memory's vectors to belong to that collection. */
  predicate Repairable(table: seq<Memory>, vectors: set<Id>, outbox: seq<Row>) {
    forall m :: m in Active(table) && m.id !in vectors ==>
      m.id in Deliverable(outbox) || (!HasOpenUpsert(outbox, m.id) && m.scanned)
  }

  /** No pending row works against the table: what the scanned collection is to receive is
      active, and what it is to lose is not. */
  predicate Harmless(table: seq<Memory>, outbox: seq<Row>) {
    Deliverable(outbox) <= ActiveIds(table) && Removable(outbox) !! ActiveIds(table)
  }

  lemma {:induction false} TouchableJoin(a: seq<Row>, b: seq<Row>, operation: Operation)
    ensures Touchable(a + b, operation) == Touchable(a, operation) + Touchable(b, operation)
  {
    forall x | x in Touchable(a, operation) ensures x in Touchable(a + b, operation) {
      var i :| 0 <= i < |a| && a[i].status.Pending? && a[i].operation == operation && a[i].scanned && a[i].memory == x;
      assert (a + b)[i] == a[i];
    }
    forall x | x in Touchable(b, operation) ensures x in Touchable(a + b, operation) {
      var i :| 0 <= i < |b| && b[i].status.Pending? && b[i].operation == operation && b[i].scanned && b[i].memory == x;
      assert (a + b)[|a| + i] == b[i];
    }
  }

  /** Whether enqueueing gives a missing memory a row for the scanned collection. */
  predicate GetsRow(outbox: seq<Row>, m: Memory) {
    !HasOpenUpsert(outbox, m.id) && m.scanned
  }

  /** What the rows added for `missing` would touch. */
  lemma {:induction false} AddedRowsTouch(outbox: seq<Row>, missing: seq<Memory>)
    requires Ascending(missing)
    ensures var added := Enqueued(outbox, missing, None, |missing|);
      && Removable(added) == {}
      && (forall m :: m in missing ==> (m.id in Deliverable(added) <==> GetsRow(outbox, m)))
      && (forall x :: x in Deliverable(added) ==> exists m :: m in missing && m.id == x)
  {
    EnqueuedCovers(outbox, missing, |missing|);
    var added := Enqueued(outbox, missing, None, |missing|);
    forall k | 0 <= k < |added| ensures IsNewFor(outbox, missing, added[k]) {
      assert added[k] in added;
    }
    forall m | m in missing ensures m.id in Deliverable(added) <==> GetsRow(outbox, m) {
      var j :| 0 <= j < |missing| && missing[j] == m;
      if GetsRow(outbox, m) {
        assert NewRow(m) in added;
      }
    }
  }

  predicate IsNewFor(outbox: seq<Row>, missing: seq<Memory>, r: Row) {
    exists i :: 0 <= i < |missing| && r == NewRow(missing[i]) && !HasOpenUpsert(outbox, missing[i].id)
  }

  /** What is deliverable once the missing memories are enqueued. */
  lemma {:induction false} DeliverableAfterEnqueue(table: seq<Memory>, vectors: set<Id>, outbox: seq<Row>)
    requires Ascending(table) && Harmless(table, outbox)
    ensures var missing := Missing(Active(table), vectors);
      var rows := outbox + Enqueued(outbox, missing, None, |missing|);
      && Deliverable(outbox) <= Deliverable(rows) && Harmless(table, rows)
      && (ActiveIds(table) - vectors <= Deliverable(rows) <==> Repairable(table, vectors, outbox))
  {
    ActiveIsAscending(table);
    var missing := Missing(Active(table), vectors);
    MissingMembers(Active(table), vectors);
    AddedRowsTouch(outbox, missing);
    var added := Enqueued(outbox, missing, None, |missing|);
    TouchableJoin(outbox, added, Upsert);
    TouchableJoin(outbox, added, Delete);
    MissingAreDeliverable(table, vectors, outbox, Deliverable(added));
  }

  lemma {:induction false} MissingAreDeliverable(table: seq<Memory>, vectors: set<Id>, outbox: seq<Row>, more: set<Id>)
    requires forall m :: m in Active(table) && m.id !in vectors ==> (m.id in more <==> GetsRow(outbox, m))
    ensures ActiveIds(table) - vectors <= Deliverable(outbox) + more <==> Repairable(table, vectors, outbox)
  {
    if ActiveIds(table) - vectors <= Deliverable(outbox) + more {
      forall m | m in Active(table) && m.id !in vectors ensures m.id in Deliverable(outbox) || GetsRow(outbox, m) {
        assert m.id in ActiveIds(table) - vectors;
      }
    }
  }

  /** What deleting the orphans and draining an outbox of such rows make of the index. */
  lemma {:induction false} DrainedIndex(active: set<Id>, was: set<Id>, deliverable: set<Id>, removable: set<Id>, now: set<Id>)
    requires deliverable <= active && removable !! active
    requires was * active - removable <= now <= was * active + deliverable
    ensures was * active <= now <= active
    ensures now - removable == was * active + deliverable - removable ==> (now == active <==> active - was <= deliverable)
  {
    assert now !! removable && was * active + deliverable !! removable;
    if now - removable == was * active + deliverable - removable {
      assert now - removable == now;
      assert was * active + deliverable - removable == was * active + deliverable;
    }
  }

  // ----- drift that a full run leaves -----

  /** An active memory whose only upsert is stranded in processing: it is not enqueued again,
      and no cycle claims it. */
  lemma {:induction false} StrandedRowBlocksRepair(id: Id, attempts: nat, row: Row)
    requires row == Row(id, Upsert, Processing, attempts, true, false)
    ensures var table := [Memory(id, false, true)];
      && Ascending(table) && Harmless(table, [row]) && !Repairable(table, {}, [row])
      && Missing(Active(table), {}) == table && Enqueued([row], table, None, 1) == []
  {
    var table := [Memory(id, false, true)];
    OneMemoryIsMissing(table[0]);
    assert HasOpenUpsert([row], id) by { assert [row][0] == row; }
    assert [row] + [] == [row];
    assert Enqueued([row], table, None, 0) == [];
  }

  /** An active memory of another collection: its upsert is enqueued and delivered there, and
      the scan goes on reporting it. */
  lemma {:induction false} OtherCollectionIsNotRepaired(id: Id)
    ensures var table := [Memory(id, false, false)];
      && Ascending(table) && Harmless(table, []) && !Repairable(table, {}, [])
      && Missing(Active(table), {}) == table && Enqueued([], table, None, 1) == [Row(id, Upsert, Pending, 0, false, false)]
  {
    var table := [Memory(id, false, false)];
    OneMemoryIsMissing(table[0]);
    var none: seq<Row> := [];
    assert none + [] == none;
    assert Enqueued(none, table, None, 0) == [];
  }

  lemma {:induction false} OneMemoryIsMissing(m: Memory)
    requires !m.archived
    ensures Active([m]) == [m] && Missing([m], {}) == [m] && m in Active([m])
  {
    assert [m][1..] == [] && [m][..0] == [];
    assert Active([m]) == [m] + Active([]);
    assert Missing([m], {}) == Missing([], {}) + [m];
    assert [m][0] in [m];
  }

  // ----- the tool -----

  /** The memories of one batch that the index did not return. */
  method AppendMissing(missing: seq<Memory>, batch: seq<Memory>, foundIds: set<Id>) returns (r: seq<Memory>)
    ensures r == missing + Missing(batch, foundIds)
  {
    r := missing;
    for i := 0 to |batch|
      invariant r == missing + Missing(batch[..i], foundIds)
    {
      assert batch[..i + 1][..i] == batch[..i];
      if batch[i].id !in foundIds {
        r := r + [batch[i]];
      }
    }
    assert batch[..|batch|] == batch;
  }

  lemma {:induction false} MissingInBatch(batch: seq<Memory>, foundIds: set<Id>, vectors: set<Id>)
    requires forall m :: m in batch ==> (m.id in foundIds <==> m.id in vectors)
    ensures Missing(batch, foundIds) == Missing(batch, vectors)
  {
    if batch != [] {
      MissingInBatch(batch[..|batch| - 1], foundIds, vectors);
      assert batch[|batch| - 1] in batch;
    }
  }

  /** What the index returns for the ids of a batch. */
  function Retrieve(batch: seq<Memory>, vectors: set<Id>): (found: set<Id>)
    ensures Missing(batch, found) == Missing(batch, vectors)
  {
    var found := set m | m in batch && m.id in vectors :: m.id;
    MissingInBatch(batch, found, vectors);
    found
  }

  /** `last` is the id of the `k`th of the listed memories, or nothing before the first. */
  predicate EndsAt(s: seq<Memory>, last: Option<Id>, k: nat) {
    k <= |s| && last == if k == 0 then None else Some(s[k - 1].id)
  }

  /** The keyset condition selects exactly what follows the row the last page ended with. */
  lemma {:induction false} AfterLast(s: seq<Memory>, last: Option<Id>, k: nat)
    requires Ascending(s) && EndsAt(s, last, k)
    ensures After(s, last) == s[k..]
  {
    if k > 0 {
      forall i | 0 <= i < k ensures s[i].id <= s[k - 1].id {
        if i < k - 1 { assert s[i].id < s[k - 1].id; }
      }
      forall i | k <= i < |s| ensures s[i].id > s[k - 1].id {}
    }
    AfterIsSuffix(s, last, k);
  }

  /** The later the last id, the less is left; and less than before once a row is behind it. */
  lemma {:induction false} AfterShrinks(s: seq<Memory>, last: Option<Id>, later: Id)
    requires last.Some? ==> last.value <= later
    ensures |After(s, Some(later))| <= |After(s, last)|
    ensures (exists m :: m in After(s, last) && m.id <= later) ==> |After(s, Some(later))| < |After(s, last)|
  {
    if s != [] {
      AfterShrinks(s[1..], last, later);
    }
  }

  lemma {:induction false} AfterNothing(s: seq<Memory>)
    ensures After(s, None) == s
  {
    if s != [] {
      AfterNothing(s[1..]);
      assert s == [s[0]] + s[1..];
    }
  }

  lemma {:induction false} AfterMembers(s: seq<Memory>, last: Option<Id>)
    ensures forall m :: m in After(s, last) ==> last.Some? ==> last.value < m.id
  {
    if s != [] {
      AfterMembers(s[1..], last);
    }
  }

  lemma {:induction false} NextPageShrinks(active: seq<Memory>, last: Option<Id>, size: nat)
    ensures var batch := FirstOf(After(active, last), size);
      batch != [] ==> |After(active, Some(batch[|batch| - 1].id))| < |After(active, last)|
  {
    var batch := FirstOf(After(active, last), size);
    if batch != [] {
      var end := batch[|batch| - 1];
      assert end in After(active, last);
      AfterMembers(active, last);
      AfterShrinks(active, last, end.id);
    }
  }

  /** What the scan lists from the page after `last` on, having listed `missing`. */
  function ScanFrom(active: seq<Memory>, vectors: set<Id>, last: Option<Id>, missing: seq<Memory>, size: nat): seq<Memory>
    decreases |After(active, last)|
  {
    var batch := FirstOf(After(active, last), size);
    if batch == [] then missing
    else
      NextPageShrinks(active, last, size);
      ScanFrom(active, vectors, Some(batch[|batch| - 1].id), missing + Missing(batch, vectors), size)
  }

  lemma {:induction false} AfterAfter(s: seq<Memory>, last: Option<Id>, later: Id)
    requires last.Some? ==> last.value <= later
    ensures After(s, Some(later)) == After(After(s, last), Some(later))
  {
    if s != [] {
      var rest := After(s[1..], last);
      AfterAfter(s[1..], last, later);
      if last.Some? && s[0].id <= last.value {
        assert [] + rest == rest && After(s, last) == rest;
        assert [] + After(s[1..], Some(later)) == After(s[1..], Some(later));
      } else {
        assert After(s, last) == [s[0]] + rest && ([s[0]] + rest)[1..] == rest;
      }
    }
  }

  lemma {:induction false} AfterAscends(s: seq<Memory>, last: Option<Id>)
    requires Ascending(s)
    ensures Ascending(After(s, last)) && forall m :: m in After(s, last) ==> m in s
  {
    if s != [] {
      var rest := After(s[1..], last);
      AfterAscends(s[1..], last);
      forall i | 0 <= i < |rest| ensures s[0].id < rest[i].id {
        assert rest[i] in s[1..];
      }
    }
  }

  /** What follows the `n`th of the rows after `last` is the rest of them. */
  lemma {:induction false} AfterNth(active: seq<Memory>, last: Option<Id>, n: nat)
    requires Ascending(active) && 0 < n <= |After(active, last)|
    ensures After(active, Some(After(active, last)[n - 1].id)) == After(active, last)[n..]
  {
    var rest := After(active, last);
    AfterMembers(active, last);
    AfterAscends(active, last);
    assert rest[n - 1] in rest;
    AfterAfter(active, last, rest[n - 1].id);
    AfterLast(rest, Some(rest[n - 1].id), n);
  }

  lemma {:induction false} MissingSplits(s: seq<Memory>, n: nat, vectors: set<Id>)
    requires n <= |s|
    ensures Missing(s, vectors) == Missing(s[..n], vectors) + Missing(s[n..], vectors)
  {
    MissingJoins(s[..n], s[n..], vectors);
    assert s == s[..n] + s[n..];
  }

  lemma {:induction false} Regroup(a: seq<Memory>, b: seq<Memory>, c: seq<Memory>)
    ensures (a + b) + c == a + (b + c)
  {
  }

  /** It lists exactly what is missing of the rows after `last`. */
  lemma {:induction false} ScanListsMissing(active: seq<Memory>, vectors: set<Id>, last: Option<Id>, missing: seq<Memory>, size: nat)
    requires Ascending(active) && size > 0
    ensures ScanFrom(active, vectors, last, missing, size) == missing + Missing(After(active, last), vectors)
    decreases |After(active, last)|
  {
    var rest := After(active, last);
    var batch := FirstOf(rest, size);
    if batch == [] {
      assert rest == [] && missing + [] == missing;
    } else {
      var n, next := |batch|, Some(batch[|batch| - 1].id);
      NextPageShrinks(active, last, size);
      ScanListsMissing(active, vectors, next, missing + Missing(batch, vectors), size);
      assert batch == rest[..n] && batch[n - 1] == rest[n - 1];
      AfterNth(active, last, n);
      MissingSplits(rest, n, vectors);
      Regroup(missing, Missing(batch, vectors), Missing(rest[n..], vectors));
    }
  }

  /** Read the active memories page by page, in id order, and list those without a vector. */
  method ScanMissingMemories(table: seq<Memory>, vectors: set<Id>, pageSize: nat) returns (missing: seq<Memory>)
    requires Ascending(table)
    ensures missing == if pageSize == 0 then [] else Missing(Active(table), vectors)
  {
    missing := [];
    var lastId: Option<Id> := None;
    while true
      invariant ScanFrom(Active(table), vectors, lastId, missing, pageSize) == ScanFrom(Active(table), vectors, None, [], pageSize)
      decreases |After(Active(table), lastId)|
    {
      var batch := Page(table, lastId, pageSize);
      if batch == [] {
        break;
      }
      NextPageShrinks(Active(table), lastId, pageSize);
      missing := AppendMissing(missing, batch, Retrieve(batch, vectors));
      lastId := Some(batch[|batch| - 1].id);
    }
    ActiveIsAscending(table);
    if pageSize > 0 {
      ScanListsMissing(Active(table), vectors, None, [], pageSize);
      AfterNothing(Active(table));
    }
  }

  /** `points` were taken from `unseen`, each once, and leave `rest`. */
  ghost predicate TakenFrom(unseen: set<Id>, points: seq<Id>, rest: set<Id>) {
    Distinct(points) && Elements(points) !! rest && Elements(points) + rest == unseen
  }

  lemma {:induction false} TakeOneMore(unseen: set<Id>, points: seq<Id>, rest: set<Id>, x: Id)
    requires TakenFrom(unseen, points, rest) && x in rest
    ensures TakenFrom(unseen, points + [x], rest - {x})
  {
    assert x !in Elements(points);
    ElementsJoin(points, [x]);
    assert Elements([x]) == {x};
  }

  /** Take up to `n` of the ids a scroll has not returned yet. */
  method Scroll(unseen: set<Id>, n: nat) returns (points: seq<Id>, rest: set<Id>)
    ensures TakenFrom(unseen, points, rest) && |points| <= n && (|points| < n ==> rest == {})
  {
    points, rest := [], unseen;
    while rest != {} && |points| < n
      invariant TakenFrom(unseen, points, rest) && |points| <= n
      decreases |rest|
    {
      var x := PickOne(rest);
      TakeOneMore(unseen, points, rest, x);
      points, rest := points + [x], rest - {x};
    }
  }

  /** The points of one scroll page that no active memory has. */
  method ListOrphans(points: seq<Id>, existing: set<Id>) returns (r: seq<Id>)
    requires Distinct(points)
    ensures Distinct(r) && Elements(r) == Elements(points) - existing
  {
    r := [];
    for i := 0 to |points|
      invariant Distinct(r) && Elements(r) == Elements(points[..i]) - existing
    {
      assert points[..i + 1] == points[..i] + [points[i]];
      ElementsJoin(points[..i], [points[i]]);
      if points[i] !in existing {
        assert points[i] !in Elements(r);
        ElementsJoin(r, [points[i]]);
        r := r + [points[i]];
      }
    }
    assert points[..|points|] == points;
  }

  lemma {:induction false} DistinctJoin(a: seq<Id>, b: seq<Id>)
    requires Distinct(a) && Distinct(b) && Elements(a) !! Elements(b)
    ensures Distinct(a + b)
  {
    forall i, j | 0 <= i < j < |a + b| ensures (a + b)[i] != (a + b)[j] {
      if i < |a| <= j {
        assert a[i] in Elements(a) && b[j - |a|] in Elements(b);
      }
    }
  }

  lemma {:induction false} OrphansOfPage(vectors: set<Id>, unseen: set<Id>, page: set<Id>, rest: set<Id>, active: set<Id>)
    requires unseen <= vectors && page !! rest && page + rest == unseen
    ensures (vectors - unseen - active) + (page - active) == vectors - rest - active
    ensures (vectors - unseen - active) !! (page - active)
  {
  }

  /** The orphans of one scroll page, by one query for the ids that exist. */
  method OrphansAmong(table: seq<Memory>, points: seq<Id>) returns (r: seq<Id>)
    requires Distinct(points)
    ensures Distinct(r) && Elements(r) == Elements(points) - ActiveIds(table)
  {
    var existing := Elements(points) * ActiveIds(table);
    r := ListOrphans(points, existing);
  }

  /** Scroll through the index and list the ids that no active memory has, each once. */
  method ScanOrphanVectorIds(table: seq<Memory>, vectors: set<Id>, pageSize: nat) returns (orphans: seq<Id>)
    requires pageSize >= 1
    ensures Distinct(orphans) && Elements(orphans) == vectors - ActiveIds(table)
  {
    ghost var active := ActiveIds(table);
    orphans := [];
    var unseen := vectors;
    while unseen != {}
      invariant unseen <= vectors && Distinct(orphans)
      invariant Elements(orphans) == vectors - unseen - active
      decreases |unseen|
    {
      var points, rest := Scroll(unseen, pageSize);
      if points == [] {
        break;
      }
      var page := OrphansAmong(table, points);
      OrphansOfPage(vectors, unseen, Elements(points), rest, active);
      DistinctJoin(orphans, page);
      ElementsJoin(orphans, page);
      orphans := orphans + page;
      assert points[0] in Elements(points);
      ProperSubsetSize(rest, unseen);
      unseen := rest;
    }
  }

  datatype Args = Args(pageSize: nat, repairMissing: bool, deleteOrphans: bool, processOutbox: bool,
                       maxMissingRepairs: Option<int>, dryRun: bool)

  datatype Summary = Summary(missing: nat, orphans: nat, enqueued: nat, deleted: nat)

  /** The outbox that the drain of a run finds. */
  function RowsToDrain(args: Args, table: seq<Memory>, vectors: set<Id>, outbox: seq<Row>): seq<Row> {
    var missing := Missing(Active(table), vectors);
    if args.repairMissing && !args.dryRun then outbox + Enqueued(outbox, missing, args.maxMissingRepairs, |missing|) else outbox
  }

  /** A run deletes the orphans exactly if told to; without a drain it leaves the rest of the
      index and the rows it enqueued as they are. */
  ghost predicate RunsTo(args: Args, table: seq<Memory>, vectors: set<Id>, outbox: seq<Row>, vectors': set<Id>, outbox': seq<Row>) {
    var missing := Missing(Active(table), vectors);
    var rows := if args.repairMissing && !args.dryRun then outbox + Enqueued(outbox, missing, args.maxMissingRepairs, |missing|) else outbox;
    var kept := if args.deleteOrphans && !args.dryRun then vectors * ActiveIds(table) else vectors;
    if args.processOutbox && !args.dryRun
    then Drains(rows, kept, outbox', vectors') && forall i :: 0 <= i < |outbox'| ==> !outbox'[i].status.Pending?
    else vectors' == kept && outbox' == rows
  }

  /** What a full uncapped run has made of the index. */
  lemma {:induction false} FullRun(table: seq<Memory>, vectors: set<Id>, outbox: seq<Row>, rows: seq<Row>, vectors': set<Id>, outbox': seq<Row>)
    requires Ascending(table) && Harmless(table, outbox)
    requires var missing := Missing(Active(table), vectors);
      rows == outbox + Enqueued(outbox, missing, None, |missing|)
    requires Drains(rows, vectors * ActiveIds(table), outbox', vectors')
    ensures vectors * ActiveIds(table) <= vectors' <= ActiveIds(table)
    ensures vectors' - Removable(rows) == vectors * ActiveIds(table) + Deliverable(rows) - Removable(rows) ==>
      (vectors' == ActiveIds(table) <==> Repairable(table, vectors, outbox))
  {
    DeliverableAfterEnqueue(table, vectors, outbox);
    DrainedIndex(ActiveIds(table), vectors, Deliverable(rows), Removable(rows), vectors');
  }

  class RepairTool {
    const table: seq<Memory>
    var vectors: set<Id>
    var outbox: seq<Row>

    constructor (table: seq<Memory>, vectors: set<Id>, outbox: seq<Row>)
      ensures this.table == table && this.vectors == vectors && this.outbox == outbox
    {
      this.table, this.vectors, this.outbox := table, vectors, outbox;
    }

    method EnqueueMissingRepairs(memories: seq<Memory>, maxRepairs: Option<int>) returns (enqueued: nat)
      modifies this`outbox
      ensures outbox == old(outbox) + Enqueued(old(outbox), memories, maxRepairs, |memories|)
      ensures enqueued == |outbox| - |old(outbox)|
    {
      enqueued := 0;
      for i := 0 to |memories|
        invariant outbox == old(outbox) + Enqueued(old(outbox), memories, maxRepairs, i)
        invariant enqueued == |outbox| - |old(outbox)|
      {
        if maxRepairs.Some? && enqueued >= maxRepairs.value {
          CapReached(old(outbox), memories, maxRepairs, i, |memories|);
          return;
        }
        if HasOpenUpsert(outbox, memories[i].id) {
          continue;
        }
        outbox := outbox + [NewRow(memories[i])];
        enqueued := enqueued + 1;
      }
    }

    method DeleteOrphanVectors(orphans: seq<Id>, pageSize: nat) returns (deleted: nat)
      requires pageSize >= 1
      modifies this`vectors
      ensures vectors == old(vectors) - Elements(orphans) && deleted == |orphans|
    {
      deleted := 0;
      var start := 0;
      while start < |orphans|
        invariant 0 <= start && deleted == if start < |orphans| then start else |orphans|
        invariant vectors == old(vectors) - Elements(orphans[..deleted])
        decreases |orphans| - start
      {
        var end := if start + pageSize < |orphans| then start + pageSize else |orphans|;
        var batch := orphans[start..end];
        assert Elements(orphans[..end]) == Elements(orphans[..start]) + Elements(batch) by {
          assert orphans[..end] == orphans[..start] + batch;
        }
        vectors := vectors - Elements(batch);
        deleted := deleted + |batch|;
        start := start + pageSize;
      }
      assert orphans[..|orphans|] == orphans;
    }

    /** One cycle of the vector sync worker. */
    method RunOutboxCycle(verdict: Verdicts) returns (claimed: nat)
      modifies this`vectors, this`outbox
      ensures outbox == CycleRows(old(outbox), verdict)
      ensures vectors == CycleVectors(old(outbox), old(vectors), verdict)
      ensures claimed == 0 <==> NothingPending(old(outbox))
      ensures claimed <= 100
    {
      claimed := PendingBefore(outbox, |outbox|);
      if claimed > BATCH {
        claimed := BATCH;
      }
      vectors := CycleVectors(outbox, vectors, verdict);
      outbox := CycleRows(outbox, verdict);
    }

    /** Cycles until one claims nothing; it must be known that such a cycle comes. */
    method ProcessOutboxUntilEmpty(verdict: nat -> Verdicts) returns (cycles: nat)
      requires DrainEnds(outbox, verdict)
      modifies this`vectors, this`outbox
      ensures outbox == Drained(old(outbox), verdict, cycles) && Drains(old(outbox), old(vectors), outbox, vectors)
      ensures forall i :: 0 <= i < |outbox| ==> !outbox[i].status.Pending?
      ensures AllDeliver(verdict) ==>
        vectors - Removable(old(outbox)) == old(vectors) + Deliverable(old(outbox)) - Removable(old(outbox))
    {
      cycles := 0;
      ghost var n: nat :| NothingPending(Drained(outbox, verdict, n));
      while true
        invariant cycles <= n && AfterCycles(old(outbox), old(vectors), verdict, cycles, outbox, vectors)
        decreases n - cycles
      {
        OneMoreCycle(old(outbox), old(vectors), verdict, cycles, outbox, vectors);
        var claimed := RunOutboxCycle(verdict(cycles));
        cycles := cycles + 1;
        if claimed == 0 {
          break;
        }
      }
      DrainIsOver(old(outbox), old(vectors), verdict, cycles, outbox, vectors);
    }

    /** `main`. */
    method Run(args: Args, verdict: nat -> Verdicts) returns (summary: Summary)
      requires args.pageSize >= 1 && Ascending(table)
      requires args.processOutbox && !args.dryRun ==> DrainEnds(RowsToDrain(args, table, vectors, outbox), verdict)
      modifies this`vectors, this`outbox
      ensures summary.missing == |Missing(Active(table), old(vectors))|
      ensures summary.orphans == |old(vectors) - ActiveIds(table)|
      ensures |old(outbox)| + summary.enqueued == |outbox|
      ensures !args.repairMissing || args.dryRun ==> summary.enqueued == 0
      ensures args.maxMissingRepairs.Some? ==> summary.enqueued <= if args.maxMissingRepairs.value < 0 then 0 else args.maxMissingRepairs.value
      ensures summary.deleted == if args.deleteOrphans && !args.dryRun then summary.orphans else 0
      ensures args.dryRun ==> vectors == old(vectors) && outbox == old(outbox)
      ensures RunsTo(args, table, old(vectors), old(outbox), vectors, outbox)
      ensures Everything(args) && Harmless(table, old(outbox)) ==>
        old(vectors) * ActiveIds(table) <= vectors <= ActiveIds(table)
      ensures Everything(args) && Harmless(table, old(outbox)) && AllDeliver(verdict) ==>
        (vectors == ActiveIds(table) <==> Repairable(table, old(vectors), old(outbox)))
    {
      var missing := ScanMissingMemories(table, vectors, args.pageSize);
      var orphans := ScanOrphanVectorIds(table, vectors, args.pageSize);
      DistinctSize(orphans);
      summary := Summary(|missing|, |orphans|, 0, 0);
      if args.dryRun {
        return;
      }
      if args.repairMissing {
        var enqueued := EnqueueMissingRepairs(missing, args.maxMissingRepairs);
        summary := summary.(enqueued := enqueued);
        if args.maxMissingRepairs.Some? {
          CappedIsPrefix(old(outbox), missing, args.maxMissingRepairs.value, |missing|);
        }
      }
      if args.deleteOrphans {
        var deleted := DeleteOrphanVectors(orphans, args.pageSize);
        summary := summary.(deleted := deleted);
      }
      ghost var rows, kept := outbox, vectors;
      if args.processOutbox {
        var cycles := ProcessOutboxUntilEmpty(verdict);
      }
      if Everything(args) && Harmless(table, old(outbox)) {
        assert kept == old(vectors) * ActiveIds(table);
        FullRun(table, old(vectors), old(outbox), rows, vectors, outbox);
      }
    }
  }

  /** Both repairs and the outbox, uncapped. */
  predicate Everything(args: Args) {
    args.repairMissing && args.deleteOrphans && args.processOutbox && args.maxMissingRepairs.None? && !args.dryRun
  }
}
