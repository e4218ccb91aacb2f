/** Operators retrying and discarding one dead-lettered job, in any interleaving with each
    other and with the worker that runs the job. */
module DeadLetters {
  import opened Wrappers

  type Pid = nat

  /** `Queued`: queued, being processed, or waiting for the worker's own retry. */
  datatype Status = Queued | Finished | Dead

  /** `runtime`: the job carries a runtime guard. */
  datatype Job = Job(status: Status, runtime: bool, memoriesCreated: nat, attempts: nat)

  datatype Phase = Locked | Checked | Reserved

  /** A request in progress; it holds the row lock. */
  datatype Op = Op(discard: bool, phase: Phase)

  /** `slot`: the tenant's queue holds a slot for the job. `releasing`: who has still to give
      a slot back: a retry whose commit failed, or the worker, which commits first and
      releases afterwards. */
  datatype State = State(
    job: Option<Job>, slot: bool, lock: Option<Pid>, ops: map<Pid, Op>, releasing: set<Pid>,
    deadLettered: nat, left: nat)

  datatype Step =
    /** SELECT ... FOR UPDATE NOWAIT: refused while another request holds the row. */
    | Lock(p: Pid, discard: bool)
    /** The checks on the row; `allowed`: a runtime job's extra conditions hold. */
    | Check(p: Pid, allowed: bool)
    /** `room`: the tenant's queue has room for another job. */
    | Reserve(p: Pid, room: bool)
    | Commit(p: Pid, ok: bool)
    /** `reached`: the queue store answers. */
    | Release(p: Pid, reached: bool)
    /** The worker making progress, finishing the job, ignoring a duplicate delivery of its
        task, or giving the job up, always on the unlocked row. */
    | Work(created: nat)
    | Finish(p: Pid)
    | Duplicate(p: Pid)
    | DeadLetter(p: Pid)

  predicate IsDead(s: State) {
    s.job.Some? && s.job.value.status.Dead?
  }

  predicate Live(s: State) {
    s.job.Some? && s.job.value.status.Queued?
  }

  function Ended(s: State, p: Pid): State {
    s.(ops := s.ops - {p}, lock := None)
  }

  function Retried(j: Job): Job {
    j.(status := Queued, attempts := 0, memoriesCreated := if j.runtime then j.memoriesCreated else 0)
  }

  predicate Passes(s: State, op: Op, allowed: bool) {
    IsDead(s) && (s.job.value.runtime ==> !op.discard && allowed)
  }

  /** A step that is not enabled changes nothing. */
  function Next(s: State, step: Step): State {
    match step
    case Lock(p, discard) =>
      if s.lock.Some? || p in s.ops || p in s.releasing then s
      else s.(lock := Some(p), ops := s.ops[p := Op(discard, Locked)])
    case Check(p, allowed) =>
      if p !in s.ops || !s.ops[p].phase.Locked? then s
      else if Passes(s, s.ops[p], allowed) then s.(ops := s.ops[p := s.ops[p].(phase := Checked)])
      else Ended(s, p)
    case Reserve(p, room) =>
      if p !in s.ops || !s.ops[p].phase.Checked? || s.ops[p].discard then s
      else if s.slot || room then s.(slot := true, ops := s.ops[p := s.ops[p].(phase := Reserved)])
      else Ended(s, p)
    case Commit(p, ok) =>
      if p !in s.ops || s.job.None? then s
      else if s.ops[p].discard && s.ops[p].phase.Checked? then
        if ok then Ended(s, p).(job := None, left := s.left + 1) else Ended(s, p)
      else if !s.ops[p].discard && s.ops[p].phase.Reserved? then
        if ok then Ended(s, p).(job := Some(Retried(s.job.value)), left := s.left + 1)
        else Ended(s, p).(releasing := s.releasing + {p})
      else s
    case Release(p, reached) =>
      if p !in s.releasing then s
      else s.(releasing := s.releasing - {p}, slot := s.slot && !reached)
    case Work(created) =>
      if s.lock.Some? || !Live(s) then s
      else s.(job := Some(s.job.value.(memoriesCreated := s.job.value.memoriesCreated + created)))
    case Finish(p) =>
      if s.lock.Some? || !Live(s) || p in s.releasing then s
      else s.(job := Some(s.job.value.(status := Finished)), releasing := s.releasing + {p})
    case Duplicate(p) =>
      if s.lock.Some? || p in s.releasing then s else s.(releasing := s.releasing + {p})
    case DeadLetter(p) =>
      if s.lock.Some? || !Live(s) || p in s.releasing then s
      else s.(job := Some(s.job.value.(status := Dead)), releasing := s.releasing + {p}, deadLettered := s.deadLettered + 1)
  }

  function Play(s: State, steps: seq<Step>): State
    decreases |steps|
  {
    if steps == [] then s else Play(Next(s, steps[0]), steps[1..])
  }

  /** Nobody is in progress; the job may be in any status, and releases may be pending. */
  predicate Initial(s: State) {
    s.job.Some? && s.lock.None? && s.ops == map[] && s.left == 0 && s.deadLettered == if IsDead(s) then 1 else 0
  }

  // ----- mutual exclusion and what it buys -----

  /** Only the lock holder is in progress, and past its checks the job is still dead. */
  ghost predicate Exclusive(s: State) {
    && (forall p :: p in s.ops ==> s.lock == Some(p))
    && (forall p :: p in s.ops && !s.ops[p].phase.Locked? ==> IsDead(s) && (s.ops[p].discard ==> !s.job.value.runtime))
    && s.left + (if IsDead(s) then 1 else 0) == s.deadLettered
  }

  lemma {:induction false} StepKeepsExclusion(s: State, step: Step)
    requires Exclusive(s)
    ensures Exclusive(Next(s, step))
  {
  }

  lemma {:induction false} RunsAreExclusive(s: State, steps: seq<Step>)
    requires Exclusive(s)
    ensures Exclusive(Play(s, steps))
    decreases |steps|
  {
    if steps != [] {
      StepKeepsExclusion(s, steps[0]);
      RunsAreExclusive(Next(s, steps[0]), steps[1..]);
    }
  }

  /** Under every interleaving the job leaves `dead` at most once per dead-lettering, and
      has left exactly as often as it was dead-lettered once it is no longer dead. */
  lemma {:induction false} LeavesOncePerDeadLettering(s0: State, steps: seq<Step>)
    requires Initial(s0)
    ensures var s := Play(s0, steps);
      s.left <= s.deadLettered && (!IsDead(s) ==> s.left == s.deadLettered)
  {
    RunsAreExclusive(s0, steps);
  }

  predicate WithoutWork(steps: seq<Step>) {
    forall i :: 0 <= i < |steps| ==> !steps[i].Work?
  }

  /** A runtime-guarded job is never deleted, and its count of created memories never falls
      and is changed by the worker alone. */
  lemma {:induction false} RuntimeJobsArePreserved(s: State, steps: seq<Step>)
    requires Exclusive(s) && s.job.Some? && s.job.value.runtime
    ensures var end := Play(s, steps);
      && end.job.Some? && end.job.value.runtime
      && end.job.value.memoriesCreated >= s.job.value.memoriesCreated
      && (WithoutWork(steps) ==> end.job.value.memoriesCreated == s.job.value.memoriesCreated)
    decreases |steps|
  {
    if steps != [] {
      StepKeepsExclusion(s, steps[0]);
      RuntimeJobsArePreserved(Next(s, steps[0]), steps[1..]);
    }
  }

  // ----- requests that nobody disturbs -----

  /** Request `p` may begin: the row is unlocked. */
  predicate MayBegin(s: State, p: Pid) {
    s.lock.None? && p !in s.ops && p !in s.releasing
  }

  lemma {:induction false} PlayFour(s: State, steps: seq<Step>)
    requires |steps| == 4
    ensures Play(s, steps) == Next(Next(Next(Next(s, steps[0]), steps[1]), steps[2]), steps[3])
  {
    var s1 := Next(s, steps[0]);
    var s2 := Next(s1, steps[1]);
    var s3 := Next(s2, steps[2]);
    assert Play(s, steps) == Play(s1, steps[1..]);
    assert steps[1..][1..] == steps[2..] && steps[2..][1..] == steps[3..] && steps[3..][1..] == [];
    assert Play(s1, steps[1..]) == Play(s2, steps[2..]);
    assert Play(s2, steps[2..]) == Play(s3, steps[3..]);
    assert Play(s3, steps[3..]) == Play(Next(s3, steps[3]), []);
  }

  /** A retry on its own: of a dead job that may be retried, with room for it, it reserves the
      slot, queues the job with its attempts reset, and its count too unless it is a runtime
      job, and is done; if its commit fails it has the slot to give back; and otherwise it
      leaves everything as it was. */
  lemma {:induction false} RetryAlone(s: State, p: Pid, allowed: bool, room: bool, ok: bool)
    requires MayBegin(s, p)
    ensures var end := Play(s, [Lock(p, false), Check(p, allowed), Reserve(p, room), Commit(p, ok)]);
      if IsDead(s) && (s.job.value.runtime ==> allowed) && (s.slot || room) then
        if ok then
          var j := s.job.value;
          end == s.(job := Some(Job(Queued, j.runtime, if j.runtime then j.memoriesCreated else 0, 0)), slot := true, left := s.left + 1)
        else end == s.(slot := true, releasing := s.releasing + {p})
      else end == s
  {
    PlayFour(s, [Lock(p, false), Check(p, allowed), Reserve(p, room), Commit(p, ok)]);
    assert s.ops[p := Op(false, Locked)] - {p} == s.ops;
    assert s.ops[p := Op(false, Checked)] - {p} == s.ops;
    assert s.ops[p := Op(false, Reserved)] - {p} == s.ops;
    assert s.ops[p := Op(false, Locked)][p := Op(false, Checked)] == s.ops[p := Op(false, Checked)];
    assert s.ops[p := Op(false, Checked)][p := Op(false, Reserved)] == s.ops[p := Op(false, Reserved)];
  }

  /** A discard on its own deletes a dead job that is not a runtime job, if it can commit. */
  lemma {:induction false} DiscardAlone(s: State, p: Pid, allowed: bool, room: bool, ok: bool)
    requires MayBegin(s, p)
    ensures var end := Play(s, [Lock(p, true), Check(p, allowed), Reserve(p, room), Commit(p, ok)]);
      if IsDead(s) && !s.job.value.runtime && ok then end == s.(job := None, left := s.left + 1) else end == s
  {
    PlayFour(s, [Lock(p, true), Check(p, allowed), Reserve(p, room), Commit(p, ok)]);
    assert s.ops[p := Op(true, Locked)] - {p} == s.ops;
    assert s.ops[p := Op(true, Checked)] - {p} == s.ops;
    assert s.ops[p := Op(true, Locked)][p := Op(true, Checked)] == s.ops[p := Op(true, Checked)];
  }

  /** A second request finds the row locked and leaves everything as it is. */
  lemma {:induction false} SecondIsRefused(s: State, p: Pid, q: Pid, discard: bool)
    requires Exclusive(s) && p in s.ops
    ensures Next(s, Lock(q, discard)) == s
  {
  }

  predicate IsOf(step: Step, p: Pid) {
    match step
    case Check(q, _) => q == p
    case Reserve(q, _) => q == p
    case Commit(q, _) => q == p
    case _ => false
  }

  /** While a request holds the row, nobody but it changes the job. */
  lemma {:induction false} OnlyHolderChangesJob(s: State, p: Pid, steps: seq<Step>)
    requires Exclusive(s) && p in s.ops && forall i :: 0 <= i < |steps| ==> !IsOf(steps[i], p)
    ensures Play(s, steps).job == s.job && p in Play(s, steps).ops && Play(s, steps).ops[p] == s.ops[p]
    decreases |steps|
  {
    if steps != [] {
      StepKeepsExclusion(s, steps[0]);
      assert !IsOf(steps[0], p);
      OnlyHolderChangesJob(Next(s, steps[0]), p, steps[1..]);
    }
  }

  // ----- slots -----

  /** A task of the job ends, so the worker is going to release its slot. */
  predicate TaskEnds(step: Step) {
    step.Finish? || step.Duplicate? || step.DeadLetter?
  }

  predicate NoTaskEnds(steps: seq<Step>) {
    forall i :: 0 <= i < |steps| ==> !TaskEnds(steps[i])
  }

  predicate NoCommitOf(steps: seq<Step>, p: Pid) {
    forall i :: 0 <= i < |steps| ==> !(steps[i].Commit? && steps[i].p == p)
  }

  /** Retry `p` is about to be granted its slot. */
  predicate Granting(s: State, p: Pid, room: bool) {
    p in s.ops && s.ops[p] == Op(false, Checked) && (s.slot || room)
  }

  /** The retry holds its slot uncommitted, and nobody is going to release it. */
  predicate Holding(s: State, p: Pid) {
    p in s.ops && s.ops[p] == Op(false, Reserved) && s.slot && s.releasing == {}
  }

  /** The job is to be run, has its slot, and nobody is going to release it. */
  predicate Secure(s: State) {
    Live(s) && s.slot && s.releasing == {}
  }

  /** The job is to be run without a slot in the queue. */
  predicate Stranded(s: State) {
    Live(s) && !s.slot
  }

  lemma {:induction false} HoldingStays(s: State, p: Pid, steps: seq<Step>)
    requires Exclusive(s) && Holding(s, p) && NoTaskEnds(steps) && NoCommitOf(steps, p)
    ensures Exclusive(Play(s, steps)) && Holding(Play(s, steps), p)
    decreases |steps|
  {
    if steps != [] {
      StepKeepsExclusion(s, steps[0]);
      assert !TaskEnds(steps[0]);
      assert !(steps[0].Commit? && steps[0].p == p);
      HoldingStays(Next(s, steps[0]), p, steps[1..]);
    }
  }

  lemma {:induction false} SecureStays(s: State, steps: seq<Step>)
    requires Exclusive(s) && Secure(s) && NoTaskEnds(steps)
    ensures Secure(Play(s, steps))
    decreases |steps|
  {
    if steps != [] {
      StepKeepsExclusion(s, steps[0]);
      assert !TaskEnds(steps[0]);
      SecureStays(Next(s, steps[0]), steps[1..]);
    }
  }

  lemma {:induction false} PlaySplits(s: State, a: seq<Step>, b: seq<Step>)
    ensures Play(s, a + b) == Play(Play(s, a), b)
    decreases |a|
  {
    if a == [] {
      assert a + b == b;
    } else {
      assert (a + b)[1..] == a[1..] + b;
      PlaySplits(Next(s, a[0]), a[1..], b);
    }
  }

  /** What follows when retry `p` reserves, commits after `before`, and `after` comes later. */
  function Outcome(s: State, p: Pid, room: bool, before: seq<Step>, after: seq<Step>): State {
    Play(Next(Play(Next(s, Reserve(p, room)), before), Commit(p, true)), after)
  }

  /** If nothing was pending when it reserved, a committed retry keeps its slot in every later
      state, until a task of the job ends. */
  lemma {:induction false} SlotSurvives(s: State, p: Pid, room: bool, before: seq<Step>, after: seq<Step>)
    requires Exclusive(s) && Granting(s, p, room) && s.releasing == {}
    requires NoTaskEnds(before) && NoCommitOf(before, p) && NoTaskEnds(after)
    ensures Secure(Outcome(s, p, room, before, after))
  {
    var reserved := Next(s, Reserve(p, room));
    StepKeepsExclusion(s, Reserve(p, room));
    HoldingStays(reserved, p, before);
    var held := Play(reserved, before);
    StepKeepsExclusion(held, Commit(p, true));
    SecureStays(Next(held, Commit(p, true)), after);
  }

  /** Whatever ends a task takes the slot once it is released, and of these a duplicate delivery
      alone leaves the job to be run without one. */
  lemma {:induction false} EndedTaskTakesSlot(s: State, p: Pid, step: Step)
    requires Secure(s) && s.lock.None? && (step == Finish(p) || step == Duplicate(p) || step == DeadLetter(p))
    ensures var end := Play(s, [step, Release(p, true)]);
      !end.slot && end.releasing == {} && (Stranded(end) <==> step == Duplicate(p))
  {
    assert [step, Release(p, true)][1..] == [Release(p, true)] && [Release(p, true)][1..] == [];
    var mid := Next(s, step);
    var end := Next(mid, Release(p, true));
    assert Play(mid, [Release(p, true)]) == Play(end, []) == end;
    assert mid.releasing == {p};
  }

  /** Whoever is pending when the slot is granted can take it away after the commit. */
  lemma {:induction false} PendingReleaseStrands(s: State, p: Pid, room: bool, q: Pid)
    requires Exclusive(s) && Granting(s, p, room) && q in s.releasing
    ensures NoTaskEnds([Release(q, true)]) && Stranded(Outcome(s, p, room, [], [Release(q, true)]))
  {
    var committed := Next(Next(s, Reserve(p, room)), Commit(p, true));
    assert [Release(q, true)][1..] == [];
    assert Play(committed, [Release(q, true)]) == Play(Next(committed, Release(q, true)), []);
  }

  /** In every reachable state, a retry about to be granted its slot is safe from losing it,
      whatever the others do until a task of the job ends, if and only if no release is
      pending at that moment. */
  lemma {:induction false} SlotKeptIff(s0: State, run: seq<Step>, p: Pid, room: bool)
    requires Initial(s0) && Granting(Play(s0, run), p, room)
    ensures var s := Play(s0, run);
      s.releasing == {} <==>
        forall before, after :: NoTaskEnds(before) && NoCommitOf(before, p) && NoTaskEnds(after) ==>
          !Stranded(Outcome(s, p, room, before, after))
  {
    RunsAreExclusive(s0, run);
    var s := Play(s0, run);
    if s.releasing == {} {
      forall before, after | NoTaskEnds(before) && NoCommitOf(before, p) && NoTaskEnds(after)
        ensures !Stranded(Outcome(s, p, room, before, after))
      {
        SlotSurvives(s, p, room, before, after);
      }
    } else {
      var q :| q in s.releasing;
      PendingReleaseStrands(s, p, room, q);
      assert NoTaskEnds([]) && NoCommitOf([], p);
    }
  }

  /** The slot is taken for a reason: the job is to be run, a retry holds it, or somebody is
      going to release it. */
  ghost predicate Accounted(s: State) {
    s.slot ==> Live(s) || s.releasing != {} || exists p :: p in s.ops && s.ops[p] == Op(false, Reserved)
  }

  predicate ReleasesReach(steps: seq<Step>) {
    forall i :: 0 <= i < |steps| && steps[i].Release? ==> steps[i].reached
  }

  lemma {:induction false} StepKeepsAccount(s: State, step: Step)
    requires Exclusive(s) && Accounted(s) && (step.Release? ==> step.reached)
    ensures Accounted(Next(s, step))
  {
    var next := Next(s, step);
    if next.slot && !Live(next) && next.releasing == {} {
      if step.Reserve? && !s.slot {
        assert next.ops[step.p] == Op(false, Reserved);
      } else if s.slot && !Live(s) && s.releasing == {} {
        var p :| p in s.ops && s.ops[p] == Op(false, Reserved);
        assert p in next.ops && next.ops[p] == Op(false, Reserved);
      } else {
        assert false;
      }
    }
  }

  lemma {:induction false} RunsAreAccounted(s: State, steps: seq<Step>)
    requires Exclusive(s) && Accounted(s) && ReleasesReach(steps)
    ensures Accounted(Play(s, steps))
    decreases |steps|
  {
    if steps != [] {
      StepKeepsExclusion(s, steps[0]);
      StepKeepsAccount(s, steps[0]);
      RunsAreAccounted(Next(s, steps[0]), steps[1..]);
    }
  }

  /** Failed retries leak no slot: after any run whose releases all reach the queue store, once
      nobody is in progress and nothing is pending, only a job that is to be run has a slot. */
  lemma {:induction false} NoSlotLeaks(s0: State, steps: seq<Step>)
    requires Initial(s0) && Accounted(s0) && ReleasesReach(steps)
    ensures var s := Play(s0, steps); s.ops == map[] && s.releasing == {} && s.slot ==> Live(s)
  {
    RunsAreAccounted(s0, steps);
  }

  // ----- runs in which a slot is lost -----

  /** A retry whose commit fails; its row lock is released before its slot is. */
  function FailedRetry(): seq<Step> {
    [Lock(1, false), Check(1, true), Reserve(1, true), Commit(1, false)]
  }

  /** A retry that finds the slot still taken for the job, and commits. */
  function CommittedRetry(): seq<Step> {
    [Lock(2, false), Check(2, true), Reserve(2, false), Commit(2, true)]
  }

  lemma {:induction false} RetryFails(s: State)
    requires IsDead(s) && s.lock.None? && s.ops == map[] && s.releasing == {}
    ensures Play(s, FailedRetry()) == s.(slot := true, releasing := {1})
  {
    RetryAlone(s, 1, true, true, false);
  }

  lemma {:induction false} RetryCommits(s: State)
    requires IsDead(s) && s.lock.None? && s.ops == map[] && s.slot && s.releasing == {1}
    ensures Play(s, CommittedRetry()) == s.(job := Some(Retried(s.job.value)), left := s.left + 1)
  {
    RetryAlone(s, 2, true, false, true);
  }

  lemma {:induction false} PlayOne(s: State, step: Step)
    ensures Play(s, [step]) == Next(s, step)
  {
    assert [step][1..] == [];
    assert Play(s, [step]) == Play(Next(s, step), []);
  }

  /** Two operators are enough: the first retry fails, the second commits, and the first's
      release takes the slot of the committed one. */
  lemma {:induction false} LateReleaseDropsSlot(s0: State)
    requires Initial(s0) && IsDead(s0) && s0.releasing == {}
    ensures Stranded(Play(s0, FailedRetry() + (CommittedRetry() + [Release(1, true)])))
  {
    RetryFails(s0);
    var s := Play(s0, FailedRetry());
    RetryCommits(s);
    PlayOne(Play(s, CommittedRetry()), Release(1, true));
    PlaySplits(s, CommittedRetry(), [Release(1, true)]);
    PlaySplits(s0, FailedRetry(), CommittedRetry() + [Release(1, true)]);
  }

  /** So is one, if the job is retried before the worker that gave it up releases its slot. */
  lemma {:induction false} WorkerReleaseDropsSlot(s0: State)
    requires Initial(s0) && Live(s0) && s0.slot && s0.releasing == {}
    ensures Stranded(Play(s0, [DeadLetter(1)] + (CommittedRetry() + [Release(1, true)])))
  {
    PlayOne(s0, DeadLetter(1));
    var s := Next(s0, DeadLetter(1));
    RetryCommits(s);
    PlayOne(Play(s, CommittedRetry()), Release(1, true));
    PlaySplits(s, CommittedRetry(), [Release(1, true)]);
    PlaySplits(s0, [DeadLetter(1)], CommittedRetry() + [Release(1, true)]);
  }
}
