/** Generation mode under concurrency: sets and gets first read the user's generation and
    touch the entry later; invalidations, expiries and other requests interleave freely. */
module CacheProtocol {
  import opened Wrappers
  import opened Cache

  type Request = nat

  /** `readAt` is the position, in the run, of the step at which the set read its generation. */
  datatype Entry = Entry(payload: Payload, readAt: nat)

  datatype Want = One(slot: Slot) | WholeTier

  predicate Asks(want: Want, slot: Slot) {
    if want.One? then slot == want.slot else slot.Tier?
  }

  datatype PendingSet = PendingSet(place: Place, payload: Payload, generation: nat, readAt: nat)
  datatype PendingGet = PendingGet(user: User, want: Want, generation: nat, startedAt: nat)

  datatype State = State(
    generations: map<User, nat>,
    entries: map<(User, nat, Slot), Entry>,
    sets: map<Request, PendingSet>,
    gets: map<Request, PendingGet>)

  const EMPTY := State(map[], map[], map[], map[])

  datatype Step =
    | SetReads(r: Request, place: Place, payload: Payload)
    | SetWrites(r: Request)
    | GetReads(r: Request, user: User, want: Want)
    | GetTouches(r: Request)
    | Invalidates(user: User)
    | Expires(key: (User, nat, Slot))

  function GenerationOf(s: State, user: User): nat {
    if user in s.generations then s.generations[user] else 0
  }

  /** `now` is the step's position in the run. */
  function Next(s: State, step: Step, now: nat): State {
    match step
    case SetReads(r, place, payload) =>
      s.(sets := s.sets[r := PendingSet(place, payload, GenerationOf(s, place.user), now)])
    case SetWrites(r) =>
      if r !in s.sets then s
      else
        var p := s.sets[r];
        s.(entries := s.entries[(p.place.user, p.generation, p.place.slot) := Entry(p.payload, p.readAt)],
           sets := s.sets - {r})
    case GetReads(r, user, want) =>
      s.(gets := s.gets[r := PendingGet(user, want, GenerationOf(s, user), now)])
    case GetTouches(r) => s.(gets := s.gets - {r})
    case Invalidates(user) => s.(generations := s.generations[user := GenerationOf(s, user) + 1])
    case Expires(key) => s.(entries := s.entries - {key})
  }

  /** All states of a run, the last one current: `states[i]` is the state before step `i`. */
  function States(steps: seq<Step>): (states: seq<State>)
    ensures |states| == |steps| + 1
  {
    if steps == [] then [EMPTY]
    else
      var front := States(steps[..|steps| - 1]);
      front + [Next(front[|front| - 1], steps[|steps| - 1], |steps| - 1)]
  }

  /** `states` are the states of the run `steps`. */
  predicate Follows(states: seq<State>, steps: seq<Step>) {
    && |states| == |steps| + 1 && states[0] == EMPTY
    && forall i :: 0 <= i < |steps| ==> states[i + 1] == Next(states[i], steps[i], i)
  }

  lemma {:induction false} StatesFollow(steps: seq<Step>)
    ensures Follows(States(steps), steps)
  {
    if steps != [] {
      StatesFollow(steps[..|steps| - 1]);
      var front, all := States(steps[..|steps| - 1]), States(steps);
      forall i | 0 <= i < |steps| ensures all[i + 1] == Next(all[i], steps[i], i) {
        assert all[i] == front[i];
        assert i < |steps| - 1 ==> all[i + 1] == front[i + 1] && steps[..|steps| - 1][i] == steps[i];
      }
    }
  }

  /** What a pending get finds when it touches the store. */
  function Answer(s: State, get: PendingGet): set<Entry> {
    set key | key in s.entries && key.0 == get.user && key.1 == get.generation && Asks(get.want, key.2) :: s.entries[key]
  }

  /** The invalidations of a user among steps `i` to `j`. */
  function Invalidations(steps: seq<Step>, user: User, i: nat, j: nat): nat
    requires i <= j <= |steps|
    decreases j
  {
    if i == j then 0 else Invalidations(steps, user, i, j - 1) + if steps[j - 1] == Invalidates(user) then 1 else 0
  }

  /** A user's generation counts its invalidations. */
  lemma {:induction false} GenerationsCount(states: seq<State>, steps: seq<Step>, user: User, i: nat, j: nat)
    requires Follows(states, steps) && i <= j <= |steps|
    ensures GenerationOf(states[j], user) == GenerationOf(states[i], user) + Invalidations(steps, user, i, j)
    decreases j
  {
    if i < j {
      GenerationsCount(states, steps, user, i, j - 1);
      assert states[j - 1 + 1] == Next(states[j - 1], steps[j - 1], j - 1);
    }
  }

  lemma {:induction false} InvalidationIsCounted(steps: seq<Step>, user: User, i: nat, j: nat, k: nat)
    requires i <= k < j <= |steps| && steps[k] == Invalidates(user)
    ensures Invalidations(steps, user, i, j) > 0
    decreases j
  {
    if k < j - 1 {
      InvalidationIsCounted(steps, user, i, j - 1, k);
    }
  }

  /** So they only grow, and every invalidation makes a new one: none is ever reused. */
  lemma {:induction false} GenerationsGrow(states: seq<State>, steps: seq<Step>, user: User, i: nat, j: nat)
    requires Follows(states, steps) && i <= j <= |steps|
    ensures GenerationOf(states[i], user) <= GenerationOf(states[j], user)
    ensures (exists k :: i <= k < j && steps[k] == Invalidates(user)) ==>
      GenerationOf(states[i], user) < GenerationOf(states[j], user)
  {
    GenerationsCount(states, steps, user, i, j);
    if k :| i <= k < j && steps[k] == Invalidates(user) {
      InvalidationIsCounted(steps, user, i, j, k);
    }
  }

  /** `g` is the generation that the user had in state `at`. */
  predicate ReadThen(states: seq<State>, user: User, g: nat, at: nat) {
    at < |states| && g == GenerationOf(states[at], user)
  }

  /** Every pending or stored generation is the one its request read, when it read it. */
  ghost predicate Faithful(states: seq<State>, s: State) {
    && (forall r :: r in s.sets ==> ReadThen(states, s.sets[r].place.user, s.sets[r].generation, s.sets[r].readAt))
    && (forall r :: r in s.gets ==> ReadThen(states, s.gets[r].user, s.gets[r].generation, s.gets[r].startedAt))
    && (forall key :: key in s.entries ==> ReadThen(states, key.0, key.1, s.entries[key].readAt))
  }

  lemma {:induction false} NextIsFaithful(states: seq<State>, step: Step, n: nat)
    requires n < |states| && Faithful(states, states[n])
    ensures Faithful(states, Next(states[n], step, n))
  {
    var s := states[n];
    match step
    case SetReads(r, place, payload) =>
      assert ReadThen(states, place.user, GenerationOf(s, place.user), n);
    case GetReads(r, user, want) =>
      assert ReadThen(states, user, GenerationOf(s, user), n);
    case SetWrites(r) =>
    case GetTouches(r) =>
    case Invalidates(user) =>
    case Expires(key) =>
  }

  lemma {:induction false} RunsAreFaithful(states: seq<State>, steps: seq<Step>, n: nat)
    requires Follows(states, steps) && n <= |steps|
    ensures Faithful(states, states[n])
  {
    if n > 0 {
      RunsAreFaithful(states, steps, n - 1);
      NextIsFaithful(states, steps[n - 1], n - 1);
      assert states[n - 1 + 1] == Next(states[n - 1], steps[n - 1], n - 1);
    }
  }

  /** Under every interleaving, a get that starts after an invalidation has finished never
      returns a value whose set read its generation before that invalidation. */
  lemma {:induction false} NoStaleRead(steps: seq<Step>, n: nat, r: Request, invalidated: nat)
    requires n < |steps| && steps[n] == GetTouches(r) && r in States(steps)[n].gets
    requires invalidated < States(steps)[n].gets[r].startedAt && invalidated < n
    requires steps[invalidated] == Invalidates(States(steps)[n].gets[r].user)
    ensures forall e :: e in Answer(States(steps)[n], States(steps)[n].gets[r]) ==> e.readAt > invalidated
  {
    var states := States(steps);
    StatesFollow(steps);
    RunsAreFaithful(states, steps, n);
    var s := states[n];
    var get := s.gets[r];
    forall e | e in Answer(s, get) ensures e.readAt > invalidated {
      var key :| key in s.entries && key.0 == get.user && key.1 == get.generation && s.entries[key] == e;
      if e.readAt <= invalidated {
        assert ReadThen(states, get.user, get.generation, get.startedAt);
        assert ReadThen(states, key.0, key.1, e.readAt);
        GenerationsGrow(states, steps, get.user, e.readAt, get.startedAt);
      }
    }
  }

  predicate NoInvalidation(steps: seq<Step>, user: User, i: nat, j: nat)
    requires i <= |steps| && j <= |steps|
  {
    forall k :: i <= k < j ==> steps[k] != Invalidates(user)
  }

  /** A get does see a stored value when no invalidation of the user lies between the two
      generation reads, in either order: the protocol forgets nothing it need not. */
  lemma {:induction false} FreshReadIsServed(steps: seq<Step>, n: nat, r: Request, key: (User, nat, Slot))
    requires n <= |steps| && r in States(steps)[n].gets && key in States(steps)[n].entries
    requires key.0 == States(steps)[n].gets[r].user && Asks(States(steps)[n].gets[r].want, key.2)
    requires var a, b := States(steps)[n].entries[key].readAt, States(steps)[n].gets[r].startedAt;
      && a <= |steps| && b <= |steps|
      && NoInvalidation(steps, key.0, a, b) && NoInvalidation(steps, key.0, b, a)
    ensures States(steps)[n].entries[key] in Answer(States(steps)[n], States(steps)[n].gets[r])
  {
    var states := States(steps);
    StatesFollow(steps);
    RunsAreFaithful(states, steps, n);
    var a, b := states[n].entries[key].readAt, states[n].gets[r].startedAt;
    assert ReadThen(states, key.0, key.1, a);
    if a <= b {
      SameGeneration(states, steps, key.0, a, b);
    } else {
      SameGeneration(states, steps, key.0, b, a);
    }
  }

  lemma {:induction false} SameGeneration(states: seq<State>, steps: seq<Step>, user: User, i: nat, j: nat)
    requires Follows(states, steps) && i <= j <= |steps| && NoInvalidation(steps, user, i, j)
    ensures GenerationOf(states[i], user) == GenerationOf(states[j], user)
    decreases j
  {
    if i < j {
      SameGeneration(states, steps, user, i, j - 1);
      assert states[j - 1 + 1] == Next(states[j - 1], steps[j - 1], j - 1);
    }
  }

  // ----- what a set stores, and where -----

  predicate SetSource(steps: seq<Step>, n: nat, r: Request, p: PendingSet) {
    p.readAt < n <= |steps| && steps[p.readAt] == SetReads(r, p.place, p.payload)
  }

  predicate GetSource(steps: seq<Step>, n: nat, r: Request, g: PendingGet) {
    g.startedAt < n <= |steps| && steps[g.startedAt] == GetReads(r, g.user, g.want)
  }

  predicate EntrySource(steps: seq<Step>, n: nat, key: (User, nat, Slot), e: Entry) {
    && e.readAt < n <= |steps| && steps[e.readAt].SetReads?
    && steps[e.readAt].place == Place(key.0, key.2) && steps[e.readAt].payload == e.payload
  }

  /** What is pending was asked for by the step it names. */
  ghost predicate SetsSourced(s: State, steps: seq<Step>, n: nat) {
    forall r :: r in s.sets ==> SetSource(steps, n, r, s.sets[r])
  }

  ghost predicate GetsSourced(s: State, steps: seq<Step>, n: nat) {
    forall r :: r in s.gets ==> GetSource(steps, n, r, s.gets[r])
  }

  /** What is stored was set to its user and slot by the step it names. */
  ghost predicate StoreSourced(s: State, steps: seq<Step>, n: nat) {
    forall key :: key in s.entries ==> EntrySource(steps, n, key, s.entries[key])
  }

  lemma {:induction false} NextSetsAreSourced(s: State, steps: seq<Step>, n: nat)
    requires n < |steps| && SetsSourced(s, steps, n)
    ensures SetsSourced(Next(s, steps[n], n), steps, n + 1)
  {
    var next := Next(s, steps[n], n);
    forall r | r in next.sets ensures SetSource(steps, n + 1, r, next.sets[r]) {
      assert r in s.sets && next.sets[r] == s.sets[r] ==> SetSource(steps, n, r, s.sets[r]);
    }
  }

  lemma {:induction false} NextGetsAreSourced(s: State, steps: seq<Step>, n: nat)
    requires n < |steps| && GetsSourced(s, steps, n)
    ensures GetsSourced(Next(s, steps[n], n), steps, n + 1)
  {
    var next := Next(s, steps[n], n);
    forall r | r in next.gets ensures GetSource(steps, n + 1, r, next.gets[r]) {
      assert r in s.gets && next.gets[r] == s.gets[r] ==> GetSource(steps, n, r, s.gets[r]);
    }
  }

  lemma {:induction false} NextStoreIsSourced(s: State, steps: seq<Step>, n: nat)
    requires n < |steps| && SetsSourced(s, steps, n) && StoreSourced(s, steps, n)
    ensures StoreSourced(Next(s, steps[n], n), steps, n + 1)
  {
    var next := Next(s, steps[n], n);
    forall key | key in next.entries ensures EntrySource(steps, n + 1, key, next.entries[key]) {
      if key in s.entries && next.entries[key] == s.entries[key] {
        assert EntrySource(steps, n, key, s.entries[key]);
      } else {
        var r := steps[n].r;
        assert SetSource(steps, n, r, s.sets[r]);
      }
    }
  }

  ghost predicate Sourced(s: State, steps: seq<Step>, n: nat) {
    SetsSourced(s, steps, n) && GetsSourced(s, steps, n) && StoreSourced(s, steps, n)
  }

  lemma {:induction false} NextIsSourced(s: State, steps: seq<Step>, n: nat)
    requires n < |steps| && Sourced(s, steps, n)
    ensures Sourced(Next(s, steps[n], n), steps, n + 1)
  {
    NextSetsAreSourced(s, steps, n);
    NextGetsAreSourced(s, steps, n);
    NextStoreIsSourced(s, steps, n);
  }

  lemma {:induction false} StartIsSourced(steps: seq<Step>)
    ensures Sourced(EMPTY, steps, 0)
  {
  }

  lemma {:induction false} RunsAreSourced(states: seq<State>, steps: seq<Step>, n: nat)
    requires Follows(states, steps) && n <= |steps|
    ensures Sourced(states[n], steps, n)
  {
    if n == 0 {
      StartIsSourced(steps);
    } else {
      RunsAreSourced(states, steps, n - 1);
      NextIsSourced(states[n - 1], steps, n - 1);
      assert states[n - 1 + 1] == Next(states[n - 1], steps[n - 1], n - 1);
    }
  }

  /** Everything a get finds was set, with that payload, by a request for that user and for the
      very slot the get asks for, or for some hot-tier memory where it asks for the whole tier. */
  lemma {:induction false} AnswersWereSet(steps: seq<Step>, n: nat, q: Request)
    requires n <= |steps| && q in States(steps)[n].gets
    ensures var get := States(steps)[n].gets[q];
      forall e :: e in Answer(States(steps)[n], get) ==>
        && e.readAt < n && steps[e.readAt].SetReads? && steps[e.readAt].payload == e.payload
        && steps[e.readAt].place.user == get.user
        && (get.want.One? ==> steps[e.readAt].place.slot == get.want.slot)
        && (get.want.WholeTier? ==> steps[e.readAt].place.slot.Tier?)
  {
    StatesFollow(steps);
    RunsAreSourced(States(steps), steps, n);
    var s := States(steps)[n];
    var get := s.gets[q];
    forall e | e in Answer(s, get) ensures exists key :: EntrySource(steps, n, key, e) && key.0 == get.user && Asks(get.want, key.2) {
      var key :| key in s.entries && key.0 == get.user && key.1 == get.generation && Asks(get.want, key.2) && s.entries[key] == e;
      assert EntrySource(steps, n, key, e);
    }
  }

  /** Set `r` read its generation at step `a` and writes at step `w`. */
  predicate SetRuns(steps: seq<Step>, r: Request, place: Place, payload: Payload, a: nat, w: nat) {
    && a < w < |steps| && steps[a] == SetReads(r, place, payload) && steps[w] == SetWrites(r)
    && forall j :: a < j < w ==> steps[j] != SetWrites(r) && !(steps[j].SetReads? && steps[j].r == r)
  }

  /** Get `q` read its generation at step `b` and touches the store at step `n`. */
  predicate GetRuns(steps: seq<Step>, q: Request, user: User, want: Want, b: nat, n: nat) {
    && b < n < |steps| && steps[b] == GetReads(q, user, want) && steps[n] == GetTouches(q)
    && forall j :: b < j < n ==> steps[j] != GetTouches(q) && !(steps[j].GetReads? && steps[j].r == q)
  }

  /** The step neither lets the entry expire nor writes it. */
  predicate Spares(s: State, step: Step, key: (User, nat, Slot)) {
    && step != Expires(key)
    && (step.SetWrites? && step.r in s.sets ==>
          (s.sets[step.r].place.user, s.sets[step.r].generation, s.sets[step.r].place.slot) != key)
  }

  predicate Undisturbed(states: seq<State>, steps: seq<Step>, key: (User, nat, Slot), w: nat, n: nat)
    requires |states| > |steps| && n <= |steps|
  {
    forall j :: w < j < n ==> Spares(states[j], steps[j], key)
  }

  lemma {:induction false} SetStaysPending(states: seq<State>, steps: seq<Step>, r: Request, place: Place, payload: Payload, a: nat, w: nat, j: nat)
    requires Follows(states, steps) && SetRuns(steps, r, place, payload, a, w) && a < j <= w
    ensures r in states[j].sets && states[j].sets[r] == PendingSet(place, payload, GenerationOf(states[a], place.user), a)
    decreases j
  {
    assert states[j - 1 + 1] == Next(states[j - 1], steps[j - 1], j - 1);
    if j > a + 1 {
      SetStaysPending(states, steps, r, place, payload, a, w, j - 1);
    }
  }

  lemma {:induction false} GetStaysPending(states: seq<State>, steps: seq<Step>, q: Request, user: User, want: Want, b: nat, n: nat, j: nat)
    requires Follows(states, steps) && GetRuns(steps, q, user, want, b, n) && b < j <= n
    ensures q in states[j].gets && states[j].gets[q] == PendingGet(user, want, GenerationOf(states[b], user), b)
    decreases j
  {
    assert states[j - 1 + 1] == Next(states[j - 1], steps[j - 1], j - 1);
    if j > b + 1 {
      GetStaysPending(states, steps, q, user, want, b, n, j - 1);
    }
  }

  lemma {:induction false} EntryStays(states: seq<State>, steps: seq<Step>, key: (User, nat, Slot), e: Entry, w: nat, n: nat)
    requires Follows(states, steps) && w < n <= |steps| && Undisturbed(states, steps, key, w, n)
    requires key in states[w + 1].entries && states[w + 1].entries[key] == e
    ensures key in states[n].entries && states[n].entries[key] == e
    decreases n
  {
    if n > w + 1 {
      EntryStays(states, steps, key, e, w, n - 1);
      assert states[n - 1 + 1] == Next(states[n - 1], steps[n - 1], n - 1);
      assert Spares(states[n - 1], steps[n - 1], key);
    }
  }

  /** From the write of a set on, until its key expires or is written again, a get of that slot,
      or of the whole tier it belongs to, that read the same generation finds its payload; and a
      get of the slot alone finds nothing else. */
  lemma {:induction false} SetIsFound(steps: seq<Step>, r: Request, place: Place, payload: Payload, a: nat, w: nat, q: Request, want: Want, b: nat, n: nat)
    requires SetRuns(steps, r, place, payload, a, w) && GetRuns(steps, q, place.user, want, b, n) && w < n
    requires want == One(place.slot) || (want == WholeTier && place.slot.Tier?)
    requires var states := States(steps);
      var g := GenerationOf(states[a], place.user);
      && GenerationOf(states[b], place.user) == g
      && Undisturbed(states, steps, (place.user, g, place.slot), w, n)
    ensures q in States(steps)[n].gets
    ensures var found := Answer(States(steps)[n], States(steps)[n].gets[q]);
      Entry(payload, a) in found && (want.One? ==> found == {Entry(payload, a)})
  {
    var states := States(steps);
    StatesFollow(steps);
    var key := (place.user, GenerationOf(states[a], place.user), place.slot);
    SetStaysPending(states, steps, r, place, payload, a, w, w);
    assert states[w + 1] == Next(states[w], steps[w], w);
    EntryStays(states, steps, key, Entry(payload, a), w, n);
    GetStaysPending(states, steps, q, place.user, want, b, n, n);
    FoundAt(states[n], states[n].gets[q], key);
  }

  lemma {:induction false} FoundAt(s: State, get: PendingGet, key: (User, nat, Slot))
    requires key in s.entries && key.0 == get.user && key.1 == get.generation && Asks(get.want, key.2)
    ensures s.entries[key] in Answer(s, get) && (get.want.One? ==> Answer(s, get) == {s.entries[key]})
  {
    if get.want.One? {
      assert forall k :: k in s.entries && k.0 == get.user && k.1 == get.generation && Asks(get.want, k.2) <==> k == key;
    }
  }

  /** The same request does not read between steps `i` and `j`. */
  predicate NoRead(steps: seq<Step>, r: Request, i: nat, j: nat)
    requires j <= |steps|
  {
    forall k :: i < k < j ==> !(steps[k].SetReads? && steps[k].r == r)
  }

  lemma {:induction false} WrittenIsNotPending(states: seq<State>, steps: seq<Step>, r: Request, i: nat, j: nat)
    requires Follows(states, steps) && i < j <= |steps| && steps[i] == SetWrites(r) && NoRead(steps, r, i, j)
    ensures r !in states[j].sets
    decreases j
  {
    assert states[j - 1 + 1] == Next(states[j - 1], steps[j - 1], j - 1);
    if j > i + 1 {
      WrittenIsNotPending(states, steps, r, i, j - 1);
    }
  }

  /** A set writes once: its write a second time changes nothing. */
  lemma {:induction false} SetWritesOnce(steps: seq<Step>, r: Request, i: nat, j: nat)
    requires i < j < |steps| && steps[i] == SetWrites(r) && steps[j] == SetWrites(r) && NoRead(steps, r, i, j)
    ensures States(steps)[j + 1] == States(steps)[j]
  {
    StatesFollow(steps);
    WrittenIsNotPending(States(steps), steps, r, i, j);
    assert States(steps)[j + 1] == Next(States(steps)[j], steps[j], j);
  }
}
