/** The per-user cache. In legacy mode every entry has its own key and invalidation scans and
    deletes; in generation mode keys carry a per-user generation and invalidation bumps it.
    Both keep the same simple map. */
module Cache {
  import opened Wrappers
  import opened Sequences

  type User = string
  type Context = string
  type MemoryId = string
  type Payload = string

  /** What a caller can name: a user's hot list, one retrieval result, one hot-tier memory. */
  datatype Slot = HotList | Results(context: Context) | Tier(memory: MemoryId)

  datatype Place = Place(user: User, slot: Slot)

  /** The simple map both modes implement. */
  type Shelf = map<Place, Payload>

  function Fetch<K, V>(m: map<K, V>, k: K): Option<V> {
    if k in m then Some(m[k]) else None
  }

  function Without(shelf: Shelf, user: User): (r: Shelf)
    ensures forall p :: p in r <==> p in shelf && p.user != user
    ensures forall p :: p in r ==> r[p] == shelf[p]
  {
    map p | p in shelf && p.user != user :: shelf[p]
  }

  /** `memories` are the payloads of the user's hot tier, those of `ids`, each id once. */
  ghost predicate ListsTier(shelf: Shelf, user: User, ids: seq<MemoryId>, memories: seq<Payload>) {
    && Distinct(ids) && |ids| == |memories|
    && (forall m :: m in ids <==> Place(user, Tier(m)) in shelf)
    && (forall i :: 0 <= i < |ids| ==> Fetch(shelf, Place(user, Tier(ids[i]))) == Some(memories[i]))
  }

  // ----- what histories of operations leave on the shelf -----

  datatype Operation = Put(place: Place, payload: Payload) | Invalidate(user: User)

  function After(shelf: Shelf, ops: seq<Operation>): Shelf {
    if ops == [] then shelf
    else
      var before, op := After(shelf, ops[..|ops| - 1]), ops[|ops| - 1];
      match op
      case Put(place, payload) => before[place := payload]
      case Invalidate(user) => Without(before, user)
  }

  /** The operation `k` is the last one to matter to `place`: it sets it, and nothing later
      sets it or invalidates its user. */
  predicate LastSetBy(ops: seq<Operation>, place: Place, k: nat) {
    && k < |ops| && ops[k].Put? && ops[k].place == place
    && forall j :: k < j < |ops| ==> ops[j] != Invalidate(place.user) && (ops[j].Put? ==> ops[j].place != place)
  }

  /** A read finds exactly the last value set since the last invalidation of that user. */
  lemma {:induction false} ShelfHoldsLastSet(ops: seq<Operation>, place: Place)
    ensures place in After(map[], ops) <==> exists k: nat :: LastSetBy(ops, place, k)
    ensures forall k: nat :: LastSetBy(ops, place, k) ==>
      place in After(map[], ops) && After(map[], ops)[place] == ops[k].payload
    decreases |ops|
  {
    if ops != [] {
      var n, front := |ops| - 1, ops[..|ops| - 1];
      ShelfHoldsLastSet(front, place);
      if ops[n].Put? && ops[n].place == place {
        assert LastSetBy(ops, place, n);
        assert forall k: nat :: LastSetBy(ops, place, k) ==> k == n;
      } else if ops[n] != Invalidate(place.user) {
        forall k: nat ensures LastSetBy(ops, place, k) <==> LastSetBy(front, place, k) {
          if LastSetBy(front, place, k) {
            assert forall j :: k < j < n ==> ops[j] == front[j];
          }
          if LastSetBy(ops, place, k) {
            assert forall j :: k < j < n ==> ops[j] == front[j];
          }
        }
      } else {
        forall k: nat ensures !LastSetBy(ops, place, k) {
          assert ops[n] == Invalidate(place.user);
        }
      }
    }
  }

  /** Operations of other users change nothing of a user's. */
  lemma {:induction false} OtherUsersAreUntouched(shelf: Shelf, ops: seq<Operation>, place: Place)
    requires forall k :: 0 <= k < |ops| ==> (if ops[k].Put? then ops[k].place.user else ops[k].user) != place.user
    ensures Fetch(After(shelf, ops), place) == Fetch(shelf, place)
    decreases |ops|
  {
    if ops != [] {
      OtherUsersAreUntouched(shelf, ops[..|ops| - 1], place);
    }
  }

  // ----- the two key schemes -----

  datatype Key =
    | LegacyKey(user: User, slot: Slot)
    | GenerationKey(user: User, generation: nat, slot: Slot)

  datatype Pattern = RetrievalsOf(user: User) | TierOf(user: User)

  predicate Matches(pattern: Pattern, key: Key) {
    && key.LegacyKey? && key.user == pattern.user
    && (if pattern.RetrievalsOf? then key.slot.Results? else key.slot.Tier?)
  }

  datatype Stored = Done | InvalidTtl

  class CacheService {
    const generationInvalidation: bool
    /** String keys. In generation mode the hot tier is a hash instead, one per generation. */
    var texts: map<Key, Payload>
    var counters: map<User, nat>
    var hashes: map<(User, nat), map<MemoryId, Payload>>

    ghost var shelf: Shelf

    constructor (generationInvalidation: bool)
      ensures this.generationInvalidation == generationInvalidation
      ensures Valid() && shelf == map[]
    {
      this.generationInvalidation := generationInvalidation;
      texts, counters, hashes, shelf := map[], map[], map[], map[];
    }

    function Generation(user: User): nat
      reads this
    {
      if user in counters then counters[user] else 0
    }

    /** Where a place's value is kept now. */
    function Lookup(place: Place): Option<Payload>
      reads this
    {
      if !generationInvalidation then Fetch(texts, LegacyKey(place.user, place.slot))
      else
        var g := Generation(place.user);
        if place.slot.Tier?
        then if (place.user, g) in hashes then Fetch(hashes[(place.user, g)], place.slot.memory) else None
        else Fetch(texts, GenerationKey(place.user, g, place.slot))
    }

    ghost predicate Valid()
      reads this
    {
      && (forall place :: Lookup(place) == Fetch(shelf, place))
      && (forall key :: key in texts && key.GenerationKey? ==> key.generation <= Generation(key.user))
      && (forall k :: k in hashes ==> k.1 <= Generation(k.0))
    }

    function SlotKey(place: Place): Key
      reads this
    {
      if generationInvalidation then GenerationKey(place.user, Generation(place.user), place.slot)
      else LegacyKey(place.user, place.slot)
    }

    /** `get_hot_memories` and `get_retrieval_results`. */
    method Get(place: Place) returns (r: Option<Payload>)
      requires Valid() && !place.slot.Tier?
      ensures r == Fetch(shelf, place)
    {
      var key := SlotKey(place);
      assert Lookup(place) == Fetch(texts, key);
      if key !in texts {
        return None;
      }
      r := Some(texts[key]);
    }

    /** `set_hot_memories` and `set_retrieval_results`. */
    method Set(place: Place, payload: Payload, ttl: int) returns (r: Stored)
      requires Valid() && !place.slot.Tier?
      modifies this
      ensures Valid()
      ensures r == if ttl <= 0 then InvalidTtl else Done
      ensures shelf == if ttl <= 0 then old(shelf) else old(shelf)[place := payload]
    {
      if ttl <= 0 {
        return InvalidTtl;
      }
      texts := texts[SlotKey(place) := payload];
      shelf := shelf[place := payload];
      r := Done;
      forall p ensures Lookup(p) == Fetch(shelf, p) {
        assert old(Lookup(p)) == Fetch(old(shelf), p);
      }
    }

    method SetHotTierMemory(user: User, memory: MemoryId, payload: Payload, ttl: int) returns (r: Stored)
      requires Valid()
      modifies this
      ensures Valid()
      ensures r == if ttl <= 0 then InvalidTtl else Done
      ensures shelf == if ttl <= 0 then old(shelf) else old(shelf)[Place(user, Tier(memory)) := payload]
    {
      if ttl <= 0 {
        return InvalidTtl;
      }
      if generationInvalidation {
        var name := (user, Generation(user));
        var fields := if name in hashes then hashes[name] else map[];
        hashes := hashes[name := fields[memory := payload]];
      } else {
        texts := texts[LegacyKey(user, Tier(memory)) := payload];
      }
      shelf := shelf[Place(user, Tier(memory)) := payload];
      r := Done;
      forall p ensures Lookup(p) == Fetch(shelf, p) {
        assert old(Lookup(p)) == Fetch(old(shelf), p);
      }
    }

    /** The user's hot-tier memories, as the scan or the hash holds them. */
    function HeldTier(user: User): map<MemoryId, Payload>
      reads this
    {
      var name := (user, Generation(user));
      if generationInvalidation then if name in hashes then hashes[name] else map[]
      else
        var keys := set key | key in texts && Matches(TierOf(user), key);
        map m | m in (set key | key in keys :: key.slot.memory) && LegacyKey(user, Tier(m)) in texts ::
          texts[LegacyKey(user, Tier(m))]
    }

    lemma {:induction false} HeldTierIsShelf(user: User)
      requires Valid()
      ensures forall m :: Fetch(HeldTier(user), m) == Fetch(shelf, Place(user, Tier(m)))
    {
      forall m ensures Fetch(HeldTier(user), m) == Fetch(shelf, Place(user, Tier(m))) {
        assert Lookup(Place(user, Tier(m))) == Fetch(shelf, Place(user, Tier(m)));
        var key := LegacyKey(user, Tier(m));
        if !generationInvalidation && key in texts {
          assert Matches(TierOf(user), key) && key.slot.memory == m;
        }
      }
    }

    /** Every hot-tier memory of the user once, in the store's order. */
    method GetHotTierMemories(user: User) returns (memories: seq<Payload>)
      requires Valid()
      ensures exists ids :: ListsTier(shelf, user, ids, memories)
    {
      memories := [];
      ghost var ids: seq<MemoryId> := [];
      var held := HeldTier(user);
      var pending := held.Keys;
      while pending != {}
        invariant pending <= held.Keys && Distinct(ids) && |ids| == |memories|
        invariant forall m :: m in ids <==> m in held && m !in pending
        invariant forall i :: 0 <= i < |ids| ==> Fetch(held, ids[i]) == Some(memories[i])
        decreases |pending|
      {
        var m :| m in pending;
        pending := pending - {m};
        memories, ids := memories + [held[m]], ids + [m];
      }
      HeldTierIsShelf(user);
      forall m ensures m in ids <==> Place(user, Tier(m)) in shelf {
        assert Fetch(held, m) == Fetch(shelf, Place(user, Tier(m)));
      }
      assert ListsTier(shelf, user, ids, memories);
    }

    method Delete(keys: seq<Key>)
      modifies this`texts
      ensures forall k :: k in texts <==> k in old(texts) && k !in keys
      ensures forall k :: k in texts ==> texts[k] == old(texts)[k]
    {
      texts := map k | k in texts && k !in keys :: texts[k];
    }

    /** Scan for a pattern, deleting a hundred keys at a time. The scan yields every key
        present at its start exactly once, in any order. */
    method DeleteMatching(pattern: Pattern)
      modifies this`texts
      ensures forall k :: k in texts <==> k in old(texts) && !Matches(pattern, k)
      ensures forall k :: k in texts ==> texts[k] == old(texts)[k]
    {
      var unseen := set k | k in texts && Matches(pattern, k);
      var keys: seq<Key> := [];
      while unseen != {}
        invariant |keys| < 100 && forall k :: k in keys ==> k !in unseen
        invariant forall k :: k in unseen || k in keys ==> k in old(texts) && Matches(pattern, k)
        invariant forall k :: k in texts <==> k in old(texts) && (Matches(pattern, k) ==> k in unseen || k in keys)
        invariant forall k :: k in texts ==> texts[k] == old(texts)[k]
        decreases |unseen|
      {
        var key :| key in unseen;
        unseen := unseen - {key};
        keys := keys + [key];
        if |keys| == 100 {
          Delete(keys);
          keys := [];
        }
      }
      if keys != [] {
        Delete(keys);
      }
    }

    method InvalidateUserCache(user: User)
      requires Valid()
      modifies this
      ensures Valid() && shelf == Without(old(shelf), user)
    {
      if generationInvalidation {
        counters := counters[user := Generation(user) + 1];
      } else {
        Delete([LegacyKey(user, HotList)]);
        DeleteMatching(RetrievalsOf(user));
        DeleteMatching(TierOf(user));
      }
      shelf := Without(shelf, user);
      forall p ensures Lookup(p) == Fetch(shelf, p) {
        assert old(Lookup(p)) == Fetch(old(shelf), p);
      }
    }
  }
}
