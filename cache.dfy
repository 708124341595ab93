/**
 * `FunkosCacheImpl`: the server's cache of funkos by code. The map is updated in place,
 * so it is a class whose fields are the `LinkedHashMap`'s mapping and entry list; each
 * method is specified by the corresponding function of `Lru`.
 */
module FunkosCache {
  import opened Wrappers
  import opened Models
  import Seqs
  import Lru

  class FunkosCacheImpl {
    /** The key-to-value mapping of the `LinkedHashMap`. */
    var entries: map<Uuid, Funko>
    /** Its entry list in access order, eldest first. */
    var order: seq<Uuid>

    /** The abstract state the `Lru` functions speak about. */
    function State(): Lru.LruState
      reads this
    {
      Lru.LruState(entries, order)
    }

    /** The class invariant: at most `CACHE_SIZE` entries, each listed once. */
    predicate Valid()
      reads this
    {
      Lru.WellFormed(State())
    }

    /** A new cache is empty. */
    constructor()
      ensures Valid() && State() == Lru.Empty
    {
      entries := map[];
      order := [];
    }

    /**
     * `put(id, value)`: replace and access an existing entry, or append a new one and
     * then apply `removeEldestEntry`.
     */
    method Put(id: Uuid, value: Funko)
      requires Valid()
      modifies this
      ensures Valid()
      ensures State() == Lru.Put(old(State()), id, value)
    {
      Lru.PutWellFormed(State(), id, value);
      if id in entries {
        entries := entries[id := value];
        order := Seqs.Without(order, id) + [id];
      } else {
        entries := entries[id := value];
        order := order + [id];
        if |entries| > Lru.CACHE_SIZE {
          var eldest := order[0];
          entries := entries - {eldest};
          order := order[1..];
        }
      }
    }

    /** `get(id)`: the cached funko, or `None` for `null`; a hit becomes the most recently used. */
    method Get(id: Uuid) returns (r: Option<Funko>)
      requires Valid()
      modifies this
      ensures Valid()
      ensures r == Lru.Lookup(old(State()), id)
      ensures State() == Lru.Touch(old(State()), id)
    {
      Lru.TouchMovesToTail(State(), id);
      if id in entries {
        r := Some(entries[id]);
        order := Seqs.Without(order, id) + [id];
      } else {
        r := None;
      }
    }

    /** `remove(id)`. */
    method Remove(id: Uuid)
      requires Valid()
      modifies this
      ensures Valid()
      ensures State() == Lru.Remove(old(State()), id)
    {
      Lru.RemoveWellFormed(State(), id);
      entries := entries - {id};
      order := Seqs.Without(order, id);
    }

    /** `clear()`. */
    method Clear()
      modifies this
      ensures Valid()
      ensures State() == Lru.Clear(old(State()))
    {
      entries := map[];
      order := [];
    }

    /** `size()`: the number of cached funkos, never more than `CACHE_SIZE`. */
    method Size() returns (n: nat)
      requires Valid()
      ensures n == |State().entries| && n <= Lru.CACHE_SIZE
    {
      n := |entries|;
    }
  }
}
