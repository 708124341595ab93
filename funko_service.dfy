/**
 * `FunkosServiceImpl`: a read-through, write-through cache in front of the funko
 * repository, plus list queries over the repository's `findAll()` result.
 */
module FunkoService {
  import opened Wrappers
  import opened Models
  import opened Seqs
  import Lru
  import opened FunkosCache

  /** The funko store behind the service: a table of funkos keyed by code. */
  class FunkosRepository {
    var store: map<Uuid, Funko>

    /** A store holding `initial`. */
    constructor(initial: map<Uuid, Funko>)
      ensures store == initial
    {
      store := initial;
    }

    /** `findById(id)`: the stored funko, or empty. */
    method FindById(id: Uuid) returns (r: Option<Funko>)
      ensures r.Some? <==> id in store
      ensures r.Some? ==> r.value == store[id]
    {
      r := if id in store then Some(store[id]) else None;
    }

    /** `save(f)`: `f` is stored under its own code. */
    method Save(f: Funko) returns (r: Funko)
      modifies this
      ensures store == old(store)[f.codigo := f] && r == f
    {
      store := store[f.codigo := f];
      r := f;
    }

    /** `update(id, f)`: the row with code `id`, if there is one, now holds `f`. */
    method Update(id: Uuid, f: Funko) returns (r: Funko)
      modifies this
      ensures store == if id in old(store) then old(store)[id := f] else old(store)
      ensures r == f
    {
      if id in store {
        store := store[id := f];
      }
      r := f;
    }

    /** `delete(id)`: true exactly when a row was deleted. */
    method Delete(id: Uuid) returns (deleted: bool)
      modifies this
      ensures deleted <==> id in old(store)
      ensures store == old(store) - {id}
    {
      deleted := id in store;
      store := store - {id};
    }
  }

  class FunkosServiceImpl {
    const repository: FunkosRepository
    const cache: FunkosCacheImpl

    /** The cache keeps its own invariant. */
    predicate Valid()
      reads this, cache
    {
      cache.Valid()
    }

    /** Every cached funko is the one the repository holds under that code. */
    predicate Coherent()
      reads this, repository, cache
    {
      forall k :: k in cache.entries ==> k in repository.store && cache.entries[k] == repository.store[k]
    }

    /** `getInstance(repo, cache)`: a service over the given repository and cache. */
    constructor(repo: FunkosRepository, c: FunkosCacheImpl)
      ensures repository == repo && cache == c
    {
      repository := repo;
      cache := c;
    }

    /**
     * `findById(id)`: a cache hit answers from the cache (and counts as an access);
     * a miss answers from the repository and leaves the cache as it was.
     */
    method FindById(id: Uuid) returns (r: Option<Funko>)
      requires Valid()
      modifies cache
      ensures Valid()
      ensures id in old(cache.entries) ==>
        r == Some(old(cache.entries)[id]) && cache.State() == Lru.Touch(old(cache.State()), id)
      ensures id !in old(cache.entries) ==>
        r == (if id in repository.store then Some(repository.store[id]) else None)
        && cache.State() == old(cache.State())
      ensures old(Coherent()) ==>
        (Coherent() && r == (if id in repository.store then Some(repository.store[id]) else None))
    {
      var cached := cache.Get(id);
      if cached.Some? {
        r := cached;
      } else {
        r := repository.FindById(id);
      }
    }

    /** `save(f)`: the repository stores `f` and the cache maps its code to it. */
    method Save(f: Funko) returns (r: Funko)
      requires Valid()
      modifies repository, cache
      ensures Valid() && r == f
      ensures repository.store == old(repository.store)[f.codigo := f]
      ensures cache.State() == Lru.Put(old(cache.State()), f.codigo, f)
      ensures Lru.Lookup(cache.State(), f.codigo) == Some(f)
      ensures old(Coherent()) ==> Coherent()
    {
      var saved := repository.Save(f);
      Lru.GetAfterPut(cache.State(), f.codigo, f);
      Lru.PutSubmap(cache.State(), f.codigo, f);
      cache.Put(f.codigo, f);
      r := f;
    }

    /**
     * `update(id, f)`: the repository updates row `id`, and the cache maps `f`'s own code,
     * not `id`, to `f`. The cache stays coherent when `id` is `f`'s code and is stored.
     */
    method Update(id: Uuid, f: Funko) returns (r: Funko)
      requires Valid()
      modifies repository, cache
      ensures Valid() && r == f
      ensures repository.store == if id in old(repository.store) then old(repository.store)[id := f] else old(repository.store)
      ensures cache.State() == Lru.Put(old(cache.State()), f.codigo, f)
      ensures Lru.Lookup(cache.State(), f.codigo) == Some(f)
      ensures old(Coherent()) && id == f.codigo && id in old(repository.store) ==> Coherent()
    {
      var updated := repository.Update(id, f);
      Lru.GetAfterPut(cache.State(), f.codigo, f);
      Lru.PutSubmap(cache.State(), f.codigo, f);
      cache.Put(f.codigo, f);
      r := f;
    }

    /** `delete(id)`: the cache entry goes only when the repository reports a deletion. */
    method Delete(id: Uuid) returns (deleted: bool)
      requires Valid()
      modifies repository, cache
      ensures Valid()
      ensures deleted <==> id in old(repository.store)
      ensures repository.store == old(repository.store) - {id}
      ensures cache.State() == if deleted then Lru.Remove(old(cache.State()), id) else old(cache.State())
      ensures old(Coherent()) ==> Coherent()
    {
      deleted := repository.Delete(id);
      if deleted {
        cache.Remove(id);
      }
    }
  }

  // ----- List queries over `findAll()` -----

  /** The release year of `f` is `ano`. */
  predicate ReleasedIn(f: Funko, ano: int) {
    f.fechaLanzamiento.year == ano
  }

  /** `funkosReleasedInYear(ano)`: exactly the funkos released in `ano`, in their original order. */
  function FunkosReleasedInYear(funkos: seq<Funko>, ano: int): (r: seq<Funko>)
    ensures forall f :: f in r <==> f in funkos && f.fechaLanzamiento.year == ano
    ensures forall f :: multiset(r)[f] == if f.fechaLanzamiento.year == ano then multiset(funkos)[f] else 0
    ensures Subsequence(r, funkos)
  {
    Filter(funkos, f => ReleasedIn(f, ano))
  }

  /** The filter `f -> f.modelo() == m`. */
  function ModelIs(m: Modelo): Funko -> bool {
    (f: Funko) => f.modelo == m
  }

  /**
   * `funkosGroupedByModel()`: `groupingBy(Funko::modelo)` accumulates the funkos in encounter
   * order, appending each to the list of its model and creating the list on first sight.
   */
  function FunkosGroupedByModel(funkos: seq<Funko>): (r: map<Modelo, seq<Funko>>)
    ensures forall m :: m in r <==> exists f :: f in funkos && f.modelo == m
    ensures forall m :: m in r ==> r[m] != []
    decreases |funkos|
  {
    if funkos == [] then map[]
    else
      var init := FunkosGroupedByModel(funkos[..|funkos| - 1]);
      var f := funkos[|funkos| - 1];
      assert funkos == funkos[..|funkos| - 1] + [f];
      init[f.modelo := (if f.modelo in init then init[f.modelo] else []) + [f]]
  }

  /** Each group holds exactly the funkos of its model, in their original order. */
  lemma {:induction false} GroupIsFilter(funkos: seq<Funko>, m: Modelo)
    requires m in FunkosGroupedByModel(funkos)
    ensures FunkosGroupedByModel(funkos)[m] == Filter(funkos, ModelIs(m))
    decreases |funkos|
  {
    var init := funkos[..|funkos| - 1];
    if m in FunkosGroupedByModel(init) {
      GroupIsFilter(init, m);
    }
    GroupSnoc(funkos, m);
  }

  /** If the groups of all but the last funko are filters, so is the group of `m` after it. */
  lemma GroupSnoc(funkos: seq<Funko>, m: Modelo)
    requires funkos != [] && m in FunkosGroupedByModel(funkos)
    requires var init := funkos[..|funkos| - 1];
      m in FunkosGroupedByModel(init) ==> FunkosGroupedByModel(init)[m] == Filter(init, ModelIs(m))
    ensures FunkosGroupedByModel(funkos)[m] == Filter(funkos, ModelIs(m))
  {
    var init := funkos[..|funkos| - 1];
    var last := funkos[|funkos| - 1];
    var p := ModelIs(m);
    var g := FunkosGroupedByModel(init);
    var tail := if last.modelo == m then [last] else [];
    GroupStep(funkos, m);
    assert funkos == init + [last];
    FilterSnoc(init, last, p);
    assert p(last) == (last.modelo == m);
    if m !in g {
      AbsentModelFiltersEmpty(init, m);
    }
  }

  /** A model with no group has no funkos. */
  lemma AbsentModelFiltersEmpty(funkos: seq<Funko>, m: Modelo)
    requires m !in FunkosGroupedByModel(funkos)
    ensures Filter(funkos, ModelIs(m)) == []
  {
    var p := ModelIs(m);
    forall f | f in funkos ensures !p(f) {
      assert p(f) == (f.modelo == m);
    }
    FilterNone(funkos, p);
  }

  /** Grouping one more funko appends it to its own model's group only. */
  lemma GroupStep(funkos: seq<Funko>, m: Modelo)
    requires funkos != []
    ensures var g := FunkosGroupedByModel(funkos[..|funkos| - 1]);
      var last := funkos[|funkos| - 1];
      m in FunkosGroupedByModel(funkos) ==>
        FunkosGroupedByModel(funkos)[m]
        == (if m in g then g[m] else []) + (if last.modelo == m then [last] else [])
  {
  }

  /** Filtering a sequence with one more element at the end. */
  lemma FilterSnoc(init: seq<Funko>, last: Funko, p: Funko -> bool)
    ensures Filter(init + [last], p) == Filter(init, p) + (if p(last) then [last] else [])
  {
    FilterAppend(init, [last], p);
    FilterSingleton(last, p);
  }

  /** Every funko is in the group of its own model and in no other group. */
  lemma GroupedByOwnModel(funkos: seq<Funko>)
    ensures forall f :: f in funkos ==> f.modelo in FunkosGroupedByModel(funkos) && f in FunkosGroupedByModel(funkos)[f.modelo]
    ensures forall m, f :: m in FunkosGroupedByModel(funkos) && f in FunkosGroupedByModel(funkos)[m] ==> f.modelo == m && f in funkos
  {
    var g := FunkosGroupedByModel(funkos);
    forall m | m in g
      ensures forall f :: f in g[m] <==> f in funkos && f.modelo == m
    {
      GroupIsFilter(funkos, m);
    }
  }

  /** `numFunkosGroupedByModel()`: `groupingBy(Funko::modelo, summingInt(e -> 1))`. */
  function NumFunkosGroupedByModel(funkos: seq<Funko>): (r: map<Modelo, int>)
    decreases |funkos|
  {
    if funkos == [] then map[]
    else
      var init := NumFunkosGroupedByModel(funkos[..|funkos| - 1]);
      var m := funkos[|funkos| - 1].modelo;
      init[m := (if m in init then init[m] else 0) + 1]
  }

  /** The count of each model is the size of its group, and the models counted are those grouped. */
  lemma {:induction false} CountsAreGroupSizes(funkos: seq<Funko>)
    ensures NumFunkosGroupedByModel(funkos).Keys == FunkosGroupedByModel(funkos).Keys
    ensures forall m :: m in NumFunkosGroupedByModel(funkos) ==>
      NumFunkosGroupedByModel(funkos)[m] == |FunkosGroupedByModel(funkos)[m]|
    decreases |funkos|
  {
    if funkos != [] {
      CountsAreGroupSizes(funkos[..|funkos| - 1]);
    }
  }

  /** The count of a model is the number of funkos that have it. */
  lemma CountIsNumberWithModel(funkos: seq<Funko>, m: Modelo)
    requires m in NumFunkosGroupedByModel(funkos)
    ensures NumFunkosGroupedByModel(funkos)[m] == |Filter(funkos, ModelIs(m))|
  {
    CountsAreGroupSizes(funkos);
    GroupIsFilter(funkos, m);
  }

  /** Some key of a non-empty map. */
  ghost function PickKey(m: map<Modelo, int>): (k: Modelo)
    requires |m| > 0
    ensures k in m
  {
    NonEmptyHasKey(m);
    var k :| k in m; k
  }

  lemma NonEmptyHasKey(m: map<Modelo, int>)
    requires |m| > 0
    ensures exists k :: k in m
  {
    if forall k :: k !in m {
      assert false;
    }
  }

  /** The sum of a map's values, in some order of its keys. */
  ghost function MapSum(m: map<Modelo, int>): int
    decreases |m|
  {
    if |m| == 0 then 0
    else
      var k := PickKey(m);
      m[k] + MapSum(m - {k})
  }

  /** Removing a present key shrinks a map by one. */
  lemma RemoveShrinks(m: map<Modelo, int>, k: Modelo)
    requires k in m
    ensures |m - {k}| == |m| - 1
  {
    assert (m - {k}).Keys == m.Keys - {k};
  }

  /** The sum may start from any key. */
  lemma {:induction false} MapSumRemove(m: map<Modelo, int>, k: Modelo)
    requires k in m
    ensures MapSum(m) == m[k] + MapSum(m - {k})
    decreases |m|
  {
    var j := PickKey(m);
    if j != k {
      var mj := m - {j};
      var mk := m - {k};
      RemoveShrinks(m, j);
      RemoveShrinks(m, k);
      assert k in mj && j in mk;
      MapSumRemove(mj, k);
      MapSumRemove(mk, j);
      assert mj - {k} == mk - {j};
    }
  }

  /** Setting one key changes the sum by the change of its value. */
  lemma MapSumUpdate(m: map<Modelo, int>, k: Modelo, v: int)
    ensures MapSum(m[k := v]) == MapSum(m) - (if k in m then m[k] else 0) + v
  {
    MapSumRemove(m[k := v], k);
    assert m[k := v] - {k} == m - {k};
    if k in m {
      MapSumRemove(m, k);
    } else {
      assert m - {k} == m;
    }
  }

  /** The counts add up to the number of funkos. */
  lemma {:induction false} CountsSumToLength(funkos: seq<Funko>)
    ensures MapSum(NumFunkosGroupedByModel(funkos)) == |funkos|
    decreases |funkos|
  {
    if funkos != [] {
      var init := NumFunkosGroupedByModel(funkos[..|funkos| - 1]);
      var m := funkos[|funkos| - 1].modelo;
      CountsSumToLength(funkos[..|funkos| - 1]);
      MapSumUpdate(init, m, (if m in init then init[m] else 0) + 1);
    }
  }

  /** The lower-cased name of `f` contains the lower-cased `palabra`. */
  predicate NameContains(f: Funko, palabra: string) {
    Contains(ToLower(f.nombre), ToLower(palabra))
  }

  /**
   * `funkosContainWord(palabra)`: the funkos whose lower-cased name has the lower-cased
   * word at some position, in their original order.
   */
  function FunkosContainWord(funkos: seq<Funko>, palabra: string): (r: seq<Funko>)
    ensures forall f :: f in r <==> f in funkos && exists i :: OccursAt(ToLower(f.nombre), ToLower(palabra), i)
    ensures forall f :: multiset(r)[f] == if NameContains(f, palabra) then multiset(funkos)[f] else 0
    ensures Subsequence(r, funkos)
  {
    Filter(funkos, f => NameContains(f, palabra))
  }

  /** The empty word is contained in every name. */
  lemma EmptyWordKeepsAll(funkos: seq<Funko>)
    ensures FunkosContainWord(funkos, "") == funkos
  {
    forall f | f in funkos ensures NameContains(f, "") {
      assert OccursAt(ToLower(f.nombre), ToLower(""), 0);
    }
    FilterKeepsAll(funkos, f => NameContains(f, ""));
  }

  /** The search ignores the case of the word. */
  lemma WordCaseIgnored(funkos: seq<Funko>, palabra: string)
    ensures FunkosContainWord(funkos, ToLower(palabra)) == FunkosContainWord(funkos, palabra)
  {
    ToLowerIdempotent(palabra);
    FilterCongruent(funkos, f => NameContains(f, ToLower(palabra)), f => NameContains(f, palabra));
  }
}
