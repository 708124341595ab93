/**
 * The map behind `FunkosCacheImpl`: a `LinkedHashMap` in access order whose
 * `removeEldestEntry` drops the head entry once the size exceeds `CACHE_SIZE`.
 * The state is the key-to-value map plus the entry list, least recently used first.
 */
module Lru {
  import opened Wrappers
  import opened Models
  import opened Seqs

  /** `FunkosCacheImpl.CACHE_SIZE`. */
  const CACHE_SIZE: nat := 15

  /** The entries and their access order (head = eldest = least recently used). */
  datatype LruState = LruState(entries: map<Uuid, Funko>, order: seq<Uuid>)

  /** The representation invariant: the order lists each key exactly once, and the bound holds. */
  predicate WellFormed(s: LruState) {
    && Distinct(s.order)
    && (forall k :: k in s.order ==> k in s.entries)
    && (forall k :: k in s.entries ==> k in s.order)
    && |s.order| == |s.entries|
    && |s.entries| <= CACHE_SIZE
  }

  /** A fresh or cleared map. */
  const Empty: LruState := LruState(map[], [])

  /** `cache.get(k)`'s value: the mapped value, or `null` on a miss. */
  function Lookup(s: LruState, k: Uuid): Option<Funko> {
    if k in s.entries then Some(s.entries[k]) else None
  }

  /** Access order: a hit moves `k` to the tail; a miss changes nothing. */
  function Touch(s: LruState, k: Uuid): LruState {
    if k in s.entries then LruState(s.entries, Without(s.order, k) + [k]) else s
  }

  /** `removeEldestEntry` returning true: the head entry is unlinked and unmapped. */
  function RemoveEldest(s: LruState): LruState
    requires s.order != []
  {
    LruState(s.entries - {s.order[0]}, s.order[1..])
  }

  /**
   * `cache.put(k, v)`: an existing key gets the new value and is accessed; a new key is
   * appended, and then the eldest entry is dropped if the size now exceeds the bound.
   */
  function Put(s: LruState, k: Uuid, v: Funko): LruState {
    if k in s.entries then
      LruState(s.entries[k := v], Without(s.order, k) + [k])
    else
      var inserted := LruState(s.entries[k := v], s.order + [k]);
      if |inserted.entries| > CACHE_SIZE then RemoveEldest(inserted) else inserted
  }

  /** `cache.remove(k)`. */
  function Remove(s: LruState, k: Uuid): LruState {
    LruState(s.entries - {k}, Without(s.order, k))
  }

  /** `cache.clear()`. */
  function Clear(s: LruState): LruState {
    Empty
  }

  // ----- Invariant preservation -----

  lemma EmptyWellFormed()
    ensures WellFormed(Empty)
  {
  }

  /** A hit moves `k` to the tail and keeps every other key in its relative place. */
  lemma TouchMovesToTail(s: LruState, k: Uuid)
    requires WellFormed(s)
    ensures WellFormed(Touch(s, k))
    ensures Touch(s, k).entries == s.entries
    ensures k in s.entries ==> Touch(s, k).order[|s.order| - 1] == k
    ensures Without(Touch(s, k).order, k) == Without(s.order, k)
  {
    if k in s.entries {
      var rest := Without(s.order, k);
      WithoutAppendSelf(rest, k);
      AppendFreshDistinct(rest, k);
    }
  }

  /** Putting keeps the invariant; in particular the size never exceeds `CACHE_SIZE`. */
  lemma PutWellFormed(s: LruState, k: Uuid, v: Funko)
    requires WellFormed(s)
    ensures WellFormed(Put(s, k, v))
    ensures |Put(s, k, v).entries| <= CACHE_SIZE
  {
    if k in s.entries {
      AppendFreshDistinct(Without(s.order, k), k);
    } else {
      AppendFreshDistinct(s.order, k);
      var inserted := LruState(s.entries[k := v], s.order + [k]);
      if |inserted.entries| > CACHE_SIZE {
        var r := RemoveEldest(inserted);
        DistinctTail(inserted.order);
        assert inserted.order[0] !in r.order by {
          DistinctHeadNotInTail(inserted.order);
        }
        forall x ensures x in r.order <==> x in r.entries {
          assert x in inserted.order <==> x == inserted.order[0] || x in r.order;
        }
      }
    }
  }

  /** Removing keeps the invariant. */
  lemma RemoveWellFormed(s: LruState, k: Uuid)
    requires WellFormed(s)
    ensures WellFormed(Remove(s, k))
  {
  }

  // ----- The properties the cache promises -----

  /** After `put(k, v)`, `get(k)` returns `v`. */
  lemma GetAfterPut(s: LruState, k: Uuid, v: Funko)
    requires WellFormed(s)
    ensures Lookup(Put(s, k, v), k) == Some(v)
  {
    if k !in s.entries && |s.entries| + 1 > CACHE_SIZE {
      assert s.order != [];
      assert s.order[0] in s.entries;
      assert (s.order + [k])[0] == s.order[0];
    }
  }

  /** `put` of a new key into a full cache evicts exactly the least recently used entry. */
  lemma PutFullEvictsEldest(s: LruState, k: Uuid, v: Funko)
    requires WellFormed(s)
    requires k !in s.entries && |s.entries| == CACHE_SIZE
    ensures var r := Put(s, k, v);
      && r.entries == (s.entries - {s.order[0]})[k := v]
      && r.order == s.order[1..] + [k]
      && |r.entries| == CACHE_SIZE
  {
    var r := Put(s, k, v);
    assert (s.order + [k])[1..] == s.order[1..] + [k];
    assert (s.order + [k])[0] == s.order[0];
    assert s.order[0] in s.entries;
    assert s.order[0] != k;
    assert r.entries == (s.entries - {s.order[0]})[k := v];
  }

  /** `put` of a new key into a cache that is not full evicts nothing. */
  lemma PutNotFullKeepsAll(s: LruState, k: Uuid, v: Funko)
    requires WellFormed(s)
    requires k !in s.entries && |s.entries| < CACHE_SIZE
    ensures Put(s, k, v) == LruState(s.entries[k := v], s.order + [k])
    ensures |Put(s, k, v).entries| == |s.entries| + 1
  {
  }

  /** `put` of a present key replaces its value, keeps the size and evicts nothing. */
  lemma PutPresentReplaces(s: LruState, k: Uuid, v: Funko)
    requires WellFormed(s)
    requires k in s.entries
    ensures Put(s, k, v).entries.Keys == s.entries.Keys
    ensures |Put(s, k, v).entries| == |s.entries|
    ensures Put(s, k, v).entries[k] == v
    ensures forall x :: x in s.entries && x != k ==> Put(s, k, v).entries[x] == s.entries[x]
    ensures Put(s, k, v).order[|s.order| - 1] == k
  {
    assert s.entries[k := v].Keys == s.entries.Keys;
  }

  /** `remove(k)` unmaps `k` and nothing else. */
  lemma RemoveOnlyKey(s: LruState, k: Uuid)
    requires WellFormed(s)
    ensures Lookup(Remove(s, k), k) == None
    ensures forall x :: x != k ==> Lookup(Remove(s, k), x) == Lookup(s, x)
    ensures |Remove(s, k).entries| == if k in s.entries then |s.entries| - 1 else |s.entries|
  {
  }

  /** Putting then removing one key in an empty cache leaves it empty. */
  lemma PutThenRemoveLeavesEmpty(k: Uuid, v: Funko)
    ensures |Remove(Put(Empty, k, v), k).entries| == 0
    ensures Lookup(Remove(Put(Empty, k, v), k), k) == None
  {
    assert Put(Empty, k, v).entries == map[k := v];
    assert map[k := v] - {k} == map[];
  }

  /** Every entry after `put` is the new one or an unchanged old one: `put` never invents a value. */
  lemma PutSubmap(s: LruState, k: Uuid, v: Funko)
    ensures forall x :: x in Put(s, k, v).entries ==>
      (x == k && Put(s, k, v).entries[x] == v) || (x != k && x in s.entries && Put(s, k, v).entries[x] == s.entries[x])
  {
  }

  /** After `clear()` the size is 0 and every `get` misses. */
  lemma ClearEmpties(s: LruState, k: Uuid)
    ensures |Clear(s).entries| == 0 && Lookup(Clear(s), k) == None
  {
  }

  /** Repeated `get`s of one key without intervening writes return the same value. */
  lemma GetIdempotent(s: LruState, k: Uuid)
    requires WellFormed(s)
    ensures Lookup(Touch(s, k), k) == Lookup(s, k)
    ensures Touch(Touch(s, k), k) == Touch(s, k)
  {
    if k in s.entries {
      TouchMovesToTail(s, k);
      var t := Touch(s, k);
      WithoutAppendSelf(Without(s.order, k), k);
      WithoutTwice(s.order, k);
    }
  }

  // ----- Sequences of operations -----

  /** One call on the cache. */
  datatype Op = PutOp(key: Uuid, value: Funko) | GetOp(key: Uuid) | RemoveOp(key: Uuid) | ClearOp

  /** The state after applying `op`. */
  function Apply(s: LruState, op: Op): LruState {
    match op
    case PutOp(k, v) => Put(s, k, v)
    case GetOp(k) => Touch(s, k)
    case RemoveOp(k) => Remove(s, k)
    case ClearOp => Clear(s)
  }

  /** The state after applying `ops` in order. */
  function Run(s: LruState, ops: seq<Op>): LruState
    decreases |ops|
  {
    if ops == [] then s else Run(Apply(s, ops[0]), ops[1..])
  }

  /** No sequence of operations takes the size past `CACHE_SIZE`. */
  lemma {:induction false} RunWellFormed(s: LruState, ops: seq<Op>)
    requires WellFormed(s)
    ensures WellFormed(Run(s, ops))
    ensures |Run(s, ops).entries| <= CACHE_SIZE
    decreases |ops|
  {
    if ops != [] {
      match ops[0] {
        case PutOp(k, v) => PutWellFormed(s, k, v);
        case GetOp(k) => TouchMovesToTail(s, k);
        case RemoveOp(k) => RemoveWellFormed(s, k);
        case ClearOp => EmptyWellFormed();
      }
      RunWellFormed(Apply(s, ops[0]), ops[1..]);
    }
  }

  /** A key that was never put, or is absent and never put again, misses. */
  lemma {:induction false} NeverPutMisses(s: LruState, ops: seq<Op>, k: Uuid)
    requires k !in s.entries
    requires forall i :: 0 <= i < |ops| ==> !(ops[i].PutOp? && ops[i].key == k)
    ensures Lookup(Run(s, ops), k) == None
    decreases |ops|
  {
    if ops != [] {
      var t := Apply(s, ops[0]);
      assert !(ops[0].PutOp? && ops[0].key == k);
      assert k !in t.entries;
      NeverPutMisses(t, ops[1..], k);
    }
  }

  /** The funkos put in order under their own codes, as `FunkosServiceImpl.save` does. */
  function PutAll(s: LruState, fs: seq<Funko>): LruState
    decreases |fs|
  {
    if fs == [] then s else PutAll(Put(s, fs[0].codigo, fs[0]), fs[1..])
  }

  /** The codes of `fs`, in order. */
  function Codes(fs: seq<Funko>): (r: seq<Uuid>)
    ensures |r| == |fs| && forall i :: 0 <= i < |fs| ==> r[i] == fs[i].codigo
  {
    seq(|fs|, i requires 0 <= i < |fs| => fs[i].codigo)
  }

  /**
   * Putting funkos with new, distinct codes leaves exactly the last `CACHE_SIZE` keys of
   * the old order followed by the new codes, least recently used first.
   */
  lemma {:induction false} PutAllKeepsNewest(s: LruState, fs: seq<Funko>)
    requires WellFormed(s)
    requires Distinct(Codes(fs))
    requires forall i :: 0 <= i < |fs| ==> fs[i].codigo !in s.entries
    ensures PutAll(s, fs).order == Newest(s.order + Codes(fs))
    decreases |fs|
  {
    if fs == [] {
      assert s.order + Codes(fs) == s.order;
    } else {
      var t := Put(s, fs[0].codigo, fs[0]);
      PutAllStepKeepsRequirements(s, fs);
      PutAllStepKeepsNewest(s, fs);
      PutAllKeepsNewest(t, fs[1..]);
    }
  }

  /** The newest `CACHE_SIZE` elements of `all`, i.e. what an LRU of that size keeps. */
  function Newest(all: seq<Uuid>): (r: seq<Uuid>)
    ensures |r| == Min(|all|, CACHE_SIZE)
  {
    all[|all| - Min(|all|, CACHE_SIZE)..]
  }

  /** The first put of `PutAll` leaves the requirements for the rest in place. */
  lemma PutAllStepKeepsRequirements(s: LruState, fs: seq<Funko>)
    requires WellFormed(s)
    requires Distinct(Codes(fs))
    requires forall i :: 0 <= i < |fs| ==> fs[i].codigo !in s.entries
    requires fs != []
    ensures var t := Put(s, fs[0].codigo, fs[0]);
      && WellFormed(t)
      && Distinct(Codes(fs[1..]))
      && forall i :: 0 <= i < |fs[1..]| ==> fs[1..][i].codigo !in t.entries
  {
    var k := fs[0].codigo;
    var t := Put(s, k, fs[0]);
    var rest := fs[1..];
    PutWellFormed(s, k, fs[0]);
    PutKeys(s, k, fs[0]);
    CodesCons(fs);
    DistinctTail(Codes(fs));
    forall i | 0 <= i < |rest| ensures rest[i].codigo !in t.entries {
      assert Codes(fs)[0] != Codes(fs)[i + 1];
      assert rest[i] == fs[i + 1];
    }
  }

  /** What the first put of `PutAll` does to the keys that will be kept. */
  lemma PutAllStepKeepsNewest(s: LruState, fs: seq<Funko>)
    requires WellFormed(s)
    requires fs != [] && fs[0].codigo !in s.entries
    ensures Newest(Put(s, fs[0].codigo, fs[0]).order + Codes(fs[1..])) == Newest(s.order + Codes(fs))
  {
    var k := fs[0].codigo;
    PutNewOrder(s, k, fs[0]);
    CodesCons(fs);
    NewestAfterPut(s.order, k, Codes(fs[1..]));
  }

  /** The keys kept are the same whether the head was dropped before or after appending. */
  lemma NewestAfterPut(o: seq<Uuid>, k: Uuid, c: seq<Uuid>)
    requires |o| <= CACHE_SIZE
    ensures Newest((if |o| == CACHE_SIZE then o[1..] else o) + [k] + c) == Newest(o + ([k] + c))
  {
    var all := o + ([k] + c);
    if |o| == CACHE_SIZE {
      assert (o[1..] + [k]) + c == all[1..];
      NewestOfTail(all);
    } else {
      assert (o + [k]) + c == all;
    }
  }

  /** Dropping the head of a sequence longer than the bound keeps its newest `CACHE_SIZE` elements. */
  lemma NewestOfTail(all: seq<Uuid>)
    requires |all| > CACHE_SIZE
    ensures Newest(all[1..]) == Newest(all)
  {
  }

  /** `put` adds at most its own key. */
  lemma PutKeys(s: LruState, k: Uuid, v: Funko)
    ensures Put(s, k, v).entries.Keys <= s.entries.Keys + {k}
  {
  }

  /** A new key goes to the tail, behind the old order minus its head when the cache was full. */
  lemma PutNewOrder(s: LruState, k: Uuid, v: Funko)
    requires WellFormed(s) && k !in s.entries
    ensures Put(s, k, v).order == (if |s.order| == CACHE_SIZE then s.order[1..] else s.order) + [k]
  {
    if |s.order| == CACHE_SIZE {
      assert (s.order + [k])[1..] == s.order[1..] + [k];
    }
  }

  lemma CodesCons(fs: seq<Funko>)
    requires fs != []
    ensures Codes(fs) == [fs[0].codigo] + Codes(fs[1..])
  {
  }

  /** Sixteen funkos with distinct codes put into an empty cache: the first misses, the last hits. */
  lemma {:induction false} SixteenPutsEvictFirst(fs: seq<Funko>)
    requires |fs| == CACHE_SIZE + 1 && Distinct(Codes(fs))
    ensures Lookup(PutAll(Empty, fs), fs[0].codigo) == None
    ensures Lookup(PutAll(Empty, fs), fs[CACHE_SIZE].codigo) == Some(fs[CACHE_SIZE])
  {
    var r := PutAll(Empty, fs);
    assert r.order == Codes(fs)[1..] by {
      PutAllKeepsNewest(Empty, fs);
      assert Empty.order + Codes(fs) == Codes(fs);
    }
    assert fs[0].codigo !in r.order by {
      CodesCons(fs);
      DistinctHeadNotInTail(Codes(fs));
    }
    assert fs[0].codigo !in r.entries by {
      RunWellFormedPutAll(Empty, fs);
    }
    LastPutHits(Empty, fs);
  }

  /** `PutAll` keeps the invariant. */
  lemma {:induction false} RunWellFormedPutAll(s: LruState, fs: seq<Funko>)
    requires WellFormed(s)
    ensures WellFormed(PutAll(s, fs))
    decreases |fs|
  {
    if fs != [] {
      PutWellFormed(s, fs[0].codigo, fs[0]);
      RunWellFormedPutAll(Put(s, fs[0].codigo, fs[0]), fs[1..]);
    }
  }

  /** After `PutAll`, the last funko put is in the cache. */
  lemma {:induction false} LastPutHits(s: LruState, fs: seq<Funko>)
    requires WellFormed(s) && fs != []
    ensures Lookup(PutAll(s, fs), fs[|fs| - 1].codigo) == Some(fs[|fs| - 1])
    decreases |fs|
  {
    var t := Put(s, fs[0].codigo, fs[0]);
    PutWellFormed(s, fs[0].codigo, fs[0]);
    if |fs| == 1 {
      GetAfterPut(s, fs[0].codigo, fs[0]);
    } else {
      LastPutHits(t, fs[1..]);
    }
  }

  // ----- Helpers -----

  function Min(a: int, b: int): int {
    if a <= b then a else b
  }

  lemma DistinctTail<T>(s: seq<T>)
    requires Distinct(s) && s != []
    ensures Distinct(s[1..])
  {
  }

  lemma DistinctHeadNotInTail<T>(s: seq<T>)
    requires Distinct(s) && s != []
    ensures s[0] !in s[1..]
  {
  }

  lemma AppendFreshDistinct<T>(s: seq<T>, x: T)
    requires Distinct(s) && x !in s
    ensures Distinct(s + [x])
  {
  }

  lemma WithoutAppendSelf<T(!new)>(s: seq<T>, k: T)
    requires k !in s
    ensures Without(s + [k], k) == s
  {
    WithoutAppendFresh(s, [k], k);
  }

  lemma {:induction false} WithoutAppendFresh<T(!new)>(s: seq<T>, t: seq<T>, k: T)
    requires k !in s && forall i :: 0 <= i < |t| ==> t[i] == k
    ensures Without(s + t, k) == s
  {
    if s == [] {
      assert s + t == t;
      AllKeyVanishes(t, k);
    } else {
      assert (s + t)[1..] == s[1..] + t;
      WithoutAppendFresh(s[1..], t, k);
      assert s == [s[0]] + s[1..];
    }
  }

  lemma AllKeyVanishes<T(!new)>(t: seq<T>, k: T)
    requires forall i :: 0 <= i < |t| ==> t[i] == k
    ensures Without(t, k) == []
  {
  }

  lemma WithoutTwice<T(!new)>(s: seq<T>, k: T)
    ensures Without(Without(s, k), k) == Without(s, k)
  {
  }
}
