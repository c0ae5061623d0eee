/** Last-write-wins coalescing of keyed mutations, and its cost accounting. */
module Coalescing {
  import opened DiscoveryDomain
  import opened KeyOrder

  datatype Mutation<+V> = Upsert(value: V, bytes: nat) | Remove(bytes: nat)

  datatype Keyed<+K, +V> = Keyed(key: K, mutation: Mutation<V>)

  /** What one mutation does to the table a client keeps. */
  function Apply<K, V>(table: map<K, V>, key: K, mutation: Mutation<V>): map<K, V> {
    match mutation
    case Upsert(value, _) => table[key := value]
    case Remove(_) => table - {key}
  }

  /** What a list of mutations does, in order. */
  function ApplyAll<K, V>(table: map<K, V>, mutations: seq<Keyed<K, V>>): map<K, V> {
    if mutations == [] then table
    else
      var last := mutations[|mutations| - 1];
      Apply(ApplyAll(table, mutations[..|mutations| - 1]), last.key, last.mutation)
  }

  /** What a coalesced batch does: each key has at most one mutation. */
  function Overlay<K, V>(table: map<K, V>, pending: map<K, Mutation<V>>): map<K, V> {
    map k | k in table.Keys + pending.Keys && (k in pending ==> pending[k].Upsert?) ::
      if k in pending then pending[k].value else table[k]
  }

  function Collect<K, V>(mutations: seq<Keyed<K, V>>): map<K, Mutation<V>> {
    if mutations == [] then map[]
    else
      var last := mutations[|mutations| - 1];
      Collect(mutations[..|mutations| - 1])[last.key := last.mutation]
  }

  /** Overwriting an earlier pending mutation of the same key loses nothing. */
  lemma OverlayInsert<K, V>(
    table: map<K, V>, pending: map<K, Mutation<V>>, key: K, mutation: Mutation<V>)
    ensures Overlay(table, pending[key := mutation]) == Apply(Overlay(table, pending), key, mutation)
  {
  }

  /** Coalescing a list of mutations by key keeps its effect. */
  lemma {:induction false} CoalescingPreservesEffect<K, V>(
    table: map<K, V>, mutations: seq<Keyed<K, V>>)
    ensures ApplyAll(table, mutations) == Overlay(table, Collect(mutations))
  {
    if mutations != [] {
      var front, last := mutations[..|mutations| - 1], mutations[|mutations| - 1];
      CoalescingPreservesEffect(table, front);
      OverlayInsert(table, Collect(front), last.key, last.mutation);
    }
  }

  ghost predicate DistinctKeys<K, V>(mutations: seq<Keyed<K, V>>) {
    forall i, j | 0 <= i < j < |mutations| :: mutations[i].key != mutations[j].key
  }

  function KeysOf<K, V>(mutations: seq<Keyed<K, V>>): set<K> {
    set i | 0 <= i < |mutations| :: mutations[i].key
  }

  lemma {:induction false} CollectDistinct<K, V>(mutations: seq<Keyed<K, V>>)
    requires DistinctKeys(mutations)
    ensures Collect(mutations).Keys == KeysOf(mutations)
    ensures forall i | 0 <= i < |mutations| ::
      mutations[i].key in Collect(mutations) && Collect(mutations)[mutations[i].key] == mutations[i].mutation
  {
    if mutations != [] {
      var front, last := mutations[..|mutations| - 1], mutations[|mutations| - 1];
      CollectDistinct(front);
      assert KeysOf(mutations) == KeysOf(front) + {last.key} by {
        forall k | k in KeysOf(mutations) ensures k in KeysOf(front) + {last.key} {
          var i :| 0 <= i < |mutations| && mutations[i].key == k;
          if i < |front| {
            assert front[i].key == k;
          }
        }
        forall k | k in KeysOf(front) ensures k in KeysOf(mutations) {
          var i :| 0 <= i < |front| && front[i].key == k;
          assert mutations[i].key == k;
        }
      }
      forall i | 0 <= i < |mutations|
        ensures mutations[i].key in Collect(mutations)
                && Collect(mutations)[mutations[i].key] == mutations[i].mutation
      {
        if i < |front| {
          assert front[i] == mutations[i];
        }
      }
    }
  }

  /** A list naming each pending key once collects to the batch itself. */
  lemma CollectCovers<K, V>(mutations: seq<Keyed<K, V>>, pending: map<K, Mutation<V>>)
    requires DistinctKeys(mutations)
    requires forall i | 0 <= i < |mutations| ::
               mutations[i].key in pending && pending[mutations[i].key] == mutations[i].mutation
    requires pending.Keys <= KeysOf(mutations)
    ensures Collect(mutations) == pending
  {
    CollectDistinct(mutations);
    assert Collect(mutations).Keys == pending.Keys;
    forall k | k in pending
      ensures Collect(mutations)[k] == pending[k]
    {
      assert k in KeysOf(mutations);
      var i :| 0 <= i < |mutations| && mutations[i].key == k;
    }
  }

  // ----- Mutations too large to publish -----

  /** The mutations within a cap, in order: the only ones that are ever published. */
  function Fitting<K, V>(mutations: seq<Keyed<K, V>>, cap: nat): seq<Keyed<K, V>> {
    if mutations == [] then []
    else
      var front, last := mutations[..|mutations| - 1], mutations[|mutations| - 1];
      if last.mutation.bytes <= cap then Fitting(front, cap) + [last] else Fitting(front, cap)
  }

  /** The latest mutation of a key. */
  function Latest<K(==), V>(mutations: seq<Keyed<K, V>>, key: K): Option<Mutation<V>> {
    if mutations == [] then None
    else if mutations[|mutations| - 1].key == key then Some(mutations[|mutations| - 1].mutation)
    else Latest(mutations[..|mutations| - 1], key)
  }

  /** What a key holds after its latest mutation. */
  function Held<V>(latest: Option<Mutation<V>>): Option<V> {
    if latest.Some? && latest.value.Upsert? then Some(latest.value.value) else None
  }

  function Lookup<K, V>(table: map<K, V>, key: K): Option<V> {
    if key in table then Some(table[key]) else None
  }

  /** The latest mutation of the key fits, or the latest that fits left the same value. */
  predicate UpToDate<K(==), V(==)>(mutations: seq<Keyed<K, V>>, cap: nat, key: K) {
    var latest := Latest(mutations, key);
    || latest.None? || latest.value.bytes <= cap
    || Held(latest) == Held(Latest(Fitting(mutations, cap), key))
  }

  lemma {:induction false} LatestDecides<K, V>(mutations: seq<Keyed<K, V>>, key: K)
    ensures Lookup(ApplyAll(map[], mutations), key) == Held(Latest(mutations, key))
  {
    if mutations != [] {
      LatestDecides(mutations[..|mutations| - 1], key);
    }
  }

  lemma {:induction false} FittingKeepsLatest<K, V>(mutations: seq<Keyed<K, V>>, cap: nat, key: K)
    ensures var latest := Latest(mutations, key);
            latest.None? || latest.value.bytes <= cap ==> Latest(Fitting(mutations, cap), key) == latest
  {
    if mutations != [] {
      var front := mutations[..|mutations| - 1];
      FittingKeepsLatest(front, cap, key);
      var last := mutations[|mutations| - 1];
      assert (Fitting(front, cap) + [last])[..|Fitting(front, cap)|] == Fitting(front, cap);
    }
  }

  /** Who applies only the mutations that fit is right about a key exactly if the key is up to date. */
  lemma FittingIsEnough<K, V>(mutations: seq<Keyed<K, V>>, cap: nat, key: K)
    ensures Lookup(ApplyAll(map[], Fitting(mutations, cap)), key) == Lookup(ApplyAll(map[], mutations), key)
            <==> UpToDate(mutations, cap, key)
  {
    LatestDecides(mutations, key);
    LatestDecides(Fitting(mutations, cap), key);
    FittingKeepsLatest(mutations, cap, key);
  }

  ghost predicate AllFit<K, V>(mutations: seq<Keyed<K, V>>, cap: nat) {
    forall m | m in mutations :: m.mutation.bytes <= cap
  }

  lemma {:induction false} NothingOversizedNothingLost<K, V>(mutations: seq<Keyed<K, V>>, cap: nat)
    requires AllFit(mutations, cap)
    ensures Fitting(mutations, cap) == mutations
  {
    if mutations != [] {
      NothingOversizedNothingLost(mutations[..|mutations| - 1], cap);
    }
  }

  /** While nothing was too large, every key was up to date at any time. */
  lemma FittingIsUpToDate<K, V>(earlier: seq<Keyed<K, V>>, later: seq<Keyed<K, V>>, cap: nat, key: K)
    requires earlier <= later && AllFit(later, cap)
    ensures UpToDate(earlier, cap, key)
  {
    forall m | m in earlier ensures m.mutation.bytes <= cap {
      assert m in later;
    }
    NothingOversizedNothingLost(earlier, cap);
  }

  /** One more mutation, seen by everybody and by who applies only what fits. */
  lemma OneMoreMutation<K, V>(mutations: seq<Keyed<K, V>>, cap: nat, key: K, mutation: Mutation<V>)
    ensures var more := mutations + [Keyed(key, mutation)];
            && ApplyAll(map[], more) == Apply(ApplyAll(map[], mutations), key, mutation)
            && ApplyAll(map[], Fitting(more, cap))
               == (if mutation.bytes <= cap then Apply(ApplyAll(map[], Fitting(mutations, cap)), key, mutation)
                   else ApplyAll(map[], Fitting(mutations, cap)))
  {
    var last := Keyed(key, mutation);
    assert (mutations + [last])[..|mutations|] == mutations;
    assert (Fitting(mutations, cap) + [last])[..|Fitting(mutations, cap)|] == Fitting(mutations, cap);
  }

  // ----- Cost -----

  ghost function SumBytes<K, V>(pending: map<K, Mutation<V>>): nat
    decreases |pending|
  {
    if pending == map[] then 0
    else
      var k :| k in pending;
      assert |pending - {k}| < |pending| by { SmallerMap(pending, k); }
      pending[k].bytes + SumBytes(pending - {k})
  }

  lemma SmallerMap<K, V>(m: map<K, V>, k: K)
    requires k in m
    ensures |m - {k}| == |m| - 1
  {
  }

  lemma {:induction false} SumWithout<K, V>(pending: map<K, Mutation<V>>, k: K)
    requires k in pending
    ensures SumBytes(pending) == pending[k].bytes + SumBytes(pending - {k})
    decreases |pending|
  {
    var j :| j in pending && SumBytes(pending) == pending[j].bytes + SumBytes(pending - {j});
    if j != k {
      SmallerMap(pending, j);
      SmallerMap(pending, k);
      SumWithout(pending - {j}, k);
      SumWithout(pending - {k}, j);
      assert pending - {j} - {k} == pending - {k} - {j};
    }
  }

  function BytesAt<K, V>(pending: map<K, Mutation<V>>, k: K): nat {
    if k in pending then pending[k].bytes else 0
  }

  /** The incremental cost update of one insertion is exact. */
  lemma SumInsert<K, V>(pending: map<K, Mutation<V>>, k: K, mutation: Mutation<V>)
    ensures SumBytes(pending[k := mutation]) == SumBytes(pending) - BytesAt(pending, k) + mutation.bytes
    ensures BytesAt(pending, k) <= SumBytes(pending)
  {
    SumWithout(pending[k := mutation], k);
    if k in pending {
      SumWithout(pending, k);
      assert pending[k := mutation] - {k} == pending - {k};
    } else {
      assert pending[k := mutation] - {k} == pending;
    }
  }

  function ListBytes<K, V>(mutations: seq<Keyed<K, V>>): nat {
    if mutations == [] then 0
    else mutations[|mutations| - 1].mutation.bytes + ListBytes(mutations[..|mutations| - 1])
  }

  lemma {:induction false} CollectKeepsCost<K, V>(mutations: seq<Keyed<K, V>>)
    requires DistinctKeys(mutations)
    ensures SumBytes(Collect(mutations)) == ListBytes(mutations)
    ensures |Collect(mutations)| == |mutations|
  {
    if mutations != [] {
      var front, last := mutations[..|mutations| - 1], mutations[|mutations| - 1];
      CollectKeepsCost(front);
      CollectDistinct(front);
      assert last.key !in Collect(front);
      SumInsert(Collect(front), last.key, last.mutation);
      assert Collect(mutations) - {last.key} == Collect(front);
      SmallerMap(Collect(mutations), last.key);
    }
  }

  // ----- A batch written out as a list of upserts followed by a list of removals -----

  function Upserted<K, V>(pending: map<K, Mutation<V>>): set<K> {
    set k | k in pending && pending[k].Upsert?
  }

  function Removed<K, V>(pending: map<K, Mutation<V>>): set<K> {
    set k | k in pending && pending[k].Remove?
  }

  function ListOf<K, V>(pending: map<K, Mutation<V>>, keys: seq<K>): seq<Keyed<K, V>>
    requires forall k :: k in keys ==> k in pending
  {
    seq(|keys|, i requires 0 <= i < |keys| => Keyed(keys[i], pending[keys[i]]))
  }

  lemma BatchAsList<K(!new), V>(pending: map<K, Mutation<V>>, up: seq<K>, gone: seq<K>)
    requires Enumerates(up, Upserted(pending)) && Enumerates(gone, Removed(pending))
    ensures Collect(ListOf(pending, up) + ListOf(pending, gone)) == pending
    ensures ListBytes(ListOf(pending, up) + ListOf(pending, gone)) == SumBytes(pending)
    ensures |up| + |gone| == |pending|
  {
    var list := ListOf(pending, up) + ListOf(pending, gone);
    assert DistinctKeys(list) by {
      forall i, j | 0 <= i < j < |list| ensures list[i].key != list[j].key {
        if i < |up| <= j {
          assert up[i] in Upserted(pending);
          assert gone[j - |up|] in Removed(pending);
        }
      }
    }
    forall k | k in pending ensures k in KeysOf(list) {
      if k in Upserted(pending) {
        var i :| 0 <= i < |up| && up[i] == k;
        assert list[i].key == k;
      } else {
        assert k in Removed(pending);
        var i :| 0 <= i < |gone| && gone[i] == k;
        assert list[|up| + i].key == k;
      }
    }
    CollectCovers(list, pending);
    CollectKeepsCost(list);
  }
}
