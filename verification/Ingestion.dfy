/** Batch ingestion: deduplicate, cut into batches, upsert (`backend/database/ingestion.py`). A repository
    is a map from the unique key of its records to the records. */
module Ingestion {
  import opened Results
  import opened Seqs
  import opened InsertionDict

  /** What a sequence of upserts leaves of a store. */
  function Upserted<K, T>(key: T -> K, store: map<K, T>, items: seq<T>): map<K, T> {
    if items == [] then store else Upserted(key, store, Front(items))[key(Last(items)) := Last(items)]
  }

  // ----- Deduplication -----

  function ByKey<K(==), T>(key: T -> K, values: seq<T>): (d: Dict<K, T>)
    ensures d.Valid()
  {
    if values == [] then Empty() else ByKey(key, Front(values)).Put(key(Last(values)), Last(values))
  }

  function Deduped<K(==), T>(key: T -> K, values: seq<T>): seq<T> {
    ByKey(key, values).Values()
  }

  method DedupeByKey<K(==), T>(key: T -> K, values: seq<T>) returns (deduped: seq<T>)
    ensures deduped == Deduped(key, values)
  {
    var indexByKey: Dict<K, T> := Empty();
    for i := 0 to |values|
      invariant indexByKey == ByKey(key, values[..i])
    {
      TakeNext(values, i);
      indexByKey := indexByKey.Put(key(values[i]), values[i]);
    }
    assert values[..|values|] == values;
    deduped := indexByKey.Values();
  }

  lemma {:induction false} EntriesAreUpserts<K, T>(key: T -> K, values: seq<T>)
    ensures ByKey(key, values).entries == Upserted(key, map[], values)
  {
    if values != [] {
      EntriesAreUpserts(key, Front(values));
    }
  }

  /** `k` is the place of the last record with its key. */
  ghost predicate LastOfItsKey<K, T>(key: T -> K, values: seq<T>, k: int) {
    0 <= k < |values| && forall i :: k < i < |values| ==> key(values[i]) != key(values[k])
  }

  /** The store's record for a key is the last one written for it. */
  lemma {:induction false} UpsertKeepsLast<K, T>(key: T -> K, store: map<K, T>, items: seq<T>, k: int)
    requires LastOfItsKey(key, items, k)
    ensures key(items[k]) in Upserted(key, store, items) && Upserted(key, store, items)[key(items[k])] == items[k]
  {
    if k < |items| - 1 {
      assert forall i :: k < i < |items| - 1 ==> Front(items)[i] == items[i];
      assert LastOfItsKey(key, Front(items), k);
      UpsertKeepsLast(key, store, Front(items), k);
    }
  }

  lemma {:induction false} UpsertKeys<K, T>(key: T -> K, store: map<K, T>, items: seq<T>, x: K)
    ensures x in Upserted(key, store, items) <==> x in store || exists i :: 0 <= i < |items| && key(items[i]) == x
  {
    if items != [] {
      var n := |items| - 1;
      UpsertKeys(key, store, Front(items), x);
      assert forall i :: 0 <= i < n ==> Front(items)[i] == items[i];
      if exists i :: 0 <= i < n && key(Front(items)[i]) == x {
        var i :| 0 <= i < n && key(Front(items)[i]) == x;
        assert key(items[i]) == x;
      }
      assert key(Last(items)) == x ==> key(items[n]) == x;
    }
  }

  /** The store after an import: for a key of the payload the last record with it, and otherwise what it held before. */
  lemma StoreIsExact<K, T>(key: T -> K, store: map<K, T>, items: seq<T>, x: K)
    ensures forall k :: LastOfItsKey(key, items, k) && key(items[k]) == x ==>
              x in Upserted(key, store, items) && Upserted(key, store, items)[x] == items[k]
    ensures (forall i :: 0 <= i < |items| ==> key(items[i]) != x) ==>
              && (x in Upserted(key, store, items) <==> x in store)
              && (x in store ==> Upserted(key, store, items)[x] == store[x])
  {
    forall k | LastOfItsKey(key, items, k) && key(items[k]) == x
      ensures x in Upserted(key, store, items) && Upserted(key, store, items)[x] == items[k]
    {
      UpsertKeepsLast(key, store, items, k);
    }
    if forall i :: 0 <= i < |items| ==> key(items[i]) != x {
      UpsertLeavesOthers(key, store, items, x);
    }
  }

  lemma {:induction false} UpsertLeavesOthers<K, T>(key: T -> K, store: map<K, T>, items: seq<T>, x: K)
    requires forall i :: 0 <= i < |items| ==> key(items[i]) != x
    ensures x in Upserted(key, store, items) <==> x in store
    ensures x in store ==> Upserted(key, store, items)[x] == store[x]
  {
    if items != [] {
      assert forall i :: 0 <= i < |items| - 1 ==> Front(items)[i] == items[i];
      UpsertLeavesOthers(key, store, Front(items), x);
    }
  }

  lemma {:induction false} HasLast<K, T>(key: T -> K, values: seq<T>, i: nat) returns (k: int)
    requires i < |values|
    ensures i <= k && LastOfItsKey(key, values, k) && key(values[k]) == key(values[i])
    decreases |values| - i
  {
    if j :| i < j < |values| && key(values[j]) == key(values[i]) {
      k := HasLast(key, values, j);
    } else {
      k := i;
    }
  }

  lemma EntryHasItsKey<K, T>(key: T -> K, values: seq<T>, x: K)
    requires x in ByKey(key, values).entries
    ensures exists k :: LastOfItsKey(key, values, k) && key(values[k]) == x && ByKey(key, values).entries[x] == values[k]
  {
    EntriesAreUpserts(key, values);
    UpsertKeys(key, map[], values, x);
    var i :| 0 <= i < |values| && key(values[i]) == x;
    var k := HasLast(key, values, i);
    UpsertKeepsLast(key, map[], values, k);
  }

  /** Deduplication keeps exactly the last record of every key, and one record per key. */
  lemma DedupeKeepsLast<K, T>(key: T -> K, values: seq<T>, x: T)
    ensures x in Deduped(key, values) <==> exists k :: LastOfItsKey(key, values, k) && values[k] == x
  {
    var d := ByKey(key, values);
    if x in Deduped(key, values) {
      var i :| 0 <= i < |d.Values()| && d.Values()[i] == x;
      EntryHasItsKey(key, values, d.keys[i]);
    }
    if exists k :: LastOfItsKey(key, values, k) && values[k] == x {
      var k :| LastOfItsKey(key, values, k) && values[k] == x;
      EntriesAreUpserts(key, values);
      UpsertKeepsLast(key, map[], values, k);
      assert key(x) in (set y | y in d.keys);
      var i :| 0 <= i < |d.keys| && d.keys[i] == key(x);
      assert d.Values()[i] == x;
    }
  }

  /** No two records of a deduplicated payload share a key, so no batch writes a row twice. */
  lemma DedupedKeysAreDistinct<K, T>(key: T -> K, values: seq<T>, i: nat, j: nat)
    requires i < j < |Deduped(key, values)|
    ensures key(Deduped(key, values)[i]) != key(Deduped(key, values)[j])
  {
    var d := ByKey(key, values);
    EntryHasItsKey(key, values, d.keys[i]);
    EntryHasItsKey(key, values, d.keys[j]);
  }

  // ----- Upserting -----

  lemma {:induction false} UpsertAppend<K, T>(key: T -> K, store: map<K, T>, a: seq<T>, b: seq<T>)
    ensures Upserted(key, store, a + b) == Upserted(key, Upserted(key, store, a), b)
  {
    if b == [] {
      assert a + b == a;
    } else {
      assert Front(a + b) == a + Front(b);
      UpsertAppend(key, store, a, Front(b));
    }
  }

  lemma {:induction false} UpsertIsMerge<K, T>(key: T -> K, store: map<K, T>, items: seq<T>)
    ensures Upserted(key, store, items) == store + Upserted(key, map[], items)
  {
    if items != [] {
      UpsertIsMerge(key, store, Front(items));
    }
  }

  function Part<K, T>(d: Dict<K, T>, n: nat): map<K, T>
    requires d.Valid() && n <= |d.keys|
  {
    assert forall k :: k in d.keys ==> k in (set x | x in d.keys);
    map k | k in d.keys[..n] :: d.entries[k]
  }

  lemma PartNext<K, T>(d: Dict<K, T>, n: nat)
    requires d.Valid() && n < |d.keys|
    ensures d.Values()[n] == d.entries[d.keys[n]]
    ensures Part(d, n + 1) == Part(d, n)[d.keys[n] := d.entries[d.keys[n]]]
  {
    assert d.keys[..n + 1] == d.keys[..n] + [d.keys[n]];
  }

  lemma {:induction false} ValuesRebuild<K, T>(key: T -> K, d: Dict<K, T>, n: nat)
    requires d.Valid() && n <= |d.keys|
    requires forall k :: k in d.entries ==> key(d.entries[k]) == k
    ensures Upserted(key, map[], d.Values()[..n]) == Part(d, n)
  {
    if n > 0 {
      ValuesRebuild(key, d, n - 1);
      TakeNext(d.Values(), n - 1);
      PartNext(d, n - 1);
    }
  }

  lemma PartIsAll<K, T>(d: Dict<K, T>)
    requires d.Valid()
    ensures Part(d, |d.keys|) == d.entries
  {
    assert d.keys[..|d.keys|] == d.keys;
    assert forall k :: k in d.keys <==> k in (set y | y in d.keys);
  }

  /** Upserting the deduplicated payload leaves the same store as upserting every record one by one. */
  lemma DedupePreservesUpserts<K, T>(key: T -> K, store: map<K, T>, values: seq<T>)
    ensures Upserted(key, store, Deduped(key, values)) == Upserted(key, store, values)
  {
    var d := ByKey(key, values);
    forall k | k in d.entries ensures key(d.entries[k]) == k {
      EntryHasItsKey(key, values, k);
    }
    ValuesRebuild(key, d, |d.keys|);
    assert d.Values()[..|d.keys|] == d.Values();
    PartIsAll(d);
    EntriesAreUpserts(key, values);
    UpsertIsMerge(key, store, values);
    UpsertIsMerge(key, store, Deduped(key, values));
  }

  /** Importing a payload twice leaves the store as importing it once does. */
  lemma ReimportChangesNothing<K, T>(key: T -> K, store: map<K, T>, values: seq<T>)
    ensures Upserted(key, Upserted(key, store, values), values) == Upserted(key, store, values)
  {
    UpsertIsMerge(key, store, values);
    UpsertIsMerge(key, Upserted(key, store, values), values);
  }

  // ----- Batches -----

  function Clip(i: int, bound: nat): (r: nat)
    requires 0 <= i
    ensures r <= bound
  {
    if i <= bound then i else bound
  }

  function TotalChunks(length: nat, size: nat): (n: nat)
    requires size > 0
  {
    (length + size - 1) / size
  }

  function ChunkAt<T>(values: seq<T>, size: nat, index: nat): seq<T> {
    var lo, hi := Clip(index * size, |values|), Clip((index + 1) * size, |values|);
    assert (index + 1) * size == index * size + size;
    values[lo..hi]
  }

  function Chunks<T>(values: seq<T>, size: nat): (r: seq<seq<T>>)
    requires size > 0
    ensures |r| == TotalChunks(|values|, size)
  {
    seq(TotalChunks(|values|, size), i requires i >= 0 => ChunkAt(values, size, i))
  }

  lemma TotalCovers(length: nat, size: nat)
    requires size > 0
    ensures var n := TotalChunks(length, size);
            length <= n * size < length + size
  {
    var n := TotalChunks(length, size);
    assert length + size - 1 == n * size + (length + size - 1) % size;
  }

  lemma FullBefore(i: nat, n: nat, size: nat)
    requires i + 1 < n
    ensures (i + 1) * size <= (n - 1) * size && (n - 1) * size == n * size - size
  {
    assert (n - 1 - (i + 1)) * size >= 0;
    assert (n - 1) * size == (i + 1) * size + (n - 1 - (i + 1)) * size;
  }

  lemma LastStartsInside(n: nat, size: nat)
    requires n > 0
    ensures (n - 1) * size == n * size - size
  {
  }

  /** Every batch but the last is exactly full, and the last one is not empty. */
  lemma BatchesAreFull<T>(values: seq<T>, size: nat, i: nat)
    requires size > 0 && i < |Chunks(values, size)|
    ensures i < |Chunks(values, size)| - 1 ==> |Chunks(values, size)[i]| == size
    ensures 0 < |Chunks(values, size)[i]| <= size
  {
    var n := TotalChunks(|values|, size);
    TotalCovers(|values|, size);
    assert (i + 1) * size == i * size + size;
    if i < n - 1 {
      FullBefore(i, n, size);
    } else {
      LastStartsInside(n, size);
    }
  }

  function Identity<T>(s: seq<T>): seq<T> { s }

  lemma {:induction false} ChunksArePrefix<T>(values: seq<T>, size: nat, n: nat)
    requires size > 0 && n <= |Chunks(values, size)|
    ensures FlatMap(Identity, Chunks(values, size)[..n]) == values[..Clip(n * size, |values|)]
  {
    if n > 0 {
      var all := Chunks(values, size);
      ChunksArePrefix(values, size, n - 1);
      TakeNext(all, n - 1);
      assert n * size == (n - 1) * size + size;
      assert all[n - 1] == ChunkAt(values, size, n - 1);
      var lo, hi := Clip((n - 1) * size, |values|), Clip(n * size, |values|);
      assert values[..hi] == values[..lo] + values[lo..hi];
    }
  }

  /** The batches, put one behind the other, are the payload. */
  lemma BatchesConcatenate<T>(values: seq<T>, size: nat)
    requires size > 0
    ensures FlatMap(Identity, Chunks(values, size)) == values
  {
    var all := Chunks(values, size);
    ChunksArePrefix(values, size, |all|);
    TotalCovers(|values|, size);
    assert all[..|all|] == all && values[..|values|] == values;
  }

  // ----- Ingesting -----

  class Repository<K(==), T> {
    var rows: map<K, T>

    constructor ()
      ensures rows == map[]
    {
      rows := map[];
    }

    method BatchUpsert(key: T -> K, batch: seq<T>)
      modifies this
      ensures rows == Upserted(key, old(rows), batch)
    {
      for i := 0 to |batch|
        invariant rows == Upserted(key, old(rows), batch[..i])
      {
        TakeNext(batch, i);
        rows := rows[key(batch[i]) := batch[i]];
      }
      assert batch[..|batch|] == batch;
    }
  }

  datatype ImportResult = ImportResult(requested: nat, processed: nat, insertedOrUpdated: nat, duplicatesDropped: nat)

  datatype IngestError = BatchSizeNotPositive

  /** Whatever the batch size, the store ends as if every record had been written one by one. */
  method GenericIngest<K(==), T>(repository: Repository<K, T>, key: T -> K, payload: seq<T>, batchSize: int)
    returns (r: Result<ImportResult, IngestError>)
    modifies repository
    ensures r.Err? <==> batchSize <= 0
    ensures r.Err? ==> repository.rows == old(repository.rows)
    ensures r.Ok? ==>
              && repository.rows == Upserted(key, old(repository.rows), payload)
              && r.value.requested == |payload| == r.value.processed + r.value.duplicatesDropped
              && r.value.processed == |Deduped(key, payload)| == r.value.insertedOrUpdated
  {
    var deduped := DedupeByKey(key, payload);
    if batchSize <= 0 {
      return Err(BatchSizeNotPositive);
    }
    var batches := Chunks(deduped, batchSize);
    ghost var before := repository.rows;
    var processed := 0;
    for i := 0 to |batches|
      invariant repository.rows == Upserted(key, before, FlatMap(Identity, batches[..i]))
      invariant processed == |FlatMap(Identity, batches[..i])|
    {
      TakeNext(batches, i);
      UpsertAppend(key, before, FlatMap(Identity, batches[..i]), batches[i]);
      repository.BatchUpsert(key, batches[i]);
      processed := processed + |batches[i]|;
    }
    assert batches[..|batches|] == batches;
    BatchesConcatenate(deduped, batchSize);
    DedupePreservesUpserts(key, before, payload);
    DedupeDropsOnly(key, payload);
    r := Ok(ImportResult(|payload|, processed, processed, |payload| - |deduped|));
  }

  lemma {:induction false} DedupeDropsOnly<K, T>(key: T -> K, values: seq<T>)
    ensures |Deduped(key, values)| <= |values|
  {
    if values != [] {
      DedupeDropsOnly(key, Front(values));
    }
  }
}
