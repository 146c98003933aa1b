/** The sharded store (kvstore/KeyValueStore.java): 32 partitions, each key
    routed to one of them by its hash code. The store's contents are the
    union of the partitions' maps; because routing is a function of the key,
    the maps are disjoint and every store operation acts on the contents
    exactly as the partition operation acts on one map. */
module Store {
  import opened Java
  import opened DataKeys
  import opened Values
  import opened Partition

  const PARTITION_COUNT: nat := 32

  /** `getPartition`: the partition a key belongs to. */
  function PartitionOf(hash: DataKey -> Int32, key: DataKey): (i: nat)
    ensures i < PARTITION_COUNT
  {
    BucketIndex(hash(key), PARTITION_COUNT)
  }

  /** Every key sits in the partition its hash selects. */
  ghost predicate Routed(shards: seq<Entries>, hash: DataKey -> Int32)
  {
    forall i, k :: 0 <= i < |shards| && k in shards[i] ==> PartitionOf(hash, k) == i
  }

  /** The union of the partitions' maps. */
  function Union(shards: seq<Entries>): Entries
  {
    if shards == [] then map[] else Union(shards[..|shards| - 1]) + shards[|shards| - 1]
  }

  /** The sum of the partitions' sizes. */
  function SizeSum(shards: seq<Entries>): nat
  {
    if shards == [] then 0 else SizeSum(shards[..|shards| - 1]) + |shards[|shards| - 1]|
  }

  /** A key is in the union exactly when it is in its own partition, with
      that partition's entry. */
  lemma {:induction false} UnionLookup(shards: seq<Entries>, hash: DataKey -> Int32, key: DataKey)
    requires Routed(shards, hash)
    ensures var p := PartitionOf(hash, key);
            && (key in Union(shards) <==> p < |shards| && key in shards[p])
            && (key in Union(shards) ==> Union(shards)[key] == shards[p][key])
  {
    if shards != [] {
      var n := |shards| - 1;
      UnionLookup(shards[..n], hash, key);
    }
  }

  /** Storing `v` under `key` in the key's partition stores it in the union. */
  lemma {:induction false} UnionPut(shards: seq<Entries>, hash: DataKey -> Int32, key: DataKey, v: CachedDataValue)
    requires Routed(shards, hash) && PartitionOf(hash, key) < |shards|
    ensures var p := PartitionOf(hash, key);
            Union(shards[p := shards[p][key := v]]) == Union(shards)[key := v]
  {
    var p := PartitionOf(hash, key);
    var n := |shards| - 1;
    var updated := shards[p := shards[p][key := v]];
    var front := Union(shards[..n]);
    assert Union(updated) == Union(updated[..n]) + updated[n];
    if p == n {
      assert updated[..n] == shards[..n];
      PutOverUnion(front, shards[n], key, v);
    } else {
      assert updated[..n] == shards[..n][p := shards[p][key := v]];
      assert Routed(shards[..n], hash);
      UnionPut(shards[..n], hash, key, v);
      assert key !in shards[n];
      PutUnderUnion(front, shards[n], key, v);
    }
  }

  // Map identities for the last step of UnionPut and UnionRemove.

  lemma PutOverUnion(a: Entries, b: Entries, key: DataKey, v: CachedDataValue)
    ensures a + b[key := v] == (a + b)[key := v]
  {
  }

  lemma PutUnderUnion(a: Entries, b: Entries, key: DataKey, v: CachedDataValue)
    requires key !in b
    ensures a[key := v] + b == (a + b)[key := v]
  {
  }

  /** Removing `key` from its partition removes it from the union. */
  lemma {:induction false} UnionRemove(shards: seq<Entries>, hash: DataKey -> Int32, key: DataKey)
    requires Routed(shards, hash) && PartitionOf(hash, key) < |shards|
    ensures var p := PartitionOf(hash, key);
            Union(shards[p := shards[p] - {key}]) == Union(shards) - {key}
  {
    var p := PartitionOf(hash, key);
    var n := |shards| - 1;
    var updated := shards[p := shards[p] - {key}];
    var front := Union(shards[..n]);
    assert Union(updated) == Union(updated[..n]) + updated[n];
    if p == n {
      assert updated[..n] == shards[..n];
      UnionLookup(shards[..n], hash, key);
      RemoveOverUnion(front, shards[n], key);
    } else {
      assert updated[..n] == shards[..n][p := shards[p] - {key}];
      assert Routed(shards[..n], hash);
      UnionRemove(shards[..n], hash, key);
      assert key !in shards[n];
      RemoveUnderUnion(front, shards[n], key);
    }
  }

  lemma RemoveOverUnion(a: Entries, b: Entries, key: DataKey)
    requires key !in a
    ensures a + (b - {key}) == (a + b) - {key}
  {
  }

  lemma RemoveUnderUnion(a: Entries, b: Entries, key: DataKey)
    requires key !in b
    ensures (a - {key}) + b == (a + b) - {key}
  {
  }

  /** Disjoint partitions: the size of the union is the sum of the sizes. */
  lemma {:induction false} UnionSize(shards: seq<Entries>, hash: DataKey -> Int32)
    requires Routed(shards, hash)
    ensures |Union(shards)| == SizeSum(shards)
  {
    if shards != [] {
      var n := |shards| - 1;
      var front := Union(shards[..n]);
      UnionSize(shards[..n], hash);
      forall k | k in front
        ensures k !in shards[n]
      {
        UnionLookup(shards[..n], hash, k);
      }
      assert (front + shards[n]).Keys == front.Keys + shards[n].Keys;
      assert front.Keys * shards[n].Keys == {};
    }
  }

  /** Replacing one partition by a map holding only keys it held or `key`
      keeps every key in its own partition. */
  lemma RoutedAfterStep(shards: seq<Entries>, hash: DataKey -> Int32, key: DataKey, m: Entries)
    requires Routed(shards, hash) && PartitionOf(hash, key) < |shards|
    requires forall k :: k in m ==> k == key || k in shards[PartitionOf(hash, key)]
    ensures Routed(shards[PartitionOf(hash, key) := m], hash)
  {
  }

  ghost predicate AllVersionsPresent(shards: seq<Entries>)
  {
    forall i :: 0 <= i < |shards| ==> VersionsPresent(shards[i])
  }

  lemma {:induction false} UnionVersionsPresent(shards: seq<Entries>)
    requires AllVersionsPresent(shards)
    ensures VersionsPresent(Union(shards))
  {
    if shards != [] {
      UnionVersionsPresent(shards[..|shards| - 1]);
    }
  }

  /** `get` through the key's partition is `get` on the whole contents. */
  lemma GetCommutes(shards: seq<Entries>, hash: DataKey -> Int32, key: DataKey, now: Int64)
    requires Routed(shards, hash) && |shards| == PARTITION_COUNT
    ensures var p := PartitionOf(hash, key);
            var s := GetStep(shards[p], key, now);
            && Routed(shards[p := s.entries], hash)
            && Step(Union(shards[p := s.entries]), s.result) == GetStep(Union(shards), key, now)
  {
    var p := PartitionOf(hash, key);
    UnionLookup(shards, hash, key);
    var s := GetStep(shards[p], key, now);
    RoutedAfterStep(shards, hash, key, s.entries);
    if key in shards[p] {
      UnionPut(shards, hash, key, s.result.value);
    } else {
      assert shards[p := s.entries] == shards;
    }
  }

  /** `set` through the key's partition is `set` on the whole contents. */
  lemma SetCommutes(shards: seq<Entries>, hash: DataKey -> Int32, key: DataKey,
                    value: RequestDataValue, expected: Option<Int64>, now: Int64)
    requires Routed(shards, hash) && |shards| == PARTITION_COUNT && AllVersionsPresent(shards)
    ensures VersionsPresent(Union(shards))
    ensures var p := PartitionOf(hash, key);
            var s := SetStep(shards[p], key, value, expected, now);
            && Routed(shards[p := s.entries], hash)
            && Step(Union(shards[p := s.entries]), s.result)
               == SetStep(Union(shards), key, value, expected, now)
  {
    var p := PartitionOf(hash, key);
    UnionLookup(shards, hash, key);
    UnionVersionsPresent(shards);
    var s := SetStep(shards[p], key, value, expected, now);
    SetDependsOnKeyOnly(Union(shards), shards[p], key, value, expected, now);
    RoutedAfterStep(shards, hash, key, s.entries);
    if s.entries != shards[p] {
      UnionPut(shards, hash, key, s.entries[key]);
    } else {
      assert shards[p := s.entries] == shards;
    }
  }

  /** `set` looks at nothing but the one key: on two maps that agree on it,
      it returns the same and either changes neither or stores the same
      entry in both. */
  lemma SetDependsOnKeyOnly(big: Entries, small: Entries, key: DataKey,
                            value: RequestDataValue, expected: Option<Int64>, now: Int64)
    requires VersionsPresent(big) && VersionsPresent(small)
    requires key in big <==> key in small
    requires key in small ==> big[key] == small[key]
    ensures var b := SetStep(big, key, value, expected, now);
            var s := SetStep(small, key, value, expected, now);
            && b.result == s.result
            && (s.entries == small ==> b.entries == big)
            && (s.entries != small ==>
                  key in s.entries && s.entries == small[key := s.entries[key]]
                  && b.entries == big[key := s.entries[key]])
  {
    assert SetOperation(big, key, value, expected) == SetOperation(small, key, value, expected);
  }

  /** `remove` through the key's partition is `remove` on the whole contents. */
  lemma RemoveCommutes(shards: seq<Entries>, hash: DataKey -> Int32, key: DataKey)
    requires Routed(shards, hash) && |shards| == PARTITION_COUNT
    ensures var p := PartitionOf(hash, key);
            var s := RemoveStep(shards[p], key);
            && Routed(shards[p := s.entries], hash)
            && Step(Union(shards[p := s.entries]), s.result) == RemoveStep(Union(shards), key)
  {
    UnionLookup(shards, hash, key);
    UnionRemove(shards, hash, key);
    RoutedAfterStep(shards, hash, key, RemoveStep(shards[PartitionOf(hash, key)], key).entries);
  }

  /** The store: a fixed array of 32 partitions and the key hash code. */
  class KeyValueStore {
    const partitions: array<KeyValuePartition?>
    const hash: DataKey -> Int32
    ghost const parts: seq<KeyValuePartition>

    ghost predicate Valid()
      reads this, partitions, parts
    {
      && partitions.Length == PARTITION_COUNT
      && |parts| == PARTITION_COUNT
      && (forall i :: 0 <= i < PARTITION_COUNT ==> partitions[i] == parts[i])
      && (forall i, j :: 0 <= i < j < PARTITION_COUNT ==> parts[i] != parts[j])
      && (forall i :: 0 <= i < PARTITION_COUNT ==> parts[i].partitionId == i && parts[i].Valid())
      && Routed(Shards(), hash)
    }

    /** The partitions' maps, in partition order. */
    ghost function Shards(): (s: seq<Entries>)
      reads this, parts
      ensures |s| == |parts|
      ensures forall i :: 0 <= i < |parts| ==> s[i] == parts[i].entries
    {
      seq(|parts|, i requires 0 <= i < |parts| reads this, parts => parts[i].entries)
    }

    /** Every entry of the store, whatever its partition. */
    ghost function Contents(): Entries
      reads this, parts
    {
      Union(Shards())
    }

    /** Every stored entry has a version, whatever partition holds it. */
    lemma ContentsVersionsPresent()
      requires Valid()
      ensures VersionsPresent(Contents())
    {
      UnionVersionsPresent(Shards());
    }

    /** Creates the 32 partitions, with ids 0 to 31, all empty. */
    constructor (hash: DataKey -> Int32)
      ensures Valid() && this.hash == hash
      ensures Contents() == map[]
      ensures forall i :: 0 <= i < PARTITION_COUNT ==> parts[i].partitionId == i
      ensures fresh(partitions) && forall i :: 0 <= i < PARTITION_COUNT ==> fresh(parts[i])
    {
      var slots := new KeyValuePartition?[PARTITION_COUNT];
      var created: seq<KeyValuePartition> := [];
      var i := 0;
      while i < PARTITION_COUNT
        invariant 0 <= i <= PARTITION_COUNT && |created| == i
        invariant forall j :: 0 <= j < i ==> slots[j] == created[j]
        invariant forall j :: 0 <= j < i ==> fresh(created[j])
        invariant forall j, k :: 0 <= j < k < i ==> created[j] != created[k]
        invariant forall j :: 0 <= j < i ==>
                    created[j].partitionId == j && created[j].entries == map[] && created[j].Valid()
      {
        var partition := new KeyValuePartition(i as Int32);
        slots[i] := partition;
        created := created + [partition];
        i := i + 1;
      }
      partitions := slots;
      this.hash := hash;
      parts := created;
      new;
      assert Union(Shards()) == map[] by {
        EmptyUnion(Shards());
      }
    }

    /** `getPartition`. */
    function GetPartition(key: DataKey): (i: nat)
      reads this
      requires partitions.Length == PARTITION_COUNT
      ensures i < partitions.Length && i == PartitionOf(hash, key)
    {
      BucketIndex(hash(key), partitions.Length)
    }

    method Get(key: DataKey, now: Int64) returns (r: Option<CachedDataValue>)
      requires Valid()
      modifies parts[PartitionOf(hash, key)]
      ensures Valid()
      ensures var p := PartitionOf(hash, key);
              Shards() == old(Shards())[p := GetStep(old(Shards())[p], key, now).entries]
      ensures Step(Contents(), r) == GetStep(old(Contents()), key, now)
    {
      var p := GetPartition(key);
      ghost var before := Shards();
      r := partitions[p].Get(key, now);
      assert Shards() == before[p := parts[p].entries];
      GetCommutes(before, hash, key, now);
    }

    method Set(key: DataKey, value: RequestDataValue, prevVersion: Option<Int64>, now: Int64)
      returns (r: Result<CachedDataValue>)
      requires Valid()
      modifies parts[PartitionOf(hash, key)]
      ensures Valid()
      ensures var p := PartitionOf(hash, key);
              Shards() == old(Shards())[p := SetStep(old(Shards())[p], key, value, prevVersion, now).entries]
      ensures VersionsPresent(old(Contents()))
      ensures Step(Contents(), r) == SetStep(old(Contents()), key, value, prevVersion, now)
    {
      var p := GetPartition(key);
      ghost var before := Shards();
      r := partitions[p].Set(key, value, prevVersion, now);
      assert Shards() == before[p := parts[p].entries];
      SetCommutes(before, hash, key, value, prevVersion, now);
    }

    method Remove(key: DataKey) returns (r: Option<CachedDataValue>)
      requires Valid()
      modifies parts[PartitionOf(hash, key)]
      ensures Valid()
      ensures var p := PartitionOf(hash, key);
              Shards() == old(Shards())[p := RemoveStep(old(Shards())[p], key).entries]
      ensures Step(Contents(), r) == RemoveStep(old(Contents()), key)
    {
      var p := GetPartition(key);
      ghost var before := Shards();
      r := partitions[p].Remove(key);
      assert Shards() == before[p := parts[p].entries];
      RemoveCommutes(before, hash, key);
    }

    method ContainsKey(key: DataKey) returns (b: bool)
      requires Valid()
      ensures b <==> key in Contents()
    {
      var p := GetPartition(key);
      b := partitions[p].ContainsKey(key);
      UnionLookup(Shards(), hash, key);
    }

    /** The sum of the partition sizes, which is the number of keys stored. */
    method TotalKeys() returns (total: nat)
      requires Valid()
      ensures total == SizeSum(Shards())
      ensures total == |Contents()|
    {
      ghost var shards := Shards();
      total := 0;
      var i := 0;
      while i < PARTITION_COUNT
        invariant 0 <= i <= PARTITION_COUNT
        invariant total == SizeSum(shards[..i])
        invariant Shards() == shards
      {
        var n := partitions[i].TotalKeys();
        SizeSumStep(shards, i);
        total := total + n;
        i := i + 1;
      }
      assert shards[..PARTITION_COUNT] == shards;
      UnionSize(shards, hash);
    }

    /** The partitions' key sets one after another: each stored key exactly
        once, grouped by partition in partition order. */
    method GetAllKeys() returns (keys: seq<DataKey>)
      requires Valid()
      ensures forall k :: k in keys <==> k in Contents()
      ensures Distinct(keys)
      ensures forall a, b :: 0 <= a < b < |keys| ==> PartitionOf(hash, keys[a]) <= PartitionOf(hash, keys[b])
      ensures |keys| == |Contents()|
    {
      ghost var shards := Shards();
      keys := [];
      var i := 0;
      while i < PARTITION_COUNT
        invariant 0 <= i <= PARTITION_COUNT
        invariant ListsFirstShards(keys, shards, hash, i)
        invariant Shards() == shards
      {
        var partKeys := partitions[i].GetAllKeys();
        var block := Enumerate(partKeys);
        assert partKeys == shards[i].Keys;
        AppendShard(keys, block, shards, hash, i);
        keys := keys + block;
        i := i + 1;
      }
      ListsAllShards(keys, shards, hash);
    }
  }

  ghost predicate Distinct(s: seq<DataKey>)
  {
    forall a, b :: 0 <= a < b < |s| ==> s[a] != s[b]
  }

  /** `keys` lists the keys of the first `n` partitions, each once, in
      partition order. */
  ghost predicate ListsFirstShards(keys: seq<DataKey>, shards: seq<Entries>, hash: DataKey -> Int32, n: nat)
  {
    && n <= |shards|
    && (forall k :: k in keys <==> PartitionOf(hash, k) < n && k in shards[PartitionOf(hash, k)])
    && Distinct(keys)
    && (forall a, b :: 0 <= a < b < |keys| ==> PartitionOf(hash, keys[a]) <= PartitionOf(hash, keys[b]))
    && |keys| == SizeSum(shards[..n])
  }

  lemma AppendShard(keys: seq<DataKey>, block: seq<DataKey>, shards: seq<Entries>,
                    hash: DataKey -> Int32, n: nat)
    requires Routed(shards, hash) && n < |shards|
    requires ListsFirstShards(keys, shards, hash, n)
    requires forall k :: k in block <==> k in shards[n]
    requires Distinct(block) && |block| == |shards[n].Keys|
    ensures ListsFirstShards(keys + block, shards, hash, n + 1)
  {
    assert forall k :: k in block ==> PartitionOf(hash, k) == n;
    assert shards[..n + 1][..n] == shards[..n];
    var all := keys + block;
    forall a, b | 0 <= a < b < |all|
      ensures all[a] != all[b]
      ensures PartitionOf(hash, all[a]) <= PartitionOf(hash, all[b])
    {
      if b < |keys| {
      } else if a >= |keys| {
        assert all[a] == block[a - |keys|] && all[b] == block[b - |keys|];
      } else {
        assert all[a] in keys && all[b] == block[b - |keys|];
      }
    }
  }

  lemma SizeSumStep(shards: seq<Entries>, i: nat)
    requires i < |shards|
    ensures SizeSum(shards[..i + 1]) == SizeSum(shards[..i]) + |shards[i]|
  {
    assert shards[..i + 1][..i] == shards[..i];
  }

  /** Once every partition is listed, the list holds exactly the union. */
  lemma ListsAllShards(keys: seq<DataKey>, shards: seq<Entries>, hash: DataKey -> Int32)
    requires Routed(shards, hash) && ListsFirstShards(keys, shards, hash, |shards|)
    ensures forall k :: k in keys <==> k in Union(shards)
    ensures |keys| == |Union(shards)|
  {
    assert shards[..|shards|] == shards;
    UnionSize(shards, hash);
    forall k
      ensures k in keys <==> k in Union(shards)
    {
      UnionLookup(shards, hash, k);
    }
  }

  lemma {:induction false} EmptyUnion(shards: seq<Entries>)
    requires forall i :: 0 <= i < |shards| ==> shards[i] == map[]
    ensures Union(shards) == map[]
  {
    if shards != [] {
      EmptyUnion(shards[..|shards| - 1]);
    }
  }

  /** The elements of a set, each once, in some order (the order a set's
      stream yields them in is not modelled). */
  method Enumerate(s: set<DataKey>) returns (r: seq<DataKey>)
    ensures forall x :: x in r <==> x in s
    ensures Distinct(r)
    ensures |r| == |s|
  {
    r := [];
    var rest := s;
    while rest != {}
      invariant forall x :: x in r <==> x in s && x !in rest
      invariant rest <= s
      invariant forall a, b :: 0 <= a < b < |r| ==> r[a] != r[b]
      invariant |r| + |rest| == |s|
      decreases |rest|
    {
      var x :| x in rest;
      r := r + [x];
      rest := rest - {x};
    }
  }
}
