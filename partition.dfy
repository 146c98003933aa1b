/** One shard of the store (kvstore/KeyValuePartition.java): a map from keys
    to versioned entries. Every operation runs as one task on the shard's
    single-thread executor, so each is one atomic step here. The step
    functions say what an operation does to the map and what it returns;
    the class applies them in place. */
module Partition {
  import opened Java
  import opened DataKeys
  import opened Values

  type Entries = map<DataKey, CachedDataValue>

  /** What `set` decides to do with an entry that is already stored. */
  datatype OperationType = Insert | Update | Skip | VersionMismatch

  /** The new map and the value the operation's future completes with. */
  datatype Step<T> = Step(entries: Entries, result: T)

  /** Entries are only ever created with a version, so unboxing the stored
      version in `operationType` never fails. */
  ghost predicate VersionsPresent(entries: Entries)
  {
    forall k :: k in entries ==> entries[k].version.Some?
  }

  ghost predicate VersionsNonNegative(entries: Entries)
  {
    forall k :: k in entries ==> entries[k].version.Some? && entries[k].version.value >= 0
  }

  /** `operationType`: the decision for a key that has `oldValue` stored.
      The `-1` arm asks the map again whether the key is present. */
  function OperationTypeFor(entries: Entries, key: DataKey, newValue: RequestDataValue,
                            oldValue: CachedDataValue, expected: Option<Int64>): OperationType
    requires oldValue.version.Some?
  {
    var actual := oldValue.version.value;
    if expected.None? || actual == expected.value then
      if newValue.data == oldValue.data then Skip else Update
    else if expected.value == -1 then
      if key in entries then VersionMismatch else Insert
    else VersionMismatch
  }

  /** The decision `set` takes: INSERT for an absent key, else `operationType`. */
  function SetOperation(entries: Entries, key: DataKey, value: RequestDataValue,
                        expected: Option<Int64>): OperationType
    requires VersionsPresent(entries)
  {
    if key !in entries then Insert
    else OperationTypeFor(entries, key, value, entries[key], expected)
  }

  /** `get`: a hit is stored again with a fresh access time and returned. */
  function GetStep(entries: Entries, key: DataKey, now: Int64): Step<Option<CachedDataValue>>
  {
    if key !in entries then Step(entries, None)
    else
      var stored := entries[key];
      var updated := CachedDataValue(stored.data, stored.dataType, now, stored.version);
      Step(entries[key := updated], Some(updated))
  }

  /** `set`: the map after the chosen arm and what the future completes
      with; a version mismatch completes it exceptionally. */
  function SetStep(entries: Entries, key: DataKey, value: RequestDataValue,
                   expected: Option<Int64>, now: Int64): Step<Result<CachedDataValue>>
    requires VersionsPresent(entries)
  {
    match SetOperation(entries, key, value, expected)
    case Insert =>
      var created := CreateNewFrom(value, now);
      Step(entries[key := created], Normal(created))
    case Update =>
      var updated := CreateUpdatedFrom(value, now, LongInc(entries[key].version.value));
      Step(entries[key := updated], Normal(updated))
    case Skip => Step(entries, Normal(entries[key]))
    case VersionMismatch => Step(entries, Raised(ConcurrentUpdateException))
  }

  /** `remove`: the key is gone and the previous entry, or null, is returned. */
  function RemoveStep(entries: Entries, key: DataKey): Step<Option<CachedDataValue>>
  {
    Step(entries - {key}, if key in entries then Some(entries[key]) else None)
  }

  // ---- get ----

  /** A miss returns null and leaves the map as it was. */
  lemma GetAbsent(entries: Entries, key: DataKey, now: Int64)
    requires key !in entries
    ensures GetStep(entries, key, now) == Step(entries, None)
  {
  }

  /** A hit returns the entry with only its access time changed to `now`,
      stores exactly that, and touches no other key. */
  lemma GetPresent(entries: Entries, key: DataKey, now: Int64)
    requires key in entries
    ensures var s := GetStep(entries, key, now);
            && s.result.Some?
            && s.result.value.data == entries[key].data
            && s.result.value.dataType == entries[key].dataType
            && s.result.value.version == entries[key].version
            && s.result.value.lastAccessTimeMs == now
            && s.entries.Keys == entries.Keys
            && s.entries[key] == s.result.value
            && (forall k :: k in entries && k != key ==> s.entries[k] == entries[k])
  {
  }

  /** A read only refreshes an access time: keys and versions are kept. */
  lemma GetKeepsVersions(entries: Entries, key: DataKey, now: Int64)
    requires VersionsPresent(entries)
    ensures VersionsPresent(GetStep(entries, key, now).entries)
    ensures GetStep(entries, key, now).entries.Keys == entries.Keys
    ensures forall k :: k in entries ==> GetStep(entries, key, now).entries[k].version == entries[k].version
  {
  }

  // ---- set ----

  /** On an absent key `set` inserts with version 0, whatever version the
      caller expected. */
  lemma SetAbsentInserts(entries: Entries, key: DataKey, value: RequestDataValue,
                         expected: Option<Int64>, now: Int64)
    requires VersionsPresent(entries) && key !in entries
    ensures var s := SetStep(entries, key, value, expected, now);
            && s.result == Normal(CachedDataValue(value.data, value.dataType, now, Some(0)))
            && s.entries == entries[key := s.result.value]
  {
  }

  /** With a null or matching expected version and different bytes, the new
      bytes are stored with the old version plus one. */
  lemma SetUpdates(entries: Entries, key: DataKey, value: RequestDataValue,
                   expected: Option<Int64>, now: Int64)
    requires VersionsPresent(entries) && key in entries
    requires expected.None? || expected == entries[key].version
    requires value.data != entries[key].data
    ensures var s := SetStep(entries, key, value, expected, now);
            && s.result.Normal?
            && s.result.value.data == value.data
            && s.result.value.dataType == value.dataType
            && s.result.value.version == Some(LongInc(entries[key].version.value))
            && s.result.value.lastAccessTimeMs == now
            && s.entries == entries[key := s.result.value]
  {
  }

  /** With a null or matching expected version and identical bytes, the
      stored entry is returned and nothing changes. */
  lemma SetSkips(entries: Entries, key: DataKey, value: RequestDataValue,
                 expected: Option<Int64>, now: Int64)
    requires VersionsPresent(entries) && key in entries
    requires expected.None? || expected == entries[key].version
    requires value.data == entries[key].data
    ensures SetStep(entries, key, value, expected, now) == Step(entries, Normal(entries[key]))
  {
  }

  /** A present key with a different expected version, `-1` included, fails
      with ConcurrentUpdateException and the map is unchanged: the INSERT arm
      of the `-1` case cannot be reached, since the key is known to be there. */
  lemma SetMismatch(entries: Entries, key: DataKey, value: RequestDataValue,
                    expected: Int64, now: Int64)
    requires VersionsPresent(entries) && key in entries
    requires entries[key].version != Some(expected)
    ensures SetStep(entries, key, value, Some(expected), now)
            == Step(entries, Raised(ConcurrentUpdateException))
  {
  }

  /** `set` fails exactly on a present key whose version differs from a
      non-null expected version; otherwise the key is stored afterwards. */
  lemma SetFailsIff(entries: Entries, key: DataKey, value: RequestDataValue,
                    expected: Option<Int64>, now: Int64)
    requires VersionsPresent(entries)
    ensures var s := SetStep(entries, key, value, expected, now);
            && (s.result.Raised? <==>
                  key in entries && expected.Some? && entries[key].version != expected)
            && (s.result.Raised? ==> s.entries == entries)
            && (s.result.Normal? ==> key in s.entries && s.entries[key] == s.result.value)
            && s.entries - {key} == entries - {key}
            && VersionsPresent(s.entries)
  {
    var s := SetStep(entries, key, value, expected, now);
    assert s.entries - {key} == entries - {key};
  }

  /** Versions stay non-negative, unless an entry at Long.MAX_VALUE is
      updated once more and wraps around. */
  lemma SetKeepsVersionsNonNegative(entries: Entries, key: DataKey, value: RequestDataValue,
                                    expected: Option<Int64>, now: Int64)
    requires VersionsNonNegative(entries)
    requires key in entries ==> entries[key].version.value < INT64_MAX
    ensures VersionsPresent(entries)
    ensures VersionsNonNegative(SetStep(entries, key, value, expected, now).entries)
  {
  }

  /** The wrap-around: updating an entry at Long.MAX_VALUE stores Long.MIN_VALUE. */
  lemma UpdateAtMaxWraps(entries: Entries, key: DataKey, value: RequestDataValue, now: Int64)
    requires VersionsPresent(entries) && key in entries
    requires entries[key].version == Some(INT64_MAX) && value.data != entries[key].data
    ensures SetStep(entries, key, value, None, now).result.value.version == Some(INT64_MIN)
  {
  }

  /** Because stored versions are never negative, an expected version of
      `-1` means "create if absent": it inserts on a miss and fails on a hit. */
  lemma MinusOneCreatesIfAbsent(entries: Entries, key: DataKey, value: RequestDataValue, now: Int64)
    requires VersionsNonNegative(entries)
    ensures VersionsPresent(entries)
    ensures var s := SetStep(entries, key, value, Some(-1), now);
            && (key !in entries ==> s.result.Normal? && s.result.value.version == Some(0))
            && (key in entries ==> s == Step(entries, Raised(ConcurrentUpdateException)))
  {
  }

  // ---- remove ----

  /** `remove` returns the previous entry or null; afterwards the key is
      absent and the size has dropped by one exactly when it was present. */
  lemma RemoveShrinks(entries: Entries, key: DataKey)
    ensures var s := RemoveStep(entries, key);
            && key !in s.entries
            && (key in entries <==> s.result.Some?)
            && (s.result.Some? ==> s.result.value == entries[key])
            && |s.entries| == (if key in entries then |entries| - 1 else |entries|)
            && (forall k :: k in entries && k != key ==> k in s.entries && s.entries[k] == entries[k])
  {
    var s := RemoveStep(entries, key);
    if key in entries {
      assert s.entries.Keys + {key} == entries.Keys;
    } else {
      assert s.entries.Keys == entries.Keys;
    }
  }

  /** A shard: its id and its entry map, updated in place by its operations. */
  class KeyValuePartition {
    const partitionId: Int32
    var entries: Entries

    ghost predicate Valid()
      reads this
    {
      VersionsPresent(entries)
    }

    constructor (id: Int32)
      ensures partitionId == id && entries == map[]
      ensures Valid()
    {
      partitionId := id;
      entries := map[];
    }

    method Get(key: DataKey, now: Int64) returns (r: Option<CachedDataValue>)
      requires Valid()
      modifies this
      ensures Valid()
      ensures Step(entries, r) == GetStep(old(entries), key, now)
    {
      if key !in entries {
        r := None;
      } else {
        var value := entries[key];
        var updated := CachedDataValue(value.data, value.dataType, now, value.version);
        entries := entries[key := updated];
        r := Some(updated);
      }
    }

    method Set(key: DataKey, value: RequestDataValue, expected: Option<Int64>, now: Int64)
      returns (r: Result<CachedDataValue>)
      requires Valid()
      modifies this
      ensures Valid()
      ensures Step(entries, r) == SetStep(old(entries), key, value, expected, now)
    {
      SetFailsIff(entries, key, value, expected, now);
      var operation := if key !in entries then Insert
                       else OperationTypeFor(entries, key, value, entries[key], expected);
      match operation {
        case Insert =>
          var created := CreateNewFrom(value, now);
          entries := entries[key := created];
          r := Normal(created);
        case Update =>
          var updated := CreateUpdatedFrom(value, now, LongInc(entries[key].version.value));
          entries := entries[key := updated];
          r := Normal(updated);
        case Skip =>
          r := Normal(entries[key]);
        case VersionMismatch =>
          r := Raised(ConcurrentUpdateException);
      }
    }

    method Remove(key: DataKey) returns (r: Option<CachedDataValue>)
      requires Valid()
      modifies this
      ensures Valid()
      ensures Step(entries, r) == RemoveStep(old(entries), key)
    {
      r := if key in entries then Some(entries[key]) else None;
      entries := entries - {key};
    }

    method ContainsKey(key: DataKey) returns (b: bool)
      ensures b <==> key in entries
    {
      b := key in entries;
    }

    method TotalKeys() returns (n: nat)
      ensures n == |entries.Keys|
    {
      n := |entries|;
    }

    /** A snapshot of the key set. */
    method GetAllKeys() returns (keys: set<DataKey>)
      ensures forall k :: k in keys <==> k in entries
    {
      keys := entries.Keys;
    }
  }
}
