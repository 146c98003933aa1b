/** The JSON key-value service (com/bcorp/InFlightKv/service/KeyValueStoreService.java).
    Each request is a flow over the store's contents: the Flow functions say
    what the store holds afterwards, how the returned future ends and which
    store calls were made; the class runs the same flow on a real store. */
module StoreService {
  import opened Java
  import opened DataKeys
  import opened Values
  import opened Partition
  import opened JsonNodes
  import opened JsonUtils
  import opened Pojos
  import opened CacheExceptionUtils
  import opened CacheHandlerUtils
  import opened Flows
  import opened Store
  import Eithers

  /** `versionCheck`: no expected version passes, as a success holding null;
      an expected version passes only if it equals the stored one. */
  function VersionCheck(value: Option<CachedDataValue>, version: Option<Int64>)
    : (r: Eithers.Either<Int64, CacheError>)
    ensures version.None? ==> r == Eithers.Success(None)
    ensures version.Some? ==> (r.IsSuccess() <==> value.Some? && value.value.version == version)
    ensures r.IsSuccess() ==> r.successResponse == version
    ensures version.Some? && !r.IsSuccess() ==>
              r == Eithers.Failed(Some(CacheError(CONFLICT, VERSION_MISMATCH_MESSAGE)))
  {
    if version.None? || (value.Some? && value.value.version == version) then Eithers.Success(version)
    else Eithers.Failed(Some(CacheError(CONFLICT, VERSION_MISMATCH_MESSAGE)))
  }

  /** `getDataToSet`: the merge when asked for and there is something to
      merge with, else the input as it is. */
  function GetDataToSet(input: JsonNode, existing: Option<CachedDataValue>, merge: bool, codec: JsonCodec)
    : (r: Result<Eithers.Either<RequestDataValue, CacheError>>)
    ensures merge && existing.Some? ==> r == MergeData(input, existing.value, codec)
    ensures !(merge && existing.Some?) ==> r == EncodeJsonNode(input, codec)
  {
    if merge && existing.Some? then MergeData(input, existing.value, codec)
    else EncodeJsonNode(input, codec)
  }

  /** `writeValue`: encode, then `set` and answer with the stored value. */
  function WriteValueFlow(entries: Entries, codec: JsonCodec, key: DataKey, input: JsonNode,
                          prevVersion: Option<Int64>, now: Int64): Outcome
    requires VersionsPresent(entries)
  {
    match EncodeJsonNode(input, codec)
    case Raised(e) => Immediate(entries, ThrewSynchronously(e))
    case Normal(encoded) =>
      if !encoded.IsSuccess() then Immediate(entries, Completed(Failure(encoded.errorResponse)))
      else
        var data := encoded.successResponse.value;
        var s := SetStep(entries, key, data, prevVersion, now);
        Outcome(s.entries, ThenHandleResponse(Stored(s.result), codec), [SetCall(key, data, prevVersion)])
  }

  /** The function `set` passes to `thenCompose`, run on the contents the
      store has when it runs and on the value read before. An exception it
      throws is a synchronous throw here; the caller turns it into the
      composed future's failure. */
  function AfterReadFlow(entries: Entries, codec: JsonCodec, key: DataKey, input: JsonNode,
                         expected: Option<Int64>, merge: bool, existing: Option<CachedDataValue>,
                         now: Int64): Outcome
    requires VersionsPresent(entries)
  {
    var check := VersionCheck(existing, expected);
    if !check.IsSuccess() then Immediate(entries, Completed(Failure(check.errorResponse)))
    else
      match GetDataToSet(input, existing, merge, codec)
      case Raised(e) => Immediate(entries, ThrewSynchronously(e))
      case Normal(dataToSet) =>
        if !dataToSet.IsSuccess() then Immediate(entries, Completed(Failure(dataToSet.errorResponse)))
        else
          var data := dataToSet.successResponse.value;
          var s := SetStep(entries, key, data, check.successResponse, now);
          Outcome(s.entries, ThenHandleResponse(Stored(s.result), codec), [SetCall(key, data, check.successResponse)])
  }

  /** `set`: parse; write at once when neither a merge nor a version check
      is asked for; otherwise read first and continue in `thenCompose`.
      No `exceptionally` is attached. */
  function SetFlow(entries: Entries, codec: JsonCodec, key: string, value: string,
                   expected: Option<Int64>, merge: bool, now: Int64): Outcome
    requires VersionsPresent(entries)
  {
    var dataKey := DataKey(key);
    match ParseJsonString(value, codec)
    case Raised(e) => Immediate(entries, ThrewSynchronously(e))
    case Normal(parsing) =>
      if !parsing.IsSuccess() then Immediate(entries, Completed(Failure(parsing.errorResponse)))
      else
        var input := parsing.successResponse.value;
        if !(merge || expected.Some?) then WriteValueFlow(entries, codec, dataKey, input, None, now)
        else
          var read := GetStep(entries, dataKey, now);
          GetKeepsVersions(entries, dataKey, now);
          var after := AfterReadFlow(read.entries, codec, dataKey, input, expected, merge, read.result, now);
          AfterGet(dataKey, Outcome(after.entries, InsideStage(after.reply), after.calls))
  }

  /** `get`: read, answer with the value, and map a failure to a response. */
  function GetFlow(entries: Entries, codec: JsonCodec, key: string, now: Int64): Outcome
  {
    var s := GetStep(entries, DataKey(key), now);
    Outcome(s.entries, Exceptionally(ThenHandleResponse(Normal(s.result), codec)), [GetCall(DataKey(key))])
  }

  /** `remove`: remove, answer with the removed value, and map a failure. */
  function RemoveFlow(entries: Entries, codec: JsonCodec, key: string): Outcome
  {
    var s := RemoveStep(entries, DataKey(key));
    Outcome(s.entries, Exceptionally(ThenHandleResponse(Normal(s.result), codec)), [RemoveCall(DataKey(key))])
  }

  // ---- get and remove ----

  /** A read always completes normally, with NOT_FOUND on a miss, the stored
      value when it decodes and serializes, and the mapped exception when
      answering throws. */
  lemma GetAnswers(entries: Entries, codec: JsonCodec, key: string, now: Int64)
    ensures var o := GetFlow(entries, codec, key, now);
            var s := GetStep(entries, DataKey(key), now);
            && o.entries == s.entries
            && o.calls == [GetCall(DataKey(key))]
            && o.reply.Completed?
            && (DataKey(key) !in entries ==> o.reply == Completed(NotFound()))
            && (HandleCacheResponse(s.result, codec).Normal? ==>
                  o.reply == Completed(HandleCacheResponse(s.result, codec).value))
            && (HandleCacheResponse(s.result, codec).Raised? ==>
                  o.reply == Completed(HandleCacheExceptions(HandleCacheResponse(s.result, codec).ex)))
  {
    var s := GetStep(entries, DataKey(key), now);
    if HandleCacheResponse(s.result, codec).Raised? {
      WrapIsTransparent(HandleCacheResponse(s.result, codec).ex);
    }
  }

  /** With JsonCodec.java, a read whose answer throws is an INTERNAL_ERROR. */
  lemma GetFailureIsInternal(entries: Entries, codec: JsonCodec, key: string, now: Int64)
    requires IsJacksonCodec(codec)
    requires HandleCacheResponse(GetStep(entries, DataKey(key), now).result, codec).Raised?
    ensures GetFlow(entries, codec, key, now).reply == Completed(FailureOf(INTERNAL_ERROR, GENERIC_ERROR_MESSAGE))
  {
    var s := GetStep(entries, DataKey(key), now);
    EscapingExceptions(s.result, codec);
    GetAnswers(entries, codec, key, now);
  }

  /** A remove deletes the key, answers NOT_FOUND on a miss, and answers
      with the removed value otherwise. */
  lemma RemoveAnswers(entries: Entries, codec: JsonCodec, key: string)
    ensures var o := RemoveFlow(entries, codec, key);
            && o.entries == entries - {DataKey(key)}
            && o.calls == [RemoveCall(DataKey(key))]
            && o.reply.Completed?
            && (DataKey(key) !in entries ==> o.reply == Completed(NotFound()))
            && (DataKey(key) in entries && HandleCacheResponse(Some(entries[DataKey(key)]), codec).Normal? ==>
                  o.reply == Completed(HandleCacheResponse(Some(entries[DataKey(key)]), codec).value))
            && (DataKey(key) in entries && HandleCacheResponse(Some(entries[DataKey(key)]), codec).Raised? ==>
                  o.reply.value.error.Some? && o.reply.value.data.None?)
  {
  }

  // ---- set ----

  /** A body that is not JSON is a WRONG_DATA_TYPE response and the store is
      not called. */
  lemma SetRejectsNonJson(entries: Entries, codec: JsonCodec, key: string, value: string,
                          expected: Option<Int64>, merge: bool, now: Int64)
    requires VersionsPresent(entries)
    requires codec.fromString(value) == Raised(JsonDecodingFailed)
    ensures SetFlow(entries, codec, key, value, expected, merge, now)
            == Outcome(entries, Completed(FailureOf(WRONG_DATA_TYPE, NOT_JSON_MESSAGE)), [])
  {
  }

  /** Without a merge and without an expected version, the encoded input is
      written in one `set` with no version check, which cannot fail with a
      concurrent update. */
  lemma SetBlindWrite(entries: Entries, codec: JsonCodec, key: string, value: string, now: Int64)
    requires VersionsPresent(entries)
    requires codec.fromString(value).Normal?
    requires codec.encode(codec.fromString(value).value).Normal?
    ensures var data := codec.encode(codec.fromString(value).value).value;
            var o := SetFlow(entries, codec, key, value, None, false, now);
            var s := SetStep(entries, DataKey(key), data, None, now);
            && o.calls == [SetCall(DataKey(key), data, None)]
            && o.entries == s.entries
            && s.result.Normal?
            && o.entries[DataKey(key)] == s.result.value
            && s.result.value.data == data.data
            && o.reply == ThenHandleResponse(Normal(Some(s.result.value)), codec)
  {
    var data := codec.encode(codec.fromString(value).value).value;
    SetFailsIff(entries, DataKey(key), data, None, now);
  }

  /** An expected version that does not match what is stored, or a missing
      key, is a CONFLICT after the read, and nothing is written. */
  lemma SetVersionConflict(entries: Entries, codec: JsonCodec, key: string, value: string,
                           expected: Int64, merge: bool, now: Int64)
    requires VersionsPresent(entries)
    requires codec.fromString(value).Normal?
    requires DataKey(key) !in entries || entries[DataKey(key)].version != Some(expected)
    ensures SetFlow(entries, codec, key, value, Some(expected), merge, now)
            == Outcome(GetStep(entries, DataKey(key), now).entries,
                       Completed(FailureOf(CONFLICT, VERSION_MISMATCH_MESSAGE)),
                       [GetCall(DataKey(key))])
  {
  }

  /** A matching expected version writes the encoded input with that
      version as the check, after the read; with no other request in
      between the write cannot fail. */
  lemma SetWithMatchingVersion(entries: Entries, codec: JsonCodec, key: string, value: string,
                               expected: Int64, now: Int64)
    requires VersionsPresent(entries)
    requires codec.fromString(value).Normal?
    requires DataKey(key) in entries && entries[DataKey(key)].version == Some(expected)
    requires codec.encode(codec.fromString(value).value).Normal?
    ensures var data := codec.encode(codec.fromString(value).value).value;
            var o := SetFlow(entries, codec, key, value, Some(expected), false, now);
            var read := GetStep(entries, DataKey(key), now).entries;
            var s := SetStep(read, DataKey(key), data, Some(expected), now);
            && o.calls == [GetCall(DataKey(key)), SetCall(DataKey(key), data, Some(expected))]
            && o.entries == s.entries
            && s.result.Normal?
            && o.entries[DataKey(key)].data == data.data
  {
    var k := DataKey(key);
    var data := codec.encode(codec.fromString(value).value).value;
    var read := GetStep(entries, k, now).entries;
    GetKeepsVersions(entries, k, now);
    SetFailsIff(read, k, data, Some(expected), now);
  }

  /** A merge with a matching version writes the stored object's fields
      overridden by the input's, checked against that version. */
  lemma SetMergesWithMatchingVersion(entries: Entries, codec: JsonCodec, key: string, value: string,
                                     expected: Int64, now: Int64)
    requires VersionsPresent(entries)
    requires codec.fromString(value).Normal? && codec.fromString(value).value.ObjectNode?
    requires DataKey(key) in entries && entries[DataKey(key)].version == Some(expected)
    requires var seen := GetStep(entries, DataKey(key), now).result.value;
             codec.decode(seen).Normal? && codec.decode(seen).value.ObjectNode?
    requires var seen := GetStep(entries, DataKey(key), now).result.value;
             codec.encode(ObjectNode(codec.decode(seen).value.fields + codec.fromString(value).value.fields)).Normal?
    ensures var seen := GetStep(entries, DataKey(key), now).result.value;
            var merged := ObjectNode(codec.decode(seen).value.fields + codec.fromString(value).value.fields);
            var data := codec.encode(merged).value;
            var o := SetFlow(entries, codec, key, value, Some(expected), true, now);
            && o.calls == [GetCall(DataKey(key)), SetCall(DataKey(key), data, Some(expected))]
            && o.entries == SetStep(GetStep(entries, DataKey(key), now).entries, DataKey(key), data, Some(expected), now).entries
            && o.entries[DataKey(key)].data == data.data
  {
    var k := DataKey(key);
    var seen := GetStep(entries, k, now).result.value;
    var merged := ObjectNode(codec.decode(seen).value.fields + codec.fromString(value).value.fields);
    var data := codec.encode(merged).value;
    var read := GetStep(entries, k, now).entries;
    GetKeepsVersions(entries, k, now);
    SetFailsIff(read, k, data, Some(expected), now);
  }

  /** A merge without an expected version never writes: the version check
      passes with null, which the holder does not count as a success, so the
      response has no data, no version and no error. */
  lemma MergeWithoutVersionWritesNothing(entries: Entries, codec: JsonCodec, key: string, value: string,
                                         now: Int64)
    requires VersionsPresent(entries)
    requires codec.fromString(value).Normal?
    ensures SetFlow(entries, codec, key, value, None, true, now)
            == Outcome(GetStep(entries, DataKey(key), now).entries,
                       Completed(CacheResponse(None, None, None)),
                       [GetCall(DataKey(key))])
  {
  }

  /** Merging where either side is not a JSON object fails the future with
      the cast's exception, wrapped, and nothing is written. */
  lemma MergeOnNonObjectFails(entries: Entries, codec: JsonCodec, key: string, value: string,
                              expected: Int64, now: Int64)
    requires VersionsPresent(entries)
    requires codec.fromString(value).Normal?
    requires DataKey(key) in entries && entries[DataKey(key)].version == Some(expected)
    requires var seen := GetStep(entries, DataKey(key), now).result.value;
             codec.decode(seen).Normal? &&
             !(codec.decode(seen).value.ObjectNode? && codec.fromString(value).value.ObjectNode?)
    ensures SetFlow(entries, codec, key, value, Some(expected), true, now)
            == Outcome(GetStep(entries, DataKey(key), now).entries,
                       CompletedExceptionally(CompletionException(ClassCastException)),
                       [GetCall(DataKey(key))])
  {
  }

  /** The race the version check guards against: when another write lands
      between the read and the write, the write's check fails and the
      future fails with the wrapped ConcurrentUpdateException, which `set`
      does not map to a response. */
  lemma InterleavedWriteFails(atWrite: Entries, codec: JsonCodec, key: DataKey, input: JsonNode,
                              expected: Int64, merge: bool, seen: CachedDataValue, now: Int64)
    requires VersionsPresent(atWrite)
    requires seen.version == Some(expected)
    requires key in atWrite && atWrite[key].version != Some(expected)
    requires GetDataToSet(input, Some(seen), merge, codec).Normal?
    requires GetDataToSet(input, Some(seen), merge, codec).value.IsSuccess()
    ensures var after := AfterReadFlow(atWrite, codec, key, input, Some(expected), merge, Some(seen), now);
            && after.entries == atWrite
            && InsideStage(after.reply) == CompletedExceptionally(CompletionException(ConcurrentUpdateException))
  {
  }

  /** With JsonCodec.java, `set` alone never throws before returning its
      future, and a future it fails carries only a cast, serialization or
      null-version exception: without an interleaved write there is never
      a concurrent update. */
  lemma SetAloneNeverConflicts(entries: Entries, codec: JsonCodec, key: string, value: string,
                               expected: Option<Int64>, merge: bool, now: Int64)
    requires VersionsPresent(entries)
    requires IsJacksonCodec(codec)
    ensures var o := SetFlow(entries, codec, key, value, expected, merge, now);
            && !o.reply.ThrewSynchronously?
            && (o.reply.CompletedExceptionally? ==>
                  o.reply.ex in {CompletionException(ClassCastException),
                                 CompletionException(JsonSerializationFailed),
                                 CompletionException(NullPointerException)})
  {
    var k := DataKey(key);
    if codec.fromString(value).Raised? {
      assert codec.fromString(value).ex == JsonDecodingFailed;
      return;
    }
    var input := codec.fromString(value).value;
    if codec.encode(input).Raised? {
      assert codec.encode(input).ex == JsonEncodingFailed;
    }
    if !(merge || expected.Some?) {
      if codec.encode(input).Normal? {
        var data := codec.encode(input).value;
        SetFailsIff(entries, k, data, None, now);
        var s := SetStep(entries, k, data, None, now);
        EscapingExceptions(Some(s.result.value), codec);
      }
      return;
    }
    var read := GetStep(entries, k, now);
    GetKeepsVersions(entries, k, now);
    if read.result.Some? {
      GetPresent(entries, k, now);
    }
    AfterReadAloneNeverConflicts(read.entries, codec, k, input, expected, merge, read.result, now);
  }

  /** The continuation of `set` on the value it has just read, with JsonCodec.java. */
  lemma AfterReadAloneNeverConflicts(entries: Entries, codec: JsonCodec, key: DataKey, input: JsonNode,
                                     expected: Option<Int64>, merge: bool,
                                     existing: Option<CachedDataValue>, now: Int64)
    requires VersionsPresent(entries)
    requires IsJacksonCodec(codec)
    requires existing.Some? ==> key in entries && entries[key].version == existing.value.version
    ensures var o := AfterReadFlow(entries, codec, key, input, expected, merge, existing, now);
            var r := InsideStage(o.reply);
            r.CompletedExceptionally? ==>
              r.ex in {CompletionException(ClassCastException),
                       CompletionException(JsonSerializationFailed),
                       CompletionException(NullPointerException)}
  {
    var check := VersionCheck(existing, expected);
    if !check.IsSuccess() {
      return;
    }
    if codec.encode(input).Raised? {
      assert codec.encode(input).ex == JsonEncodingFailed;
    }
    if merge && existing.Some? {
      var seen := existing.value;
      if codec.decode(seen).Raised? {
        assert codec.decode(seen).ex == JsonDecodingFailed;
      } else if codec.decode(seen).value.ObjectNode? && input.ObjectNode? {
        var merged := ObjectNode(codec.decode(seen).value.fields + input.fields);
        if codec.encode(merged).Raised? {
          assert codec.encode(merged).ex == JsonEncodingFailed;
        }
      }
    }
    var dataToSet := GetDataToSet(input, existing, merge, codec);
    if dataToSet.Normal? && dataToSet.value.IsSuccess() {
      var data := dataToSet.value.successResponse.value;
      SetFailsIff(entries, key, data, check.successResponse, now);
      var s := SetStep(entries, key, data, check.successResponse, now);
      EscapingExceptions(Some(s.result.value), codec);
    }
  }

  /** The service: the JSON codec and the store it delegates to. */
  class KeyValueStoreService {
    const codec: JsonCodec
    const store: KeyValueStore

    constructor (store: KeyValueStore, codec: JsonCodec)
      ensures this.store == store && this.codec == codec
    {
      this.codec := codec;
      this.store := store;
    }

    method Get(key: string, now: Int64) returns (r: Reply<CacheResponse<string>>, ghost calls: seq<StoreCall>)
      requires store.Valid()
      modifies store.parts[PartitionOf(store.hash, DataKey(key))]
      ensures store.Valid()
      ensures Outcome(store.Contents(), r, calls) == GetFlow(old(store.Contents()), codec, key, now)
    {
      var dataKey := DataKey(key);
      var value := store.Get(dataKey, now);
      r := Exceptionally(ThenHandleResponse(Normal(value), codec));
      calls := [GetCall(dataKey)];
    }

    method Remove(key: string) returns (r: Reply<CacheResponse<string>>, ghost calls: seq<StoreCall>)
      requires store.Valid()
      modifies store.parts[PartitionOf(store.hash, DataKey(key))]
      ensures store.Valid()
      ensures Outcome(store.Contents(), r, calls) == RemoveFlow(old(store.Contents()), codec, key)
    {
      var dataKey := DataKey(key);
      var value := store.Remove(dataKey);
      r := Exceptionally(ThenHandleResponse(Normal(value), codec));
      calls := [RemoveCall(dataKey)];
    }

    method Set(key: string, value: string, expected: Option<Int64>, merge: bool, now: Int64)
      returns (r: Reply<CacheResponse<string>>, ghost calls: seq<StoreCall>)
      requires store.Valid()
      modifies store.parts[PartitionOf(store.hash, DataKey(key))]
      ensures store.Valid()
      ensures VersionsPresent(old(store.Contents()))
      ensures Outcome(store.Contents(), r, calls)
              == SetFlow(old(store.Contents()), codec, key, value, expected, merge, now)
    {
      store.ContentsVersionsPresent();
      var dataKey := DataKey(key);
      var parsing := ParseJsonString(value, codec);
      if parsing.Raised? {
        r, calls := ThrewSynchronously(parsing.ex), [];
        return;
      }
      if !parsing.value.IsSuccess() {
        r, calls := Completed(Failure(parsing.value.errorResponse)), [];
        return;
      }
      var input := parsing.value.successResponse.value;
      if !(merge || expected.Some?) {
        r, calls := WriteValue(dataKey, input, None, now);
        return;
      }
      var existing := store.Get(dataKey, now);
      var after;
      after, calls := AfterRead(dataKey, input, expected, merge, existing, now);
      r := InsideStage(after);
      calls := [GetCall(dataKey)] + calls;
    }

    /** The function `set` passes to `thenCompose`, on the value it read. */
    method AfterRead(key: DataKey, input: JsonNode, expected: Option<Int64>, merge: bool,
                     existing: Option<CachedDataValue>, now: Int64)
      returns (r: Reply<CacheResponse<string>>, ghost calls: seq<StoreCall>)
      requires store.Valid()
      modifies store.parts[PartitionOf(store.hash, key)]
      ensures store.Valid()
      ensures VersionsPresent(old(store.Contents()))
      ensures Outcome(store.Contents(), r, calls)
              == AfterReadFlow(old(store.Contents()), codec, key, input, expected, merge, existing, now)
    {
      store.ContentsVersionsPresent();
      var check := VersionCheck(existing, expected);
      if !check.IsSuccess() {
        r, calls := Completed(Failure(check.errorResponse)), [];
        return;
      }
      var dataToSet := GetDataToSet(input, existing, merge, codec);
      if dataToSet.Raised? {
        r, calls := ThrewSynchronously(dataToSet.ex), [];
        return;
      }
      if !dataToSet.value.IsSuccess() {
        r, calls := Completed(Failure(dataToSet.value.errorResponse)), [];
        return;
      }
      var data := dataToSet.value.successResponse.value;
      var stored := store.Set(key, data, check.successResponse, now);
      r := ThenHandleResponse(Stored(stored), codec);
      calls := [SetCall(key, data, check.successResponse)];
    }

    /** `writeValue`. */
    method WriteValue(key: DataKey, input: JsonNode, prevVersion: Option<Int64>, now: Int64)
      returns (r: Reply<CacheResponse<string>>, ghost calls: seq<StoreCall>)
      requires store.Valid()
      modifies store.parts[PartitionOf(store.hash, key)]
      ensures store.Valid()
      ensures VersionsPresent(old(store.Contents()))
      ensures Outcome(store.Contents(), r, calls)
              == WriteValueFlow(old(store.Contents()), codec, key, input, prevVersion, now)
    {
      store.ContentsVersionsPresent();
      var encoded := EncodeJsonNode(input, codec);
      if encoded.Raised? {
        r, calls := ThrewSynchronously(encoded.ex), [];
        return;
      }
      if !encoded.value.IsSuccess() {
        r, calls := Completed(Failure(encoded.value.errorResponse)), [];
        return;
      }
      var data := encoded.value.successResponse.value;
      var stored := store.Set(key, data, prevVersion, now);
      r := ThenHandleResponse(Stored(stored), codec);
      calls := [SetCall(key, data, prevVersion)];
    }

    /** `getAllKeys`: every stored key once. */
    method GetAllKeys() returns (keys: seq<DataKey>)
      requires store.Valid()
      ensures forall k :: k in keys <==> k in store.Contents()
      ensures Distinct(keys)
    {
      keys := store.GetAllKeys();
    }
  }
}
