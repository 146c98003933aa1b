/** The versioned JSON write handler behind PUT and PATCH
    (com/bcorp/InFlightKv/handlers/JsonStringSetValueHandler.java). It takes
    the expected version from the request filters, and its `enablePatching`
    flag turns a write into a shallow merge with the stored object. Both
    branches end in `exceptionally`, so a failed store call becomes an
    error response. */
module SetValueHandler {
  import opened Java
  import opened DataKeys
  import opened Values
  import opened Partition
  import opened JsonNodes
  import opened Pojos
  import opened CacheExceptionUtils
  import opened CacheHandlerUtils
  import opened Flows
  import opened Store

  /** The version guard as intended: an expected version that differs in
      value from the stored one, as the service's `versionCheck` tests it
      with `equals`. */
  predicate Stale(expected: Option<Int64>, stored: Option<Int64>)
  {
    expected.Some? && expected != stored
  }

  /** The version guard as written, `expectedVersion != existingData.version()`:
      a comparison of two separately boxed `Long` references. */
  predicate StaleAsWritten(expected: Option<Int64>, stored: Option<Int64>)
  {
    expected.Some? && !SameLongObject(expected, stored)
  }

  /** `checkVersionAndSetValue`, run on the store's contents when it runs
      and on the value read before: a missing entry is NOT_FOUND, a
      different expected version is CONFLICT, and the write is checked
      against the version that was read. */
  function CheckVersionAndSetValueFlow(entries: Entries, codec: JsonCodec, patching: bool, key: DataKey,
                                       input: JsonNode, expected: Option<Int64>,
                                       existing: Option<CachedDataValue>, now: Int64): Outcome
    requires VersionsPresent(entries)
  {
    if existing.None? then
      Immediate(entries, Completed(FailureOf(NOT_FOUND, EXPECTED_VERSION_NOT_FOUND_MESSAGE)))
    else if Stale(expected, existing.value.version) then
      Immediate(entries, Completed(FailureOf(CONFLICT, VERSION_MISMATCH_MESSAGE)))
    else
      var dataToSet := if patching then MergeData(input, existing.value, codec) else EncodeJsonNode(input, codec);
      match dataToSet
      case Raised(e) => Immediate(entries, ThrewSynchronously(e))
      case Normal(d) =>
        if !d.IsSuccess() then Immediate(entries, Completed(Failure(d.errorResponse)))
        else
          var data := d.successResponse.value;
          var s := SetStep(entries, key, data, existing.value.version, now);
          Outcome(s.entries, ThenHandleResponse(Stored(s.result), codec), [SetCall(key, data, existing.value.version)])
  }

  /** `checkVersionAndSetValue` with its guard as written: past a reference
      mismatch it is CONFLICT, otherwise the versions are equal and it goes
      on as above. */
  function CheckVersionAndSetValueFlowAsWritten(entries: Entries, codec: JsonCodec, patching: bool, key: DataKey,
                                                input: JsonNode, expected: Option<Int64>,
                                                existing: Option<CachedDataValue>, now: Int64): Outcome
    requires VersionsPresent(entries)
  {
    if existing.Some? && StaleAsWritten(expected, existing.value.version) then
      Immediate(entries, Completed(FailureOf(CONFLICT, VERSION_MISMATCH_MESSAGE)))
    else
      CheckVersionAndSetValueFlow(entries, codec, patching, key, input, expected, existing, now)
  }

  /** As written, a version filter equal to the stored version but outside
      the `Long` cache (128, say) is CONFLICT and nothing is written, where
      the intended check writes. */
  lemma BoxedCheckRejectsMatchingVersion(entries: Entries, codec: JsonCodec, patching: bool, key: DataKey,
                                         input: JsonNode, v: Int64, seen: CachedDataValue, now: Int64)
    requires VersionsPresent(entries)
    requires seen.version == Some(v) && !(LONG_CACHE_LOW <= v <= LONG_CACHE_HIGH)
    requires var d := if patching then MergeData(input, seen, codec) else EncodeJsonNode(input, codec);
             d.Normal? && d.value.IsSuccess()
    ensures CheckVersionAndSetValueFlowAsWritten(entries, codec, patching, key, input, Some(v), Some(seen), now)
            == Immediate(entries, Completed(FailureOf(CONFLICT, VERSION_MISMATCH_MESSAGE)))
    ensures var d := if patching then MergeData(input, seen, codec) else EncodeJsonNode(input, codec);
            CheckVersionAndSetValueFlow(entries, codec, patching, key, input, Some(v), Some(seen), now).calls
            == [SetCall(key, d.value.successResponse.value, Some(v))]
  {
  }

  /** The two guards agree except on equal versions outside the cache: with
      no version filter, a version in the cache range or differing
      versions, the check as written is the intended one. */
  lemma BoxedCheckAgreesInCache(entries: Entries, codec: JsonCodec, patching: bool, key: DataKey,
                                input: JsonNode, expected: Option<Int64>,
                                existing: Option<CachedDataValue>, now: Int64)
    requires VersionsPresent(entries)
    requires || expected.None? || existing.None?
             || LONG_CACHE_LOW <= expected.value <= LONG_CACHE_HIGH
             || expected != existing.value.version
    ensures CheckVersionAndSetValueFlowAsWritten(entries, codec, patching, key, input, expected, existing, now)
            == CheckVersionAndSetValueFlow(entries, codec, patching, key, input, expected, existing, now)
  {
  }

  /** `handle`: parse, find the expected version, then either a blind write
      of the codec's encoding or a read followed by the version check. */
  function HandleFlow(entries: Entries, codec: JsonCodec, patching: bool, key: string, value: string,
                      filters: seq<Filter>, now: Int64): Outcome
    requires VersionsPresent(entries)
  {
    var dataKey := DataKey(key);
    match ParseJsonString(value, codec)
    case Raised(e) => Immediate(entries, ThrewSynchronously(e))
    case Normal(parsing) =>
      if !parsing.IsSuccess() then Immediate(entries, Completed(Failure(parsing.errorResponse)))
      else
        var input := parsing.successResponse.value;
        match FirstVersion(filters)
        case Raised(e) => Immediate(entries, ThrewSynchronously(e))
        case Normal(expected) =>
          if expected.None? && !patching then
            match codec.encode(input)
            case Raised(e) => Immediate(entries, ThrewSynchronously(e))
            case Normal(data) =>
              var s := SetStep(entries, dataKey, data, None, now);
              Outcome(s.entries, Exceptionally(ThenHandleResponse(Stored(s.result), codec)), [SetCall(dataKey, data, None)])
          else
            var read := GetStep(entries, dataKey, now);
            GetKeepsVersions(entries, dataKey, now);
            var after := CheckVersionAndSetValueFlow(read.entries, codec, patching, dataKey, input, expected, read.result, now);
            AfterGet(dataKey, Outcome(after.entries, Exceptionally(InsideStage(after.reply)), after.calls))
  }

  /** Input that is not JSON is WRONG_DATA_TYPE, with no store call. */
  lemma RejectsNonJson(entries: Entries, codec: JsonCodec, patching: bool, key: string, value: string,
                       filters: seq<Filter>, now: Int64)
    requires VersionsPresent(entries)
    requires codec.fromString(value) == Raised(JsonDecodingFailed)
    ensures HandleFlow(entries, codec, patching, key, value, filters, now)
            == Outcome(entries, Completed(FailureOf(WRONG_DATA_TYPE, NOT_JSON_MESSAGE)), [])
  {
  }

  /** No version filter and no patching: one `set` of the encoded input with
      no expected version and no read; that write cannot conflict. */
  lemma BlindWrite(entries: Entries, codec: JsonCodec, key: string, value: string,
                   filters: seq<Filter>, now: Int64)
    requires VersionsPresent(entries)
    requires codec.fromString(value).Normal?
    requires forall i :: 0 <= i < |filters| ==> !filters[i].VersionFilter?
    requires codec.encode(codec.fromString(value).value).Normal?
    ensures var data := codec.encode(codec.fromString(value).value).value;
            var o := HandleFlow(entries, codec, false, key, value, filters, now);
            var s := SetStep(entries, DataKey(key), data, None, now);
            && o.calls == [SetCall(DataKey(key), data, None)]
            && o.entries == s.entries
            && s.result.Normal?
            && o.reply == Exceptionally(ThenHandleResponse(Normal(Some(s.result.value)), codec))
  {
    var data := codec.encode(codec.fromString(value).value).value;
    SetFailsIff(entries, DataKey(key), data, None, now);
  }

  /** On the read path a missing key is NOT_FOUND "Expected version not
      found", PATCH without a version included, and nothing is written. */
  lemma ReadPathMissingKey(entries: Entries, codec: JsonCodec, patching: bool, key: string, value: string,
                           filters: seq<Filter>, now: Int64)
    requires VersionsPresent(entries)
    requires codec.fromString(value).Normal?
    requires FirstVersion(filters).Normal? && (FirstVersion(filters).value.Some? || patching)
    requires DataKey(key) !in entries
    ensures HandleFlow(entries, codec, patching, key, value, filters, now)
            == Outcome(entries, Completed(FailureOf(NOT_FOUND, EXPECTED_VERSION_NOT_FOUND_MESSAGE)),
                       [GetCall(DataKey(key))])
  {
  }

  /** A version filter that differs from the stored version is CONFLICT,
      and nothing is written. */
  lemma VersionConflict(entries: Entries, codec: JsonCodec, patching: bool, key: string, value: string,
                        filters: seq<Filter>, expected: Int64, now: Int64)
    requires VersionsPresent(entries)
    requires codec.fromString(value).Normal?
    requires FirstVersion(filters) == Normal(Some(expected))
    requires DataKey(key) in entries && entries[DataKey(key)].version != Some(expected)
    ensures HandleFlow(entries, codec, patching, key, value, filters, now)
            == Outcome(GetStep(entries, DataKey(key), now).entries,
                       Completed(FailureOf(CONFLICT, VERSION_MISMATCH_MESSAGE)),
                       [GetCall(DataKey(key))])
  {
  }

  /** Without patching, a matching version writes the encoded input checked
      against the version that was read; with no other write in between,
      the write succeeds. */
  lemma WritesWithStoredVersion(entries: Entries, codec: JsonCodec, key: string, value: string,
                                filters: seq<Filter>, now: Int64)
    requires VersionsPresent(entries)
    requires codec.fromString(value).Normal?
    requires DataKey(key) in entries
    requires FirstVersion(filters) == Normal(entries[DataKey(key)].version)
    requires codec.encode(codec.fromString(value).value).Normal?
    ensures var k := DataKey(key);
            var data := codec.encode(codec.fromString(value).value).value;
            var o := HandleFlow(entries, codec, false, key, value, filters, now);
            var s := SetStep(GetStep(entries, k, now).entries, k, data, entries[k].version, now);
            && o.calls == [GetCall(k), SetCall(k, data, entries[k].version)]
            && o.entries == s.entries
            && s.result.Normal?
            && o.entries[k].data == data.data
  {
    var k := DataKey(key);
    var data := codec.encode(codec.fromString(value).value).value;
    GetKeepsVersions(entries, k, now);
    SetFailsIff(GetStep(entries, k, now).entries, k, data, entries[k].version, now);
  }

  /** With patching, the value written is the stored object's fields
      overridden by the input's, checked against the stored version. */
  lemma PatchWritesMerge(entries: Entries, codec: JsonCodec, key: string, value: string,
                         filters: seq<Filter>, now: Int64)
    requires VersionsPresent(entries)
    requires codec.fromString(value).Normal? && codec.fromString(value).value.ObjectNode?
    requires FirstVersion(filters).Normal?
    requires DataKey(key) in entries
    requires FirstVersion(filters).value.None? || FirstVersion(filters).value == entries[DataKey(key)].version
    requires var seen := GetStep(entries, DataKey(key), now).result.value;
             codec.decode(seen).Normal? && codec.decode(seen).value.ObjectNode?
    requires var seen := GetStep(entries, DataKey(key), now).result.value;
             codec.encode(ObjectNode(codec.decode(seen).value.fields + codec.fromString(value).value.fields)).Normal?
    ensures var k := DataKey(key);
            var seen := GetStep(entries, k, now).result.value;
            var data := codec.encode(ObjectNode(codec.decode(seen).value.fields + codec.fromString(value).value.fields)).value;
            var o := HandleFlow(entries, codec, true, key, value, filters, now);
            && o.calls == [GetCall(k), SetCall(k, data, entries[k].version)]
            && o.entries == SetStep(GetStep(entries, k, now).entries, k, data, entries[k].version, now).entries
            && o.entries[k].data == data.data
  {
    var k := DataKey(key);
    var seen := GetStep(entries, k, now).result.value;
    var data := codec.encode(ObjectNode(codec.decode(seen).value.fields + codec.fromString(value).value.fields)).value;
    GetKeepsVersions(entries, k, now);
    SetFailsIff(GetStep(entries, k, now).entries, k, data, entries[k].version, now);
  }

  /** When another write lands between the read and the write, the store's
      ConcurrentUpdateException becomes a CONFLICT response. */
  lemma InterleavedWriteIsConflict(atWrite: Entries, codec: JsonCodec, patching: bool, key: DataKey,
                                   input: JsonNode, expected: Option<Int64>, seen: CachedDataValue, now: Int64)
    requires VersionsPresent(atWrite)
    requires expected.None? || expected == seen.version
    requires key in atWrite && atWrite[key].version != seen.version && seen.version.Some?
    requires var d := if patching then MergeData(input, seen, codec) else EncodeJsonNode(input, codec);
             d.Normal? && d.value.IsSuccess()
    ensures var after := CheckVersionAndSetValueFlow(atWrite, codec, patching, key, input, expected, Some(seen), now);
            && after.entries == atWrite
            && Exceptionally(InsideStage(after.reply)) == Completed(FailureOf(CONFLICT, CONCURRENT_UPDATE_MESSAGE))
  {
  }

  /** Whatever happens, the returned future completes normally: every
      failure after the handler has returned its future is mapped to a
      response. Only parsing, the filter lookup and the blind write's
      encoding can throw, and only before any store call. */
  lemma FutureNeverFails(entries: Entries, codec: JsonCodec, patching: bool, key: string, value: string,
                         filters: seq<Filter>, now: Int64)
    requires VersionsPresent(entries)
    ensures var o := HandleFlow(entries, codec, patching, key, value, filters, now);
            && !o.reply.CompletedExceptionally?
            && (o.reply.ThrewSynchronously? ==> o.calls == [] && o.entries == entries)
  {
  }

  /** The handler: the codec and whether writes merge. */
  class JsonStringSetValueHandler {
    const codec: JsonCodec
    const enablePatching: bool

    constructor (codec: JsonCodec, enablePatching: bool)
      ensures this.codec == codec && this.enablePatching == enablePatching
    {
      this.codec := codec;
      this.enablePatching := enablePatching;
    }

    method Handle(key: string, value: string, filters: seq<Filter>, store: KeyValueStore, now: Int64)
      returns (r: Reply<CacheResponse<string>>, ghost calls: seq<StoreCall>)
      requires store.Valid()
      modifies store.parts[PartitionOf(store.hash, DataKey(key))]
      ensures store.Valid()
      ensures VersionsPresent(old(store.Contents()))
      ensures Outcome(store.Contents(), r, calls)
              == HandleFlow(old(store.Contents()), codec, enablePatching, key, value, filters, now)
    {
      store.ContentsVersionsPresent();
      var dataKey := DataKey(key);
      var parsing := ParseJsonString(value, codec);
      if parsing.Raised? {
        r, calls := ThrewSynchronously(parsing.ex), [];
        return;
      }
      if !parsing.value.IsSuccess() {
        r, calls := Completed(Failure(parsing.value.errorResponse)), [];
        return;
      }
      var input := parsing.value.successResponse.value;
      var expected := FirstVersion(filters);
      if expected.Raised? {
        r, calls := ThrewSynchronously(expected.ex), [];
        return;
      }
      if expected.value.None? && !enablePatching {
        var encoded := codec.encode(input);
        if encoded.Raised? {
          r, calls := ThrewSynchronously(encoded.ex), [];
          return;
        }
        var stored := store.Set(dataKey, encoded.value, None, now);
        r := Exceptionally(ThenHandleResponse(Stored(stored), codec));
        calls := [SetCall(dataKey, encoded.value, None)];
        return;
      }
      var existing := store.Get(dataKey, now);
      var after;
      after, calls := CheckVersionAndSetValue(dataKey, input, expected.value, existing, store, now);
      r := Exceptionally(InsideStage(after));
      calls := [GetCall(dataKey)] + calls;
    }

    method CheckVersionAndSetValue(key: DataKey, input: JsonNode, expected: Option<Int64>,
                                   existing: Option<CachedDataValue>, store: KeyValueStore, now: Int64)
      returns (r: Reply<CacheResponse<string>>, ghost calls: seq<StoreCall>)
      requires store.Valid()
      modifies store.parts[PartitionOf(store.hash, key)]
      ensures store.Valid()
      ensures VersionsPresent(old(store.Contents()))
      ensures Outcome(store.Contents(), r, calls)
              == CheckVersionAndSetValueFlow(old(store.Contents()), codec, enablePatching, key, input,
                                             expected, existing, now)
    {
      store.ContentsVersionsPresent();
      if existing.None? {
        r, calls := Completed(FailureOf(NOT_FOUND, EXPECTED_VERSION_NOT_FOUND_MESSAGE)), [];
        return;
      }
      if Stale(expected, existing.value.version) {
        r, calls := Completed(FailureOf(CONFLICT, VERSION_MISMATCH_MESSAGE)), [];
        return;
      }
      var dataToSet := if enablePatching then MergeData(input, existing.value, codec)
                       else EncodeJsonNode(input, codec);
      if dataToSet.Raised? {
        r, calls := ThrewSynchronously(dataToSet.ex), [];
        return;
      }
      if !dataToSet.value.IsSuccess() {
        r, calls := Completed(Failure(dataToSet.value.errorResponse)), [];
        return;
      }
      var data := dataToSet.value.successResponse.value;
      var stored := store.Set(key, data, existing.value.version, now);
      r := ThenHandleResponse(Stored(stored), codec);
      calls := [SetCall(key, data, existing.value.version)];
    }
  }
}
