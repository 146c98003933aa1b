/** The strict-version write handler (InFlightKv/handlers/JsonStringPutValueHandler.java):
    no merging, the codec's `encode` called directly, and a version check
    only when a version filter is present. It is written against the older
    value and response types; the store hands out CachedDataValue, whose
    components are the same, and the model uses the web layer's
    three-component response throughout. */
module PutValueHandler {
  import opened Java
  import opened DataKeys
  import opened Values
  import opened Partition
  import opened JsonNodes
  import opened Pojos
  import opened CacheExceptionUtils
  import opened CacheHandlerUtils
  import opened Flows
  import opened Store
  import SetValueHandler

  /** `checkVersionAndSetValue`: a missing entry is NOT_FOUND, a different
      version is CONFLICT, otherwise the encoded input is written checked
      against the version that was read. */
  function CheckVersionAndSetValueFlow(entries: Entries, codec: JsonCodec, key: DataKey, input: JsonNode,
                                       expected: Int64, existing: Option<CachedDataValue>, now: Int64): Outcome
    requires VersionsPresent(entries)
  {
    if existing.None? then
      Immediate(entries, Completed(FailureOf(NOT_FOUND, EXPECTED_VERSION_NOT_FOUND_MESSAGE)))
    else if SetValueHandler.Stale(Some(expected), existing.value.version) then
      Immediate(entries, Completed(FailureOf(CONFLICT, VERSION_MISMATCH_MESSAGE)))
    else
      match codec.encode(input)
      case Raised(e) => Immediate(entries, ThrewSynchronously(e))
      case Normal(data) =>
        var s := SetStep(entries, key, data, existing.value.version, now);
        Outcome(s.entries, ThenHandleResponse(Stored(s.result), codec), [SetCall(key, data, existing.value.version)])
  }

  /** `checkVersionAndSetValue` with its guard as written: the boxed
      `expectedVersion != existingData.version()` compares references. */
  function CheckVersionAndSetValueFlowAsWritten(entries: Entries, codec: JsonCodec, key: DataKey, input: JsonNode,
                                                expected: Int64, existing: Option<CachedDataValue>, now: Int64): Outcome
    requires VersionsPresent(entries)
  {
    if existing.Some? && SetValueHandler.StaleAsWritten(Some(expected), existing.value.version) then
      Immediate(entries, Completed(FailureOf(CONFLICT, VERSION_MISMATCH_MESSAGE)))
    else
      CheckVersionAndSetValueFlow(entries, codec, key, input, expected, existing, now)
  }

  /** As written, a version filter equal to the stored version but outside
      the `Long` cache (128, say) is CONFLICT and nothing is written, where
      the intended check writes the encoded input. */
  lemma BoxedCheckRejectsMatchingVersion(entries: Entries, codec: JsonCodec, key: DataKey, input: JsonNode,
                                         v: Int64, seen: CachedDataValue, now: Int64)
    requires VersionsPresent(entries)
    requires seen.version == Some(v) && !(LONG_CACHE_LOW <= v <= LONG_CACHE_HIGH)
    requires codec.encode(input).Normal?
    ensures CheckVersionAndSetValueFlowAsWritten(entries, codec, key, input, v, Some(seen), now)
            == Immediate(entries, Completed(FailureOf(CONFLICT, VERSION_MISMATCH_MESSAGE)))
    ensures CheckVersionAndSetValueFlow(entries, codec, key, input, v, Some(seen), now).calls
            == [SetCall(key, codec.encode(input).value, Some(v))]
  {
  }

  /** The two guards agree except on equal versions outside the cache. */
  lemma BoxedCheckAgreesInCache(entries: Entries, codec: JsonCodec, key: DataKey, input: JsonNode,
                                expected: Int64, existing: Option<CachedDataValue>, now: Int64)
    requires VersionsPresent(entries)
    requires || existing.None?
             || LONG_CACHE_LOW <= expected <= LONG_CACHE_HIGH
             || Some(expected) != existing.value.version
    ensures CheckVersionAndSetValueFlowAsWritten(entries, codec, key, input, expected, existing, now)
            == CheckVersionAndSetValueFlow(entries, codec, key, input, expected, existing, now)
  {
  }

  /** `handle`: parse, find the expected version, then a blind write or a
      read followed by the version check. */
  function HandleFlow(entries: Entries, codec: JsonCodec, key: string, value: string,
                      filters: seq<Filter>, now: Int64): Outcome
    requires VersionsPresent(entries)
  {
    var dataKey := DataKey(key);
    match ParseJsonString(value, codec)
    case Raised(e) => Immediate(entries, ThrewSynchronously(e))
    case Normal(parsing) =>
      if !parsing.IsSuccess() then Immediate(entries, Completed(Failure(parsing.errorResponse)))
      else
        var input := parsing.successResponse.value;
        match FirstVersion(filters)
        case Raised(e) => Immediate(entries, ThrewSynchronously(e))
        case Normal(expected) =>
          if expected.None? then
            match codec.encode(input)
            case Raised(e) => Immediate(entries, ThrewSynchronously(e))
            case Normal(data) =>
              var s := SetStep(entries, dataKey, data, None, now);
              Outcome(s.entries, Exceptionally(ThenHandleResponse(Stored(s.result), codec)), [SetCall(dataKey, data, None)])
          else
            var read := GetStep(entries, dataKey, now);
            GetKeepsVersions(entries, dataKey, now);
            var after := CheckVersionAndSetValueFlow(read.entries, codec, dataKey, input, expected.value, read.result, now);
            AfterGet(dataKey, Outcome(after.entries, Exceptionally(InsideStage(after.reply)), after.calls))
  }

  /** Input that is not JSON is WRONG_DATA_TYPE, with no store call. */
  lemma RejectsNonJson(entries: Entries, codec: JsonCodec, key: string, value: string,
                       filters: seq<Filter>, now: Int64)
    requires VersionsPresent(entries)
    requires codec.fromString(value) == Raised(JsonDecodingFailed)
    ensures HandleFlow(entries, codec, key, value, filters, now)
            == Outcome(entries, Completed(FailureOf(WRONG_DATA_TYPE, NOT_JSON_MESSAGE)), [])
  {
  }

  /** No version filter: one unconditional `set` of the encoded input, no read. */
  lemma BlindWrite(entries: Entries, codec: JsonCodec, key: string, value: string,
                   filters: seq<Filter>, now: Int64)
    requires VersionsPresent(entries)
    requires codec.fromString(value).Normal?
    requires forall i :: 0 <= i < |filters| ==> !filters[i].VersionFilter?
    requires codec.encode(codec.fromString(value).value).Normal?
    ensures var data := codec.encode(codec.fromString(value).value).value;
            var o := HandleFlow(entries, codec, key, value, filters, now);
            var s := SetStep(entries, DataKey(key), data, None, now);
            && o.calls == [SetCall(DataKey(key), data, None)]
            && o.entries == s.entries
            && s.result.Normal?
  {
    var data := codec.encode(codec.fromString(value).value).value;
    SetFailsIff(entries, DataKey(key), data, None, now);
  }

  /** A version filter on a missing key is NOT_FOUND, a different stored
      version is CONFLICT; neither writes. */
  lemma VersionRejected(entries: Entries, codec: JsonCodec, key: string, value: string,
                        filters: seq<Filter>, expected: Int64, now: Int64)
    requires VersionsPresent(entries)
    requires codec.fromString(value).Normal?
    requires FirstVersion(filters) == Normal(Some(expected))
    requires DataKey(key) !in entries || entries[DataKey(key)].version != Some(expected)
    ensures var o := HandleFlow(entries, codec, key, value, filters, now);
            && o.entries == GetStep(entries, DataKey(key), now).entries
            && o.calls == [GetCall(DataKey(key))]
            && (DataKey(key) !in entries ==>
                  o.reply == Completed(FailureOf(NOT_FOUND, EXPECTED_VERSION_NOT_FOUND_MESSAGE)))
            && (DataKey(key) in entries ==>
                  o.reply == Completed(FailureOf(CONFLICT, VERSION_MISMATCH_MESSAGE)))
  {
  }

  /** A matching version writes the encoded input, never a merge, checked
      against the stored version. */
  lemma MatchWritesInput(entries: Entries, codec: JsonCodec, key: string, value: string,
                         filters: seq<Filter>, expected: Int64, now: Int64)
    requires VersionsPresent(entries)
    requires codec.fromString(value).Normal?
    requires FirstVersion(filters) == Normal(Some(expected))
    requires DataKey(key) in entries && entries[DataKey(key)].version == Some(expected)
    requires codec.encode(codec.fromString(value).value).Normal?
    ensures var k := DataKey(key);
            var data := codec.encode(codec.fromString(value).value).value;
            var o := HandleFlow(entries, codec, key, value, filters, now);
            && o.calls == [GetCall(k), SetCall(k, data, Some(expected))]
            && o.entries == SetStep(GetStep(entries, k, now).entries, k, data, Some(expected), now).entries
            && o.entries[k].data == data.data
  {
    var k := DataKey(key);
    var data := codec.encode(codec.fromString(value).value).value;
    GetKeepsVersions(entries, k, now);
    SetFailsIff(GetStep(entries, k, now).entries, k, data, Some(expected), now);
  }

  /** A failed store call or an encoding failure after the read goes through
      `handleCacheExceptions`: the future always completes normally. */
  lemma FutureNeverFails(entries: Entries, codec: JsonCodec, key: string, value: string,
                         filters: seq<Filter>, now: Int64)
    requires VersionsPresent(entries)
    ensures var o := HandleFlow(entries, codec, key, value, filters, now);
            && !o.reply.CompletedExceptionally?
            && (o.reply.ThrewSynchronously? ==> o.calls == [] && o.entries == entries)
  {
  }

  /** Where the input encodes, the handler acts exactly like the set handler
      with patching switched off: the two differ only in how an encoding
      failure after the read is reported. */
  lemma AgreesWithSetHandler(entries: Entries, codec: JsonCodec, key: string, value: string,
                             filters: seq<Filter>, now: Int64)
    requires VersionsPresent(entries)
    requires codec.fromString(value).Normal? ==> codec.encode(codec.fromString(value).value).Normal?
    ensures HandleFlow(entries, codec, key, value, filters, now)
            == SetValueHandler.HandleFlow(entries, codec, false, key, value, filters, now)
  {
  }

  /** The handler: only the codec. */
  class JsonStringPutValueHandler {
    const codec: JsonCodec

    constructor (codec: JsonCodec)
      ensures this.codec == codec
    {
      this.codec := codec;
    }

    method Handle(key: string, value: string, filters: seq<Filter>, store: KeyValueStore, now: Int64)
      returns (r: Reply<CacheResponse<string>>, ghost calls: seq<StoreCall>)
      requires store.Valid()
      modifies store.parts[PartitionOf(store.hash, DataKey(key))]
      ensures store.Valid()
      ensures VersionsPresent(old(store.Contents()))
      ensures Outcome(store.Contents(), r, calls)
              == HandleFlow(old(store.Contents()), codec, key, value, filters, now)
    {
      store.ContentsVersionsPresent();
      var dataKey := DataKey(key);
      var parsing := ParseJsonString(value, codec);
      if parsing.Raised? {
        r, calls := ThrewSynchronously(parsing.ex), [];
        return;
      }
      if !parsing.value.IsSuccess() {
        r, calls := Completed(Failure(parsing.value.errorResponse)), [];
        return;
      }
      var input := parsing.value.successResponse.value;
      var expected := FirstVersion(filters);
      if expected.Raised? {
        r, calls := ThrewSynchronously(expected.ex), [];
        return;
      }
      if expected.value.None? {
        var encoded := codec.encode(input);
        if encoded.Raised? {
          r, calls := ThrewSynchronously(encoded.ex), [];
          return;
        }
        var stored := store.Set(dataKey, encoded.value, None, now);
        r := Exceptionally(ThenHandleResponse(Stored(stored), codec));
        calls := [SetCall(dataKey, encoded.value, None)];
        return;
      }
      var existing := store.Get(dataKey, now);
      var after;
      after, calls := CheckVersionAndSetValue(dataKey, input, expected.value.value, existing, store, now);
      r := Exceptionally(InsideStage(after));
      calls := [GetCall(dataKey)] + calls;
    }

    method CheckVersionAndSetValue(key: DataKey, input: JsonNode, expected: Int64,
                                   existing: Option<CachedDataValue>, store: KeyValueStore, now: Int64)
      returns (r: Reply<CacheResponse<string>>, ghost calls: seq<StoreCall>)
      requires store.Valid()
      modifies store.parts[PartitionOf(store.hash, key)]
      ensures store.Valid()
      ensures VersionsPresent(old(store.Contents()))
      ensures Outcome(store.Contents(), r, calls)
              == CheckVersionAndSetValueFlow(old(store.Contents()), codec, key, input, expected, existing, now)
    {
      store.ContentsVersionsPresent();
      if existing.None? {
        r, calls := Completed(FailureOf(NOT_FOUND, EXPECTED_VERSION_NOT_FOUND_MESSAGE)), [];
        return;
      }
      if SetValueHandler.Stale(Some(expected), existing.value.version) {
        r, calls := Completed(FailureOf(CONFLICT, VERSION_MISMATCH_MESSAGE)), [];
        return;
      }
      var encoded := codec.encode(input);
      if encoded.Raised? {
        r, calls := ThrewSynchronously(encoded.ex), [];
        return;
      }
      var stored := store.Set(key, encoded.value, existing.value.version, now);
      r := ThenHandleResponse(Stored(stored), codec);
      calls := [SetCall(key, encoded.value, existing.value.version)];
    }
  }
}
