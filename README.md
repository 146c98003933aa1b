# InFlightKv in Dafny

InFlightKv is an in-memory key-value store with optimistic versioning. Its
core is a map from keys to versioned entries, split over 32 partitions.
Each partition runs its operations one at a time on its own
single-thread executor.

- A write either inserts an entry at version 0, replaces the bytes and
  bumps the version, skips an identical value, or fails with a
  `ConcurrentUpdateException` when the caller's expected version is stale.
- A Spring web layer stores JSON documents on top of it. It parses the
  body, checks an `ifVersion` against the stored version, optionally
  shallow-merges the body into the stored object (PATCH), writes, and
  maps results and exceptions to responses and HTTP statuses.
- Around the store sit a cluster router (which node owns a key), two
  handler resolvers and a request router.

The model follows the source module by module:

- `java.dfy` (`Java`): nulls, fixed-width integers, the exceptions, and
  what a method returning a `CompletableFuture` can do. The future can
  complete, complete exceptionally, or the method can throw before
  returning it.
- `datakey.dfy`, `values.dfy`, `longcodec.dfy`: the key record, the value
  records and their factories, and the 8-byte little-endian `long` codec.
- `partition.dfy` (`Partition`):
  - step functions that say what `get`, `set` and `remove` do to a map
    and return;
  - lemmas for each arm of `set`;
  - the class `KeyValuePartition`, whose `entries` map field its methods
    update in place.
- `store.dfy` (`Store`): the class `KeyValueStore` over an array of 32
  partitions.
  - Its contents are the union of the partition maps.
  - Each operation is proved to act on the contents exactly as the
    partition step acts on one map, and to change only the key's own
    partition.
  - `totalKeys` and `getAllKeys` are loops over the array.
- `json.dfy` (`JsonNodes`, `JsonUtils`): JSON objects as finite maps, the
  JSON codec as four calls that return or throw, and `shallowMerge`.
- `responses.dfy` (`Pojos`, `Eithers`) and `cacheutils.dfy`
  (`CacheExceptionUtils`, `CacheHandlerUtils`): the response records, the
  two-slot `Either`, and the exception-to-response and try/catch helpers.
- `flows.dfy` (`Flows`): what the web flows share.
  - A flow is a function from the store's contents to an `Outcome`: the
    contents afterwards, how the future ends, and the store calls made in
    order.
  - It also holds the `thenApply`/`thenCompose` wrapping rules,
    `mergeData` and the version-filter lookup.
- `service.dfy` (`StoreService`), `sethandler.dfy` (`SetValueHandler`) and
  `puthandler.dfy` (`PutValueHandler`): the service and the two write
  handlers.
  - Each is a flow function plus a class whose methods run the same flow
    on a real `KeyValueStore`.
  - Each method is proved equal to the flow function.
- `controller.dfy` (`Controller`): the REST controller's status mapping
  and endpoints.
- `cluster.dfy` (`Cluster`): `routeKey`, `getNodeById` and
  `isKeyOwnedByCurrentNode`.
- `api.dfy` (`Api`) and `handlers.dfy` (`ApiHandlers`): the request
  methods, the older overwriting handler resolver, the router, and the
  newer resolver that refuses duplicates.

Time enters as a parameter `now`, read once per request. The hash codes
of keys are parameters: `DataKey -> Int32` for the store and
`string -> Int32` for the cluster. The JSON codec is a datatype of four
functions, each returning a value or an exception. `IsJacksonCodec`
states what `codec/JsonCodec.java` itself guarantees about which
exceptions it throws.

## Model

| member | source | states |
|---|---|---|
| Java.LongInc | modules/core/src/main/java/com/bcorp/kvstore/KeyValuePartition.java:68 | `version + 1` on a Java long: one more, except that Long.MAX_VALUE wraps to Long.MIN_VALUE |
| Java.SameLongObject | modules/spring-web/src/main/java/com/bcorp/InFlightKv/handlers/JsonStringSetValueHandler.java:77 | `==` on two separately boxed `Long`s: both null, or equal values in -128..127; `SetValueHandler.BoxedCheckRejectsMatchingVersion` shows an equal version outside the cache compared as different |
| Java.BucketIndex | modules/core/src/main/java/com/bcorp/kvstore/KeyValueStore.java:77-79 | `(h & 0x7fffffff) % n` always lies in [0, n) |
| DataKeys.FromString | modules/core/src/main/java/com/bcorp/pojos/DataKey.java:6-8 | the key of `fromString(s)` is `s` |
| DataKeys.FromStringInjective | modules/core/src/main/java/com/bcorp/pojos/DataKey.java:5-8 | two strings give equal keys exactly when they are equal |
| DataKeys.EqualityIsByKey | modules/core/src/main/java/com/bcorp/pojos/DataKey.java:5 | key equality is equality of the one String component, which map lookup relies on |
| DataKeys.StringCompareTo | modules/core/src/main/java/com/bcorp/pojos/DataKey.java:15 | `String.compareTo`: 0 exactly for equal strings; the length difference when one is a prefix of the other; otherwise the difference of the characters at the first index where they differ |
| DataKeys.CompareTo | modules/core/src/main/java/com/bcorp/pojos/DataKey.java:11-19 | against a DataKey it is `String.compareTo` of the keys; against any other object or null it is 1 |
| DataKeys.CompareZeroIffEqual | modules/core/src/main/java/com/bcorp/pojos/DataKey.java:15 | the string comparison is 0 exactly for equal strings |
| DataKeys.CompareAntisymmetric | modules/core/src/main/java/com/bcorp/pojos/DataKey.java:15 | swapping the arguments negates the comparison |
| DataKeys.CompareTransitive | modules/core/src/main/java/com/bcorp/pojos/DataKey.java:15 | "less than" is transitive |
| DataKeys.KeyOrderIsTotal | modules/core/src/main/java/com/bcorp/pojos/DataKey.java:11-16 | DataKey comparison is 0 exactly on equal keys and is antisymmetric |
| Values.Utf8Char | modules/core/src/main/java/com/bcorp/pojos/CachedDataValue.java:12 | the UTF-8 bytes of one character: one to four of them, a single byte exactly for a code below 0x80, and that byte is the code |
| Values.Utf8 | modules/core/src/main/java/com/bcorp/pojos/CachedDataValue.java:12 | `getBytes(UTF_8)` is one to four bytes per character; its length equals the string's exactly when every character is ASCII, and then byte i is the code of character i |
| Values.CachedFromString | modules/core/src/main/java/com/bcorp/pojos/CachedDataValue.java:11-16 | `fromString` has the UTF-8 bytes, class String, the given time and a null version |
| Values.CreateNewFrom | modules/core/src/main/java/com/bcorp/pojos/CachedDataValue.java:18-23 | `createNewFrom` copies data and class, stamps the given time, and sets version 0 |
| Values.CreateUpdatedFrom | modules/core/src/main/java/com/bcorp/pojos/CachedDataValue.java:25-30 | `createUpdatedFrom` copies data and class, stamps the given time, and uses exactly the supplied version |
| Values.DataValueFromString | modules/core/src/main/java/com/bcorp/pojos/DataValue.java:11-16 | the older record's `fromString`: UTF-8 bytes, class String, the current time, null version |
| Values.DataValueCreateNewFrom | modules/core/src/main/java/com/bcorp/pojos/DataValue.java:18-23 | keeps data and class, current time, version 0 |
| Values.DataValueCreateUpdatedFrom | modules/core/src/main/java/com/bcorp/pojos/DataValue.java:25-30 | keeps data and class, current time, version old + 1 (wrapping); a null version throws a NullPointerException |
| Values.UpdatedTimesVersion | modules/core/src/main/java/com/bcorp/pojos/DataValue.java:18-30 | a create followed by n updates has version n and still the first value's bytes and class |
| LongCodec.LongBytes | modules/core/src/main/java/com/bcorp/codec/LongCodec.java:13-16 | exactly 8 bytes; byte i holds bits 8i..8i+7 of the two's-complement value |
| LongCodec.Encode | modules/core/src/main/java/com/bcorp/codec/LongCodec.java:12-20 | a null `Long` throws NullPointerException when `putLong` unboxes it; otherwise 8 little-endian bytes of the value, class Long, version 0 |
| LongCodec.Decode | modules/core/src/main/java/com/bcorp/codec/LongCodec.java:23-31 | fewer than 8 bytes throw BufferUnderflowException; a null version throws a NullPointerException; otherwise the stored version is carried through |
| LongCodec.RoundTrip | modules/core/src/main/java/com/bcorp/codec/LongCodec.java:12-31 | a non-null long encodes, and decoding the encoding gives it back with version 0 |
| LongCodec.EncodeDecoded | modules/core/src/main/java/com/bcorp/codec/LongCodec.java:12-31 | every 8-byte value is the encoding of the long it decodes to |
| LongCodec.ToLittleEndianAt | modules/core/src/main/java/com/bcorp/codec/LongCodec.java:13-16 | byte i of the little-endian encoding is the number shifted right by 8i bits, modulo 256 |
| LongCodec.FromToLittleEndian | modules/core/src/main/java/com/bcorp/codec/LongCodec.java:25-28 | reading back the little-endian bytes of a number below 256^n gives the number |
| LongCodec.ToFromLittleEndian | modules/core/src/main/java/com/bcorp/codec/LongCodec.java:25-28 | re-encoding what a byte sequence reads as gives back the sequence |
| Partition.OperationTypeFor | modules/core/src/main/java/com/bcorp/kvstore/KeyValuePartition.java:117-132 | specification of `operationType`: SKIP or UPDATE for a null or matching version (`SetSkips`, `SetUpdates`), INSERT for -1 on an absent key and mismatch otherwise (`MinusOneCreatesIfAbsent`, `SetMismatch`) |
| Partition.SetOperation | modules/core/src/main/java/com/bcorp/kvstore/KeyValuePartition.java:53-56 | specification of the decision in `set`: INSERT for an absent key (`SetAbsentInserts`), otherwise `operationType`; `SetFailsIff` says exactly when it is a mismatch |
| Partition.GetStep | modules/core/src/main/java/com/bcorp/kvstore/KeyValuePartition.java:26-45 | specification of `get`, constrained by `GetAbsent`, `GetPresent` and `GetKeepsVersions`; the class method `Get` is proved equal to it |
| Partition.SetStep | modules/core/src/main/java/com/bcorp/kvstore/KeyValuePartition.java:47-79 | specification of `set`, constrained by `SetAbsentInserts`, `SetUpdates`, `SetSkips`, `SetMismatch`, `SetFailsIff`, `UpdateAtMaxWraps` and `SetKeepsVersionsNonNegative`; the class method `Set` is proved equal to it |
| Partition.RemoveStep | modules/core/src/main/java/com/bcorp/kvstore/KeyValuePartition.java:81-91 | specification of `remove`, constrained by `RemoveShrinks`; the class method `Remove` is proved equal to it |
| Partition.GetAbsent | modules/core/src/main/java/com/bcorp/kvstore/KeyValuePartition.java:29-32 | `get` on an absent key returns null and leaves the map unchanged |
| Partition.GetPresent | modules/core/src/main/java/com/bcorp/kvstore/KeyValuePartition.java:33-42 | `get` on a present key stores and returns the entry with only its access time set to the clock; no other key changes |
| Partition.GetKeepsVersions | modules/core/src/main/java/com/bcorp/kvstore/KeyValuePartition.java:35-40 | a read keeps the key set and every version |
| Partition.SetAbsentInserts | modules/core/src/main/java/com/bcorp/kvstore/KeyValuePartition.java:53-63 | `set` on an absent key inserts with version 0, whatever version was expected |
| Partition.SetUpdates | modules/core/src/main/java/com/bcorp/kvstore/KeyValuePartition.java:64-72 | a null or matching expected version with different bytes stores the new bytes with version old + 1 |
| Partition.SetSkips | modules/core/src/main/java/com/bcorp/kvstore/KeyValuePartition.java:73 | a null or matching expected version with identical bytes returns the stored entry and changes nothing |
| Partition.SetMismatch | modules/core/src/main/java/com/bcorp/kvstore/KeyValuePartition.java:117-132 | a present key with any other expected version, -1 included, fails with ConcurrentUpdateException and the map is unchanged |
| Partition.SetFailsIff | modules/core/src/main/java/com/bcorp/kvstore/KeyValuePartition.java:52-76 | `set` fails exactly when the key is present and a non-null expected version differs; it never touches another key |
| Partition.SetKeepsVersionsNonNegative | modules/core/src/main/java/com/bcorp/kvstore/KeyValuePartition.java:60-72 | stored versions stay non-negative, unless an entry at Long.MAX_VALUE is updated |
| Partition.UpdateAtMaxWraps | modules/core/src/main/java/com/bcorp/kvstore/KeyValuePartition.java:68 | updating an entry at Long.MAX_VALUE stores Long.MIN_VALUE |
| Partition.MinusOneCreatesIfAbsent | modules/core/src/main/java/com/bcorp/kvstore/KeyValuePartition.java:125-129 | with non-negative versions, expected version -1 inserts on a miss and fails on a hit |
| Partition.RemoveShrinks | modules/core/src/main/java/com/bcorp/kvstore/KeyValuePartition.java:81-91 | `remove` returns the previous entry or null; the key is absent afterwards; the size drops by one exactly when it was present; other keys are kept |
| Partition.KeyValuePartition.constructor | modules/core/src/main/java/com/bcorp/kvstore/KeyValuePartition.java:18-24 | a partition starts with its id and an empty map |
| Partition.KeyValuePartition.Get | modules/core/src/main/java/com/bcorp/kvstore/KeyValuePartition.java:26-45 | the map and the result are those of the `get` step on the old map |
| Partition.KeyValuePartition.Set | modules/core/src/main/java/com/bcorp/kvstore/KeyValuePartition.java:47-79 | the map and the result are those of the `set` step, whose arm `operationType` picks |
| Partition.KeyValuePartition.Remove | modules/core/src/main/java/com/bcorp/kvstore/KeyValuePartition.java:81-91 | the map and the result are those of the `remove` step |
| Partition.KeyValuePartition.ContainsKey | modules/core/src/main/java/com/bcorp/kvstore/KeyValuePartition.java:93-99 | true exactly when the key is in the map |
| Partition.KeyValuePartition.TotalKeys | modules/core/src/main/java/com/bcorp/kvstore/KeyValuePartition.java:101-105 | the size of the map |
| Partition.KeyValuePartition.GetAllKeys | modules/core/src/main/java/com/bcorp/kvstore/KeyValuePartition.java:107-114 | exactly the keys of the map |
| Store.PartitionOf | modules/core/src/main/java/com/bcorp/kvstore/KeyValueStore.java:77-79 | the partition index always lies in [0, 32) |
| Store.UnionLookup | modules/core/src/main/java/com/bcorp/kvstore/KeyValueStore.java:32-46 | with every key in its own partition, a key is stored exactly when its partition holds it, with that partition's entry |
| Store.UnionSize | modules/core/src/main/java/com/bcorp/kvstore/KeyValueStore.java:48-59 | the number of stored keys is the sum of the partition sizes |
| Store.GetCommutes | modules/core/src/main/java/com/bcorp/kvstore/KeyValueStore.java:32-34 | `get` through the key's partition is `get` on the whole contents, and keys stay in their partitions |
| Store.SetCommutes | modules/core/src/main/java/com/bcorp/kvstore/KeyValueStore.java:40-42 | `set` through the key's partition is `set` on the whole contents |
| Store.SetDependsOnKeyOnly | modules/core/src/main/java/com/bcorp/kvstore/KeyValuePartition.java:53-75 | `set` reads only its own key: on two maps that agree on it, it returns the same and stores the same entry |
| Store.RemoveCommutes | modules/core/src/main/java/com/bcorp/kvstore/KeyValueStore.java:44-46 | `remove` through the key's partition is `remove` on the whole contents |
| Store.KeyValueStore.constructor | modules/core/src/main/java/com/bcorp/kvstore/KeyValueStore.java:17-23 | exactly 32 fresh partitions, with ids 0..31, and empty contents |
| Store.KeyValueStore.GetPartition | modules/core/src/main/java/com/bcorp/kvstore/KeyValueStore.java:77-79 | a valid index into the partition array, the one the key's hash selects |
| Store.KeyValueStore.Get | modules/core/src/main/java/com/bcorp/kvstore/KeyValueStore.java:32-34 | only the key's partition changes; contents and result are those of the `get` step on the old contents |
| Store.KeyValueStore.Set | modules/core/src/main/java/com/bcorp/kvstore/KeyValueStore.java:40-42 | only the key's partition changes; contents and result are those of the `set` step on the old contents |
| Store.KeyValueStore.Remove | modules/core/src/main/java/com/bcorp/kvstore/KeyValueStore.java:44-46 | only the key's partition changes; contents and result are those of the `remove` step on the old contents |
| Store.KeyValueStore.ContainsKey | modules/core/src/main/java/com/bcorp/kvstore/KeyValueStore.java:36-38 | true exactly when the key is in the contents |
| Store.KeyValueStore.TotalKeys | modules/core/src/main/java/com/bcorp/kvstore/KeyValueStore.java:48-59 | the sum of the partition sizes, which is the number of keys stored |
| Store.KeyValueStore.GetAllKeys | modules/core/src/main/java/com/bcorp/kvstore/KeyValueStore.java:61-74 | every stored key exactly once, grouped by partition in index order |
| Store.Enumerate | modules/core/src/main/java/com/bcorp/kvstore/KeyValueStore.java:71 | streaming a key set lists each of its keys exactly once |
| JsonNodes.AsObjectNode | modules/spring-web/src/main/java/com/bcorp/InFlightKv/service/KeyValueStoreService.java:133 | the cast `(ObjectNode)` succeeds exactly on object nodes and throws ClassCastException otherwise |
| JsonUtils.ShallowMerge | modules/spring-web/src/main/java/com/bcorp/InFlightKv/utils/JsonUtils.java:6-25 | a missing main node gives the update, and a missing update gives the main node; otherwise the fields are the union, the update's values win, and fields only in main keep main's value |
| JsonUtils.ShallowMergeIdempotent | modules/spring-web/src/main/java/com/bcorp/InFlightKv/utils/JsonUtils.java:19-22 | merging the same update twice is merging it once |
| JsonUtils.ShallowMergeUnits | modules/spring-web/src/main/java/com/bcorp/InFlightKv/utils/JsonUtils.java:19-22 | an empty update, or an empty main node, gives the other side |
| JsonUtils.ShallowMergeAssociative | modules/spring-web/src/main/java/com/bcorp/InFlightKv/utils/JsonUtils.java:19-22 | two successive merges equal one merge of the combined update |
| Pojos.Success | modules/spring-web/src/main/java/InFlightKv/pojos/CacheResponse.java:8-10 | data and version are set and the error is null |
| Pojos.Failure | modules/spring-web/src/main/java/InFlightKv/pojos/CacheResponse.java:12-14 | data and version are null and the error is as given |
| Pojos.FailureOf | modules/spring-web/src/main/java/InFlightKv/pojos/CacheResponse.java:16-18 | no data or version; the error holds the given code and message |
| Pojos.NotFound | modules/spring-web/src/main/java/InFlightKv/pojos/CacheResponse.java:20-22 | NOT_FOUND with "Key not found" and no data or version |
| Pojos.FailureOverloadsAgree | modules/spring-web/src/main/java/InFlightKv/pojos/CacheResponse.java:12-18 | the two `failure` overloads build the same response |
| Pojos.SuccessIsNotFailure | modules/spring-web/src/main/java/InFlightKv/pojos/CacheResponse.java:8-14 | a success is never equal to a failure |
| Eithers.Either.IsSuccess | modules/spring-web/src/main/java/com/bcorp/InFlightKv/utils/Either.java:23-25 | true exactly when the success slot is not null; `SuccessIsSuccessIff` and `FailedIsNeverSuccess` state it for both factories |
| Eithers.Success | modules/spring-web/src/main/java/com/bcorp/InFlightKv/utils/Either.java:15-17 | `success(x)` holds x and a null error response |
| Eithers.Failed | modules/spring-web/src/main/java/com/bcorp/InFlightKv/utils/Either.java:19-21 | `failed(r)` holds r and a null success response |
| Eithers.SuccessIsSuccessIff | modules/spring-web/src/main/java/com/bcorp/InFlightKv/utils/Either.java:15-25 | `success(x).isSuccess()` holds exactly when x is not null, so `success(null)` is a failure with no error |
| Eithers.FailedIsNeverSuccess | modules/spring-web/src/main/java/com/bcorp/InFlightKv/utils/Either.java:19-25 | a failed holder never reports success |
| CacheExceptionUtils.Cause | modules/spring-web/src/main/java/com/bcorp/InFlightKv/utils/CacheExceptionUtils.java:12 | a CompletionException is unwrapped one level; anything else is kept |
| CacheExceptionUtils.HandleConflict | modules/spring-web/src/main/java/com/bcorp/InFlightKv/utils/CacheExceptionUtils.java:20-23 | no data or version, and the error CONFLICT with the "updated concurrently" message |
| CacheExceptionUtils.HandleGenericError | modules/spring-web/src/main/java/com/bcorp/InFlightKv/utils/CacheExceptionUtils.java:25-28 | no data or version, and the error INTERNAL_ERROR with the "Something failed" message |
| CacheExceptionUtils.HandleCacheExceptions | modules/spring-web/src/main/java/com/bcorp/InFlightKv/utils/CacheExceptionUtils.java:10-18 | CONFLICT exactly for a ConcurrentUpdateException, bare or wrapped once; everything else is INTERNAL_ERROR; never any data or version |
| CacheExceptionUtils.UnwrapsOnlyOnce | modules/spring-web/src/main/java/com/bcorp/InFlightKv/utils/CacheExceptionUtils.java:12-17 | a conflict wrapped twice is an INTERNAL_ERROR |
| CacheExceptionUtils.WrapIsTransparent | modules/spring-web/src/main/java/com/bcorp/InFlightKv/utils/CacheExceptionUtils.java:11-12 | the wrapping added by a future stage does not change the mapping |
| CacheExceptionUtils.Exceptionally | modules/spring-web/src/main/java/com/bcorp/InFlightKv/service/KeyValueStoreService.java:37-39 | `.exceptionally(handleCacheExceptions)`: an exceptionally completed future completes normally with the mapped error response; a normal completion or a synchronous throw passes through unchanged |
| CacheHandlerUtils.Catching | modules/spring-web/src/main/java/InFlightKv/utils/CacheHandlerUtils.java:14-20 | a normal return is a success holding the value; the one caught exception is a failed holder with the error; any other exception goes through |
| CacheHandlerUtils.ParseJsonString | modules/spring-web/src/main/java/InFlightKv/utils/CacheHandlerUtils.java:13-21 | a success exactly when the codec parses; JsonDecodingFailed is WRONG_DATA_TYPE "Value is not a proper json string" |
| CacheHandlerUtils.DecodeSetResponse | modules/spring-web/src/main/java/InFlightKv/utils/CacheHandlerUtils.java:45-52 | a success exactly when the codec decodes; JsonDecodingFailed is WRONG_DATA_TYPE "Failed to decode data to json" |
| CacheHandlerUtils.DecodeDataValue | modules/spring-web/src/main/java/com/bcorp/InFlightKv/service/KeyValueStoreService.java:128 | a success holding the decoded node exactly when the codec decodes; JsonDecodingFailed is WRONG_DATA_TYPE "Failed to decode data to json"; other exceptions go through |
| CacheHandlerUtils.SerializeJsonNode | modules/spring-web/src/main/java/InFlightKv/utils/CacheHandlerUtils.java:54-61 | a success exactly when the codec serializes; only JsonDecodingFailed is caught, so the codec's JsonSerializationFailed escapes |
| CacheHandlerUtils.EncodeJsonNode | modules/spring-web/src/main/java/com/bcorp/InFlightKv/service/KeyValueStoreService.java:113-114 | a success holding the codec's encoding exactly when it encodes; JsonEncodingFailed is an ENCODING_FAILURE |
| CacheHandlerUtils.HandleCacheResponse | modules/spring-web/src/main/java/InFlightKv/utils/CacheHandlerUtils.java:23-43 | null is NOT_FOUND without calling the codec; data comes back exactly when the value has a version and decodes and serializes, as the string with the stored version; each caught failure is WRONG_DATA_TYPE with its message and no data or version |
| CacheHandlerUtils.SerializeFailureEscapes | modules/spring-web/src/main/java/InFlightKv/utils/CacheHandlerUtils.java:34-40 | with JsonCodec.java, a value that decodes but does not serialize throws JsonSerializationFailed out of `handleCacheResponse` |
| CacheHandlerUtils.EscapingExceptions | modules/spring-web/src/main/java/InFlightKv/utils/CacheHandlerUtils.java:23-61 | with JsonCodec.java, only JsonSerializationFailed or a NullPointerException can escape `handleCacheResponse` |
| Flows.Immediate | modules/spring-web/src/main/java/com/bcorp/InFlightKv/service/KeyValueStoreService.java:58 | `completedFuture`: the reply as given, no store call, contents kept |
| Flows.ThenHandleResponse | modules/spring-web/src/main/java/com/bcorp/InFlightKv/service/KeyValueStoreService.java:122-124 | `thenApply(handleCacheResponse)`: a failed store call or an exception in the function fails the future, wrapped once; nothing throws synchronously |
| Flows.InsideStage | modules/spring-web/src/main/java/com/bcorp/InFlightKv/service/KeyValueStoreService.java:68-83 | `thenCompose`: a completed inner future passes; an inner failure or throw fails the composed future, wrapped once |
| Flows.AfterGet | modules/spring-web/src/main/java/com/bcorp/InFlightKv/service/KeyValueStoreService.java:68 | the read comes before every call of the continuation |
| Flows.MergeData | modules/spring-web/src/main/java/com/bcorp/InFlightKv/service/KeyValueStoreService.java:127-139 | a stored value that does not decode is WRONG_DATA_TYPE; a node that is not an object throws ClassCastException; two objects are encoded as the stored fields overridden by the input's |
| Flows.FirstVersion | modules/spring-web/src/main/java/com/bcorp/InFlightKv/handlers/JsonStringSetValueHandler.java:45-49 | null exactly when there is no version filter; an exception only as the NullPointerException of `findFirst` on a null version |
| Flows.FirstVersionIsFirst | modules/spring-web/src/main/java/com/bcorp/InFlightKv/handlers/JsonStringSetValueHandler.java:45-49 | the first version filter in the list decides |
| StoreService.VersionCheck | modules/spring-web/src/main/java/com/bcorp/InFlightKv/service/KeyValueStoreService.java:91-96 | no expected version is `success(null)`; an expected version passes exactly when the entry exists with that version, and otherwise it is CONFLICT "Expected version doesn't match latest version" |
| StoreService.GetDataToSet | modules/spring-web/src/main/java/com/bcorp/InFlightKv/service/KeyValueStoreService.java:98-106 | the merge when merging onto an existing entry, otherwise the encoded input |
| StoreService.GetFlow | modules/spring-web/src/main/java/com/bcorp/InFlightKv/service/KeyValueStoreService.java:34-40 | specification of `get` as a flow, constrained by `GetAnswers` and `GetFailureIsInternal`; `KeyValueStoreService.Get` is proved equal to it |
| StoreService.RemoveFlow | modules/spring-web/src/main/java/com/bcorp/InFlightKv/service/KeyValueStoreService.java:42-48 | specification of `remove`, constrained by `RemoveAnswers` |
| StoreService.SetFlow | modules/spring-web/src/main/java/com/bcorp/InFlightKv/service/KeyValueStoreService.java:50-84 | specification of `set`, constrained by `SetRejectsNonJson`, `SetBlindWrite`, `SetVersionConflict`, `SetWithMatchingVersion`, `SetMergesWithMatchingVersion`, `MergeWithoutVersionWritesNothing`, `MergeOnNonObjectFails` and `SetAloneNeverConflicts` |
| StoreService.AfterReadFlow | modules/spring-web/src/main/java/com/bcorp/InFlightKv/service/KeyValueStoreService.java:69-82 | specification of the `thenCompose` continuation, constrained by `InterleavedWriteFails` and `AfterReadAloneNeverConflicts` |
| StoreService.WriteValueFlow | modules/spring-web/src/main/java/com/bcorp/InFlightKv/service/KeyValueStoreService.java:108-125 | specification of `writeValue`: an encoding failure answers at once, otherwise one `set` whose answer goes through `handleCacheResponse`; used by `SetWithMatchingVersion` and `SetBlindWrite` |
| StoreService.GetAnswers | modules/spring-web/src/main/java/com/bcorp/InFlightKv/service/KeyValueStoreService.java:34-40 | `get` makes one read and always completes normally: NOT_FOUND on a miss, the stored value as a response, or the mapped exception |
| StoreService.GetFailureIsInternal | modules/spring-web/src/main/java/com/bcorp/InFlightKv/service/KeyValueStoreService.java:37-39 | with JsonCodec.java, a read whose answer throws is INTERNAL_ERROR |
| StoreService.RemoveAnswers | modules/spring-web/src/main/java/com/bcorp/InFlightKv/service/KeyValueStoreService.java:42-48 | `remove` removes the key with one call and always completes normally: NOT_FOUND on a miss, otherwise the removed value as a response or an error |
| StoreService.SetRejectsNonJson | modules/spring-web/src/main/java/com/bcorp/InFlightKv/service/KeyValueStoreService.java:56-59 | unparseable input is WRONG_DATA_TYPE and the store is never called |
| StoreService.SetBlindWrite | modules/spring-web/src/main/java/com/bcorp/InFlightKv/service/KeyValueStoreService.java:62-66 | without merge or expected version: exactly one write with a null previous version and no read, which cannot conflict |
| StoreService.SetVersionConflict | modules/spring-web/src/main/java/com/bcorp/InFlightKv/service/KeyValueStoreService.java:70-73 | an expected version on an absent key, or one that differs, is CONFLICT after the read, with no write |
| StoreService.SetWithMatchingVersion | modules/spring-web/src/main/java/com/bcorp/InFlightKv/service/KeyValueStoreService.java:75-79 | a matching version writes the encoded input with that version as the previous version |
| StoreService.SetMergesWithMatchingVersion | modules/spring-web/src/main/java/com/bcorp/InFlightKv/service/KeyValueStoreService.java:127-139 | with merge, the value written is the stored object's fields overridden by the input's |
| StoreService.MergeWithoutVersionWritesNothing | modules/spring-web/src/main/java/com/bcorp/InFlightKv/service/KeyValueStoreService.java:91-96 | merge without an expected version reads, never writes, and answers with no data, no version and no error |
| StoreService.MergeOnNonObjectFails | modules/spring-web/src/main/java/com/bcorp/InFlightKv/service/KeyValueStoreService.java:133 | merging where either side is not an object fails the future with the wrapped ClassCastException, and nothing is written |
| StoreService.InterleavedWriteFails | modules/spring-web/src/main/java/com/bcorp/InFlightKv/service/KeyValueStoreService.java:122-124 | when another write lands between the read and the write, the future fails with the wrapped ConcurrentUpdateException, because `set` attaches no handler |
| StoreService.SetAloneNeverConflicts | modules/spring-web/src/main/java/com/bcorp/InFlightKv/service/KeyValueStoreService.java:50-84 | with JsonCodec.java and no interleaving, `set` never throws before returning its future, and an exceptional completion is never a concurrent update |
| StoreService.AfterReadAloneNeverConflicts | modules/spring-web/src/main/java/com/bcorp/InFlightKv/service/KeyValueStoreService.java:69-82 | the same for the continuation run directly on what was just read |
| StoreService.KeyValueStoreService.constructor | modules/spring-web/src/main/java/com/bcorp/InFlightKv/service/KeyValueStoreService.java:29-32 | keeps the codec and the store |
| StoreService.KeyValueStoreService.Get | modules/spring-web/src/main/java/com/bcorp/InFlightKv/service/KeyValueStoreService.java:34-40 | the store's new contents, the reply and the calls are those of the `get` flow on the old contents |
| StoreService.KeyValueStoreService.Remove | modules/spring-web/src/main/java/com/bcorp/InFlightKv/service/KeyValueStoreService.java:42-48 | the same for the `remove` flow |
| StoreService.KeyValueStoreService.Set | modules/spring-web/src/main/java/com/bcorp/InFlightKv/service/KeyValueStoreService.java:50-84 | the same for the `set` flow |
| StoreService.KeyValueStoreService.AfterRead | modules/spring-web/src/main/java/com/bcorp/InFlightKv/service/KeyValueStoreService.java:69-82 | the same for the `thenCompose` continuation, run on the store as it is then |
| StoreService.KeyValueStoreService.WriteValue | modules/spring-web/src/main/java/com/bcorp/InFlightKv/service/KeyValueStoreService.java:108-125 | the same for `writeValue` |
| StoreService.KeyValueStoreService.GetAllKeys | modules/spring-web/src/main/java/com/bcorp/InFlightKv/service/KeyValueStoreService.java:86-88 | every stored key exactly once |
| SetValueHandler.Stale | modules/spring-web/src/main/java/com/bcorp/InFlightKv/handlers/JsonStringSetValueHandler.java:77 | the evidently intended guard: a version filter that is not null and whose value differs from the stored version, i.e. the `equals` test the service's `versionCheck` uses; the corrected flow rejects exactly these (`VersionConflict`) |
| SetValueHandler.StaleAsWritten | modules/spring-web/src/main/java/com/bcorp/InFlightKv/handlers/JsonStringSetValueHandler.java:77 | the guard as written: `SameLongObject` fails, so an equal version outside -128..127 counts as stale (`BoxedCheckRejectsMatchingVersion`) |
| SetValueHandler.CheckVersionAndSetValueFlow | modules/spring-web/src/main/java/com/bcorp/InFlightKv/handlers/JsonStringSetValueHandler.java:66-94 | specification of `checkVersionAndSetValue` with the intended guard, constrained by `ReadPathMissingKey`, `VersionConflict`, `WritesWithStoredVersion`, `PatchWritesMerge` and `InterleavedWriteIsConflict` |
| SetValueHandler.CheckVersionAndSetValueFlowAsWritten | modules/spring-web/src/main/java/com/bcorp/InFlightKv/handlers/JsonStringSetValueHandler.java:66-94 | `checkVersionAndSetValue` with the guard as written, constrained by `BoxedCheckRejectsMatchingVersion` and `BoxedCheckAgreesInCache` |
| SetValueHandler.HandleFlow | modules/spring-web/src/main/java/com/bcorp/InFlightKv/handlers/JsonStringSetValueHandler.java:34-64 | specification of `handle`, constrained by `RejectsNonJson`, `BlindWrite`, `ReadPathMissingKey`, `VersionConflict`, `WritesWithStoredVersion`, `PatchWritesMerge` and `FutureNeverFails` |
| SetValueHandler.RejectsNonJson | modules/spring-web/src/main/java/com/bcorp/InFlightKv/handlers/JsonStringSetValueHandler.java:37-40 | invalid JSON is WRONG_DATA_TYPE with no get or set |
| SetValueHandler.BlindWrite | modules/spring-web/src/main/java/com/bcorp/InFlightKv/handlers/JsonStringSetValueHandler.java:51-54 | no version filter and no patching: one `set` of the encoded input with a null version and no read |
| SetValueHandler.ReadPathMissingKey | modules/spring-web/src/main/java/com/bcorp/InFlightKv/handlers/JsonStringSetValueHandler.java:73-75 | on the read path an absent key is NOT_FOUND "Expected version not found", PATCH without a version included, with no write |
| SetValueHandler.VersionConflict | modules/spring-web/src/main/java/com/bcorp/InFlightKv/handlers/JsonStringSetValueHandler.java:77-79 | a differing expected version is CONFLICT "Expected version doesn't match latest version" with no write |
| SetValueHandler.WritesWithStoredVersion | modules/spring-web/src/main/java/com/bcorp/InFlightKv/handlers/JsonStringSetValueHandler.java:92-93 | without patching, a match writes the encoded input with the stored version as the expected version, and the write succeeds |
| SetValueHandler.PatchWritesMerge | modules/spring-web/src/main/java/com/bcorp/InFlightKv/handlers/JsonStringSetValueHandler.java:96-108 | with patching, the value written is the stored object's fields overridden by the input's, with the stored version |
| SetValueHandler.BoxedCheckRejectsMatchingVersion | modules/spring-web/src/main/java/com/bcorp/InFlightKv/handlers/JsonStringSetValueHandler.java:77-79 | as written, an expected version equal to the stored one but outside -128..127 is CONFLICT with nothing written, where the intended check writes |
| SetValueHandler.BoxedCheckAgreesInCache | modules/spring-web/src/main/java/com/bcorp/InFlightKv/handlers/JsonStringSetValueHandler.java:77-79 | without a version filter, for versions in -128..127, or for differing versions, the check as written is the intended one |
| SetValueHandler.InterleavedWriteIsConflict | modules/spring-web/src/main/java/com/bcorp/InFlightKv/handlers/JsonStringSetValueHandler.java:92-93 | a write landing between the read and the write makes the response CONFLICT |
| SetValueHandler.FutureNeverFails | modules/spring-web/src/main/java/com/bcorp/InFlightKv/handlers/JsonStringSetValueHandler.java:51-63 | the future never completes exceptionally; a synchronous throw happens only before any store call |
| SetValueHandler.JsonStringSetValueHandler.constructor | modules/spring-web/src/main/java/com/bcorp/InFlightKv/handlers/JsonStringSetValueHandler.java:28-31 | keeps the codec and the patching flag |
| SetValueHandler.JsonStringSetValueHandler.Handle | modules/spring-web/src/main/java/com/bcorp/InFlightKv/handlers/JsonStringSetValueHandler.java:34-64 | the store's new contents, the reply and the calls are those of the handler's flow on the old contents |
| SetValueHandler.JsonStringSetValueHandler.CheckVersionAndSetValue | modules/spring-web/src/main/java/com/bcorp/InFlightKv/handlers/JsonStringSetValueHandler.java:66-94 | the same for `checkVersionAndSetValue` on the store as it is then |
| PutValueHandler.CheckVersionAndSetValueFlow | modules/spring-web/src/main/java/InFlightKv/handlers/JsonStringPutValueHandler.java:63-79 | specification of `checkVersionAndSetValue` with the intended guard, constrained by `VersionRejected` and `MatchWritesInput` |
| PutValueHandler.CheckVersionAndSetValueFlowAsWritten | modules/spring-web/src/main/java/InFlightKv/handlers/JsonStringPutValueHandler.java:63-79 | `checkVersionAndSetValue` with the guard as written, constrained by `BoxedCheckRejectsMatchingVersion` and `BoxedCheckAgreesInCache` |
| PutValueHandler.HandleFlow | modules/spring-web/src/main/java/InFlightKv/handlers/JsonStringPutValueHandler.java:31-61 | specification of `handle`, constrained by `RejectsNonJson`, `BlindWrite`, `VersionRejected`, `MatchWritesInput`, `FutureNeverFails` and `AgreesWithSetHandler` |
| PutValueHandler.RejectsNonJson | modules/spring-web/src/main/java/InFlightKv/handlers/JsonStringPutValueHandler.java:34-37 | invalid JSON is WRONG_DATA_TYPE with no store call |
| PutValueHandler.BlindWrite | modules/spring-web/src/main/java/InFlightKv/handlers/JsonStringPutValueHandler.java:48-51 | no version filter: one unconditional `set` of the encoded input and no read |
| PutValueHandler.VersionRejected | modules/spring-web/src/main/java/InFlightKv/handlers/JsonStringPutValueHandler.java:70-76 | with a version filter, an absent key is NOT_FOUND "Expected version not found" and a differing version is CONFLICT; neither writes |
| PutValueHandler.MatchWritesInput | modules/spring-web/src/main/java/InFlightKv/handlers/JsonStringPutValueHandler.java:77-78 | a match writes the encoded input, never a merge, with the stored version as the expected version |
| PutValueHandler.BoxedCheckRejectsMatchingVersion | modules/spring-web/src/main/java/InFlightKv/handlers/JsonStringPutValueHandler.java:74-76 | as written, an expected version equal to the stored one but outside -128..127 is CONFLICT with nothing written, where the intended check writes the encoded input |
| PutValueHandler.BoxedCheckAgreesInCache | modules/spring-web/src/main/java/InFlightKv/handlers/JsonStringPutValueHandler.java:74-76 | for versions in -128..127, or for differing versions, the check as written is the intended one |
| PutValueHandler.FutureNeverFails | modules/spring-web/src/main/java/InFlightKv/handlers/JsonStringPutValueHandler.java:48-59 | store exceptions go through `handleCacheExceptions`, so the future never completes exceptionally |
| PutValueHandler.AgreesWithSetHandler | modules/spring-web/src/main/java/InFlightKv/handlers/JsonStringPutValueHandler.java:31-79 | where the input encodes, the handler behaves exactly like the set handler with patching off |
| PutValueHandler.JsonStringPutValueHandler.constructor | modules/spring-web/src/main/java/InFlightKv/handlers/JsonStringPutValueHandler.java:25-27 | keeps the codec |
| PutValueHandler.JsonStringPutValueHandler.Handle | modules/spring-web/src/main/java/InFlightKv/handlers/JsonStringPutValueHandler.java:31-61 | the store's new contents, the reply and the calls are those of the handler's flow on the old contents |
| PutValueHandler.JsonStringPutValueHandler.CheckVersionAndSetValue | modules/spring-web/src/main/java/InFlightKv/handlers/JsonStringPutValueHandler.java:63-79 | the same for `checkVersionAndSetValue` |
| Controller.HandleError | modules/spring-web/src/main/java/com/bcorp/InFlightKv/controller/JsonKeyValueStoreController.java:72-78 | NOT_FOUND is 404, CONFLICT is 409 and any other code 500, all without a body; a null error throws a NullPointerException |
| Controller.ConvertToControllerResponse | modules/spring-web/src/main/java/com/bcorp/InFlightKv/controller/JsonKeyValueStoreController.java:65-70 | non-null data is 200 with the response as body; otherwise the error decides |
| Controller.ThenConvert | modules/spring-web/src/main/java/com/bcorp/InFlightKv/controller/JsonKeyValueStoreController.java:23-62 | `thenApply(convertToControllerResponse)`: a convertible response completes with its entity; a conversion that throws, or a failed service future, completes exceptionally wrapped once; a synchronous throw stays synchronous |
| Controller.GetEndpoint | modules/spring-web/src/main/java/com/bcorp/InFlightKv/controller/JsonKeyValueStoreController.java:23-30 | GET as the service's `get` flow followed by `thenApply(convertToControllerResponse)`, constrained by `GetEndpointAnswers` |
| Controller.PutEndpoint | modules/spring-web/src/main/java/com/bcorp/InFlightKv/controller/JsonKeyValueStoreController.java:32-41 | PUT as the service's `set` flow with merge off and `ifVersion`, constrained by `PutStaleVersionIsConflict` |
| Controller.PatchEndpoint | modules/spring-web/src/main/java/com/bcorp/InFlightKv/controller/JsonKeyValueStoreController.java:43-53 | PATCH as the service's `set` flow with merge on and `ifVersion`, constrained by `PatchWithoutVersionFails` |
| Controller.DeleteEndpoint | modules/spring-web/src/main/java/com/bcorp/InFlightKv/controller/JsonKeyValueStoreController.java:55-62 | DELETE as the service's `remove` flow with the conversion, constrained by `DeleteEndpointAnswers` |
| Controller.StatusMapping | modules/spring-web/src/main/java/com/bcorp/InFlightKv/controller/JsonKeyValueStoreController.java:65-78 | 200 exactly for a response with data; 404 exactly for NOT_FOUND and 409 exactly for CONFLICT without data; no body unless 200; a response with neither data nor error has no mapping |
| Controller.GetEndpointAnswers | modules/spring-web/src/main/java/com/bcorp/InFlightKv/controller/JsonKeyValueStoreController.java:23-30 | GET always completes with a status: 200 exactly when the entry has a version and decodes and serializes; otherwise no body, and 404 for a missing key |
| Controller.DeleteEndpointAnswers | modules/spring-web/src/main/java/com/bcorp/InFlightKv/controller/JsonKeyValueStoreController.java:55-62 | DELETE always removes the key and completes: 200 exactly when the removed entry had a version and decodes and serializes, 404 when there was none |
| Controller.PutStaleVersionIsConflict | modules/spring-web/src/main/java/com/bcorp/InFlightKv/controller/JsonKeyValueStoreController.java:32-41 | PUT forwards `ifVersion` without merge: a stale version is a 409 after one read, with no write |
| Controller.PatchWithoutVersionFails | modules/spring-web/src/main/java/com/bcorp/InFlightKv/controller/JsonKeyValueStoreController.java:43-53 | PATCH forwards merge=true: without `ifVersion` it writes nothing, and converting the empty response throws, so the future fails with a NullPointerException |
| Cluster.DefaultSettings | modules/spring-web/src/main/java/com/bcorp/InFlightKv/service/ClusterService.java:24-28 | the node id defaults to "node-1" and the name to "inflight-kv-1" |
| Cluster.TrimStart | modules/spring-web/src/main/java/com/bcorp/InFlightKv/service/ClusterService.java:77 | drops exactly the leading chars up to U+0020 |
| Cluster.TrimEnd | modules/spring-web/src/main/java/com/bcorp/InFlightKv/service/ClusterService.java:77 | drops exactly the trailing chars up to U+0020 |
| Cluster.Trim | modules/spring-web/src/main/java/com/bcorp/InFlightKv/service/ClusterService.java:77 | `trim()` is empty exactly for strings of chars up to U+0020 |
| Cluster.NodeIndex | modules/spring-web/src/main/java/com/bcorp/InFlightKv/service/ClusterService.java:114-116 | the node index always lies in [0, size) |
| Cluster.LocalResult | modules/spring-web/src/main/java/com/bcorp/InFlightKv/service/ClusterService.java:83-90 | the current id and name, no host or URL, port -1, no redirect |
| Cluster.RouteKey | modules/spring-web/src/main/java/com/bcorp/InFlightKv/service/ClusterService.java:76-112 | null or blank key is IllegalArgumentException; no nodes is the local result; otherwise the fields come from the node the hash selects, with a redirect exactly when its id differs from the current one |
| Cluster.IsKeyOwnedByCurrentNode | modules/spring-web/src/main/java/com/bcorp/InFlightKv/service/ClusterService.java:118-121 | the negation of the redirect flag; routing exceptions pass through |
| Cluster.FindById | modules/spring-web/src/main/java/com/bcorp/InFlightKv/service/ClusterService.java:33-35 | a node found is a configured node with that id; empty exactly when every node has another non-null id; NullPointerException exactly when a null id comes before any match |
| Cluster.GetNodeById | modules/spring-web/src/main/java/com/bcorp/InFlightKv/service/ClusterService.java:32-36 | the lookup over the configured list; a null list throws |
| Cluster.FindByIdIsFirst | modules/spring-web/src/main/java/com/bcorp/InFlightKv/service/ClusterService.java:33-35 | the node returned is the first with that id |
| Cluster.RoutesToConfiguredNode | modules/spring-web/src/main/java/com/bcorp/InFlightKv/service/ClusterService.java:94-111 | a routed key names a configured node's id and port |
| Cluster.OwnedIffHashedHere | modules/spring-web/src/main/java/com/bcorp/InFlightKv/service/ClusterService.java:94-99 | with distinct ids and the current node at index c, a key is owned here exactly when it hashes to c |
| Cluster.UnlistedNodeOwnsNothing | modules/spring-web/src/main/java/com/bcorp/InFlightKv/service/ClusterService.java:118-121 | a node whose id is not configured owns no key |
| Api.Resolve | modules/core/src/main/java/com/bcorp/api/HandlerResolver.java:68-74 | the registered handler, or HandlerNotFoundException exactly when there is none |
| Api.ResolveKeyValueIn | modules/core/src/main/java/com/bcorp/api/HandlerResolver.java:55-59 | looks up method, key class and value class together; a null key or value throws a NullPointerException |
| Api.ResolveKeyOnlyIn | modules/core/src/main/java/com/bcorp/api/HandlerResolver.java:62-66 | looks up method and key class; a null key throws a NullPointerException |
| Api.HandlerResolver.constructor | modules/core/src/main/java/com/bcorp/api/HandlerResolver.java:35-38 | both tables start empty |
| Api.HandlerResolver.RegisterKeyOnlyHandler | modules/core/src/main/java/com/bcorp/api/HandlerResolver.java:40-45 | overwrites any earlier handler for (method, key class); the key-value table is unchanged; resolving then returns the new handler |
| Api.HandlerResolver.RegisterKeyValueHandler | modules/core/src/main/java/com/bcorp/api/HandlerResolver.java:47-53 | overwrites any earlier handler for (method, key class, value class); the key-only table is unchanged; resolving then returns the new handler |
| Api.HandlerResolver.ResolveKeyValue | modules/core/src/main/java/com/bcorp/api/HandlerResolver.java:55-59 | a null key or value throws NullPointerException; otherwise the handler registered for (method, key class, value class), or HandlerNotFoundException exactly when there is none |
| Api.HandlerResolver.ResolveKeyOnly | modules/core/src/main/java/com/bcorp/api/HandlerResolver.java:62-66 | a null key throws NullPointerException; otherwise the handler registered for (method, key class), or HandlerNotFoundException exactly when there is none |
| Api.RouteOf | modules/core/src/main/java/com/bcorp/api/Router.java:25-32 | the value's class if a value is present, otherwise the key's class, String; a null key without a value throws |
| Api.Router.constructor | modules/core/src/main/java/com/bcorp/api/Router.java:12-14 | no routes |
| Api.Router.AddRoute | modules/core/src/main/java/com/bcorp/api/Router.java:16-21 | a route already present is DuplicateRouteDefinition and the map is unchanged; otherwise the route is added |
| Api.Router.GetHandler | modules/core/src/main/java/com/bcorp/api/Router.java:23-37 | the handler added for the request's route, or HandlerNotFoundException exactly when there is none |
| ApiHandlers.EngineHandlerResolver | modules/spring-web/src/main/java/com/bcorp/InFlightKv/kvengine/KeyValueStoreEngineConfiguration.java:30-51 | GET and REMOVE are registered key-only and SET and PATCH key-value for String; all four registrations succeed, the tables hold exactly those handlers, and each method resolves to its own |
| ApiHandlers.HandlerResolver.constructor | modules/core/src/main/java/com/bcorp/api/handlers/HandlerResolver.java:36-39 | both tables start empty |
| ApiHandlers.HandlerResolver.RegisterKeyOnlyHandler | modules/core/src/main/java/com/bcorp/api/handlers/HandlerResolver.java:41-50 | a duplicate (method, key class) is DuplicateHandlerRegistration and the table is unchanged; otherwise it is added and resolves to the handler |
| ApiHandlers.HandlerResolver.RegisterKeyValueHandler | modules/core/src/main/java/com/bcorp/api/handlers/HandlerResolver.java:52-64 | a duplicate (method, key class, value class) is DuplicateHandlerRegistration and the first handler stays; otherwise it is added and resolves to the handler |
| ApiHandlers.HandlerResolver.ResolveKeyValue | modules/core/src/main/java/com/bcorp/api/handlers/HandlerResolver.java:66-70 | a null key or value throws NullPointerException; otherwise the handler registered for (method, key class, value class), or HandlerNotFoundException exactly when there is none |
| ApiHandlers.HandlerResolver.ResolveKeyOnly | modules/core/src/main/java/com/bcorp/api/handlers/HandlerResolver.java:73-85 | a null key throws NullPointerException; otherwise the handler registered for (method, key class), or HandlerNotFoundException exactly when there is none |

## Findings

| source | as written | input that shows it | evidently intended | confidence | as-written member | corrected member |
|---|---|---|---|---|---|---|
| modules/spring-web/src/main/java/com/bcorp/InFlightKv/handlers/JsonStringSetValueHandler.java:77 | `expectedVersion != existingData.version()` compares two `Long` references | stored version 128 and a version filter of 128: CONFLICT "Expected version doesn't match latest version", and nothing is written | compare the values, as `versionCheck` does with `equals` (KeyValueStoreService.java:91-96), so that a matching version is written | high; not executed | SetValueHandler.BoxedCheckRejectsMatchingVersion | SetValueHandler.WritesWithStoredVersion |
| modules/spring-web/src/main/java/InFlightKv/handlers/JsonStringPutValueHandler.java:74 | `expectedVersion != existingData.version()` compares two `Long` references | stored version 128 and a version filter of 128: CONFLICT, and nothing is written | compare the values, so that a matching version writes the input | high; not executed | PutValueHandler.BoxedCheckRejectsMatchingVersion | PutValueHandler.MatchWritesInput |

## Left out

- Asynchrony. The executors, futures and threads are left out: each partition operation is one atomic step, because each runs as one task on its partition's single thread. A request flow runs against the contents the store has at each store call. An interleaving is modelled only by running a continuation on other contents, as in `InterleavedWriteFails` and `InterleavedWriteIsConflict`.
- The clock and `System.currentTimeMillis` become the parameter `now`. One reading is used per request.
- Jackson is not modelled. Parsing, printing, encoding and decoding are arbitrary functions that return a value or throw. Object field order is not kept, because an object is a map.
- Hash codes are parameters: `DataKey.hashCode` for the store and `String.hashCode` for the cluster. Only the mask and the modulo are computed.
- SetValueHandler.CheckVersionAndSetValueFlow: uses the intended value comparison of versions. The reference comparison as written is `CheckVersionAndSetValueFlowAsWritten`, which the Findings table describes.
- SetValueHandler.JsonStringSetValueHandler.CheckVersionAndSetValue: runs the intended value comparison, not the reference comparison as written.
- SetValueHandler.WritesWithStoredVersion: proved of the intended value comparison. As written, an equal version outside -128..127 is CONFLICT instead (`BoxedCheckRejectsMatchingVersion`).
- SetValueHandler.PatchWritesMerge: with a version filter, proved of the intended value comparison. As written, an equal version outside -128..127 is CONFLICT instead.
- PutValueHandler.CheckVersionAndSetValueFlow: uses the intended value comparison. The reference comparison as written is `CheckVersionAndSetValueFlowAsWritten`.
- PutValueHandler.JsonStringPutValueHandler.CheckVersionAndSetValue: runs the intended value comparison, not the reference comparison as written.
- PutValueHandler.MatchWritesInput: proved of the intended value comparison. As written, an equal version outside -128..127 is CONFLICT instead (`BoxedCheckRejectsMatchingVersion`).
- Java.SameLongObject: assumes that both versions were boxed separately through `Long.valueOf`, which shares one object per value exactly in -128..127. The filter's version comes from the request and the stored version from the partition's own boxing, so they never share an object outside the cache.
- DataKeys.CompareTo: a DataKey holding a null String, as `fromString(null)` would build, is not modelled, so the NullPointerException that `compareTo` then throws is not modelled either. The key is a non-null string throughout, because the web layer always builds keys from a path variable.
- DataKeys.FromString: takes a non-null string, for the same reason.
- `getAllKeys` of a partition returns a live key-set view. It is modelled as a snapshot.
- The `sortedKeys` set of a partition is never used and is left out.
- Map sizes are unbounded naturals.
- Strings are sequences of Unicode scalar values. `Utf8` encodes each one. Java's UTF-16 surrogate pairs are not modelled.
- com/bcorp/InFlightKv/utils/CacheHandlerUtils.java is not part of this model.
  - `decodeDataValue` is taken to behave like `decodeSetResponse`.
  - `encodeJsonNode` is taken to turn JsonEncodingFailed into ENCODING_FAILURE, with the message "Failed to encode json data". That code and message are assumptions.
- InFlightKv/utils/CacheExceptionUtils.java is not part of this model. The put handler is taken to use the same mapping as com/bcorp/InFlightKv/utils/CacheExceptionUtils.java.
- The VersionFilter record is not part of this model. It is taken to hold one nullable `Long` version.
- `KeyOnlyHandlerKey`, `CacheRoute` and the `api` resolver's `KeyValueHandlerKey` are not part of this model. They are taken to be records with value equality.
- The put handler and `CacheHandlerUtils` are declared over `DataValue`, and LongCodec answers with a two-component response. The model uses `CachedDataValue` and the web layer's three-component response throughout, because their components are the same.
- `set` on a stored entry with a null version would throw when unboxing. No operation stores one (`VersionsPresent`), so the partition operations require that invariant.
- Partition.SetKeepsVersionsNonNegative: versions wrap after Long.MAX_VALUE, so non-negativity is proved only below it. `UpdateAtMaxWraps` shows the wrap.
- Handler references are taken to be non-null. A registered null handler would make `resolve` throw HandlerNotFoundException even though the key is present.
- The request's `Optional` value is taken to be non-null.
- The request's filter list is dropped from `CacheRequest`, because routing does not read it.
- Node entries in the cluster list are taken to be non-null. Their String properties may be null, and `getNodeById` takes a non-null id.
- The remaining network and web parts are left out: the health checks (`isNodeHealthy`, `checkAllNodesHealth`), `getAllNodes`, `getCurrentNodeId`, `ClusterKeyService`, `ClusterController`, the Reactor `Mono` plumbing around the controller's endpoints, and the Spring wiring.
- The load-test module, the test harnesses, and the stale duplicate sources under `InFlightKv/` are left out. The one exception is the put handler.
