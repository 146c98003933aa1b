/** The pieces the web-layer request flows share: the store calls a flow
    makes, what a flow leaves behind, and how CompletableFuture stages pass
    values and exceptions along. A flow runs against the store's contents
    (Store proves that the sharded store acts on its contents exactly as
    one partition acts on its map), with one clock reading per request. */
module Flows {
  import opened Java
  import opened DataKeys
  import opened Values
  import opened Partition
  import opened JsonNodes
  import opened Pojos
  import opened JsonUtils
  import opened CacheHandlerUtils
  import Eithers

  const VERSION_MISMATCH_MESSAGE := "Expected version doesn't match latest version"
  const EXPECTED_VERSION_NOT_FOUND_MESSAGE := "Expected version not found"

  /** One call a flow makes on the store. */
  datatype StoreCall =
    | GetCall(key: DataKey)
    | SetCall(key: DataKey, value: RequestDataValue, prevVersion: Option<Int64>)
    | RemoveCall(key: DataKey)

  /** The store's contents afterwards, the outcome of the returned future,
      and the store calls made, in order. */
  datatype Outcome = Outcome(entries: Entries, reply: Reply<CacheResponse<string>>, calls: seq<StoreCall>)

  /** A flow that answers at once, without touching the store. */
  function Immediate(entries: Entries, reply: Reply<CacheResponse<string>>): (o: Outcome)
    ensures o.entries == entries && o.reply == reply && o.calls == []
  {
    Outcome(entries, reply, [])
  }

  /** `store.get/set/remove(...).thenApply(v -> handleCacheResponse(v, codec))`:
      a failed store future, or an exception in the function, fails the
      dependent future with the exception wrapped once. */
  function ThenHandleResponse(stored: Result<Option<CachedDataValue>>, codec: JsonCodec)
    : (r: Reply<CacheResponse<string>>)
    ensures !r.ThrewSynchronously?
    ensures stored.Raised? ==> r == CompletedExceptionally(Wrap(stored.ex))
    ensures stored.Normal? && HandleCacheResponse(stored.value, codec).Normal? ==>
              r == Completed(HandleCacheResponse(stored.value, codec).value)
  {
    match stored
    case Raised(e) => CompletedExceptionally(Wrap(e))
    case Normal(v) =>
      match HandleCacheResponse(v, codec)
      case Normal(response) => Completed(response)
      case Raised(e) => CompletedExceptionally(Wrap(e))
  }

  /** The result of `set` as a nullable value that may have failed. */
  function Stored(r: Result<CachedDataValue>): Result<Option<CachedDataValue>>
  {
    match r
    case Normal(v) => Normal(Some(v))
    case Raised(e) => Raised(e)
  }

  /** The future a `thenCompose` stage yields: an exception thrown by the
      stage's function, or the failure of the future it returns, fails the
      composed future, wrapped once. */
  function InsideStage(r: Reply<CacheResponse<string>>): (s: Reply<CacheResponse<string>>)
    ensures !s.ThrewSynchronously?
    ensures r.Completed? ==> s == r
    ensures !r.Completed? ==> s == CompletedExceptionally(Wrap(r.ex))
  {
    match r
    case Completed(_) => r
    case CompletedExceptionally(e) => CompletedExceptionally(Wrap(e))
    case ThrewSynchronously(e) => CompletedExceptionally(Wrap(e))
  }

  /** The store has been read before the rest of the flow ran. */
  function AfterGet(key: DataKey, o: Outcome): (r: Outcome)
    ensures r.entries == o.entries && r.reply == o.reply && r.calls == [GetCall(key)] + o.calls
  {
    Outcome(o.entries, o.reply, [GetCall(key)] + o.calls)
  }

  /** `mergeData`, the same in the service and in the set handler: decode the stored value, cast both nodes to objects,
      merge the input's fields over the stored ones and encode the result. */
  function MergeData(input: JsonNode, existing: CachedDataValue, codec: JsonCodec)
    : (r: Result<Eithers.Either<RequestDataValue, CacheError>>)
    ensures codec.decode(existing) == Raised(JsonDecodingFailed) ==>
              r == Normal(Eithers.Failed(Some(CacheError(WRONG_DATA_TYPE, DECODE_FAILED_MESSAGE))))
    ensures codec.decode(existing).Raised? && codec.decode(existing).ex != JsonDecodingFailed ==>
              r == Raised(codec.decode(existing).ex)
    ensures codec.decode(existing).Normal? &&
            !(codec.decode(existing).value.ObjectNode? && input.ObjectNode?) ==>
              r == Raised(ClassCastException)
    ensures codec.decode(existing).Normal? &&
            codec.decode(existing).value.ObjectNode? && input.ObjectNode? ==>
              r == EncodeJsonNode(ObjectNode(codec.decode(existing).value.fields + input.fields), codec)
  {
    match DecodeDataValue(existing, codec)
    case Raised(e) => Raised(e)
    case Normal(decoding) =>
      if !decoding.IsSuccess() then Normal(Eithers.Failed(decoding.errorResponse))
      else
        match AsObjectNode(decoding.successResponse.value)
        case Raised(e) => Raised(e)
        case Normal(main) =>
          match AsObjectNode(input)
          case Raised(e) => Raised(e)
          case Normal(update) => EncodeJsonNode(ObjectNode(ShallowMerge(Some(main), Some(update)).value), codec)
  }

  /** A request filter; only the version filter matters here. */
  datatype Filter = VersionFilter(version: Option<Int64>) | OtherFilter

  /** The filter stream of the handlers: keep the version filters, map each
      to its version, take the first. `findFirst` throws on a null first
      element, so a first version filter without a version throws. */
  function FirstVersion(filters: seq<Filter>): (r: Result<Option<Int64>>)
    ensures r == Normal(None) <==> forall i :: 0 <= i < |filters| ==> !filters[i].VersionFilter?
    ensures r.Raised? ==> r.ex == NullPointerException
  {
    if filters == [] then Normal(None)
    else if filters[0].VersionFilter? then
      if filters[0].version.None? then Raised(NullPointerException) else Normal(filters[0].version)
    else
      var rest := FirstVersion(filters[1..]);
      assert forall i :: 1 <= i < |filters| ==> filters[i] == filters[1..][i - 1];
      rest
  }

  /** The first version filter in the list decides: its version, or a
      NullPointerException when it has none. */
  lemma {:induction false} FirstVersionIsFirst(filters: seq<Filter>, i: nat)
    requires i < |filters| && filters[i].VersionFilter?
    requires forall j :: 0 <= j < i ==> !filters[j].VersionFilter?
    ensures FirstVersion(filters)
            == if filters[i].version.Some? then Normal(filters[i].version) else Raised(NullPointerException)
  {
    if i > 0 {
      FirstVersionIsFirst(filters[1..], i - 1);
    }
  }
}
