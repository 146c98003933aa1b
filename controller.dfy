/** The REST controller of the key-value API
    (com/bcorp/InFlightKv/controller/JsonKeyValueStoreController.java): each
    endpoint calls the service and converts its response to a status and
    a body. */
module Controller {
  import opened Java
  import opened DataKeys
  import opened Partition
  import opened JsonNodes
  import opened Pojos
  import opened CacheHandlerUtils
  import opened Flows
  import opened StoreService

  const HTTP_OK := 200
  const HTTP_NOT_FOUND := 404
  const HTTP_CONFLICT := 409
  const HTTP_INTERNAL_SERVER_ERROR := 500

  /** A status and an optional body; the error statuses are built without one. */
  datatype ResponseEntity = ResponseEntity(status: int, body: Option<CacheResponse<string>>)

  /** What an endpoint leaves behind: the store's contents, the outcome of
      its future and the store calls made. */
  datatype EndpointOutcome = EndpointOutcome(entries: Entries, reply: Reply<ResponseEntity>, calls: seq<StoreCall>)

  /** `handleError`: the switch on the error code dereferences the error. */
  function HandleError(error: Option<CacheError>): (r: Result<ResponseEntity>)
    ensures error.None? <==> r == Raised(NullPointerException)
    ensures r.Normal? ==> r.value.body.None?
    ensures error.Some? && error.value.errorCode == NOT_FOUND ==>
              r == Normal(ResponseEntity(HTTP_NOT_FOUND, None))
    ensures error.Some? && error.value.errorCode == CONFLICT ==>
              r == Normal(ResponseEntity(HTTP_CONFLICT, None))
    ensures error.Some? && error.value.errorCode !in {NOT_FOUND, CONFLICT} ==>
              r == Normal(ResponseEntity(HTTP_INTERNAL_SERVER_ERROR, None))
  {
    if error.None? then Raised(NullPointerException)
    else
      match error.value.errorCode
      case NOT_FOUND => Normal(ResponseEntity(HTTP_NOT_FOUND, None))
      case CONFLICT => Normal(ResponseEntity(HTTP_CONFLICT, None))
      case _ => Normal(ResponseEntity(HTTP_INTERNAL_SERVER_ERROR, None))
  }

  /** `convertToControllerResponse`: data means 200 with the response as
      body, otherwise the error decides. */
  function ConvertToControllerResponse(response: CacheResponse<string>): (r: Result<ResponseEntity>)
    ensures response.data.Some? ==> r == Normal(ResponseEntity(HTTP_OK, Some(response)))
    ensures response.data.None? ==> r == HandleError(response.error)
  {
    if response.data.Some? then Normal(ResponseEntity(HTTP_OK, Some(response)))
    else HandleError(response.error)
  }

  /** `.thenApply(this::convertToControllerResponse)` on the service's future. */
  function ThenConvert(reply: Reply<CacheResponse<string>>): (r: Reply<ResponseEntity>)
    ensures reply.ThrewSynchronously? <==> r.ThrewSynchronously?
    ensures reply.Completed? && ConvertToControllerResponse(reply.value).Normal? ==>
              r == Completed(ConvertToControllerResponse(reply.value).value)
    ensures reply.Completed? && ConvertToControllerResponse(reply.value).Raised? ==>
              r == CompletedExceptionally(Wrap(ConvertToControllerResponse(reply.value).ex))
    ensures reply.CompletedExceptionally? ==> r == CompletedExceptionally(Wrap(reply.ex))
    ensures reply.ThrewSynchronously? ==> r == ThrewSynchronously(reply.ex)
  {
    match reply
    case Completed(response) =>
      (match ConvertToControllerResponse(response)
       case Normal(entity) => Completed(entity)
       case Raised(e) => CompletedExceptionally(Wrap(e)))
    case CompletedExceptionally(e) => CompletedExceptionally(Wrap(e))
    case ThrewSynchronously(e) => ThrewSynchronously(e)
  }

  function Endpoint(o: Outcome): EndpointOutcome
  {
    EndpointOutcome(o.entries, ThenConvert(o.reply), o.calls)
  }

  function GetEndpoint(entries: Entries, codec: JsonCodec, key: string, now: Int64): EndpointOutcome
  {
    Endpoint(GetFlow(entries, codec, key, now))
  }

  /** PUT replaces: the service's `set` without merging. */
  function PutEndpoint(entries: Entries, codec: JsonCodec, key: string, body: string,
                       ifVersion: Option<Int64>, now: Int64): EndpointOutcome
    requires VersionsPresent(entries)
  {
    Endpoint(SetFlow(entries, codec, key, body, ifVersion, false, now))
  }

  /** PATCH merges: the service's `set` with merging. */
  function PatchEndpoint(entries: Entries, codec: JsonCodec, key: string, body: string,
                         ifVersion: Option<Int64>, now: Int64): EndpointOutcome
    requires VersionsPresent(entries)
  {
    Endpoint(SetFlow(entries, codec, key, body, ifVersion, true, now))
  }

  function DeleteEndpoint(entries: Entries, codec: JsonCodec, key: string): EndpointOutcome
  {
    Endpoint(RemoveFlow(entries, codec, key))
  }

  /** The status mapping in full: 200 exactly for a response with data, and
      for the others 404, 409 or 500 by error code; a response with neither
      data nor error has no mapping. */
  lemma StatusMapping(response: CacheResponse<string>)
    ensures var r := ConvertToControllerResponse(response);
            && (r.Normal? && r.value.status == HTTP_OK <==> response.data.Some?)
            && (r.Raised? <==> response.data.None? && response.error.None?)
            && (r.Normal? && r.value.status == HTTP_NOT_FOUND <==>
                  response.data.None? && response.error.Some? && response.error.value.errorCode == NOT_FOUND)
            && (r.Normal? && r.value.status == HTTP_CONFLICT <==>
                  response.data.None? && response.error.Some? && response.error.value.errorCode == CONFLICT)
            && (r.Normal? && r.value.status != HTTP_OK ==> r.value.body.None?)
  {
  }

  /** A GET always completes with a status: 200 with the body exactly when
      the entry exists with a version and decodes and serializes, and
      otherwise an error status without a body, 404 for a missing key. */
  lemma GetEndpointAnswers(entries: Entries, codec: JsonCodec, key: string, now: Int64)
    ensures var o := GetEndpoint(entries, codec, key, now);
            var read := GetStep(entries, DataKey(key), now).result;
            && o.reply.Completed?
            && o.entries == GetStep(entries, DataKey(key), now).entries
            && (o.reply.value.status == HTTP_OK <==>
                  && read.Some? && read.value.version.Some?
                  && codec.decode(read.value).Normal?
                  && codec.toString(codec.decode(read.value).value).Normal?)
            && (o.reply.value.status != HTTP_OK ==> o.reply.value.body.None?)
            && (DataKey(key) !in entries ==> o.reply.value.status == HTTP_NOT_FOUND)
  {
    GetAnswers(entries, codec, key, now);
  }

  /** A DELETE always removes the key and completes with a status: 200
      exactly when the removed entry had a version and decodes and
      serializes, 404 when there was none. */
  lemma DeleteEndpointAnswers(entries: Entries, codec: JsonCodec, key: string)
    ensures var o := DeleteEndpoint(entries, codec, key);
            && o.reply.Completed?
            && o.entries == entries - {DataKey(key)}
            && (o.reply.value.status == HTTP_OK <==>
                  && DataKey(key) in entries
                  && var removed := entries[DataKey(key)];
                  && removed.version.Some?
                  && codec.decode(removed).Normal?
                  && codec.toString(codec.decode(removed).value).Normal?)
            && (o.reply.value.status != HTTP_OK ==> o.reply.value.body.None?)
            && (DataKey(key) !in entries ==> o.reply.value.status == HTTP_NOT_FOUND)
  {
    RemoveAnswers(entries, codec, key);
  }

  /** A PUT whose `ifVersion` does not match is a 409 and writes nothing. */
  lemma PutStaleVersionIsConflict(entries: Entries, codec: JsonCodec, key: string, body: string,
                                  ifVersion: Int64, now: Int64)
    requires VersionsPresent(entries)
    requires codec.fromString(body).Normal?
    requires DataKey(key) !in entries || entries[DataKey(key)].version != Some(ifVersion)
    ensures var o := PutEndpoint(entries, codec, key, body, Some(ifVersion), now);
            && o.reply == Completed(ResponseEntity(HTTP_CONFLICT, None))
            && o.calls == [GetCall(DataKey(key))]
  {
    SetVersionConflict(entries, codec, key, body, ifVersion, false, now);
  }

  /** A PATCH without `ifVersion` on a JSON body writes nothing, and its
      response, with neither data nor error, makes the conversion throw:
      the future fails with a NullPointerException. */
  lemma PatchWithoutVersionFails(entries: Entries, codec: JsonCodec, key: string, body: string, now: Int64)
    requires VersionsPresent(entries)
    requires codec.fromString(body).Normal?
    ensures var o := PatchEndpoint(entries, codec, key, body, None, now);
            && o.reply == CompletedExceptionally(CompletionException(NullPointerException))
            && o.calls == [GetCall(DataKey(key))]
  {
    MergeWithoutVersionWritesNothing(entries, codec, key, body, now);
  }
}
