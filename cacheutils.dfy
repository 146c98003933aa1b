/** Exception-to-response mapping (com/bcorp/InFlightKv/utils/CacheExceptionUtils.java). */
module CacheExceptionUtils {
  import opened Java
  import opened Pojos

  const CONCURRENT_UPDATE_MESSAGE := "Value got updated concurrently by a different request. Try again"
  const GENERIC_ERROR_MESSAGE := "Something failed during processing of the request. Try again"

  /** A CompletionException is unwrapped once, and only once. */
  function Cause(e: Exception): (c: Exception)
    ensures e.CompletionException? ==> c == e.cause
    ensures !e.CompletionException? ==> c == e
  {
    if e.CompletionException? then e.cause else e
  }

  function HandleConflict(): (r: CacheResponse<string>)
    ensures r.data.None? && r.version.None?
    ensures r.error == Some(CacheError(CONFLICT, CONCURRENT_UPDATE_MESSAGE))
  {
    FailureOf(CONFLICT, CONCURRENT_UPDATE_MESSAGE)
  }

  function HandleGenericError(): (r: CacheResponse<string>)
    ensures r.data.None? && r.version.None?
    ensures r.error == Some(CacheError(INTERNAL_ERROR, GENERIC_ERROR_MESSAGE))
  {
    FailureOf(INTERNAL_ERROR, GENERIC_ERROR_MESSAGE)
  }

  /** A concurrent update, bare or wrapped once, is a CONFLICT; anything
      else is an INTERNAL_ERROR. Neither carries data or a version. */
  function HandleCacheExceptions(e: Exception): (r: CacheResponse<string>)
    ensures r.data.None? && r.version.None? && r.error.Some?
    ensures r.error.value.errorCode == CONFLICT <==>
              e == ConcurrentUpdateException || e == CompletionException(ConcurrentUpdateException)
    ensures r.error.value.errorCode == CONFLICT ==> r.error.value.errorMessage == CONCURRENT_UPDATE_MESSAGE
    ensures r.error.value.errorCode != CONFLICT ==> r == FailureOf(INTERNAL_ERROR, GENERIC_ERROR_MESSAGE)
  {
    var cause := Cause(e);
    if cause == ConcurrentUpdateException then HandleConflict() else HandleGenericError()
  }

  /** Only one level is unwrapped: a doubly wrapped conflict is an internal error. */
  lemma UnwrapsOnlyOnce()
    ensures HandleCacheExceptions(CompletionException(CompletionException(ConcurrentUpdateException)))
            == FailureOf(INTERNAL_ERROR, GENERIC_ERROR_MESSAGE)
  {
  }

  /** The wrapping a CompletableFuture stage adds does not change the mapping. */
  lemma WrapIsTransparent(e: Exception)
    ensures HandleCacheExceptions(Wrap(e)) == HandleCacheExceptions(e)
  {
  }

  /** `.exceptionally(CacheExceptionUtils::handleCacheExceptions)`: a future
      that completed exceptionally completes with the mapped response. A
      method that threw before returning its future is not helped by it. */
  function Exceptionally(r: Reply<CacheResponse<string>>): (e: Reply<CacheResponse<string>>)
    ensures r.CompletedExceptionally? ==> e == Completed(HandleCacheExceptions(r.ex))
    ensures !r.CompletedExceptionally? ==> e == r
  {
    match r
    case CompletedExceptionally(e) => Completed(HandleCacheExceptions(e))
    case _ => r
  }
}

/** The try/catch-to-response helpers (InFlightKv/utils/CacheHandlerUtils.java).
    They are declared there over DataValue; the store hands out
    CachedDataValue, whose components are the same, and the codec decodes
    CachedDataValue, so the model takes CachedDataValue. */
module CacheHandlerUtils {
  import opened Java
  import opened Values
  import opened JsonNodes
  import opened Pojos
  import Eithers

  const NOT_JSON_MESSAGE := "Value is not a proper json string"
  const DECODE_FAILED_MESSAGE := "Failed to decode data to json"
  const SERIALIZE_FAILED_MESSAGE := "Failed to serialize json data to string"
  const ENCODE_FAILED_MESSAGE := "Failed to encode json data"

  /** `try { return success(call()); } catch (Caught e) { return failed(error); }`:
      the one exception type named is turned into a failed holder, every
      other exception goes through. */
  function Catching<T>(call: Result<T>, caught: Exception, error: CacheError)
    : (r: Result<Eithers.Either<T, CacheError>>)
    ensures call.Normal? ==> r == Normal(Eithers.Success(Some(call.value)))
    ensures call == Raised(caught) ==> r == Normal(Eithers.Failed(Some(error)))
    ensures call.Raised? && call.ex != caught ==> r == Raised(call.ex)
  {
    match call
    case Normal(v) => Normal(Eithers.Success(Some(v)))
    case Raised(e) => if e == caught then Normal(Eithers.Failed(Some(error))) else Raised(e)
  }

  function ParseJsonString(value: string, codec: JsonCodec): (r: Result<Eithers.Either<JsonNode, CacheError>>)
    ensures r.Normal? && r.value.IsSuccess() <==> codec.fromString(value).Normal?
    ensures codec.fromString(value) == Raised(JsonDecodingFailed) ==>
              r == Normal(Eithers.Failed(Some(CacheError(WRONG_DATA_TYPE, NOT_JSON_MESSAGE))))
  {
    Catching(codec.fromString(value), JsonDecodingFailed, CacheError(WRONG_DATA_TYPE, NOT_JSON_MESSAGE))
  }

  function DecodeSetResponse(value: CachedDataValue, codec: JsonCodec): (r: Result<Eithers.Either<JsonNode, CacheError>>)
    ensures r.Normal? && r.value.IsSuccess() <==> codec.decode(value).Normal?
    ensures codec.decode(value) == Raised(JsonDecodingFailed) ==>
              r == Normal(Eithers.Failed(Some(CacheError(WRONG_DATA_TYPE, DECODE_FAILED_MESSAGE))))
  {
    Catching(codec.decode(value), JsonDecodingFailed, CacheError(WRONG_DATA_TYPE, DECODE_FAILED_MESSAGE))
  }

  /** `decodeDataValue` of the service's helper class: the same catch and
      the same message as `decodeSetResponse`. */
  function DecodeDataValue(value: CachedDataValue, codec: JsonCodec): (r: Result<Eithers.Either<JsonNode, CacheError>>)
    ensures r.Normal? && r.value.IsSuccess() <==> codec.decode(value).Normal?
    ensures codec.decode(value).Normal? ==> r == Normal(Eithers.Success(Some(codec.decode(value).value)))
    ensures codec.decode(value) == Raised(JsonDecodingFailed) ==>
              r == Normal(Eithers.Failed(Some(CacheError(WRONG_DATA_TYPE, DECODE_FAILED_MESSAGE))))
    ensures codec.decode(value).Raised? && codec.decode(value).ex != JsonDecodingFailed ==>
              r == Raised(codec.decode(value).ex)
  {
    Catching(codec.decode(value), JsonDecodingFailed, CacheError(WRONG_DATA_TYPE, DECODE_FAILED_MESSAGE))
  }

  /** Catches JsonDecodingFailed, although the codec's `toString` throws
      JsonSerializationFailed. */
  function SerializeJsonNode(node: JsonNode, codec: JsonCodec): (r: Result<Eithers.Either<string, CacheError>>)
    ensures r.Normal? && r.value.IsSuccess() <==> codec.toString(node).Normal?
    ensures codec.toString(node) == Raised(JsonDecodingFailed) ==>
              r == Normal(Eithers.Failed(Some(CacheError(WRONG_DATA_TYPE, SERIALIZE_FAILED_MESSAGE))))
    ensures codec.toString(node) == Raised(JsonSerializationFailed) ==> r == Raised(JsonSerializationFailed)
  {
    Catching(codec.toString(node), JsonDecodingFailed, CacheError(WRONG_DATA_TYPE, SERIALIZE_FAILED_MESSAGE))
  }

  /** `encodeJsonNode` of the service's helper class: the codec's encoding
      as a success, its JsonEncodingFailed as an ENCODING_FAILURE. */
  function EncodeJsonNode(node: JsonNode, codec: JsonCodec): (r: Result<Eithers.Either<RequestDataValue, CacheError>>)
    ensures r.Normal? && r.value.IsSuccess() <==> codec.encode(node).Normal?
    ensures codec.encode(node).Normal? ==> r.value.successResponse == Some(codec.encode(node).value)
    ensures codec.encode(node) == Raised(JsonEncodingFailed) ==>
              r.Normal? && r.value.errorResponse.Some? && r.value.errorResponse.value.errorCode == ENCODING_FAILURE
  {
    Catching(codec.encode(node), JsonEncodingFailed, CacheError(ENCODING_FAILURE, ENCODE_FAILED_MESSAGE))
  }

  /** A stored value as a response: null is NOT_FOUND without asking the
      codec; otherwise decode, then serialize, and answer with the string
      and the stored version. A caught failure becomes a failure response;
      any other exception escapes, and so does the unboxing of a null
      version in `success(data, long)`. */
  function HandleCacheResponse(value: Option<CachedDataValue>, codec: JsonCodec): (r: Result<CacheResponse<string>>)
    ensures value.None? ==> r == Normal(NotFound())
    ensures r.Normal? && r.value.data.Some? <==>
              && value.Some? && value.value.version.Some?
              && codec.decode(value.value).Normal?
              && codec.toString(codec.decode(value.value).value).Normal?
    ensures r.Normal? && r.value.data.Some? ==>
              r.value == Success(codec.toString(codec.decode(value.value).value).value, value.value.version.value)
    ensures r.Normal? && r.value.data.None? ==> r.value.version.None? && r.value.error.Some?
    ensures value.Some? && codec.decode(value.value) == Raised(JsonDecodingFailed) ==>
              r == Normal(FailureOf(WRONG_DATA_TYPE, DECODE_FAILED_MESSAGE))
    ensures value.Some? && codec.decode(value.value).Normal?
            && codec.toString(codec.decode(value.value).value) == Raised(JsonDecodingFailed) ==>
              r == Normal(FailureOf(WRONG_DATA_TYPE, SERIALIZE_FAILED_MESSAGE))
  {
    if value.None? then Normal(NotFound())
    else
      match DecodeSetResponse(value.value, codec)
      case Raised(e) => Raised(e)
      case Normal(decoding) =>
        if !decoding.IsSuccess() then Normal(Failure(decoding.errorResponse))
        else
          match SerializeJsonNode(decoding.successResponse.value, codec)
          case Raised(e) => Raised(e)
          case Normal(serializing) =>
            if !serializing.IsSuccess() then Normal(Failure(serializing.errorResponse))
            else if value.value.version.None? then Raised(NullPointerException)
            else Normal(Success(serializing.successResponse.value, value.value.version.value))
  }

  /** With JsonCodec.java itself, a serialization failure is never caught:
      it escapes `handleCacheResponse` instead of becoming a response. */
  lemma SerializeFailureEscapes(value: CachedDataValue, codec: JsonCodec)
    requires IsJacksonCodec(codec)
    requires codec.decode(value).Normal? && codec.toString(codec.decode(value).value).Raised?
    ensures HandleCacheResponse(Some(value), codec) == Raised(JsonSerializationFailed)
  {
    var node := codec.decode(value).value;
    assert codec.toString(node).ex == JsonSerializationFailed;
  }

  /** With JsonCodec.java itself, every exception escaping
      `handleCacheResponse` is a codec failure or the unboxing of a null
      version, never a concurrent update. */
  lemma EscapingExceptions(value: Option<CachedDataValue>, codec: JsonCodec)
    requires IsJacksonCodec(codec)
    ensures var r := HandleCacheResponse(value, codec);
            r.Raised? ==> r.ex in {JsonSerializationFailed, NullPointerException}
  {
    if value.Some? && codec.decode(value.value).Normal? {
      var node := codec.decode(value.value).value;
      if codec.toString(node).Raised? {
        assert codec.toString(node).ex == JsonSerializationFailed;
      }
    } else if value.Some? {
      assert codec.decode(value.value).ex == JsonDecodingFailed;
    }
  }
}
