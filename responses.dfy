/** The response records of the web layer (InFlightKv/pojos/CacheResponse.java,
    com/bcorp/InFlightKv/pojos/CacheErrorCode.java). */
module Pojos {
  import opened Java

  datatype CacheErrorCode = NOT_FOUND | CONFLICT | INTERNAL_ERROR | ENCODING_FAILURE | WRONG_DATA_TYPE

  datatype CacheError = CacheError(errorCode: CacheErrorCode, errorMessage: string)

  /** A record of three nullable components. */
  datatype CacheResponse<T> = CacheResponse(data: Option<T>, version: Option<Int64>, error: Option<CacheError>)

  const KEY_NOT_FOUND := "Key not found"

  function Success<T>(data: T, version: Int64): (r: CacheResponse<T>)
    ensures r.data == Some(data) && r.version == Some(version) && r.error.None?
  {
    CacheResponse(Some(data), Some(version), None)
  }

  /** `failure(CacheError)`: no data, no version, and the error as given,
      which may be null. */
  function Failure<T>(error: Option<CacheError>): (r: CacheResponse<T>)
    ensures r.data.None? && r.version.None? && r.error == error
  {
    CacheResponse(None, None, error)
  }

  /** `failure(CacheErrorCode, String)`. */
  function FailureOf<T>(code: CacheErrorCode, message: string): (r: CacheResponse<T>)
    ensures r.data.None? && r.version.None?
    ensures r.error.Some? && r.error.value.errorCode == code && r.error.value.errorMessage == message
  {
    Failure(Some(CacheError(code, message)))
  }

  function NotFound<T>(): (r: CacheResponse<T>)
    ensures r.data.None? && r.version.None?
    ensures r.error == Some(CacheError(NOT_FOUND, KEY_NOT_FOUND))
  {
    FailureOf(NOT_FOUND, KEY_NOT_FOUND)
  }

  /** The two failure constructors agree. */
  lemma FailureOverloadsAgree<T>(code: CacheErrorCode, message: string)
    ensures FailureOf<T>(code, message) == Failure<T>(Some(CacheError(code, message)))
  {
  }

  /** A success and a failure are never the same response. */
  lemma SuccessIsNotFailure<T>(data: T, version: Int64, error: Option<CacheError>)
    ensures Success(data, version) != Failure<T>(error)
  {
  }
}

/** The two-slot result holder (com/bcorp/InFlightKv/utils/Either.java). */
module Eithers {
  import opened Java

  datatype Either<T, R> = Either(successResponse: Option<T>, errorResponse: Option<R>)
  {
    /** Success means a non-null success payload, nothing else. */
    predicate IsSuccess()
    {
      successResponse.Some?
    }
  }

  function Success<T, R>(response: Option<T>): (e: Either<T, R>)
    ensures e.successResponse == response && e.errorResponse.None?
  {
    Either(response, None)
  }

  function Failed<T, R>(response: Option<R>): (e: Either<T, R>)
    ensures e.successResponse.None? && e.errorResponse == response
  {
    Either(None, response)
  }

  /** `success(x)` reports success exactly when `x` is not null: so
      `success(null)` reports failure, with no error to show for it. */
  lemma SuccessIsSuccessIff<T, R>(response: Option<T>)
    ensures Success<T, R>(response).IsSuccess() <==> response.Some?
    ensures !Success<T, R>(None).IsSuccess() && Success<T, R>(None).errorResponse.None?
  {
  }

  /** A failed holder never reports success. */
  lemma FailedIsNeverSuccess<T, R>(response: Option<R>)
    ensures !Failed<T, R>(response).IsSuccess()
  {
  }
}
