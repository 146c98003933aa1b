/** The parts of the Java platform the store relies on: null as Option,
    fixed-width integers, the exceptions the code throws or catches, runtime
    classes, and the outcome of a call that may throw or complete a future. */
module Java {

  /** A Java reference that may be null. */
  datatype Option<+T> = None | Some(value: T)

  const INT32_MIN: int := -0x8000_0000
  const INT32_MAX: int := 0x7fff_ffff
  const INT64_MIN: int := -0x8000_0000_0000_0000
  const INT64_MAX: int := 0x7fff_ffff_ffff_ffff

  /** Java `int`. */
  type Int32 = x: int | INT32_MIN <= x <= INT32_MAX

  /** Java `long`. */
  type Int64 = x: int | INT64_MIN <= x <= INT64_MAX

  /** `v + 1` on a Java `long`: two's-complement wrap-around at Long.MAX_VALUE. */
  function LongInc(v: Int64): (r: Int64)
    ensures v < INT64_MAX ==> r == v + 1
    ensures v == INT64_MAX ==> r == INT64_MIN
  {
    if v == INT64_MAX then INT64_MIN else v + 1
  }

  /** The values `Long.valueOf`, and so autoboxing, hands out from its cache:
      boxing one of them always yields the same `Long` object. */
  const LONG_CACHE_LOW: int := -128
  const LONG_CACHE_HIGH: int := 127

  /** `a == b` on two `Long` references that were boxed separately: two
      nulls, or one cached object for an equal value in the cache range.
      Outside that range every boxing makes a new object. */
  predicate SameLongObject(a: Option<Int64>, b: Option<Int64>)
  {
    a == b && (a.None? || LONG_CACHE_LOW <= a.value <= LONG_CACHE_HIGH)
  }

  /** `h & 0x7fffffff` on a Java `int`: clearing the sign bit adds 2^31 to a
      negative value and leaves a non-negative one alone. */
  function MaskSign(h: Int32): (m: nat)
    ensures m <= INT32_MAX
    ensures h >= 0 ==> m == h
    ensures h < 0 ==> m == h + 0x8000_0000
  {
    if h < 0 then h + 0x8000_0000 else h
  }

  /** `(h & 0x7fffffff) % n`: the bucket a hash code selects among `n`. */
  function BucketIndex(h: Int32, n: nat): (i: nat)
    requires n > 0
    ensures i < n
  {
    MaskSign(h) % n
  }

  /** The exceptions that the modelled code throws, catches or lets through. */
  datatype Exception =
    | ConcurrentUpdateException
    | JsonDecodingFailed
    | JsonEncodingFailed
    | JsonSerializationFailed
    | ClassCastException
    | NullPointerException
    | IllegalArgumentException
    | BufferUnderflowException
    | HandlerNotFoundException
    | DuplicateHandlerRegistration
    | DuplicateRouteDefinition
    | CompletionException(cause: Exception)
    | RuntimeException(message: string)

  /** What a stage of a CompletableFuture pipeline hands to `exceptionally`:
      an exception raised in a dependent stage arrives wrapped in a
      CompletionException, which is never wrapped twice. */
  function Wrap(e: Exception): (w: Exception)
    ensures w.CompletionException?
    ensures e.CompletionException? ==> w == e
    ensures !e.CompletionException? ==> w.cause == e
  {
    if e.CompletionException? then e else CompletionException(e)
  }

  /** The runtime classes that appear as values or as registry keys. */
  datatype JavaClass = StringClass | LongClass | ObjectNodeClass | OtherClass(name: string)

  /** A non-null object, of which the model only needs `getClass()`. */
  datatype Instance = Instance(klass: JavaClass)

  /** A call that either returns a value or throws. */
  datatype Result<+T> = Normal(value: T) | Raised(ex: Exception)

  /** A `void` call that either returns or throws. */
  datatype Status = Done | Threw(ex: Exception)

  /** The outcome of a method that returns a CompletableFuture: the future
      completes normally or exceptionally, or the method throws before
      returning a future at all. */
  datatype Reply<+T> =
    | Completed(value: T)
    | CompletedExceptionally(ex: Exception)
    | ThrewSynchronously(ex: Exception)
}
