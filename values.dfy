/** The value records: what a request carries (RequestDataValue), what a
    partition stores (CachedDataValue) and the older stored record that the
    codecs still produce (DataValue). */
module Values {
  import opened Java

  /** One byte of a Java `byte[]`, seen as its unsigned bit pattern. */
  type Byte = x: int | 0 <= x < 256

  /** The UTF-8 bytes of one Unicode scalar value. */
  function Utf8Char(c: char): (r: seq<Byte>)
    ensures 1 <= |r| <= 4
    ensures |r| == 1 <==> (c as int) < 0x80
    ensures |r| == 1 ==> r[0] == c as int
  {
    var cp := c as int;
    if cp < 0x80 then [cp]
    else if cp < 0x800 then [0xC0 + cp / 64, 0x80 + cp % 64]
    else if cp < 0x10000 then [0xE0 + cp / 4096, 0x80 + (cp / 64) % 64, 0x80 + cp % 64]
    else [0xF0 + cp / 262144, 0x80 + (cp / 4096) % 64, 0x80 + (cp / 64) % 64, 0x80 + cp % 64]
  }

  /** `String.getBytes(StandardCharsets.UTF_8)`: one to four bytes per
      character, and one byte per character, the character's own code,
      exactly when the string is ASCII. */
  function Utf8(s: string): (r: seq<Byte>)
    ensures |s| <= |r| <= 4 * |s|
    ensures |r| == |s| <==> forall i :: 0 <= i < |s| ==> (s[i] as int) < 0x80
    ensures |r| == |s| ==> forall i :: 0 <= i < |s| ==> r[i] == s[i] as int
  {
    if s == [] then [] else Utf8Char(s[0]) + Utf8(s[1..])
  }

  /** The bytes and class of a value sent to the store. */
  datatype RequestDataValue = RequestDataValue(data: seq<Byte>, dataType: JavaClass)

  /** A stored entry: bytes, class, last access time and a nullable version. */
  datatype CachedDataValue = CachedDataValue(
    data: seq<Byte>,
    dataType: JavaClass,
    lastAccessTimeMs: Int64,
    version: Option<Int64>)

  function CachedFromString(str: string, timeMs: Int64): (v: CachedDataValue)
    ensures v.data == Utf8(str) && v.dataType == StringClass
    ensures v.lastAccessTimeMs == timeMs && v.version == None
  {
    CachedDataValue(Utf8(str), StringClass, timeMs, None)
  }

  /** The entry a first write creates: the request's bytes and class, version 0. */
  function CreateNewFrom(value: RequestDataValue, timeMs: Int64): (v: CachedDataValue)
    ensures v.data == value.data && v.dataType == value.dataType
    ensures v.lastAccessTimeMs == timeMs && v.version == Some(0)
  {
    CachedDataValue(value.data, value.dataType, timeMs, Some(0))
  }

  /** The entry a later write creates: exactly the version the caller supplies. */
  function CreateUpdatedFrom(value: RequestDataValue, timeMs: Int64, version: Int64): (v: CachedDataValue)
    ensures v.data == value.data && v.dataType == value.dataType
    ensures v.lastAccessTimeMs == timeMs && v.version == Some(version)
  {
    CachedDataValue(value.data, value.dataType, timeMs, Some(version))
  }

  /** The older stored record; its factories read the system clock, here `now`. */
  datatype DataValue = DataValue(
    data: seq<Byte>,
    dataType: JavaClass,
    lastAccessTimeMs: Int64,
    version: Option<Int64>)

  function DataValueFromString(str: string, now: Int64): (v: DataValue)
    ensures v.data == Utf8(str) && v.dataType == StringClass
    ensures v.lastAccessTimeMs == now && v.version == None
  {
    DataValue(Utf8(str), StringClass, now, None)
  }

  function DataValueCreateNewFrom(value: DataValue, now: Int64): (v: DataValue)
    ensures v.data == value.data && v.dataType == value.dataType
    ensures v.lastAccessTimeMs == now && v.version == Some(0)
  {
    DataValue(value.data, value.dataType, now, Some(0))
  }

  /** `value.version() + 1` unboxes the version: a null version throws. */
  function DataValueCreateUpdatedFrom(value: DataValue, now: Int64): (r: Result<DataValue>)
    ensures value.version.None? <==> r == Raised(NullPointerException)
    ensures value.version.Some? ==>
              && r.Normal?
              && r.value.data == value.data && r.value.dataType == value.dataType
              && r.value.lastAccessTimeMs == now
              && r.value.version == Some(LongInc(value.version.value))
  {
    if value.version.None? then Raised(NullPointerException)
    else Normal(DataValue(value.data, value.dataType, now, Some(LongInc(value.version.value))))
  }

  /** A value created once and then updated `n` times, or the first failure. */
  function UpdatedTimes(value: DataValue, n: nat, now: Int64): Result<DataValue>
  {
    if n == 0 then Normal(DataValueCreateNewFrom(value, now))
    else
      match UpdatedTimes(value, n - 1, now)
      case Raised(e) => Raised(e)
      case Normal(v) => DataValueCreateUpdatedFrom(v, now)
  }

  /** Versions count writes: after a create and `n` updates the version is `n`,
      and the bytes and class are still those of the first value. */
  lemma {:induction false} UpdatedTimesVersion(value: DataValue, n: nat, now: Int64)
    requires n <= INT64_MAX
    ensures UpdatedTimes(value, n, now).Normal?
    ensures UpdatedTimes(value, n, now).value.version == Some(n)
    ensures UpdatedTimes(value, n, now).value.data == value.data
    ensures UpdatedTimes(value, n, now).value.dataType == value.dataType
  {
    if n > 0 {
      UpdatedTimesVersion(value, n - 1, now);
    }
  }
}
