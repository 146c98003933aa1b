/** The 8-byte little-endian codec for Java `long` values (codec/LongCodec.java). */
module LongCodec {
  import opened Java
  import opened Values

  /** `Long.BYTES`. */
  const LONG_BYTES: nat := 8

  const TWO_64: nat := 0x1_0000_0000_0000_0000

  function Pow256(i: nat): (p: nat)
    ensures p > 0
  {
    if i == 0 then 1 else 256 * Pow256(i - 1)
  }

  lemma Pow256Of8()
    ensures Pow256(LONG_BYTES) == TWO_64
  {
    assert Pow256(2) == 0x1_0000;
    assert Pow256(4) == 0x1_0000_0000 by {
      assert Pow256(3) == 0x100_0000;
    }
    assert Pow256(6) == 0x1_0000_0000_0000 by {
      assert Pow256(5) == 0x100_0000_0000;
    }
    assert Pow256(7) == 0x100_0000_0000_0000;
  }

  /** The two's-complement bit pattern of a `long`, read as an unsigned number. */
  function Unsigned64(x: Int64): (u: nat)
    ensures u < TWO_64
    ensures x >= 0 ==> u == x
    ensures x < 0 ==> u == x + TWO_64
  {
    if x < 0 then x + TWO_64 else x
  }

  /** The `long` whose two's-complement bit pattern is `u`. */
  function Signed64(u: nat): (x: Int64)
    requires u < TWO_64
    ensures Unsigned64(x) == u
  {
    if u <= INT64_MAX then u else u - TWO_64
  }

  /** The lowest `n` bytes of `u`, least significant first. */
  function ToLittleEndian(u: nat, n: nat): (s: seq<Byte>)
    ensures |s| == n
  {
    if n == 0 then [] else [u % 256] + ToLittleEndian(u / 256, n - 1)
  }

  /** The number whose little-endian bytes are `s`. */
  function FromLittleEndian(s: seq<Byte>): nat
  {
    if s == [] then 0 else s[0] + 256 * FromLittleEndian(s[1..])
  }

  /** `u >>> (8 * i)`: the number without its lowest `i` bytes. */
  function ShiftRightBytes(u: nat, i: nat): nat
  {
    if i == 0 then u else ShiftRightBytes(u / 256, i - 1)
  }

  /** Byte `i` of the encoding holds bits 8i..8i+7 of the number. */
  lemma {:induction false} ToLittleEndianAt(u: nat, n: nat, i: nat)
    requires i < n
    ensures ToLittleEndian(u, n)[i] == ShiftRightBytes(u, i) % 256
  {
    if i > 0 {
      ToLittleEndianAt(u / 256, n - 1, i - 1);
    }
  }

  lemma {:induction false} FromToLittleEndian(u: nat, n: nat)
    requires u < Pow256(n)
    ensures FromLittleEndian(ToLittleEndian(u, n)) == u
  {
    if n > 0 {
      var s := ToLittleEndian(u, n);
      assert s[1..] == ToLittleEndian(u / 256, n - 1);
      FromToLittleEndian(u / 256, n - 1);
    }
  }

  lemma {:induction false} ToFromLittleEndian(s: seq<Byte>)
    ensures FromLittleEndian(s) < Pow256(|s|)
    ensures ToLittleEndian(FromLittleEndian(s), |s|) == s
  {
    if s != [] {
      ToFromLittleEndian(s[1..]);
      var u := FromLittleEndian(s);
      assert u % 256 == s[0] && u / 256 == FromLittleEndian(s[1..]);
      assert s == [s[0]] + s[1..];
    }
  }

  /** The response of `decode`: the decoded number and the entry's version. */
  datatype LongResponse = LongResponse(data: Int64, version: Int64)

  /** The 8 bytes `putLong` writes into a little-endian buffer. */
  function LongBytes(x: Int64): (bytes: seq<Byte>)
    ensures |bytes| == LONG_BYTES
    ensures forall i :: 0 <= i < LONG_BYTES ==> bytes[i] == ShiftRightBytes(Unsigned64(x), i) % 256
  {
    var bytes := ToLittleEndian(Unsigned64(x), LONG_BYTES);
    assert forall i :: 0 <= i < LONG_BYTES ==> bytes[i] == ShiftRightBytes(Unsigned64(x), i) % 256 by {
      forall i | 0 <= i < LONG_BYTES {
        ToLittleEndianAt(Unsigned64(x), LONG_BYTES, i);
      }
    }
    bytes
  }

  /** `encode(Long data)`: `putLong` unboxes its argument, so a null one
      throws; otherwise 8 little-endian bytes, class Long, version 0. */
  function Encode(data: Option<Int64>, now: Int64): (r: Result<DataValue>)
    ensures data.None? <==> r == Raised(NullPointerException)
    ensures data.Some? ==> r.Normal?
    ensures r.Normal? ==> |r.value.data| == LONG_BYTES
    ensures r.Normal? ==> forall i :: 0 <= i < LONG_BYTES ==>
              r.value.data[i] == ShiftRightBytes(Unsigned64(data.value), i) % 256
    ensures r.Normal? ==> r.value.dataType == LongClass && r.value.version == Some(0) && r.value.lastAccessTimeMs == now
  {
    if data.None? then Raised(NullPointerException)
    else Normal(DataValue(LongBytes(data.value), LongClass, now, Some(0)))
  }

  /** `decode`: `getLong` reads the first 8 bytes and fails on fewer; the
      version is unboxed afterwards and fails when null. */
  function Decode(v: DataValue): (r: Result<LongResponse>)
    ensures |v.data| < LONG_BYTES <==> r == Raised(BufferUnderflowException)
    ensures |v.data| >= LONG_BYTES && v.version.None? ==> r == Raised(NullPointerException)
    ensures r.Normal? ==> r.value.version == v.version.value
  {
    if |v.data| < LONG_BYTES then Raised(BufferUnderflowException)
    else if v.version.None? then Raised(NullPointerException)
    else
      var prefix := v.data[..LONG_BYTES];
      ToFromLittleEndian(prefix);
      Pow256Of8();
      Normal(LongResponse(Signed64(FromLittleEndian(prefix)), v.version.value))
  }

  /** Decoding an encoded value gives back the number, with version 0. */
  lemma RoundTrip(x: Int64, now: Int64)
    ensures Encode(Some(x), now).Normal?
    ensures Decode(Encode(Some(x), now).value) == Normal(LongResponse(x, 0))
  {
    var v := Encode(Some(x), now).value;
    Pow256Of8();
    FromToLittleEndian(Unsigned64(x), LONG_BYTES);
    assert v.data[..LONG_BYTES] == v.data;
  }

  /** Every 8-byte value is the encoding of the number it decodes to. */
  lemma EncodeDecoded(v: DataValue, now: Int64)
    requires |v.data| == LONG_BYTES && v.version.Some?
    ensures Decode(v).Normal?
    ensures Encode(Some(Decode(v).value.data), now).Normal?
    ensures Encode(Some(Decode(v).value.data), now).value.data == v.data
  {
    assert v.data[..LONG_BYTES] == v.data;
    ToFromLittleEndian(v.data);
    Pow256Of8();
  }
}
