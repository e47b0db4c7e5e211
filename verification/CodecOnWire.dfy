/**
 * What the field codecs of src/codec.rs read and write, as place values and powers of two, without either
 * direction standing on the other.
 */
module CodecOnWire {
  import opened Prelude
  import opened Wire
  import opened Codec

  // ---- integers ------------------------------------------------------------------

  /** Big-endian, the first byte's top bit counting negative. */
  lemma PlaceValues(data: seq<byte>, offset: nat)
    ensures offset + 2 <= |data| ==>
              ReadInt16(data, offset) == Ok(256 * data[offset] as int + data[offset + 1] as int
                                            - if data[offset] >= 0x80 then 65536 else 0)
    ensures offset + 3 <= |data| ==>
              ReadInt24(data, offset) == Ok(65536 * data[offset] as int + 256 * data[offset + 1] as int + data[offset + 2] as int
                                            - if data[offset] >= 0x80 then 16777216 else 0)
  {}

  /** The value two bytes write out is the value they are read as. */
  lemma WrittenPlaceValues(v: int)
    requires IsI16(v)
    ensures v == 256 * I16Bytes(v)[0] as int + I16Bytes(v)[1] as int - if I16Bytes(v)[0] >= 0x80 then 65536 else 0
  {}

  // ---- reading FLOAT40 -------------------------------------------------------------

  /** A field whose exponent is 23 is its mantissa. */
  lemma ExponentTwentyThree(field: seq<byte>)
    requires |field| == 5 && field[0] == 0x00 && field[1] == 0x17
    ensures ReadFloat40(field, 0) == Ok(ReadInt24(field, 2).value as real)
  {}

  /** One more in the exponent doubles the value. */
  lemma ExponentDoubles(a: seq<byte>, b: seq<byte>)
    requires |a| == |b| == 5 && a[2..] == b[2..]
    requires ReadInt16(b, 0).value == ReadInt16(a, 0).value + 1
    ensures ReadFloat40(b, 0).value == 2.0 * ReadFloat40(a, 0).value
  {
    assert a[2] == a[2..][0] == b[2] && a[3] == a[2..][1] == b[3] && a[4] == a[2..][2] == b[4];
    var m := ReadInt24(a, 2).value;
    var e := ReadInt16(a, 0).value - 23;
    ScaleDoubles(m as real, e);
  }

  lemma ScaleDoubles(a: real, k: int)
    ensures Scale(a, k + 1) == 2.0 * Scale(a, k)
  {}

  // ---- writing FLOAT40 -------------------------------------------------------------

  /** 2^52, the significand of a power of two. */
  lemma MantIsPower()
    ensures Scale(1.0, 52) == MANT as real && Scale(1.0, 53) == 2.0 * MANT as real
  {
    ScaleScale(1.0, 30, 22);
    ScaleBy(1.0);
    ScaleBy(1073741824.0);
    assert Scale(1.0, 53) == 2.0 * Scale(1.0, 52);
  }

  /** The pattern of 1.0, and that one more in the exponent doubles a normal value: what a pattern denotes. */
  lemma PatternValues(v: f64)
    ensures Value(Binary64(false, 1023, 0)) == 1.0
    ensures Normal(v) && v.exponent + 1 < 0x7FF ==> Value(v.(exponent := v.exponent + 1)) == 2.0 * Value(v)
  {
    MantIsPower();
    ScaleScale(1.0, 52, -52);
    if Normal(v) { ScaleDoubles(Sig(v) as real, Exp(v)); }
  }

  lemma {:induction false} PowersGrow(j: int, k: int)
    requires j <= k
    ensures Scale(1.0, j) <= Scale(1.0, k)
  {
    if j < k { ExponentDominates(1.0, j, 1.0, k, 1.0); }
  }

  /**
   * What is written for a normal value: its sign, the exponent e with 2^(e-1) <= |v| < 2^e, and the 23-bit
   * mantissa next below |v| * 2^(23-e).
   */
  lemma WrittenFloat40(v: f64)
    requires Normal(v)
    ensures var (field, size) := (Float40Bytes(v), Abs(Value(v)));
            var (e, m) := (ReadInt16(field, 0).value, ReadInt24(field, 2).value);
            && (m < 0 <==> Value(v) < 0.0)
            && Scale(1.0, e - 1) <= size < Scale(1.0, e)
            && var q := if m < 0 then -m else m;
               0x40_0000 <= q < 0x80_0000 && Scale(q as real, e - 23) <= size < Scale((q + 1) as real, e - 23)
  {
    hide Scale, I16Bytes, I32Bytes, ReadInt16, ReadInt24;
    WrittenFields(v);
    SignOf(v);
    var k := v.exponent - 1075;
    var (m, lo) := (Sig(v) as real, MANT as real);
    MantIsPower();
    ScaleScale(1.0, 52, k);
    ScaleScale(1.0, 53, k);
    AtMost(lo, m, k);
    ScaleLess(m, 2.0 * lo, k);
    var q := Kept(v);
    ScaleBy(q as real);
    ScaleBy((q + 1) as real);
    ScaleScale(q as real, 30, k);
    ScaleScale((q + 1) as real, 30, k);
    assert 1073741824.0 * q as real == (q * 0x4000_0000) as real;
    assert 1073741824.0 * (q + 1) as real == ((q + 1) * 0x4000_0000) as real;
    AtMost((q * 0x4000_0000) as real, m, k);
    ScaleLess(m, ((q + 1) * 0x4000_0000) as real, k);
    ScalePositive(m, k);
  }

  lemma AtMost(a: real, b: real, k: int)
    requires a <= b
    ensures Scale(a, k) <= Scale(b, k)
  {
    if a < b { ScaleLess(a, b, k); }
  }

  /** The two parts of a written field, for every pattern but the zeros. */
  lemma WrittenFields(v: f64)
    requires !IsZero(v)
    ensures ReadInt16(Float40Bytes(v), 0) == Ok(v.exponent - 1022)
    ensures ReadInt24(Float40Bytes(v), 2) == Ok(if v.negative then -Kept(v) else Kept(v))
  {
    hide I16Bytes, I32Bytes, ReadInt16, ReadInt24;
    var m := if v.negative then -Kept(v) else Kept(v);
    var tail := I32Bytes(m)[1..4];
    Int16ReadsBack(v.exponent - 1022, [], tail);
    assert [] + I16Bytes(v.exponent - 1022) + tail == Float40Bytes(v);
    Int24ReadsBackResidue(m, I16Bytes(v.exponent - 1022));
  }

  /** Values from a half up to one are written with exponent zero. */
  lemma HalfToOne(v: f64)
    requires Normal(v) && 0.5 <= Abs(Value(v)) < 1.0
    ensures Float40Bytes(v)[0] == 0x00 && Float40Bytes(v)[1] == 0x00
  {
    WrittenFloat40(v);
    WrittenFields(v);
    hide Float40Bytes, Value;
    var e := v.exponent - 1022;
    assert Scale(1.0, 0) == 1.0 && Scale(1.0, -1) == 0.5;
    if e > 0 { PowersGrow(0, e - 1); }
    if e < 0 { PowersGrow(e, -1); }
    ExponentZero(v);
  }

  lemma ExponentZero(v: f64)
    requires Normal(v) && v.exponent == 1022
    ensures Float40Bytes(v)[0] == 0x00 && Float40Bytes(v)[1] == 0x00
  {
    hide I32Bytes;
  }

  /** 1.0, 12.5 and 100.0, and 1.0 and the zeros the other way. */
  lemma DocumentedFields()
    ensures ReadFloat40([0x00, 0x01, 0x40, 0x00, 0x00], 0) == Ok(1.0)
    ensures ReadFloat40([0x00, 0x04, 0x64, 0x00, 0x00], 0) == Ok(12.5)
    ensures ReadFloat40([0x00, 0x07, 0x64, 0x00, 0x00], 0) == Ok(100.0)
    ensures Float40Bytes(Binary64(false, 1023, 0)) == [0x00, 0x01, 0x40, 0x00, 0x00]
    ensures forall v: f64 | IsZero(v) :: Float40Bytes(v) == [0x00, 0x00, 0x00, 0x00, 0x00]
  {
    ScaleBy(1.0);
    ScaleBy(12.5);
    ScaleBy(100.0);
    ScaleScale(12.5, 11, 8);
    ScaleScale(100.0, 11, 5);
    ScaleFew(Scale(12.5, 11));
    ScaleFew(Scale(100.0, 11));
    MantissaTimes(0x40_0000, 22, 1.0);
    MantissaTimes(0x64_0000, 19, 12.5);
    MantissaTimes(0x64_0000, 16, 100.0);
    hide Scale;
    assert ReadInt16([0x00, 0x01, 0x40, 0x00, 0x00], 0) == Ok(1) && ReadInt24([0x00, 0x01, 0x40, 0x00, 0x00], 2) == Ok(0x40_0000);
    assert ReadInt16([0x00, 0x04, 0x64, 0x00, 0x00], 0) == Ok(4) && ReadInt24([0x00, 0x04, 0x64, 0x00, 0x00], 2) == Ok(0x64_0000);
    assert ReadInt16([0x00, 0x07, 0x64, 0x00, 0x00], 0) == Ok(7) && ReadInt24([0x00, 0x07, 0x64, 0x00, 0x00], 2) == Ok(0x64_0000);
    OneIsWritten();
  }

  lemma ScaleFew(a: real)
    ensures Scale(a, 5) == 32.0 * a && Scale(a, 8) == 256.0 * a
  {
    assert Scale(a, 2) == 4.0 * a;
    assert Scale(a, 4) == 4.0 * Scale(a, 2);
    assert Scale(a, 6) == 4.0 * Scale(a, 4);
    assert Scale(a, 8) == 4.0 * Scale(a, 6);
  }

  lemma MantissaTimes(m: int, k: nat, a: real)
    requires Scale(a, k) == m as real
    ensures Scale(m as real, -(k as int)) == a
  {
    ScaleBack(a, k);
  }

  lemma {:induction false} ScaleBack(a: real, k: nat)
    ensures Scale(Scale(a, k), -(k as int)) == a
  {
    if k > 0 {
      ScaleBack(a, k - 1);
      ScaleTwiceAny(Scale(a, k - 1), -(k as int));
    }
  }

  lemma OneIsWritten()
    ensures Float40Bytes(Binary64(false, 1023, 0)) == [0x00, 0x01, 0x40, 0x00, 0x00]
  {
    var v: f64 := Binary64(false, 1023, 0);
    assert Kept(v) == 0x40_0000;
    assert I16Bytes(1) == [0x00, 0x01] && I32Bytes(0x40_0000)[1..4] == [0x40, 0x00, 0x00];
  }
}
