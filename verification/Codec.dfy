/**
 * INT24 and FLOAT40 field codecs (src/codec.rs). An f64 is modelled by its
 * IEEE 754 binary64 bit pattern (section 3.4 of IEEE 754-2019) and, where it is
 * finite, by the exact real number that pattern denotes.
 */
module Codec {
  import opened Prelude
  import opened Wire

  /** The caller's growing byte vector. */
  class ByteBuf {
    var data: seq<byte>

    constructor ()
      ensures data == []
    {
      data := [];
    }
  }

  // ---- integers ----------------------------------------------------------

  predicate IsI32(v: int) { -0x8000_0000 <= v < 0x8000_0000 }

  predicate IsI16(v: int) { -0x8000 <= v < 0x8000 }

  /** Big-endian two's complement bytes of a signed 32-bit value. */
  function I32Bytes(v: int): (r: seq<byte>)
    requires IsI32(v)
    ensures |r| == 4
  {
    var u := v % 0x1_0000_0000;
    [u / 0x100_0000, (u / 0x1_0000) % 0x100, (u / 0x100) % 0x100, u % 0x100]
  }

  function I16Bytes(v: int): (r: seq<byte>)
    requires IsI16(v)
    ensures |r| == 2
  {
    var u := v % 0x1_0000;
    [u / 0x100, u % 0x100]
  }

  function CheckLen(data: seq<byte>, offset: nat, need: nat): (r: Option<WireError>)
    ensures r.None? <==> offset + need <= |data|
    ensures r.Some? ==> r.value == PayloadTooShort(offset + need, |data|)
  {
    if |data| < offset + need then Some(PayloadTooShort(offset + need, |data|)) else None
  }

  function ReadInt16(data: seq<byte>, offset: nat): Result<int, WireError> {
    match CheckLen(data, offset, 2)
    case Some(e) => Err(e)
    case None =>
      var raw := (data[offset] as int) * 0x100 + data[offset + 1] as int;
      Ok(if raw >= 0x8000 then raw - 0x1_0000 else raw)
  }

  function ReadInt24(data: seq<byte>, offset: nat): Result<int, WireError> {
    match CheckLen(data, offset, 3)
    case Some(e) => Err(e)
    case None =>
      var raw := (data[offset] as int) * 0x1_0000 + (data[offset + 1] as int) * 0x100 + data[offset + 2] as int;
      Ok(if raw >= 0x80_0000 then raw - 0x100_0000 else raw)
  }

  /** The value congruent to v modulo 2^24 that a signed 24-bit field can hold. */
  predicate IsResidue24(v: int, r: int) {
    -0x80_0000 <= r < 0x80_0000 && (v - r) % 0x100_0000 == 0
  }

  function Residue24(v: int): (r: int)
    ensures IsResidue24(v, r)
  {
    var u := v % 0x100_0000;
    if u >= 0x80_0000 then u - 0x100_0000 else u
  }

  /** Reading back the low three bytes gives the 24-bit residue, for every i32. */
  lemma Int24ReadsBackResidue(v: int, before: seq<byte>)
    requires IsI32(v)
    ensures ReadInt24(before + I32Bytes(v)[1..4], |before|) == Ok(Residue24(v))
    ensures -0x80_0000 <= v < 0x80_0000 <==> Residue24(v) == v
  {
    var bs := I32Bytes(v);
    var d := before + bs[1..4];
    assert d[|before|] == bs[1] && d[|before| + 1] == bs[2] && d[|before| + 2] == bs[3];
    LowBytes(v, bs[1] as int, bs[2] as int, bs[3] as int);
    hide I32Bytes;
  }

  lemma LowBytes(v: int, b1: int, b2: int, b3: int)
    requires var u := v % 0x1_0000_0000; b1 == (u / 0x1_0000) % 0x100 && b2 == (u / 0x100) % 0x100 && b3 == u % 0x100
    ensures b1 * 0x1_0000 + b2 * 0x100 + b3 == v % 0x100_0000
  {
    var u := v % 0x1_0000_0000;
    Digits(u);
    var k := (v / 0x1_0000_0000) * 0x100 + u / 0x100_0000;
    LowDigits(v, k, b1 * 0x1_0000 + b2 * 0x100 + b3);
  }

  lemma Digits(u: int)
    requires u >= 0
    ensures u == (u / 0x100_0000) * 0x100_0000 + ((u / 0x1_0000) % 0x100) * 0x1_0000 + ((u / 0x100) % 0x100) * 0x100 + u % 0x100
  {
    assert u / 0x1_0000 == (u / 0x100) / 0x100;
    assert u / 0x100_0000 == (u / 0x1_0000) / 0x100;
  }

  lemma LowDigits(v: int, k: int, w: int)
    requires v == k * 0x100_0000 + w && 0 <= w < 0x100_0000
    ensures v % 0x100_0000 == w
  {}

  lemma Int16ReadsBack(v: int, before: seq<byte>, after: seq<byte>)
    requires IsI16(v)
    ensures ReadInt16(before + I16Bytes(v) + after, |before|) == Ok(v)
  {
    var d := before + I16Bytes(v) + after;
    assert d[|before|] == I16Bytes(v)[0] && d[|before| + 1] == I16Bytes(v)[1];
  }

  /** Appends two bytes that read back as v. */
  method WriteInt16(buf: ByteBuf, v: int)
    requires IsI16(v)
    modifies buf
    ensures buf.data == old(buf.data) + I16Bytes(v)
    ensures ReadInt16(buf.data, |old(buf.data)|) == Ok(v)
  {
    Int16ReadsBack(v, buf.data, []);
    assert buf.data + I16Bytes(v) + [] == buf.data + I16Bytes(v);
    buf.data := buf.data + I16Bytes(v);
  }

  /** Appends three bytes that read back as the 24-bit residue of v. */
  method WriteInt24(buf: ByteBuf, v: int)
    requires IsI32(v)
    modifies buf
    ensures buf.data == old(buf.data) + I32Bytes(v)[1..4]
    ensures ReadInt24(buf.data, |old(buf.data)|) == Ok(Residue24(v))
  {
    Int24ReadsBackResidue(v, buf.data);
    var bytes := I32Bytes(v);
    buf.data := buf.data + bytes[1..4];
  }

  // ---- scaling by powers of two --------------------------------------------

  /** a * 2^k, written so that every fact about it is linear. */
  function Scale(a: real, k: int): real
    decreases if k < 0 then -k else k
  {
    if k == 0 then a else if k > 0 then 2.0 * Scale(a, k - 1) else Scale(a, k + 1) / 2.0
  }

  lemma {:induction false} ScaleLess(a: real, b: real, k: int)
    requires a < b
    ensures Scale(a, k) < Scale(b, k)
    decreases if k < 0 then -k else k
  {
    if k > 0 { ScaleLess(a, b, k - 1); } else if k < 0 { ScaleLess(a, b, k + 1); }
  }

  lemma {:induction false} ScaleSub(a: real, b: real, k: int)
    ensures Scale(a - b, k) == Scale(a, k) - Scale(b, k)
    decreases if k < 0 then -k else k
  {
    if k > 0 { ScaleSub(a, b, k - 1); } else if k < 0 { ScaleSub(a, b, k + 1); }
  }

  lemma {:induction false} ScaleZero(k: int)
    ensures Scale(0.0, k) == 0.0
    decreases if k < 0 then -k else k
  {
    if k > 0 { ScaleZero(k - 1); } else if k < 0 { ScaleZero(k + 1); }
  }

  lemma ScaleNeg(a: real, k: int)
    ensures Scale(-a, k) == -Scale(a, k)
  {
    ScaleSub(0.0, a, k);
    ScaleZero(k);
    assert 0.0 - a == -a;
  }

  lemma ScalePositive(a: real, k: int)
    ensures a > 0.0 <==> Scale(a, k) > 0.0
    ensures a == 0.0 <==> Scale(a, k) == 0.0
  {
    ScaleZero(k);
    if a > 0.0 { ScaleLess(0.0, a, k); }
    if a < 0.0 { ScaleLess(a, 0.0, k); }
  }

  lemma {:induction false} ScaleScale(a: real, n: nat, k: int)
    ensures Scale(a, n + k) == Scale(Scale(a, n), k)
    decreases if k < 0 then -k else k
  {
    if k > 0 {
      ScaleScale(a, n, k - 1);
    } else if k < 0 {
      ScaleScale(a, n, k + 1);
      assert Scale(a, n + k) == Scale(a, n + k + 1) / 2.0;
    }
  }

  lemma ScaleBy(a: real)
    ensures Scale(a, 11) == 2048.0 * a && Scale(a, 22) == 4194304.0 * a
    ensures Scale(a, 29) == 536870912.0 * a && Scale(a, 30) == 1073741824.0 * a
  {
    assert Scale(a, 4) == 16.0 * a;
    assert Scale(a, 8) == 256.0 * a;
    assert Scale(a, 11) == 2048.0 * a;
    ScaleScale(a, 11, 11);
    assert Scale(2048.0 * a, 4) == 32768.0 * a;
    assert Scale(2048.0 * a, 8) == 524288.0 * a;
    assert Scale(2048.0 * a, 11) == 4194304.0 * a;
    assert Scale(a, 26) == 67108864.0 * a;
  }

  // ---- binary64 ----------------------------------------------------------

  /** The three fields of a binary64 pattern: sign bit, 11-bit exponent, 52-bit fraction. */
  datatype Binary64 = Binary64(negative: bool, exponent: int, fraction: int)

  type f64 = v: Binary64 | 0 <= v.exponent < 0x800 && 0 <= v.fraction < 0x10_0000_0000_0000
    witness Binary64(false, 0, 0)

  const MANT: nat := 0x10_0000_0000_0000  // 2^52

  predicate Finite(v: f64) { v.exponent < 0x7FF }

  predicate Normal(v: f64) { 1 <= v.exponent < 0x7FF }

  predicate IsZero(v: f64) { v.exponent == 0 && v.fraction == 0 }

  /** The integer significand and exponent of a finite pattern: its magnitude is Sig * 2^Exp. */
  function Sig(v: f64): (m: nat)
    ensures m < 2 * MANT
  {
    if v.exponent == 0 then v.fraction else MANT + v.fraction
  }

  function Exp(v: f64): int { (if v.exponent == 0 then 1 else v.exponent) - 1075 }

  function Signed(negative: bool, a: real): real { if negative then -a else a }

  /** The exact value of a finite binary64 pattern. */
  function Value(v: f64): real
    requires Finite(v)
  {
    Signed(v.negative, Scale(Sig(v) as real, Exp(v)))
  }

  // ---- FLOAT40 -----------------------------------------------------------

  /** mantissa * 2^(exponent - 23), exact; a zero mantissa is zero whatever the exponent. */
  function ReadFloat40(data: seq<byte>, offset: nat): Result<real, WireError> {
    match CheckLen(data, offset, 5)
    case Some(e) => Err(e)
    case None =>
      var exponent := ReadInt16(data, offset).value;
      var mantissa := ReadInt24(data, offset + 2).value;
      Ok(if mantissa == 0 then 0.0 else Scale(mantissa as real, exponent - 23))
  }

  /** The 23-bit magnitude kept of a 53-bit significand. */
  function Kept(v: f64): (q: int)
    ensures 0x40_0000 <= q < 0x80_0000
    ensures q * 0x4000_0000 <= MANT + v.fraction < (q + 1) * 0x4000_0000
  {
    (MANT + v.fraction) / 0x4000_0000
  }

  /** The five bytes `write_float40` appends. */
  function Float40Bytes(v: f64): (r: seq<byte>)
    ensures |r| == 5
  {
    if IsZero(v) then [0, 0, 0, 0, 0]
    else
      I16Bytes(v.exponent - 1022)
      + I32Bytes(if v.negative then -Kept(v) else Kept(v))[1..4]
  }

  /**
   * A field is read from its own bytes and nothing else; when they are not all there the error names the
   * whole field's end, also for the FLOAT40 that is read as an INT16 and an INT24.
   */
  lemma ReadsItsOwnBytes(data: seq<byte>, offset: nat)
    ensures ReadInt16(data, offset)
         == if offset + 2 <= |data| then ReadInt16(data[offset..offset + 2], 0)
            else Err(PayloadTooShort(offset + 2, |data|))
    ensures ReadInt24(data, offset)
         == if offset + 3 <= |data| then ReadInt24(data[offset..offset + 3], 0)
            else Err(PayloadTooShort(offset + 3, |data|))
    ensures ReadFloat40(data, offset)
         == if offset + 5 <= |data| then ReadFloat40(data[offset..offset + 5], 0)
            else Err(PayloadTooShort(offset + 5, |data|))
  {
    if offset + 5 <= |data| {
      assert data[..offset + 5] == data[..offset] + data[offset..offset + 5];
      ReadFloat40Shift(data[..offset], data[offset..offset + 5]);
    }
  }

  function Decoded(v: f64): (r: real) {
    ReadFloat40(Float40Bytes(v), 0).value
  }

  /** Writes the field step by step as the source does. */
  method WriteFloat40(buf: ByteBuf, v: f64)
    modifies buf
    ensures buf.data == old(buf.data) + Float40Bytes(v)
    ensures ReadFloat40(buf.data, |old(buf.data)|) == Ok(Decoded(v))
  {
    ghost var before := buf.data;
    if v.exponent == 0 && v.fraction == 0 {  // +0.0 and -0.0 both compare equal to 0.0
      buf.data := buf.data + [0, 0, 0, 0, 0];
    } else {
      var mantAbs := (MANT + v.fraction) / 0x4000_0000;
      var mantissa := if v.negative then -mantAbs else mantAbs;
      var exponent := v.exponent - 1022;
      WriteInt16(buf, exponent);
      WriteInt24(buf, mantissa);
      assert mantAbs == Kept(v);
    }
    assert buf.data == before + Float40Bytes(v);
    ReadFloat40Shift(before, Float40Bytes(v));
  }

  lemma ReadFloat40Shift(before: seq<byte>, field: seq<byte>)
    requires |field| == 5
    ensures ReadFloat40(before + field, |before|) == ReadFloat40(field, 0)
  {
    assert field[2] as int == field[0 + 2] as int;
    var d := before + field;
    var n := |before|;
    assert d[n] == field[0] && d[n + 1] == field[1];
    assert d[n + 2] == field[2] && d[n + 3] == field[3] && d[n + 4] == field[4];
  }

  /** What survives a write and a read: the top 23 significand bits, with sign and exponent. */
  lemma DecodedIsTruncation(v: f64)
    requires !IsZero(v)
    ensures Decoded(v) == Signed(v.negative, Scale((Kept(v) * 0x4000_0000) as real, v.exponent - 1075))
  {
    hide Scale, I32Bytes, I16Bytes, ReadInt16, ReadInt24;
    var e := v.exponent - 1022;
    var mantissa := if v.negative then -Kept(v) else Kept(v);
    var tail := I32Bytes(mantissa)[1..4];
    Int16ReadsBack(e, [], tail);
    assert [] + I16Bytes(e) + tail == Float40Bytes(v);
    Int24ReadsBackResidue(mantissa, I16Bytes(e));
    var q := Kept(v) as real;
    ScaleNeg(q, e - 23);
    ScaleScale(q, 30, v.exponent - 1075);
    ScaleBy(q);
    assert 1073741824.0 * q == (Kept(v) * 0x4000_0000) as real;
  }

  function Abs(r: real): (a: real) { if r < 0.0 then -r else r }

  /**
   * Where the added leading bit does no harm: normal values, and the 2^29 largest
   * subnormals, which truncate to the same 23 bits either way.
   */
  predicate WellScaled(v: f64) {
    Normal(v) || (v.exponent == 0 && v.fraction >= MANT - 0x2000_0000)
  }

  /** Twice the significand the value has at the exponent the encoder uses, or the significand itself. */
  lemma OnCommonExponent(v: f64)
    requires Finite(v) && !IsZero(v)
    ensures Value(v) == Signed(v.negative, Scale((if v.exponent == 0 then 2 * Sig(v) else Sig(v)) as real, v.exponent - 1075))
    ensures Sig(v) > 0
  {
    if v.exponent == 0 { ScaleTwiceAny(Sig(v) as real, -1075); }
  }

  /** Sign kept, magnitude never exceeded, relative error below 2^-22. */
  lemma Float40Accuracy(v: f64)
    requires WellScaled(v) && Finite(v)
    ensures Value(v) > 0.0 <==> Decoded(v) > 0.0
    ensures Value(v) < 0.0 <==> Decoded(v) < 0.0
    ensures Abs(Decoded(v)) <= Abs(Value(v))
    ensures Abs(Value(v) - Decoded(v)) * 4194304.0 < Abs(Value(v))  // 4194304 = 2^22
  {
    hide Scale;
    DecodedIsTruncation(v);
    OnCommonExponent(v);
    hide Decoded, Value;
    var e := v.exponent - 1075;
    var m := (if v.exponent == 0 then 2 * Sig(v) else Sig(v)) as real;
    var t := (Kept(v) * 0x4000_0000) as real;
    ScaleSub(m, t, e);
    ScalePositive(m, e);
    ScalePositive(t, e);
    ScalePositive(m - t, e);
    ScaleBy(m - t);
    ScaleBy(Scale(m - t, e));
    ScaleCommute(m - t, 22, e);
    ScaleLess(4194304.0 * (m - t), m, e);
  }

  /** For every non-zero finite value, the magnitude is never exceeded exactly when it is well scaled. */
  lemma Float40NeverExceedsExactly(v: f64)
    requires Finite(v) && !IsZero(v)
    ensures Abs(Decoded(v)) <= Abs(Value(v)) <==> WellScaled(v)
  {
    if WellScaled(v) {
      Float40Accuracy(v);
    } else {
      DecodedIsTruncation(v);
      OnCommonExponent(v);
      var t := Kept(v) * 0x4000_0000;
      assert t > 2 * v.fraction;
      ScaleLess((2 * v.fraction) as real, t as real, -1075);
      ScalePositive((2 * v.fraction) as real, -1075);
    }
  }

  lemma {:induction false} ScaleCommute(a: real, n: nat, k: int)
    ensures Scale(Scale(a, n), k) == Scale(Scale(a, k), n)
    decreases if k < 0 then -k else k
  {
    if k > 0 {
      ScaleCommute(a, n, k - 1);
      ScaleTwice(Scale(a, k - 1), n);
    } else if k < 0 {
      ScaleCommute(a, n, k + 1);
      ScaleTwice(Scale(a, k), n);
    }
  }

  lemma {:induction false} ScaleTwice(a: real, n: nat)
    ensures Scale(2.0 * a, n) == 2.0 * Scale(a, n)
  {
    if n > 0 { ScaleTwice(a, n - 1); }
  }

  lemma ScaleTwiceAny(a: real, k: int)
    ensures Scale(2.0 * a, k) == Scale(a, k + 1)
  {
    ScaleScale(a, 1, k);
  }

  /** With significands in [lo, 2*lo), the larger exponent has the larger magnitude. */
  lemma {:induction false} ExponentDominates(m1: real, e1: int, m2: real, e2: int, lo: real)
    requires e1 < e2 && m1 < 2.0 * lo && lo <= m2 && 0.0 < lo
    ensures Scale(m1, e1) < Scale(m2, e2)
    decreases e2 - e1
  {
    if e1 + 1 == e2 {
      ScaleLess(m1, 2.0 * m2, e1);
      ScaleTwiceAny(m2, e1);
    } else {
      ScaleLess(m1, 2.0 * lo, e1);
      ScaleTwiceAny(lo, e1);
      ExponentDominates(lo, e1 + 1, m2, e2, lo);
    }
  }

  /** The encoder's significand, leading bit always set, and its exponent order what comes back. */
  lemma DecodedOrder(a: f64, b: f64)
    requires Finite(a) && Finite(b) && !IsZero(a) && !IsZero(b) && !a.negative && !b.negative
    requires a.exponent < b.exponent || (a.exponent == b.exponent && a.fraction <= b.fraction)
    ensures Decoded(a) <= Decoded(b)
  {
    DecodedIsTruncation(a);
    DecodedIsTruncation(b);
    hide Decoded, Scale;
    var ta, tb := (Kept(a) * 0x4000_0000) as real, (Kept(b) * 0x4000_0000) as real;
    if a.exponent < b.exponent {
      ExponentDominates(ta, a.exponent - 1075, tb, b.exponent - 1075, MANT as real);
    } else {
      assert Kept(a) <= Kept(b);
      if ta < tb { ScaleLess(ta, tb, a.exponent - 1075); }
    }
  }

  /** A smaller exponent or fraction is a smaller value, across the subnormal boundary too. */
  lemma ValueOrder(a: f64, b: f64)
    requires Finite(a) && Finite(b) && !a.negative && !b.negative
    requires b.exponent < a.exponent || (b.exponent == a.exponent && b.fraction < a.fraction)
    ensures Value(b) < Value(a)
  {
    var ma, mb := Sig(a) as real, Sig(b) as real;
    hide Scale;
    if Exp(a) == Exp(b) {
      ScaleLess(mb, ma, Exp(a));
    } else {
      ExponentDominates(mb, Exp(b), ma, Exp(a), MANT as real);
    }
  }

  lemma PositiveMonotone(a: f64, b: f64)
    requires Finite(a) && Finite(b) && !IsZero(a) && !IsZero(b) && !a.negative && !b.negative
    requires Value(a) <= Value(b)
    ensures Decoded(a) <= Decoded(b)
  {
    hide Decoded, Value;
    if b.exponent < a.exponent || (b.exponent == a.exponent && b.fraction < a.fraction) {
      ValueOrder(a, b);
    } else {
      DecodedOrder(a, b);
    }
  }

  lemma NegateSymmetric(v: f64)
    requires Finite(v) && !IsZero(v)
    ensures Value(v.(negative := !v.negative)) == -Value(v)
    ensures Decoded(v.(negative := !v.negative)) == -Decoded(v)
  {
    DecodedIsTruncation(v);
    DecodedIsTruncation(v.(negative := !v.negative));
    hide Decoded, Scale;
  }

  /** Writing then reading preserves order over all finite values, zeros and subnormals included. */
  lemma Float40Monotone(a: f64, b: f64)
    requires Finite(a) && Finite(b) && Value(a) <= Value(b)
    ensures Decoded(a) <= Decoded(b)
  {
    SignOf(a);
    SignOf(b);
    hide Decoded, Value;
    if !IsZero(a) && !IsZero(b) {
      if !a.negative && !b.negative {
        PositiveMonotone(a, b);
      } else if a.negative && b.negative {
        NegateSymmetric(a);
        NegateSymmetric(b);
        PositiveMonotone(b.(negative := false), a.(negative := false));
      }
    }
  }

  /** A value and what it comes back as have the sign of the pattern, and both zeros are zero. */
  lemma SignOf(v: f64)
    requires Finite(v)
    ensures IsZero(v) <==> Value(v) == 0.0
    ensures IsZero(v) <==> Decoded(v) == 0.0
    ensures !IsZero(v) ==> (v.negative <==> Value(v) < 0.0) && (v.negative <==> Decoded(v) < 0.0)
  {
    hide Scale;
    ScalePositive(Sig(v) as real, Exp(v));
    if !IsZero(v) {
      DecodedIsTruncation(v);
      ScalePositive((Kept(v) * 0x4000_0000) as real, v.exponent - 1075);
    }
  }

  /** m * 2^k as an integer. */
  function Shl(m: nat, k: nat): nat { if k == 0 then m else 2 * Shl(m, k - 1) }

  lemma {:induction false} ShlIsScale(m: nat, k: nat)
    ensures Scale(m as real, k) == Shl(m, k) as real
  {
    if k > 0 { ShlIsScale(m, k - 1); }
  }

  lemma {:induction false} ShlGrows(m: nat, j: nat, k: nat)
    requires j <= k
    ensures Shl(m, j) <= Shl(m, k)
  {
    if j < k { ShlGrows(m, j, k - 1); }
  }

  lemma {:induction false} ShlSplit(m: nat, k: nat)
    ensures Shl(m, k + 30) == 0x4000_0000 * Shl(m, k)
  {
    if k == 0 {
      ShlIsScale(m, 30);
      ScaleBy(m as real);
      hide Shl, Scale;
    } else {
      ShlSplit(m, k - 1);
    }
  }

  lemma ShlDivisible(m: nat, k: nat)
    requires k >= 30
    ensures Shl(m, k) % 0x4000_0000 == 0
  {
    ShlSplit(m, k - 30);
    hide Shl;
    MultipleOf(Shl(m, k - 30));
  }

  lemma MultipleOf(n: nat)
    ensures (0x4000_0000 * n) % 0x4000_0000 == 0
  {}

  /** A 53-bit significand equal to a 24-bit mantissa times a power of two has 30 zero low bits. */
  lemma ShortSignificand(m: int, e: int, mant: int, x: int)
    requires MANT <= m < 2 * MANT && 0 < mant <= 0x80_0000
    requires Scale(m as real, e) == Scale(mant as real, x)
    ensures m % 0x4000_0000 == 0
  {
    if x < e {
      ExponentDominates(mant as real, x, m as real, e, MANT as real);
    } else {
      var k := x - e;
      ScaleScale(mant as real, k, e);
      ShlIsScale(mant, k);
      var t := Shl(mant, k);
      if m < t { ScaleLess(m as real, t as real, e); }
      if t < m { ScaleLess(t as real, m as real, e); }
      ShlIsScale(mant, 29);
      ScaleBy(mant as real);
      if k >= 30 { ShlDivisible(mant, k); } else { ShlGrows(mant, k, 29); }
    }
  }

  /**
   * Any 5-byte field whose value is zero or a normal binary64 survives re-encoding:
   * unnormalised mantissas and -2^23 included.
   */
  lemma Float40Canonical(wire: seq<byte>, offset: nat, v: f64)
    requires offset + 5 <= |wire|
    requires Normal(v) || IsZero(v)
    requires Value(v) == ReadFloat40(wire, offset).value
    ensures Decoded(v) == ReadFloat40(wire, offset).value
  {
    var x := ReadInt16(wire, offset).value;
    var mant := ReadInt24(wire, offset + 2).value;
    SignOf(v);
    hide Scale, Decoded, ReadInt16, ReadInt24;
    if !IsZero(v) {
      DecodedIsTruncation(v);
      var size := if mant < 0 then -mant else mant;
      ScaleNeg(size as real, x - 23);
      ScalePositive(mant as real, x - 23);
      ShortSignificand(Sig(v), Exp(v), size, x - 23);
    }
  }

  /** Two normal patterns with one value are one pattern. */
  lemma NormalValueUnique(a: f64, b: f64)
    requires Normal(a) && Normal(b) && Value(a) == Value(b)
    ensures a == b
  {
    SignOf(a);
    SignOf(b);
    var ma, mb := Sig(a) as real, Sig(b) as real;
    if a.exponent < b.exponent { ExponentDominates(ma, Exp(a), mb, Exp(b), MANT as real); }
    if b.exponent < a.exponent { ExponentDominates(mb, Exp(b), ma, Exp(a), MANT as real); }
    if ma < mb { ScaleLess(ma, mb, Exp(a)); }
    if mb < ma { ScaleLess(mb, ma, Exp(a)); }
  }

  /** The value decoded from an encoding has that same encoding, byte for byte. */
  lemma Float40ReencodeFixpoint(a: f64, b: f64)
    requires Normal(a) && Normal(b) && Value(b) == Decoded(a)
    ensures Float40Bytes(b) == Float40Bytes(a)
  {
    DecodedIsTruncation(a);
    var c: f64 := a.(fraction := Kept(a) * 0x4000_0000 - MANT);
    NormalValueUnique(b, c);
    assert Kept(c) == Kept(a);
  }
}
