/** The 80-bit extended-precision number of the AIFF Common chunk's sample
    rate field (the x87 double-extended format of IEEE 754-1985): one sign
    bit and a 15-bit exponent biased by 16383 in bytes 0-1, then a 64-bit
    significand in bytes 2-9 whose top bit is the explicit integer bit.

    The decoder of src/extended.rs works in f64; this model keeps the exact
    real value it approximates. */
module Extended {
  import opened Base

  const EXP_BIAS: int := 16383
  const FIRST_POS: Byte := 0x80

  /** The outcome of decoding: a value, or the `unimplemented!` case hit. */
  datatype Rate =
    | Rate(value: real)
    | ZeroOrDenormal   // exponent bytes (0, 0) once the sign is cleared
    | InfinityOrNaN    // exponent bytes (0x7F, 0xFF)
    | NotNormalized    // significand not greater than 1

  /** Bit `idx` of `byte`, counting from the most significant bit: the test
      `((byte << idx) & FIRST_POS) == FIRST_POS` of the Rust code, written
      as a right shift of the other bits away. */
  predicate BitFromTop(byte: Byte, idx: nat)
    requires idx < 8
  {
    Shr(byte, 7 - idx) % 2 == 1
  }

  /** The top `m` bits of `byte`, read as an m-bit number. */
  function TopBits(byte: Byte, m: nat): nat
    requires m <= 8
  {
    Shr(byte, 8 - m)
  }

  lemma TopBitsSucc(byte: Byte, m: nat)
    requires m < 8
    ensures TopBits(byte, m + 1) == 2 * TopBits(byte, m) + TopBits(byte, m + 1) % 2
  {
    ShrSucc(byte, 7 - m);
  }

  // ---------------------------------------------------------------------
  // Specification of the decoder

  /** The significand as a fraction: the big-endian u64 of bytes 2..9 over 2^63. */
  function Significand(b: seq<Byte>): real
    requires |b| == 10
  {
    Scaled(BeUint(b[2..10]), 63)
  }

  predicate SignBit(b: seq<Byte>)
    requires |b| == 10
  {
    b[0] >= FIRST_POS
  }

  /** The 15-bit biased exponent: bytes 0-1 with the sign bit cleared. */
  function BiasedExponent(b: seq<Byte>): nat
    requires |b| == 10
  {
    (b[0] % 0x80) as int * 256 + b[1]
  }

  /** The decoder's case analysis on the three fields: the reserved
      exponents first, then the guard on the significand, then
      (-1)^sign * 2^(exponent - 16383) * significand, the power of two
      applied by `Scale2` (equal to the product, by `Scale2IsProduct`). */
  function DecodeFields(negative: bool, exponent: nat, significand: real): Rate
  {
    if exponent == 0 then ZeroOrDenormal
    else if exponent == 0x7FFF then InfinityOrNaN
    else if significand > 1.0 then
      var magnitude := Scale2(significand, exponent - EXP_BIAS);
      Rate(if negative then -magnitude else magnitude)
    else NotNormalized
  }

  /** What `parse_extended_precision_bytes` computes, over the reals. */
  function DecodeExtended(b: seq<Byte>): Rate
    requires |b| == 10
  {
    DecodeFields(SignBit(b), BiasedExponent(b), Significand(b))
  }

  // ---------------------------------------------------------------------
  // The decoder as written

  /** The sum of the weights of the first `n` bits of `byte` (from the top),
      bit `idx` weighing 2^-(idx + base): what the loop of
      `read_binary_fraction` has added after `n` iterations. */
  function WeightedBits(byte: Byte, n: nat, base: nat): real
    requires n <= 8
  {
    if n == 0 then 0.0
    else WeightedBits(byte, n - 1, base)
         + (if BitFromTop(byte, n - 1) then Pow2Real(-((n - 1 + base) as int)) else 0.0)
  }

  /** The first `n` bits weigh the number they form: the top `n` bits of
      `byte` as an integer, times 2^-(n - 1 + base). */
  lemma {:induction false} WeightedBitsValue(byte: Byte, n: nat, base: nat)
    requires n <= 8
    ensures WeightedBits(byte, n, base) == Scaled(2 * TopBits(byte, n), n + base)
  {
    if n == 0 {
      assert Pow2(8) == 256;
      ShrAll(byte, 8);
      ScaledZero(base);
    } else {
      var k := n - 1;
      var bit := TopBits(byte, n) % 2;
      WeightedBitsValue(byte, k, base);
      TopBitsSucc(byte, k);
      ScaledDouble(TopBits(byte, n), k + base);
      ScaledAdd(2 * TopBits(byte, k), bit, k + base);
      if bit == 0 {
        ScaledZero(k + base);
      }
    }
  }

  /** `read_binary_fraction`: the weight of each set bit, summed; the most
      significant bit of `byte` weighs 2^-(bias + 8 * byteOffset), so the
      result is `byte` times 2^-(7 + bias + 8 * byteOffset). */
  method ReadBinaryFraction(byte: Byte, byteOffset: nat, bias: Byte) returns (res: real)
    requires byteOffset < 0x1000_0000
    ensures res == Scaled(byte, 7 + bias + 8 * byteOffset)
  {
    ghost var base := bias + 8 * byteOffset;
    res := 0.0;
    var idx := 0;
    while idx < 8
      invariant 0 <= idx <= 8
      invariant res == WeightedBits(byte, idx, base)
    {
      if Shr(byte, 7 - idx) % 2 == 1 {
        var power: int := -((idx + bias + 8 * byteOffset) as int);
        res := res + Pow2Real(power);
      }
      idx := idx + 1;
    }
    WeightedBitsValue(byte, 8, base);
    ScaledDouble(byte, 7 + base);
  }

  /** One iteration of the significand loop: appending byte `x` (whose
      weight starts at 2^-(7 + 8n)) to the `n` bytes read so far. */
  lemma SignificandStep(u: int, x: Byte, n: nat, u2: int)
    requires u2 == 256 * u + x
    ensures Scaled(2 * u2, 8 * (n + 1)) == Scaled(2 * u, 8 * n) + Scaled(x, 7 + 8 * n)
  {
    ScaledAdd(256 * (2 * u), 2 * x, 8 * n + 8);
    ScaledByte(2 * u, 8 * n);
    ScaledDouble(x, 7 + 8 * n);
    assert 2 * u2 == 256 * (2 * u) + 2 * x;
  }

  /** The significand loop after `n` bytes: the u64 prefix formed so far,
      times 2^(1 - 8n); after all eight it is `Significand(b)`. */
  lemma SignificandPrefix(b: seq<Byte>, n: nat)
    requires |b| == 10 && n <= 8
    ensures n < 8 ==> Scaled(2 * BeUint(b[2..2 + n + 1]), 8 * (n + 1))
                      == Scaled(2 * BeUint(b[2..2 + n]), 8 * n) + Scaled(b[n + 2], 7 + 0 + 8 * n)
    ensures n == 8 ==> Scaled(2 * BeUint(b[2..2 + n]), 8 * n) == Significand(b)
  {
    if n < 8 {
      assert b[2..2 + n] + [b[n + 2]] == b[2..2 + n + 1];
      BeUintSnoc(b[2..2 + n], b[n + 2]);
      SignificandStep(BeUint(b[2..2 + n]), b[n + 2], n, BeUint(b[2..2 + n + 1]));
    } else {
      assert b[2..2 + n] == b[2..10];
      ScaledDouble(BeUint(b[2..10]), 63);
    }
  }

  /** Rust `as i16` on a u16: values from 2^15 up wrap to negatives. */
  function AsI16(u: nat): (v: int)
    requires u < 0x1_0000
    ensures -0x8000 <= v < 0x8000
    ensures u < 0x8000 ==> v == u
  {
    if u < 0x8000 then u else u - 0x1_0000
  }

  /** The exponent bytes once the sign bit is cleared, read as a u16, are
      the biased exponent; it is below 2^15, so the `as i16` cast keeps it
      and the subtraction of the bias cannot wrap. */
  lemma ExponentBytes(b: seq<Byte>, c: seq<Byte>)
    requires |b| == 10 && |c| == 10
    requires c[0] == b[0] % 0x80 && c[1] == b[1]
    ensures BeUint(c[0..2]) == BiasedExponent(b) < 0x8000
  {
    BeUintPair(c[0..2]);
  }

  /** The two reserved exponents are the two byte patterns the decoder matches. */
  lemma ExponentCases(b: seq<Byte>)
    requires |b| == 10
    ensures BiasedExponent(b) == 0 <==> b[0] % 0x80 == 0 && b[1] == 0
    ensures BiasedExponent(b) == 0x7FFF <==> b[0] % 0x80 == 0x7F && b[1] == 0xFF
  {
  }

  /** The value case of the decoder, with the negation written as the
      source's multiplication by -1. */
  lemma NormalValue(negative: bool, exponent: int, significand: real)
    requires 0 < exponent < 0x7FFF && significand > 1.0
    ensures DecodeFields(negative, exponent, significand)
            == Rate(if negative then Scale2(significand, exponent - EXP_BIAS) * -1.0
                    else Scale2(significand, exponent - EXP_BIAS))
  {
  }

  /** The second half of `parse_extended_precision_bytes`, once the
      significand is summed: clear the sign bit, match on the exponent
      bytes, then scale the significand and apply the sign. */
  function MatchExponent(b: seq<Byte>, significand: real): Rate
    requires |b| == 10
  {
    var isNeg := b[0] >= FIRST_POS;  // b[0] & FIRST_POS == FIRST_POS
    var c := if isNeg then b[0 := b[0] - FIRST_POS] else b;  // b[0] ^= FIRST_POS
    if c[0] == 0 && c[1] == 0 then ZeroOrDenormal
    else if c[0] == 0x7F && c[1] == 0xFF then InfinityOrNaN
    else if significand > 1.0 then
      var exp := BeUint(c[0..2]);  // u16::from_be_bytes
      BeUintPair(c[0..2]);
      var res := Scale2(significand, AsI16(exp) - EXP_BIAS);  // 2f64.powi(..).mul(significand)
      if isNeg then Rate(res * -1.0) else Rate(res)
    else NotNormalized
  }

  /** With the summed significand, the match computes the decoded value. */
  lemma MatchExponentDecodes(b: seq<Byte>)
    requires |b| == 10
    ensures MatchExponent(b, Significand(b)) == DecodeExtended(b)
  {
    var isNeg := b[0] >= FIRST_POS;
    var c := if isNeg then b[0 := b[0] - FIRST_POS] else b;
    assert c[0] == b[0] % 0x80 && c[1] == b[1];
    ExponentCases(b);
    ExponentBytes(b, c);
    var e := BiasedExponent(b);
    var sig := Significand(b);
    assert DecodeExtended(b) == DecodeFields(isNeg, e, sig);
    if e != 0 && e != 0x7FFF && sig > 1.0 {
      assert AsI16(BeUint(c[0..2])) == e;
      assert MatchExponent(b, sig)
             == (if isNeg then Rate(Scale2(sig, AsI16(BeUint(c[0..2])) - EXP_BIAS) * -1.0)
                 else Rate(Scale2(sig, AsI16(BeUint(c[0..2])) - EXP_BIAS)));
      NormalValue(isNeg, e, sig);
    }
  }

  /** `parse_extended_precision_bytes`, with each `unimplemented!` panic
      reported as the matching `Rate` case. */
  method ParseExtendedPrecisionBytes(b: seq<Byte>) returns (r: Rate)
    requires |b| == 10
    ensures r == DecodeExtended(b)
  {
    var significand := 0.0;
    var idx := 0;
    ScaledZero(0);
    while idx < 8
      invariant 0 <= idx <= 8
      invariant significand == Scaled(2 * BeUint(b[2..2 + idx]), 8 * idx)
    {
      var f := ReadBinaryFraction(b[idx + 2], idx, 0);
      SignificandPrefix(b, idx);
      significand := significand + f;
      idx := idx + 1;
    }
    SignificandPrefix(b, 8);

    MatchExponentDecodes(b);
    r := MatchExponent(b, significand);
  }

  // ---------------------------------------------------------------------
  // Properties of the decoded value

  /** The significand lies in [0, 2): the integer bit weighs 1 and the
      63 fraction bits together less than 1. */
  lemma SignificandRange(b: seq<Byte>)
    requires |b| == 10
    ensures 0.0 <= Significand(b) < 2.0
  {
    var u := BeUint(b[2..10]);
    ScaledLess(u, 0, 63);
    ScaledZero(63);
    ScaledBelowTwo(u, 63);
  }

  /** The decoder's guard `significand > 1` holds exactly when the u64 of
      bytes 2..9 exceeds 2^63. */
  lemma SignificandAboveOne(b: seq<Byte>)
    requires |b| == 10
    ensures Significand(b) > 1.0 <==> BeUint(b[2..10]) > Pow2(63)
  {
    ScaledVsOne(BeUint(b[2..10]), 63);
  }

  /** Every value the decoder returns has the explicit integer bit (the top
      bit of byte 2) set, as the source's comment on the guard says. */
  lemma DecodeNeedsIntegerBit(b: seq<Byte>)
    requires |b| == 10
    ensures DecodeExtended(b).Rate? ==> b[2] >= 0x80
  {
    if DecodeExtended(b).Rate? {
      SignificandAboveOne(b);
      TopBitSet(b[2..10]);
    }
  }

  /** An eight-byte significand above 2^63 has its top bit set. */
  lemma TopBitSet(s: seq<Byte>)
    requires |s| == 8 && BeUint(s) > Pow2(63)
    ensures s[0] >= 0x80
  {
    BeUintCons(s);
    Pow2Add(7, 56);
    Pow2Values();
    LeadingByteBound(s[0], Pow2(56), BeUint(s[1..]));
  }

  /** A decoded value lies strictly between 2^(e - 16383) and
      2^(e - 16382) in magnitude, e being the biased exponent: the
      significand it scales lies strictly between 1 and 2. */
  lemma DecodedMagnitude(b: seq<Byte>)
    requires |b| == 10 && DecodeExtended(b).Rate?
    ensures var v, k := DecodeExtended(b).value, BiasedExponent(b) - EXP_BIAS;
            Scale2(1.0, k) < (if v < 0.0 then -v else v) < Scale2(1.0, k + 1)
  {
    var k := BiasedExponent(b) - EXP_BIAS;
    var sig := Significand(b);
    SignificandRange(b);
    Scale2Less(1.0, sig, k);
    Scale2Less(sig, 2.0, k);
    Scale2Less(0.0, 1.0, k);
    assert Scale2(0.0, k) == 0.0 by { Scale2Zero(k); }
    Scale2Add(1.0, 1, k);
    assert Scale2(1.0, 1) == 2.0;
  }

  /** `b[0] ^= FIRST_POS`: toggling the sign bit. */
  function FlipSign(b: seq<Byte>): (c: seq<Byte>)
    requires |b| == 10
    ensures |c| == 10
  {
    b[0 := (b[0] as int + 0x80) % 0x100]
  }

  function Negate(r: Rate): Rate
  {
    if r.Rate? then Rate(-r.value) else r
  }

  /** Toggling the sign bit negates a decoded value and leaves every
      non-value outcome as it was. */
  lemma SignFlip(b: seq<Byte>)
    requires |b| == 10
    ensures DecodeExtended(FlipSign(b)) == Negate(DecodeExtended(b))
    ensures FlipSign(FlipSign(b)) == b
  {
    var c := FlipSign(b);
    ToggleTopBit(b[0]);
    assert Significand(c) == Significand(b) by {
      assert c[2..10] == b[2..10];
    }
    assert BiasedExponent(c) == BiasedExponent(b) && SignBit(c) == !SignBit(b);
    assert DecodeExtended(c) == DecodeFields(!SignBit(b), BiasedExponent(b), Significand(b));
    FieldsSignFlip(SignBit(b), BiasedExponent(b), Significand(b));
  }

  /** Toggling the top bit of a byte flips the sign bit, keeps the low
      seven bits, and undoes itself. */
  lemma ToggleTopBit(x: Byte)
    ensures (x + 0x80) % 0x100 >= 0x80 <==> x < 0x80
    ensures ((x + 0x80) % 0x100) % 0x80 == x % 0x80
    ensures (((x + 0x80) % 0x100) + 0x80) % 0x100 == x
  {
    if x < 0x80 {
      assert (x + 0x80) % 0x100 == x + 0x80;
    } else {
      assert (x + 0x80) % 0x100 == x - 0x80;
    }
  }

  lemma FieldsSignFlip(negative: bool, exponent: nat, significand: real)
    ensures DecodeFields(!negative, exponent, significand) == Negate(DecodeFields(negative, exponent, significand))
  {
  }

  /** The ten bytes of an extended number with the given sign, biased
      exponent and 64-bit significand. */
  function EncodeExtended(negative: bool, exponent: nat, mantissa: nat): (b: seq<Byte>)
    requires exponent < 0x8000 && mantissa < Pow2(64)
    ensures |b| == 10
  {
    [(if negative then 0x80 else 0) + exponent / 0x100, exponent % 0x100] + BeBytes(mantissa, 8)
  }

  /** The two exponent bytes of the encoding, with the sign bit above. */
  lemma ExponentSplit(negative: bool, exponent: nat)
    requires exponent < 0x8000
    ensures exponent / 0x100 < 0x80
    ensures ((if negative then 0x80 else 0) + exponent / 0x100) % 0x80 == exponent / 0x100
    ensures (exponent / 0x100) * 256 + exponent % 0x100 == exponent
  {
    var top := exponent / 0x100;
    assert top < 0x80;
    if negative {
      assert (0x80 + top) % 0x80 == top;
    }
  }

  /** Encoding places each field where the decoder reads it. */
  lemma EncodeFields(negative: bool, exponent: nat, mantissa: nat)
    requires exponent < 0x8000 && mantissa < Pow2(64)
    ensures SignBit(EncodeExtended(negative, exponent, mantissa)) == negative
    ensures BiasedExponent(EncodeExtended(negative, exponent, mantissa)) == exponent
    ensures BeUint(EncodeExtended(negative, exponent, mantissa)[2..10]) == mantissa
  {
    var b := EncodeExtended(negative, exponent, mantissa);
    ExponentSplit(negative, exponent);
    assert b[2..10] == BeBytes(mantissa, 8);
    BeUintOfBeBytes(mantissa, 8);
  }

  /** Any ten bytes are the encoding of their own fields. */
  lemma EncodeOfFields(b: seq<Byte>)
    requires |b| == 10
    ensures BeUint(b[2..10]) < Pow2(64)
    ensures EncodeExtended(SignBit(b), BiasedExponent(b), BeUint(b[2..10])) == b
  {
    var e := BiasedExponent(b);
    var m := BeUint(b[2..10]);
    assert (if SignBit(b) then 0x80 else 0) + e / 0x100 == b[0] && e % 0x100 == b[1] by {
      assert e / 0x100 == b[0] % 0x80 && e % 0x100 == b[1];
    }
    assert BeBytes(m, 8) == b[2..10] by {
      BeBytesOfBeUint(b[2..10]);
    }
    assert b == [b[0], b[1]] + b[2..10];
  }

  /** Decoding an encoded normal number gives
      (-1)^sign * 2^(exponent - 16383) * mantissa / 2^63, when the
      mantissa is above 2^63. */
  lemma DecodeOfEncode(negative: bool, exponent: nat, mantissa: nat)
    requires 0 < exponent < 0x7FFF && Pow2(63) < mantissa < Pow2(64)
    ensures DecodeExtended(EncodeExtended(negative, exponent, mantissa))
            == Rate(if negative then -Scale2(mantissa as real, exponent - EXP_BIAS - 63)
                    else Scale2(mantissa as real, exponent - EXP_BIAS - 63))
  {
    EncodeFields(negative, exponent, mantissa);
    assert Scaled(mantissa, 63) > 1.0 by {
      ScaledVsOne(mantissa, 63);
    }
    DecodeNormalFields(EncodeExtended(negative, exponent, mantissa), negative, exponent, mantissa);
  }

  /** The decoded value of ten bytes whose fields are known and normal. */
  lemma DecodeNormalFields(b: seq<Byte>, negative: bool, exponent: nat, mantissa: nat)
    requires |b| == 10 && SignBit(b) == negative && BiasedExponent(b) == exponent
    requires BeUint(b[2..10]) == mantissa
    requires 0 < exponent < 0x7FFF && Scaled(mantissa, 63) > 1.0
    ensures DecodeExtended(b)
            == Rate(if negative then -Scale2(mantissa as real, exponent - EXP_BIAS - 63)
                    else Scale2(mantissa as real, exponent - EXP_BIAS - 63))
  {
    var sig := Scaled(mantissa, 63);
    assert DecodeExtended(b) == DecodeFields(negative, exponent, sig);
    assert Scale2(sig, exponent - EXP_BIAS) == Scale2(mantissa as real, exponent - EXP_BIAS - 63) by {
      ScaledIsScale2(mantissa, 63);
      Scale2Add(mantissa as real, -63, exponent - EXP_BIAS);
    }
  }

  // ---------------------------------------------------------------------
  // The strict guard `significand > 1`

  /** 32768 Hz as an extended number: exponent 16383 + 15, and only the
      explicit integer bit set in the significand. */
  const RATE_32768: seq<Byte> := [0x40, 0x0E, 0x80, 0, 0, 0, 0, 0, 0, 0]

  /** A normalized significand is at least 1, but the decoder's guard
      `significand.gt(&1f64)` is strict, so every exact power of two is
      refused: 32768 Hz is reported as not normalized. */
  lemma PowerOfTwoRateRejected()
    ensures |RATE_32768| == 10 && Significand(RATE_32768) == 1.0
    ensures DecodeExtended(RATE_32768) == NotNormalized
  {
    IntegerBitOnly(RATE_32768[2..10]);
    ScaledVsOne(BeUint(RATE_32768[2..10]), 63);
  }

  /** Eight significand bytes holding only the integer bit read as 2^63. */
  lemma IntegerBitOnly(s: seq<Byte>)
    requires |s| == 8 && s[0] == 0x80 && forall i | 1 <= i < 8 :: s[i] == 0
    ensures BeUint(s) == Pow2(63)
  {
    LeadingByteOnly(s);
    Pow2Add(7, 56);
    Pow2Values();
  }

  /** The decoder with the guard the comment in the source asks for (the
      integer bit set, that is, significand >= 1). */
  function DecodeFieldsCorrected(negative: bool, exponent: nat, significand: real): Rate
  {
    if exponent == 0 then ZeroOrDenormal
    else if exponent == 0x7FFF then InfinityOrNaN
    else if significand >= 1.0 then
      var magnitude := Scale2(significand, exponent - EXP_BIAS);
      Rate(if negative then -magnitude else magnitude)
    else NotNormalized
  }

  function DecodeExtendedCorrected(b: seq<Byte>): Rate
    requires |b| == 10
  {
    DecodeFieldsCorrected(SignBit(b), BiasedExponent(b), Significand(b))
  }

  /** The corrected decoder differs from the original exactly on the
      normal exponents with significand 1, where it returns a value. */
  lemma CorrectedDiffersOnlyAtOne(b: seq<Byte>)
    requires |b| == 10
    ensures DecodeExtendedCorrected(b) != DecodeExtended(b)
            <==> 0 < BiasedExponent(b) < 0x7FFF && Significand(b) == 1.0
    ensures DecodeExtendedCorrected(b) != DecodeExtended(b) ==> DecodeExtendedCorrected(b).Rate?
  {
  }

  /** The corrected decoder reads 32768 Hz. */
  lemma PowerOfTwoRateCorrected()
    ensures |RATE_32768| == 10 && DecodeExtendedCorrected(RATE_32768) == Rate(32768.0)
  {
    PowerOfTwoRateRejected();
    assert BiasedExponent(RATE_32768) - EXP_BIAS == 15;
    assert Scale2(1.0, 15) == 32768.0;
  }

  /** Every normalized encoding (integer bit set) decodes to its value
      under the corrected guard. */
  lemma CorrectedDecodeOfEncode(negative: bool, exponent: nat, mantissa: nat)
    requires 0 < exponent < 0x7FFF && Pow2(63) <= mantissa < Pow2(64)
    ensures DecodeExtendedCorrected(EncodeExtended(negative, exponent, mantissa))
            == Rate(if negative then -Scale2(mantissa as real, exponent - EXP_BIAS - 63)
                    else Scale2(mantissa as real, exponent - EXP_BIAS - 63))
  {
    EncodeFields(negative, exponent, mantissa);
    assert Scaled(mantissa, 63) >= 1.0 by {
      ScaledVsOne(mantissa, 63);
    }
    CorrectedNormalFields(EncodeExtended(negative, exponent, mantissa), negative, exponent, mantissa);
  }

  lemma CorrectedNormalFields(b: seq<Byte>, negative: bool, exponent: nat, mantissa: nat)
    requires |b| == 10 && SignBit(b) == negative && BiasedExponent(b) == exponent
    requires BeUint(b[2..10]) == mantissa
    requires 0 < exponent < 0x7FFF && Scaled(mantissa, 63) >= 1.0
    ensures DecodeExtendedCorrected(b)
            == Rate(if negative then -Scale2(mantissa as real, exponent - EXP_BIAS - 63)
                    else Scale2(mantissa as real, exponent - EXP_BIAS - 63))
  {
    var sig := Scaled(mantissa, 63);
    assert DecodeExtendedCorrected(b) == DecodeFieldsCorrected(negative, exponent, sig);
    assert Scale2(sig, exponent - EXP_BIAS) == Scale2(mantissa as real, exponent - EXP_BIAS - 63) by {
      ScaledIsScale2(mantissa, 63);
      Scale2Add(mantissa as real, -63, exponent - EXP_BIAS);
    }
  }
}
