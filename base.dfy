/** Byte-level primitives shared by every part of the AIFF model: bytes,
    powers of two, big-endian integers (the `from_be_bytes` / `get_*_be`
    reads of the Rust code) and two's complement reinterpretation. */
module Base {

  /** One octet of the input stream (Rust `u8`). */
  type Byte = x: int | 0 <= x < 0x100

  datatype Option<T> = None | Some(value: T)

  function Pow2(k: nat): (r: nat)
    ensures r >= 1
  {
    if k == 0 then 1 else 2 * Pow2(k - 1)
  }

  /** x * 2^-k as an exact real, by halving `k` times. */
  function Scaled(x: int, k: nat): real
  {
    if k == 0 then x as real else Scaled(x, k - 1) / 2.0
  }

  /** 2^e for any integer exponent (`2f64.powi(e)` without rounding). */
  function Pow2Real(e: int): real
  {
    if e >= 0 then Pow2(e) as real else Scaled(1, -e)
  }

  lemma {:induction false} ScaledAdd(x: int, y: int, k: nat)
    ensures Scaled(x + y, k) == Scaled(x, k) + Scaled(y, k)
  {
    if k > 0 {
      ScaledAdd(x, y, k - 1);
    }
  }

  lemma {:induction false} ScaledZero(k: nat)
    ensures Scaled(0, k) == 0.0
  {
    if k > 0 {
      ScaledZero(k - 1);
    }
  }

  /** Doubling the number and halving once more cancel out. */
  lemma {:induction false} ScaledDouble(x: int, k: nat)
    ensures Scaled(2 * x, k + 1) == Scaled(x, k)
  {
    if k > 0 {
      ScaledDouble(x, k - 1);
    }
  }

  /** Eight more halvings cancel a factor of 256. */
  lemma ScaledByte(x: int, k: nat)
    ensures Scaled(256 * x, k + 8) == Scaled(x, k)
  {
    ScaledDouble(128 * x, k + 7);
    ScaledDouble(64 * x, k + 6);
    ScaledDouble(32 * x, k + 5);
    ScaledDouble(16 * x, k + 4);
    ScaledDouble(8 * x, k + 3);
    ScaledDouble(4 * x, k + 2);
    ScaledDouble(2 * x, k + 1);
    ScaledDouble(x, k);
  }

  /** Scaling by the same power keeps the order. */
  lemma {:induction false} ScaledLess(x: int, y: int, k: nat)
    ensures Scaled(x, k) < Scaled(y, k) <==> x < y
  {
    if k > 0 {
      ScaledLess(x, y, k - 1);
    }
  }

  lemma {:induction false} ScaledNeg(x: int, k: nat)
    ensures Scaled(-x, k) == -Scaled(x, k)
  {
    if k > 0 {
      ScaledNeg(x, k - 1);
    }
  }

  /** 2^k * 2^-k == 1. */
  lemma {:induction false} ScaledPow2(k: nat)
    ensures Scaled(Pow2(k), k) == 1.0
  {
    if k > 0 {
      ScaledPow2(k - 1);
      ScaledDouble(Pow2(k - 1), k - 1);
    }
  }

  /** x * 2^e for a real `x` and any integer exponent, by doubling or
      halving |e| times. */
  function Scale2(x: real, e: int): real
    decreases if e >= 0 then e else -e
  {
    if e == 0 then x
    else if e > 0 then 2.0 * Scale2(x, e - 1)
    else Scale2(x, e + 1) / 2.0
  }

  lemma {:induction false} Scale2Succ(x: real, e: int)
    ensures Scale2(x, e + 1) == 2.0 * Scale2(x, e)
    decreases if e >= 0 then e else -e
  {
    if e < -1 {
      Scale2Succ(x, e + 1);
    }
  }

  /** Scaling by the same power keeps the order. */
  lemma {:induction false} Scale2Less(x: real, y: real, e: int)
    requires x < y
    ensures Scale2(x, e) < Scale2(y, e)
    decreases if e >= 0 then e else -e
  {
    if e > 0 {
      Scale2Less(x, y, e - 1);
    } else if e < 0 {
      Scale2Less(x, y, e + 1);
    }
  }

  lemma {:induction false} Scale2Zero(e: int)
    ensures Scale2(0.0, e) == 0.0
    decreases if e >= 0 then e else -e
  {
    if e > 0 {
      Scale2Zero(e - 1);
    } else if e < 0 {
      Scale2Zero(e + 1);
    }
  }

  /** Scaling twice adds the exponents. */
  lemma {:induction false} Scale2Add(x: real, a: int, b: int)
    ensures Scale2(Scale2(x, a), b) == Scale2(x, a + b)
    decreases if b >= 0 then b else -b
  {
    if b > 0 {
      Scale2Add(x, a, b - 1);
      Scale2Succ(x, a + b - 1);
    } else if b < 0 {
      Scale2Add(x, a, b + 1);
      Scale2Succ(x, a + b);
    }
  }

  /** The integer form x * 2^-k is the real form with exponent -k. */
  lemma {:induction false} ScaledIsScale2(x: int, k: nat)
    ensures Scaled(x, k) == Scale2(x as real, -(k as int))
  {
    if k > 0 {
      ScaledIsScale2(x, k - 1);
      Scale2Succ(x as real, -(k as int));
    }
  }

  /** Scaling is multiplying by the power of two. */
  lemma {:induction false} Scale2IsProduct(x: real, e: int)
    ensures Scale2(x, e) == Pow2Real(e) * x
    decreases if e >= 0 then e else -e
  {
    if e > 0 {
      Scale2IsProduct(x, e - 1);
      assert Pow2Real(e) == 2.0 * Pow2Real(e - 1);
    } else if e < 0 {
      Scale2IsProduct(x, e + 1);
      ScaledIsScale2(1, -e);
      Scale2Succ(1.0, e);
      if e < -1 {
        ScaledIsScale2(1, -e - 1);
      }
      assert Pow2Real(e + 1) == 2.0 * Pow2Real(e);
    }
  }

  /** x * 2^-k reaches 1 exactly when x reaches 2^k. */
  lemma ScaledVsOne(x: int, k: nat)
    ensures Scaled(x, k) > 1.0 <==> x > Pow2(k)
    ensures Scaled(x, k) >= 1.0 <==> x >= Pow2(k)
    ensures Scaled(x, k) == 1.0 <==> x == Pow2(k)
  {
    ScaledLess(Pow2(k), x, k);
    ScaledLess(x, Pow2(k), k);
    ScaledPow2(k);
  }

  /** Below 2^(k+1), x * 2^-k stays below 2. */
  lemma ScaledBelowTwo(x: int, k: nat)
    requires x < Pow2(k + 1)
    ensures Scaled(x, k) < 2.0
  {
    ScaledLess(x, Pow2(k + 1), k);
    ScaledDouble(Pow2(k + 1), k);
    ScaledPow2(k);
    ScaledAdd(Pow2(k), Pow2(k), k);
  }

  lemma {:induction false} Pow2Add(a: nat, b: nat)
    ensures Pow2(a + b) == Pow2(a) * Pow2(b)
  {
    if a > 0 {
      Pow2Add(a - 1, b);
    }
  }

  lemma Pow2Byte(k: nat)
    ensures Pow2(k + 8) == 256 * Pow2(k)
  {
    Pow2Add(8, k);
    assert Pow2(8) == 256;
  }

  lemma Pow2Values()
    ensures Pow2(7) == 0x80 && Pow2(8) == 0x100 && Pow2(15) == 0x8000 && Pow2(16) == 0x1_0000
  {
    assert Pow2(7) == 0x80;
    assert Pow2(8) == 0x100;
    assert Pow2(15) == 0x80 * Pow2(8) by {
      Pow2Add(7, 8);
    }
    assert Pow2(16) == 2 * Pow2(15);
  }

  lemma Pow2Wide()
    ensures Pow2(23) == 0x80_0000 && Pow2(24) == 0x100_0000
    ensures Pow2(31) == 0x8000_0000 && Pow2(32) == 0x1_0000_0000
  {
    Pow2Values();
    Pow2Add(16, 7);
    Pow2Add(16, 8);
    Pow2Add(16, 15);
    Pow2Add(16, 16);
  }

  lemma MulAtLeast(d: int, m: int)
    requires d > 0 && m >= 1
    ensures d * m >= d
  {
  }

  lemma DivUnique(x: int, d: int, q: int, r: int)
    requires d > 0 && 0 <= r < d && x == d * q + r
    ensures x / d == q
  {
    var q', r' := x / d, x % d;
    assert x == d * q' + r';
    if q > q' {
      assert d * q - d * q' == d * (q - q');
      MulAtLeast(d, q - q');
    } else if q < q' {
      assert d * q' - d * q == d * (q' - q);
      MulAtLeast(d, q' - q);
    }
  }

  /** Dropping one more low bit: x / 2^(k+1) == (x / 2^k) / 2. */
  lemma DivPow2Succ(x: nat, k: nat)
    ensures x / Pow2(k + 1) == (x / Pow2(k)) / 2
  {
    var p := Pow2(k);
    var q, r := x / p, x % p;
    assert x == p * q + r;
    assert q == 2 * (q / 2) + q % 2;
    assert x == (2 * p) * (q / 2) + (p * (q % 2) + r);
    DivUnique(x, 2 * p, q / 2, p * (q % 2) + r);
  }

  /** A logical right shift, `x >> k`, by halving `k` times. */
  function Shr(x: nat, k: nat): nat
  {
    if k == 0 then x else Shr(x / 2, k - 1)
  }

  lemma {:induction false} ShrSucc(x: nat, k: nat)
    ensures Shr(x, k + 1) == Shr(x, k) / 2
  {
    if k > 0 {
      ShrSucc(x / 2, k - 1);
    }
  }

  /** Shifting by `k` is dividing by 2^k. */
  lemma {:induction false} ShrIsDiv(x: nat, k: nat)
    ensures Shr(x, k) == x / Pow2(k)
  {
    if k > 0 {
      ShrIsDiv(x, k - 1);
      ShrSucc(x, k - 1);
      DivPow2Succ(x, k - 1);
    }
  }

  /** Shifting out every bit leaves zero. */
  lemma {:induction false} ShrAll(x: nat, k: nat)
    requires x < Pow2(k)
    ensures Shr(x, k) == 0
  {
    if k > 0 {
      ShrAll(x / 2, k - 1);
    }
  }

  /** The unsigned big-endian value of `s`: the most significant byte first. */
  function BeUint(s: seq<Byte>): (r: nat)
    ensures r < Pow2(8 * |s|)
  {
    if |s| == 0 then 0
    else
      var r := BeUint(s[..|s| - 1]);
      Pow2Byte(8 * (|s| - 1));
      256 * r + s[|s| - 1]
  }

  lemma BeUintPair(s: seq<Byte>)
    requires |s| == 2
    ensures BeUint(s) == 256 * (s[0] as int) + s[1]
  {
    assert s[..1][..0] == [];
  }

  lemma BeUintTriple(s: seq<Byte>)
    requires |s| == 3
    ensures BeUint(s) == 0x1_0000 * (s[0] as int) + 0x100 * (s[1] as int) + s[2]
  {
    BeUintPair(s[..2]);
    assert s[..2] == s[..|s| - 1];
  }

  lemma BeUintQuad(s: seq<Byte>)
    requires |s| == 4
    ensures BeUint(s) == 0x100_0000 * (s[0] as int) + 0x1_0000 * (s[1] as int) + 0x100 * (s[2] as int) + s[3]
  {
    BeUintTriple(s[..3]);
    assert s[..3] == s[..|s| - 1];
  }

  /** The `k` low-order bytes of `n`, most significant first. */
  function BeBytes(n: nat, k: nat): (s: seq<Byte>)
    ensures |s| == k
  {
    if k == 0 then [] else BeBytes(n / 256, k - 1) + [n % 256]
  }

  lemma BeUintSnoc(s: seq<Byte>, x: Byte)
    ensures BeUint(s + [x]) == 256 * BeUint(s) + x
  {
    assert (s + [x])[..|s|] == s;
  }

  /** Encoding then decoding gives the number back. */
  lemma QuotientBound(n: nat, k: nat)
    requires k > 0 && n < Pow2(8 * k)
    ensures n / 256 < Pow2(8 * (k - 1))
  {
    Pow2Byte(8 * (k - 1));
    assert 8 * (k - 1) + 8 == 8 * k;
  }

  lemma BeBytesSnoc(n: nat, k: nat)
    requires k > 0
    ensures BeUint(BeBytes(n, k)) == 256 * BeUint(BeBytes(n / 256, k - 1)) + n % 256
  {
    BeUintSnoc(BeBytes(n / 256, k - 1), n % 256);
  }

  lemma {:induction false} BeUintOfBeBytes(n: nat, k: nat)
    requires n < Pow2(8 * k)
    ensures BeUint(BeBytes(n, k)) == n
  {
    if k > 0 {
      QuotientBound(n, k);
      BeUintOfBeBytes(n / 256, k - 1);
      BeBytesSnoc(n, k);
    }
  }

  /** Decoding then encoding at the same width gives the bytes back. */
  lemma {:induction false} BeBytesOfBeUint(s: seq<Byte>)
    ensures BeBytes(BeUint(s), |s|) == s
  {
    if |s| > 0 {
      var init := s[..|s| - 1];
      var n := BeUint(s);
      assert n / 256 == BeUint(init) && n % 256 == s[|s| - 1];
      BeBytesOfBeUint(init);
      assert init + [s[|s| - 1]] == s;
    }
  }

  lemma ConsArith(a: int, p: int, low: int, last: int, total: int, tail: int)
    requires total == 256 * (a * p + low) + last && tail == 256 * low + last
    ensures total == a * (256 * p) + tail
  {
    assert 256 * (a * p) == a * (256 * p);
  }

  /** Splitting off the leading (most significant) byte. */
  lemma {:induction false} BeUintCons(s: seq<Byte>)
    requires |s| > 0
    ensures BeUint(s) == s[0] * Pow2(8 * (|s| - 1)) + BeUint(s[1..])
  {
    if |s| > 1 {
      var n := |s|;
      var init, tail := s[..n - 1], s[1..];
      var k := 8 * (n - 2);
      BeUintCons(init);
      assert init[1..] == tail[..n - 2];
      assert BeUint(tail) == 256 * BeUint(init[1..]) + s[n - 1];
      assert BeUint(s) == 256 * BeUint(init) + s[n - 1];
      Pow2Byte(k);
      ConsArith(s[0], Pow2(k), BeUint(init[1..]), s[n - 1], BeUint(s), BeUint(tail));
    }
  }

  /** A run of zero bytes reads as 0. */
  lemma {:induction false} BeUintZeros(s: seq<Byte>)
    requires forall i | 0 <= i < |s| :: s[i] == 0
    ensures BeUint(s) == 0
  {
    if |s| > 0 {
      BeUintZeros(s[..|s| - 1]);
    }
  }

  /** A byte followed by zero bytes reads as that byte times a power of 256. */
  lemma LeadingByteOnly(s: seq<Byte>)
    requires |s| > 0 && forall i | 1 <= i < |s| :: s[i] == 0
    ensures BeUint(s) == s[0] * Pow2(8 * (|s| - 1))
  {
    BeUintCons(s);
    BeUintZeros(s[1..]);
  }

  /** Two's complement reading of an unsigned `bits`-wide value (Rust `as iN`). */
  function ToSigned(u: nat, bits: nat): (v: int)
    requires 1 <= bits && u < Pow2(bits)
    ensures -(Pow2(bits - 1) as int) <= v < Pow2(bits - 1)
    ensures v < 0 <==> u >= Pow2(bits - 1)
  {
    if u >= Pow2(bits - 1) then u - Pow2(bits) else u
  }

  /** The signed big-endian value of `s` (Rust `iN::from_be_bytes`). */
  function BeInt(s: seq<Byte>): (v: int)
    requires |s| > 0
  {
    ToSigned(BeUint(s), 8 * |s|)
  }

  lemma LeadingByteBound(a: Byte, p: nat, low: nat)
    requires p > 0 && low < p
    ensures a * p + low >= 128 * p <==> a >= 128
  {
    if a >= 128 {
      assert a * p >= 128 * p;
    } else {
      assert a * p <= 127 * p;
    }
  }

  /** A signed big-endian value is negative exactly when the top bit of its
      first byte is set, and it lies in the range of its width. */
  lemma BeIntSign(s: seq<Byte>)
    requires |s| > 0
    ensures BeInt(s) < 0 <==> s[0] >= 0x80
    ensures -(Pow2(8 * |s| - 1) as int) <= BeInt(s) < Pow2(8 * |s| - 1)
  {
    var k := 8 * (|s| - 1);
    var u, low, half := BeUint(s), BeUint(s[1..]), Pow2(8 * |s| - 1);
    BeUintCons(s);
    assert u == s[0] * Pow2(k) + low;
    assert half == 128 * Pow2(k) by {
      Pow2Add(7, k);
      Pow2Values();
    }
    LeadingByteBound(s[0], Pow2(k), low);
    assert BeInt(s) < 0 <==> u >= half;
  }

  /** The signed value is the unsigned one, less 2^width when the top bit
      is set. */
  lemma BeIntValue(s: seq<Byte>)
    requires |s| > 0
    ensures BeInt(s) == BeUint(s) - (if s[0] >= 0x80 then Pow2(8 * |s|) else 0)
  {
    BeIntSign(s);
  }

  /** The `width`-byte two's complement encoding of `v`. */
  function EncodeSigned(v: int, width: nat): (s: seq<Byte>)
    requires width > 0 && -(Pow2(8 * width - 1) as int) <= v < Pow2(8 * width - 1)
    ensures |s| == width
  {
    BeBytes(if v < 0 then v + Pow2(8 * width) else v, width)
  }

  /** Reading the encoding back as a signed big-endian number gives `v`. */
  lemma SignedRoundTrip(v: int, width: nat)
    requires width > 0 && -(Pow2(8 * width - 1) as int) <= v < Pow2(8 * width - 1)
    ensures BeInt(EncodeSigned(v, width)) == v
  {
    var bits := 8 * width;
    assert Pow2(bits) == 2 * Pow2(bits - 1);
    var u := if v < 0 then v + Pow2(bits) else v;
    BeUintOfBeBytes(u, width);
  }
}
