/** PCM sample decoding of src/samples.rs: reading the sound data bytes as
    big-endian two's complement integers of 8, 16, 24 or 32 bits, and the
    three iterators that walk the sound data. */
module Samples {
  import opened Base

  /** Rust `i16`, the type of the `bit_width` argument. */
  type I16 = x: int | -0x8000 <= x < 0x8000

  /** Why `parse` panics instead of returning a sample. */
  datatype SampleHalt =
    | Unimplemented    // `unimplemented!` for an unsupported width
    | InvalidWidth     // `panic!` for a width the type cannot hold
    | IndexOutOfRange  // `data[pos + i]` past the end

  datatype Parsed = Sample(value: int) | Halted(why: SampleHalt)

  // ---------------------------------------------------------------------
  // SampleType::parse

  /** `i8::parse`: widths below 8 are unimplemented, above 8 a panic;
      otherwise the byte at `pos` as two's complement. */
  function ParseI8(data: seq<Byte>, pos: nat, bitWidth: I16): (r: Parsed)
    ensures r.Sample? <==> bitWidth == 8 && pos < |data|
    ensures r.Sample? ==> r.value == if data[pos] < 0x80 then data[pos] as int else data[pos] as int - 0x100
    ensures bitWidth < 8 ==> r == Halted(Unimplemented)
    ensures bitWidth > 8 ==> r == Halted(InvalidWidth)
    ensures bitWidth == 8 && pos >= |data| ==> r == Halted(IndexOutOfRange)
  {
    if bitWidth < 8 then Halted(Unimplemented)
    else if bitWidth > 8 then Halted(InvalidWidth)
    else if pos < |data| then Sample(I8At(data, pos))
    else Halted(IndexOutOfRange)
  }

  /** `i16::parse`: widths below 16 are unimplemented, above 16 a panic;
      otherwise the big-endian i16 at `pos`. */
  function ParseI16(data: seq<Byte>, pos: nat, bitWidth: I16): (r: Parsed)
    ensures r.Sample? <==> bitWidth == 16 && pos + 2 <= |data|
    ensures r.Sample? ==>
              r.value == 0x100 * (data[pos] as int) + data[pos + 1] - (if data[pos] >= 0x80 then 0x1_0000 else 0)
    ensures bitWidth < 16 ==> r == Halted(Unimplemented)
    ensures bitWidth > 16 ==> r == Halted(InvalidWidth)
    ensures bitWidth == 16 && pos + 2 > |data| ==> r == Halted(IndexOutOfRange)
  {
    if bitWidth < 16 then Halted(Unimplemented)
    else if bitWidth > 16 then Halted(InvalidWidth)
    else if pos + 2 <= |data| then Sample(I16At(data, pos))
    else Halted(IndexOutOfRange)
  }

  /** `i32::parse`: width 32 reads a big-endian i32; width 24 reads three
      bytes behind a 0x00 high byte, so the value is never negative;
      widths up to 16 panic and the others are unimplemented. */
  function ParseI32(data: seq<Byte>, pos: nat, bitWidth: I16): (r: Parsed)
    ensures bitWidth == 32 ==> (r.Sample? <==> pos + 4 <= |data|)
    ensures bitWidth == 32 && r.Sample? ==> r.value == Signed32(data[pos..pos + 4])
    ensures bitWidth == 24 ==> (r.Sample? <==> pos + 3 <= |data|)
    ensures bitWidth == 24 && r.Sample? ==>
              r.value == 0x1_0000 * (data[pos] as int) + 0x100 * (data[pos + 1] as int) + data[pos + 2]
              && 0 <= r.value < 0x100_0000
    ensures bitWidth != 32 && bitWidth != 24 ==>
              r == Halted(if bitWidth <= 16 then InvalidWidth else Unimplemented)
    ensures (bitWidth == 32 && pos + 4 > |data|) || (bitWidth == 24 && pos + 3 > |data|) ==>
              r == Halted(IndexOutOfRange)
  {
    if bitWidth == 32 then
      if pos + 4 <= |data| then
        Sample(I32At(data, pos))
      else Halted(IndexOutOfRange)
    else if bitWidth == 24 then
      if pos + 3 <= |data| then Sample(ZeroExtended24At(data, pos))
      else Halted(IndexOutOfRange)
    else if bitWidth <= 16 then Halted(InvalidWidth)
    else Halted(Unimplemented)
  }

  /** `i8::from_be_bytes` of the byte at `pos`. */
  function I8At(data: seq<Byte>, pos: nat): (v: int)
    requires pos < |data|
    ensures v == if data[pos] < 0x80 then data[pos] as int else data[pos] as int - 0x100
  {
    var s := data[pos..pos + 1];
    BeIntValue(s);
    Pow2Values();
    BeInt(s)
  }

  /** `i16::from_be_bytes` of the two bytes at `pos`. */
  function I16At(data: seq<Byte>, pos: nat): (v: int)
    requires pos + 2 <= |data|
    ensures v == 0x100 * (data[pos] as int) + data[pos + 1] - (if data[pos] >= 0x80 then 0x1_0000 else 0)
  {
    var s := data[pos..pos + 2];
    BeIntValue(s);
    BeUintPair(s);
    Pow2Values();
    BeInt(s)
  }

  /** `i32::from_be_bytes([0x0, data[pos], data[pos + 1], data[pos + 2]])`. */
  function ZeroExtended24At(data: seq<Byte>, pos: nat): (v: int)
    requires pos + 3 <= |data|
    ensures v == 0x1_0000 * (data[pos] as int) + 0x100 * (data[pos + 1] as int) + data[pos + 2]
    ensures 0 <= v < 0x100_0000
  {
    var s := [0] + data[pos..pos + 3];
    BeIntValue(s);
    BeUintQuad(s);
    BeInt(s)
  }

  /** Four bytes as a 32-bit two's complement number, written out digit by
      digit (the reference for `i32::from_be_bytes`). */
  function Signed32(s: seq<Byte>): int
    requires |s| == 4
  {
    0x100_0000 * (s[0] as int) + 0x1_0000 * (s[1] as int) + 0x100 * (s[2] as int) + s[3]
    - (if s[0] >= 0x80 then 0x1_0000_0000 else 0)
  }

  /** `i32::from_be_bytes` of the four bytes at `pos`. */
  function I32At(data: seq<Byte>, pos: nat): (v: int)
    requires pos + 4 <= |data|
    ensures v == Signed32(data[pos..pos + 4])
    ensures -0x8000_0000 <= v < 0x8000_0000
  {
    var s := data[pos..pos + 4];
    BeIntValue(s);
    BeIntSign(s);
    BeUintQuad(s);
    Pow2Wide();
    BeInt(s)
  }

  // ---------------------------------------------------------------------
  // The iterators

  /** The outcome of one `next` call. */
  datatype Step =
    | Exhausted          // `None`
    | Yielded(value: int)
    | OutOfBounds        // the index panic of `Samples32::next`

  /** What `Samples8::next` returns at `point`: the byte at point * 4,
      once point * 4 + 2 bytes are present. */
  function Step8(data: seq<Byte>, point: nat): (r: Step)
    ensures r != OutOfBounds
    ensures r.Yielded? <==> 4 * point + 2 <= |data|
    ensures r.Yielded? ==> r.value == ParseI8(data, 4 * point, 8).value
  {
    if 4 * point + 2 > |data| then Exhausted
    else Yielded(I8At(data, 4 * point))
  }

  /** What `Samples16::next` returns at `point`: the i16 at point * 4. */
  function Step16(data: seq<Byte>, point: nat): (r: Step)
    ensures r != OutOfBounds
    ensures r.Yielded? <==> 4 * point + 2 <= |data|
    ensures r.Yielded? ==> r.value == ParseI16(data, 4 * point, 16).value
  {
    if 4 * point + 2 > |data| then Exhausted
    else Yielded(I16At(data, 4 * point))
  }

  /** What `Samples32::next` returns at `point`: the guard asks for only
      point * 4 + 3 bytes, so with exactly that many the fourth index is
      out of range. */
  function Step32(data: seq<Byte>, point: nat): (r: Step)
    ensures r == OutOfBounds <==> |data| == 4 * point + 3
    ensures r.Yielded? <==> 4 * point + 4 <= |data|
    ensures r.Yielded? ==> r.value == ParseI32(data, 4 * point, 32).value
  {
    if 4 * point + 3 > |data| then Exhausted
    else if 4 * point + 3 < |data| then Yielded(I32At(data, 4 * point))
    else OutOfBounds
  }

  class Samples8 {
    var point: nat
    const soundData: seq<Byte>

    /** `Iterator::next`: the step at `point`, which moves on by one
        exactly when a sample is returned. */
    method Next() returns (r: Option<int>)
      modifies this
      ensures Step8(soundData, old(point)).Yielded? ==>
                r == Some(Step8(soundData, old(point)).value) && point == old(point) + 1
      ensures Step8(soundData, old(point)) == Exhausted ==> r == None && point == old(point)
    {
      var target := point * 4;
      if target + 2 > |soundData| {
        return None;
      }
      point := point + 1;
      r := Some(I8At(soundData, target));
    }
  }

  class Samples16 {
    var point: nat
    const soundData: seq<Byte>

    method Next() returns (r: Option<int>)
      modifies this
      ensures Step16(soundData, old(point)).Yielded? ==>
                r == Some(Step16(soundData, old(point)).value) && point == old(point) + 1
      ensures Step16(soundData, old(point)) == Exhausted ==> r == None && point == old(point)
    {
      var target := point * 4;
      if target + 2 > |soundData| {
        return None;
      }
      point := point + 1;
      r := Some(I16At(soundData, target));
    }
  }

  class Samples32 {
    var point: nat
    const soundData: seq<Byte>

    /** `Samples32::new`: the iterator starts at point 0. */
    constructor New(soundData: seq<Byte>)
      ensures this.soundData == soundData && point == 0
    {
      this.soundData := soundData;
      point := 0;
    }

    /** `Iterator::next`; `OutOfBounds` is the index panic, after `point`
        has already been incremented. */
    method Next() returns (r: Step)
      modifies this
      ensures r == Step32(soundData, old(point))
      ensures point == if r == Exhausted then old(point) else old(point) + 1
    {
      var target := point * 4;
      if target + 3 > |soundData| {
        return Exhausted;
      }
      point := point + 1;
      if target + 3 < |soundData| {
        r := Yielded(I32At(soundData, target));
      } else {
        r := OutOfBounds;
      }
    }
  }

  // ---------------------------------------------------------------------
  // Everything an iterator yields

  /** The samples `Samples8` yields from `point` until it returns `None`. */
  function Yield8(data: seq<Byte>, point: nat): seq<int>
    decreases |data| + 2 - 4 * point
  {
    if Step8(data, point).Yielded? then [Step8(data, point).value] + Yield8(data, point + 1) else []
  }

  function Yield16(data: seq<Byte>, point: nat): seq<int>
    decreases |data| + 2 - 4 * point
  {
    if Step16(data, point).Yielded? then [Step16(data, point).value] + Yield16(data, point + 1) else []
  }

  /** From `point`, `Samples8` yields one sample per 4 bytes: the byte at
      4 * (point + i) for each i, and (|data| + 2) / 4 - point of them. */
  lemma {:induction false} Yield8Contents(data: seq<Byte>, point: nat)
    ensures |Yield8(data, point)| == if 4 * point + 2 <= |data| then (|data| + 2) / 4 - point else 0
    ensures forall i | 0 <= i < |Yield8(data, point)| ::
              Yield8(data, point)[i] == Step8(data, point + i).value
    decreases |data| + 2 - 4 * point
  {
    if 4 * point + 2 <= |data| {
      Yield8Contents(data, point + 1);
      var ys, rest := Yield8(data, point), Yield8(data, point + 1);
      assert ys == [Step8(data, point).value] + rest;
      forall i | 0 <= i < |ys|
        ensures ys[i] == Step8(data, point + i).value
      {
        if i > 0 {
          assert ys[i] == rest[i - 1];
          assert point + 1 + (i - 1) == point + i;
        }
      }
    }
  }

  /** From `point`, `Samples16` yields the i16 at 4 * (point + i) for each i:
      every other 16-bit sample. */
  lemma {:induction false} Yield16Contents(data: seq<Byte>, point: nat)
    ensures |Yield16(data, point)| == if 4 * point + 2 <= |data| then (|data| + 2) / 4 - point else 0
    ensures forall i | 0 <= i < |Yield16(data, point)| ::
              Yield16(data, point)[i] == Step16(data, point + i).value
    decreases |data| + 2 - 4 * point
  {
    if 4 * point + 2 <= |data| {
      Yield16Contents(data, point + 1);
      var ys, rest := Yield16(data, point), Yield16(data, point + 1);
      assert ys == [Step16(data, point).value] + rest;
      forall i | 0 <= i < |ys|
        ensures ys[i] == Step16(data, point + i).value
      {
        if i > 0 {
          assert ys[i] == rest[i - 1];
          assert point + 1 + (i - 1) == point + i;
        }
      }
    }
  }

  // ---------------------------------------------------------------------
  // Consecutive samples of one width, and their encoding

  /** Every sample of one width, one after another from the first byte:
      what a reader that steps by the sample width decodes. */
  function Frames(data: seq<Byte>, width: nat): seq<int>
    requires width > 0
    decreases |data|
  {
    if |data| < width then [] else [BeInt(data[..width])] + Frames(data[width..], width)
  }

  function EncodeFrames(xs: seq<int>, width: nat): (s: seq<Byte>)
    requires width > 0
    requires forall i | 0 <= i < |xs| :: -(Pow2(8 * width - 1) as int) <= xs[i] < Pow2(8 * width - 1)
    ensures |s| == width * |xs|
  {
    if xs == [] then [] else EncodeSigned(xs[0], width) + EncodeFrames(xs[1..], width)
  }

  /** Decoding consecutive frames inverts encoding them. */
  lemma {:induction false} FramesOfEncode(xs: seq<int>, width: nat)
    requires width > 0
    requires forall i | 0 <= i < |xs| :: -(Pow2(8 * width - 1) as int) <= xs[i] < Pow2(8 * width - 1)
    ensures Frames(EncodeFrames(xs, width), width) == xs
  {
    if xs != [] {
      var head, tail := EncodeSigned(xs[0], width), EncodeFrames(xs[1..], width);
      var s := head + tail;
      assert s[..width] == head && s[width..] == tail;
      SignedRoundTrip(xs[0], width);
      FramesOfEncode(xs[1..], width);
      assert xs == [xs[0]] + xs[1..];
    }
  }

  // ---------------------------------------------------------------------
  // The stride of Samples8 and Samples16

  /** `Samples16` steps four bytes at a time, so of two 16-bit samples 1
      and 2 it yields only the first; a reader stepping by the sample
      width yields both. */
  lemma Samples16SkipsSamples()
    ensures Yield16([0, 1, 0, 2], 0) == [1]
    ensures Frames([0, 1, 0, 2], 2) == [1, 2]
  {
    var d: seq<Byte> := [0, 1, 0, 2];
    assert Step16(d, 1) == Exhausted;
    assert Step16(d, 0) == Yielded(1);
    var first, second := d[..2], d[2..][..2];
    assert first == [0, 1] && second == [0, 2] && d[2..][2..] == [];
    BeIntValue(first);
    BeUintPair(first);
    BeIntValue(second);
    BeUintPair(second);
  }

  /** `Samples8` likewise yields only the first of two 8-bit samples. */
  lemma Samples8SkipsSamples()
    ensures Yield8([1, 2], 0) == [1]
    ensures Frames([1, 2], 1) == [1, 2]
  {
    var d: seq<Byte> := [1, 2];
    assert Step8(d, 1) == Exhausted;
    assert Step8(d, 0) == Yielded(1);
    var first, second := d[..1], d[1..][..1];
    assert first == [1] && second == [2] && d[1..][1..] == [];
    BeIntValue(first);
    BeIntValue(second);
    assert BeUint(first) == 1 && BeUint(second) == 2 by {
      assert first[..0] == [] && second[..0] == [];
    }
  }

  // ---------------------------------------------------------------------
  // The bounds guard of Samples32::next

  /** Three bytes pass the guard `target + 3 > len`, and the read of
      index 3 is out of range. */
  lemma Samples32ShortFramePanics()
    ensures Step32([1, 2, 3], 0) == OutOfBounds
  {
  }

  /** `Samples32::next` with the guard `target + 4 > len`. */
  function Step32Corrected(data: seq<Byte>, point: nat): (r: Step)
    ensures r != OutOfBounds
    ensures r.Yielded? <==> 4 * point + 4 <= |data|
    ensures r.Yielded? ==> r.value == ParseI32(data, 4 * point, 32).value
  {
    if 4 * point + 4 > |data| then Exhausted else Yielded(I32At(data, 4 * point))
  }

  function Yield32Corrected(data: seq<Byte>, point: nat): seq<int>
    decreases |data| + 4 - 4 * point
  {
    if Step32Corrected(data, point).Yielded? then
      [Step32Corrected(data, point).value] + Yield32Corrected(data, point + 1)
    else []
  }

  /** With the corrected guard the iterator yields every 32-bit sample,
      in order, and never reads out of range. */
  lemma {:induction false} Yield32CorrectedFrames(data: seq<Byte>, point: nat)
    requires 4 * point <= |data|
    ensures Yield32Corrected(data, point) == Frames(data[4 * point..], 4)
    decreases |data| - 4 * point
  {
    var rest := data[4 * point..];
    if 4 * point + 4 <= |data| {
      Yield32CorrectedFrames(data, point + 1);
      assert rest[..4] == data[4 * point..4 * point + 4];
      assert rest[4..] == data[4 * (point + 1)..];
      BeIntValue(rest[..4]);
      BeUintQuad(rest[..4]);
      Pow2Wide();
    }
  }

  /** So the corrected iterator decodes what was encoded. */
  lemma Samples32CorrectedRoundTrip(xs: seq<int>)
    requires forall i | 0 <= i < |xs| :: -(Pow2(31) as int) <= xs[i] < Pow2(31)
    ensures Yield32Corrected(EncodeFrames(xs, 4), 0) == xs
  {
    var data := EncodeFrames(xs, 4);
    Yield32CorrectedFrames(data, 0);
    assert data[4 * 0..] == data;
    FramesOfEncode(xs, 4);
  }

  // ---------------------------------------------------------------------
  // The 24-bit width

  /** `i32::parse` reads a 24-bit sample with 0x00 as its high byte, so
      the sample encoded as FF 00 00, which is -65536, reads as 0xFF0000. */
  lemma Width24ZeroExtends()
    ensures Pow2(23) == 0x80_0000 && EncodeSigned(-0x1_0000, 3) == [0xFF, 0, 0]
    ensures ParseI32([0xFF, 0, 0], 0, 24) == Sample(0xFF_0000)
  {
    Pow2Wide();
    assert 8 * 3 - 1 == 23 && 8 * 3 == 24;
    assert -0x1_0000 + Pow2(24) == 0xFF_0000;
    assert EncodeSigned(-0x1_0000, 3) == BeBytes(0xFF_0000, 3);
    assert BeBytes(0xFF, 1) == [0xFF];
    assert BeBytes(0xFF00, 2) == [0xFF, 0];
    assert BeBytes(0xFF_0000, 3) == [0xFF, 0, 0];
  }

  /** `i32::parse` with the 24-bit branch sign-extending. */
  function ParseI32SignExtended(data: seq<Byte>, pos: nat, bitWidth: I16): (r: Parsed)
    ensures bitWidth != 24 ==> r == ParseI32(data, pos, bitWidth)
    ensures bitWidth == 24 ==> (r.Sample? <==> pos + 3 <= |data|)
    ensures bitWidth == 24 && r.Sample? ==> -0x80_0000 <= r.value < 0x80_0000
  {
    if bitWidth == 24 then
      if pos + 3 <= |data| then
        var s := data[pos..pos + 3];
        BeIntSign(s);
        Pow2Wide();
        Sample(BeInt(s))
      else Halted(IndexOutOfRange)
    else ParseI32(data, pos, bitWidth)
  }

  /** Every 24-bit sample survives encoding and the corrected parse. */
  lemma Width24RoundTrip(v: int)
    requires -(Pow2(23) as int) <= v < Pow2(23)
    ensures ParseI32SignExtended(EncodeSigned(v, 3), 0, 24) == Sample(v)
  {
    Pow2Wide();
    var s := EncodeSigned(v, 3);
    assert s[0..3] == s;
    SignedRoundTrip(v, 3);
  }
}
