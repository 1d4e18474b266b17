/** The chunk parsers of src/chunks.rs, the latest snapshot: each `build`
    is handed the four id bytes the caller already read and parses the
    rest of its chunk from the byte cursor.  Each builder is a method on
    the cursor, specified by a function on the bytes and the starting
    position that gives the outcome and the position after it. */
module Chunks {
  import opened Base
  import opened Ids
  import opened Cursors
  import opened Extended

  datatype ChunkError =
    | InvalidID(id: Id)
    | InvalidFormType(formType: Id)
    | InvalidID3Version(version: seq<Byte>)

  type Outcome<T> = Built<T, ChunkError>

  /** The Common chunk: sizes are Rust i32/i16/u32 and the sample rate the
      exact value of the 80-bit field. */
  datatype CommonChunk = CommonChunk(
    size: int,
    numChannels: int,
    numSampleFrames: nat,
    bitRate: int,
    sampleRate: real)

  datatype SoundDataChunk = SoundDataChunk(size: int, offset: nat, blockSize: nat, soundData: seq<Byte>)

  datatype TextChunkType = Name | Author | Copyright | Annotation

  /** Text is kept as the raw bytes (the UTF-8 check is not modelled). */
  datatype TextChunk = TextChunk(chunkType: TextChunkType, size: int, text: seq<Byte>)

  datatype ID3v2Chunk = ID3v2Chunk(version: seq<Byte>)

  /** The `Box<dyn Chunk>` values a form can hold. */
  datatype AnyChunk =
    | CommonItem(common: CommonChunk)
    | SoundItem(sound: SoundDataChunk)
    | TextItem(text: TextChunk)
    | ID3v2Item(id3: ID3v2Chunk)

  /** The FORM container: its size, the Common and Sound Data slots, and the
      other chunks in the order they were added. */
  class FormChunk {
    var size: int
    var common: Option<CommonChunk>
    var sound: Option<SoundDataChunk>
    var chunks: seq<AnyChunk>

    constructor (size: int)
      ensures this.size == size && common == None && sound == None && chunks == []
    {
      this.size := size;
      common := None;
      sound := None;
      chunks := [];
    }

    /** The getters hand out the slots themselves and change nothing. */
    function Common(): (c: Option<CommonChunk>)
      reads this
      ensures c == common
    {
      common
    }

    function Sound(): (s: Option<SoundDataChunk>)
      reads this
      ensures s == sound
    {
      sound
    }

    function Chunks(): (cs: seq<AnyChunk>)
      reads this
      ensures cs == chunks
    {
      chunks
    }

    /** Fills (or replaces) the Common slot and nothing else. */
    method SetCommon(chunk: CommonChunk)
      modifies this
      ensures common == Some(chunk)
      ensures size == old(size) && sound == old(sound) && chunks == old(chunks)
    {
      common := Some(chunk);
    }

    method SetSound(chunk: SoundDataChunk)
      modifies this
      ensures sound == Some(chunk)
      ensures size == old(size) && common == old(common) && chunks == old(chunks)
    {
      sound := Some(chunk);
    }

    /** Appends at the end, keeping the earlier chunks and both slots. */
    method AddChunk(chunk: AnyChunk)
      modifies this
      ensures chunks == old(chunks) + [chunk]
      ensures size == old(size) && common == old(common) && sound == old(sound)
    {
      chunks := chunks + [chunk];
    }
  }

  // ---------------------------------------------------------------------
  // FormChunk::build

  /** The bytes after "FORM": a big-endian i32 size and a form type. */
  function FormSpec(data: seq<Byte>, pos: nat, id: Id): (p: Parse<int, ChunkError>)
    ensures id != FORM ==> p == Parse(Err(InvalidID(id)), pos)
    ensures id == FORM ==> (p.result.Halted? <==> pos + 8 > |data|)
    ensures id == FORM && !p.result.Halted? ==> p.next == pos + 8
    ensures p.result.Ok? <==> id == FORM && pos + 8 <= |data| && data[pos + 4..pos + 8] == AIFF
    ensures p.result.Ok? ==> -0x8000_0000 <= p.result.value < 0x8000_0000
  {
    if id != FORM then Parse(Err(InvalidID(id)), pos)
    else if pos + 8 > |data| then Parse(Halted(ShortRead), pos)
    else
      var size := I32(data[pos..pos + 4]);
      var formType: Id := data[pos + 4..pos + 8];
      if formType == AIFF then Parse(Ok(size), pos + 8)
      else if formType == AIFF_C then Parse(Err(InvalidFormType(formType)), pos + 8)
      else Parse(Err(InvalidFormType(formType)), pos + 8)
  }

  /** Rust `i32::from_be_bytes`. */
  function I32(s: seq<Byte>): (v: int)
    requires |s| == 4
    ensures -0x8000_0000 <= v < 0x8000_0000
  {
    BeIntSign(s);
    Pow2Wide();
    BeInt(s)
  }

  method BuildForm(buf: Cursor, id: Id) returns (r: Outcome<FormChunk>)
    modifies buf
    ensures SameOutcome(r, FormSpec(buf.data, old(buf.pos), id).result)
    ensures !r.Halted? ==> buf.pos == FormSpec(buf.data, old(buf.pos), id).next
    ensures r.Ok? ==> fresh(r.value) && r.value.size == FormSpec(buf.data, old(buf.pos), id).result.value
    ensures r.Ok? ==> r.value.common == None && r.value.sound == None && r.value.chunks == []
  {
    if id != FORM {
      return Err(InvalidID(id));
    }
    var size := buf.ReadIntBe(4);
    if size.None? {
      return Halted(ShortRead);
    }
    var formType := buf.ReadExact(4);
    if formType.None? {
      return Halted(ShortRead);
    }
    var t: Id := formType.value;
    if t == AIFF {
      var form := new FormChunk(size.value);
      r := Ok(form);
    } else if t == AIFF_C {
      r := Err(InvalidFormType(t));
    } else {
      r := Err(InvalidFormType(t));
    }
  }

  // ---------------------------------------------------------------------
  // CommonChunk::build

  /** The 22 bytes after "COMM": i32 size, i16 channels, u32 frames, i16
      sample size, then the 80-bit rate, decoded as src/extended.rs does. */
  function CommonSpec(data: seq<Byte>, pos: nat, id: Id): (p: Parse<CommonChunk, ChunkError>)
    ensures id != COMMON ==> p == Parse(Err(InvalidID(id)), pos)
    ensures id == COMMON ==> !p.result.Err?
    ensures id == COMMON && pos + 22 > |data| ==> p.result == Halted(ShortRead)
    ensures p.result.Ok? ==> p.next == pos + 22
    ensures p.result.Ok? <==>
              id == COMMON && pos + 22 <= |data| && DecodeExtended(data[pos + 12..pos + 22]).Rate?
  {
    if id != COMMON then Parse(Err(InvalidID(id)), pos)
    else if pos + 22 > |data| then Parse(Halted(ShortRead), pos)
    else
      var rate := DecodeExtended(data[pos + 12..pos + 22]);
      if rate.Rate? then
        Parse(Ok(CommonChunk(I32(data[pos..pos + 4]), BeInt(data[pos + 4..pos + 6]),
                             BeUint(data[pos + 6..pos + 10]), BeInt(data[pos + 10..pos + 12]), rate.value)),
              pos + 22)
      else Parse(Halted(UnsupportedRate), pos + 22)
  }

  method BuildCommon(buf: Cursor, id: Id) returns (r: Outcome<CommonChunk>)
    modifies buf
    ensures r == CommonSpec(buf.data, old(buf.pos), id).result
    ensures !r.Halted? ==> buf.pos == CommonSpec(buf.data, old(buf.pos), id).next
  {
    if id != COMMON {
      return Err(InvalidID(id));
    }
    var size := buf.ReadIntBe(4);
    var numChannels := buf.ReadIntBe(2);
    var numSampleFrames := buf.ReadUintBe(4);
    var bitRate := buf.ReadIntBe(2);
    if size.None? || numChannels.None? || numSampleFrames.None? || bitRate.None? {
      return Halted(ShortRead);
    }
    var rateBuf := buf.ReadExact(10);
    if rateBuf.None? {
      return Halted(ShortRead);
    }
    var sampleRate := ParseExtendedPrecisionBytes(rateBuf.value);
    if !sampleRate.Rate? {
      return Halted(UnsupportedRate);
    }
    r := Ok(CommonChunk(size.value, numChannels.value, numSampleFrames.value, bitRate.value, sampleRate.value));
  }

  // ---------------------------------------------------------------------
  // SoundDataChunk::build

  /** The bytes after "SSND": i32 size, u32 offset, u32 block size, then
      `size as usize` bytes of sound data; a negative size wraps to a
      length no `Vec` can have. */
  function SoundSpec(data: seq<Byte>, pos: nat, id: Id): (p: Parse<SoundDataChunk, ChunkError>)
    ensures id != SOUND ==> p == Parse(Err(InvalidID(id)), pos)
    ensures id == SOUND ==> !p.result.Err?
    ensures p.result.Ok? ==>
              && id == SOUND && pos + 12 <= |data|
              && p.result.value.size >= 0
              && p.next == pos + 12 + p.result.value.size <= |data|
              && p.result.value.soundData == data[pos + 12..p.next]
    ensures id == SOUND && pos + 12 <= |data| && I32(data[pos..pos + 4]) < 0 ==>
              p.result == Halted(CapacityOverflow)
  {
    if id != SOUND then Parse(Err(InvalidID(id)), pos)
    else if pos + 12 > |data| then Parse(Halted(ShortRead), pos)
    else
      var size := I32(data[pos..pos + 4]);
      var n := AsUsize(size);
      if n > ISIZE_MAX then Parse(Halted(CapacityOverflow), pos + 12)
      else if pos + 12 + n > |data| then Parse(Halted(ShortRead), pos + 12)
      else
        Parse(Ok(SoundDataChunk(size, BeUint(data[pos + 4..pos + 8]), BeUint(data[pos + 8..pos + 12]),
                                data[pos + 12..pos + 12 + n])),
              pos + 12 + n)
  }

  /** `vec![0; size as usize]` followed by `read_exact` into it. */
  method ReadSized(buf: Cursor, size: int) returns (r: Built<seq<Byte>, ChunkError>)
    requires -0x8000_0000 <= size < 0x8000_0000
    modifies buf
    ensures AsUsize(size) > ISIZE_MAX ==> r == Halted(CapacityOverflow)
    ensures AsUsize(size) <= ISIZE_MAX && old(buf.pos) + AsUsize(size) > |buf.data| ==> r == Halted(ShortRead)
    ensures AsUsize(size) <= ISIZE_MAX && old(buf.pos) + AsUsize(size) <= |buf.data| ==>
              r == Ok(buf.data[old(buf.pos)..old(buf.pos) + AsUsize(size)])
              && buf.pos == old(buf.pos) + AsUsize(size)
  {
    var n := AsUsize(size);
    if n > ISIZE_MAX {
      return Halted(CapacityOverflow);
    }
    var bytes := buf.ReadExact(n);
    if bytes.None? {
      return Halted(ShortRead);
    }
    r := Ok(bytes.value);
  }

  method BuildSoundData(buf: Cursor, id: Id) returns (r: Outcome<SoundDataChunk>)
    modifies buf
    ensures r == SoundSpec(buf.data, old(buf.pos), id).result
    ensures !r.Halted? ==> buf.pos == SoundSpec(buf.data, old(buf.pos), id).next
  {
    if id != SOUND {
      return Err(InvalidID(id));
    }
    ghost var start := buf.pos;
    var size := buf.ReadIntBe(4);
    var offset := buf.ReadUintBe(4);
    var blockSize := buf.ReadUintBe(4);
    if size.None? || offset.None? || blockSize.None? {
      return Halted(ShortRead);
    }
    assert size.value == I32(buf.data[start..start + 4]);
    var soundData := ReadSized(buf, size.value);
    if !soundData.Ok? {
      return Halted(soundData.halt);
    }
    r := Ok(SoundDataChunk(size.value, offset.value, blockSize.value, soundData.value));
  }

  // ---------------------------------------------------------------------
  // TextChunk::build

  /** The text chunk type an id names, if any. */
  function TextTypeOf(id: Id): (t: Option<TextChunkType>)
    ensures t.Some? <==> IsTextId(id)
    ensures t == Some(Name) <==> id == NAME
    ensures t == Some(Author) <==> id == AUTHOR
    ensures t == Some(Copyright) <==> id == COPYRIGHT
    ensures t == Some(Annotation) <==> id == ANNOTATION
  {
    if id == NAME then Some(Name)
    else if id == AUTHOR then Some(Author)
    else if id == COPYRIGHT then Some(Copyright)
    else if id == ANNOTATION then Some(Annotation)
    else None
  }

  /** The bytes after a text id: i32 size, then `size` bytes of text with
      no pad byte after an odd count. */
  function TextSpec(data: seq<Byte>, pos: nat, id: Id): (p: Parse<TextChunk, ChunkError>)
    ensures !IsTextId(id) ==> p == Parse(Err(InvalidID(id)), pos)
    ensures IsTextId(id) ==> !p.result.Err?
    ensures p.result.Ok? ==>
              && Some(p.result.value.chunkType) == TextTypeOf(id)
              && pos + 4 <= |data| && p.result.value.size >= 0
              && p.next == pos + 4 + p.result.value.size <= |data|
              && p.result.value.text == data[pos + 4..p.next]
  {
    match TextTypeOf(id)
    case None => Parse(Err(InvalidID(id)), pos)
    case Some(chunkType) =>
      if pos + 4 > |data| then Parse(Halted(ShortRead), pos)
      else
        var size := I32(data[pos..pos + 4]);
        var n := AsUsize(size);
        if n > ISIZE_MAX then Parse(Halted(CapacityOverflow), pos + 4)
        else if pos + 4 + n > |data| then Parse(Halted(ShortRead), pos + 4)
        else Parse(Ok(TextChunk(chunkType, size, data[pos + 4..pos + 4 + n])), pos + 4 + n)
  }

  method BuildText(buf: Cursor, id: Id) returns (r: Outcome<TextChunk>)
    modifies buf
    ensures r == TextSpec(buf.data, old(buf.pos), id).result
    ensures !r.Halted? ==> buf.pos == TextSpec(buf.data, old(buf.pos), id).next
  {
    var chunkType := TextTypeOf(id);
    if chunkType.None? {
      return Err(InvalidID(id));
    }
    ghost var start := buf.pos;
    var size := buf.ReadIntBe(4);
    if size.None? {
      return Halted(ShortRead);
    }
    assert size.value == I32(buf.data[start..start + 4]);
    var text := ReadSized(buf, size.value);
    if !text.Ok? {
      return Halted(text.halt);
    }
    r := Ok(TextChunk(chunkType.value, size.value, text.value));
  }

  // ---------------------------------------------------------------------
  // ID3v2Chunk::build

  /** The id marks an ID3v2 tag when its first three or its last three
      bytes are "ID3". */
  predicate IsID3Id(id: Id)
  {
    id[0..3] == ID3 || id[1..] == ID3
  }

  /** Major versions up to 4 with minor version 0 pass the gate. */
  predicate ID3VersionSupported(version: seq<Byte>)
    requires |version| == 2
  {
    !(version[0] > 4 || version[1] != 0)
  }

  /** Skip three bytes, read the two version bytes, step back five: the
      cursor ends where it started whatever the version says. */
  function ID3Spec(data: seq<Byte>, pos: nat, id: Id): (p: Parse<ID3v2Chunk, ChunkError>)
    ensures !IsID3Id(id) ==> p == Parse(Err(InvalidID(id)), pos)
    ensures IsID3Id(id) ==> (p.result.Halted? <==> pos + 5 > |data|)
    ensures !p.result.Halted? ==> p.next == pos
    ensures IsID3Id(id) && pos + 5 <= |data| ==> (p.result.Ok? <==> ID3VersionSupported(data[pos + 3..pos + 5]))
    ensures p.result.Ok? ==> p.result.value.version == data[pos + 3..pos + 5]
    ensures p.result.Err? && IsID3Id(id) ==> p.result.error == InvalidID3Version(data[pos + 3..pos + 5])
  {
    if !IsID3Id(id) then Parse(Err(InvalidID(id)), pos)
    else if pos + 5 > |data| then Parse(Halted(ShortRead), pos + 3)
    else
      var version := data[pos + 3..pos + 5];
      if !ID3VersionSupported(version) then Parse(Err(InvalidID3Version(version)), pos)
      else Parse(Ok(ID3v2Chunk(version)), pos)
  }

  method BuildID3v2(buf: Cursor, id: Id) returns (r: Outcome<ID3v2Chunk>)
    modifies buf
    ensures r == ID3Spec(buf.data, old(buf.pos), id).result
    ensures !r.Halted? ==> buf.pos == old(buf.pos)
  {
    if !IsID3Id(id) {
      return Err(InvalidID(id));
    }
    var skipped := buf.SeekRelative(3);
    var version := buf.ReadExact(2);
    if version.None? {
      return Halted(ShortRead);
    }
    var back := buf.SeekRelative(-5);
    if !ID3VersionSupported(version.value) {
      return Err(InvalidID3Version(version.value));
    }
    r := Ok(ID3v2Chunk(version.value));
  }

  // ---------------------------------------------------------------------
  // Writing chunks back: the byte layouts the builders read, and the
  // round trips through them.

  /** `enc` sits in `data` at `pos`. */
  predicate BytesAt(data: seq<Byte>, pos: nat, enc: seq<Byte>)
  {
    pos + |enc| <= |data| && data[pos..pos + |enc|] == enc
  }

  /** Two encodings side by side are each at their own place. */
  lemma SplitAt(data: seq<Byte>, pos: nat, a: seq<Byte>, b: seq<Byte>)
    requires BytesAt(data, pos, a + b)
    ensures BytesAt(data, pos, a) && BytesAt(data, pos + |a|, b)
  {
    var whole := data[pos..pos + |a| + |b|];
    assert whole == a + b;
    assert data[pos..pos + |a|] == whole[..|a|] == (a + b)[..|a|] == a;
    assert data[pos + |a|..pos + |a| + |b|] == whole[|a|..] == (a + b)[|a|..] == b;
  }

  /** And the converse: encodings at adjacent places form their join. */
  lemma JoinAt(data: seq<Byte>, pos: nat, a: seq<Byte>, b: seq<Byte>)
    requires BytesAt(data, pos, a) && BytesAt(data, pos + |a|, b)
    ensures BytesAt(data, pos, a + b)
  {
    var whole := data[pos..pos + |a| + |b|];
    assert whole[..|a|] == a && whole[|a|..] == b;
    assert whole == a + b;
  }

  /** `i32::to_be_bytes`. */
  function EncodeI32(v: int): (s: seq<Byte>)
    requires -0x8000_0000 <= v < 0x8000_0000
    ensures |s| == 4 && I32(s) == v
  {
    Pow2Wide();
    SignedRoundTrip(v, 4);
    EncodeSigned(v, 4)
  }

  /** `i16::to_be_bytes`. */
  function EncodeI16(v: int): (s: seq<Byte>)
    requires -0x8000 <= v < 0x8000
    ensures |s| == 2 && BeInt(s) == v
  {
    assert Pow2(15) == 0x8000 by { Pow2Values(); }
    SignedRoundTrip(v, 2);
    EncodeSigned(v, 2)
  }

  /** `u32::to_be_bytes`. */
  function EncodeU32(v: nat): (s: seq<Byte>)
    requires v < 0x1_0000_0000
    ensures |s| == 4 && BeUint(s) == v
  {
    Pow2Wide();
    BeUintOfBeBytes(v, 4);
    BeBytes(v, 4)
  }

  /** The size and form type that follow "FORM". */
  function FormHeader(size: int, formType: Id): (s: seq<Byte>)
    requires -0x8000_0000 <= size < 0x8000_0000
    ensures |s| == 8
  {
    EncodeI32(size) + formType
  }

  lemma FormOfHeader(data: seq<Byte>, pos: nat, size: int, formType: Id)
    requires -0x8000_0000 <= size < 0x8000_0000
    requires BytesAt(data, pos, FormHeader(size, formType))
    ensures FormSpec(data, pos, FORM)
            == Parse(if formType == AIFF then Ok(size) else Err(InvalidFormType(formType)), pos + 8)
  {
    SplitAt(data, pos, EncodeI32(size), formType);
  }

  /** The 22 bytes that follow "COMM", with the rate as its raw 80-bit field. */
  function CommonBytes(size: int, numChannels: int, numSampleFrames: nat, bitRate: int, rate: seq<Byte>): (s: seq<Byte>)
    requires -0x8000_0000 <= size < 0x8000_0000 && numSampleFrames < 0x1_0000_0000
    requires -0x8000 <= numChannels < 0x8000 && -0x8000 <= bitRate < 0x8000
    requires |rate| == 10
    ensures |s| == 22
  {
    EncodeI32(size) + EncodeI16(numChannels) + EncodeU32(numSampleFrames) + EncodeI16(bitRate) + rate
  }

  /** Every field comes back as written, and the rate as the decoder reads
      its 80 bits. */
  lemma CommonOfBytes(data: seq<Byte>, pos: nat, size: int, numChannels: int, numSampleFrames: nat,
                      bitRate: int, rate: seq<Byte>)
    requires -0x8000_0000 <= size < 0x8000_0000 && numSampleFrames < 0x1_0000_0000
    requires -0x8000 <= numChannels < 0x8000 && -0x8000 <= bitRate < 0x8000
    requires |rate| == 10 && DecodeExtended(rate).Rate?
    requires BytesAt(data, pos, CommonBytes(size, numChannels, numSampleFrames, bitRate, rate))
    ensures CommonSpec(data, pos, COMMON)
            == Parse(Ok(CommonChunk(size, numChannels, numSampleFrames, bitRate, DecodeExtended(rate).value)), pos + 22)
  {
    CommonFieldsAt(data, pos, size, numChannels, numSampleFrames, bitRate, rate);
  }

  /** Where each field of the encoding lies. */
  lemma CommonFieldsAt(data: seq<Byte>, pos: nat, size: int, numChannels: int, numSampleFrames: nat,
                       bitRate: int, rate: seq<Byte>)
    requires -0x8000_0000 <= size < 0x8000_0000 && numSampleFrames < 0x1_0000_0000
    requires -0x8000 <= numChannels < 0x8000 && -0x8000 <= bitRate < 0x8000
    requires |rate| == 10
    requires BytesAt(data, pos, CommonBytes(size, numChannels, numSampleFrames, bitRate, rate))
    ensures pos + 22 <= |data|
    ensures I32(data[pos..pos + 4]) == size && BeInt(data[pos + 4..pos + 6]) == numChannels
    ensures BeUint(data[pos + 6..pos + 10]) == numSampleFrames && BeInt(data[pos + 10..pos + 12]) == bitRate
    ensures data[pos + 12..pos + 22] == rate
  {
    var head := EncodeI32(size) + EncodeI16(numChannels);
    var fields := head + EncodeU32(numSampleFrames);
    SplitAt(data, pos, fields + EncodeI16(bitRate), rate);
    SplitAt(data, pos, fields, EncodeI16(bitRate));
    SplitAt(data, pos, head, EncodeU32(numSampleFrames));
    SplitAt(data, pos, EncodeI32(size), EncodeI16(numChannels));
  }

  /** The bytes after "SSND" for a payload of `soundData`, whose length is
      the size field. */
  function SoundBytes(offset: nat, blockSize: nat, soundData: seq<Byte>): (s: seq<Byte>)
    requires offset < 0x1_0000_0000 && blockSize < 0x1_0000_0000 && |soundData| < 0x8000_0000
    ensures |s| == 12 + |soundData|
  {
    EncodeI32(|soundData|) + EncodeU32(offset) + EncodeU32(blockSize) + soundData
  }

  lemma SoundOfBytes(data: seq<Byte>, pos: nat, offset: nat, blockSize: nat, soundData: seq<Byte>)
    requires offset < 0x1_0000_0000 && blockSize < 0x1_0000_0000 && |soundData| < 0x8000_0000
    requires BytesAt(data, pos, SoundBytes(offset, blockSize, soundData))
    ensures SoundSpec(data, pos, SOUND)
            == Parse(Ok(SoundDataChunk(|soundData|, offset, blockSize, soundData)), pos + 12 + |soundData|)
  {
    var head := EncodeI32(|soundData|) + EncodeU32(offset);
    SplitAt(data, pos, head + EncodeU32(blockSize), soundData);
    SplitAt(data, pos, head, EncodeU32(blockSize));
    SplitAt(data, pos, EncodeI32(|soundData|), EncodeU32(offset));
  }

  /** The bytes after a text id: the size, then the text. */
  function TextBytes(text: seq<Byte>): (s: seq<Byte>)
    requires |text| < 0x8000_0000
    ensures |s| == 4 + |text|
  {
    EncodeI32(|text|) + text
  }

  lemma TextOfBytes(data: seq<Byte>, pos: nat, id: Id, text: seq<Byte>)
    requires IsTextId(id) && |text| < 0x8000_0000
    requires BytesAt(data, pos, TextBytes(text))
    ensures TextSpec(data, pos, id) == Parse(Ok(TextChunk(TextTypeOf(id).value, |text|, text)), pos + 4 + |text|)
  {
    SplitAt(data, pos, EncodeI32(|text|), text);
  }

  /** A negative size field asks for a buffer of more than `isize::MAX`
      bytes, which is a capacity-overflow panic rather than an error. */
  lemma NegativeSizeOverflows(data: seq<Byte>, pos: nat, id: Id)
    requires pos + 4 <= |data| && I32(data[pos..pos + 4]) < 0
    ensures id == SOUND && pos + 12 <= |data| ==> SoundSpec(data, pos, id).result == Halted(CapacityOverflow)
    ensures IsTextId(id) ==> TextSpec(data, pos, id).result == Halted(CapacityOverflow)
  {
  }
}
