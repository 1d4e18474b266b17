/** The first prototype, src/main.rs: a chunk header is the id and an i32
    size read together, the Common chunk skips its rate, and `main` walks
    the chunks after the FORM header, parsing only Common and text chunks
    and logging what it parsed.  The file is given as bytes (opening and
    reading it is not part of the model). */
module Prototype {
  import opened Base
  import opened Ids
  import opened Cursors
  import Chunks
  import LegacyChunks

  /** Neither error carries a payload here. */
  datatype ChunkError = InvalidID | InvalidFormType

  type Outcome<T> = Built<T, ChunkError>

  /** The first eight bytes of every chunk: the id and the size of the
      chunk's data. */
  datatype ChunkBuilder = ChunkBuilder(id: Id, size: int)

  /** The Common chunk without its sample rate, whose bytes are read and
      dropped. */
  datatype CommonChunk = CommonChunk(size: int, numChannels: int, numSampleFrames: nat, sampleSize: int)

  /** `ChunkBuilder::new`: four id bytes, then a big-endian i32. */
  function BuilderSpec(data: seq<Byte>, pos: nat): (p: Parse<ChunkBuilder, ChunkError>)
    ensures p.result.Ok? <==> pos + 8 <= |data|
    ensures p.result.Ok? ==> p.next == pos + 8 && p.result.value.id == data[pos..pos + 4]
    ensures p.result.Ok? ==> -0x8000_0000 <= p.result.value.size < 0x8000_0000
    ensures !p.result.Err?
  {
    if pos + 8 > |data| then Parse(Halted(ShortRead), pos)
    else Parse(Ok(ChunkBuilder(data[pos..pos + 4], Chunks.I32(data[pos + 4..pos + 8]))), pos + 8)
  }

  method NewBuilder(buf: Cursor) returns (r: Outcome<ChunkBuilder>)
    modifies buf
    ensures r == BuilderSpec(buf.data, old(buf.pos)).result
    ensures !r.Halted? ==> buf.pos == BuilderSpec(buf.data, old(buf.pos)).next
  {
    var id := buf.ReadExact(4);
    if id.None? {
      return Halted(ShortRead);
    }
    var size := buf.ReadIntBe(4);
    if size.None? {
      return Halted(ShortRead);
    }
    r := Ok(ChunkBuilder(id.value, size.value));
  }

  class FormChunk {
    var size: int
    var metadata: Option<CommonChunk>

    constructor (size: int)
      ensures this.size == size && metadata == None
    {
      this.size := size;
      metadata := None;
    }

    /** Sets the Common chunk and leaves the size alone. */
    method AddCommon(chunk: CommonChunk)
      modifies this
      ensures metadata == Some(chunk) && size == old(size)
    {
      metadata := Some(chunk);
    }
  }

  /** A FORM builder whose id is not "FORM" is reported as a bad form
      type; the size comes from the builder, so only the form type is
      read. */
  function FormSpec(data: seq<Byte>, pos: nat, cb: ChunkBuilder): (p: Parse<int, ChunkError>)
    ensures cb.id != FORM ==> p == Parse(Err(InvalidFormType), pos)
    ensures cb.id == FORM ==> (p.result.Halted? <==> pos + 4 > |data|)
    ensures cb.id == FORM && pos + 4 <= |data| ==> p.next == pos + 4
    ensures p.result.Ok? <==> cb.id == FORM && pos + 4 <= |data| && data[pos..pos + 4] == AIFF
    ensures p.result.Ok? ==> p.result.value == cb.size
    ensures p.result.Err? ==> p.result.error == InvalidFormType
  {
    if cb.id != FORM then Parse(Err(InvalidFormType), pos)
    else if pos + 4 > |data| then Parse(Halted(ShortRead), pos)
    else if data[pos..pos + 4] != AIFF then Parse(Err(InvalidFormType), pos + 4)
    else Parse(Ok(cb.size), pos + 4)
  }

  method BuildForm(buf: Cursor, cb: ChunkBuilder) returns (r: Outcome<FormChunk>)
    modifies buf
    ensures SameOutcome(r, FormSpec(buf.data, old(buf.pos), cb).result)
    ensures !r.Halted? ==> buf.pos == FormSpec(buf.data, old(buf.pos), cb).next
    ensures r.Ok? ==> fresh(r.value) && r.value.size == cb.size && r.value.metadata == None
  {
    if cb.id != FORM {
      return Err(InvalidFormType);
    }
    var formType := buf.ReadExact(4);
    if formType.None? {
      return Halted(ShortRead);
    }
    if formType.value != AIFF {
      r := Err(InvalidFormType);
    } else {
      var form := new FormChunk(cb.size);
      r := Ok(form);
    }
  }

  /** No id check: i16 channels, u32 frames, i16 sample size, then ten
      rate bytes that are read and dropped, 18 bytes in all. */
  function CommonSpec(data: seq<Byte>, pos: nat, cb: ChunkBuilder): (p: Parse<CommonChunk, ChunkError>)
    ensures p.result.Ok? <==> pos + 18 <= |data|
    ensures p.result.Ok? ==> p.next == pos + 18 && p.result.value.size == cb.size
    ensures !p.result.Err?
  {
    if pos + 18 > |data| then Parse(Halted(ShortRead), pos)
    else
      Parse(Ok(CommonChunk(cb.size, BeInt(data[pos..pos + 2]), BeUint(data[pos + 2..pos + 6]), BeInt(data[pos + 6..pos + 8]))),
            pos + 18)
  }

  method BuildCommon(buf: Cursor, cb: ChunkBuilder) returns (r: Outcome<CommonChunk>)
    modifies buf
    ensures r == CommonSpec(buf.data, old(buf.pos), cb).result
    ensures !r.Halted? ==> buf.pos == CommonSpec(buf.data, old(buf.pos), cb).next
  {
    var numChannels := buf.ReadIntBe(2);
    var numSampleFrames := buf.ReadUintBe(4);
    var sampleSize := buf.ReadIntBe(2);
    if numChannels.None? || numSampleFrames.None? || sampleSize.None? {
      return Halted(ShortRead);
    }
    var sampleRate := buf.ReadExact(10);
    if sampleRate.None? {
      return Halted(ShortRead);
    }
    r := Ok(CommonChunk(cb.size, numChannels.value, numSampleFrames.value, sampleSize.value));
  }

  /** `for i in 0..cb.size`: the text is the next `cb.size` bytes, none
      for a negative size.  (The cursor only moves by reads here, so it is
      never past the end.) */
  function TextSpec(data: seq<Byte>, pos: nat, cb: ChunkBuilder): (p: Parse<Chunks.TextChunk, ChunkError>)
    requires pos <= |data|
    ensures !IsTextId(cb.id) ==> p == Parse(Err(InvalidID), pos)
    ensures IsTextId(cb.id) ==> !p.result.Err?
    ensures p.result.Ok? ==>
              && Some(p.result.value.chunkType) == Chunks.TextTypeOf(cb.id)
              && p.result.value.size == cb.size
              && |p.result.value.text| == (if cb.size < 0 then 0 else cb.size)
              && p.next == pos + |p.result.value.text| <= |data|
              && p.result.value.text == data[pos..p.next]
    ensures IsTextId(cb.id) && cb.size < 0 ==>
              p == Parse(Ok(Chunks.TextChunk(Chunks.TextTypeOf(cb.id).value, cb.size, [])), pos)
  {
    match Chunks.TextTypeOf(cb.id)
    case None => Parse(Err(InvalidID), pos)
    case Some(chunkType) =>
      var n := if cb.size < 0 then 0 else cb.size;
      if pos + n > |data| then Parse(Halted(ShortRead), pos)
      else Parse(Ok(Chunks.TextChunk(chunkType, cb.size, data[pos..pos + n])), pos + n)
  }

  method BuildText(buf: Cursor, cb: ChunkBuilder) returns (r: Outcome<Chunks.TextChunk>)
    requires buf.pos <= |buf.data|
    modifies buf
    ensures r == TextSpec(buf.data, old(buf.pos), cb).result
    ensures !r.Halted? ==> buf.pos == TextSpec(buf.data, old(buf.pos), cb).next
  {
    var chunkType := Chunks.TextTypeOf(cb.id);
    if chunkType.None? {
      return Err(InvalidID);
    }
    var text := buf.ReadEach(if cb.size < 0 then 0 else cb.size);
    if text.None? {
      return Halted(ShortRead);
    }
    r := Ok(Chunks.TextChunk(chunkType.value, cb.size, text.value));
  }

  // ---------------------------------------------------------------------
  // The dispatch loop of `main`

  /** What the loop parses and logs; nothing else is kept. */
  datatype Seen = SeenCommon(common: CommonChunk) | SeenText(text: Chunks.TextChunk)

  datatype Step = Continue(seen: seq<Seen>, next: nat) | Stop(halt: Halt)

  /** One turn: read a header, then parse a Common or text chunk; every
      other tag, "SSND" included, is left with its data unread, so the
      next header is read from inside that data. */
  function StepSpec(data: seq<Byte>, pos: nat, seen: seq<Seen>): (r: Step)
    ensures pos + 8 > |data| ==> r == Stop(ShortRead)
    ensures r.Continue? ==> pos + 8 <= r.next <= |data|
    ensures r.Continue? ==> r.seen == seen || (|r.seen| == |seen| + 1 && r.seen[..|seen|] == seen)
    ensures pos + 8 <= |data| && data[pos..pos + 4] != COMMON && !IsTextId(data[pos..pos + 4]) ==>
              r == Continue(seen, pos + 8)
  {
    match BuilderSpec(data, pos)
    case Parse(Halted(h), _) => Stop(h)
    case Parse(Ok(cb), p) =>
      if cb.id == COMMON then
        match CommonSpec(data, p, cb)
        case Parse(Ok(c), next) => Continue(seen + [SeenCommon(c)], next)
        case Parse(Halted(h), _) => Stop(h)
      else if IsTextId(cb.id) then
        match TextSpec(data, p, cb)
        case Parse(Ok(t), next) => Continue(seen + [SeenText(t)], next)
        case Parse(Halted(h), _) => Stop(h)
      else Continue(seen, p)
  }

  /** The loop, run to its panic: the loop has no exit of its own. */
  function Walk(data: seq<Byte>, pos: nat, seen: seq<Seen>): (Halt, seq<Seen>)
    decreases |data| - pos
  {
    match StepSpec(data, pos, seen)
    case Stop(h) => (h, seen)
    case Continue(next, p) => Walk(data, p, next)
  }

  /** How a run of the program ends: the first chunk is not an AIFF form,
      or the walk panics after logging what it parsed. */
  datatype Ending = UnsupportedFirstChunk | Panicked(halt: Halt, seen: seq<Seen>)

  function RunSpec(data: seq<Byte>): Ending
  {
    match BuilderSpec(data, 0)
    case Parse(Halted(h), _) => Panicked(h, [])
    case Parse(Ok(cb), p) =>
      match FormSpec(data, p, cb)
      case Parse(Err(_), _) => UnsupportedFirstChunk
      case Parse(Halted(h), _) => Panicked(h, [])
      case Parse(Ok(_), next) =>
        var (h, seen) := Walk(data, next, []);
        Panicked(h, seen)
  }

  /** `main` after the file is read into memory. */
  method Run(buf: Cursor) returns (r: Ending)
    requires buf.pos == 0
    modifies buf
    ensures r == RunSpec(buf.data)
  {
    var cb := NewBuilder(buf);
    if cb.Halted? {
      return Panicked(cb.halt, []);
    }
    var form := BuildForm(buf, cb.value);
    if form.Err? {
      return UnsupportedFirstChunk;
    } else if form.Halted? {
      return Panicked(form.halt, []);
    }
    var seen: seq<Seen> := [];
    while true
      invariant buf.pos <= |buf.data|
      invariant Walk(buf.data, buf.pos, seen) == Walk(buf.data, FormSpec(buf.data, 8, cb.value).next, [])
      decreases |buf.data| - buf.pos
    {
      ghost var start := buf.pos;
      ghost var before := seen;
      var chunk := NewBuilder(buf);
      if chunk.Halted? {
        return Panicked(chunk.halt, seen);
      }
      if chunk.value.id == COMMON {
        var common := BuildCommon(buf, chunk.value);
        if common.Halted? {
          return Panicked(common.halt, seen);
        }
        seen := seen + [SeenCommon(common.value)];
      } else if IsTextId(chunk.value.id) {
        var text := BuildText(buf, chunk.value);
        if text.Halted? {
          return Panicked(text.halt, seen);
        }
        seen := seen + [SeenText(text.value)];
      }
      assert StepSpec(buf.data, start, before) == Continue(seen, buf.pos);
    }
  }

  // ---------------------------------------------------------------------
  // Properties

  /** The loop only ever adds to what it has logged. */
  lemma {:induction false} WalkKeepsSeen(data: seq<Byte>, pos: nat, seen: seq<Seen>)
    ensures |seen| <= |Walk(data, pos, seen).1| && Walk(data, pos, seen).1[..|seen|] == seen
    decreases |data| - pos
  {
    match StepSpec(data, pos, seen)
    case Stop(_) =>
    case Continue(next, p) =>
      WalkKeepsSeen(data, p, next);
      var final := Walk(data, p, next).1;
      assert final[..|next|][..|seen|] == final[..|seen|];
  }

  /** A whole text chunk as this snapshot reads it: id, size, text. */
  lemma StepOfTextChunk(data: seq<Byte>, pos: nat, id: Id, text: seq<Byte>, seen: seq<Seen>)
    requires IsTextId(id) && |text| < 0x8000_0000
    requires Chunks.BytesAt(data, pos, LegacyChunks.TextChunkBytes(id, text))
    ensures StepSpec(data, pos, seen)
            == Continue(seen + [SeenText(Chunks.TextChunk(Chunks.TextTypeOf(id).value, |text|, text))], pos + 8 + |text|)
  {
    Chunks.SplitAt(data, pos, id, Chunks.TextBytes(text));
    Chunks.SplitAt(data, pos + 4, Chunks.EncodeI32(|text|), text);
    assert data[pos..pos + 4] == id && data[pos + 4..pos + 8] == Chunks.EncodeI32(|text|);
    assert BuilderSpec(data, pos) == Parse(Ok(ChunkBuilder(id, |text|)), pos + 8);
  }

  /** A whole Common chunk: the header's size is taken as given, and the
      rate bytes, whatever they hold, are skipped. */
  lemma StepOfCommonChunk(data: seq<Byte>, pos: nat, size: int, numChannels: int, numSampleFrames: nat,
                          sampleSize: int, rate: seq<Byte>, seen: seq<Seen>)
    requires -0x8000_0000 <= size < 0x8000_0000 && numSampleFrames < 0x1_0000_0000
    requires -0x8000 <= numChannels < 0x8000 && -0x8000 <= sampleSize < 0x8000
    requires |rate| == 10
    requires Chunks.BytesAt(data, pos, COMMON + Chunks.CommonBytes(size, numChannels, numSampleFrames, sampleSize, rate))
    ensures StepSpec(data, pos, seen)
            == Continue(seen + [SeenCommon(CommonChunk(size, numChannels, numSampleFrames, sampleSize))], pos + 26)
  {
    CommonLayout(data, pos, size, numChannels, numSampleFrames, sampleSize, rate);
    assert BuilderSpec(data, pos) == Parse(Ok(ChunkBuilder(COMMON, size)), pos + 8);
  }

  /** Where each field of an encoded common chunk lies. */
  lemma CommonLayout(data: seq<Byte>, pos: nat, size: int, numChannels: int, numSampleFrames: nat,
                     sampleSize: int, rate: seq<Byte>)
    requires -0x8000_0000 <= size < 0x8000_0000 && numSampleFrames < 0x1_0000_0000
    requires -0x8000 <= numChannels < 0x8000 && -0x8000 <= sampleSize < 0x8000
    requires |rate| == 10
    requires Chunks.BytesAt(data, pos, COMMON + Chunks.CommonBytes(size, numChannels, numSampleFrames, sampleSize, rate))
    ensures pos + 26 <= |data| && data[pos..pos + 4] == COMMON
    ensures Chunks.I32(data[pos + 4..pos + 8]) == size
    ensures BeInt(data[pos + 8..pos + 10]) == numChannels
    ensures BeUint(data[pos + 10..pos + 14]) == numSampleFrames
    ensures BeInt(data[pos + 14..pos + 16]) == sampleSize
  {
    Chunks.SplitAt(data, pos, COMMON, Chunks.CommonBytes(size, numChannels, numSampleFrames, sampleSize, rate));
    Chunks.CommonFieldsAt(data, pos + 4, size, numChannels, numSampleFrames, sampleSize, rate);
  }
}
