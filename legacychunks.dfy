/** The older chunk parsers of src/chunks/mod.rs, built on `bytes::Buf`:
    every read panics when too few bytes remain, the Sound Data and Text
    payloads are read one byte at a time, and `load_chunks` walks the
    chunks after the FORM header, dispatching on each four-byte id. */
module LegacyChunks {
  import opened Base
  import opened Ids
  import opened Cursors
  import Chunks

  /** Unlike the later snapshot, a bad form type carries no payload. */
  datatype ChunkError =
    | InvalidID(id: Id)
    | InvalidFormType
    | InvalidID3Version(version: seq<Byte>)

  type Outcome<T> = Built<T, ChunkError>

  /** The sample rate is kept as its ten raw bytes (the `Decimal` built
      from them is not modelled). */
  datatype CommonChunk = CommonChunk(
    size: int,
    numChannels: int,
    numSampleFrames: nat,
    sampleSize: int,
    sampleRate: seq<Byte>)

  datatype ID3Chunk = ID3Chunk(version: seq<Byte>)

  /** The boxed chunks `load_chunks` appends. */
  datatype AnyChunk =
    | TextItem(text: Chunks.TextChunk)
    | ID3Item(id3: ID3Chunk)

  /** The whole state of a FormChunk, as a value. */
  datatype Slots = Slots(
    size: int,
    common: Option<CommonChunk>,
    sound: Option<Chunks.SoundDataChunk>,
    chunks: seq<AnyChunk>)

  // ---------------------------------------------------------------------
  // ChunkBuilder

  /** The four id bytes at the head of every chunk. */
  datatype ChunkBuilder = ChunkBuilder(id: Id)

  /** `ChunkBuilder::new`: `copy_to_slice` of four bytes. */
  method NewBuilder(buf: Cursor) returns (r: Option<ChunkBuilder>)
    modifies buf
    ensures old(buf.pos) + 4 <= |buf.data| ==>
              r == Some(ChunkBuilder(buf.data[old(buf.pos)..old(buf.pos) + 4])) && buf.pos == old(buf.pos) + 4
    ensures old(buf.pos) + 4 > |buf.data| ==> r == None
  {
    var id := buf.ReadExact(4);
    if id.None? {
      return None;
    }
    r := Some(ChunkBuilder(id.value));
  }

  // ---------------------------------------------------------------------
  // FormChunk

  class FormChunk {
    var size: int
    var common: Option<CommonChunk>
    var sound: Option<Chunks.SoundDataChunk>
    var chunks: seq<AnyChunk>

    constructor (size: int)
      ensures State() == Slots(size, None, None, [])
    {
      this.size := size;
      common := None;
      sound := None;
      chunks := [];
    }

    function State(): Slots
      reads this
    {
      Slots(size, common, sound, chunks)
    }

    /** Overwrites the Common slot, keeping everything else. */
    method AddCommon(chunk: CommonChunk)
      modifies this
      ensures State() == old(State()).(common := Some(chunk))
    {
      common := Some(chunk);
    }

    method AddSound(chunk: Chunks.SoundDataChunk)
      modifies this
      ensures State() == old(State()).(sound := Some(chunk))
    {
      sound := Some(chunk);
    }

    method AddChunk(chunk: AnyChunk)
      modifies this
      ensures State() == old(State()).(chunks := old(chunks) + [chunk])
    {
      chunks := chunks + [chunk];
    }

    /** `load_chunks`: dispatch chunk after chunk until a read panics.  The
        loop has no other exit, so the outcome is always a halt, together
        with the slots filled before it. */
    method LoadChunks(buf: Cursor) returns (h: Halt)
      requires buf.pos <= |buf.data|
      modifies this, buf
      ensures Ending(h, State()) == Walk(buf.data, old(buf.pos), old(State()))
    {
      while true
        invariant buf.pos <= |buf.data|
        invariant Walk(buf.data, buf.pos, State()) == Walk(buf.data, old(buf.pos), old(State()))
        decreases |buf.data| - buf.pos
      {
        ghost var before := State();
        ghost var start := buf.pos;
        var cb := NewBuilder(buf);
        if cb.None? {
          return ShortRead;
        }
        var id := cb.value.id;
        if id == COMMON {
          var c := BuildCommon(buf, cb.value);
          if c.Halted? {
            return c.halt;
          }
          AddCommon(c.value);
        } else if id == SOUND {
          var s := BuildSoundData(buf, cb.value);
          if s.Halted? {
            return s.halt;
          }
          AddSound(s.value);
        } else if Chunks.TextTypeOf(id).Some? {
          var t := BuildText(buf, cb.value);
          if t.Halted? {
            return t.halt;
          }
          AddChunk(TextItem(t.value));
        } else if id == FVER {
          return Unimplemented;
        } else if id[..3] == ID3_PADDED[..3] {
          var t := BuildID3(buf, cb.value);
          if t.Halted? {
            return t.halt;
          }
          if t.Ok? {
            AddChunk(ID3Item(t.value));
          }
        }
        assert StepSpec(buf.data, start, before) == Continue(State(), buf.pos);
      }
    }
  }

  // ---------------------------------------------------------------------
  // The builders.  Each is handed the builder holding the id and reads
  // the rest of its chunk.

  function FormSpec(data: seq<Byte>, pos: nat, id: Id): (p: Parse<int, ChunkError>)
    ensures id != FORM ==> p == Parse(Err(InvalidID(id)), pos)
    ensures id == FORM ==> (p.result.Halted? <==> pos + 8 > |data|)
    ensures id == FORM && !p.result.Halted? ==> p.next == pos + 8
    ensures p.result.Ok? <==> id == FORM && pos + 8 <= |data| && data[pos + 4..pos + 8] == AIFF
    ensures p.result.Err? && id == FORM ==> p.result.error == InvalidFormType
    ensures p.result.Ok? ==> p.result.value == Chunks.I32(data[pos..pos + 4])
  {
    if id != FORM then Parse(Err(InvalidID(id)), pos)
    else if pos + 8 > |data| then Parse(Halted(ShortRead), pos)
    else
      var formType := data[pos + 4..pos + 8];
      if formType == AIFF_C then Parse(Err(InvalidFormType), pos + 8)
      else if formType == AIFF then Parse(Ok(Chunks.I32(data[pos..pos + 4])), pos + 8)
      else Parse(Err(InvalidFormType), pos + 8)
  }

  method BuildForm(buf: Cursor, cb: ChunkBuilder) returns (r: Outcome<FormChunk>)
    modifies buf
    ensures SameOutcome(r, FormSpec(buf.data, old(buf.pos), cb.id).result)
    ensures !r.Halted? ==> buf.pos == FormSpec(buf.data, old(buf.pos), cb.id).next
    ensures r.Ok? ==> fresh(r.value)
    ensures r.Ok? ==> r.value.State() == Slots(FormSpec(buf.data, old(buf.pos), cb.id).result.value, None, None, [])
  {
    if cb.id != FORM {
      return Err(InvalidID(cb.id));
    }
    var size := buf.ReadIntBe(4);
    if size.None? {
      return Halted(ShortRead);
    }
    var formType := buf.ReadExact(4);
    if formType.None? {
      return Halted(ShortRead);
    }
    if formType.value == AIFF_C {
      r := Err(InvalidFormType);
    } else if formType.value == AIFF {
      var form := new FormChunk(size.value);
      r := Ok(form);
    } else {
      r := Err(InvalidFormType);
    }
  }

  /** i32 size, i16 channels, u32 frames, i16 sample size, then the rate's
      ten bytes in three `copy_to_slice` calls of 2, 4 and 4 bytes. */
  function CommonSpec(data: seq<Byte>, pos: nat, id: Id): (p: Parse<CommonChunk, ChunkError>)
    ensures id != COMMON ==> p == Parse(Err(InvalidID(id)), pos)
    ensures id == COMMON ==> (p.result.Ok? <==> pos + 22 <= |data|) && !p.result.Err?
    ensures p.result.Ok? ==> p.next == pos + 22 && p.result.value.sampleRate == data[pos + 12..pos + 22]
    ensures p.result.Ok? ==>
              && p.result.value.size == Chunks.I32(data[pos..pos + 4])
              && p.result.value.numChannels == BeInt(data[pos + 4..pos + 6])
              && p.result.value.numSampleFrames == BeUint(data[pos + 6..pos + 10])
              && p.result.value.sampleSize == BeInt(data[pos + 10..pos + 12])
  {
    if id != COMMON then Parse(Err(InvalidID(id)), pos)
    else if pos + 22 > |data| then Parse(Halted(ShortRead), pos)
    else
      Parse(Ok(CommonChunk(Chunks.I32(data[pos..pos + 4]), BeInt(data[pos + 4..pos + 6]),
                           BeUint(data[pos + 6..pos + 10]), BeInt(data[pos + 10..pos + 12]),
                           data[pos + 12..pos + 22])),
            pos + 22)
  }

  method BuildCommon(buf: Cursor, cb: ChunkBuilder) returns (r: Outcome<CommonChunk>)
    modifies buf
    ensures r == CommonSpec(buf.data, old(buf.pos), cb.id).result
    ensures !r.Halted? ==> buf.pos == CommonSpec(buf.data, old(buf.pos), cb.id).next
  {
    if cb.id != COMMON {
      return Err(InvalidID(cb.id));
    }
    var size := buf.ReadIntBe(4);
    var numChannels := buf.ReadIntBe(2);
    var numSampleFrames := buf.ReadUintBe(4);
    var sampleSize := buf.ReadIntBe(2);
    if size.None? || numChannels.None? || numSampleFrames.None? || sampleSize.None? {
      return Halted(ShortRead);
    }
    var rate := ReadRate(buf);
    if rate.None? {
      return Halted(ShortRead);
    }
    r := Ok(CommonChunk(size.value, numChannels.value, numSampleFrames.value, sampleSize.value, rate.value));
  }

  /** The rate's ten bytes, copied out in pieces of 2, 4 and 4. */
  method ReadRate(buf: Cursor) returns (r: Option<seq<Byte>>)
    modifies buf
    ensures old(buf.pos) + 10 <= |buf.data| ==> r == Some(buf.data[old(buf.pos)..old(buf.pos) + 10]) && buf.pos == old(buf.pos) + 10
    ensures old(buf.pos) + 10 > |buf.data| ==> r == None
  {
    ghost var start := buf.pos;
    var hi := buf.ReadExact(2);
    var mid := buf.ReadExact(4);
    var low := buf.ReadExact(4);
    if hi.None? || mid.None? || low.None? {
      return None;
    }
    assert Chunks.BytesAt(buf.data, start, hi.value);
    assert Chunks.BytesAt(buf.data, start + 2, mid.value);
    Chunks.JoinAt(buf.data, start, hi.value, mid.value);
    assert Chunks.BytesAt(buf.data, start + 6, low.value);
    Chunks.JoinAt(buf.data, start, hi.value + mid.value, low.value);
    r := Some(hi.value + mid.value + low.value);
  }

  /** `for _ in 8..size`: the payload is `size - 8` bytes, none at all
      when the size is 8 or less. */
  function PayloadLength(size: int): (n: nat)
    ensures size >= 8 ==> n == size - 8
    ensures size <= 8 ==> n == 0
  {
    if size > 8 then size - 8 else 0
  }

  function SoundSpec(data: seq<Byte>, pos: nat, id: Id): (p: Parse<Chunks.SoundDataChunk, ChunkError>)
    ensures id != SOUND ==> p == Parse(Err(InvalidID(id)), pos)
    ensures id == SOUND ==> !p.result.Err?
    ensures p.result.Ok? ==>
              && pos + 12 <= |data|
              && |p.result.value.soundData| == PayloadLength(p.result.value.size)
              && p.next == pos + 12 + |p.result.value.soundData| <= |data|
              && p.result.value.soundData == data[pos + 12..p.next]
    ensures id == SOUND ==>
              (p.result.Ok? <==> pos + 12 <= |data| && pos + 12 + PayloadLength(Chunks.I32(data[pos..pos + 4])) <= |data|)
    ensures id == SOUND && !p.result.Ok? ==> p.result == Halted(ShortRead)
    ensures p.result.Ok? ==>
              && p.result.value.size == Chunks.I32(data[pos..pos + 4])
              && p.result.value.offset == BeUint(data[pos + 4..pos + 8])
              && p.result.value.blockSize == BeUint(data[pos + 8..pos + 12])
  {
    if id != SOUND then Parse(Err(InvalidID(id)), pos)
    else if pos + 12 > |data| then Parse(Halted(ShortRead), pos)
    else
      var size := Chunks.I32(data[pos..pos + 4]);
      var n := PayloadLength(size);
      if pos + 12 + n > |data| then Parse(Halted(ShortRead), pos + 12)
      else
        Parse(Ok(Chunks.SoundDataChunk(size, BeUint(data[pos + 4..pos + 8]), BeUint(data[pos + 8..pos + 12]),
                                       data[pos + 12..pos + 12 + n])),
              pos + 12 + n)
  }

  method BuildSoundData(buf: Cursor, cb: ChunkBuilder) returns (r: Outcome<Chunks.SoundDataChunk>)
    modifies buf
    ensures r == SoundSpec(buf.data, old(buf.pos), cb.id).result
    ensures !r.Halted? ==> buf.pos == SoundSpec(buf.data, old(buf.pos), cb.id).next
  {
    if cb.id != SOUND {
      return Err(InvalidID(cb.id));
    }
    ghost var start := buf.pos;
    var size := buf.ReadIntBe(4);
    var offset := buf.ReadUintBe(4);
    var blockSize := buf.ReadUintBe(4);
    if size.None? || offset.None? || blockSize.None? {
      return Halted(ShortRead);
    }
    assert size.value == Chunks.I32(buf.data[start..start + 4]);
    var soundData := buf.ReadEach(PayloadLength(size.value));
    if soundData.None? {
      return Halted(ShortRead);
    }
    r := Ok(Chunks.SoundDataChunk(size.value, offset.value, blockSize.value, soundData.value));
  }

  /** `read_pstring`: a length byte, then that many bytes; no pad byte is
      skipped when 1 + len is odd. */
  function PStringSpec(data: seq<Byte>, pos: nat): (p: Parse<seq<Byte>, ChunkError>)
    ensures p.result.Ok? <==> pos < |data| && pos + 1 + data[pos] <= |data|
    ensures p.result.Ok? ==> p.next == pos + 1 + |p.result.value| <= |data| && p.result.value == data[pos + 1..p.next]
    ensures !p.result.Err?
  {
    if pos >= |data| then Parse(Halted(ShortRead), pos)
    else if pos + 1 + data[pos] > |data| then Parse(Halted(ShortRead), pos + 1)
    else Parse(Ok(data[pos + 1..pos + 1 + data[pos]]), pos + 1 + data[pos])
  }

  method ReadPString(buf: Cursor) returns (r: Outcome<seq<Byte>>)
    modifies buf
    ensures r == PStringSpec(buf.data, old(buf.pos)).result
    ensures !r.Halted? ==> buf.pos == PStringSpec(buf.data, old(buf.pos)).next
  {
    var len := buf.ReadU8();
    if len.None? {
      return Halted(ShortRead);
    }
    var bytes := buf.ReadEach(len.value);
    if bytes.None? {
      return Halted(ShortRead);
    }
    r := Ok(bytes.value);
  }

  /** `for _ in 0..size`: a negative size reads nothing. */
  function TextSpec(data: seq<Byte>, pos: nat, id: Id): (p: Parse<Chunks.TextChunk, ChunkError>)
    ensures !IsTextId(id) ==> p == Parse(Err(InvalidID(id)), pos)
    ensures IsTextId(id) ==> !p.result.Err?
    ensures p.result.Ok? ==>
              && Some(p.result.value.chunkType) == Chunks.TextTypeOf(id)
              && pos + 4 <= |data|
              && |p.result.value.text| == (if p.result.value.size < 0 then 0 else p.result.value.size)
              && p.next == pos + 4 + |p.result.value.text| <= |data|
              && p.result.value.text == data[pos + 4..p.next]
    ensures p.result.Ok? ==> p.result.value.size == Chunks.I32(data[pos..pos + 4])
    ensures IsTextId(id) && pos + 4 <= |data| && Chunks.I32(data[pos..pos + 4]) < 0 ==>
              p.result.Ok? && p.result.value.text == [] && p.next == pos + 4
  {
    match Chunks.TextTypeOf(id)
    case None => Parse(Err(InvalidID(id)), pos)
    case Some(chunkType) =>
      if pos + 4 > |data| then Parse(Halted(ShortRead), pos)
      else
        var size := Chunks.I32(data[pos..pos + 4]);
        var n := if size < 0 then 0 else size;
        if pos + 4 + n > |data| then Parse(Halted(ShortRead), pos + 4)
        else Parse(Ok(Chunks.TextChunk(chunkType, size, data[pos + 4..pos + 4 + n])), pos + 4 + n)
  }

  method BuildText(buf: Cursor, cb: ChunkBuilder) returns (r: Outcome<Chunks.TextChunk>)
    modifies buf
    ensures r == TextSpec(buf.data, old(buf.pos), cb.id).result
    ensures !r.Halted? ==> buf.pos == TextSpec(buf.data, old(buf.pos), cb.id).next
  {
    var chunkType := Chunks.TextTypeOf(cb.id);
    if chunkType.None? {
      return Err(InvalidID(cb.id));
    }
    ghost var start := buf.pos;
    var size := buf.ReadIntBe(4);
    if size.None? {
      return Halted(ShortRead);
    }
    assert size.value == Chunks.I32(buf.data[start..start + 4]);
    var text := buf.ReadEach(if size.value < 0 then 0 else size.value);
    if text.None? {
      return Halted(ShortRead);
    }
    r := Ok(Chunks.TextChunk(chunkType.value, size.value, text.value));
  }

  /** The ID3 versions this snapshot names: 2.0-2.2, 2.3 and 2.4. */
  predicate ID3VersionKnown(version: seq<Byte>)
  {
    version == [2, 0] || version == [3, 0] || version == [4, 0]
  }

  /** The id must start with "ID3"; its fourth byte is the major version
      and the next byte in the stream the minor one. */
  function ID3Spec(data: seq<Byte>, pos: nat, id: Id): (p: Parse<ID3Chunk, ChunkError>)
    ensures id[..3] != ID3 ==> p == Parse(Err(InvalidID(id)), pos)
    ensures id[..3] == ID3 ==> (p.result.Halted? <==> pos >= |data|)
    ensures id[..3] == ID3 && pos < |data| ==>
              && p.next == pos + 1
              && (p.result.Ok? <==> ID3VersionKnown([id[3], data[pos]]))
              && (p.result.Ok? ==> p.result.value.version == [id[3], data[pos]])
              && (p.result.Err? ==> p.result.error == InvalidID3Version([id[3], data[pos]]))
  {
    if id[..3] != ID3_PADDED[..3] then Parse(Err(InvalidID(id)), pos)
    else if pos >= |data| then Parse(Halted(ShortRead), pos)
    else
      var version := [id[3], data[pos]];
      if ID3VersionKnown(version) then Parse(Ok(ID3Chunk(version)), pos + 1)
      else Parse(Err(InvalidID3Version(version)), pos + 1)
  }

  method BuildID3(buf: Cursor, cb: ChunkBuilder) returns (r: Outcome<ID3Chunk>)
    modifies buf
    ensures r == ID3Spec(buf.data, old(buf.pos), cb.id).result
    ensures !r.Halted? ==> buf.pos == ID3Spec(buf.data, old(buf.pos), cb.id).next
  {
    if cb.id[..3] != ID3_PADDED[..3] {
      return Err(InvalidID(cb.id));
    }
    var minor := buf.ReadU8();
    if minor.None? {
      return Halted(ShortRead);
    }
    var version := [cb.id[3], minor.value];
    if ID3VersionKnown(version) {
      r := Ok(ID3Chunk(version));
    } else {
      r := Err(InvalidID3Version(version));
    }
  }

  // ---------------------------------------------------------------------
  // load_chunks

  /** One turn of the `load_chunks` loop: go on from `next` with new
      slots, or stop with a panic. */
  datatype Step = Continue(slots: Slots, next: nat) | Stop(halt: Halt)

  /** Where the walk ends: the panic, and the slots filled before it. */
  datatype Ending = Ending(halt: Halt, slots: Slots)

  /** Tags the loop recognises but only logs, and any tag it does not
      know: the loop moves straight on to the next four bytes. */
  predicate Skipped(id: Id)
  {
    !(id == COMMON || id == SOUND || IsTextId(id) || id == FVER || id[..3] == ID3)
  }

  function StepSpec(data: seq<Byte>, pos: nat, s: Slots): (r: Step)
    ensures pos + 4 > |data| ==> r == Stop(ShortRead)
    ensures r.Continue? ==> pos + 4 <= r.next <= |data| && r.slots.size == s.size
    ensures r.Continue? ==> r.slots.chunks == s.chunks || (|r.slots.chunks| == |s.chunks| + 1 && r.slots.chunks[..|s.chunks|] == s.chunks)
    ensures pos + 4 <= |data| && data[pos..pos + 4] == FVER ==> r == Stop(Unimplemented)
    ensures pos + 4 <= |data| && Skipped(data[pos..pos + 4]) ==> r == Continue(s, pos + 4)
  {
    if pos + 4 > |data| then Stop(ShortRead)
    else
      var id: Id := data[pos..pos + 4];
      var p := pos + 4;
      if id == COMMON then
        match CommonSpec(data, p, id)
        case Parse(Ok(c), next) => Continue(s.(common := Some(c)), next)
        case Parse(Halted(h), _) => Stop(h)
      else if id == SOUND then
        match SoundSpec(data, p, id)
        case Parse(Ok(c), next) => Continue(s.(sound := Some(c)), next)
        case Parse(Halted(h), _) => Stop(h)
      else if Chunks.TextTypeOf(id).Some? then
        match TextSpec(data, p, id)
        case Parse(Ok(t), next) => Continue(s.(chunks := s.chunks + [TextItem(t)]), next)
        case Parse(Halted(h), _) => Stop(h)
      else if id == FVER then Stop(Unimplemented)
      else if id[..3] == ID3_PADDED[..3] then
        match ID3Spec(data, p, id)
        case Parse(Ok(t), next) => Continue(s.(chunks := s.chunks + [ID3Item(t)]), next)
        case Parse(Err(_), next) => Continue(s, next)
        case Parse(Halted(h), _) => Stop(h)
      else Continue(s, p)
  }

  /** The loop, run to its panic. */
  function Walk(data: seq<Byte>, pos: nat, s: Slots): Ending
    decreases |data| - pos
  {
    match StepSpec(data, pos, s)
    case Stop(h) => Ending(h, s)
    case Continue(next, p) => Walk(data, p, next)
  }

  /** One turn of the walk. */
  lemma WalkStep(data: seq<Byte>, pos: nat, s: Slots, next: Slots, p: nat)
    requires StepSpec(data, pos, s) == Continue(next, p)
    ensures Walk(data, pos, s) == Walk(data, p, next)
  {
  }

  /** A text id dispatches to the text builder and appends its chunk. */
  lemma StepOfText(data: seq<Byte>, pos: nat, s: Slots)
    requires pos + 4 <= |data| && IsTextId(data[pos..pos + 4])
    requires TextSpec(data, pos + 4, data[pos..pos + 4]).result.Ok?
    ensures var p := TextSpec(data, pos + 4, data[pos..pos + 4]);
            StepSpec(data, pos, s) == Continue(s.(chunks := s.chunks + [TextItem(p.result.value)]), p.next)
  {
    var id: Id := data[pos..pos + 4];
    assert id != COMMON && id != SOUND;
  }

  /** A COMM tag dispatches to the Common builder: its chunk overwrites
      the Common slot, or its panic ends the walk. */
  lemma StepOfCommon(data: seq<Byte>, pos: nat, s: Slots)
    requires pos + 4 <= |data| && data[pos..pos + 4] == COMMON
    ensures var p := CommonSpec(data, pos + 4, COMMON);
            StepSpec(data, pos, s)
            == if p.result.Ok? then Continue(s.(common := Some(p.result.value)), p.next) else Stop(p.result.halt)
  {
  }

  /** An SSND tag dispatches to the Sound Data builder: its chunk
      overwrites the Sound slot, or its panic ends the walk. */
  lemma StepOfSound(data: seq<Byte>, pos: nat, s: Slots)
    requires pos + 4 <= |data| && data[pos..pos + 4] == SOUND
    ensures var p := SoundSpec(data, pos + 4, SOUND);
            StepSpec(data, pos, s)
            == if p.result.Ok? then Continue(s.(sound := Some(p.result.value)), p.next) else Stop(p.result.halt)
  {
    assert data[pos..pos + 4] != COMMON;
  }

  /** A tag starting with "ID3" dispatches to the ID3 builder: a known
      version appends the chunk, an unknown one is only logged and leaves
      the slots as they were, and a short read ends the walk. */
  lemma StepOfID3(data: seq<Byte>, pos: nat, s: Slots)
    requires pos + 4 <= |data| && data[pos..pos + 3] == ID3
    ensures var p := ID3Spec(data, pos + 4, data[pos..pos + 4]);
            StepSpec(data, pos, s)
            == match p.result
               case Ok(chunk) => Continue(s.(chunks := s.chunks + [ID3Item(chunk)]), p.next)
               case Err(_) => Continue(s, p.next)
               case Halted(h) => Stop(h)
  {
    var id: Id := data[pos..pos + 4];
    assert id[..3] == data[pos..pos + 3];
    assert id[0] == 'I' as int;
    assert id != COMMON && id != SOUND && !IsTextId(id) && id != FVER;
  }

  /** A whole encoded Sound Data chunk: the walk fills the Sound slot with
      it and carries on right after its payload. */
  lemma StepOfSoundChunk(data: seq<Byte>, pos: nat, offset: nat, blockSize: nat, soundData: seq<Byte>, s: Slots)
    requires offset < 0x1_0000_0000 && blockSize < 0x1_0000_0000 && |soundData| + 8 < 0x8000_0000
    requires Chunks.BytesAt(data, pos, SOUND + SoundChunkBytes(offset, blockSize, soundData))
    ensures StepSpec(data, pos, s)
            == Continue(s.(sound := Some(Chunks.SoundDataChunk(|soundData| + 8, offset, blockSize, soundData))),
                        pos + 16 + |soundData|)
  {
    Chunks.SplitAt(data, pos, SOUND, SoundChunkBytes(offset, blockSize, soundData));
    SoundOfBytes(data, pos + 4, offset, blockSize, soundData);
    StepOfSound(data, pos, s);
  }

  /** The walk never changes the form's size. */
  lemma {:induction false} WalkKeepsSize(data: seq<Byte>, pos: nat, s: Slots)
    ensures Walk(data, pos, s).slots.size == s.size
    decreases |data| - pos
  {
    match StepSpec(data, pos, s)
    case Stop(_) =>
    case Continue(next, p) => WalkKeepsSize(data, p, next);
  }

  /** Chunks are only ever appended: the ones already held stay, in order,
      at the front. */
  lemma {:induction false} WalkKeepsEarlierChunks(data: seq<Byte>, pos: nat, s: Slots)
    ensures |s.chunks| <= |Walk(data, pos, s).slots.chunks|
    ensures Walk(data, pos, s).slots.chunks[..|s.chunks|] == s.chunks
    decreases |data| - pos
  {
    match StepSpec(data, pos, s)
    case Stop(_) =>
    case Continue(next, p) =>
      WalkKeepsEarlierChunks(data, p, next);
      var final := Walk(data, p, next).slots.chunks;
      assert final[..|next.chunks|][..|s.chunks|] == final[..|s.chunks|];
  }

  // ---------------------------------------------------------------------
  // Writing chunks back

  /** A whole text chunk: id, size, text. */
  function TextChunkBytes(id: Id, text: seq<Byte>): (s: seq<Byte>)
    requires |text| < 0x8000_0000
    ensures |s| == 8 + |text|
  {
    id + Chunks.TextBytes(text)
  }

  lemma TextOfBytes(data: seq<Byte>, pos: nat, id: Id, text: seq<Byte>)
    requires IsTextId(id) && |text| < 0x8000_0000
    requires Chunks.BytesAt(data, pos, Chunks.TextBytes(text))
    ensures TextSpec(data, pos, id)
            == Parse(Ok(Chunks.TextChunk(Chunks.TextTypeOf(id).value, |text|, text)), pos + 4 + |text|)
  {
    Chunks.SplitAt(data, pos, Chunks.EncodeI32(|text|), text);
  }

  /** An encoded form header reads back as its size when the type is
      AIFF, and as the payload-less bad form type otherwise. */
  lemma FormOfHeader(data: seq<Byte>, pos: nat, size: int, formType: Id)
    requires -0x8000_0000 <= size < 0x8000_0000
    requires Chunks.BytesAt(data, pos, Chunks.FormHeader(size, formType))
    ensures FormSpec(data, pos, FORM)
            == Parse(if formType == AIFF then Ok(size) else Err(InvalidFormType), pos + 8)
  {
    Chunks.SplitAt(data, pos, Chunks.EncodeI32(size), formType);
  }

  /** An encoded Common chunk reads back field for field, with the ten
      rate bytes as they were written, whatever they hold. */
  lemma CommonOfBytes(data: seq<Byte>, pos: nat, size: int, numChannels: int, numSampleFrames: nat,
                      sampleSize: int, rate: seq<Byte>)
    requires -0x8000_0000 <= size < 0x8000_0000 && numSampleFrames < 0x1_0000_0000
    requires -0x8000 <= numChannels < 0x8000 && -0x8000 <= sampleSize < 0x8000
    requires |rate| == 10
    requires Chunks.BytesAt(data, pos, Chunks.CommonBytes(size, numChannels, numSampleFrames, sampleSize, rate))
    ensures CommonSpec(data, pos, COMMON)
            == Parse(Ok(CommonChunk(size, numChannels, numSampleFrames, sampleSize, rate)), pos + 22)
  {
    Chunks.CommonFieldsAt(data, pos, size, numChannels, numSampleFrames, sampleSize, rate);
  }

  /** The bytes after "SSND" as this snapshot reads them: the size field
      counts the offset and block size as well as the payload. */
  function SoundChunkBytes(offset: nat, blockSize: nat, soundData: seq<Byte>): (s: seq<Byte>)
    requires offset < 0x1_0000_0000 && blockSize < 0x1_0000_0000 && |soundData| + 8 < 0x8000_0000
    ensures |s| == 12 + |soundData|
  {
    Chunks.EncodeI32(|soundData| + 8) + Chunks.EncodeU32(offset) + Chunks.EncodeU32(blockSize) + soundData
  }

  /** An encoded Sound Data chunk reads back with its payload, and the
      cursor ends right after it. */
  lemma SoundOfBytes(data: seq<Byte>, pos: nat, offset: nat, blockSize: nat, soundData: seq<Byte>)
    requires offset < 0x1_0000_0000 && blockSize < 0x1_0000_0000 && |soundData| + 8 < 0x8000_0000
    requires Chunks.BytesAt(data, pos, SoundChunkBytes(offset, blockSize, soundData))
    ensures SoundSpec(data, pos, SOUND)
            == Parse(Ok(Chunks.SoundDataChunk(|soundData| + 8, offset, blockSize, soundData)), pos + 12 + |soundData|)
  {
    var head := Chunks.EncodeI32(|soundData| + 8) + Chunks.EncodeU32(offset);
    Chunks.SplitAt(data, pos, head + Chunks.EncodeU32(blockSize), soundData);
    Chunks.SplitAt(data, pos, head, Chunks.EncodeU32(blockSize));
    Chunks.SplitAt(data, pos, Chunks.EncodeI32(|soundData| + 8), Chunks.EncodeU32(offset));
  }

  /** The slots with `items` appended to the chunks. */
  function Appended(s: Slots, items: seq<AnyChunk>): Slots
  {
    s.(chunks := s.chunks + items)
  }

  /** A text chunk entry: an id naming one of the four text chunks and
      text short enough for an i32 size. */
  datatype TextEntry = TextEntry(id: Id, text: seq<Byte>)

  predicate ValidEntry(e: TextEntry)
  {
    IsTextId(e.id) && |e.text| < 0x8000_0000
  }

  /** The chunk the walk appends for an entry. */
  function ItemOf(e: TextEntry): AnyChunk
    requires ValidEntry(e)
  {
    TextItem(Chunks.TextChunk(Chunks.TextTypeOf(e.id).value, |e.text|, e.text))
  }

  /** Past a whole text chunk the walk carries on with it appended. */
  lemma WalkPastText(data: seq<Byte>, pos: nat, e: TextEntry, s: Slots, next: Slots, p: nat)
    requires ValidEntry(e) && Chunks.BytesAt(data, pos, TextChunkBytes(e.id, e.text))
    requires next == Appended(s, [ItemOf(e)]) && p == pos + 8 + |e.text|
    ensures Walk(data, pos, s) == Walk(data, p, next)
  {
    assert StepSpec(data, pos, s) == Continue(next, p) by {
      Chunks.SplitAt(data, pos, e.id, Chunks.TextBytes(e.text));
      assert data[pos..pos + 4] == e.id;
      TextOfBytes(data, pos + 4, e.id, e.text);
      StepOfText(data, pos, s);
    }
    WalkStep(data, pos, s, next, p);
  }

  predicate ValidEntries(entries: seq<TextEntry>)
  {
    forall i | 0 <= i < |entries| :: ValidEntry(entries[i])
  }

  function EncodeTexts(entries: seq<TextEntry>): seq<Byte>
    requires ValidEntries(entries)
  {
    if entries == [] then []
    else TextChunkBytes(entries[0].id, entries[0].text) + EncodeTexts(entries[1..])
  }

  /** The chunks the walk appends for `entries`. */
  function TextItems(entries: seq<TextEntry>): seq<AnyChunk>
    requires ValidEntries(entries)
  {
    if entries == [] then [] else [ItemOf(entries[0])] + TextItems(entries[1..])
  }

  /** The first entry of a run is in place, and the rest of the run after it. */
  lemma FirstTextInPlace(data: seq<Byte>, pos: nat, entries: seq<TextEntry>, mid: nat)
    requires ValidEntries(entries) && entries != []
    requires Chunks.BytesAt(data, pos, EncodeTexts(entries))
    requires mid == pos + 8 + |entries[0].text|
    ensures ValidEntries(entries[1..])
    ensures Chunks.BytesAt(data, pos, TextChunkBytes(entries[0].id, entries[0].text))
    ensures Chunks.BytesAt(data, mid, EncodeTexts(entries[1..]))
    ensures pos + |EncodeTexts(entries)| == mid + |EncodeTexts(entries[1..])|
  {
    var e := entries[0];
    ValidEntriesTail(entries);
    var first, rest := TextChunkBytes(e.id, e.text), EncodeTexts(entries[1..]);
    assert EncodeTexts(entries) == first + rest;
    Chunks.SplitAt(data, pos, first, rest);
  }

  lemma ValidEntriesTail(entries: seq<TextEntry>)
    requires ValidEntries(entries) && entries != []
    ensures ValidEntries(entries[1..])
  {
    forall i | 0 <= i < |entries| - 1 ensures ValidEntry(entries[1..][i]) {
      assert entries[1..][i] == entries[i + 1];
    }
  }

  /** Appending the first item, then the rest, appends them all. */
  lemma AppendFirstText(entries: seq<TextEntry>, s: Slots)
    requires ValidEntries(entries) && entries != [] && ValidEntries(entries[1..])
    ensures Appended(Appended(s, [ItemOf(entries[0])]), TextItems(entries[1..])) == Appended(s, TextItems(entries))
  {
    assert s.chunks + [ItemOf(entries[0])] + TextItems(entries[1..]) == s.chunks + TextItems(entries);
  }

  /** A run of text chunks followed by fewer than four bytes: the walk
      appends one text chunk per entry, in order, then panics at the end of
      the data. */
  lemma {:induction false} WalkOfTexts(data: seq<Byte>, pos: nat, entries: seq<TextEntry>, s: Slots)
    requires ValidEntries(entries)
    requires Chunks.BytesAt(data, pos, EncodeTexts(entries))
    requires |data| < pos + |EncodeTexts(entries)| + 4
    ensures Walk(data, pos, s) == Ending(ShortRead, Appended(s, TextItems(entries)))
    decreases |entries|
  {
    if entries == [] {
      assert StepSpec(data, pos, s) == Stop(ShortRead);
      assert s.chunks + [] == s.chunks;
    } else {
      var next := Appended(s, [ItemOf(entries[0])]);
      var mid := pos + 8 + |entries[0].text|;
      FirstTextInPlace(data, pos, entries, mid);
      WalkPastText(data, pos, entries[0], s, next, mid);
      WalkOfTexts(data, mid, entries[1..], next);
      AppendFirstText(entries, s);
    }
  }

  // ---------------------------------------------------------------------
  // The two snapshots side by side

  /** Given the same bytes, the later snapshot takes the whole size field
      as the payload length where this one subtracts the eight bytes of
      offset and block size. */
  lemma SoundSnapshotsDiffer(data: seq<Byte>, pos: nat)
    requires SoundSpec(data, pos, SOUND).result.Ok? && Chunks.SoundSpec(data, pos, SOUND).result.Ok?
    ensures SoundSpec(data, pos, SOUND).result.value.size == Chunks.SoundSpec(data, pos, SOUND).result.value.size
    ensures var size := Chunks.SoundSpec(data, pos, SOUND).result.value.size;
            |Chunks.SoundSpec(data, pos, SOUND).result.value.soundData|
            == |SoundSpec(data, pos, SOUND).result.value.soundData| + (if size >= 8 then 8 else size)
  {
  }

  /** The version gates: this snapshot names exactly 2.0, 3.0 and 4.0; the
      later one lets 0.0 and 1.0 through as well. */
  lemma ID3VersionSnapshots(version: seq<Byte>)
    requires |version| == 2
    ensures ID3VersionKnown(version) <==> Chunks.ID3VersionSupported(version) && version[0] >= 2
  {
  }
}
