# aiff-rs read path, in Dafny

A model of the read path of `aiff-rs`, an AIFF audio container reader, with proofs about it.
AIFF is a tagged sequence of chunks: a FORM header, then chunks such as Common (COMM),
Sound Data (SSND) and the text chunks, each a four-byte id, a big-endian size and a payload.
The model covers three parts:

- **Sample-rate decoder** (`extended.dfy`, src/extended.rs).
  It decodes the 80-bit IEEE 754 extended-precision sample rate of the Common chunk.
  - The Rust code sums the significand bit by bit in `f64`.
  - The model keeps the exact real value that sum approximates.
  - `ParseExtendedPrecisionBytes` follows the Rust loops and is proved equal to `DecodeExtended`.
  - `DecodeExtended` is the reference definition: (-1)^sign · 2^(exponent−16383) · significand, with the `unimplemented!` cases as outcomes of their own.
- **Sample readers** (`samples.dfy`, src/samples.rs).
  These are the big-endian two's complement `SampleType::parse` functions for 8, 16, 24 and 32 bits.
  - `Samples8`, `Samples16` and `Samples32` are classes whose `Next` advances `point`.
  - Each `Next` is proved against a step function.
  - What a whole run of the iterator yields is stated as a lemma.
- **Chunk parsers**, in the three snapshots the repository contains:
  - `chunks.dfy` (module `Chunks`, src/chunks.rs): the latest builders, reading through a cursor.
  - `legacychunks.dfy` (module `LegacyChunks`, src/chunks/mod.rs): the `bytes::Buf` builders and the `load_chunks` dispatch loop.
  - `prototype.dfy` (module `Prototype`, src/main.rs): the first prototype and its `main` loop.

  Each builder is built the same way:
  - It is a `method` on a `Cursors.Cursor` class, a byte sequence plus a position that reads advance.
  - It is specified by a function `XSpec(data, pos, id)`. The function gives the outcome (chunk, error value, or panic) and the position after it.
  - Encoders (`FormHeader`, `CommonBytes`, `SoundBytes`, `TextBytes`, `TextChunkBytes`) are the partners of the builders. The round-trip lemmas show that each builder reads back what was written.
  - The dispatch loops are modelled twice: as methods whose postcondition ties the final state to a `Walk` function, and as lemmas about `Walk`.

`base.dfy` holds the arithmetic:
- big-endian integers and two's complement;
- `Scaled`/`Scale2`, which are exact powers of two applied to reals without nonlinear products;
- facts about `Pow2`.

`ids.dfy` holds the chunk ids of src/chunks/ids.rs and src/ids.rs.

Where the code departs from the AIFF 1.3 specification (Apple Computer, 1989) or the EA IFF 85 chunk rules it builds on, the model follows the code:
- **Sound data length.** AIFF 1.3 counts the offset and blockSize fields (8 bytes) in the SSND ckSize. src/chunks/mod.rs reads ckSize − 8 payload bytes. src/chunks.rs reads ckSize bytes, 8 too many. Each snapshot is modelled as written, and `LegacyChunks.SoundSnapshotsDiffer` states the difference.
- **Pad byte.** EA IFF 85 follows a chunk of odd length with a pad byte. The text builders skip none.
- **Sample points.** AIFF 1.3 stores sample points as two's complement, each in ceil(sampleSize / 8) bytes, one after another. The 24-bit read zero-extends (Finding F2). The iterators read at `4 * point` whatever the width (Finding F4), and stop quietly when the data runs out.
- **Skipping chunks.** EA IFF 85 has a reader skip a chunk it does not parse by its ckSize. `load_chunks` moves on only past the four id bytes, so the size field is read as the next id (src/chunks/mod.rs:93-98, 112-113). `main` moves on eight bytes, so the chunk's data is read as the next header (src/main.rs:214-220, 228).

Panics are part of the model:
- Every Rust panic is an explicit outcome `Halted(h)` (`Cursors.Halt`): `unwrap` of a short read, `bytes::Buf` running out, `unimplemented!`, and `vec!` capacity overflow.
- These are never preconditions, since the parsers are called on arbitrary input.
- A `Built<T, E>` is `Ok(chunk)`, `Err(error)` or `Halted(h)`.

## Model

| member | source | states |
|---|---|---|
| Extended.ReadBinaryFraction | src/extended.rs:9-19 | the loop adds 2^-(idx+bias+8·offset) for each set bit, so the result is `byte` · 2^-(7+bias+8·offset) exactly |
| Extended.WeightedBitsValue | src/extended.rs:11-17 | after n iterations the sum is the number formed by the top n bits, scaled by 2^-(n−1+bias) |
| Extended.SignificandPrefix | src/extended.rs:31-34 | each iteration of the significand loop appends one byte to the u64 prefix; after eight bytes the sum is the significand, u64(b[2..10]) / 2^63 |
| Extended.ParseExtendedPrecisionBytes | src/extended.rs:22-58 | the decoder as written (bitwise sum, sign clear, exponent match, guard, scale, sign), computed over exact reals, returns exactly `DecodeExtended(b)` |
| Extended.MatchExponentDecodes | src/extended.rs:36-57 | the sign test, the `b[0] ^= FIRST_POS`, the two reserved byte patterns, the `as i16` cast and the bias subtraction together compute the reference decoding |
| Extended.AsI16 | src/extended.rs:47-49 | `as i16` keeps values below 2^15 and stays within i16 |
| Extended.ExponentBytes | src/extended.rs:36-47 | with the sign bit cleared, the u16 of bytes 0-1 is the biased exponent and is below 2^15, so the cast and subtraction cannot wrap |
| Extended.ExponentCases | src/extended.rs:42-44 | the match arms (0,0) and (0x7F,0xFF) are exactly the exponents 0 and 0x7FFF |
| Extended.DecodedMagnitude | src/extended.rs:45-55 | every decoded value has magnitude strictly between 2^(e−16383) and 2^(e−16382), e being the biased exponent, because the guarded significand lies strictly between 1 and 2 |
| Extended.SignificandRange | src/extended.rs:31-34 | the summed significand lies in [0, 2) |
| Extended.SignificandAboveOne | src/extended.rs:45-46 | on the exact sum, the guard `significand > 1` holds iff u64(b[2..10]) > 2^63 (the `f64` sum differs just above 2^63; see Left out) |
| Extended.DecodeNeedsIntegerBit | src/extended.rs:45-46 | every decoded value has the top bit of byte 2 set, as the comment on the guard says |
| Extended.SignFlip | src/extended.rs:36-40 | toggling the sign bit negates a decoded value, keeps every non-value outcome, and is its own inverse |
| Extended.ToggleTopBit | src/extended.rs:39 | `^= 0x80` flips the top bit, keeps the low seven bits, and undoes itself |
| Extended.FieldsSignFlip | src/extended.rs:51-54 | the sign applies to the value case only |
| Extended.EncodeFields | src/extended.rs:36-47 | the encoder puts sign, exponent and significand where the decoder reads them |
| Extended.EncodeOfFields | src/extended.rs:36-47 | any ten bytes are the encoding of their own three fields (the encoding is onto) |
| Extended.DecodeOfEncode | src/extended.rs:22-58 | decoding an encoded normal number with significand above 2^63 gives ±mantissa · 2^(e−16383−63) |
| Extended.DecodeNormalFields | src/extended.rs:46-55 | ten bytes with known normal fields decode to ±mantissa · 2^(e−16383−63) |
| Extended.PowerOfTwoRateRejected | src/extended.rs:45-46 | F1 as written: 32768 Hz (significand exactly 1) is refused as not normalized |
| Extended.CorrectedDiffersOnlyAtOne | src/extended.rs:46 | the `>=` guard changes the outcome exactly for normal exponents with significand 1, and there it yields a value |
| Extended.PowerOfTwoRateCorrected | src/extended.rs:45-55 | F1 corrected: the `>=` guard decodes those bytes as 32768.0 |
| Extended.CorrectedDecodeOfEncode | src/extended.rs:45-55 | F1 corrected: every normalized encoding (integer bit set) decodes to its value |
| Extended.CorrectedNormalFields | src/extended.rs:46-55 | the corrected decoder on ten bytes with known normal fields |
| Samples.ParseI8 | src/samples.rs:14-21 | a sample iff width is 8 and `pos` is in range; width below 8 is `unimplemented!`, above is `panic!`; the value is the byte as two's complement; at width 8 past the end, the index panic |
| Samples.ParseI16 | src/samples.rs:25-32 | a sample iff width is 16 and two bytes remain; the big-endian i16; the two panics by width, and the index panic at width 16 when fewer than two bytes remain |
| Samples.ParseI32 | src/samples.rs:36-50 | width 32 gives the big-endian i32; width 24 gives the three bytes behind a zero byte (always in [0, 2^24)); width ≤16 panics; other widths are unimplemented; at widths 32 and 24 a short read is the index panic |
| Samples.I8At | src/samples.rs:20 | `i8::from_be_bytes` as two's complement of one byte |
| Samples.I16At | src/samples.rs:31 | `i16::from_be_bytes` written out digit by digit |
| Samples.ZeroExtended24At | src/samples.rs:44-46 | the 24-bit read is the unsigned value of three bytes |
| Samples.I32At | src/samples.rs:38-43 | `i32::from_be_bytes` equals the digit-by-digit two's complement value and lies in i32 |
| Samples.Step8 | src/samples.rs:71-81 | `next` yields iff 4·point+2 ≤ len, and the value is `i8::parse` at 4·point; it never goes out of bounds |
| Samples.Step16 | src/samples.rs:92-105 | the same for the i16 at 4·point |
| Samples.Step32 | src/samples.rs:127-142 | the index panic happens exactly when len = 4·point+3; it yields iff 4·point+4 ≤ len, with the i32 at 4·point |
| Samples.Samples8.Next | src/samples.rs:71-81 | returns the step's sample and advances `point` by one, or returns `None` and leaves `point` alone |
| Samples.Samples16.Next | src/samples.rs:92-105 | as for `Samples8`, with the i16 at 4·point |
| Samples.Samples32.New | src/samples.rs:115-121 | starts at point 0 over the given bytes |
| Samples.Samples32.Next | src/samples.rs:127-142 | the outcome is `Step32`; `point` has moved on by one unless the iterator is exhausted (it moves before the panicking read) |
| Samples.Yield8Contents | src/samples.rs:68-81 | a run of `Samples8` from `point` yields (len+2)/4 − point samples, the i-th read at 4·(point+i) |
| Samples.Yield16Contents | src/samples.rs:89-105 | a run of `Samples16` yields the i16 at 4·(point+i) for each i, and (len+2)/4 − point of them |
| Samples.FramesOfEncode | src/samples.rs:89-105 | F4 corrected: reading consecutive samples at the sample width inverts encoding them |
| Samples.Samples16SkipsSamples | src/samples.rs:93-104 | F4 as written: of the 16-bit samples 1 and 2, `Samples16` yields only 1, where a width-stride reader yields both |
| Samples.Samples8SkipsSamples | src/samples.rs:72-80 | F4 as written: of the 8-bit samples 1 and 2, `Samples8` yields only 1 |
| Samples.Samples32ShortFramePanics | src/samples.rs:128-141 | F3 as written: three bytes pass the guard `target + 3 > len`, and the read of index 3 is out of range |
| Samples.Step32Corrected | src/samples.rs:127-142 | F3 corrected: with the guard `target + 4 > len`, `next` never goes out of bounds and yields iff a whole sample remains |
| Samples.Yield32CorrectedFrames | src/samples.rs:124-143 | the corrected iterator yields every 32-bit sample from 4·point, in order |
| Samples.Samples32CorrectedRoundTrip | src/samples.rs:124-143 | F3 corrected: the corrected iterator over encoded i32 samples yields them all back |
| Samples.Width24ZeroExtends | src/samples.rs:44-46 | F2 as written: −65536, encoded as FF 00 00, is read as 0xFF0000 |
| Samples.ParseI32SignExtended | src/samples.rs:36-50 | F2 corrected: same as `i32::parse` except that the 24-bit branch sign-extends, so it lies in [−2^23, 2^23) |
| Samples.Width24RoundTrip | src/samples.rs:44-46 | F2 corrected: every 24-bit sample survives encoding and the sign-extending parse |
| Cursors.AsUsize | src/chunks.rs:178 | `size as usize` keeps a non-negative i32 and sends a negative one above 2^64 − 2^31 |
| Cursors.Cursor.constructor | src/main.rs:196-197 | a cursor over the bytes starts at position 0 |
| Cursors.Cursor.ReadExact | src/chunks.rs:133-134 | the next n bytes and the position advanced by n, or failure with the position unchanged when fewer remain |
| Cursors.Cursor.ReadU8 | src/chunks/mod.rs:207 | `get_u8`: the byte at the position, advancing by one, or failure at the end |
| Cursors.Cursor.ReadUintBe | src/chunks/mod.rs:156 | `get_u32_be`: the unsigned big-endian value of the next bytes |
| Cursors.Cursor.ReadIntBe | src/chunks/mod.rs:126 | `get_i32_be`/`get_i16_be`: the signed big-endian value of the next bytes |
| Cursors.Cursor.ReadEach | src/chunks/mod.rs:206-208 | pushing `get_u8` `count` times reads the next `count` bytes in order, and fails if any is missing |
| Cursors.Cursor.SeekRelative | src/chunks.rs:260-262 | `seek(Current(d))` fails only before the start; past the end is allowed |
| Chunks.FormChunk.constructor | src/chunks.rs:79-84 | a new form holds its size and nothing else |
| Chunks.FormChunk.Common | src/chunks.rs:38-40 | returns the Common slot, changing nothing |
| Chunks.FormChunk.Sound | src/chunks.rs:46-48 | returns the Sound Data slot, changing nothing |
| Chunks.FormChunk.Chunks | src/chunks.rs:54-56 | returns the other chunks in the order they were added, changing nothing |
| Chunks.FormChunk.SetCommon | src/chunks.rs:42-44 | fills the Common slot and changes nothing else |
| Chunks.FormChunk.SetSound | src/chunks.rs:50-52 | fills the Sound slot and changes nothing else |
| Chunks.FormChunk.AddChunk | src/chunks.rs:58-60 | appends at the end, keeping earlier chunks and both slots |
| Chunks.FormSpec | src/chunks.rs:64-91 | a non-FORM id is `InvalidID`; fewer than 8 bytes panic; the result is Ok iff the form type is "AIFF" (AIFC and others are `InvalidFormType` with the type); the size is an i32 |
| Chunks.I32 | src/chunks.rs:73 | a big-endian i32 lies in the i32 range |
| Chunks.BuildForm | src/chunks.rs:64-91 | the builder's outcome and position are those of `FormSpec`; an Ok form is fresh with the read size and empty slots |
| Chunks.CommonSpec | src/chunks.rs:103-144 | a non-COMM id is `InvalidID`; a COMM chunk never errs; fewer than 22 bytes is a short read; Ok iff the rate decodes to a value |
| Chunks.BuildCommon | src/chunks.rs:103-144 | outcome and position are those of `CommonSpec` (the four fields, then ten rate bytes through the decoder) |
| Chunks.SoundSpec | src/chunks.rs:155-187 | Ok gives size ≥ 0 and exactly `size` bytes of sound data after the 12 header bytes; a negative size is a capacity-overflow panic |
| Chunks.ReadSized | src/chunks.rs:178-179 | `vec![0; size as usize]` then `read_exact`: a capacity panic above `isize::MAX`, a short read, or exactly the next `size` bytes |
| Chunks.BuildSoundData | src/chunks.rs:155-187 | outcome and position are those of `SoundSpec` |
| Chunks.TextTypeOf | src/chunks.rs:220-226 | each of NAME, AUTH, "(c) ", ANNO maps to its own chunk type, and only those ids map to one |
| Chunks.TextSpec | src/chunks.rs:216-238 | a non-text id is `InvalidID`; Ok gives the id's type, size ≥ 0 and exactly `size` bytes of text after the size field |
| Chunks.BuildText | src/chunks.rs:216-238 | outcome and position are those of `TextSpec` |
| Chunks.ID3Spec | src/chunks.rs:250-275 | the id must start or end with "ID3"; the version is the two bytes 3-4 past the position; Ok iff major ≤ 4 and minor = 0, otherwise `InvalidID3Version(version)`; the cursor is back at its start after the version gate |
| Chunks.BuildID3v2 | src/chunks.rs:250-275 | outcome as `ID3Spec`, and the cursor is back at its start after the version gate unless it panicked |
| Chunks.EncodeI32 | src/chunks.rs:73 | encoding an i32 and reading it back gives it again |
| Chunks.EncodeI16 | src/chunks.rs:113 | encoding an i16 and reading it back gives it again |
| Chunks.EncodeU32 | src/chunks.rs:114 | encoding a u32 and reading it back gives it again |
| Chunks.FormOfHeader | src/chunks.rs:73-90 | an encoded header reads back as its size when the type is AIFF, and as `InvalidFormType(type)` otherwise |
| Chunks.CommonOfBytes | src/chunks.rs:111-143 | an encoded Common chunk reads back field for field, with the rate decoded |
| Chunks.CommonFieldsAt | src/chunks.rs:111-116 | each field of an encoded Common chunk sits at the offset the builder reads it from |
| Chunks.SoundOfBytes | src/chunks.rs:163-186 | an encoded Sound Data chunk reads back with its payload, ending right after it |
| Chunks.TextOfBytes | src/chunks.rs:228-237 | an encoded text chunk reads back with its text, ending right after it |
| Chunks.NegativeSizeOverflows | src/chunks.rs:228-229 | a negative size field makes both the sound and the text builder panic on capacity |
| LegacyChunks.NewBuilder | src/chunks/mod.rs:17-21 | the builder holds the next four bytes, or the read panics |
| LegacyChunks.FormChunk.constructor | src/chunks/mod.rs:135 | a new form holds its size and nothing else |
| LegacyChunks.FormChunk.AddCommon | src/chunks/mod.rs:58-60 | overwrites the Common slot, keeping everything else |
| LegacyChunks.FormChunk.AddSound | src/chunks/mod.rs:62-64 | overwrites the Sound slot, keeping everything else |
| LegacyChunks.FormChunk.AddChunk | src/chunks/mod.rs:66-68 | appends one chunk, keeping everything else |
| LegacyChunks.FormChunk.LoadChunks | src/chunks/mod.rs:70-117 | the loop ends only by a panic; that panic and the final form state are those of `Walk` from the starting position and state |
| LegacyChunks.FormSpec | src/chunks/mod.rs:121-138 | non-FORM is `InvalidID`; Ok iff the type is "AIFF", with the big-endian i32 of the four size bytes; any other type, AIFC included, is the payload-less `InvalidFormType` |
| LegacyChunks.FormOfHeader | src/chunks/mod.rs:126-137 | an encoded header reads back as its size when the type is AIFF, and as `InvalidFormType` otherwise |
| LegacyChunks.BuildForm | src/chunks/mod.rs:121-138 | outcome and position are those of `FormSpec`; an Ok form is fresh with empty slots |
| LegacyChunks.CommonSpec | src/chunks/mod.rs:150-183 | non-COMM is `InvalidID`; Ok iff 22 bytes remain; size, channels, frames and sample size are the i32, i16, u32 and i16 at offsets 0, 4, 6 and 10; the rate is the raw ten bytes |
| LegacyChunks.CommonOfBytes | src/chunks/mod.rs:155-182 | an encoded Common chunk reads back field for field, with its ten rate bytes as written |
| LegacyChunks.BuildCommon | src/chunks/mod.rs:150-183 | outcome and position are those of `CommonSpec` |
| LegacyChunks.ReadRate | src/chunks/mod.rs:160-166 | the three `copy_to_slice` calls of 2, 4 and 4 bytes read the next ten bytes in order |
| LegacyChunks.PayloadLength | src/chunks/mod.rs:205-206 | `for _ in 8..size` runs size − 8 times, and not at all when size ≤ 8 |
| LegacyChunks.SoundSpec | src/chunks/mod.rs:194-216 | an SSND chunk is Ok iff its 12 header bytes and max(size − 8, 0) payload bytes are present, and otherwise a short-read panic; Ok gives the size, offset and block size read from the header and exactly that payload |
| LegacyChunks.SoundOfBytes | src/chunks/mod.rs:200-215 | an encoded Sound Data chunk, whose size counts the 8 bytes of offset and block size, reads back with its payload and ends right after it |
| LegacyChunks.BuildSoundData | src/chunks/mod.rs:194-216 | outcome and position are those of `SoundSpec`, reading one byte at a time |
| LegacyChunks.PStringSpec | src/chunks/mod.rs:220-229 | a length byte then that many bytes; Ok iff they are all present |
| LegacyChunks.ReadPString | src/chunks/mod.rs:220-229 | outcome and position are those of `PStringSpec` (the same function is src/main.rs:136-145) |
| LegacyChunks.TextSpec | src/chunks/mod.rs:257-278 | a non-text id is `InvalidID`; Ok gives the size field and max(size, 0) text bytes after it; a negative size reads Ok with empty text (where src/chunks.rs panics on capacity) |
| LegacyChunks.BuildText | src/chunks/mod.rs:257-278 | outcome and position are those of `TextSpec` |
| LegacyChunks.ID3Spec | src/chunks/mod.rs:286-308 | the id must start with "ID3"; the version is [id[3], next byte]; Ok iff it is 2.0, 3.0 or 4.0, otherwise `InvalidID3Version(version)` |
| LegacyChunks.BuildID3 | src/chunks/mod.rs:286-308 | outcome and position are those of `ID3Spec` |
| LegacyChunks.StepSpec | src/chunks/mod.rs:72-116 | one loop turn: short input panics, FVER is `unimplemented!`, logged-only and unknown tags move on four bytes; the size never changes and chunks are only appended |
| LegacyChunks.StepOfText | src/chunks/mod.rs:99-103 | a text id dispatches to the text builder and appends its chunk |
| LegacyChunks.StepOfCommon | src/chunks/mod.rs:77-86 | a COMM tag overwrites the Common slot with the built chunk and goes on after it, or stops with the builder's panic |
| LegacyChunks.StepOfSound | src/chunks/mod.rs:87-92 | an SSND tag overwrites the Sound slot with the built chunk and goes on after it, or stops with the builder's panic |
| LegacyChunks.StepOfID3 | src/chunks/mod.rs:106-111 | a tag starting with "ID3": a known version appends the chunk, an unknown one leaves the slots unchanged, and both go on past the minor-version byte; a short read stops |
| LegacyChunks.StepOfSoundChunk | src/chunks/mod.rs:87-92 | a whole encoded Sound Data chunk fills the Sound slot with its fields and payload, and the walk goes on right after it |
| LegacyChunks.WalkKeepsSize | src/chunks/mod.rs:70-117 | the walk never changes the form's size |
| LegacyChunks.WalkKeepsEarlierChunks | src/chunks/mod.rs:70-117 | chunks already held stay at the front, in order |
| LegacyChunks.TextOfBytes | src/chunks/mod.rs:257-278 | an encoded text chunk reads back with its text |
| LegacyChunks.WalkPastText | src/chunks/mod.rs:99-103 | past a whole text chunk the walk goes on with that chunk appended |
| LegacyChunks.WalkOfTexts | src/chunks/mod.rs:70-117 | a run of encoded text chunks followed by under four bytes: the walk appends one text chunk per entry, in order, then panics on the short read |
| LegacyChunks.SoundSnapshotsDiffer | src/chunks/mod.rs:200-208 | on the same bytes both snapshots read the same size, but this one's payload is 8 bytes shorter (size bytes shorter when size < 8) |
| LegacyChunks.ID3VersionSnapshots | src/chunks/mod.rs:292-303 | this snapshot accepts exactly the later snapshot's versions with major ≥ 2 |
| Prototype.BuilderSpec | src/main.rs:44-52 | a header is Ok iff 8 bytes remain: the four id bytes and an i32 size |
| Prototype.NewBuilder | src/main.rs:44-52 | outcome and position are those of `BuilderSpec` |
| Prototype.FormChunk.constructor | src/main.rs:93-97 | a new form holds its size and no Common chunk |
| Prototype.FormChunk.AddCommon | src/main.rs:76-78 | sets the Common chunk and leaves the size alone |
| Prototype.FormSpec | src/main.rs:82-99 | a non-FORM id is `InvalidFormType`; Ok iff the next four bytes are "AIFF", with the header's size |
| Prototype.BuildForm | src/main.rs:82-99 | outcome and position are those of `FormSpec`; an Ok form is fresh with the header's size |
| Prototype.CommonSpec | src/main.rs:111-126 | no id check; Ok iff 18 bytes remain; the size comes from the header; the rate bytes are consumed and dropped |
| Prototype.BuildCommon | src/main.rs:111-126 | outcome and position are those of `CommonSpec` |
| Prototype.TextSpec | src/main.rs:173-188 | a non-text id is `InvalidID`; Ok gives max(header size, 0) text bytes right at the position; a negative header size reads Ok with empty text |
| Prototype.BuildText | src/main.rs:173-188 | outcome and position are those of `TextSpec` |
| Prototype.StepSpec | src/main.rs:200-229 | one loop turn: short input panics; any tag other than COMM or a text id (SSND included) moves on 8 bytes; the log only grows by one entry |
| Prototype.Run | src/main.rs:199-233 | `main` on the file's bytes ends as `RunSpec`: "unsupported first chunk", or a panic with the log of what the walk parsed |
| Prototype.WalkKeepsSeen | src/main.rs:200-230 | the loop only adds to what it has logged |
| Prototype.StepOfTextChunk | src/main.rs:221-226 | a whole encoded text chunk is logged with its text, and the walk goes on right after it |
| Prototype.StepOfCommonChunk | src/main.rs:205-213 | a whole encoded Common chunk is logged with its fields, whatever its rate bytes, and the walk goes on 26 bytes later |
| Prototype.CommonLayout | src/main.rs:111-113 | each field of an encoded Common chunk sits where the prototype reads it |

## Left out

- Floating point: the decoder's `f64` arithmetic (`powi`, `mul`, and the rounding of the bitwise sum) is modelled over exact reals. The model does not capture rounding, overflow to infinity, or subnormal results.
- Extended.SignificandAboveOne: the equivalence is stated of the exact sum. In `f64`, the loop at src/extended.rs:31-34 rounds the sum to exactly 1.0 for u64(b[2..10]) from 2^63 + 1 to 2^63 + 1279 (for example 40 0E 80 00 00 00 00 00 00 01). For those bytes the source reaches the `unimplemented!` arm (src/extended.rs:56), where `DecodeExtended` and `ParseExtendedPrecisionBytes` return a value.
- Extended.ReadBinaryFraction: requires `byteOffset < 2^28`, so that the Rust `(8 * byte_offset) as i32` cannot wrap. The decoder only passes offsets 0 to 7.
- The bit test `(byte << idx) & FIRST_POS` is stated as a right shift `Shr(byte, 7 - idx) % 2`, which selects the same bit.
- `rust_decimal::Decimal::from_parts` in src/chunks/mod.rs is not modelled. `LegacyChunks.CommonChunk` keeps the ten raw rate bytes in the order they are read.
- The `id3` crate call `id3::Tag::read_from` in src/chunks.rs and the frames it collects are not modelled. The ID3 builder stops at the version gate, and the crate's own failure panics are not modelled. The model's Ok position is therefore the one after the gate (the chunk's start), not the position after the tag that `read_from` would reach.
- `String::from_utf8(..).unwrap()` is not modelled: text is kept as bytes, and the panic on invalid UTF-8 is left out.
- I/O is not modelled:
  - `File::open`, `read_to_end`, `AiffReader`/`ChunkReader::new` and the example programs that ship with the crate;
  - every `println!`.
  - The model starts from the file's bytes in memory.
- Rust panics (`unwrap` of a short read, `bytes::Buf` running out, `unimplemented!`, `vec!` capacity overflow, an index out of range) are modelled as `Halted`/`Stop` outcomes, not as process aborts.
- The cursor's position after a panic is left unspecified.
- The `reader::read_*_be` helpers that src/chunks.rs calls are not part of this model. They are taken to be big-endian reads that panic when short (`Cursor.ReadIntBe`/`ReadUintBe`).
- `Samples8` and `Samples16` have no constructor in the source. The model gives none either, so they are reached only through their `Next`.
- The chunk builders of src/chunks.rs call the decoder as written (`ParseExtendedPrecisionBytes`), not the corrected one. A Common chunk whose rate is a power of two therefore halts with `UnsupportedRate` there.
- Prototype.TextSpec: requires the position not to be past the end. The prototype only moves the cursor by reads that check the length, so the position never is past the end.
- Prototype.BuildText: the same requirement, for the same reason.
- `main`'s parsed Common and text chunks are only printed and dropped. The model records them in a log (`Seen`) so that the walk has an observable result.
- `Marker` and `MarkerChunk` are declared in src/chunks.rs, src/chunks/mod.rs and src/main.rs, but no snapshot builds them. Their only helper, `read_pstring`, is modelled (`LegacyChunks.ReadPString`), though nothing in the source calls it.
- `ChunkReader::read` (src/chunks/reader.rs) only chains `ChunkBuilder::new`, `FormChunk::build` and `load_chunks`. Each of these is modelled, the chaining is not.
- LegacyChunks.FormChunk.LoadChunks: requires the cursor not to be past the end of the data. Only a `seek` can move it there, and `load_chunks` never seeks.
- Prototype.Run: requires a cursor at position 0, the fresh `Cursor::new` of `main`.
- `TAG` (the ID3v1 marker in src/ids.rs) is declared but never used by the core.
- Termination of the dispatch loops: each turn either panics or consumes at least four bytes, so every loop ends in a panic. The model proves this (a `decreases` on the unread length) rather than assuming it.

## Findings

| source | as written | input that shows it | evidently intended | confidence | as-written member | corrected member |
|---|---|---|---|---|---|---|
| src/extended.rs:46 | guard `significand.gt(&1f64)` rejects a significand of exactly 1 | sample rate 32768 Hz: bytes 40 0E 80 00 00 00 00 00 00 00 | `>=`: the comment on line 45 only asks for the integer bit to be set | high; not executed | Extended.PowerOfTwoRateRejected | Extended.DecodeExtendedCorrected, with Extended.CorrectedDecodeOfEncode and Extended.PowerOfTwoRateCorrected |
| src/samples.rs:45 | 24-bit samples get a 0x00 high byte | bytes FF 00 00 (−65536) read as 16711680 | sign extension of the 24-bit value | high; not executed | Samples.Width24ZeroExtends | Samples.ParseI32SignExtended, with Samples.Width24RoundTrip |
| src/samples.rs:129 | guard `target + 3 > len` admits a frame of 3 bytes | sound data 01 02 03: `next` indexes byte 3 and panics | guard `target + 4 > len` | high; not executed | Samples.Samples32ShortFramePanics | Samples.Step32Corrected, with Samples.Samples32CorrectedRoundTrip |
| src/samples.rs:93 | `Samples8`/`Samples16` step 4 bytes per sample whatever the width | 16-bit sound data 00 01 00 02 yields only 1 | step by the sample width | medium (4 bytes is a stereo 16-bit frame); not executed | Samples.Samples16SkipsSamples | Samples.Frames, with Samples.FramesOfEncode |
