/** The four-byte chunk identifiers of AIFF 1.3 (and the AIFF-C and Apple
    extension tags the walker recognises), as listed in src/ids.rs and
    src/chunks/ids.rs.  The two lists agree except for the ID3 marker. */
module Ids {
  import opened Base

  /** A chunk identifier: exactly four bytes (Rust `[u8; 4]`). */
  type Id = s: seq<Byte> | |s| == 4 witness [0, 0, 0, 0]

  /** The bytes of a four-character ASCII literal such as b"FORM". */
  function FourCC(s: string): Id
    requires |s| == 4 && forall i | 0 <= i < 4 :: s[i] as int < 0x80
  {
    [s[0] as int, s[1] as int, s[2] as int, s[3] as int]
  }

  const FORM: Id := FourCC("FORM")
  const AIFF: Id := FourCC("AIFF")
  const AIFF_C: Id := FourCC("AIFC")
  const COMMON: Id := FourCC("COMM")
  const SOUND: Id := FourCC("SSND")
  const MARKER: Id := FourCC("MARK")
  const INSTRUMENT: Id := FourCC("INST")
  const MIDI: Id := FourCC("MIDI")
  const RECORDING: Id := FourCC("AESD")
  const APPLICATION: Id := FourCC("APPL")
  const COMMENT: Id := FourCC("COMT")
  const NAME: Id := FourCC("NAME")
  const AUTHOR: Id := FourCC("AUTH")
  const COPYRIGHT: Id := FourCC("(c) ")
  const ANNOTATION: Id := FourCC("ANNO")
  const FVER: Id := FourCC("FVER")
  const CHAN: Id := FourCC("CHAN")
  const BASC: Id := FourCC("basc")
  const TRNS: Id := FourCC("trns")
  const CATE: Id := FourCC("cate")

  /** src/ids.rs: the three-byte ID3v2 marker "ID3" and the ID3v1 marker "TAG". */
  const ID3: seq<Byte> := ['I' as int, 'D' as int, '3' as int]
  const TAG: seq<Byte> := ['T' as int, 'A' as int, 'G' as int]

  /** src/chunks/ids.rs: the marker written as four bytes, "ID3 ". */
  const ID3_PADDED: Id := FourCC("ID3 ")

  /** The four text chunk identifiers. */
  predicate IsTextId(id: Id)
  {
    id == NAME || id == AUTHOR || id == COPYRIGHT || id == ANNOTATION
  }
}
