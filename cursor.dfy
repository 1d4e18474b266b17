/** The in-memory byte source every parser reads from: a `Cursor<Vec<u8>>`
    holding the whole file and a read position that each read advances.
    Reads are big-endian (the `bytes::Buf::get_*_be` calls and the
    `reader::read_*_be` helpers).  A read that needs more bytes than remain
    fails with `None`: the Rust code unwraps it (or `Buf` panics), so every
    caller turns it into a `ShortRead` halt. */
module Cursors {
  import opened Base

  /** Why a parse stops without a result of its own: the Rust code panics
      (a short read, `unimplemented!`, an index out of range) instead of
      returning an error value. */
  datatype Halt =
    | ShortRead          // a read past the end (`unwrap` of `read_exact`, `Buf::get_*`)
    | Unimplemented      // `unimplemented!`
    | UnsupportedRate    // the sample rate decoder's `unimplemented!`
    | CapacityOverflow   // `vec![0; n]` with n above `isize::MAX`

  /** What a chunk builder returns: the chunk, the error value the Rust
      code returns, or the panic that ends the parse. */
  datatype Built<T, E> = Ok(value: T) | Err(error: E) | Halted(halt: Halt)

  /** A builder's outcome together with the read position after it (only
      meaningful when it did not halt). */
  datatype Parse<T, E> = Parse(result: Built<T, E>, next: nat)

  /** Two outcomes of possibly different chunk types agree on everything
      but the chunk itself. */
  predicate SameOutcome<A, B, E(==)>(r: Built<A, E>, s: Built<B, E>)
  {
    && r.Ok? == s.Ok?
    && (r.Err? <==> s.Err?) && (r.Err? ==> r.error == s.error)
    && (r.Halted? <==> s.Halted?) && (r.Halted? ==> r.halt == s.halt)
  }

  /** `isize::MAX` on a 64-bit target: the largest `Vec` capacity. */
  const ISIZE_MAX: nat := 0x7FFF_FFFF_FFFF_FFFF

  /** Rust `size as usize` on a 64-bit target: a negative i32 wraps. */
  function AsUsize(size: int): (n: nat)
    requires -0x8000_0000 <= size < 0x8000_0000
    ensures size >= 0 ==> n == size
    ensures size < 0 ==> n >= 0x1_0000_0000_0000_0000 - 0x8000_0000
  {
    if size >= 0 then size else 0x1_0000_0000_0000_0000 + size
  }

  class Cursor {
    const data: seq<Byte>
    var pos: nat

    constructor (data: seq<Byte>)
      ensures this.data == data && pos == 0
    {
      this.data := data;
      pos := 0;
    }

    /** Bytes left before the end (0 once the position is past the end). */
    function Remaining(): nat
      reads this
    {
      if pos <= |data| then |data| - pos else 0
    }

    /** `read_exact` / `copy_to_slice`: the next `n` bytes. */
    method ReadExact(n: nat) returns (r: Option<seq<Byte>>)
      modifies this
      ensures old(pos) + n <= |data| ==> r == Some(data[old(pos)..old(pos) + n]) && pos == old(pos) + n
      ensures old(pos) + n > |data| ==> r == None && pos == old(pos)
    {
      if pos + n <= |data| {
        r := Some(data[pos..pos + n]);
        pos := pos + n;
      } else {
        r := None;
      }
    }

    /** `get_u8`. */
    method ReadU8() returns (r: Option<Byte>)
      modifies this
      ensures old(pos) < |data| ==> r == Some(data[old(pos)]) && pos == old(pos) + 1
      ensures old(pos) >= |data| ==> r == None && pos == old(pos)
    {
      if pos < |data| {
        r := Some(data[pos]);
        pos := pos + 1;
      } else {
        r := None;
      }
    }

    /** An unsigned big-endian read of `width` bytes (`get_u32_be`, ...). */
    method ReadUintBe(width: nat) returns (r: Option<nat>)
      modifies this
      ensures old(pos) + width <= |data| ==>
                r == Some(BeUint(data[old(pos)..old(pos) + width])) && pos == old(pos) + width
      ensures old(pos) + width > |data| ==> r == None && pos == old(pos)
    {
      var bytes := ReadExact(width);
      if bytes.Some? {
        r := Some(BeUint(bytes.value));
      } else {
        r := None;
      }
    }

    /** `for _ in 0..count { v.push(buf.get_u8()) }`: one byte at a time,
        panicking at the first byte past the end. */
    method ReadEach(count: nat) returns (r: Option<seq<Byte>>)
      modifies this
      ensures old(pos) + count <= |data| ==> r == Some(data[old(pos)..old(pos) + count]) && pos == old(pos) + count
      ensures count > 0 && old(pos) + count > |data| ==> r == None
      ensures count == 0 ==> r == Some([]) && pos == old(pos)
    {
      var bytes: seq<Byte> := [];
      var i := 0;
      while i < count
        invariant i <= count && pos == old(pos) + i
        invariant i > 0 ==> pos <= |data| && bytes == data[old(pos)..pos]
        invariant i == 0 ==> bytes == []
      {
        var b := ReadU8();
        if b.None? {
          return None;
        }
        bytes := bytes + [b.value];
        i := i + 1;
      }
      r := Some(bytes);
    }

    /** A signed big-endian read of `width` bytes (`get_i32_be`, `get_i16_be`, ...). */
    method ReadIntBe(width: nat) returns (r: Option<int>)
      requires width > 0
      modifies this
      ensures old(pos) + width <= |data| ==>
                r == Some(BeInt(data[old(pos)..old(pos) + width])) && pos == old(pos) + width
      ensures old(pos) + width > |data| ==> r == None && pos == old(pos)
    {
      var bytes := ReadExact(width);
      if bytes.Some? {
        r := Some(BeInt(bytes.value));
      } else {
        r := None;
      }
    }

    /** `seek(SeekFrom::Current(delta))`: a position before the start is an
        error; one past the end is allowed (later reads then fail). */
    method SeekRelative(delta: int) returns (ok: bool)
      modifies this
      ensures ok == (old(pos) + delta >= 0)
      ensures ok ==> pos == old(pos) + delta
      ensures !ok ==> pos == old(pos)
    {
      ok := pos + delta >= 0;
      if ok {
        pos := pos + delta;
      }
    }
  }
}
