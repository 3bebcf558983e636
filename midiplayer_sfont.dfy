/**
 * libmidi/wasm/lib/midiplayer_sfont.c: the file callbacks that let
 * fluidsynth's soundfont loader read the embedded General MIDI font from
 * memory. `unsigned int` and `long` are 32 bits wide in the wasm32 build.
 */
module MidiplayerSfont {
  import opened CTypes
  import FluidSys

  /**
   * my_read's result and new position as written: the test
   * `position + count > length` is computed in `unsigned int`, so a count
   * that makes the sum wrap is not clamped.
   */
  function ReadStepAsWritten(length: U32, position: U32, count: U32): (r: (int, U32))
    ensures position >= length ==> r == (FluidSys.FluidFailed, position)
    ensures position < length && ToU32(position + count) > length ==> r.1 == length
    ensures position < length && U32Mod <= position + count <= U32Mod + length ==> r.1 == position + count - U32Mod
  {
    if position >= length then (FluidSys.FluidFailed, position)
    else
      var n: U32 := if ToU32(position + count) > length then length - position else count;
      (ToI32(n), ToU32(position + n))
  }

  /** my_read's result and new position, the count clamped to what is left. */
  function ReadStep(length: U32, position: U32, count: U32): (r: (int, U32))
    ensures position >= length <==> r.0 == FluidSys.FluidFailed
    ensures position >= length ==> r.1 == position
    ensures position < length ==> r.0 == Min(count, length - position) && r.1 == position + r.0 <= length
  {
    if position >= length then (FluidSys.FluidFailed, position)
    else var n := Min(count, length - position); (n, position + n)
  }

  /** Without wrap-around, and for a font under 2 GiB, the code computes the clamped read. */
  lemma ReadAsWrittenClamps(length: U32, position: U32, count: U32)
    requires position + count < U32Mod && length < 0x8000_0000
    ensures ReadStepAsWritten(length, position, count) == ReadStep(length, position, count)
  {
  }

  /**
   * A count that wraps the sum passes the test unclamped: 16 bytes into a
   * 100-byte font, a count of 0xFFFF_FFF8 is taken whole, far past the 84
   * bytes left, and the position wraps to 8.
   */
  lemma ReadAsWrittenOverruns()
    ensures ReadStepAsWritten(100, 16, 0xFFFF_FFF8) == (-8, 8)
    ensures ReadStep(100, 16, 0xFFFF_FFF8) == (84, 100)
  {
  }

  /** my_seek's result and new position. */
  function SeekStep(length: U32, position: U32, offset: I32, origin: int): (r: (int, U32))
    ensures origin !in {0, 1, 2} ==> r == (FluidSys.FluidFailed, position)
    ensures r.0 == FluidSys.FluidOk || r.0 == FluidSys.FluidFailed
    ensures r.0 == FluidSys.FluidFailed ==> r.1 == position
    ensures r.0 == FluidSys.FluidOk ==> r.1 <= length
    ensures origin == 0 && 0 <= offset <= length ==> r == (FluidSys.FluidOk, offset)
    ensures origin == 0 && offset > length ==> r == (FluidSys.FluidFailed, position)
    ensures origin == 1 && 0 <= position + offset <= length ==> r == (FluidSys.FluidOk, position + offset)
    ensures origin == 2 && 0 <= length + offset <= length ==> r == (FluidSys.FluidOk, length + offset)
  {
    if origin !in {0, 1, 2} then (FluidSys.FluidFailed, position)
    else
      var p := if origin == 0 then ToU32(offset) else if origin == 1 then ToU32(position + offset) else ToU32(length + offset);
      if p > length then (FluidSys.FluidFailed, position) else (FluidSys.FluidOk, p)
  }

  /** Seeking to the start and reading the whole font delivers it from the first byte. */
  lemma RewindThenRead(length: U32, position: U32)
    requires 0 < length < 0x8000_0000
    ensures var (ok, p) := SeekStep(length, position, 0, 0);
            ok == FluidSys.FluidOk && p == 0 && ReadStep(length, p, length) == (length, length)
  {
  }

  /** The handle my_open returns. */
  class MemoryHandle {
    const data: seq<Byte>
    const length: U32
    var position: U32

    ghost predicate Valid()
      reads this
    {
      length == |data| && length < 0x8000_0000 && position <= length
    }

    /** my_open: the embedded font `font`, at position 0. */
    constructor (font: seq<Byte>)
      requires |font| < 0x8000_0000
      ensures Valid() && data == font && position == 0
    {
      data := font;
      length := |font|;
      position := 0;
    }

    /** my_read; `buf` must hold `count` bytes, and the count must not wrap (memcpy would read past the font). */
    method Read(buf: array<Byte>, count: U32) returns (r: int)
      requires Valid() && count <= buf.Length && (position >= length || position + count < U32Mod)
      modifies this, buf
      ensures Valid() && (r, position) == ReadStep(length, old(position), count)
      ensures (r, position) == ReadStepAsWritten(length, old(position), count)
      ensures r >= 0 ==> buf[..r] == data[old(position)..position] && buf[r..] == old(buf[r..])
      ensures r < 0 ==> buf[..] == old(buf[..])
    {
      if position >= length {
        return FluidSys.FluidFailed;
      }
      var bytesToRead := count;
      if position + bytesToRead > length {
        bytesToRead := length - position;
      }
      forall i | 0 <= i < bytesToRead {
        buf[i] := data[position + i];
      }
      position := position + bytesToRead;
      return bytesToRead;
    }

    /** my_seek. */
    method Seek(offset: I32, origin: int) returns (r: int)
      requires Valid()
      modifies this
      ensures Valid() && (r, position) == SeekStep(length, old(position), offset, origin)
    {
      var newPosition: U32;
      if origin == 0 {
        newPosition := ToU32(offset);
      } else if origin == 1 {
        newPosition := ToU32(position + offset);
      } else if origin == 2 {
        newPosition := ToU32(length + offset);
      } else {
        return FluidSys.FluidFailed;
      }
      if newPosition > length {
        return FluidSys.FluidFailed;
      }
      position := newPosition;
      return FluidSys.FluidOk;
    }

    /** my_tell. */
    method Tell() returns (r: I32)
      requires Valid()
      ensures r == position
    {
      return position;
    }
  }
}
