/**
 * libmedia/transcode/wasm/lib/transcode.c, the parts that are not FFmpeg
 * calls: the custom AVIO callbacks over an in-memory input buffer
 * (read_packet, seek_packet), the growable output buffer (write_packet),
 * and the loop that cuts the audio FIFO into encoder frames
 * (write_samples_from_fifo). `size_t` is 32 bits wide in the wasm32 build.
 */
module TranscodeC {
  import opened CTypes

  /** FFERRTAG('E','O','F',' '). */
  const AvErrorEof := -0x2046_4F45
  /** AVERROR(EINVAL). */
  const AvErrorEinval := -22
  const AvSeekSize := 0x10000
  const SeekSet := 0
  const SeekCur := 1
  const SeekEnd := 2

  // ---- Input: read_packet and seek_packet ---------------------------------

  /** read_packet's result and the new `pos`. */
  function ReadStep(size: U32, pos: U32, bufSize: nat): (r: (int, U32))
    ensures r.0 == AvErrorEof <==> pos >= size
    ensures pos >= size ==> r.1 == pos
    ensures pos < size ==> r.0 == Min(bufSize, size - pos) && r.1 == pos + r.0 <= size
  {
    if pos >= size then (AvErrorEof, pos)
    else var n := Min(bufSize, size - pos); (n, pos + n)
  }

  /** seek_packet's result and the new `pos`; `pos` is unsigned, so only the `> size` test can fire. */
  function SeekStep(size: U32, pos: U32, offset: I64, whence: int): (r: (int, U32))
    ensures whence == AvSeekSize ==> r == (size, pos)
    ensures whence == SeekSet && 0 <= offset <= size ==> r == (offset, offset)
    ensures whence == SeekCur && 0 <= pos + offset <= size ==> r == (pos + offset, pos + offset)
    ensures whence == SeekEnd && 0 <= size + offset <= size ==> r == (size + offset, size + offset)
    ensures whence !in {AvSeekSize, SeekSet, SeekCur, SeekEnd} ==> r.1 == pos
    ensures whence != AvSeekSize ==> (r.0 >= 0 <==> r.1 <= size) && (r.0 >= 0 ==> r.0 == r.1)
    ensures whence != AvSeekSize && r.1 > size ==> r.0 == AvErrorEinval
  {
    if whence == AvSeekSize then (size, pos)
    else
      var p := if whence == SeekSet then ToU32(offset)
               else if whence == SeekCur then ToU32(pos + offset)
               else if whence == SeekEnd then ToU32(size + offset)
               else pos;
      if p > size then (AvErrorEinval, p) else (p, p)
  }

  /** Everything successive reads deliver from `pos` until end of file. */
  function Reads(data: seq<Byte>, pos: U32, bufSize: nat): seq<Byte>
    requires |data| < U32Mod && bufSize > 0
    decreases |data| - pos
  {
    var (r, p) := ReadStep(|data|, pos, bufSize);
    if r < 0 || pos >= |data| then [] else data[pos..p] + Reads(data, p, bufSize)
  }

  /** Reading in chunks of any positive size delivers exactly the rest of the input. */
  lemma {:induction false} ReadsDeliverRest(data: seq<Byte>, pos: U32, bufSize: nat)
    requires |data| < U32Mod && bufSize > 0 && pos <= |data|
    ensures Reads(data, pos, bufSize) == data[pos..]
    decreases |data| - pos
  {
    if pos < |data| {
      var p := ReadStep(|data|, pos, bufSize).1;
      ReadsDeliverRest(data, p, bufSize);
      assert data[pos..p] + data[p..] == data[pos..];
    }
  }

  /**
   * A relative seek to before the start wraps `pos` past the end: the seek
   * reports EINVAL but keeps the wrapped `pos`, so the next read reports
   * end of file although input remains.
   */
  lemma SeekBeforeStartStrandsPosition(size: U32, pos: U32, offset: I64, bufSize: nat)
    requires pos <= size && size - U32Mod < pos + offset < 0
    ensures var (r, p) := SeekStep(size, pos, offset, SeekCur);
            r == AvErrorEinval && p == pos + offset + U32Mod && ReadStep(size, p, bufSize).0 == AvErrorEof
  {
  }

  /** The input buffer handed to the AVIO context. */
  class MemoryBuffer {
    const data: seq<Byte>
    const size: U32
    var pos: U32

    ghost predicate Valid()
      reads this
    {
      size == |data|
    }

    constructor (input: seq<Byte>)
      requires |input| < U32Mod
      ensures Valid() && data == input && pos == 0
    {
      data := input;
      size := |input|;
      pos := 0;
    }

    /** read_packet: copies the next chunk into `buf`, or reports end of file. */
    method ReadPacket(buf: array<Byte>, bufSize: nat) returns (r: int)
      requires Valid() && bufSize <= buf.Length
      modifies this, buf
      ensures Valid() && (r, pos) == ReadStep(size, old(pos), bufSize)
      ensures r >= 0 ==> buf[..r] == data[old(pos)..pos] && buf[r..] == old(buf[r..])
      ensures r < 0 ==> buf[..] == old(buf[..])
    {
      if pos >= size {
        return AvErrorEof;
      }
      var toCopy := Min(bufSize, size - pos);
      forall i | 0 <= i < toCopy {
        buf[i] := data[pos + i];
      }
      pos := pos + toCopy;
      return toCopy;
    }

    /** seek_packet. */
    method SeekPacket(offset: I64, whence: int) returns (r: int)
      requires Valid()
      modifies this
      ensures Valid() && (r, pos) == SeekStep(size, old(pos), offset, whence)
    {
      if whence == AvSeekSize {
        return size;
      } else if whence == SeekSet {
        pos := ToU32(offset);
      } else if whence == SeekCur {
        pos := ToU32(pos + offset);
      } else if whence == SeekEnd {
        pos := ToU32(size + offset);
      }
      if pos > size {
        return AvErrorEinval;
      }
      return pos;
    }
  }

  // ---- Output: write_packet ------------------------------------------------

  /** The bytes, capacity and result after write_packet; `reallocSucceeds` is realloc's outcome. */
  function Written(bytes: seq<Byte>, capacity: nat, buf: seq<Byte>, reallocSucceeds: bool): (r: (seq<Byte>, nat, int))
    ensures r.2 == -1 <==> |bytes| + |buf| > capacity && !reallocSucceeds
    ensures r.2 == -1 ==> r.0 == bytes && r.1 == capacity
    ensures r.2 != -1 ==> r.2 == |buf| && r.0 == bytes + buf
    ensures |bytes| + |buf| <= capacity ==> r.1 == capacity
    ensures |bytes| + |buf| > capacity && reallocSucceeds ==> r.1 == 2 * capacity + |buf|
    ensures |bytes| <= capacity ==> |r.0| <= r.1
  {
    if |bytes| + |buf| > capacity then
      if !reallocSucceeds then (bytes, capacity, -1)
      else (bytes + buf, 2 * capacity + |buf|, |buf|)
    else (bytes + buf, capacity, |buf|)
  }

  function Concat(bufs: seq<seq<Byte>>): seq<Byte>
  {
    if bufs == [] then [] else Concat(bufs[..|bufs| - 1]) + bufs[|bufs| - 1]
  }

  /** The bytes and capacity after writing each buffer in turn, every realloc succeeding. */
  function WriteAll(bytes: seq<Byte>, capacity: nat, bufs: seq<seq<Byte>>): (seq<Byte>, nat)
  {
    if bufs == [] then (bytes, capacity)
    else
      var (b, c) := WriteAll(bytes, capacity, bufs[..|bufs| - 1]);
      var (b1, c1, _) := Written(b, c, bufs[|bufs| - 1], true);
      (b1, c1)
  }

  /** The output is the concatenation of what was written, and always fits the capacity. */
  lemma {:induction false} WritesConcatenate(bytes: seq<Byte>, capacity: nat, bufs: seq<seq<Byte>>)
    requires |bytes| <= capacity
    ensures var (b, c) := WriteAll(bytes, capacity, bufs);
            b == bytes + Concat(bufs) && |b| <= c && capacity <= c
  {
    if bufs != [] {
      WritesConcatenate(bytes, capacity, bufs[..|bufs| - 1]);
      var last := bufs[|bufs| - 1];
      assert bytes + Concat(bufs[..|bufs| - 1]) + last == bytes + (Concat(bufs[..|bufs| - 1]) + last);
    }
  }

  /** The output buffer handed to the AVIO context; `bytes` is `data[..size]`. */
  class OutputBuffer {
    var bytes: seq<Byte>
    var capacity: nat

    ghost predicate Valid()
      reads this
    {
      |bytes| <= capacity
    }

    constructor (initialCapacity: nat)
      ensures Valid() && bytes == [] && capacity == initialCapacity
    {
      bytes := [];
      capacity := initialCapacity;
    }

    /** write_packet: grows the buffer to `2 * capacity + buf_size` when needed, then appends. */
    method WritePacket(buf: seq<Byte>, reallocSucceeds: bool) returns (r: int)
      requires Valid()
      modifies this
      ensures Valid() && (bytes, capacity, r) == Written(old(bytes), old(capacity), buf, reallocSucceeds)
    {
      if |bytes| + |buf| > capacity {
        var newCapacity := capacity * 2 + |buf|;
        if !reallocSucceeds {
          return -1;
        }
        capacity := newCapacity;
      }
      bytes := bytes + buf;
      return |buf|;
    }
  }

  // ---- Audio: write_samples_from_fifo -------------------------------------

  /** One encoded audio frame: its pts, the samples taken from the FIFO, and the silence padding it. */
  datatype Frame = Frame(pts: nat, samples: nat, silence: nat)

  /**
   * The frames cut from a FIFO holding `fifo` samples, the samples left,
   * and the written-sample count afterwards. Frames are cut while the FIFO
   * holds more than `frameSize` samples, or any at all on the final call.
   */
  function Drain(fifo: nat, frameSize: nat, final: bool, written: nat): (r: (seq<Frame>, nat, nat))
    requires frameSize > 0
    decreases fifo
  {
    if fifo > (if final then 0 else frameSize) then
      var n := Min(fifo, frameSize);
      var (frames, left, after) := Drain(fifo - n, frameSize, final, written + frameSize);
      ([Frame(written, n, frameSize - n)] + frames, left, after)
    else ([], fifo, written)
  }

  function Samples(frames: seq<Frame>): nat
  {
    if frames == [] then 0 else frames[0].samples + Samples(frames[1..])
  }

  /**
   * Every frame holds exactly `frameSize` samples, padding included, and
   * its pts counts the samples written before it; only the final call pads.
   */
  lemma {:induction false} DrainFrames(fifo: nat, frameSize: nat, final: bool, written: nat)
    requires frameSize > 0
    ensures var frames := Drain(fifo, frameSize, final, written).0;
            && (forall k :: 0 <= k < |frames| ==> frames[k].samples + frames[k].silence == frameSize && frames[k].samples > 0)
            && (|frames| > 0 ==> frames[0].pts == written)
            && (forall k :: 0 <= k < |frames| - 1 ==> frames[k + 1].pts == frames[k].pts + frameSize && frames[k].silence == 0)
            && (!final ==> forall k :: 0 <= k < |frames| ==> frames[k].silence == 0)
    decreases fifo
  {
    if fifo > (if final then 0 else frameSize) {
      var n := Min(fifo, frameSize);
      DrainFrames(fifo - n, frameSize, final, written + frameSize);
      var frames := Drain(fifo - n, frameSize, final, written + frameSize).0;
      assert Drain(fifo, frameSize, final, written).0 == [Frame(written, n, frameSize - n)] + frames;
      assert !final ==> n == frameSize;
    }
  }

  /**
   * The samples taken are those that left the FIFO, and the written count
   * grows by a whole frame per frame; the final call empties the FIFO, any
   * other leaves at most one frame's worth.
   */
  lemma {:induction false} DrainCounts(fifo: nat, frameSize: nat, final: bool, written: nat)
    requires frameSize > 0
    ensures var (frames, left, after) := Drain(fifo, frameSize, final, written);
            && after == written + frameSize * |frames|
            && Samples(frames) + left == fifo
            && (final ==> left == 0)
            && (!final ==> left <= frameSize && (fifo <= frameSize ==> frames == []))
    decreases fifo
  {
    if fifo > (if final then 0 else frameSize) {
      var n := Min(fifo, frameSize);
      DrainCounts(fifo - n, frameSize, final, written + frameSize);
      var (frames, left, after) := Drain(fifo - n, frameSize, final, written + frameSize);
      var f := [Frame(written, n, frameSize - n)] + frames;
      assert Drain(fifo, frameSize, final, written) == (f, left, after);
      assert f[1..] == frames;
      assert (written + frameSize) + frameSize * |frames| == written + frameSize * (|frames| + 1);
    }
  }

  /** The encoder side of the output: FIFO fill, samples written so far, frames encoded. */
  class AudioOutput {
    var fifo: nat
    const frameSize: nat
    var writtenSamples: nat
    var frames: seq<Frame>

    constructor (audioFrameSize: nat)
      ensures fifo == 0 && frameSize == audioFrameSize && writtenSamples == 0 && frames == []
    {
      fifo := 0;
      frameSize := audioFrameSize;
      writtenSamples := 0;
      frames := [];
    }

    /** write_samples_from_fifo, with every FFmpeg call succeeding. */
    method WriteSamplesFromFifo(final: bool) returns (ret: int)
      requires frameSize > 0
      modifies this
      ensures ret == 0
      ensures var (drained, left, after) := Drain(old(fifo), frameSize, final, old(writtenSamples));
              frames == old(frames) + drained && fifo == left && writtenSamples == after
    {
      ret := 0;
      while fifo > (if final then 0 else frameSize)
        invariant var (d0, l0, a0) := Drain(old(fifo), frameSize, final, old(writtenSamples));
                  var (d, l, a) := Drain(fifo, frameSize, final, writtenSamples);
                  old(frames) + d0 == frames + d && l0 == l && a0 == a
        decreases fifo
      {
        var n := fifo;
        if frameSize < n {
          n := frameSize;
        }
        var pts := writtenSamples;
        fifo := fifo - n;
        var silence := 0;
        if n < frameSize {
          silence := frameSize - n;
          n := frameSize;
        }
        writtenSamples := writtenSamples + n;
        frames := frames + [Frame(pts, n - silence, silence)];
      }
    }
  }
}
