/**
 * libmidi/wasm/lib/midiplayer.c: the glue between the JavaScript MIDI
 * player and fluidsynth. fluidsynth itself is not part of this model:
 * the synth is seen only through the frame counts it is asked to render,
 * and the fluid player only through its loop setting, whether play was
 * requested, and the PLAYING status it reports (a parameter).
 */
module MidiPlayer {
  import opened Wrappers
  import opened CTypes

  // ---- midiplayer_short_event ---------------------------------------------

  /** The fluid_midi_event_t built for a short message; `value` is None when it is not set. */
  datatype MidiEvent = MidiEvent(kind: int, channel: int, key: int, value: Option<int>)

  const PitchBend := 0xE0

  /** `x & 0xF0` on a two's-complement int: the high nibble of the low byte. */
  function HighNibble(x: int): (r: int)
    ensures 0 <= r <= 0xF0 && r % 16 == 0
  {
    LowByteNibbles(x);
    x % 256 - x % 16
  }

  /** The low nibble of the low byte is the low nibble, and the rest of the byte is a multiple of 16. */
  lemma LowByteNibbles(x: int)
    ensures (x % 256) % 16 == x % 16
    ensures 0 <= x % 256 - x % 16 <= 0xF0 && (x % 256 - x % 16) % 16 == 0
  {
    var q, m := x / 256, x % 256;
    var a, b := m / 16, m % 16;
    assert m == 16 * a + b && 0 <= a < 16;
    assert x == 16 * (16 * q + a) + b;
    assert x % 16 == b;
    assert m - b == 16 * a;
  }

  /** `x & 0x0F`, `x & 0x7F` on a two's-complement int. */
  function LowNibble(x: int): (r: int)
    ensures 0 <= r <= 0x0F
  {
    x % 16
  }

  function Low7(x: int): (r: int)
    ensures 0 <= r < 128
  {
    x % 128
  }

  /** midiplayer_short_event: type and channel from the status byte; a pitch bend's two 7-bit halves joined into the key. */
  function ShortEvent(status: int, data1: int, data2: int): (e: MidiEvent)
    ensures e.kind == HighNibble(status) && e.channel == LowNibble(status)
    ensures e.kind == PitchBend ==> e.key == Low7(data2) * 128 + Low7(data1) && e.value.None?
    ensures e.kind != PitchBend ==> e.key == data1 && e.value == Some(data2)
  {
    var kind := HighNibble(status);
    if kind == PitchBend then MidiEvent(kind, LowNibble(status), Low7(data2) * 128 + Low7(data1), None)
    else MidiEvent(kind, LowNibble(status), data1, Some(data2))
  }

  /** Type and channel together are the status byte: nothing of it is lost or doubled. */
  lemma StatusSplits(status: int, data1: int, data2: int)
    ensures var e := ShortEvent(status, data1, data2);
            e.kind + e.channel == status % 256 && 0 <= e.channel < 16 && e.kind % 16 == 0
  {
  }

  /** A status byte built from a type and a channel decodes back to them. */
  lemma StatusRoundTrip(kind: int, channel: int, data1: int, data2: int)
    requires 0 <= kind <= 0xF0 && kind % 16 == 0 && 0 <= channel < 16
    ensures ShortEvent(kind + channel, data1, data2).kind == kind
    ensures ShortEvent(kind + channel, data1, data2).channel == channel
  {
  }

  /** A pitch bend's 14-bit value lies in [0, 16383] and splits back into the two data bytes' low 7 bits. */
  lemma PitchBendRange(channel: int, data1: int, data2: int)
    requires 0 <= channel < 16
    ensures var e := ShortEvent(PitchBend + channel, data1, data2);
            0 <= e.key <= 16383 && e.key / 128 == data2 % 128 && e.key % 128 == data1 % 128
  {
  }

  // ---- midiplayer_write_data ----------------------------------------------

  /** The frame counts the catch-up loop asks the synth for: chunks of at most `bsize` until `missed` are done. */
  function Chunks(missed: nat, bsize: nat): seq<nat>
    requires bsize > 0
    decreases missed
  {
    if missed == 0 then [] else [Min(missed, bsize)] + Chunks(missed - Min(missed, bsize), bsize)
  }

  function Sum(xs: seq<nat>): nat
  {
    if xs == [] then 0 else xs[0] + Sum(xs[1..])
  }

  /** The chunks are non-empty, at most `bsize` each, and add up to exactly `missed`. */
  lemma {:induction false} ChunksCover(missed: nat, bsize: nat)
    requires bsize > 0
    ensures Sum(Chunks(missed, bsize)) == missed
    ensures forall k :: 0 <= k < |Chunks(missed, bsize)| ==> 0 < Chunks(missed, bsize)[k] <= bsize
    decreases missed
  {
    if missed > 0 {
      var t := Min(missed, bsize);
      ChunksCover(missed - t, bsize);
      var c := Chunks(missed, bsize);
      assert c == [t] + Chunks(missed - t, bsize) && c[1..] == Chunks(missed - t, bsize);
    }
  }

  /**
   * The frame counts rendered and the result of write_data from the
   * `check`-th status check on; `playing(k)` is whether the player reports
   * PLAYING at the k-th check of the call.
   */
  function WriteData(missed: nat, bsize: nat, playing: nat -> bool, check: nat, playSet: bool): (r: (seq<nat>, int))
    requires bsize > 0
    decreases missed
  {
    if missed > 0 then
      var t := Min(missed, bsize);
      if !playing(check) then ([t], 0)
      else var (w, res) := WriteData(missed - t, bsize, playing, check + 1, playSet); ([t] + w, res)
    else ([bsize], if playSet && !playing(check) then 0 else bsize)
  }

  /** While the player keeps playing, all of `missed` is rendered in chunks, then one block of `bsize`. */
  lemma {:induction false} WriteDataWhilePlaying(missed: nat, bsize: nat, playing: nat -> bool, check: nat, playSet: bool)
    requires bsize > 0
    requires forall k :: check <= k < check + |Chunks(missed, bsize)| ==> playing(k)
    ensures var n := |Chunks(missed, bsize)|;
            WriteData(missed, bsize, playing, check, playSet)
            == (Chunks(missed, bsize) + [bsize], if playSet && !playing(check + n) then 0 else bsize)
    decreases missed
  {
    if missed > 0 {
      var t := Min(missed, bsize);
      assert playing(check);
      WriteDataWhilePlaying(missed - t, bsize, playing, check + 1, playSet);
      var rest := Chunks(missed - t, bsize);
      assert Chunks(missed, bsize) == [t] + rest;
      assert check + |Chunks(missed, bsize)| == check + 1 + |rest|;
      var (w, res) := WriteData(missed - t, bsize, playing, check + 1, playSet);
      assert WriteData(missed, bsize, playing, check, playSet) == ([t] + w, res);
      assert [t] + (rest + [bsize]) == [t] + rest + [bsize];
    } else {
      assert Chunks(missed, bsize) + [bsize] == [bsize];
    }
  }

  /** A player that stops during catch-up ends the call after that chunk, returning 0. */
  lemma {:induction false} WriteDataStops(missed: nat, bsize: nat, playing: nat -> bool, check: nat, playSet: bool, j: nat)
    requires bsize > 0 && j < |Chunks(missed, bsize)| && !playing(check + j)
    requires forall k :: check <= k < check + j ==> playing(k)
    ensures WriteData(missed, bsize, playing, check, playSet) == (Chunks(missed, bsize)[..j + 1], 0)
    decreases missed
  {
    var t := Min(missed, bsize);
    if j > 0 {
      assert playing(check);
      WriteDataStops(missed - t, bsize, playing, check + 1, playSet, j - 1);
      assert Chunks(missed, bsize)[..j + 1] == [t] + Chunks(missed - t, bsize)[..j];
    }
  }

  // ---- Player state -------------------------------------------------------

  /** The fluid player's state as this file drives it; a new player loops once. */
  datatype FluidPlayer = FluidPlayer(loop: int, playRequested: bool)

  const NewPlayer := FluidPlayer(1, false)

  /** player_state: the remembered loop count, tmp_play_set, and the current player (None while NULL). */
  datatype State = State(loopTimes: int, playSet: bool, player: Option<FluidPlayer>)

  /** midiplayer_create zeroes the state. */
  const Created := State(0, false, None)

  /** midiplayer_set_sequence: replaces the player with a new one. */
  function AfterSetSequence(s: State): State
  {
    s.(player := Some(NewPlayer))
  }

  /** midiplayer_play: requests play and applies the remembered loop count. */
  function AfterPlay(s: State): State
  {
    s.(player := if s.player.Some? then Some(FluidPlayer(s.loopTimes, true)) else None, playSet := true)
  }

  function AfterStop(s: State): State
  {
    s.(player := if s.player.Some? then Some(s.player.value.(playRequested := false)) else None)
  }

  /** midiplayer_loop: remembers the count and applies it to the current player. */
  function AfterLoop(s: State, times: int): State
  {
    s.(loopTimes := times, player := if s.player.Some? then Some(s.player.value.(loop := times)) else None)
  }

  /** A loop count set before a new sequence is loaded is in force once it plays, though the new player forgot it. */
  lemma LoopSurvivesNewSequence(s: State, times: int)
    ensures AfterSetSequence(AfterLoop(s, times)).player == Some(NewPlayer)
    ensures AfterPlay(AfterSetSequence(AfterLoop(s, times))).player == Some(FluidPlayer(times, true))
  {
  }

  /** Stopping and playing again keeps the loop count. */
  lemma LoopSurvivesStop(s: State, times: int)
    requires s.player.Some?
    ensures AfterPlay(AfterStop(AfterLoop(s, times))).player.value.loop == times
  {
  }

  /** Without a call to midiplayer_loop, play applies the zeroed count. */
  lemma PlayWithoutLoop()
    ensures AfterPlay(AfterSetSequence(Created)).player == Some(FluidPlayer(0, true))
  {
  }

  class Player {
    var loopTimes: int
    var playSet: bool
    var player: Option<FluidPlayer>
    /** Frame counts passed to fluid_synth_write_float, in order. */
    var rendered: seq<nat>

    function Current(): State
      reads this
    {
      State(loopTimes, playSet, player)
    }

    constructor ()
      ensures Current() == Created && rendered == []
    {
      loopTimes := 0;
      playSet := false;
      player := None;
      rendered := [];
    }

    method SetSequence()
      modifies this
      ensures Current() == AfterSetSequence(old(Current())) && rendered == old(rendered)
    {
      player := Some(NewPlayer);
    }

    method Play()
      modifies this
      ensures Current() == AfterPlay(old(Current())) && rendered == old(rendered)
    {
      if player.Some? {
        player := Some(player.value.(playRequested := true));
        player := Some(player.value.(loop := loopTimes));
      }
      playSet := true;
    }

    method Stop()
      modifies this
      ensures Current() == AfterStop(old(Current())) && rendered == old(rendered)
    {
      if player.Some? {
        player := Some(player.value.(playRequested := false));
      }
    }

    method Loop(times: int)
      modifies this
      ensures Current() == AfterLoop(old(Current()), times) && rendered == old(rendered)
    {
      loopTimes := times;
      if player.Some? {
        player := Some(player.value.(loop := times));
      }
    }

    /**
     * midiplayer_write_data: renders the `missed` frames in chunks of at
     * most `bsize`, giving up with 0 as soon as the player is not playing,
     * then renders one block of `bsize`.
     */
    method WriteDataFrames(bsize: nat, missed: U32, playing: nat -> bool) returns (r: int)
      requires bsize > 0
      modifies this
      ensures Current() == old(Current())
      ensures var (w, res) := WriteData(missed, bsize, playing, 0, playSet);
              rendered == old(rendered) + w && r == res
    {
      var left: nat := missed;
      var check := 0;
      while left > 0
        invariant var (w0, r0) := WriteData(missed, bsize, playing, 0, playSet);
                  var (w, r1) := WriteData(left, bsize, playing, check, playSet);
                  old(rendered) + w0 == rendered + w && r0 == r1
        invariant Current() == old(Current())
        decreases left
      {
        var towrite := if left > bsize then bsize else left;
        rendered := rendered + [towrite];
        if !playing(check) {
          return 0;
        }
        check := check + 1;
        left := left - towrite;
      }
      rendered := rendered + [bsize];
      if playSet && !playing(check) {
        return 0;
      }
      return bsize;
    }
  }
}
