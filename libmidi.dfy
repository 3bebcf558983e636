/**
 * libmidi/libmidi.js: the LibMidi front object, which hands out one
 * MIDIPlayer created on first use, and MIDIPlayer.send, which relays to a
 * CmdClient only when the player got one. Audio nodes, the worklet module
 * load and the finalizer are left out; a player is named by a number.
 */
module LibMidi {
  import opened Wrappers
  import CmdClient

  /** `initialized`, `_midiPlayer`, how many players were created, and which were closed. */
  datatype MidiState = MidiState(initialized: bool, player: Option<nat>, created: nat, closed: seq<nat>)

  const Fresh := MidiState(false, None, 0, [])

  /** No player exists while not initialised; the player is the last one created. */
  ghost predicate Valid(s: MidiState)
  {
    && (!s.initialized ==> s.player.None?)
    && (s.player.Some? ==> s.player.value + 1 == s.created)
  }

  /**
   * init: without audio-worklet support it only sets `initialized`. With
   * it, `initialized` is set once the bootstrap node reports ok, and a
   * failure rejects with the bootstrap's error, leaving the state alone.
   */
  function AfterInit(s: MidiState, hasWorklet: bool, bootstrap: Result<(), string>): (r: Result<MidiState, string>)
    ensures !hasWorklet ==> r == Ok(s.(initialized := true))
    ensures hasWorklet ==> (r.Ok? <==> bootstrap.Ok?)
    ensures r.Ok? ==> r.value == s.(initialized := true)
  {
    if !hasWorklet then Ok(s.(initialized := true))
    else if bootstrap.Err? then Err(bootstrap.error)
    else Ok(s.(initialized := true))
  }

  /**
   * close: closes and drops the player, if any, and clears `initialized`.
   * Closing a player unregisters it by sending "delete" to its client; a
   * player made without worklet support has no client, so that send throws
   * a TypeError, the async close rejects, and the player and `initialized`
   * are kept. `hasClient` says whether the front's players get a client.
   */
  function AfterClose(s: MidiState, hasClient: bool): (r: Result<MidiState, string>)
    ensures r.Err? <==> s.player.Some? && !hasClient
    ensures r.Ok? ==> !r.value.initialized && r.value.player.None? && r.value.created == s.created
  {
    if s.player.Some? && !hasClient then Err("TypeError")
    else Ok(MidiState(false, None, s.created, if s.player.Some? then s.closed + [s.player.value] else s.closed))
  }

  /** The `midiPlayer` getter: creates a player on first access after init, then returns it. */
  function Access(s: MidiState): (MidiState, Option<nat>)
  {
    if s.initialized && s.player.None? then
      (s.(player := Some(s.created), created := s.created + 1), Some(s.created))
    else (s, s.player)
  }

  lemma InitValid(s: MidiState, hasWorklet: bool, bootstrap: Result<(), string>)
    requires Valid(s)
    ensures AfterInit(s, hasWorklet, bootstrap).Ok? ==> Valid(AfterInit(s, hasWorklet, bootstrap).value)
  {
  }

  lemma AccessValid(s: MidiState)
    requires Valid(s)
    ensures Valid(Access(s).0)
  {
  }

  /** Before initialisation, or after close, `midiPlayer` is null and creates nothing. */
  lemma NullUntilInit(s: MidiState)
    requires Valid(s) && !s.initialized
    ensures Access(s) == (s, None)
  {
  }

  /** Once initialised, the first access creates a player and every later access returns that same one. */
  lemma SamePlayerEveryAccess(s: MidiState)
    requires Valid(s) && s.initialized
    ensures Access(s).1.Some?
    ensures Access(s).0.created == (if s.player.None? then s.created + 1 else s.created)
    ensures Access(Access(s).0) == Access(s)
  {
  }

  /**
   * Closing with a client discards the player (it is closed exactly once)
   * and `midiPlayer` is null again; closing a player that has no client
   * rejects and leaves it in place, so `midiPlayer` still returns it.
   */
  lemma CloseDiscardsPlayer(s: MidiState, hasClient: bool)
    requires Valid(s)
    ensures AfterClose(s, hasClient).Ok? ==>
              var t := AfterClose(s, hasClient).value;
              && Valid(t)
              && Access(t).1.None?
              && t.closed == s.closed + (if s.player.Some? then [s.player.value] else [])
    ensures AfterClose(s, hasClient).Err? ==> Access(s) == (s, s.player)
  {
  }

  /**
   * With worklet support, closing and initialising again gives a new player,
   * never the closed one; without it, once a player exists every close
   * rejects and the same player stays in use.
   */
  lemma ReinitGivesNewPlayer(s: MidiState, hasWorklet: bool)
    requires Valid(s) && s.player.Some?
    ensures hasWorklet ==>
              var t := AfterInit(AfterClose(s, hasWorklet).value, hasWorklet, Ok(())).value;
              Access(t).1 == Some(s.created) && s.player.value != s.created
    ensures !hasWorklet ==> AfterClose(s, hasWorklet).Err? && Access(s).1 == s.player
  {
  }

  class Front {
    var initialized: bool
    var midiPlayer: Option<nat>
    var created: nat
    var closed: seq<nat>
    /** Whether the audio context has an `audioWorklet`. */
    const hasWorklet: bool

    function State(): MidiState
      reads this
    {
      MidiState(initialized, midiPlayer, created, closed)
    }

    constructor (hasWorklet: bool)
      ensures State() == Fresh && this.hasWorklet == hasWorklet
    {
      initialized := false;
      midiPlayer := None;
      created := 0;
      closed := [];
      this.hasWorklet := hasWorklet;
    }

    /** `bootstrap` is what the bootstrap worklet node reports. */
    method Init(bootstrap: Result<(), string>) returns (r: Result<(), string>)
      modifies this
      ensures var spec := AfterInit(old(State()), hasWorklet, bootstrap);
              (r.Ok? <==> spec.Ok?) && State() == (if spec.Ok? then spec.value else old(State()))
    {
      if !hasWorklet {
        initialized := true;
        return Ok(());
      }
      if bootstrap.Err? {
        return Err(bootstrap.error);
      }
      initialized := true;
      return Ok(());
    }

    /** The front's players get a client exactly when it has worklet support. */
    method Close() returns (r: Result<(), string>)
      modifies this
      ensures var spec := AfterClose(old(State()), hasWorklet);
              (r.Ok? <==> spec.Ok?) && State() == (if spec.Ok? then spec.value else old(State()))
    {
      if midiPlayer.Some? && !hasWorklet {
        return Err("TypeError");
      }
      if midiPlayer.Some? {
        closed := closed + [midiPlayer.value];
        midiPlayer := None;
      }
      initialized := false;
      return Ok(());
    }

    method GetMidiPlayer() returns (p: Option<nat>)
      modifies this
      ensures (State(), p) == Access(old(State()))
    {
      if initialized && midiPlayer.None? {
        midiPlayer := Some(created);
        created := created + 1;
      }
      return midiPlayer;
    }
  }

  /** A MIDIPlayer: it has a client only when the audio context supports worklets. */
  class Player {
    const client: CmdClient.Client?

    constructor (hasWorklet: bool)
      ensures (client != null) == hasWorklet
      ensures client != null ==> fresh(client) && client.Current() == CmdClient.Initial && client.posted == []
    {
      if hasWorklet {
        client := new CmdClient.Client();
      } else {
        client := null;
      }
    }

    /** send: without a client, nothing is posted and the (falsy) missing client is returned. */
    method Send(what: CmdClient.Request) returns (r: Option<nat>)
      modifies client
      ensures client == null ==> r.None?
      ensures client != null ==>
                r.Some? && (r.value, client.Current()) == CmdClient.Sent(old(client.Current()))
                && client.posted == old(client.posted) + [(what, r.value)]
    {
      if client == null {
        return None;
      }
      var id := client.Send(what);
      return Some(id);
    }
  }
}
