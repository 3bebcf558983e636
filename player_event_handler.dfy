/**
 * pl.zb3.freej2me.bridge.media.PlayerEventHandler: stop listeners kept
 * per player id, held through weak references. Which listeners the
 * garbage collector has cleared is given as the set of those still live,
 * taken once per call; the player id JSReference hands out is an input.
 */
module PlayerEventHandler {
  /** A stop listener, by identity. */
  type Listener = nat

  /** The listeners of `refs` that are still live, in order (removeIf keeps these). */
  function LiveOnly(refs: seq<Listener>, live: set<Listener>): (r: seq<Listener>)
    ensures |r| <= |refs|
    ensures forall l :: l in r <==> l in refs && l in live
  {
    if refs == [] then []
    else if refs[0] in live then [refs[0]] + LiveOnly(refs[1..], live)
    else LiveOnly(refs[1..], live)
  }

  /** A live listener is called as often as it was registered; a cleared one never. */
  lemma {:induction false} LiveOnlyCounts(refs: seq<Listener>, live: set<Listener>, l: Listener)
    ensures multiset(LiveOnly(refs, live))[l] == if l in live then multiset(refs)[l] else 0
  {
    if refs != [] {
      LiveOnlyCounts(refs[1..], live, l);
      assert refs == [refs[0]] + refs[1..];
    }
  }

  /** Dropping the cleared references keeps the order of the live ones and is idempotent. */
  lemma {:induction false} LiveOnlyIdempotent(refs: seq<Listener>, live: set<Listener>)
    ensures LiveOnly(LiveOnly(refs, live), live) == LiveOnly(refs, live)
  {
    if refs != [] {
      LiveOnlyIdempotent(refs[1..], live);
    }
  }

  class Handler {
    /** playerStopListeners: player id to the listeners registered for it, oldest first. */
    var stopListeners: map<int, seq<Listener>>

    constructor ()
      ensures stopListeners == map[]
    {
      stopListeners := map[];
    }

    /** registerStopListener: append to the player's list, creating it when absent. */
    method RegisterStopListener(key: int, sl: Listener)
      modifies this
      ensures key in old(stopListeners) ==> stopListeners == old(stopListeners)[key := old(stopListeners)[key] + [sl]]
      ensures key !in old(stopListeners) ==> stopListeners == old(stopListeners)[key := [sl]]
    {
      var list := if key in stopListeners then stopListeners[key] else [];
      assert key !in stopListeners ==> list + [sl] == [sl];
      stopListeners := stopListeners[key := list + [sl]];
    }

    /**
     * onPlayerStop: call onStop on every live listener of the player, in
     * registration order (`calls`), then drop the cleared references. A
     * player without a list causes no call and no change.
     */
    method OnPlayerStop(key: int, live: set<Listener>) returns (calls: seq<Listener>)
      modifies this
      ensures key !in old(stopListeners) ==> calls == [] && stopListeners == old(stopListeners)
      ensures key in old(stopListeners) ==>
                && calls == LiveOnly(old(stopListeners)[key], live)
                && stopListeners == old(stopListeners)[key := calls]
    {
      calls := [];
      if key !in stopListeners {
        return;
      }
      var listeners := stopListeners[key];
      var i := 0;
      while i < |listeners|
        invariant 0 <= i <= |listeners|
        invariant LiveOnly(listeners, live) == calls + LiveOnly(listeners[i..], live)
      {
        assert listeners[i..] == [listeners[i]] + listeners[i + 1..];
        if listeners[i] in live {
          calls := calls + [listeners[i]];
        }
        i := i + 1;
      }
      stopListeners := stopListeners[key := LiveOnly(listeners, live)];
    }
  }

  /** After a stop the player's list holds no cleared reference. */
  lemma NoClearedAfterStop(refs: seq<Listener>, live: set<Listener>)
    ensures forall l :: l in LiveOnly(refs, live) ==> l in live
  {
  }
}
