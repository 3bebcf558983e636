/**
 * screenKbd.js: the on-screen keypad. Each touch is tracked to the key
 * element under it in `touchKeyMap`; a key element is active while its
 * 'active' class is set, and the key handler hears a press or release
 * when that class changes. Hit-testing is the browser's: each touch
 * arrives with the key element under its point, if any.
 */
module ScreenKbd {
  import opened Wrappers

  /** A key element of the keypad; the handler receives its `data-key`. */
  type Element = nat

  /** One entry of `changedTouches`: its identifier and the key under its point. */
  datatype Touch = Touch(identifier: int, keyAtPoint: Option<Element>)

  /** One call `handleKey(down, key.dataset.key)`. */
  datatype Call = Call(down: bool, key: Element)

  /** The keypad's state: the touch-to-key map, the active keys, and every handler call so far. */
  datatype Kbd = Kbd(touchKeyMap: map<int, Element>, active: set<Element>, calls: seq<Call>)

  /** activateKey: a key that is not active becomes active and, when a handler is set, is reported pressed. */
  function Activate(s: Kbd, key: Option<Element>, hasHandler: bool): (r: Kbd)
    ensures r.touchKeyMap == s.touchKeyMap
    ensures key.Some? ==> r.active == s.active + {key.value}
    ensures key.None? ==> r.active == s.active
    ensures r.calls == s.calls + (if key.Some? && key.value !in s.active && hasHandler then [Call(true, key.value)] else [])
  {
    if key.Some? && key.value !in s.active then
      s.(active := s.active + {key.value}, calls := s.calls + (if hasHandler then [Call(true, key.value)] else []))
    else s
  }

  /** deactivateKey: an active key becomes inactive and, when a handler is set, is reported released. */
  function Deactivate(s: Kbd, key: Option<Element>, hasHandler: bool): (r: Kbd)
    ensures r.touchKeyMap == s.touchKeyMap
    ensures key.Some? ==> r.active == s.active - {key.value}
    ensures key.None? ==> r.active == s.active
    ensures r.calls == s.calls + (if key.Some? && key.value in s.active && hasHandler then [Call(false, key.value)] else [])
  {
    if key.Some? && key.value in s.active then
      s.(active := s.active - {key.value}, calls := s.calls + (if hasHandler then [Call(false, key.value)] else []))
    else s
  }

  /** The key a touch is mapped to, if any (`touchKeyMap.get`). */
  function MappedKey(s: Kbd, id: int): Option<Element>
  {
    if id in s.touchKeyMap then Some(s.touchKeyMap[id]) else None
  }

  /** The body of handleTouchStart's loop for one touch. */
  function StartTouch(s: Kbd, t: Touch, hasHandler: bool): Kbd
  {
    if t.keyAtPoint.Some? then
      Activate(s.(touchKeyMap := s.touchKeyMap[t.identifier := t.keyAtPoint.value]), t.keyAtPoint, hasHandler)
    else s
  }

  /** The body of handleTouchMove's loop for one touch. */
  function MoveTouch(s: Kbd, t: Touch, hasHandler: bool): Kbd
  {
    var current := t.keyAtPoint;
    var previous := MappedKey(s, t.identifier);
    if current != previous then
      var released := Deactivate(s, previous, hasHandler);
      if current.Some? then
        var pressed := Activate(released, current, hasHandler);
        pressed.(touchKeyMap := pressed.touchKeyMap[t.identifier := current.value])
      else
        released.(touchKeyMap := released.touchKeyMap - {t.identifier})
    else s
  }

  /** The body of handleTouchEnd's loop for one touch (touchend and touchcancel alike). */
  function EndTouch(s: Kbd, t: Touch, hasHandler: bool): Kbd
  {
    if t.identifier in s.touchKeyMap then
      var released := Deactivate(s, Some(s.touchKeyMap[t.identifier]), hasHandler);
      released.(touchKeyMap := released.touchKeyMap - {t.identifier})
    else s
  }

  datatype Phase = Start | Move | End

  function Step(phase: Phase, s: Kbd, t: Touch, hasHandler: bool): Kbd
  {
    match phase
    case Start => StartTouch(s, t, hasHandler)
    case Move => MoveTouch(s, t, hasHandler)
    case End => EndTouch(s, t, hasHandler)
  }

  /** A whole touch event: its changed touches, in order. */
  function Handle(phase: Phase, s: Kbd, touches: seq<Touch>, hasHandler: bool): Kbd
    decreases |touches|
  {
    if touches == [] then s
    else Step(phase, Handle(phase, s, touches[..|touches| - 1], hasHandler), touches[|touches| - 1], hasHandler)
  }

  // ---------------------------------------------------------------- properties

  /** Whether the handler last heard `key` pressed. */
  function Held(calls: seq<Call>, key: Element): bool
    decreases |calls|
  {
    if calls == [] then false
    else if calls[|calls| - 1].key == key then calls[|calls| - 1].down
    else Held(calls[..|calls| - 1], key)
  }

  /** Every call flips its key: a press only while released, a release only while pressed; so never two presses in a row for a key. */
  predicate Alternating(calls: seq<Call>)
    decreases |calls|
  {
    calls == [] ||
    (var c := calls[|calls| - 1];
     Alternating(calls[..|calls| - 1]) && c.down != Held(calls[..|calls| - 1], c.key))
  }

  /** With a handler set, it has heard every change of the 'active' class. */
  ghost predicate Consistent(s: Kbd)
  {
    Alternating(s.calls) && forall k :: k in s.active <==> Held(s.calls, k)
  }

  lemma HeldAfterCall(calls: seq<Call>, c: Call)
    ensures Held(calls + [c], c.key) == c.down
    ensures forall k :: k != c.key ==> Held(calls + [c], k) == Held(calls, k)
    ensures Alternating(calls + [c]) <==> Alternating(calls) && c.down != Held(calls, c.key)
  {
    assert (calls + [c])[..|calls|] == calls;
  }

  lemma ActivateConsistent(s: Kbd, key: Option<Element>)
    requires Consistent(s)
    ensures Consistent(Activate(s, key, true))
  {
    if key.Some? && key.value !in s.active {
      HeldAfterCall(s.calls, Call(true, key.value));
    }
  }

  lemma DeactivateConsistent(s: Kbd, key: Option<Element>)
    requires Consistent(s)
    ensures Consistent(Deactivate(s, key, true))
  {
    if key.Some? && key.value in s.active {
      HeldAfterCall(s.calls, Call(false, key.value));
    }
  }

  lemma StepConsistent(phase: Phase, s: Kbd, t: Touch)
    requires Consistent(s)
    ensures Consistent(Step(phase, s, t, true))
  {
    match phase
    case Start =>
      if t.keyAtPoint.Some? {
        ActivateConsistent(s.(touchKeyMap := s.touchKeyMap[t.identifier := t.keyAtPoint.value]), t.keyAtPoint);
      }
    case Move =>
      var released := Deactivate(s, MappedKey(s, t.identifier), true);
      DeactivateConsistent(s, MappedKey(s, t.identifier));
      ActivateConsistent(released, t.keyAtPoint);
    case End =>
      if t.identifier in s.touchKeyMap {
        DeactivateConsistent(s, Some(s.touchKeyMap[t.identifier]));
      }
  }

  /**
   * With a handler set, the handler hears `(true, k)` only when k turns
   * active and `(false, k)` only when it turns inactive, across any
   * touch events: never two presses in a row for one key.
   */
  lemma {:induction false} HandleConsistent(phase: Phase, s: Kbd, touches: seq<Touch>)
    requires Consistent(s)
    ensures Consistent(Handle(phase, s, touches, true))
    decreases |touches|
  {
    if touches != [] {
      HandleConsistent(phase, s, touches[..|touches| - 1]);
      StepConsistent(phase, Handle(phase, s, touches[..|touches| - 1], true), touches[|touches| - 1]);
    }
  }

  /** A touch that starts outside every key adds no mapping and changes nothing. */
  lemma StartOutsideKeys(s: Kbd, t: Touch, hasHandler: bool)
    requires t.keyAtPoint.None?
    ensures StartTouch(s, t, hasHandler) == s
  {
  }

  /**
   * Moving onto a different key releases the old key before pressing the
   * new one, and remaps the touch to the new key.
   */
  lemma MoveToOtherKey(s: Kbd, t: Touch, previous: Element, next: Element)
    requires MappedKey(s, t.identifier) == Some(previous) && t.keyAtPoint == Some(next) && previous != next
    requires previous in s.active && next !in s.active
    ensures var r := MoveTouch(s, t, true);
            && r.calls == s.calls + [Call(false, previous), Call(true, next)]
            && r.touchKeyMap == s.touchKeyMap[t.identifier := next]
            && previous !in r.active && next in r.active
  {
  }

  /** Moving off every key releases the previous key and drops the touch's mapping. */
  lemma MoveOffKeys(s: Kbd, t: Touch, previous: Element)
    requires MappedKey(s, t.identifier) == Some(previous) && t.keyAtPoint.None?
    ensures var r := MoveTouch(s, t, true);
            && t.identifier !in r.touchKeyMap
            && previous !in r.active
            && r.calls == s.calls + (if previous in s.active then [Call(false, previous)] else [])
  {
  }

  /** After touchend or touchcancel, none of the changed touches is mapped any more. */
  lemma {:induction false} EndForgetsTouches(s: Kbd, touches: seq<Touch>, hasHandler: bool)
    ensures forall t :: t in touches ==> t.identifier !in Handle(End, s, touches, hasHandler).touchKeyMap
    ensures Handle(End, s, touches, hasHandler).touchKeyMap.Keys <= s.touchKeyMap.Keys
    decreases |touches|
  {
    if touches != [] {
      var init := touches[..|touches| - 1];
      EndForgetsTouches(s, init, hasHandler);
      forall t | t in touches
        ensures t.identifier !in Handle(End, s, touches, hasHandler).touchKeyMap
      {
        if t != touches[|touches| - 1] {
          assert t in init;
        }
      }
    }
  }

  /**
   * Key state is per key, not counted per touch: when two touches hold
   * the same key, lifting one of them releases the key although the
   * other still maps to it.
   */
  lemma LiftingOneOfTwoTouchesReleases(s: Kbd, a: Touch, b: int, key: Element)
    requires a.identifier != b
    requires MappedKey(s, a.identifier) == Some(key) && MappedKey(s, b) == Some(key) && key in s.active
    ensures var r := EndTouch(s, a, true);
            && key !in r.active
            && MappedKey(r, b) == Some(key)
            && r.calls == s.calls + [Call(false, key)]
  {
  }

  // ---------------------------------------------------------------- the module state

  /** The module's state: `touchKeyMap`, the keys' 'active' classes, and the handler (`null` or set). */
  class ScreenKeyboard {
    var touchKeyMap: map<int, Element>
    var active: set<Element>
    var calls: seq<Call>
    var hasHandler: bool

    function State(): Kbd
      reads this
    {
      Kbd(touchKeyMap, active, calls)
    }

    constructor ()
      ensures State() == Kbd(map[], {}, []) && !hasHandler
    {
      touchKeyMap := map[];
      active := {};
      calls := [];
      hasHandler := false;
    }

    /** setKbdHandler. */
    method SetKbdHandler(handler: bool)
      modifies this`hasHandler
      ensures hasHandler == handler
    {
      hasHandler := handler;
    }

    method ActivateKey(key: Option<Element>)
      modifies this`active, this`calls
      ensures State() == Activate(old(State()), key, hasHandler)
    {
      if key.Some? && key.value !in active {
        active := active + {key.value};
        if hasHandler {
          calls := calls + [Call(true, key.value)];
        }
      }
    }

    method DeactivateKey(key: Option<Element>)
      modifies this`active, this`calls
      ensures State() == Deactivate(old(State()), key, hasHandler)
    {
      if key.Some? && key.value in active {
        active := active - {key.value};
        if hasHandler {
          calls := calls + [Call(false, key.value)];
        }
      }
    }

    method HandleTouchStart(touches: seq<Touch>)
      modifies this`touchKeyMap, this`active, this`calls
      ensures State() == Handle(Start, old(State()), touches, hasHandler)
    {
      var i := 0;
      while i < |touches|
        invariant 0 <= i <= |touches|
        invariant State() == Handle(Start, old(State()), touches[..i], hasHandler)
      {
        var touch := touches[i];
        assert touches[..i + 1][..i] == touches[..i];
        if touch.keyAtPoint.Some? {
          touchKeyMap := touchKeyMap[touch.identifier := touch.keyAtPoint.value];
          ActivateKey(touch.keyAtPoint);
        }
        i := i + 1;
      }
      assert touches[..i] == touches;
    }

    method HandleTouchMove(touches: seq<Touch>)
      modifies this`touchKeyMap, this`active, this`calls
      ensures State() == Handle(Move, old(State()), touches, hasHandler)
    {
      var i := 0;
      while i < |touches|
        invariant 0 <= i <= |touches|
        invariant State() == Handle(Move, old(State()), touches[..i], hasHandler)
      {
        var touch := touches[i];
        assert touches[..i + 1][..i] == touches[..i];
        var currentKey := touch.keyAtPoint;
        var previousKey := if touch.identifier in touchKeyMap then Some(touchKeyMap[touch.identifier]) else None;
        if currentKey != previousKey {
          DeactivateKey(previousKey);
          if currentKey.Some? {
            ActivateKey(currentKey);
            touchKeyMap := touchKeyMap[touch.identifier := currentKey.value];
          } else {
            touchKeyMap := touchKeyMap - {touch.identifier};
          }
        }
        i := i + 1;
      }
      assert touches[..i] == touches;
    }

    method HandleTouchEnd(touches: seq<Touch>)
      modifies this`touchKeyMap, this`active, this`calls
      ensures State() == Handle(End, old(State()), touches, hasHandler)
    {
      var i := 0;
      while i < |touches|
        invariant 0 <= i <= |touches|
        invariant State() == Handle(End, old(State()), touches[..i], hasHandler)
      {
        var touch := touches[i];
        assert touches[..i + 1][..i] == touches[..i];
        if touch.identifier in touchKeyMap {
          var key := touchKeyMap[touch.identifier];
          DeactivateKey(Some(key));
          touchKeyMap := touchKeyMap - {touch.identifier};
        }
        i := i + 1;
      }
      assert touches[..i] == touches;
    }
  }
}
