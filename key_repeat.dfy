/**
 * key.js: the browser key-code table and KeyRepeatManager, which turns
 * raw key-down/key-up posts into 'down', 'repeat', 'up' and 'click'
 * events. The two timers a held key starts (the first repeat after
 * TIME_TO_FIRST_REPEAT ms, then one every REPEAT_INTERVAL ms) are
 * modelled as inputs that the browser delivers; a cleared timer never
 * fires, so a timer input for a key in the wrong phase changes nothing.
 */
module KeyRepeat {
  import opened Wrappers

  // ---------------------------------------------------------------- codeMap

  /** The entries of codeMap outside the three runs below. */
  const SpecialCodes: map<string, int> := map[
    "Enter" := 13, "Backspace" := 8, "Delete" := 46,
    "ArrowLeft" := 37, "ArrowRight" := 39, "ArrowUp" := 38, "ArrowDown" := 40,
    "Escape" := 27,
    "NumpadDivide" := 111, "NumpadMultiply" := 106,
    "F1" := 112, "F2" := 113, "F3" := 114,
    "Space" := 32
  ]

  const DigitRowCodes: map<string, int> := map[
    "Digit0" := 48, "Digit1" := 49, "Digit2" := 50, "Digit3" := 51, "Digit4" := 52,
    "Digit5" := 53, "Digit6" := 54, "Digit7" := 55, "Digit8" := 56, "Digit9" := 57
  ]

  const NumpadCodes: map<string, int> := map[
    "Numpad0" := 96, "Numpad1" := 97, "Numpad2" := 98, "Numpad3" := 99, "Numpad4" := 100,
    "Numpad5" := 101, "Numpad6" := 102, "Numpad7" := 103, "Numpad8" := 104, "Numpad9" := 105
  ]

  const LetterKeyCodes: map<string, int> := map[
    "KeyA" := 65, "KeyB" := 66, "KeyC" := 67, "KeyD" := 68, "KeyE" := 69, "KeyF" := 70,
    "KeyG" := 71, "KeyH" := 72, "KeyI" := 73, "KeyJ" := 74, "KeyK" := 75, "KeyL" := 76,
    "KeyM" := 77, "KeyN" := 78, "KeyO" := 79, "KeyP" := 80, "KeyQ" := 81, "KeyR" := 82,
    "KeyS" := 83, "KeyT" := 84, "KeyU" := 85, "KeyV" := 86, "KeyW" := 87, "KeyX" := 88,
    "KeyY" := 89, "KeyZ" := 90
  ]

  /** codeMap: KeyboardEvent.code to the legacy keyCode the Java side expects; its 60 entries, grouped. */
  const CodeMap: map<string, int> := SpecialCodes + DigitRowCodes + NumpadCodes + LetterKeyCodes

  /** The character of decimal digit `d`. */
  function DigitChar(d: int): (c: char)
    requires 0 <= d < 10
    ensures '0' <= c <= '9' && c as int - '0' as int == d
  {
    ('0' as int + d) as char
  }

  /** `Key<L>` maps to the ASCII code of the upper-case letter L. */
  lemma LetterCodes(c: char)
    requires 'A' <= c <= 'Z'
    ensures "Key" + [c] in LetterKeyCodes && LetterKeyCodes["Key" + [c]] == c as int
  {
    if c <= 'G' {
      LetterCodesAToG(c);
    } else if c <= 'N' {
      LetterCodesHToN(c);
    } else if c <= 'T' {
      LetterCodesOToT(c);
    } else {
      LetterCodesUToZ(c);
    }
  }

  lemma LetterCodesAToG(c: char)
    requires 'A' <= c <= 'G'
    ensures "Key" + [c] in LetterKeyCodes && LetterKeyCodes["Key" + [c]] == c as int
  {
    if c == 'A' {
      assert "Key" + [c] == "KeyA";
    } else if c == 'B' {
      assert "Key" + [c] == "KeyB";
    } else if c == 'C' {
      assert "Key" + [c] == "KeyC";
    } else if c == 'D' {
      assert "Key" + [c] == "KeyD";
    } else if c == 'E' {
      assert "Key" + [c] == "KeyE";
    } else if c == 'F' {
      assert "Key" + [c] == "KeyF";
    } else if c == 'G' {
      assert "Key" + [c] == "KeyG";
    }
  }

  lemma LetterCodesHToN(c: char)
    requires 'H' <= c <= 'N'
    ensures "Key" + [c] in LetterKeyCodes && LetterKeyCodes["Key" + [c]] == c as int
  {
    if c == 'H' {
      assert "Key" + [c] == "KeyH";
    } else if c == 'I' {
      assert "Key" + [c] == "KeyI";
    } else if c == 'J' {
      assert "Key" + [c] == "KeyJ";
    } else if c == 'K' {
      assert "Key" + [c] == "KeyK";
    } else if c == 'L' {
      assert "Key" + [c] == "KeyL";
    } else if c == 'M' {
      assert "Key" + [c] == "KeyM";
    } else if c == 'N' {
      assert "Key" + [c] == "KeyN";
    }
  }

  lemma LetterCodesOToT(c: char)
    requires 'O' <= c <= 'T'
    ensures "Key" + [c] in LetterKeyCodes && LetterKeyCodes["Key" + [c]] == c as int
  {
    if c == 'O' {
      assert "Key" + [c] == "KeyO";
    } else if c == 'P' {
      assert "Key" + [c] == "KeyP";
    } else if c == 'Q' {
      assert "Key" + [c] == "KeyQ";
    } else if c == 'R' {
      assert "Key" + [c] == "KeyR";
    } else if c == 'S' {
      assert "Key" + [c] == "KeyS";
    } else if c == 'T' {
      assert "Key" + [c] == "KeyT";
    }
  }

  lemma LetterCodesUToZ(c: char)
    requires 'U' <= c <= 'Z'
    ensures "Key" + [c] in LetterKeyCodes && LetterKeyCodes["Key" + [c]] == c as int
  {
    if c == 'U' {
      assert "Key" + [c] == "KeyU";
    } else if c == 'V' {
      assert "Key" + [c] == "KeyV";
    } else if c == 'W' {
      assert "Key" + [c] == "KeyW";
    } else if c == 'X' {
      assert "Key" + [c] == "KeyX";
    } else if c == 'Y' {
      assert "Key" + [c] == "KeyY";
    } else if c == 'Z' {
      assert "Key" + [c] == "KeyZ";
    }
  }

  /** `Digit<d>` maps to 48 + d and `Numpad<d>` to 96 + d. */
  lemma DigitCodes(d: nat)
    requires d < 10
    ensures "Digit" + [DigitChar(d)] in DigitRowCodes && DigitRowCodes["Digit" + [DigitChar(d)]] == 48 + d
    ensures "Numpad" + [DigitChar(d)] in NumpadCodes && NumpadCodes["Numpad" + [DigitChar(d)]] == 96 + d
  {
    if d == 0 {
      assert "Digit" + [DigitChar(d)] == "Digit0" && "Numpad" + [DigitChar(d)] == "Numpad0";
    } else if d == 1 {
      assert "Digit" + [DigitChar(d)] == "Digit1" && "Numpad" + [DigitChar(d)] == "Numpad1";
    } else if d == 2 {
      assert "Digit" + [DigitChar(d)] == "Digit2" && "Numpad" + [DigitChar(d)] == "Numpad2";
    } else if d == 3 {
      assert "Digit" + [DigitChar(d)] == "Digit3" && "Numpad" + [DigitChar(d)] == "Numpad3";
    } else if d == 4 {
      assert "Digit" + [DigitChar(d)] == "Digit4" && "Numpad" + [DigitChar(d)] == "Numpad4";
    } else if d == 5 {
      assert "Digit" + [DigitChar(d)] == "Digit5" && "Numpad" + [DigitChar(d)] == "Numpad5";
    } else if d == 6 {
      assert "Digit" + [DigitChar(d)] == "Digit6" && "Numpad" + [DigitChar(d)] == "Numpad6";
    } else if d == 7 {
      assert "Digit" + [DigitChar(d)] == "Digit7" && "Numpad" + [DigitChar(d)] == "Numpad7";
    } else if d == 8 {
      assert "Digit" + [DigitChar(d)] == "Digit8" && "Numpad" + [DigitChar(d)] == "Numpad8";
    } else if d == 9 {
      assert "Digit" + [DigitChar(d)] == "Digit9" && "Numpad" + [DigitChar(d)] == "Numpad9";
    }
  }

  // ---------------------------------------------------------------- the state machine

  /** The optional argument dictionary of a post (modifier flags and the like). */
  type Args = map<string, string>

  /** `args || {}`: a missing dictionary stands for the empty one. */
  function ArgsOf(args: Option<Args>): (r: Args)
    ensures args.Some? ==> r == args.value
    ensures args.None? ==> r == map[]
  {
    if args.Some? then args.value else map[]
  }

  /** Which timer is live for a held key: the first-repeat timeout, or the repeat interval after it fired. */
  datatype Phase = AwaitingFirstRepeat | Repeating

  /** A held key: the args of its latest down post and its live timer. */
  datatype KeyState = KeyState(args: Args, phase: Phase)

  datatype EventType = Down | Repeat | Up | Click

  datatype Event = Event(kind: EventType, key: string, args: Args)

  /** Something the manager reacts to: a post, one of a held key's timers, or reset. */
  datatype Input =
    | Post(isDown: bool, key: string, args: Option<Args>)
    | FirstRepeatFires(key: string)
    | IntervalFires(key: string)
    | ResetAll

  /** The key states after one input. */
  function Next(states: map<string, KeyState>, input: Input): map<string, KeyState>
  {
    match input
    case Post(isDown, key, args) =>
      if key == "" then states
      else if isDown then
        if key in states then states[key := states[key].(args := ArgsOf(args))]
        else states[key := KeyState(ArgsOf(args), AwaitingFirstRepeat)]
      else if key in states then states - {key}
      else states
    case FirstRepeatFires(key) =>
      if key in states && states[key].phase == AwaitingFirstRepeat then states[key := states[key].(phase := Repeating)]
      else states
    case IntervalFires(_) => states
    case ResetAll => map[]
  }

  /** The events one input emits, before they reach the listener. */
  function Out(states: map<string, KeyState>, input: Input): seq<Event>
  {
    match input
    case Post(isDown, key, args) =>
      if key == "" then []
      else if isDown then
        if key in states then [] else [Event(Down, key, ArgsOf(args))]
      else if key in states then
        var s := states[key];
        [Event(Up, key, s.args)] + (if s.phase == AwaitingFirstRepeat then [Event(Click, key, s.args)] else [])
      else []
    case FirstRepeatFires(key) =>
      if key in states && states[key].phase == AwaitingFirstRepeat then [Event(Repeat, key, states[key].args)] else []
    case IntervalFires(key) =>
      if key in states && states[key].phase == Repeating then [Event(Repeat, key, states[key].args)] else []
    case ResetAll => []
  }

  /** A down for a key not held emits exactly one 'down' and records the key; a down for a held key emits nothing and only replaces its args. */
  lemma DownPost(states: map<string, KeyState>, key: string, args: Option<Args>)
    requires key != ""
    ensures var input := Post(true, key, args);
            && key in Next(states, input)
            && Next(states, input)[key].args == ArgsOf(args)
            && (key !in states ==> Out(states, input) == [Event(Down, key, ArgsOf(args))] && Next(states, input)[key].phase == AwaitingFirstRepeat)
            && (key in states ==> Out(states, input) == [] && Next(states, input)[key].phase == states[key].phase)
            && (forall k :: k != key ==> (k in Next(states, input) <==> k in states))
  {
  }

  /**
   * An up for a held key emits 'up' and forgets the key, followed by
   * 'click' exactly when the first repeat had not yet fired; an up for a
   * key not held emits nothing and changes nothing.
   */
  lemma UpPost(states: map<string, KeyState>, key: string, args: Option<Args>)
    requires key != ""
    ensures var input := Post(false, key, args);
            && key !in Next(states, input)
            && (key in states ==>
                  && |Out(states, input)| >= 1
                  && Out(states, input)[0] == Event(Up, key, states[key].args)
                  && (|Out(states, input)| == 2 <==> states[key].phase == AwaitingFirstRepeat)
                  && (forall e :: e in Out(states, input) ==> e.key == key && e.args == states[key].args && e.kind in {Up, Click}))
            && (key !in states ==> Out(states, input) == [] && Next(states, input) == states)
  {
  }

  /** A post with an empty key is rejected: no event and no change. */
  lemma EmptyKeyIgnored(states: map<string, KeyState>, isDown: bool, args: Option<Args>)
    ensures Next(states, Post(isDown, "", args)) == states
    ensures Out(states, Post(isDown, "", args)) == []
  {
  }

  /**
   * The key states and events after a whole run of inputs.
   */
  function Run(states: map<string, KeyState>, inputs: seq<Input>): (r: (map<string, KeyState>, seq<Event>))
    decreases |inputs|
  {
    if inputs == [] then (states, [])
    else
      var rest := Run(Next(states, inputs[0]), inputs[1..]);
      (rest.0, Out(states, inputs[0]) + rest.1)
  }

  /** Inputs that concern `key` other than posts: its timers and reset. */
  predicate NoRepostOf(inputs: seq<Input>, key: string)
  {
    forall i :: 0 <= i < |inputs| ==> !(inputs[i].Post? && inputs[i].key == key) && !inputs[i].ResetAll?
  }

  /**
   * Repeats carry the args of the latest down post: once `key` was posted
   * down with `args`, every 'repeat' for it until the next post or reset
   * carries ArgsOf(args).
   */
  lemma {:induction false} RepeatsCarryLatestArgs(states: map<string, KeyState>, inputs: seq<Input>, key: string, args: Option<Args>)
    requires key in states && states[key].args == ArgsOf(args)
    requires NoRepostOf(inputs, key)
    ensures var r := Run(states, inputs);
            && key in r.0 && r.0[key].args == ArgsOf(args)
            && forall e :: e in r.1 && e.key == key ==> e.kind == Repeat && e.args == ArgsOf(args)
    decreases |inputs|
  {
    if inputs != [] {
      var next := Next(states, inputs[0]);
      assert NoRepostOf(inputs[1..], key) by {
        forall i | 0 <= i < |inputs[1..]| ensures !(inputs[1..][i].Post? && inputs[1..][i].key == key) && !inputs[1..][i].ResetAll? {
          assert inputs[1..][i] == inputs[i + 1];
        }
      }
      assert !(inputs[0].Post? && inputs[0].key == key) && !inputs[0].ResetAll? by { assert NoRepostOf(inputs, key); }
      RepeatsCarryLatestArgs(next, inputs[1..], key, args);
    }
  }

  /** After reset no key is held, so an up posted next emits nothing. */
  lemma ResetForgetsKeys(states: map<string, KeyState>, key: string, args: Option<Args>)
    ensures Next(states, ResetAll) == map[]
    ensures Out(Next(states, ResetAll), Post(false, key, args)) == []
  {
  }

  /**
   * Down and up alternate for each key across any run without reset:
   * starting from `held`, a 'down' for `key` comes only while it is
   * released and an 'up' only while it is held.
   */
  predicate Alternating(held: bool, events: seq<Event>, key: string)
    decreases |events|
  {
    if events == [] then true
    else
      var e := events[0];
      if e.key == key && e.kind == Down then !held && Alternating(true, events[1..], key)
      else if e.key == key && e.kind == Up then held && Alternating(false, events[1..], key)
      else Alternating(held, events[1..], key)
  }

  /** Whether `key` is held after `events`, starting from `held`. */
  function HeldAfter(held: bool, events: seq<Event>, key: string): bool
    decreases |events|
  {
    if events == [] then held
    else
      var e := events[0];
      if e.key == key && e.kind == Down then HeldAfter(true, events[1..], key)
      else if e.key == key && e.kind == Up then HeldAfter(false, events[1..], key)
      else HeldAfter(held, events[1..], key)
  }

  lemma {:induction false} AlternatingAppend(held: bool, a: seq<Event>, b: seq<Event>, key: string)
    requires Alternating(held, a, key) && Alternating(HeldAfter(held, a, key), b, key)
    ensures Alternating(held, a + b, key)
    ensures HeldAfter(held, a + b, key) == HeldAfter(HeldAfter(held, a, key), b, key)
    decreases |a|
  {
    if a != [] {
      assert (a + b)[0] == a[0] && (a + b)[1..] == a[1..] + b;
      var e := a[0];
      if e.key == key && e.kind == Down {
        AlternatingAppend(true, a[1..], b, key);
      } else if e.key == key && e.kind == Up {
        AlternatingAppend(false, a[1..], b, key);
      } else {
        AlternatingAppend(held, a[1..], b, key);
      }
    } else {
      assert a + b == b;
    }
  }

  /** One input keeps the alternation, and the key is held afterwards exactly when it is in the new states. */
  lemma StepAlternates(states: map<string, KeyState>, input: Input, key: string)
    requires !input.ResetAll?
    ensures Alternating(key in states, Out(states, input), key)
    ensures HeldAfter(key in states, Out(states, input), key) == (key in Next(states, input))
  {
    var out := Out(states, input);
    if input.Post? && input.key != "" && !input.isDown && input.key in states {
      if states[input.key].phase == AwaitingFirstRepeat {
        assert out[1..] == [Event(Click, input.key, states[input.key].args)];
        assert out[1..][1..] == [];
        var h := if key == input.key then false else key in states;
        assert HeldAfter(h, out[1..], key) == h && Alternating(h, out[1..], key);
      } else {
        assert out[1..] == [];
      }
    }
  }

  /** Across a run without reset, 'down' and 'up' alternate for every key, and the key is held at the end exactly when the last of them was a 'down'. */
  lemma {:induction false} RunAlternates(states: map<string, KeyState>, inputs: seq<Input>, key: string)
    requires forall i :: 0 <= i < |inputs| ==> !inputs[i].ResetAll?
    ensures Alternating(key in states, Run(states, inputs).1, key)
    ensures HeldAfter(key in states, Run(states, inputs).1, key) == (key in Run(states, inputs).0)
    decreases |inputs|
  {
    if inputs != [] {
      var next := Next(states, inputs[0]);
      assert !inputs[0].ResetAll?;
      StepAlternates(states, inputs[0], key);
      assert forall i :: 0 <= i < |inputs[1..]| ==> !inputs[1..][i].ResetAll? by {
        forall i | 0 <= i < |inputs[1..]| ensures !inputs[1..][i].ResetAll? {
          assert inputs[1..][i] == inputs[i + 1];
        }
      }
      RunAlternates(next, inputs[1..], key);
      AlternatingAppend(key in states, Out(states, inputs[0]), Run(next, inputs[1..]).1, key);
    }
  }

  // ---------------------------------------------------------------- the manager

  /** What `register` is given: null, a function (named by an id), or something else. */
  datatype Callback = Null | Function(id: nat) | NotAFunction

  /** One call of the listener. */
  datatype Delivery = Delivery(listener: nat, event: Event)

  /** emit: the events reach the listener when one is registered, and vanish otherwise. */
  function Deliver(listener: Option<nat>, events: seq<Event>): (r: seq<Delivery>)
    ensures listener.None? ==> r == []
    ensures listener.Some? ==> |r| == |events| && forall i :: 0 <= i < |r| ==> r[i] == Delivery(listener.value, events[i])
  {
    if listener.None? || events == [] then []
    else [Delivery(listener.value, events[0])] + Deliver(listener, events[1..])
  }

  /**
   * KeyRepeatManager. `delivered` records every call of the listener; a
   * listener that throws is still called, and the error is only logged.
   */
  class KeyRepeatManager {
    var keyStates: map<string, KeyState>
    var listener: Option<nat>
    var delivered: seq<Delivery>

    constructor ()
      ensures keyStates == map[] && listener == None && delivered == []
    {
      keyStates := map[];
      listener := None;
      delivered := [];
    }

    /** register: a function or null replaces the listener; anything else is refused and changes nothing. */
    method Register(callback: Callback)
      modifies this`listener
      ensures callback.Null? ==> listener == None
      ensures callback.Function? ==> listener == Some(callback.id)
      ensures callback.NotAFunction? ==> listener == old(listener)
    {
      if callback.NotAFunction? {
        return;
      }
      listener := if callback.Function? then Some(callback.id) else None;
    }

    method Emit(kind: EventType, key: string, args: Args)
      modifies this`delivered
      ensures delivered == old(delivered) + Deliver(listener, [Event(kind, key, args)])
    {
      if listener.Some? {
        delivered := delivered + [Delivery(listener.value, Event(kind, key, args))];
      }
    }

    /** post(isDown, key, args). */
    method Post(isDown: bool, key: string, args: Option<Args>)
      modifies this`keyStates, this`delivered
      ensures keyStates == Next(old(keyStates), Input.Post(isDown, key, args))
      ensures delivered == old(delivered) + Deliver(listener, Out(old(keyStates), Input.Post(isDown, key, args)))
    {
      if key == "" {
        return;
      }
      if isDown {
        if key in keyStates {
          keyStates := keyStates[key := keyStates[key].(args := ArgsOf(args))];
        } else {
          var newState := KeyState(ArgsOf(args), AwaitingFirstRepeat);
          keyStates := keyStates[key := newState];
          Emit(Down, key, newState.args);
        }
      } else if key in keyStates {
        var currentState := keyStates[key];
        Emit(Up, key, currentState.args);
        if currentState.phase == AwaitingFirstRepeat {
          Emit(Click, key, currentState.args);
        }
        keyStates := keyStates - {key};
      }
    }

    /** The first-repeat timeout of `key` fires: one 'repeat', then the interval takes over. */
    method FirstRepeatTimer(key: string)
      modifies this`keyStates, this`delivered
      ensures keyStates == Next(old(keyStates), FirstRepeatFires(key))
      ensures delivered == old(delivered) + Deliver(listener, Out(old(keyStates), FirstRepeatFires(key)))
    {
      if key in keyStates && keyStates[key].phase == AwaitingFirstRepeat {
        var state := keyStates[key];
        Emit(Repeat, key, state.args);
        keyStates := keyStates[key := state.(phase := Repeating)];
      }
    }

    /** The repeat interval of `key` fires: one 'repeat' with the key's current args. */
    method IntervalTimer(key: string)
      modifies this`delivered
      ensures delivered == old(delivered) + Deliver(listener, Out(keyStates, IntervalFires(key)))
    {
      if key in keyStates && keyStates[key].phase == Repeating {
        Emit(Repeat, key, keyStates[key].args);
      }
    }

    /** reset: every timer is cleared and every key forgotten, without emitting anything. */
    method Reset()
      modifies this`keyStates
      ensures keyStates == Next(old(keyStates), ResetAll)
    {
      keyStates := map[];
    }
  }
}
