/**
 * org.recompile.mobile.MobilePlatform: the GameCanvas key state, the
 * system-property overrides, the LCD size and the platform event queue
 * with its dispatcher.
 */
module MobilePlatform {
  import opened Wrappers
  import opened PlatformEvent
  import GameCanvas
  import Mobile

  /** The mask updateKeyState uses for a (normalised) phone key; 0 for keys it ignores. */
  function KeyMask(key: int): (m: bv32)
    ensures m == 0 || m in GameCanvas.MaskSet
    ensures m == 0 <==> key !in {Mobile.KEY_NUM1, Mobile.KEY_NUM2, Mobile.KEY_NUM3, Mobile.KEY_NUM4, Mobile.KEY_NUM5,
                                 Mobile.KEY_NUM6, Mobile.KEY_NUM7, Mobile.KEY_NUM8, Mobile.KEY_NUM9,
                                 Mobile.NOKIA_UP, Mobile.NOKIA_LEFT, Mobile.NOKIA_RIGHT, Mobile.NOKIA_DOWN, Mobile.NOKIA_SOFT3}
  {
    if key == Mobile.KEY_NUM2 || key == Mobile.NOKIA_UP then GameCanvas.UP_PRESSED
    else if key == Mobile.KEY_NUM4 || key == Mobile.NOKIA_LEFT then GameCanvas.LEFT_PRESSED
    else if key == Mobile.KEY_NUM6 || key == Mobile.NOKIA_RIGHT then GameCanvas.RIGHT_PRESSED
    else if key == Mobile.KEY_NUM8 || key == Mobile.NOKIA_DOWN then GameCanvas.DOWN_PRESSED
    else if key == Mobile.KEY_NUM5 || key == Mobile.NOKIA_SOFT3 then GameCanvas.FIRE_PRESSED
    else if key == Mobile.KEY_NUM1 then GameCanvas.GAME_A_PRESSED
    else if key == Mobile.KEY_NUM3 then GameCanvas.GAME_B_PRESSED
    else if key == Mobile.KEY_NUM7 then GameCanvas.GAME_C_PRESSED
    else if key == Mobile.KEY_NUM9 then GameCanvas.GAME_D_PRESSED
    else 0
  }

  /**
   * The key state after updateKeyState(key, val): the mask bits are first
   * cleared (or-then-xor) and set again only when val is 1.
   */
  function KeyStateAfter(state: bv32, key: int, val: int): (s: bv32)
    ensures s & !KeyMask(key) == state & !KeyMask(key)
    ensures s & KeyMask(key) == if val == 1 then KeyMask(key) else 0
  {
    var m := KeyMask(key);
    var cleared := (state | m) ^ m;
    if val == 1 then cleared | m else cleared
  }

  /** Keys outside the switch leave the key state as it is. */
  lemma UnmappedKeyKeepsState(state: bv32, key: int, val: int)
    requires KeyMask(key) == 0
    ensures KeyStateAfter(state, key, val) == state
  {
  }

  /** The keypad key and the Nokia code of the same direction drive the same bit. */
  lemma KeypadAndNokiaShareBits()
    ensures KeyMask(Mobile.KEY_NUM2) == KeyMask(Mobile.NOKIA_UP) == GameCanvas.UP_PRESSED
    ensures KeyMask(Mobile.KEY_NUM8) == KeyMask(Mobile.NOKIA_DOWN) == GameCanvas.DOWN_PRESSED
    ensures KeyMask(Mobile.KEY_NUM4) == KeyMask(Mobile.NOKIA_LEFT) == GameCanvas.LEFT_PRESSED
    ensures KeyMask(Mobile.KEY_NUM6) == KeyMask(Mobile.NOKIA_RIGHT) == GameCanvas.RIGHT_PRESSED
    ensures KeyMask(Mobile.KEY_NUM5) == KeyMask(Mobile.NOKIA_SOFT3) == GameCanvas.FIRE_PRESSED
  {
  }

  /** The key state after the do* handler for one event. */
  function KeyStateAfterEvent(state: bv32, ev: Event): bv32
  {
    if ev.keyEvent.Some? && ev.keyEvent.value.platformCode != 0 then
      if ev.eventType == KEY_PRESSED then KeyStateAfter(state, ev.keyEvent.value.normalizedCode, 1)
      else if ev.eventType == KEY_RELEASED then KeyStateAfter(state, ev.keyEvent.value.normalizedCode, 0)
      else state
    else state
  }

  /** The handler handleEvent calls for an event. */
  datatype Handler =
    | DoKeyPressed(e: Option<KeyEvent>)
    | DoKeyRepeated(e: Option<KeyEvent>)
    | DoKeyReleased(e: Option<KeyEvent>)
    | DoPointerPressed(x: int, y: int)
    | DoPointerDragged(x: int, y: int)
    | DoPointerReleased(x: int, y: int)
    | DoRepaintCanvas(canvas: Option<CanvasRef>, x: int, y: int, width: int, height: int)
    | RunRunnable(r: Option<RunnableRef>)
    | Ignored

  /** handleEvent: dispatch on the event type; unknown types are ignored. */
  function HandlerFor(ev: Event): (h: Handler)
    ensures h == Ignored <==> ev.eventType !in Types
  {
    if ev.eventType == KEY_PRESSED then DoKeyPressed(ev.keyEvent)
    else if ev.eventType == KEY_REPEATED then DoKeyRepeated(ev.keyEvent)
    else if ev.eventType == KEY_RELEASED then DoKeyReleased(ev.keyEvent)
    else if ev.eventType == POINTER_PRESSED then DoPointerPressed(ev.code, ev.code2)
    else if ev.eventType == POINTER_DRAGGED then DoPointerDragged(ev.code, ev.code2)
    else if ev.eventType == POINTER_RELEASED then DoPointerReleased(ev.code, ev.code2)
    else if ev.eventType == REPAINT_CANVAS then DoRepaintCanvas(ev.canvas, ev.code, ev.code2, ev.code3, ev.code4)
    else if ev.eventType == RUN then RunRunnable(ev.runnable)
    else Ignored
  }

  /**
   * Events built by each PlatformEvent constructor reach the matching
   * handler with the values the constructor stored.
   */
  lemma ConstructedEventsDispatch(e: KeyEvent, c: CanvasRef, r: RunnableRef, x: int, y: int, w: int, h: int)
    ensures HandlerFor(KeyEventOf(KEY_PRESSED, e)) == DoKeyPressed(Some(e))
    ensures HandlerFor(KeyEventOf(KEY_REPEATED, e)) == DoKeyRepeated(Some(e))
    ensures HandlerFor(KeyEventOf(KEY_RELEASED, e)) == DoKeyReleased(Some(e))
    ensures HandlerFor(PointerEvent(POINTER_PRESSED, x, y)) == DoPointerPressed(x, y)
    ensures HandlerFor(PointerEvent(POINTER_DRAGGED, x, y)) == DoPointerDragged(x, y)
    ensures HandlerFor(PointerEvent(POINTER_RELEASED, x, y)) == DoPointerReleased(x, y)
    ensures HandlerFor(RepaintEvent(c, x, y, w, h)) == DoRepaintCanvas(Some(c), x, y, w, h)
    ensures HandlerFor(RunEvent(r)) == RunRunnable(Some(r))
  {
  }

  /** The properties the constructor adds. */
  const DefaultProperties: seq<(string, string)> := [
    ("microedition.platform", "j2me"),
    ("microedition.profiles", "MIDP-2.0"),
    ("microedition.configuration", "CLDC-1.1"),
    ("microedition.locale", "en-US"),
    ("microedition.encoding", "ISO-8859-1"),
    ("microedition.m3g.version", "1.1"),
    ("wireless.messaging.sms.smsc", "+8613800010000"),
    ("device.imei", "000000000000000")]

  /** System properties after addSystemProperty(key, value) under the given overrides. */
  function AddProperty(props: map<string, string>, overrides: Option<map<string, string>>,
                       key: string, value: string): (r: map<string, string>)
    ensures overrides.Some? && key in overrides.value ==> r == props
    ensures !(overrides.Some? && key in overrides.value) ==> r == props[key := value]
  {
    if overrides.Some? && key in overrides.value then props else props[key := value]
  }

  /** An overridden key keeps its value through any later addSystemProperty. */
  lemma AddPropertyKeepsOverride(props: map<string, string>, ov: map<string, string>, key: string, value: string, k: string)
    requires k in ov && k in props && props[k] == ov[k]
    ensures k in AddProperty(props, Some(ov), key, value)
    ensures AddProperty(props, Some(ov), key, value)[k] == ov[k]
  {
  }

  class Platform {
    var lcdWidth: int
    var lcdHeight: int
    var keyState: bv32
    /** The JVM system properties as the platform sets them. */
    var systemProperties: map<string, string>
    var systemPropertyOverrides: Option<map<string, string>>
    /** The pending events of the platform event queue, head first. */
    var queue: seq<Event>

    constructor (width: int, height: int, initialProperties: map<string, string>)
      ensures lcdWidth == width && lcdHeight == height
      ensures keyState == 0 && queue == [] && systemPropertyOverrides == None
      ensures forall i :: 0 <= i < |DefaultProperties| ==>
                DefaultProperties[i].0 in systemProperties && systemProperties[DefaultProperties[i].0] == DefaultProperties[i].1
      ensures forall k :: k in initialProperties ==> k in systemProperties
    {
      lcdWidth, lcdHeight := width, height;
      keyState := 0;
      queue := [];
      systemPropertyOverrides := None;
      systemProperties := initialProperties;
      new;
      var i := 0;
      while i < |DefaultProperties|
        invariant 0 <= i <= |DefaultProperties|
        invariant lcdWidth == width && lcdHeight == height
        invariant keyState == 0 && queue == [] && systemPropertyOverrides == None
        invariant forall j :: 0 <= j < i ==>
                    DefaultProperties[j].0 in systemProperties && systemProperties[DefaultProperties[j].0] == DefaultProperties[j].1
        invariant forall k :: k in initialProperties ==> k in systemProperties
      {
        AddSystemProperty(DefaultProperties[i].0, DefaultProperties[i].1);
        i := i + 1;
      }
    }

    /** resizeLCD. */
    method ResizeLCD(width: int, height: int)
      modifies this`lcdWidth, this`lcdHeight
      ensures lcdWidth == width && lcdHeight == height
    {
      lcdWidth := width;
      lcdHeight := height;
    }

    /** updateKeyState. */
    method UpdateKeyState(key: int, val: int)
      modifies this`keyState
      ensures keyState == KeyStateAfter(old(keyState), key, val)
    {
      var mask := KeyMask(key);
      var t := keyState | mask;
      t := t ^ mask;
      if val == 1 {
        t := t | mask;
      }
      keyState := t;
    }

    /** The key-state part of doKeyPressed: only keys with a phone code count. */
    method DoKeyPressed(e: KeyEvent)
      modifies this`keyState
      ensures keyState == if e.platformCode != 0 then KeyStateAfter(old(keyState), e.normalizedCode, 1) else old(keyState)
    {
      if e.platformCode != 0 {
        UpdateKeyState(e.normalizedCode, 1);
      }
    }

    /** The key-state part of doKeyReleased. */
    method DoKeyReleased(e: KeyEvent)
      modifies this`keyState
      ensures keyState == if e.platformCode != 0 then KeyStateAfter(old(keyState), e.normalizedCode, 0) else old(keyState)
    {
      if e.platformCode != 0 {
        UpdateKeyState(e.normalizedCode, 0);
      }
    }

    /** setSystemPropertyOverrides: remember the map and copy every entry into the properties. */
    method SetSystemPropertyOverrides(overrides: Option<map<string, string>>)
      modifies this`systemPropertyOverrides, this`systemProperties
      ensures systemPropertyOverrides == overrides
      ensures systemProperties == if overrides.Some? then old(systemProperties) + overrides.value else old(systemProperties)
    {
      systemPropertyOverrides := overrides;
      if overrides.Some? {
        var ov := overrides.value;
        var todo := ov.Keys;
        while todo != {}
          invariant todo <= ov.Keys
          invariant systemPropertyOverrides == overrides
          invariant systemProperties == old(systemProperties) + map k | k in ov.Keys - todo :: ov[k]
          decreases todo
        {
          var k :| k in todo;
          systemProperties := systemProperties[k := ov[k]];
          todo := todo - {k};
        }
        assert ov.Keys - todo == ov.Keys;
        assert (map k | k in ov.Keys :: ov[k]) == ov;
      }
    }

    /** addSystemProperty: overrides have the highest priority. */
    method AddSystemProperty(key: string, value: string)
      modifies this`systemProperties
      ensures systemProperties == AddProperty(old(systemProperties), systemPropertyOverrides, key, value)
    {
      if systemPropertyOverrides.Some? && key in systemPropertyOverrides.value {
        return;
      }
      systemProperties := systemProperties[key := value];
    }

    /** EventQueue.submit: offer at the tail. */
    method Submit(ev: Event)
      modifies this`queue
      ensures queue == old(queue) + [ev]
    {
      queue := queue + [ev];
    }

    /** BlockingQueue.poll: the head, or null when empty. */
    method Poll() returns (ev: Option<Event>)
      modifies this`queue
      ensures old(queue) == [] ==> ev == None && queue == []
      ensures old(queue) != [] ==> ev == Some(old(queue)[0]) && queue == old(queue)[1..]
    {
      if queue == [] {
        ev := None;
      } else {
        ev := Some(queue[0]);
        queue := queue[1..];
      }
    }

    /** EventQueue.dropEvents: poll until the queue reports empty. */
    method DropEvents()
      modifies this`queue
      ensures queue == []
    {
      while true
        decreases |queue|
      {
        var ev := Poll();
        if ev == None {
          break;
        }
      }
    }

    /**
     * One turn of the event thread: take the head (the thread blocks while
     * the queue is empty) and handle it.
     */
    method ProcessNext() returns (h: Handler)
      requires queue != []
      modifies this`queue, this`keyState
      ensures queue == old(queue)[1..]
      ensures h == HandlerFor(old(queue)[0])
      ensures keyState == KeyStateAfterEvent(old(keyState), old(queue)[0])
    {
      var ev := queue[0];
      queue := queue[1..];
      h := HandlerFor(ev);
      if ev.keyEvent.Some? {
        if ev.eventType == KEY_PRESSED {
          DoKeyPressed(ev.keyEvent.value);
        } else if ev.eventType == KEY_RELEASED {
          DoKeyReleased(ev.keyEvent.value);
        }
      }
    }
  }
}
