/**
 * org.recompile.freej2me.FreeJ2ME: the input listener that turns host key
 * and pointer events into platform events, and settingsChanged, which
 * derives the runtime switches from the per-app settings map.
 */
module FreeJ2ME {
  import opened Wrappers
  import Mobile
  import JavaString
  import Config
  import PlatformEvent

  /** Index into pressedKeys: (mobikey + 64) & 0x7F. */
  function KeyIndex(mobikey: int): (i: int)
    ensures 0 <= i < 128
    ensures -64 <= mobikey < 64 ==> i == mobikey + 64
  {
    (mobikey + 64) % 128
  }

  /** Distinct phone codes get distinct pressedKeys slots. */
  lemma KeyIndexInjective(a: int, b: int)
    requires Mobile.IsMobileCode(a) && Mobile.IsMobileCode(b)
    requires KeyIndex(a) == KeyIndex(b)
    ensures a == b
  {
  }

  /** What the listener does with a host key event. */
  datatype KeyAction =
    | ToConfigScreen(e: PlatformEvent.KeyEvent)      // the config screen has the keyboard
    | OpenConfigScreen                               // Escape: drop queued events, show the config screen
    | Pressed(e: PlatformEvent.KeyEvent)             // platform keyPressed
    | Repeated(e: PlatformEvent.KeyEvent)            // platform keyRepeated
    | Released(e: PlatformEvent.KeyEvent)            // platform keyReleased

  /** The key event after the listener fills in the phone and normalised codes. */
  function Translate(keycode: int, v: Mobile.Vendor): (e: PlatformEvent.KeyEvent)
    ensures e.code == keycode
    ensures Mobile.IsMobileCode(e.platformCode)
  {
    var mobikey := Mobile.GetMobileKey(keycode, v);
    PlatformEvent.KeyEvent(keycode, mobikey, Mobile.NormalizeKey(mobikey, v.siemens, v.motorola))
  }

  /** keyPressed: the action and the new pressedKeys. */
  function OnKeyPressed(pressed: seq<bool>, keycode: int, v: Mobile.Vendor, configRunning: bool): (r: (KeyAction, seq<bool>))
    requires |pressed| == 128
    ensures |r.1| == 128
    ensures configRunning || keycode == Mobile.VK_ESCAPE ==> r.1 == pressed
    ensures !configRunning && keycode != Mobile.VK_ESCAPE ==>
              var e := Translate(keycode, v);
              && (r.0 == if pressed[KeyIndex(e.platformCode)] then Repeated(e) else Pressed(e))
              && (e.platformCode != 0 ==> r.1 == pressed[KeyIndex(e.platformCode) := true])
              && (e.platformCode == 0 ==> r.1 == pressed)
  {
    var e := Translate(keycode, v);
    if configRunning then (ToConfigScreen(e), pressed)
    else
      var n := KeyIndex(e.platformCode);
      if keycode == Mobile.VK_ESCAPE then (OpenConfigScreen, pressed)
      else
        var action := if !pressed[n] then Pressed(e) else Repeated(e);
        (action, if e.platformCode != 0 then pressed[n := true] else pressed)
  }

  /** keyReleased: the action and the new pressedKeys. */
  function OnKeyReleased(pressed: seq<bool>, keycode: int, v: Mobile.Vendor, configRunning: bool): (r: (KeyAction, seq<bool>))
    requires |pressed| == 128
    ensures |r.1| == 128
    ensures configRunning ==> r.1 == pressed && r.0 == ToConfigScreen(Translate(keycode, v))
    ensures !configRunning ==>
              var e := Translate(keycode, v);
              && r.0 == Released(e)
              && (e.platformCode != 0 ==> r.1 == pressed[KeyIndex(e.platformCode) := false])
              && (e.platformCode == 0 ==> r.1 == pressed)
  {
    var e := Translate(keycode, v);
    if configRunning then (ToConfigScreen(e), pressed)
    else
      var n := KeyIndex(e.platformCode);
      (Released(e), if e.platformCode != 0 then pressed[n := false] else pressed)
  }

  /** A held key: the first press is a press, the next ones are repeats, and after a release it is a press again. */
  lemma PressRepeatRelease(pressed: seq<bool>, keycode: int, v: Mobile.Vendor)
    requires |pressed| == 128
    requires keycode != Mobile.VK_ESCAPE
    requires Mobile.GetMobileKey(keycode, v) != 0
    requires !pressed[KeyIndex(Mobile.GetMobileKey(keycode, v))]
    ensures var e := Translate(keycode, v);
            var (a1, p1) := OnKeyPressed(pressed, keycode, v, false);
            var (a2, p2) := OnKeyPressed(p1, keycode, v, false);
            var (a3, p3) := OnKeyReleased(p2, keycode, v, false);
            var (a4, _) := OnKeyPressed(p3, keycode, v, false);
            a1 == Pressed(e) && a2 == Repeated(e) && a3 == Released(e) && a4 == Pressed(e)
  {
  }

  /**
   * The slot of code 0 is never written, since no other phone code shares
   * it; so a key without a phone code is never reported as a repeat.
   */
  lemma ZeroCodeSlotStaysClear(pressed: seq<bool>, keycode: int, v: Mobile.Vendor, configRunning: bool, down: bool)
    requires |pressed| == 128 && !pressed[KeyIndex(0)]
    ensures var p := if down then OnKeyPressed(pressed, keycode, v, configRunning).1
                     else OnKeyReleased(pressed, keycode, v, configRunning).1;
            !p[KeyIndex(0)]
    ensures Mobile.GetMobileKey(keycode, v) == 0 && !configRunning && keycode != Mobile.VK_ESCAPE ==>
              OnKeyPressed(pressed, keycode, v, configRunning).0 == Pressed(Translate(keycode, v))
  {
    var c := Mobile.GetMobileKey(keycode, v);
    if c != 0 {
      if KeyIndex(c) == KeyIndex(0) {
        KeyIndexInjective(c, 0);
      }
    }
  }

  /** The pointer handlers: x and y swap places when the display is rotated. */
  function PointerCoordinates(x: int, y: int, rotateDisplay: bool): (r: (int, int))
    ensures rotateDisplay ==> r == (y, x)
    ensures !rotateDisplay ==> r == (x, y)
  {
    if rotateDisplay then (y, x) else (x, y)
  }

  /** The input listener's own state: the held-key flags. */
  class InputListener {
    var pressedKeys: array<bool>

    constructor ()
      ensures fresh(pressedKeys) && pressedKeys.Length == 128
      ensures forall i :: 0 <= i < 128 ==> !pressedKeys[i]
    {
      pressedKeys := new bool[128](_ => false);
    }

    method KeyPressed(keycode: int, v: Mobile.Vendor, configRunning: bool) returns (action: KeyAction)
      requires pressedKeys.Length == 128
      modifies pressedKeys
      ensures (action, pressedKeys[..]) == OnKeyPressed(old(pressedKeys[..]), keycode, v, configRunning)
    {
      var keyEvent := Translate(keycode, v);
      var mobikey := keyEvent.platformCode;
      if configRunning {
        return ToConfigScreen(keyEvent);
      }
      var mobikeyN := KeyIndex(mobikey);
      if keycode == Mobile.VK_ESCAPE {
        return OpenConfigScreen;
      }
      if !pressedKeys[mobikeyN] {
        action := Pressed(keyEvent);
      } else {
        action := Repeated(keyEvent);
      }
      if mobikey != 0 {
        pressedKeys[mobikeyN] := true;
      }
    }

    method KeyReleased(keycode: int, v: Mobile.Vendor, configRunning: bool) returns (action: KeyAction)
      requires pressedKeys.Length == 128
      modifies pressedKeys
      ensures (action, pressedKeys[..]) == OnKeyReleased(old(pressedKeys[..]), keycode, v, configRunning)
    {
      var keyEvent := Translate(keycode, v);
      var mobikey := keyEvent.platformCode;
      if configRunning {
        return ToConfigScreen(keyEvent);
      }
      var mobikeyN := KeyIndex(mobikey);
      if mobikey != 0 {
        pressedKeys[mobikeyN] := false;
      }
      action := Released(keyEvent);
    }
  }

  /** Why settingsChanged throws. */
  datatype SettingsError = MissingSetting(key: string) | NumberFormat(key: string)

  /** Everything settingsChanged sets. */
  datatype Derived = Derived(
    limitFPS: int,
    sound: bool,
    vendor: Mobile.Vendor,
    rotateDisplay: bool,
    forceFullscreen: bool,
    usePaintQueue: bool,
    dgFormat: Option<string>,
    lcdWidth: int,
    lcdHeight: int,
    resizeLCD: bool,
    canvasWidth: int,
    canvasHeight: int,
    addedProperties: seq<(string, string)>)

  function Get(settings: map<string, string>, key: string): Result<string, SettingsError>
  {
    if key in settings then Ok(settings[key]) else Err(MissingSetting(key))
  }

  function GetInt(settings: map<string, string>, key: string): Result<int, SettingsError>
  {
    if key !in settings then Err(NumberFormat(key))
    else match JavaString.ParseInt(settings[key])
      case None => Err(NumberFormat(key))
      case Some(n) => Ok(n)
  }

  /** The vendor flags for a phone name: at most one is set. */
  function VendorOf(phone: string): (v: Mobile.Vendor)
    ensures v.nokia <==> phone == "Nokia"
    ensures v.siemens <==> phone == "Siemens"
    ensures v.motorola <==> phone == "Motorola"
    ensures v.sonyEricsson <==> phone == "SonyEricsson"
  {
    Mobile.Vendor(phone == "Nokia", phone == "Siemens", phone == "Motorola", phone == "SonyEricsson")
  }

  /** The properties settingsChanged adds for the selected vendor. */
  function VendorProperties(v: Mobile.Vendor): seq<(string, string)>
  {
    if v.nokia then [("microedition.platform", "Nokia6233/05.10")]
    else if v.sonyEricsson then [("microedition.platform", "SonyEricssonK750/JAVASDK"),
                                 ("com.sonyericsson.imei", "IMEI 00460101-501594-5-00")]
    else if v.siemens then [("com.siemens.OSVersion", "11"), ("com.siemens.IMEI", "000000000000000"),
                            ("microedition.platform", "SL45i")]
    else []
  }

  /**
   * settingsChanged, given the settings, the previous rotation flag and the
   * platform's current LCD size.
   */
  function SettingsChanged(settings: map<string, string>, rotateBefore: bool, platformWidth: int, platformHeight: int)
    : (r: Result<Derived, SettingsError>)
    ensures r.Ok? <==>
              && GetInt(settings, "fps").Ok? && GetInt(settings, "width").Ok? && GetInt(settings, "height").Ok?
              && "sound" in settings && "phone" in settings && "rotate" in settings
  {
    var fps :- GetInt(settings, "fps");
    var sound :- Get(settings, "sound");
    var phone :- Get(settings, "phone");
    var rotate :- Get(settings, "rotate");
    var rotateDisplay := if rotate == "on" then true else if rotate == "off" then false else rotateBefore;
    var dg := Config.GetOrDefault(settings, "dgFormat", "default");
    var w :- GetInt(settings, "width");
    var h :- GetInt(settings, "height");
    var v := VendorOf(phone);
    Ok(Derived(
      if fps > 0 then 1000 / fps else fps,
      sound == "on",
      v,
      rotateDisplay,
      Config.GetOrDefault(settings, "forceFullscreen", "off") == "on",
      Config.GetOrDefault(settings, "queuedPaint", "off") == "on",
      if dg == "default" then None else Some(dg),
      w, h,
      w != platformWidth || h != platformHeight,
      if rotateDisplay then h else w,
      if rotateDisplay then w else h,
      VendorProperties(v)))
  }

  /**
   * What settingsChanged promises: the frame delay is 1000/fps for positive
   * fps, at most one vendor flag is set and it matches the phone name, and
   * the canvas is the LCD turned on its side when rotated.
   */
  lemma SettingsChangedFacts(settings: map<string, string>, rotateBefore: bool, pw: int, ph: int)
    requires SettingsChanged(settings, rotateBefore, pw, ph).Ok?
    ensures var d := SettingsChanged(settings, rotateBefore, pw, ph).value;
            && JavaString.ParseInt(settings["fps"]).Some?
            && (var fps := JavaString.ParseInt(settings["fps"]).value;
                (fps > 0 ==> d.limitFPS == 1000 / fps && 0 <= d.limitFPS <= 1000)
                && (fps == 0 ==> d.limitFPS == 0))
            && d.vendor.Exclusive()
            && (d.vendor.nokia <==> settings["phone"] == "Nokia")
            && (d.rotateDisplay ==> d.canvasWidth == d.lcdHeight && d.canvasHeight == d.lcdWidth)
            && (!d.rotateDisplay ==> d.canvasWidth == d.lcdWidth && d.canvasHeight == d.lcdHeight)
            && (d.resizeLCD <==> (d.lcdWidth, d.lcdHeight) != (pw, ph))
  {
  }
}
