/**
 * Key code translation of org.recompile.mobile.Mobile: host key codes to
 * phone key codes (getMobileKey) and phone key codes to the Nokia set used
 * by the built-in UI (normalizeKey). The vendor flags, static fields in the
 * source, are parameters here.
 */
module Mobile {
  import opened Wrappers

  // Canvas key codes.
  const KEY_NUM0: int := 48
  const KEY_NUM1: int := 49
  const KEY_NUM2: int := 50
  const KEY_NUM3: int := 51
  const KEY_NUM4: int := 52
  const KEY_NUM5: int := 53
  const KEY_NUM6: int := 54
  const KEY_NUM7: int := 55
  const KEY_NUM8: int := 56
  const KEY_NUM9: int := 57
  const KEY_STAR: int := 42
  const KEY_POUND: int := 35

  const XKEY_SELECT: int := 20
  const XKEY_SOFT1: int := 21
  const XKEY_SOFT2: int := 22
  const XKEY_SOFT3: int := 23

  const NOKIA_UP: int := -1
  const NOKIA_DOWN: int := -2
  const NOKIA_LEFT: int := -3
  const NOKIA_RIGHT: int := -4
  const NOKIA_SOFT1: int := -6
  const NOKIA_SOFT2: int := -7
  const NOKIA_SOFT3: int := -5

  const SIEMENS_UP: int := -59
  const SIEMENS_DOWN: int := -60
  const SIEMENS_LEFT: int := -61
  const SIEMENS_RIGHT: int := -62
  const SIEMENS_SOFT1: int := -1
  const SIEMENS_SOFT2: int := -4
  const SIEMENS_FIRE: int := -26

  const MOTOROLA_UP: int := -1
  const MOTOROLA_DOWN: int := -6
  const MOTOROLA_LEFT: int := -2
  const MOTOROLA_RIGHT: int := -5
  const MOTOROLA_SOFT1: int := -21
  const MOTOROLA_SOFT2: int := -22
  const MOTOROLA_FIRE: int := -20

  // Host key codes (the browser keyCode values the web shell delivers).
  const VK_ENTER: int := 13
  const VK_ESCAPE: int := 27
  const VK_SPACE: int := 32
  const VK_LEFT: int := 37
  const VK_UP: int := 38
  const VK_RIGHT: int := 39
  const VK_DOWN: int := 40
  const VK_0: int := 48
  const VK_9: int := 57
  const VK_A: int := 65
  const VK_E: int := 69
  const VK_F: int := 70
  const VK_G: int := 71
  const VK_H: int := 72
  const VK_Q: int := 81
  const VK_R: int := 82
  const VK_W: int := 87
  const VK_Z: int := 90
  const VK_NUMPAD0: int := 96
  const VK_NUMPAD9: int := 105
  const VK_NUMPAD_ASTERISK: int := 106
  const VK_NUMPAD_DIVIDE: int := 111
  const VK_F1: int := 112
  const VK_F2: int := 113

  /** The vendor flags that select key tables. */
  datatype Vendor = Vendor(nokia: bool, siemens: bool, motorola: bool, sonyEricsson: bool)
  {
    /** No two vendor flags are set together. */
    predicate Exclusive()
    {
      && !(nokia && siemens) && !(nokia && motorola) && !(nokia && sonyEricsson)
      && !(siemens && motorola) && !(siemens && sonyEricsson) && !(motorola && sonyEricsson)
    }
  }

  /** The Nokia codes the built-in UI understands. */
  const NokiaUiKeys: set<int> := {NOKIA_UP, NOKIA_DOWN, NOKIA_LEFT, NOKIA_RIGHT, NOKIA_SOFT1, NOKIA_SOFT2, NOKIA_SOFT3}

  /** normalizeKey: the keypad navigation keys first, then the vendor table. */
  function NormalizeKey(key: int, siemens: bool, motorola: bool): (r: int)
    ensures r == key || r in NokiaUiKeys
  {
    if key == KEY_NUM2 then NOKIA_UP
    else if key == KEY_NUM8 then NOKIA_DOWN
    else if key == KEY_NUM4 then NOKIA_LEFT
    else if key == KEY_NUM6 then NOKIA_RIGHT
    else if key == KEY_NUM5 then NOKIA_SOFT3
    else if siemens then
      if key == SIEMENS_UP then NOKIA_UP
      else if key == SIEMENS_DOWN then NOKIA_DOWN
      else if key == SIEMENS_LEFT then NOKIA_LEFT
      else if key == SIEMENS_RIGHT then NOKIA_RIGHT
      else if key == SIEMENS_SOFT1 then NOKIA_SOFT1
      else if key == SIEMENS_SOFT2 then NOKIA_SOFT2
      else if key == SIEMENS_FIRE then NOKIA_SOFT3
      else key
    else if motorola then
      if key == MOTOROLA_UP then NOKIA_UP
      else if key == MOTOROLA_DOWN then NOKIA_DOWN
      else if key == MOTOROLA_LEFT then NOKIA_LEFT
      else if key == MOTOROLA_RIGHT then NOKIA_RIGHT
      else if key == MOTOROLA_SOFT1 then NOKIA_SOFT1
      else if key == MOTOROLA_SOFT2 then NOKIA_SOFT2
      else if key == MOTOROLA_FIRE then NOKIA_SOFT3
      else key
    else key
  }

  /** The Nokia / Sony Ericsson table: arrows and Enter only. */
  function NokiaTable(keycode: int): Option<int>
  {
    if keycode == VK_UP then Some(NOKIA_UP)
    else if keycode == VK_DOWN then Some(NOKIA_DOWN)
    else if keycode == VK_LEFT then Some(NOKIA_LEFT)
    else if keycode == VK_RIGHT then Some(NOKIA_RIGHT)
    else if keycode == VK_ENTER then Some(NOKIA_SOFT3)
    else None
  }

  function SiemensTable(keycode: int): Option<int>
  {
    if keycode == VK_UP then Some(SIEMENS_UP)
    else if keycode == VK_DOWN then Some(SIEMENS_DOWN)
    else if keycode == VK_LEFT then Some(SIEMENS_LEFT)
    else if keycode == VK_RIGHT then Some(SIEMENS_RIGHT)
    else if keycode == VK_F1 || keycode == VK_Q then Some(SIEMENS_SOFT1)
    else if keycode == VK_F2 || keycode == VK_W then Some(SIEMENS_SOFT2)
    else if keycode == VK_ENTER then Some(SIEMENS_FIRE)
    else None
  }

  function MotorolaTable(keycode: int): Option<int>
  {
    if keycode == VK_UP then Some(MOTOROLA_UP)
    else if keycode == VK_DOWN then Some(MOTOROLA_DOWN)
    else if keycode == VK_LEFT then Some(MOTOROLA_LEFT)
    else if keycode == VK_RIGHT then Some(MOTOROLA_RIGHT)
    else if keycode == VK_F1 || keycode == VK_Q then Some(MOTOROLA_SOFT1)
    else if keycode == VK_F2 || keycode == VK_W then Some(MOTOROLA_SOFT2)
    else if keycode == VK_ENTER then Some(MOTOROLA_FIRE)
    else None
  }

  /** The table every vendor falls back to; 0 means "no phone key". */
  function DefaultTable(keycode: int): int
  {
    if VK_0 <= keycode <= VK_9 then KEY_NUM0 + (keycode - VK_0)
    else if keycode == VK_NUMPAD0 then KEY_NUM0
    else if keycode == VK_NUMPAD0 + 7 then KEY_NUM1
    else if keycode == VK_NUMPAD0 + 8 then KEY_NUM2
    else if keycode == VK_NUMPAD0 + 9 then KEY_NUM3
    else if keycode == VK_NUMPAD0 + 4 then KEY_NUM4
    else if keycode == VK_NUMPAD0 + 5 then KEY_NUM5
    else if keycode == VK_NUMPAD0 + 6 then KEY_NUM6
    else if keycode == VK_NUMPAD0 + 1 then KEY_NUM7
    else if keycode == VK_NUMPAD0 + 2 then KEY_NUM8
    else if keycode == VK_NUMPAD0 + 3 then KEY_NUM9
    else if keycode == VK_NUMPAD_ASTERISK then KEY_STAR
    else if keycode == VK_NUMPAD_DIVIDE then KEY_POUND
    else if keycode == VK_UP then KEY_NUM2
    else if keycode == VK_DOWN then KEY_NUM8
    else if keycode == VK_LEFT then KEY_NUM4
    else if keycode == VK_RIGHT then KEY_NUM6
    else if keycode == VK_ENTER then KEY_NUM5
    else if keycode == VK_F1 || keycode == VK_Q then NOKIA_SOFT1
    else if keycode == VK_F2 || keycode == VK_W then NOKIA_SOFT2
    else if keycode == VK_E then KEY_STAR
    else if keycode == VK_R then KEY_POUND
    else if keycode == VK_A then -1
    else if keycode == VK_Z then -2
    else if keycode == VK_SPACE then XKEY_SELECT
    else if keycode == VK_F then XKEY_SOFT1
    else if keycode == VK_G then XKEY_SOFT2
    else if keycode == VK_H then XKEY_SOFT3
    else 0
  }

  /** Every host key code some table maps. */
  predicate IsMappedHostKey(keycode: int)
  {
    (VK_0 <= keycode <= VK_9) || (VK_NUMPAD0 <= keycode <= VK_NUMPAD9)
    || keycode in {VK_NUMPAD_ASTERISK, VK_NUMPAD_DIVIDE, VK_UP, VK_DOWN, VK_LEFT, VK_RIGHT, VK_ENTER,
                   VK_F1, VK_Q, VK_F2, VK_W, VK_E, VK_R, VK_A, VK_Z, VK_SPACE, VK_F, VK_G, VK_H}
  }

  /** The phone codes getMobileKey can produce. */
  predicate IsMobileCode(c: int)
  {
    c == 0 || (KEY_NUM0 <= c <= KEY_NUM9) || c in {KEY_STAR, KEY_POUND, XKEY_SELECT, XKEY_SOFT1, XKEY_SOFT2, XKEY_SOFT3}
    || c in NokiaUiKeys
    || c in {SIEMENS_UP, SIEMENS_DOWN, SIEMENS_LEFT, SIEMENS_RIGHT, SIEMENS_FIRE}
    || c in {MOTOROLA_DOWN, MOTOROLA_SOFT1, MOTOROLA_SOFT2, MOTOROLA_FIRE}
  }

  /**
   * getMobileKey: the Nokia/Sony Ericsson, Siemens and Motorola tables are
   * consulted in that order, then the default table.
   */
  function GetMobileKey(keycode: int, v: Vendor): (r: int)
    ensures IsMobileCode(r)
    ensures -62 <= r <= 57
    ensures r != 0 <==> IsMappedHostKey(keycode)
  {
    if (v.nokia || v.sonyEricsson) && NokiaTable(keycode).Some? then NokiaTable(keycode).value
    else if v.siemens && SiemensTable(keycode).Some? then SiemensTable(keycode).value
    else if v.motorola && MotorolaTable(keycode).Some? then MotorolaTable(keycode).value
    else DefaultTable(keycode)
  }

  /** The keypad navigation keys normalise the same way whatever the vendor. */
  lemma NormalizeKeypadIgnoresVendor(siemens: bool, motorola: bool)
    ensures NormalizeKey(KEY_NUM2, siemens, motorola) == NOKIA_UP
    ensures NormalizeKey(KEY_NUM8, siemens, motorola) == NOKIA_DOWN
    ensures NormalizeKey(KEY_NUM4, siemens, motorola) == NOKIA_LEFT
    ensures NormalizeKey(KEY_NUM6, siemens, motorola) == NOKIA_RIGHT
    ensures NormalizeKey(KEY_NUM5, siemens, motorola) == NOKIA_SOFT3
  {
  }

  /** With `siemens` set the Siemens codes map to Nokia codes, whatever `motorola` says. */
  lemma NormalizeSiemensShadowsMotorola(key: int, motorola: bool)
    ensures NormalizeKey(key, true, motorola) == NormalizeKey(key, true, false)
    ensures NormalizeKey(SIEMENS_UP, true, motorola) == NOKIA_UP
    ensures NormalizeKey(SIEMENS_DOWN, true, motorola) == NOKIA_DOWN
    ensures NormalizeKey(SIEMENS_LEFT, true, motorola) == NOKIA_LEFT
    ensures NormalizeKey(SIEMENS_RIGHT, true, motorola) == NOKIA_RIGHT
    ensures NormalizeKey(SIEMENS_SOFT1, true, motorola) == NOKIA_SOFT1
    ensures NormalizeKey(SIEMENS_SOFT2, true, motorola) == NOKIA_SOFT2
    ensures NormalizeKey(SIEMENS_FIRE, true, motorola) == NOKIA_SOFT3
  {
  }

  /** Without a vendor table only the keypad keys change, so normalising twice changes nothing. */
  lemma NormalizeIdempotentWithoutVendor(key: int)
    ensures key !in {KEY_NUM2, KEY_NUM8, KEY_NUM4, KEY_NUM6, KEY_NUM5} ==> NormalizeKey(key, false, false) == key
    ensures NormalizeKey(NormalizeKey(key, false, false), false, false) == NormalizeKey(key, false, false)
  {
  }

  /** The Nokia / Sony Ericsson table wins over every other table for arrows and Enter. */
  lemma NokiaTableFirst(keycode: int, v: Vendor)
    requires v.nokia || v.sonyEricsson
    ensures keycode == VK_UP ==> GetMobileKey(keycode, v) == NOKIA_UP
    ensures keycode == VK_DOWN ==> GetMobileKey(keycode, v) == NOKIA_DOWN
    ensures keycode == VK_LEFT ==> GetMobileKey(keycode, v) == NOKIA_LEFT
    ensures keycode == VK_RIGHT ==> GetMobileKey(keycode, v) == NOKIA_RIGHT
    ensures keycode == VK_ENTER ==> GetMobileKey(keycode, v) == NOKIA_SOFT3
  {
  }

  /** The default table: digits, arrows and Enter without a vendor flag. */
  lemma DefaultDigitsAndArrows(d: int)
    requires 0 <= d <= 9
    ensures GetMobileKey(VK_0 + d, Vendor(false, false, false, false)) == KEY_NUM0 + d
    ensures GetMobileKey(VK_UP, Vendor(false, false, false, false)) == KEY_NUM2
    ensures GetMobileKey(VK_DOWN, Vendor(false, false, false, false)) == KEY_NUM8
    ensures GetMobileKey(VK_LEFT, Vendor(false, false, false, false)) == KEY_NUM4
    ensures GetMobileKey(VK_RIGHT, Vendor(false, false, false, false)) == KEY_NUM6
    ensures GetMobileKey(VK_ENTER, Vendor(false, false, false, false)) == KEY_NUM5
  {
  }

  /**
   * The numeric pad follows the phone layout (7 8 9 on the top row), for
   * every vendor: vendor tables never map numpad keys.
   */
  lemma NumpadPhoneLayout(v: Vendor)
    ensures GetMobileKey(VK_NUMPAD0, v) == KEY_NUM0
    ensures GetMobileKey(VK_NUMPAD0 + 7, v) == KEY_NUM1
    ensures GetMobileKey(VK_NUMPAD0 + 8, v) == KEY_NUM2
    ensures GetMobileKey(VK_NUMPAD0 + 9, v) == KEY_NUM3
    ensures GetMobileKey(VK_NUMPAD0 + 1, v) == KEY_NUM7
    ensures GetMobileKey(VK_NUMPAD0 + 2, v) == KEY_NUM8
    ensures GetMobileKey(VK_NUMPAD0 + 3, v) == KEY_NUM9
  {
  }
}
