/**
 * org.recompile.freej2me.ConfigScreen: the in-game settings menu. A menu
 * is a named list of items; the screen keeps the current menu and the
 * cursor, and its actions edit the configuration's settings map.
 */
module ConfigScreen {
  import opened Wrappers
  import JavaInt
  import JavaString
  import Mobile
  import PlatformEvent
  import Config

  datatype Item = Item(id: string, caption: string)  // caption is the label shown in the menu

  /** An item whose id doubles as its label. */
  function Plain(id: string): Item { Item(id, id) }

  function MainMenu(): seq<Item>
  {
    [Item("back", "Return to Game"), Item("size", "Display Size"), Item("sound", "Sound"),
     Item("fps", "Limit FPS"), Item("phone", "Phone"), Item("fontSize", "Font size"),
     Item("compat", "Compatibility"), Item("rotate", "Rotate"), Item("reload", "Reload"),
     Item("exit", "Exit")]
  }

  function SizeMenu(): seq<Item>
  {
    [Plain("96x65"), Plain("96x96"), Plain("104x80"), Plain("128x128"),
     Plain("132x176"), Plain("128x160"), Plain("176x208"), Plain("176x220"),
     Plain("208x208"), Plain("240x320"), Plain("320x240"), Plain("240x400"),
     Plain("352x416"), Plain("360x640"), Plain("640x360"), Plain("480x800"),
     Plain("800x480")]
  }

  function RestartMenu(): seq<Item> { [Item("restart", "Restart"), Item("main", "Main Menu")] }

  function RotateMenu(): seq<Item> { [Plain("On"), Plain("Off")] }

  function PhoneMenu(): seq<Item>
  {
    [Plain("Standard"), Plain("Nokia"), Plain("Siemens"), Plain("Motorola"), Plain("SonyEricsson")]
  }

  function CompatMenu(): seq<Item>
  {
    [Item("forceFullscreen", "Force fullscreen canvas"), Item("queuedPaint", "Queue repaint calls"),
     Item("dgFormat", "DG native format")]
  }

  function DgFormatMenu(): seq<Item>
  {
    [Item("444", "444 RGB"), Item("4444", "4444 ARGB (default)"), Item("565", "565 RGB"),
     Item("888", "888 RGB"), Item("8888", "8888 RGB")]
  }

  function FontSizeMenu(): seq<Item>
  {
    [Item("0", "Dynamic"), Item("1", "Small"), Item("2", "Medium"), Item("3", "Large")]
  }

  function FpsMenu(): seq<Item>
  {
    [Item("auto", "Auto"), Item("60", "60 - Fast"), Item("30", "30 - Slow"), Item("15", "15 - Turtle")]
  }

  /** menuMap.get(name): None where Java returns null. */
  function Menu(name: string): (r: Option<seq<Item>>)
    ensures r.Some? ==> |r.value| > 0
  {
    if name == "main" then Some(MainMenu())
    else if name == "size" then Some(SizeMenu())
    else if name == "restart" then Some(RestartMenu())
    else if name == "rotate" then Some(RotateMenu())
    else if name == "phone" then Some(PhoneMenu())
    else if name == "compat" then Some(CompatMenu())
    else if name == "compat/dgFormat" then Some(DgFormatMenu())
    else if name == "fontSize" then Some(FontSizeMenu())
    else if name == "fps" then Some(FpsMenu())
    else None
  }

  /** The lookup for each menu name the screen uses. */
  lemma MenuNames()
    ensures Menu("main") == Some(MainMenu()) && Menu("size") == Some(SizeMenu())
    ensures Menu("restart") == Some(RestartMenu()) && Menu("rotate") == Some(RotateMenu())
    ensures Menu("phone") == Some(PhoneMenu()) && Menu("compat") == Some(CompatMenu())
    ensures Menu("compat/dgFormat") == Some(DgFormatMenu()) && Menu("fontSize") == Some(FontSizeMenu())
    ensures Menu("fps") == Some(FpsMenu())
  {
  }

  /** The first index whose item has that id. */
  function FirstMatch(items: seq<Item>, id: string): (r: Option<nat>)
    ensures r.None? <==> forall t :: 0 <= t < |items| ==> items[t].id != id
    ensures r.Some? ==> r.value < |items| && items[r.value].id == id
                        && forall t :: 0 <= t < r.value ==> items[t].id != id
  {
    if items == [] then None
    else if items[0].id == id then Some(0)
    else match FirstMatch(items[1..], id)
      case None => None
      case Some(i) => Some(i + 1)
  }

  /** The index findItemIndex settles on: the first match, or 0 when nothing matches. */
  function ItemIndex(items: seq<Item>, id: string): nat
  {
    match FirstMatch(items, id)
      case None => 0
      case Some(i) => i
  }

  /** findItemIndex: a linear search that keeps index 0 when nothing matches. */
  method FindItemIndex(items: seq<Item>, id: string) returns (index: nat)
    ensures index == ItemIndex(items, id)
  {
    index := 0;
    var t := 0;
    while t < |items|
      invariant 0 <= t <= |items|
      invariant forall j :: 0 <= j < t ==> items[j].id != id
      invariant index == 0
    {
      if items[t].id == id {
        index := t;
        break;
      }
      t := t + 1;
    }
    ItemIndexUnique(items, id, index);
  }

  /** The first match, or 0 when there is none, is the only index ItemIndex can return. */
  lemma ItemIndexUnique(items: seq<Item>, id: string, i: nat)
    requires (i < |items| && items[i].id == id) || (i == 0 && forall t :: 0 <= t < |items| ==> items[t].id != id)
    requires forall t :: 0 <= t < i ==> items[t].id != id
    ensures i == ItemIndex(items, id)
  {
  }

  /** findItemIndex lands on an item of a non-empty menu. */
  lemma ItemIndexInRange(items: seq<Item>, id: string)
    requires items != []
    ensures ItemIndex(items, id) < |items|
  {
  }

  /** Math.max(0, Math.min(item, length - 1)). */
  function Clamp(item: int, length: nat): (r: int)
    ensures length > 0 ==> 0 <= r < length
    ensures length > 0 && 0 <= item < length ==> r == item
  {
    var m := if item < length - 1 then item else length - 1;
    if 0 > m then 0 else m
  }

  /** currentMenu.lastIndexOf('/'). */
  function LastIndexOf(s: string, c: char): (r: Option<nat>)
    ensures r.None? <==> c !in s
    ensures r.Some? ==> r.value < |s| && s[r.value] == c && c !in s[r.value + 1..]
  {
    if s == [] then None
    else if s[|s| - 1] == c then Some(|s| - 1)
    else
      var r := LastIndexOf(s[..|s| - 1], c);
      assert r.Some? ==> s[r.value + 1..] == s[..|s| - 1][r.value + 1..] + [s[|s| - 1]];
      r
  }

  /**
   * Where back navigation leads from `menu`: the text before the last '/'
   * with the cursor on the text after it, or `main` with the cursor on the
   * whole name when there is no '/'.
   */
  function Parent(menu: string): (p: (string, string))
    ensures '/' in menu ==> p.0 + "/" + p.1 == menu && '/' !in p.1
    ensures '/' !in menu ==> p == ("main", menu)
  {
    match LastIndexOf(menu, '/')
      case None => ("main", menu)
      case Some(i) =>
        assert menu[..i] + "/" + menu[i + 1..] == menu;
        (menu[..i], menu[i + 1..])
  }

  /** A name without '/' leads back to `main`, with the cursor on that name. */
  lemma ParentOfTopLevel(menu: string)
    requires '/' !in menu
    ensures Parent(menu) == ("main", menu)
  {
  }

  lemma ParentOfDgFormat()
    ensures Parent("compat/dgFormat") == ("compat", "dgFormat")
  {
    var name := "compat/dgFormat";
    assert LastIndexOf(name, '/') == Some(6);
    assert name[..6] == "compat";
    assert name[7..] == "dgFormat";
  }

  /** Back navigation from any menu reaches a menu that exists. */
  lemma ParentExists(menu: string)
    requires Menu(menu).Some?
    ensures Menu(Parent(menu).0).Some?
  {
    if menu == "compat/dgFormat" {
      ParentOfDgFormat();
    } else {
      assert '/' !in menu by {
        assert menu in {"main", "size", "restart", "rotate", "phone", "compat", "fontSize", "fps"};
      }
      ParentOfTopLevel(menu);
    }
  }

  /** After a size change the display is rebuilt from the values just stored. */
  lemma SizeSurvivesDisplayUpdate(settings: map<string, string>, w: int, h: int)
    requires JavaInt.IsInt(w) && JavaInt.IsInt(h)
    ensures var s := settings["width" := JavaString.IntToString(w)]["height" := JavaString.IntToString(h)];
            Config.ParseSetting(s, "width") == Ok(w) && Config.ParseSetting(s, "height") == Ok(h)
  {
    JavaString.ParseIntOfIntToString(w);
    JavaString.ParseIntOfIntToString(h);
  }

  /** How keyPressed reads a key: the first test that matches decides. */
  datatype KeyRole = Up | Down | Back | Select | Other

  function RoleOf(e: PlatformEvent.KeyEvent): KeyRole
  {
    if e.normalizedCode == Mobile.NOKIA_UP then Up
    else if e.normalizedCode == Mobile.NOKIA_DOWN then Down
    else if e.normalizedCode == Mobile.NOKIA_SOFT1 || e.code == Mobile.VK_ESCAPE then Back
    else if e.normalizedCode == Mobile.NOKIA_SOFT3 then Select
    else Other
  }

  /** What the screen asks of the rest of the system. */
  datatype Effect =
    | SaveConfig    // config.saveConfig() followed by onChange.run()
    | Restart       // Shell.restart()
    | Exit          // Shell.exit()

  /** The index findItemIndex gives for the stored value of a setting (null matches nothing). */
  function ItemOfSetting(settings: map<string, string>, items: seq<Item>, key: string): nat
  {
    if key in settings then ItemIndex(items, settings[key]) else 0
  }

  /** The `size` menu's parse of a "WxH" item: the two numbers, when both parse. */
  function SizeOf(id: string): Option<(int, int)>
  {
    var t := JavaString.Split(id, 'x');
    if |t| < 2 || JavaString.ParseInt(t[0]).None? || JavaString.ParseInt(t[1]).None? then None
    else Some((JavaString.ParseInt(t[0]).value, JavaString.ParseInt(t[1]).value))
  }

  /**
   * The settings after doMenuAction runs item `id` of `menu`; a size or
   * rotation is stored even when rebuilding the display then throws.
   */
  function ActionSettings(menu: string, id: string, s: map<string, string>): map<string, string>
  {
    if menu == "main" && id == "sound" then
      s["sound" := if Config.GetOrDefault(s, "sound", "off") == "on" then "off" else "on"]
    else if menu == "size" && SizeOf(id).Some? then
      s["width" := JavaString.IntToString(SizeOf(id).value.0)]["height" := JavaString.IntToString(SizeOf(id).value.1)]
    else if menu == "phone" then s["phone" := id]
    else if menu == "fontSize" then s["fontSize" := id]
    else if menu == "compat" && id != "dgFormat" then
      (if Config.GetOrDefault(s, id, "off") == "on" then s - {id} else s[id := "on"])
    else if menu == "compat/dgFormat" then s["dgFormat" := id]
    else if menu == "rotate" && (id == "On" || id == "Off") then s["rotate" := if id == "On" then "on" else "off"]
    else if menu == "fps" then s["fps" := if id == "auto" then "0" else id]
    else s
  }

  /**
   * doUpdateDisplay's outcome on settings `s` over the old size `w` x `h`:
   * the configured size, swapped when rotation is on; the old size when a
   * dimension does not parse or `rotate` is absent, since it throws first.
   */
  function DisplayAfter(s: map<string, string>, w: int, h: int): (int, int)
  {
    var cw := Config.ParseSetting(s, "width");
    var ch := Config.ParseSetting(s, "height");
    if cw.Err? || ch.Err? || "rotate" !in s then (w, h)
    else if s["rotate"] == "on" then (ch.value, cw.value)
    else (cw.value, ch.value)
  }

  /**
   * The screen size after doMenuAction runs item `id` of `menu` over the
   * size `w` x `h`, with `s` the settings it leaves: only a size that parses
   * and rotate's On and Off rebuild the display; every other item keeps it.
   */
  function ActionSize(menu: string, id: string, s: map<string, string>, w: int, h: int): (int, int)
  {
    if (menu == "size" && SizeOf(id).Some?) || (menu == "rotate" && (id == "On" || id == "Off")) then
      DisplayAfter(s, w, h)
    else (w, h)
  }

  /** The menu doMenuAction leaves open when nothing throws. */
  function NextMenu(menu: string, id: string): string
  {
    if menu == "main" then
      (if id in {"size", "fps", "phone", "fontSize", "compat", "rotate"} then id else "main")
    else if menu == "size" || menu == "fontSize" then "restart"
    else if menu == "restart" then (if id == "main" then "main" else "restart")
    else if menu == "phone" || menu == "rotate" || menu == "fps" then "main"
    else if menu == "compat" then
      (if id == "dgFormat" then "compat/dgFormat" else if id == "queuedPaint" then "restart" else "compat")
    else if menu == "compat/dgFormat" then "compat"
    else menu
  }

  /**
   * The cursor doMenuAction leaves when nothing throws, given the cursor
   * `item` before it and the settings `s` and display size after it.
   */
  function NextItem(menu: string, id: string, item: int, s: map<string, string>, width: int, height: int): int
  {
    if menu == "main" then
      (if id == "size" then ItemIndex(SizeMenu(), JavaString.IntToString(width) + "x" + JavaString.IntToString(height))
       else if id == "fps" then ItemOfSetting(s, FpsMenu(), "fps")
       else if id == "phone" then ItemOfSetting(s, PhoneMenu(), "phone")
       else if id == "fontSize" then ItemIndex(FontSizeMenu(), Config.GetOrDefault(s, "fontSize", "0"))
       else if id == "compat" || id == "rotate" then 0
       else item)
    else if menu == "size" || menu == "fontSize" then 0
    else if menu == "restart" then (if id == "main" then 0 else item)
    else if menu == "phone" || menu == "rotate" || menu == "fps" then ItemIndex(MainMenu(), menu)
    else if menu == "compat" then
      (if id == "dgFormat" then ItemIndex(DgFormatMenu(), Config.GetOrDefault(s, "dgFormat", "4444"))
       else if id == "queuedPaint" then 0
       else item)
    else if menu == "compat/dgFormat" then ItemIndex(CompatMenu(), "dgFormat")
    else item
  }

  /** What doMenuAction asks of the rest of the system when nothing throws. */
  function ActionEffects(menu: string, id: string): seq<Effect>
  {
    if menu == "main" then
      (if id == "sound" then [SaveConfig] else if id == "reload" then [Restart] else if id == "exit" then [Exit] else [])
    else if menu == "restart" then (if id == "restart" then [Restart] else [])
    else if menu == "compat" then (if id == "dgFormat" then [] else [SaveConfig])
    else if menu == "rotate" then (if id == "On" || id == "Off" then [SaveConfig] else [])
    else if menu in {"size", "phone", "fontSize", "compat/dgFormat", "fps"} then [SaveConfig]
    else []
  }

  /**
   * What doMenuAction has asked for when an exception escapes: a size that
   * does not parse throws before anything is stored; otherwise the size or
   * rotation was stored and saved before rebuilding the display threw.
   */
  function ThrownEffects(menu: string, id: string): seq<Effect>
  {
    if menu == "size" && SizeOf(id).None? then [] else [SaveConfig]
  }

  /**
   * What choosing item `id` of `menu` leaves behind, from the cursor `item`,
   * settings `s` and running flag before to the menu, cursor, settings and
   * flag after: the settings of ActionSettings; when nothing throws, the
   * menu, cursor and effects of NextMenu, NextItem and ActionEffects; when
   * an exception escapes (only from size and rotate), the same menu and
   * cursor and the effects of ThrownEffects; the screen size of ActionSize,
   * which an exception leaves as it was; and the screen stops exactly when
   * main's back item is chosen.
   */
  predicate Chosen(menu: string, id: string, item: int, s: map<string, string>, running: bool, width: int, height: int,
                   menu': string, item': int, s': map<string, string>, running': bool, width': int, height': int,
                   effects: seq<Effect>, threw: bool)
  {
    && s' == ActionSettings(menu, id, s)
    && (width', height') == ActionSize(menu, id, s', width, height)
    && (!threw ==>
          menu' == NextMenu(menu, id) && item' == NextItem(menu, id, item, s', width', height')
          && effects == ActionEffects(menu, id))
    && (threw ==>
          menu' == menu && item' == item && width' == width && height' == height
          && (menu == "size" || menu == "rotate") && effects == ThrownEffects(menu, id))
    && (menu == "main" && id == "back" ==> !running')
    && (running' != running ==> menu == "main" && id == "back")
  }

  /**
   * What each item of `main` does: back keeps the cursor, the submenus open
   * on the current value (or at item 0), sound toggles and saves, reload
   * and exit ask for a restart and an exit, and only sound changes a setting.
   */
  lemma MainChoice(id: string, item: int, s: map<string, string>, width: int, height: int)
    ensures id != "sound" ==> ActionSettings("main", id, s) == s
    ensures id == "sound" ==> ActionSettings("main", id, s) == s["sound" := if Config.GetOrDefault(s, "sound", "off") == "on" then "off" else "on"]
    ensures id == "back" ==> NextMenu("main", id) == "main" && NextItem("main", id, item, s, width, height) == item
    ensures id == "size" ==>
              NextMenu("main", id) == "size" && NextItem("main", id, item, s, width, height) == ItemIndex(SizeMenu(), JavaString.IntToString(width) + "x" + JavaString.IntToString(height))
    ensures id == "fps" ==> NextMenu("main", id) == "fps" && NextItem("main", id, item, s, width, height) == ItemOfSetting(s, FpsMenu(), "fps")
    ensures id == "phone" ==> NextMenu("main", id) == "phone" && NextItem("main", id, item, s, width, height) == ItemOfSetting(s, PhoneMenu(), "phone")
    ensures id == "fontSize" ==>
              NextMenu("main", id) == "fontSize" && NextItem("main", id, item, s, width, height) == ItemIndex(FontSizeMenu(), Config.GetOrDefault(s, "fontSize", "0"))
    ensures id == "compat" || id == "rotate" ==> NextMenu("main", id) == id && NextItem("main", id, item, s, width, height) == 0
    ensures id in {"sound", "reload", "exit"} ==> NextMenu("main", id) == "main" && NextItem("main", id, item, s, width, height) == item
    ensures ActionEffects("main", id) == (if id == "sound" then [SaveConfig] else if id == "reload" then [Restart] else if id == "exit" then [Exit] else [])
  {
  }

  /** What a choice in each submenu stores, opens and asks for. */
  lemma SubmenuChoice(menu: string, id: string, item: int, s: map<string, string>, width: int, height: int)
    ensures menu == "phone" ==>
              && ActionSettings(menu, id, s) == s["phone" := id] && ActionEffects(menu, id) == [SaveConfig]
              && NextMenu(menu, id) == "main" && NextItem(menu, id, item, s, width, height) == ItemIndex(MainMenu(), "phone")
    ensures menu == "fps" ==>
              && ActionSettings(menu, id, s) == s["fps" := if id == "auto" then "0" else id] && ActionEffects(menu, id) == [SaveConfig]
              && NextMenu(menu, id) == "main" && NextItem(menu, id, item, s, width, height) == ItemIndex(MainMenu(), "fps")
    ensures menu == "fontSize" ==>
              && ActionSettings(menu, id, s) == s["fontSize" := id] && ActionEffects(menu, id) == [SaveConfig]
              && NextMenu(menu, id) == "restart" && NextItem(menu, id, item, s, width, height) == 0
    ensures menu == "compat/dgFormat" ==>
              && ActionSettings(menu, id, s) == s["dgFormat" := id] && ActionEffects(menu, id) == [SaveConfig]
              && NextMenu(menu, id) == "compat" && NextItem(menu, id, item, s, width, height) == ItemIndex(CompatMenu(), "dgFormat")
  {
  }

  /**
   * What a choice in `rotate` does: On and Off store "on" and "off", rebuild
   * the display and ask for a save, any other item does nothing; then main
   * opens on the rotate item.
   */
  lemma RotateChoice(id: string, item: int, s: map<string, string>, width: int, height: int)
    ensures id == "On" || id == "Off" ==>
              && ActionSettings("rotate", id, s) == s["rotate" := if id == "On" then "on" else "off"]
              && ActionSize("rotate", id, s, width, height) == DisplayAfter(s, width, height)
              && ActionEffects("rotate", id) == [SaveConfig] && ThrownEffects("rotate", id) == [SaveConfig]
    ensures id != "On" && id != "Off" ==>
              ActionSettings("rotate", id, s) == s && ActionSize("rotate", id, s, width, height) == (width, height)
              && ActionEffects("rotate", id) == []
    ensures NextMenu("rotate", id) == "main" && NextItem("rotate", id, item, s, width, height) == ItemIndex(MainMenu(), "rotate")
  {
  }

  /*
   * The step each submenu action takes, as `Chosen` describes it, stated
   * over the state the action leaves so that the action only has to name it.
   */
  lemma PhoneChosen(id: string, item: int, s: map<string, string>, running: bool, width: int, height: int,
                    menu': string, item': int, s': map<string, string>, running': bool, width': int, height': int)
    requires menu' == "main" && item' == ItemIndex(MainMenu(), "phone") && s' == s["phone" := id]
    requires running' == running && width' == width && height' == height
    ensures Chosen("phone", id, item, s, running, width, height, menu', item', s', running', width', height', [SaveConfig], false)
  {
    SubmenuChoice("phone", id, item, s', width, height);
  }

  lemma FontSizeChosen(id: string, item: int, s: map<string, string>, running: bool, width: int, height: int,
                       menu': string, item': int, s': map<string, string>, running': bool, width': int, height': int)
    requires menu' == "restart" && item' == 0 && s' == s["fontSize" := id]
    requires running' == running && width' == width && height' == height
    ensures Chosen("fontSize", id, item, s, running, width, height, menu', item', s', running', width', height', [SaveConfig], false)
  {
    SubmenuChoice("fontSize", id, item, s', width, height);
  }

  lemma DgFormatChosen(id: string, item: int, s: map<string, string>, running: bool, width: int, height: int,
                       menu': string, item': int, s': map<string, string>, running': bool, width': int, height': int)
    requires menu' == "compat" && item' == ItemIndex(CompatMenu(), "dgFormat") && s' == s["dgFormat" := id]
    requires running' == running && width' == width && height' == height
    ensures Chosen("compat/dgFormat", id, item, s, running, width, height, menu', item', s', running', width', height', [SaveConfig], false)
  {
    SubmenuChoice("compat/dgFormat", id, item, s', width, height);
  }

  lemma FpsChosen(id: string, item: int, s: map<string, string>, running: bool, width: int, height: int,
                  menu': string, item': int, s': map<string, string>, running': bool, width': int, height': int)
    requires menu' == "main" && item' == ItemIndex(MainMenu(), "fps") && s' == s["fps" := if id == "auto" then "0" else id]
    requires running' == running && width' == width && height' == height
    ensures Chosen("fps", id, item, s, running, width, height, menu', item', s', running', width', height', [SaveConfig], false)
  {
    SubmenuChoice("fps", id, item, s', width, height);
  }

  lemma SizeChosen(id: string, item: int, s: map<string, string>, running: bool, width: int, height: int,
                   menu': string, item': int, s': map<string, string>, running': bool, width': int, height': int,
                   effects: seq<Effect>, threw: bool)
    requires running' == running
    requires SizeOf(id).None? ==>
               threw && menu' == "size" && item' == item && s' == s && width' == width && height' == height && effects == []
    requires SizeOf(id).Some? ==>
               && s' == s["width" := JavaString.IntToString(SizeOf(id).value.0)]["height" := JavaString.IntToString(SizeOf(id).value.1)]
               && (width', height') == DisplayAfter(s', width, height) && effects == [SaveConfig]
               && (threw ==> menu' == "size" && item' == item && width' == width && height' == height)
               && (!threw ==> menu' == "restart" && item' == 0)
    ensures Chosen("size", id, item, s, running, width, height, menu', item', s', running', width', height', effects, threw)
  {
  }

  lemma RotateChosen(id: string, item: int, s: map<string, string>, running: bool, width: int, height: int,
                     menu': string, item': int, s': map<string, string>, running': bool, width': int, height': int,
                     effects: seq<Effect>, threw: bool)
    requires running' == running
    requires id != "On" && id != "Off" ==> !threw && s' == s && width' == width && height' == height && effects == []
    requires id == "On" || id == "Off" ==>
               && s' == s["rotate" := if id == "On" then "on" else "off"]
               && (width', height') == DisplayAfter(s', width, height) && effects == [SaveConfig]
               && (!threw ==> Config.ParseSetting(s', "width").Ok? && Config.ParseSetting(s', "height").Ok?)
    requires threw ==> menu' == "rotate" && item' == item && width' == width && height' == height
    requires !threw ==> menu' == "main" && item' == ItemIndex(MainMenu(), "rotate")
    ensures id == "On" ==> s' == s["rotate" := "on"]
    ensures id == "Off" ==> s' == s["rotate" := "off"]
    ensures id != "On" && id != "Off" ==> s' == s && !threw
    ensures (id == "On" || id == "Off") && !threw ==>
              && Config.ParseSetting(s', "width").Ok? && Config.ParseSetting(s', "height").Ok?
              && var w := Config.ParseSetting(s', "width").value;
                 var h := Config.ParseSetting(s', "height").value;
                 width' == (if id == "On" then h else w) && height' == (if id == "On" then w else h)
    ensures (id != "On" && id != "Off") || threw ==> width' == width && height' == height
    ensures Chosen("rotate", id, item, s, running, width, height, menu', item', s', running', width', height', effects, threw)
  {
    RotateChoice(id, item, s, width, height);
    RotateChoice(id, item, s', width, height);
    RotateChoice(id, item, s', width', height');
  }

  /** rotate's On or Off when rebuilding the display throws: the rotation is stored, the rest stays. */
  lemma RotateThrew(id: string, item: int, s: map<string, string>, running: bool, width: int, height: int, s': map<string, string>)
    requires id == "On" || id == "Off"
    requires s' == s["rotate" := if id == "On" then "on" else "off"]
    requires DisplayAfter(s', width, height) == (width, height)
    ensures Chosen("rotate", id, item, s, running, width, height, "rotate", item, s', running, width, height, [SaveConfig], true)
  {
    RotateChoice(id, item, s, width, height);
    RotateChoice(id, item, s', width, height);
  }

  /** Every menu a choice can open exists, and the cursor it is given lies inside it. */
  lemma NextMenuExists(menu: string, id: string, item: int, s: map<string, string>, width: int, height: int)
    requires Menu(menu).Some? && 0 <= item < |Menu(menu).value|
    ensures Menu(NextMenu(menu, id)).Some?
    ensures 0 <= NextItem(menu, id, item, s, width, height) < |Menu(NextMenu(menu, id)).value|
  {
    if menu == "main" {
      MainNextExists(id, item, s, width, height);
    } else {
      SubmenuNextExists(menu, id, item, s, width, height);
    }
  }

  lemma MainNextExists(id: string, item: int, s: map<string, string>, width: int, height: int)
    requires 0 <= item < |MainMenu()|
    ensures Menu(NextMenu("main", id)).Some?
    ensures 0 <= NextItem("main", id, item, s, width, height) < |Menu(NextMenu("main", id)).value|
  {
    MenuNames();
    MainChoice(id, item, s, width, height);
    if id == "size" {
      ItemIndexInRange(SizeMenu(), JavaString.IntToString(width) + "x" + JavaString.IntToString(height));
    } else if id == "fps" {
      ItemIndexInRange(FpsMenu(), if "fps" in s then s["fps"] else "");
    } else if id == "phone" {
      ItemIndexInRange(PhoneMenu(), if "phone" in s then s["phone"] else "");
    } else if id == "fontSize" {
      ItemIndexInRange(FontSizeMenu(), Config.GetOrDefault(s, "fontSize", "0"));
    }
  }

  lemma SubmenuNextExists(menu: string, id: string, item: int, s: map<string, string>, width: int, height: int)
    requires menu != "main" && Menu(menu).Some? && 0 <= item < |Menu(menu).value|
    ensures Menu(NextMenu(menu, id)).Some?
    ensures 0 <= NextItem(menu, id, item, s, width, height) < |Menu(NextMenu(menu, id)).value|
  {
    MenuNames();
    if menu == "phone" || menu == "fps" || menu == "rotate" {
      ChoiceReturnsToOpener(menu, id, item, s, width, height);
    } else if menu == "compat" {
      ItemIndexInRange(DgFormatMenu(), Config.GetOrDefault(s, "dgFormat", "4444"));
    } else if menu == "compat/dgFormat" {
      ItemIndexInRange(CompatMenu(), "dgFormat");
    }
  }



  /** Choosing a value in phone, fps or rotate returns to main with the cursor on the item that opened it. */
  lemma ChoiceReturnsToOpener(menu: string, id: string, item: int, s: map<string, string>, width: int, height: int)
    requires menu == "phone" || menu == "fps" || menu == "rotate"
    ensures NextMenu(menu, id) == "main"
    ensures var i := NextItem(menu, id, item, s, width, height);
            0 <= i < |MainMenu()| && MainMenu()[i].id == menu
  {
    assert MainMenu()[4].id == "phone" && MainMenu()[3].id == "fps" && MainMenu()[7].id == "rotate";
  }

  class Screen {
    var isRunning: bool
    var currentMenu: string
    var currentItem: int
    var width: int
    var height: int
    const config: Config.Config

    /** The cursor is on an item of a menu that exists. */
    predicate Valid()
      reads this`currentMenu, this`currentItem
    {
      Menu(currentMenu).Some? && 0 <= currentItem < |Menu(currentMenu).value|
    }

    constructor (config: Config.Config)
      ensures this.config == config
      ensures Valid() && currentMenu == "main" && currentItem == 0 && !isRunning
    {
      this.config := config;
      isRunning := false;
      currentMenu := "main";
      currentItem := 0;
      width := 0;
      height := 0;
    }

    method Start()
      modifies this`isRunning
      ensures isRunning
    {
      isRunning := true;
    }

    method Stop()
      modifies this`isRunning
      ensures !isRunning
    {
      isRunning := false;
    }

    /**
     * doUpdateDisplay: the screen takes the configured size, swapped when
     * rotation is on. A width or height that does not parse, or an absent
     * `rotate` setting, throws before anything is assigned (ok == false).
     */
    method DoUpdateDisplay() returns (ok: bool)
      modifies this`width, this`height
      ensures ok <==> Config.ParseSetting(config.appSettings, "width").Ok?
                      && Config.ParseSetting(config.appSettings, "height").Ok?
                      && "rotate" in config.appSettings
      ensures ok ==> var w := Config.ParseSetting(config.appSettings, "width").value;
                     var h := Config.ParseSetting(config.appSettings, "height").value;
                     var rotate := config.appSettings["rotate"] == "on";
                     width == (if rotate then h else w) && height == (if rotate then w else h)
      ensures !ok ==> width == old(width) && height == old(height)
      ensures (width, height) == DisplayAfter(config.appSettings, old(width), old(height))
    {
      var configWidth := Config.ParseSetting(config.appSettings, "width");
      if configWidth.Err? { return false; }
      var configHeight := Config.ParseSetting(config.appSettings, "height");
      if configHeight.Err? { return false; }
      if "rotate" !in config.appSettings { return false; }
      var rotate := config.appSettings["rotate"] == "on";
      width := if !rotate then configWidth.value else configHeight.value;
      height := if rotate then configWidth.value else configHeight.value;
      ok := true;
    }

    /** toggleSound: an absent value counts as "off". */
    method ToggleSound()
      modifies config`appSettings
      ensures "sound" in config.appSettings
      ensures config.appSettings == old(config.appSettings)["sound" := config.appSettings["sound"]]
      ensures config.appSettings["sound"] in {"on", "off"}
      ensures config.appSettings["sound"] == "on" <==> Config.GetOrDefault(old(config.appSettings), "sound", "off") != "on"
    {
      if Config.GetOrDefault(config.appSettings, "sound", "off") == "on" {
        config.appSettings := config.appSettings["sound" := "off"];
      } else {
        config.appSettings := config.appSettings["sound" := "on"];
      }
    }

    /** toggleCompatFlag: "off" is represented by the flag's absence. */
    method ToggleCompatFlag(flag: string)
      modifies config`appSettings
      ensures Config.GetOrDefault(old(config.appSettings), flag, "off") == "on" ==>
                config.appSettings == old(config.appSettings) - {flag}
      ensures Config.GetOrDefault(old(config.appSettings), flag, "off") != "on" ==>
                config.appSettings == old(config.appSettings)[flag := "on"]
    {
      if Config.GetOrDefault(config.appSettings, flag, "off") == "on" {
        config.appSettings := config.appSettings - {flag};
      } else {
        config.appSettings := config.appSettings[flag := "on"];
      }
    }

    /** The update* helpers: store one setting. */
    method UpdateSetting(key: string, value: string)
      modifies config`appSettings
      ensures config.appSettings == old(config.appSettings)[key := value]
    {
      config.appSettings := config.appSettings[key := value];
    }

    /**
     * keyPressed: move the cursor, go back (closing the screen from
     * `main`), or run the item under the cursor; the cursor is then
     * clamped to the length of the current menu.
     */
    method KeyPressed(e: PlatformEvent.KeyEvent) returns (effects: seq<Effect>, threw: bool)
      requires Valid()
      modifies this, config`appSettings
      ensures Valid()
      ensures RoleOf(e) == Up ==>
                currentMenu == old(currentMenu) && currentItem == Clamp(old(currentItem) - 1, |Menu(currentMenu).value|)
      ensures RoleOf(e) == Down ==>
                currentMenu == old(currentMenu) && currentItem == Clamp(old(currentItem) + 1, |Menu(currentMenu).value|)
      ensures RoleOf(e) == Back && old(currentMenu) == "main" ==>
                !isRunning && currentMenu == "main" && currentItem == old(currentItem)
      ensures RoleOf(e) == Back && old(currentMenu) != "main" ==>
                && currentMenu == Parent(old(currentMenu)).0
                && currentItem == ItemIndex(Menu(currentMenu).value, Parent(old(currentMenu)).1)
                && isRunning == old(isRunning)
      ensures RoleOf(e) != Select ==> config.appSettings == old(config.appSettings) && effects == [] && !threw
      ensures RoleOf(e) == Other ==> currentMenu == old(currentMenu) && currentItem == old(currentItem)
      ensures RoleOf(e) != Select ==> width == old(width) && height == old(height)
      ensures RoleOf(e) != Select && RoleOf(e) != Back ==> isRunning == old(isRunning)
      ensures RoleOf(e) == Select ==>
                Chosen(old(currentMenu), old(ActiveId()), old(currentItem), old(config.appSettings), old(isRunning),
                       old(width), old(height),
                       currentMenu, currentItem, config.appSettings, isRunning, width, height, effects, threw)
    {
      var role := RoleOf(e);
      if role == Select {
        effects, threw := Choose();
        return;
      }
      effects := [];
      threw := false;
      if role == Back {
        var closed := GoBack();
      } else {
        MoveBy(if role == Up then -1 else if role == Down then 1 else 0);
      }
    }

    /** keyPressed's up and down keys (and any other key, with `delta` 0): the cursor moves, clamped to the menu. */
    method MoveBy(delta: int)
      requires Valid()
      modifies this`currentItem
      ensures Valid()
      ensures currentItem == Clamp(old(currentItem) + delta, |Menu(currentMenu).value|)
    {
      currentItem := Clamp(currentItem + delta, |Menu(currentMenu).value|);
    }

    /**
     * keyPressed's select key: doMenuAction on the item under the cursor,
     * then (unless an exception escaped) the cursor clamped to the menu now
     * shown.
     */
    method Choose() returns (effects: seq<Effect>, threw: bool)
      requires Valid()
      modifies this, config`appSettings
      ensures Valid()
      ensures Chosen(old(currentMenu), old(ActiveId()), old(currentItem), old(config.appSettings), old(isRunning),
                     old(width), old(height),
                     currentMenu, currentItem, config.appSettings, isRunning, width, height, effects, threw)
    {
      effects, threw := DoMenuAction();
      if !threw {
        currentItem := Clamp(currentItem, |Menu(currentMenu).value|);
      }
    }

    /**
     * keyPressed's back key: from `main` the screen stops (closed), from a
     * submenu the parent menu opens on the item naming the submenu (which
     * the clamp that follows leaves in place).
     */
    method GoBack() returns (closed: bool)
      requires Valid()
      modifies this`isRunning, this`currentMenu, this`currentItem
      ensures Valid()
      ensures closed <==> old(currentMenu) == "main"
      ensures closed ==> !isRunning && currentMenu == "main" && currentItem == old(currentItem)
      ensures !closed ==>
                && currentMenu == Parent(old(currentMenu)).0
                && currentItem == ItemIndex(Menu(currentMenu).value, Parent(old(currentMenu)).1)
                && isRunning == old(isRunning)
    {
      if currentMenu == "main" {
        Stop();
        return true;
      }
      ParentExists(currentMenu);
      var (parent, lastPart) := Parent(currentMenu);
      var items := Menu(parent).value;
      var index := FindItemIndex(items, lastPart);
      ItemIndexInRange(items, lastPart);
      currentMenu := parent;
      currentItem := Clamp(index, |items|);
      closed := false;
    }

    /** The item under the cursor. */
    function ActiveId(): string
      reads this
      requires Valid()
    {
      Menu(currentMenu).value[currentItem].id
    }

    /**
     * doMenuAction on the item under the cursor. `threw` reports an
     * exception escaping from the size parsing or from doUpdateDisplay;
     * the cursor then stays where it was.
     */
    method DoMenuAction() returns (effects: seq<Effect>, threw: bool)
      requires Valid()
      modifies this, config`appSettings
      ensures Valid()
      ensures Chosen(old(currentMenu), old(ActiveId()), old(currentItem), old(config.appSettings), old(isRunning),
                     old(width), old(height),
                     currentMenu, currentItem, config.appSettings, isRunning, width, height, effects, threw)
    {
      var id := ActiveId();
      effects := [];
      threw := false;
      if currentMenu == "main" {
        effects := MainAction(id);
      } else if currentMenu == "size" {
        effects, threw := SizeAction(id);
      } else if currentMenu == "restart" {
        effects := RestartAction(id);
      } else if currentMenu == "phone" {
        PhoneAction(id);
        effects := [SaveConfig];
      } else if currentMenu == "fontSize" {
        FontSizeAction(id);
        effects := [SaveConfig];
      } else if currentMenu == "compat" {
        effects := CompatAction(id);
      } else if currentMenu == "compat/dgFormat" {
        DgFormatAction(id);
        effects := [SaveConfig];
      } else if currentMenu == "rotate" {
        effects, threw := RotateAction(id);
      } else if currentMenu == "fps" {
        FpsAction(id);
        effects := [SaveConfig];
      }
    }

    /** The `main` menu: open a submenu on the current value, toggle sound, or leave. */
    method MainAction(id: string) returns (effects: seq<Effect>)
      requires Valid() && currentMenu == "main"
      modifies this, config`appSettings
      ensures Valid()
      ensures id == "back" ==> !isRunning && currentMenu == "main" && currentItem == old(currentItem)
      ensures id != "back" ==> isRunning == old(isRunning)
      ensures width == old(width) && height == old(height)
      ensures id == "sound" ==> effects == [SaveConfig] && currentMenu == "main"
      ensures id == "fps" ==> currentMenu == "fps" && currentItem == ItemOfSetting(config.appSettings, FpsMenu(), "fps")
      ensures id == "phone" ==> currentMenu == "phone" && currentItem == ItemOfSetting(config.appSettings, PhoneMenu(), "phone")
      ensures id == "fontSize" ==>
                currentMenu == "fontSize"
                && currentItem == ItemIndex(FontSizeMenu(), Config.GetOrDefault(config.appSettings, "fontSize", "0"))
      ensures id == "size" ==>
                currentMenu == "size"
                && currentItem == ItemIndex(SizeMenu(), JavaString.IntToString(width) + "x" + JavaString.IntToString(height))
      ensures id == "compat" || id == "rotate" ==> currentMenu == id && currentItem == 0
      ensures id == "reload" ==> effects == [Restart]
      ensures id == "exit" ==> effects == [Exit]
      ensures id != "sound" ==> config.appSettings == old(config.appSettings)
      ensures Chosen("main", id, old(currentItem), old(config.appSettings), old(isRunning), old(width), old(height),
                     currentMenu, currentItem, config.appSettings, isRunning, width, height, effects, false)
    {
      ghost var item0 := currentItem;
      ghost var settings0 := config.appSettings;
      MenuNames();
      effects := [];
      if id == "back" {
        Stop();
      } else if id == "size" {
        currentMenu := "size";
        currentItem := FindItemIndex(SizeMenu(), JavaString.IntToString(width) + "x" + JavaString.IntToString(height));
        ItemIndexInRange(SizeMenu(), JavaString.IntToString(width) + "x" + JavaString.IntToString(height));
      } else if id == "sound" {
        ToggleSound();
        effects := [SaveConfig];
      } else if id == "fps" {
        currentMenu := "fps";
        currentItem := ItemOfSetting(config.appSettings, FpsMenu(), "fps");
        ItemIndexInRange(FpsMenu(), Config.GetOrDefault(config.appSettings, "fps", ""));
      } else if id == "phone" {
        currentMenu := "phone";
        currentItem := ItemOfSetting(config.appSettings, PhoneMenu(), "phone");
        ItemIndexInRange(PhoneMenu(), Config.GetOrDefault(config.appSettings, "phone", ""));
      } else if id == "fontSize" {
        currentMenu := "fontSize";
        currentItem := FindItemIndex(FontSizeMenu(), Config.GetOrDefault(config.appSettings, "fontSize", "0"));
        ItemIndexInRange(FontSizeMenu(), Config.GetOrDefault(config.appSettings, "fontSize", "0"));
      } else if id == "compat" {
        currentMenu := "compat";
        currentItem := 0;
      } else if id == "rotate" {
        currentMenu := "rotate";
        currentItem := 0;
      } else if id == "reload" {
        effects := [Restart];
      } else if id == "exit" {
        effects := [Exit];
      }
      MainChoice(id, item0, settings0, width, height);
      MainChoice(id, item0, config.appSettings, width, height);
    }

    /** The `size` menu: store the chosen WxH, rebuild the display, offer a restart. */
    method SizeAction(id: string) returns (effects: seq<Effect>, threw: bool)
      requires Valid() && currentMenu == "size"
      modifies this`width, this`height, this`currentMenu, this`currentItem, config`appSettings
      ensures Valid()
      ensures threw ==> currentMenu == old(currentMenu) && currentItem == old(currentItem)
      ensures !threw ==>
                && currentMenu == "restart" && currentItem == 0 && effects == [SaveConfig]
                && var t := JavaString.Split(id, 'x');
                   |t| >= 2
                   && var w := JavaString.ParseInt(t[0]); var h := JavaString.ParseInt(t[1]);
                      w.Some? && h.Some?
                      && config.appSettings == old(config.appSettings)["width" := JavaString.IntToString(w.value)]["height" := JavaString.IntToString(h.value)]
                      && "rotate" in config.appSettings
                      && var rotate := config.appSettings["rotate"] == "on";
                         width == (if rotate then h.value else w.value) && height == (if rotate then w.value else h.value)
      ensures threw ==> width == old(width) && height == old(height)
      ensures Chosen("size", id, old(currentItem), old(config.appSettings), old(isRunning), old(width), old(height),
                     currentMenu, currentItem, config.appSettings, isRunning, width, height, effects, threw)
      ensures var t := JavaString.Split(id, 'x');
              (|t| >= 2 && JavaString.ParseInt(t[0]).Some? && JavaString.ParseInt(t[1]).Some?
               && "rotate" in old(config.appSettings)) ==> !threw
    {
      var t := JavaString.Split(id, 'x');
      if |t| < 2 || JavaString.ParseInt(t[0]).None? || JavaString.ParseInt(t[1]).None? {
        effects, threw := [], true;
      } else {
        var w := JavaString.ParseInt(t[0]).value;
        var h := JavaString.ParseInt(t[1]).value;
        UpdateSetting("width", JavaString.IntToString(w));
        UpdateSetting("height", JavaString.IntToString(h));
        SizeSurvivesDisplayUpdate(old(config.appSettings), w, h);
        effects := [SaveConfig];
        var ok := DoUpdateDisplay();
        threw := !ok;
        if ok {
          currentMenu := "restart";
          currentItem := 0;
        }
      }
      SizeChosen(id, old(currentItem), old(config.appSettings), old(isRunning), old(width), old(height),
                 currentMenu, currentItem, config.appSettings, isRunning, width, height, effects, threw);
    }

    /** The `restart` menu. */
    method RestartAction(id: string) returns (effects: seq<Effect>)
      requires Valid() && currentMenu == "restart"
      modifies this`currentMenu, this`currentItem
      ensures Valid()
      ensures id == "restart" ==> effects == [Restart] && currentMenu == "restart"
      ensures id == "main" ==> effects == [] && currentMenu == "main" && currentItem == 0
      ensures Chosen("restart", id, old(currentItem), old(config.appSettings), old(isRunning), old(width), old(height),
                     currentMenu, currentItem, config.appSettings, isRunning, width, height, effects, false)
    {
      MenuNames();
      effects := [];
      if id == "restart" {
        effects := [Restart];
      } else if id == "main" {
        currentMenu := "main";
        currentItem := 0;
      }
    }

    /** The `phone` menu: store the phone and return to `main` on the phone item. */
    method PhoneAction(id: string)
      requires Valid() && currentMenu == "phone"
      modifies this`currentMenu, this`currentItem, config`appSettings
      ensures Valid()
      ensures config.appSettings == old(config.appSettings)["phone" := id]
      ensures currentMenu == "main" && currentItem == ItemIndex(MainMenu(), "phone")
      ensures Chosen("phone", id, old(currentItem), old(config.appSettings), old(isRunning), old(width), old(height),
                     currentMenu, currentItem, config.appSettings, isRunning, width, height, [SaveConfig], false)
    {
      UpdateSetting("phone", id);
      currentMenu := "main";
      currentItem := FindItemIndex(MainMenu(), "phone");
      ItemIndexInRange(MainMenu(), "phone");
      PhoneChosen(id, old(currentItem), old(config.appSettings), old(isRunning), old(width), old(height),
                  currentMenu, currentItem, config.appSettings, isRunning, width, height);
    }

    /** The `fontSize` menu: store the size and offer a restart. */
    method FontSizeAction(id: string)
      requires Valid() && currentMenu == "fontSize"
      modifies this`currentMenu, this`currentItem, config`appSettings
      ensures Valid()
      ensures config.appSettings == old(config.appSettings)["fontSize" := id]
      ensures currentMenu == "restart" && currentItem == 0
      ensures Chosen("fontSize", id, old(currentItem), old(config.appSettings), old(isRunning), old(width), old(height),
                     currentMenu, currentItem, config.appSettings, isRunning, width, height, [SaveConfig], false)
    {
      UpdateSetting("fontSize", id);
      currentMenu := "restart";
      currentItem := 0;
      FontSizeChosen(id, old(currentItem), old(config.appSettings), old(isRunning), old(width), old(height),
                     currentMenu, currentItem, config.appSettings, isRunning, width, height);
    }

    /**
     * The `compat` menu: `dgFormat` opens its submenu on the stored format;
     * `queuedPaint` falls through, so it both offers a restart and toggles
     * its flag; any other flag is toggled in place.
     */
    method CompatAction(id: string) returns (effects: seq<Effect>)
      requires Valid() && currentMenu == "compat"
      modifies this`currentMenu, this`currentItem, config`appSettings
      ensures Valid()
      ensures id == "dgFormat" ==>
                && currentMenu == "compat/dgFormat"
                && currentItem == ItemIndex(DgFormatMenu(), Config.GetOrDefault(config.appSettings, "dgFormat", "4444"))
                && config.appSettings == old(config.appSettings) && effects == []
      ensures id != "dgFormat" ==>
                && effects == [SaveConfig]
                && (Config.GetOrDefault(old(config.appSettings), id, "off") == "on" ==>
                      config.appSettings == old(config.appSettings) - {id})
                && (Config.GetOrDefault(old(config.appSettings), id, "off") != "on" ==>
                      config.appSettings == old(config.appSettings)[id := "on"])
      ensures id == "queuedPaint" ==> currentMenu == "restart" && currentItem == 0
      ensures id != "dgFormat" && id != "queuedPaint" ==>
                currentMenu == old(currentMenu) && currentItem == old(currentItem)
      ensures Chosen("compat", id, old(currentItem), old(config.appSettings), old(isRunning), old(width), old(height),
                     currentMenu, currentItem, config.appSettings, isRunning, width, height, effects, false)
    {
      MenuNames();
      if id == "dgFormat" {
        currentMenu := currentMenu + "/" + id;
        assert currentMenu == "compat/dgFormat";
        currentItem := FindItemIndex(DgFormatMenu(), Config.GetOrDefault(config.appSettings, id, "4444"));
        ItemIndexInRange(DgFormatMenu(), Config.GetOrDefault(config.appSettings, id, "4444"));
        effects := [];
      } else {
        if id == "queuedPaint" {
          currentMenu := "restart";
          currentItem := 0;
        }
        ToggleCompatFlag(id);
        effects := [SaveConfig];
      }
    }

    /** The `compat/dgFormat` menu: store the format and return to `compat` on its item. */
    method DgFormatAction(id: string)
      requires Valid() && currentMenu == "compat/dgFormat"
      modifies this`currentMenu, this`currentItem, config`appSettings
      ensures Valid()
      ensures config.appSettings == old(config.appSettings)["dgFormat" := id]
      ensures currentMenu == "compat" && currentItem == ItemIndex(CompatMenu(), "dgFormat")
      ensures Chosen("compat/dgFormat", id, old(currentItem), old(config.appSettings), old(isRunning), old(width), old(height),
                     currentMenu, currentItem, config.appSettings, isRunning, width, height, [SaveConfig], false)
    {
      UpdateSetting("dgFormat", id);
      currentMenu := "compat";
      currentItem := FindItemIndex(CompatMenu(), "dgFormat");
      ItemIndexInRange(CompatMenu(), "dgFormat");
      DgFormatChosen(id, old(currentItem), old(config.appSettings), old(isRunning), old(width), old(height),
                     currentMenu, currentItem, config.appSettings, isRunning, width, height);
    }

    /** The `rotate` menu: store "on" or "off", rebuild the display, return to `main`. */
    method RotateAction(id: string) returns (effects: seq<Effect>, threw: bool)
      requires Valid() && currentMenu == "rotate"
      modifies this`width, this`height, this`currentMenu, this`currentItem, config`appSettings
      ensures Valid()
      ensures threw ==> currentMenu == old(currentMenu) && currentItem == old(currentItem)
      ensures id == "On" ==> config.appSettings == old(config.appSettings)["rotate" := "on"]
      ensures id == "Off" ==> config.appSettings == old(config.appSettings)["rotate" := "off"]
      ensures id != "On" && id != "Off" ==> config.appSettings == old(config.appSettings) && !threw
      ensures (id == "On" || id == "Off") && !threw ==>
                && Config.ParseSetting(config.appSettings, "width").Ok?
                && Config.ParseSetting(config.appSettings, "height").Ok?
                && var w := Config.ParseSetting(config.appSettings, "width").value;
                   var h := Config.ParseSetting(config.appSettings, "height").value;
                   width == (if id == "On" then h else w) && height == (if id == "On" then w else h)
      ensures (id != "On" && id != "Off") || threw ==> width == old(width) && height == old(height)
      ensures Chosen("rotate", id, old(currentItem), old(config.appSettings), old(isRunning), old(width), old(height),
                     currentMenu, currentItem, config.appSettings, isRunning, width, height, effects, threw)
      ensures !threw ==> currentMenu == "main" && currentItem == ItemIndex(MainMenu(), "rotate")
    {
      ghost var item0, settings0, running0, width0, height0 := currentItem, config.appSettings, isRunning, width, height;
      effects, threw := [], false;
      if id == "On" || id == "Off" {
        var ok := UpdateRotate(if id == "On" then "on" else "off");
        effects := [SaveConfig];
        if !ok {
          threw := true;
          RotateThrew(id, item0, settings0, running0, width0, height0, config.appSettings);
          return;
        }
      }
      ReturnToMain("rotate");
      RotateChosen(id, item0, settings0, running0, width0, height0,
                   currentMenu, currentItem, config.appSettings, isRunning, width, height, effects, threw);
    }

    /** Back to `main`, on the item that opened the submenu. */
    method ReturnToMain(opener: string)
      modifies this`currentMenu, this`currentItem
      ensures Valid()
      ensures currentMenu == "main" && currentItem == ItemIndex(MainMenu(), opener)
    {
      currentMenu := "main";
      currentItem := FindItemIndex(MainMenu(), opener);
      ItemIndexInRange(MainMenu(), opener);
    }

    /**
     * updateRotate: store the rotation, then rebuild the display, which
     * throws (ok == false) when a stored dimension does not parse.
     */
    method UpdateRotate(value: string) returns (ok: bool)
      modifies this`width, this`height, config`appSettings
      ensures config.appSettings == old(config.appSettings)["rotate" := value]
      ensures ok <==> Config.ParseSetting(config.appSettings, "width").Ok?
                      && Config.ParseSetting(config.appSettings, "height").Ok?
      ensures ok ==> var w := Config.ParseSetting(config.appSettings, "width").value;
                     var h := Config.ParseSetting(config.appSettings, "height").value;
                     width == (if value == "on" then h else w) && height == (if value == "on" then w else h)
      ensures !ok ==> width == old(width) && height == old(height)
      ensures (width, height) == DisplayAfter(config.appSettings, old(width), old(height))
    {
      UpdateSetting("rotate", value);
      ok := DoUpdateDisplay();
    }

    /** The `fps` menu: "auto" is stored as "0", then back to `main` on the fps item. */
    method FpsAction(id: string)
      requires Valid() && currentMenu == "fps"
      modifies this`currentMenu, this`currentItem, config`appSettings
      ensures Valid()
      ensures config.appSettings == old(config.appSettings)["fps" := if id == "auto" then "0" else id]
      ensures currentMenu == "main" && currentItem == ItemIndex(MainMenu(), "fps")
      ensures Chosen("fps", id, old(currentItem), old(config.appSettings), old(isRunning), old(width), old(height),
                     currentMenu, currentItem, config.appSettings, isRunning, width, height, [SaveConfig], false)
    {
      UpdateSetting("fps", if id == "auto" then "0" else id);
      currentMenu := "main";
      currentItem := FindItemIndex(MainMenu(), "fps");
      ItemIndexInRange(MainMenu(), "fps");
      FpsChosen(id, old(currentItem), old(config.appSettings), old(isRunning), old(width), old(height),
                currentMenu, currentItem, config.appSettings, isRunning, width, height);
    }
  }
}
