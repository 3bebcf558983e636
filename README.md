# FreeJ2ME-web helpers in Dafny

This project models the logic of the browser game front-ends in this
repository that is not DOM, graphics or emulation plumbing. It covers:

- **FreeJ2ME-web Java, key input:** host key codes become phone key codes and
  Nokia codes (`Mobile`). The GameCanvas key bitmask, the system-property
  overrides, the LCD size and the platform event queue belong to
  `MobilePlatform`, and the queue carries `PlatformEvent` records.
  `GameCanvas` holds the key masks and `flushGraphics` argument handling.
  The input listener and `settingsChanged` are in `FreeJ2ME`.
- **FreeJ2ME-web Java, configuration and loading:**
  - the `key:value` settings store (`Config`) and the in-game settings menu
    (`ConfigScreen`);
  - JAD/manifest parsing, app ids, resource names and the call rewrite
    (`MIDletLoader`);
  - the breadth-first search for the MIDlet main class (`MainClassFinder`);
  - the screen-size and phone guesses (`AnalyserUtil`) and the installed-apps
    list (`LauncherUtil`).
- **FreeJ2ME-web Java, graphics and media:** colour and anchor arithmetic
  (`Graphics`), image factory checks (`Image`), MascotCapsule figure
  buffer sizes and material flags (`Micro3DModel`), and the media stop
  listeners and playing set (`PlayerEventHandler`,
  `PlayerResourceManager`).
- **FreeJ2ME-web page JavaScript:**
  - the key table and key-repeat state machine (`KeyRepeat`);
  - the event queue handed to Java (`EventQueue`) and the on-screen keypad
    (`ScreenKbd`);
  - the launcher's property text format (`LauncherPage`);
  - object ids (`JsReference`) and matrix transposes and surface size
    (`Gles2`);
  - request/reply correlation (`CmdClient`), the transcoding worker loader
    (`TranscodeJs`) and the worker's C-string marshalling and reply rule
    (`WorkerJs`);
  - the MIDI front object (`LibMidi`).
- **C compiled to wasm32:**
  - fluidsynth's log table, `fluid_strtok` and profiling status machine
    (`FluidSys`);
  - the in-memory AVIO callbacks and audio frame chunking of the
    transcoder (`TranscodeC`);
  - the in-memory soundfont file callbacks (`MidiplayerSfont`);
  - the MIDI player glue (`MidiPlayer`).
- **The two other pages:** the EmulatorJS ROM page (`RomPage`, script.js)
  and the Ruffle Flash page (`FlashPage`, flash-player.js).

Each source file is one Dafny module, with the source's own form:
- Code that only computes a value becomes functions and lemmas.
- An object whose fields change becomes a class whose methods are
  specified by those functions.
- A loop stays a loop with its invariants.

Helper modules give exact semantics to the languages involved:
- `Wrappers` holds Option and Result.
- `JavaInt` holds Java `int` wrap-around and truncating division.
- `JavaString` and `JsString` hold the string operations used, over
  `seq<char>`.
- `CTypes` holds the 32-bit unsigned arithmetic of wasm32.

These things are parameters of the model: state held by a runtime, the
browser or a native library, such as timers, the fluid player's status,
weak-reference liveness, realloc's outcome and HashMap iteration order.

## Model

| member | source | states |
|---|---|---|
| Mobile.NormalizeKey | freej2me-web/src/org/recompile/mobile/Mobile.java:114-162 | the result is the key itself or one of the Nokia UI key codes |
| Mobile.GetMobileKey | freej2me-web/src/org/recompile/mobile/Mobile.java:164-267 | the result is a MIDP key code in [-62, 57], and it is non-zero exactly when the host key appears in one of the tables |
| Mobile.NormalizeKeypadIgnoresVendor | freej2me-web/src/org/recompile/mobile/Mobile.java:114-125 | keypad 2, 8, 4, 6, 5 become Nokia up, down, left, right, soft3 whatever the vendor flags |
| Mobile.NormalizeSiemensShadowsMotorola | freej2me-web/src/org/recompile/mobile/Mobile.java:127-159 | with the Siemens flag set the Motorola flag has no effect, and each Siemens code maps to its Nokia code |
| Mobile.NormalizeIdempotentWithoutVendor | freej2me-web/src/org/recompile/mobile/Mobile.java:114-162 | without vendor flags only the keypad keys change, and normalising twice equals normalising once |
| Mobile.NokiaTableFirst | freej2me-web/src/org/recompile/mobile/Mobile.java:166-176 | for a Nokia or Sony Ericsson device the arrows and Enter map to Nokia codes, ahead of every other table |
| Mobile.DefaultDigitsAndArrows | freej2me-web/src/org/recompile/mobile/Mobile.java:214-246 | with no vendor flag, digit d maps to KEY_NUM0 + d and the arrows and Enter map to keypad 2, 8, 4, 6, 5 |
| Mobile.NumpadPhoneLayout | freej2me-web/src/org/recompile/mobile/Mobile.java:227-236 | for every vendor the numeric pad follows the phone layout (numpad 7 8 9 give 1 2 3, numpad 1 2 3 give 7 8 9) |
| PlatformEvent.TypesDistinct | freej2me-web/src/org/recompile/mobile/PlatformEvent.java:9-16 | the eight event type constants are pairwise distinct |
| GameCanvas.MasksAreDistinctBits | freej2me-web/src/javax/microedition/lcdui/game/GameCanvas.java:29-37 | the nine key-state masks are single bits and no two overlap |
| GameCanvas.GetKeyStates | freej2me-web/src/javax/microedition/lcdui/game/GameCanvas.java:84-88 | the result is the platform key-state bits read as a Java int |
| GameCanvas.FlushGraphics | freej2me-web/src/javax/microedition/lcdui/game/GameCanvas.java:59-77 | the height is the smaller of canvasHeight - y and height - y in Java int arithmetic; the platform repaint happens exactly when the paint queue is on and the canvas is current, the canvas repaint exactly when the paint queue is off |
| GameCanvas.FlushAllDrawsWholeCanvas | freej2me-web/src/javax/microedition/lcdui/game/GameCanvas.java:79-82 | the no-argument flush covers the whole canvas height |
| MobilePlatform.KeyMask | freej2me-web/src/org/recompile/mobile/MobilePlatform.java:209-227 | the mask is 0 or one of the nine GameCanvas masks, and it is 0 exactly for keys outside the keypad digits 1-9 and the five Nokia navigation codes |
| MobilePlatform.KeyStateAfter | freej2me-web/src/org/recompile/mobile/MobilePlatform.java:228-231 | bits outside the key's mask are unchanged; the mask bits end set when val is 1 and cleared otherwise |
| MobilePlatform.UnmappedKeyKeepsState | freej2me-web/src/org/recompile/mobile/MobilePlatform.java:209-231 | a key with no mask leaves the key state unchanged |
| MobilePlatform.KeypadAndNokiaShareBits | freej2me-web/src/org/recompile/mobile/MobilePlatform.java:213-225 | keypad 2/8/4/6/5 and Nokia up/down/left/right/soft3 drive the same UP, DOWN, LEFT, RIGHT, FIRE bits |
| MobilePlatform.HandlerFor | freej2me-web/src/org/recompile/mobile/MobilePlatform.java:356-375 | an event is ignored exactly when its type is none of the eight PlatformEvent types |
| MobilePlatform.ConstructedEventsDispatch | freej2me-web/src/org/recompile/mobile/PlatformEvent.java:27-56 | each event built by a PlatformEvent constructor reaches the matching do* handler with the values that constructor stored |
| MobilePlatform.AddProperty | freej2me-web/src/org/recompile/mobile/MobilePlatform.java:245-252 | an overridden key leaves the properties unchanged; any other key is set to the value |
| MobilePlatform.AddPropertyKeepsOverride | freej2me-web/src/org/recompile/mobile/MobilePlatform.java:235-252 | once an override is in the properties, no later addSystemProperty changes it |
| MobilePlatform.Platform.constructor | freej2me-web/src/org/recompile/mobile/MobilePlatform.java:61-82 | the LCD size is the given one, the key state is 0, the queue is empty and every default property (microedition.platform and the rest) is set |
| MobilePlatform.Platform.ResizeLCD | freej2me-web/src/org/recompile/mobile/MobilePlatform.java:93-100 | the LCD width and height become the given ones |
| MobilePlatform.Platform.UpdateKeyState | freej2me-web/src/org/recompile/mobile/MobilePlatform.java:209-232 | the key state becomes KeyStateAfter of the old state |
| MobilePlatform.Platform.DoKeyPressed | freej2me-web/src/org/recompile/mobile/MobilePlatform.java:150-159 | a key with a phone code sets its bits; a key without one leaves the state unchanged |
| MobilePlatform.Platform.DoKeyReleased | freej2me-web/src/org/recompile/mobile/MobilePlatform.java:161-170 | a key with a phone code clears its bits; a key without one leaves the state unchanged |
| MobilePlatform.Platform.SetSystemPropertyOverrides | freej2me-web/src/org/recompile/mobile/MobilePlatform.java:235-243 | the overrides are remembered and each of their entries is copied into the properties |
| MobilePlatform.Platform.AddSystemProperty | freej2me-web/src/org/recompile/mobile/MobilePlatform.java:245-252 | the properties become AddProperty of the old ones under the remembered overrides |
| MobilePlatform.Platform.Submit | freej2me-web/src/org/recompile/mobile/MobilePlatform.java:344-346 | the event is appended at the tail of the queue |
| MobilePlatform.Platform.Poll | freej2me-web/src/org/recompile/mobile/MobilePlatform.java:348-354 | polling an empty queue gives null and leaves it empty; otherwise it returns the head and removes it |
| MobilePlatform.Platform.DropEvents | freej2me-web/src/org/recompile/mobile/MobilePlatform.java:348-354 | the queue ends empty |
| MobilePlatform.Platform.ProcessNext | freej2me-web/src/org/recompile/mobile/MobilePlatform.java:325-335 | the head is removed, handled by HandlerFor, and the key state follows that event |
| FreeJ2ME.KeyIndex | freej2me-web/src/org/recompile/freej2me/FreeJ2ME.java:172 | the slot lies in [0, 128), and for codes in [-64, 64) it is the code plus 64 |
| FreeJ2ME.KeyIndexInjective | freej2me-web/src/org/recompile/freej2me/FreeJ2ME.java:172 | two phone key codes with the same slot are equal |
| FreeJ2ME.Translate | freej2me-web/src/org/recompile/freej2me/FreeJ2ME.java:161-163 | the event keeps the host key code and gets a phone key code from getMobileKey |
| FreeJ2ME.OnKeyPressed | freej2me-web/src/org/recompile/freej2me/FreeJ2ME.java:161-194 | with the config screen running or on Escape the pressed table is untouched; otherwise a key whose slot is marked is reported as a repeat, any other as a press, and a key with a phone code marks its slot |
| FreeJ2ME.OnKeyReleased | freej2me-web/src/org/recompile/freej2me/FreeJ2ME.java:196-215 | with the config screen running the key goes to the config screen; otherwise it is reported as released and a key with a phone code clears its slot |
| FreeJ2ME.PressRepeatRelease | freej2me-web/src/org/recompile/freej2me/FreeJ2ME.java:161-215 | a held key is reported as a press, then a repeat; after a release it is a press again |
| FreeJ2ME.ZeroCodeSlotStaysClear | freej2me-web/src/org/recompile/freej2me/FreeJ2ME.java:190-210 | the slot of code 0 is never marked, so a key without a phone code is always reported as a press |
| FreeJ2ME.PointerCoordinates | freej2me-web/src/org/recompile/freej2me/FreeJ2ME.java:217-252 | x and y swap places exactly when the display is rotated |
| FreeJ2ME.InputListener.constructor | freej2me-web/src/org/recompile/freej2me/FreeJ2ME.java:60 | the pressed table has 128 slots, all clear |
| FreeJ2ME.InputListener.KeyPressed | freej2me-web/src/org/recompile/freej2me/FreeJ2ME.java:161-194 | the action and the new pressed table are those of OnKeyPressed |
| FreeJ2ME.InputListener.KeyReleased | freej2me-web/src/org/recompile/freej2me/FreeJ2ME.java:196-215 | the action and the new pressed table are those of OnKeyReleased |
| FreeJ2ME.VendorOf | freej2me-web/src/org/recompile/freej2me/FreeJ2ME.java:287-303 | each vendor flag is set exactly when the phone setting names that vendor |
| FreeJ2ME.SettingsChanged | freej2me-web/src/org/recompile/freej2me/FreeJ2ME.java:275-331 | the settings are applied exactly when fps, width and height parse as integers and sound, phone and rotate are present; otherwise the missing or malformed setting is reported |
| FreeJ2ME.SettingsChangedFacts | freej2me-web/src/org/recompile/freej2me/FreeJ2ME.java:275-331 | for a positive fps the frame delay is 1000/fps and lies in [0, 1000], for 0 it stays 0; at most one vendor flag is set; the canvas is the LCD turned on its side when rotated; the LCD is resized exactly when its size changed |
| Config.GetOrDefault | freej2me-web/src/org/recompile/freej2me/Config.java:147 | the stored value when the key is present, the default otherwise |
| Config.StoreLineAsWritten | freej2me-web/src/org/recompile/freej2me/Config.java:101-107 | a line only adds or replaces the entry its split at the first ':' gives, keeping every key; with the shared empty string the entry it stores has a non-empty key and value |
| Config.StoreLine | freej2me-web/src/org/recompile/freej2me/Config.java:101-107 | a line only adds or replaces the entry its split gives, and only when its trimmed key and value are both non-empty; every key already read stays |
| Config.ReadLines | freej2me-web/src/org/recompile/freej2me/Config.java:100-108 | reading more lines never drops a key already read |
| Config.EmptyValueStoredAsWritten | freej2me-web/src/org/recompile/freej2me/Config.java:101-107 | with fresh empty strings the identity test stores the empty value of a line such as `width:`, which Integer.parseInt then rejects; the intended emptiness test leaves the map alone |
| Config.EmptyValueLine | freej2me-web/src/org/recompile/freej2me/Config.java:101-107 | a line whose value part trims to empty is stored as written and ignored by the intended test |
| Config.AsWrittenOnSharedEmpty | freej2me-web/src/org/recompile/freej2me/Config.java:105 | when trim hands back the shared empty string, the identity test behaves like the emptiness test |
| Config.LaterLineWins | freej2me-web/src/org/recompile/freej2me/Config.java:100-109 | a line with a non-empty key and value overrides every earlier line and every default for its key |
| Config.LineWithoutColonIgnored | freej2me-web/src/org/recompile/freej2me/Config.java:101-102 | a line without ':' changes nothing |
| Config.StoreNonEmpty | freej2me-web/src/org/recompile/freej2me/Config.java:101-107 | for a line whose trimmed key and value are both non-empty, the as-written test and the intended test both store that entry |
| Config.ValueKeepsColons | freej2me-web/src/org/recompile/freej2me/Config.java:101 | only the first ':' splits, so a value may itself hold ':' |
| Config.ReadKV | freej2me-web/src/org/recompile/freej2me/Config.java:96-114 | the file's text is split into lines as readLine splits it (at \n, \r and \r\n) and the lines are stored one after another over the map with the as-written reference test, `emptyIsShared` saying whether a trimmed empty key or value is the shared "" |
| Config.ReadKVLines | freej2me-web/src/org/recompile/freej2me/Config.java:100-109 | the loop over the lines gives the same map as storing them in order with the as-written reference test |
| Config.ReadLinesStep | freej2me-web/src/org/recompile/freej2me/Config.java:100-109 | reading one more line is storing that line, with the as-written test, over the map read so far |
| Config.EntryLines | freej2me-web/src/org/recompile/freej2me/Config.java:122-124 | writeKV emits one `key:value` line per entry, in the map's iteration order |
| Config.WriteKV | freej2me-web/src/org/recompile/freej2me/Config.java:116-130 | the file text is the entry lines, each ended by a newline |
| Config.FirstEntries | freej2me-web/src/org/recompile/freej2me/Config.java:122-124 | the first n keys of the order and their values, and nothing else |
| Config.ReadWriteRoundTrip | freej2me-web/src/org/recompile/freej2me/Config.java:96-130 | reading back what writeKV wrote, split into lines as readLine splits it, into an empty map gives the original map when no key or value is empty, holds ':' in its key, a line terminator (\n or \r) or surrounding white space, whatever the runtime does with empty strings |
| Config.ReadEntryLines | freej2me-web/src/org/recompile/freej2me/Config.java:96-130 | reading the entry lines into an empty map gives the map, with either treatment of empty strings |
| Config.EntryLinesReadBack | freej2me-web/src/org/recompile/freej2me/Config.java:100-123 | splitting the written text into lines as readLine does gives back the entry lines, none of which holds \n or \r |
| Config.FirstEntriesOfOrder | freej2me-web/src/org/recompile/freej2me/Config.java:122-124 | all keys of the order give the whole map |
| Config.ReadPrefix | freej2me-web/src/org/recompile/freej2me/Config.java:96-130 | reading the first n entry lines gives exactly the first n entries |
| Config.Config.constructor | freej2me-web/src/org/recompile/freej2me/Config.java:58-60 | the settings are the eleven defaults and the two property maps are empty |
| Config.Config.Init | freej2me-web/src/org/recompile/freej2me/Config.java:62-94 | each map becomes the old map with its file's lines, split as readLine splits them, read over it with the as-written test |
| Config.Config.SaveConfig | freej2me-web/src/org/recompile/freej2me/Config.java:132-136 | each file text is the entry lines of its map in that map's iteration order |
| Config.Config.GetWidth | freej2me-web/src/org/recompile/freej2me/Config.java:138-140 | the width is found exactly when the setting exists and parses as a Java int |
| Config.Config.GetHeight | freej2me-web/src/org/recompile/freej2me/Config.java:142-144 | the height is found exactly when the setting exists and parses as a Java int |
| Config.Config.GetFontSize | freej2me-web/src/org/recompile/freej2me/Config.java:146-148 | an absent font size reads as 0 |
| Config.DefaultGetters | freej2me-web/src/org/recompile/freej2me/Config.java:37-47 | a fresh configuration gives a 240x320 screen and font size 0 |
| ConfigScreen.Menu | freej2me-web/src/org/recompile/freej2me/ConfigScreen.java:64-116 | every menu the map holds has at least one item |
| ConfigScreen.MenuNames | freej2me-web/src/org/recompile/freej2me/ConfigScreen.java:64-116 | each menu name the screen opens (main, size, restart, rotate, phone, compat, compat/dgFormat, fontSize, fps) is in the map |
| ConfigScreen.FirstMatch | freej2me-web/src/org/recompile/freej2me/ConfigScreen.java:427-438 | None exactly when no item has the id; otherwise the index of the first item with it |
| ConfigScreen.FindItemIndex | freej2me-web/src/org/recompile/freej2me/ConfigScreen.java:427-438 | the loop returns the first matching index, or 0 when nothing matches |
| ConfigScreen.ItemIndexUnique | freej2me-web/src/org/recompile/freej2me/ConfigScreen.java:427-438 | the first match, or 0 when there is none, is the only index findItemIndex can return |
| ConfigScreen.ItemIndexInRange | freej2me-web/src/org/recompile/freej2me/ConfigScreen.java:427-438 | on a non-empty menu the index lies inside it |
| ConfigScreen.Clamp | freej2me-web/src/org/recompile/freej2me/ConfigScreen.java:169 | for a non-empty menu the cursor lands inside it, and a cursor already inside stays put |
| ConfigScreen.LastIndexOf | freej2me-web/src/org/recompile/freej2me/ConfigScreen.java:153 | None exactly when the character is absent; otherwise its position, with no later occurrence |
| ConfigScreen.Parent | freej2me-web/src/org/recompile/freej2me/ConfigScreen.java:153-162 | a menu name holding '/' splits at its last '/' into the parent and a last part without '/' that rejoin to the name; a name without '/' has parent main and is itself the last part |
| ConfigScreen.ParentOfTopLevel | freej2me-web/src/org/recompile/freej2me/ConfigScreen.java:153-162 | a menu name without '/' goes back to main with the cursor on that name |
| ConfigScreen.ParentOfDgFormat | freej2me-web/src/org/recompile/freej2me/ConfigScreen.java:153-162 | compat/dgFormat goes back to compat with the cursor on dgFormat |
| ConfigScreen.ParentExists | freej2me-web/src/org/recompile/freej2me/ConfigScreen.java:153-164 | going back from any menu of the map reaches a menu of the map |
| ConfigScreen.SizeSurvivesDisplayUpdate | freej2me-web/src/org/recompile/freej2me/ConfigScreen.java:452-458 | the width and height stored as decimal strings parse back to the chosen values when the display is rebuilt |
| ConfigScreen.MainChoice | freej2me-web/src/org/recompile/freej2me/ConfigScreen.java:307-346 | in main, back keeps the cursor; size, fps, phone and fontSize open their menus on the current value; compat and rotate open at item 0; sound toggles and saves; reload and exit ask for a restart and an exit; only sound changes a setting |
| ConfigScreen.SubmenuChoice | freej2me-web/src/org/recompile/freej2me/ConfigScreen.java:368-420 | a choice in phone, fps, fontSize or compat/dgFormat stores that setting (auto as "0"), saves, and opens main on the opening item, restart at 0, or compat on dgFormat |
| ConfigScreen.NextMenuExists | freej2me-web/src/org/recompile/freej2me/ConfigScreen.java:303-425 | every choice from a menu of the map leads to a menu of the map with the cursor inside it |
| ConfigScreen.MainNextExists | freej2me-web/src/org/recompile/freej2me/ConfigScreen.java:307-346 | every choice in main leads to a menu of the map with the cursor inside it |
| ConfigScreen.SubmenuNextExists | freej2me-web/src/org/recompile/freej2me/ConfigScreen.java:348-425 | every choice in a submenu leads to a menu of the map with the cursor inside it |
| ConfigScreen.ChoiceReturnsToOpener | freej2me-web/src/org/recompile/freej2me/ConfigScreen.java:368-420 | a choice in phone, fps or rotate returns to main with the cursor on the item that opened that menu |
| ConfigScreen.RotateChoice | freej2me-web/src/org/recompile/freej2me/ConfigScreen.java:402-414 | a choice of On or Off in rotate stores "on" or "off", rebuilds the display to DisplayAfter's size and saves, also when the rebuild throws; any other item changes no setting and no size and asks for nothing; main then opens on the rotate item |
| ConfigScreen.PhoneChosen | freej2me-web/src/org/recompile/freej2me/ConfigScreen.java:368-372 | storing the phone and returning to main on the phone item, the running flag and size kept, is the step Chosen describes for phone, with the save |
| ConfigScreen.FontSizeChosen | freej2me-web/src/org/recompile/freej2me/ConfigScreen.java:374-378 | storing the font size and opening restart at item 0, the running flag and size kept, is the step Chosen describes for fontSize, with the save |
| ConfigScreen.DgFormatChosen | freej2me-web/src/org/recompile/freej2me/ConfigScreen.java:396-400 | storing the format and opening compat on its dgFormat item, the running flag and size kept, is the step Chosen describes for compat/dgFormat, with the save |
| ConfigScreen.FpsChosen | freej2me-web/src/org/recompile/freej2me/ConfigScreen.java:416-420 | storing the frame rate (auto as "0") and returning to main on the fps item, the running flag and size kept, is the step Chosen describes for fps, with the save |
| ConfigScreen.SizeChosen | freej2me-web/src/org/recompile/freej2me/ConfigScreen.java:348-355 | a size that does not parse throwing with nothing stored, or one that parses being stored and saved with the size DisplayAfter gives and, unless the rebuild throws, restart opened at item 0, is the step Chosen describes for size |
| ConfigScreen.RotateChosen | freej2me-web/src/org/recompile/freej2me/ConfigScreen.java:402-414 | On or Off storing the rotation with the size DisplayAfter gives and the save, or any other item changing nothing, and then main on the rotate item or, on a throw, the menu, cursor and size kept, is the step Chosen describes for rotate; On and Off store "on" and "off", any other item never throws, and without a throw the size is the configured one, swapped for On |
| ConfigScreen.RotateThrew | freej2me-web/src/org/recompile/freej2me/ConfigScreen.java:402-414 | On or Off whose display rebuild throws, having stored the rotation and kept the size, leaves the step Chosen describes for rotate with a throw: menu and cursor in place and the save as its effect |
| ConfigScreen.Screen.constructor | freej2me-web/src/org/recompile/freej2me/ConfigScreen.java:61-123 | the screen starts on the main menu, cursor 0, not running |
| ConfigScreen.Screen.Start | freej2me-web/src/org/recompile/freej2me/ConfigScreen.java:129-133 | the screen is running |
| ConfigScreen.Screen.Stop | freej2me-web/src/org/recompile/freej2me/ConfigScreen.java:135-138 | the screen is not running |
| ConfigScreen.Screen.DoUpdateDisplay | freej2me-web/src/org/recompile/freej2me/ConfigScreen.java:440-450 | it succeeds exactly when width and height parse and rotate is set; the size is then the configured one, swapped when rotate is on; on failure the size is unchanged; either way the size is DisplayAfter of the settings and the old size |
| ConfigScreen.Screen.ToggleSound | freej2me-web/src/org/recompile/freej2me/ConfigScreen.java:460-468 | sound becomes "on" exactly when it was not "on" (absent counts as off), and "off" otherwise; nothing else changes |
| ConfigScreen.Screen.ToggleCompatFlag | freej2me-web/src/org/recompile/freej2me/ConfigScreen.java:499-508 | a flag that was "on" is removed; any other is set to "on" |
| ConfigScreen.Screen.UpdateSetting | freej2me-web/src/org/recompile/freej2me/ConfigScreen.java:470-514 | exactly the one setting is stored |
| ConfigScreen.Screen.KeyPressed | freej2me-web/src/org/recompile/freej2me/ConfigScreen.java:140-172 | up and down move the cursor and clamp it; back closes the screen from main and otherwise goes to the parent menu on the item named by the child; select leaves exactly what Chosen describes for the menu and item under the cursor: the settings of ActionSettings and the screen size of ActionSize, and unless an exception escapes (only from size and rotate, leaving the cursor and the size in place and the effects of ThrownEffects) the menu, cursor and effects of NextMenu, NextItem and ActionEffects, the screen stopping exactly through main's back item; every key but select keeps the screen size, up, down and other keys keep the running flag, and other keys change no setting and no effect |
| ConfigScreen.Screen.Choose | freej2me-web/src/org/recompile/freej2me/ConfigScreen.java:165-169 | the select key: the state and effects after doMenuAction and the clamp are those Chosen relates to the menu, item, cursor, settings, running flag and screen size before, the size being ActionSize's and unchanged when an exception escapes |
| ConfigScreen.Screen.MoveBy | freej2me-web/src/org/recompile/freej2me/ConfigScreen.java:143-169 | the cursor becomes the old cursor plus the step, clamped to the current menu |
| ConfigScreen.Screen.GoBack | freej2me-web/src/org/recompile/freej2me/ConfigScreen.java:147-164 | from main the screen stops and reports closed with menu and cursor unchanged; from any other menu it opens Parent's menu on the index of the child's name there, the running flag unchanged |
| ConfigScreen.Screen.DoMenuAction | freej2me-web/src/org/recompile/freej2me/ConfigScreen.java:303-425 | Chosen holds between the menu, item, cursor, settings, running flag and screen size before and those after: the settings become ActionSettings and the size ActionSize of the menu and item under the cursor; unless an exception escapes (only from size and rotate, leaving the menu, cursor and size in place), the menu, cursor and effects become NextMenu, NextItem and ActionEffects of them; when one escapes the effects are ThrownEffects of them (the save already made, except for a size that does not parse); the screen stops if and only if main's back item is chosen |
| ConfigScreen.Screen.MainAction | freej2me-web/src/org/recompile/freej2me/ConfigScreen.java:307-346 | back stops the screen and no other item changes the running flag; sound toggles and saves; fps, phone, fontSize and size open their menus on the current value; compat and rotate open at item 0; reload restarts; exit exits; only sound changes settings and no item changes the screen size; Chosen holds for main |
| ConfigScreen.Screen.SizeAction | freej2me-web/src/org/recompile/freej2me/ConfigScreen.java:348-355 | when it does not throw the chosen WxH is stored, saved, the screen takes that size (swapped when rotate is on) and the restart menu opens; well-formed sizes with rotate set never throw; a throw leaves the menu, cursor and screen size and the effects of ThrownEffects (nothing for a size that does not parse, the save otherwise); Chosen holds for size |
| ConfigScreen.Screen.RestartAction | freej2me-web/src/org/recompile/freej2me/ConfigScreen.java:357-366 | restart requests a restart; main goes back to main at item 0; Chosen holds for restart |
| ConfigScreen.Screen.PhoneAction | freej2me-web/src/org/recompile/freej2me/ConfigScreen.java:368-372 | the phone is stored and main opens on the phone item; Chosen holds for phone with the save as its effect |
| ConfigScreen.Screen.FontSizeAction | freej2me-web/src/org/recompile/freej2me/ConfigScreen.java:374-378 | the font size is stored and the restart menu opens; Chosen holds for fontSize with the save as its effect |
| ConfigScreen.Screen.CompatAction | freej2me-web/src/org/recompile/freej2me/ConfigScreen.java:381-394 | dgFormat opens its submenu on the stored format (4444 by default); queuedPaint falls through, opening restart and toggling the flag; any other flag is toggled and saved in place; Chosen holds for compat |
| ConfigScreen.Screen.DgFormatAction | freej2me-web/src/org/recompile/freej2me/ConfigScreen.java:396-400 | the format is stored and compat opens on its dgFormat item; Chosen holds for compat/dgFormat with the save as its effect |
| ConfigScreen.Screen.RotateAction | freej2me-web/src/org/recompile/freej2me/ConfigScreen.java:402-414 | On and Off store "on" and "off" and, unless rebuilding the display throws, give the screen the configured size, swapped for On; any other item stores nothing, keeps the size and never throws; main then opens on the rotate item; a throw comes after the save, so it leaves the menu, cursor and size with the save as its effect; Chosen holds for rotate |
| ConfigScreen.Screen.FpsAction | freej2me-web/src/org/recompile/freej2me/ConfigScreen.java:416-420 | "auto" is stored as "0", any other value as itself, and main opens on the fps item; Chosen holds for fps with the save as its effect |
| ConfigScreen.Screen.ReturnToMain | freej2me-web/src/org/recompile/freej2me/ConfigScreen.java:412-413 | main opens with the cursor on the item that opened the submenu |
| ConfigScreen.Screen.UpdateRotate | freej2me-web/src/org/recompile/freej2me/ConfigScreen.java:484-490 | the rotation is stored; rebuilding the display succeeds exactly when width and height parse, and then the size is the configured one, swapped for "on"; on failure the size is unchanged; either way it is DisplayAfter of the new settings |
| MIDletLoader.Flushed | freej2me-web/src/org/recompile/mobile/MIDletLoader.java:167-170 | the collected key's trimmed value is stored and the value starts afresh; without a key nothing is stored |
| MIDletLoader.ReadLine | freej2me-web/src/org/recompile/mobile/MIDletLoader.java:161-177 | no line drops a key already read; a non-blank line that does not start with a space first stores the pending key with its trimmed value |
| MIDletLoader.ParseDescriptorInto | freej2me-web/src/org/recompile/mobile/MIDletLoader.java:154-187 | the map is the one the line reader builds from the text's lines, split as readLine splits them (at \n, \r and \r\n) |
| MIDletLoader.ParseDescriptorLines | freej2me-web/src/org/recompile/mobile/MIDletLoader.java:160-182 | the loop over the lines gives the same map as reading them in order and storing the last key |
| JavaString.LineBreak | freej2me-web/src/org/recompile/mobile/MIDletLoader.java:160 | None exactly when the text holds no \n or \r; otherwise the position of the first of them |
| JavaString.Lines | freej2me-web/src/org/recompile/mobile/MIDletLoader.java:160 | the lines readLine hands back hold no \n and no \r |
| JavaString.LineBreakAt | freej2me-web/src/org/recompile/mobile/MIDletLoader.java:160 | a line free of terminators followed by \n or \r ends at that terminator |
| JavaString.CrLfEndsOneLine | freej2me-web/src/org/recompile/mobile/MIDletLoader.java:160 | \r\n ends a single line, with no empty line between the two characters |
| JavaString.CrEndsLine | freej2me-web/src/org/recompile/mobile/MIDletLoader.java:160 | a lone \r not followed by \n ends a line |
| JavaString.LfEndsLine | freej2me-web/src/org/recompile/mobile/MIDletLoader.java:160 | a line free of \n and \r followed by \n is read as that line, and the rest is read on its own |
| JavaString.LinesOfJoin | freej2me-web/src/org/recompile/mobile/MIDletLoader.java:160 | lines free of \n and \r, each ended by \n, read back as exactly those lines |
| JavaString.LinesOfCrLfJoin | freej2me-web/src/org/recompile/mobile/MIDletLoader.java:160 | the same lines each ended by \r\n read back as exactly those lines, the same as with \n |
| MIDletLoader.BlankLineSkipped | freej2me-web/src/org/recompile/mobile/MIDletLoader.java:161-163 | a blank line changes nothing |
| MIDletLoader.EntryLineSplit | freej2me-web/src/org/recompile/mobile/MIDletLoader.java:173-177 | in a `key:value` line the first ':' sits right after the key |
| MIDletLoader.EntryLineTrimmed | freej2me-web/src/org/recompile/mobile/MIDletLoader.java:161-164 | an entry line is not blank and does not start with a space |
| MIDletLoader.ReadKeyLine | freej2me-web/src/org/recompile/mobile/MIDletLoader.java:166-178 | a non-blank line that does not start with a space and holds a ':' stores the previous key and starts collecting the trimmed text after the colon under the trimmed text before it |
| MIDletLoader.ReadEntryLine | freej2me-web/src/org/recompile/mobile/MIDletLoader.java:166-178 | an entry line stores the previous key and starts its own key with its value |
| MIDletLoader.ReadContinuationLine | freej2me-web/src/org/recompile/mobile/MIDletLoader.java:164-165 | a line starting with a space appends its text after that space; a blank one adds nothing |
| MIDletLoader.ReadEntryPrefix | freej2me-web/src/org/recompile/mobile/MIDletLoader.java:160-182 | after reading entry lines, storing the last key gives the entries stored in order |
| MIDletLoader.ReadEntries | freej2me-web/src/org/recompile/mobile/MIDletLoader.java:154-187 | a descriptor of plain `key:value` lines reads back as those entries, a repeated key keeping its last value |
| MIDletLoader.ContinuationAppends | freej2me-web/src/org/recompile/mobile/MIDletLoader.java:164-185 | a continuation line's text joins the value of the key above it |
| MIDletLoader.FlushSome | freej2me-web/src/org/recompile/mobile/MIDletLoader.java:167-183 | storing a reader that holds a key puts that key's trimmed value |
| MIDletLoader.LineWithoutColonEmptiesValue | freej2me-web/src/org/recompile/mobile/MIDletLoader.java:166-178 | a non-continuation line without ':' stores the key and clears the value but keeps the key, so the key ends stored with an empty value |
| MIDletLoader.ReadEntryThenColonFree | freej2me-web/src/org/recompile/mobile/MIDletLoader.java:166-178 | after an entry line and a colon-free line the key is still current, its value is empty and the entry is stored |
| MIDletLoader.ReadColonFreeLine | freej2me-web/src/org/recompile/mobile/MIDletLoader.java:166-178 | a colon-free non-continuation line only stores the current key |
| MIDletLoader.SanitizeId | freej2me-web/src/org/recompile/mobile/MIDletLoader.java:190-192 | the id has the source's length and each of `<>:"/\|?*` is replaced by '_' |
| MIDletLoader.SanitizeIdSafeAndIdempotent | freej2me-web/src/org/recompile/mobile/MIDletLoader.java:190-192 | a sanitised id holds none of those characters, and sanitising it again changes nothing |
| MIDletLoader.Loader.constructor | freej2me-web/src/org/recompile/mobile/MIDletLoader.java:86-100 | the name, icon, class name, id and properties start empty (no manifest read) |
| MIDletLoader.Loader.SetAppId | freej2me-web/src/org/recompile/mobile/MIDletLoader.java:190-192 | the id is the sanitised source |
| MIDletLoader.Loader.SetProperties | freej2me-web/src/org/recompile/mobile/MIDletLoader.java:216-220 | the new properties are merged over the old ones and the MIDlet fields are derived as in handleProperties |
| MIDletLoader.Loader.HandleProperties | freej2me-web/src/org/recompile/mobile/MIDletLoader.java:222-239 | a MIDlet-1 value of exactly three comma-separated parts sets the trimmed name, icon and class, and the id from the name only when it was empty; anything else changes nothing |
| MIDletLoader.MIDletParts | freej2me-web/src/org/recompile/mobile/MIDletLoader.java:223-227 | the parts exist exactly when MIDlet-1 is present and splits into three |
| MIDletLoader.StripLeadingSlashes | freej2me-web/src/org/recompile/mobile/MIDletLoader.java:259-269 | at most two leading '/' are removed, only '/' are removed, and when fewer than two were removed none remains |
| MIDletLoader.ClassSourceOf | freej2me-web/src/org/recompile/mobile/MIDletLoader.java:420-430 | a class is delegated exactly when its name starts with one of the fourteen prefixes; otherwise its resource is the name with '.' replaced by '/' plus .class |
| MIDletLoader.OrgPackagesDelegated | freej2me-web/src/org/recompile/mobile/MIDletLoader.java:420-426 | every name starting with "org." is delegated |
| MIDletLoader.Rewrite | freej2me-web/src/org/recompile/mobile/MIDletLoader.java:532-542 | Class.getResourceAsStream becomes a static call on Mobile; the Siemens Connection.setListener becomes setListenerCompat; every other call passes unchanged |
| MIDletLoader.RewriteIdempotent | freej2me-web/src/org/recompile/mobile/MIDletLoader.java:532-542 | rewriting a rewritten call changes nothing |
| MainClassFinder.ClassMap | freej2me-web/src/pl/zb3/freej2me/MainClassFinder.java:63-99 | every recorded class is stored under its own name and has a super name |
| MainClassFinder.NoSuperNeverRecorded | freej2me-web/src/pl/zb3/freej2me/MainClassFinder.java:64-66 | a class file without a super name is never recorded |
| MainClassFinder.ChildrenIn | freej2me-web/src/pl/zb3/freej2me/MainClassFinder.java:144-147 | a child list holds exactly the classes whose super name is the parent, in iteration order |
| MainClassFinder.ChildrenInStep | freej2me-web/src/pl/zb3/freej2me/MainClassFinder.java:145-147 | visiting one more class appends it to its parent's list and to no other |
| MainClassFinder.NonAbstract | freej2me-web/src/pl/zb3/freej2me/MainClassFinder.java:121-123 | the candidates are exactly the non-abstract pairs that left the queue |
| MainClassFinder.FirstDeepest | freej2me-web/src/pl/zb3/freej2me/MainClassFinder.java:155-163 | the index of a pair of greatest depth, with every earlier pair strictly shallower |
| MainClassFinder.Finder.constructor | freej2me-web/src/pl/zb3/freej2me/MainClassFinder.java:75-76 | both maps start empty |
| MainClassFinder.Finder.FindMainClass | freej2me-web/src/pl/zb3/freej2me/MainClassFinder.java:136-170 | null for an unreadable jar; otherwise the class map is exactly the jar's classes (plus the MIDlet root), the children map lists each class's direct subclasses in jar order, and the candidates are exactly the concrete pairs of BfsVisits (the breadth-first order from MIDlet, each level in the order of the parents' child lists), so MIDlet at depth 0 comes first; they are distinct, depth-ordered, concrete and reachable from MIDlet at their depth, every concrete reachable class is among them, and the result is the first candidate of greatest depth with '/' replaced by '.'; with no subclass of MIDlet the root itself is returned |
| MainClassFinder.Finder.BuildChildren | freej2me-web/src/pl/zb3/freej2me/MainClassFinder.java:144-147 | each parent's child list is ChildrenIn of the class map in iteration order, and every child is a known class |
| MainClassFinder.Finder.TraverseAndFindCandidates | freej2me-web/src/pl/zb3/freej2me/MainClassFinder.java:102-134 | the root is recorded as a concrete class; the candidates are exactly the concrete pairs of BfsVisits from the root, in that order, starting with the root at depth 0; they are distinct and depth-ordered, each concrete and reachable at its depth, and every concrete reachable class is among them |
| MainClassFinder.VisitHead | freej2me-web/src/pl/zb3/freej2me/MainClassFinder.java:115-130 | one turn of the loop keeps the walk's invariant, leaves the rest of the breadth-first order (BfsOrder) unchanged, and either visits a new class or shortens the queue |
| MainClassFinder.VisitStep | freej2me-web/src/pl/zb3/freej2me/MainClassFinder.java:115-130 | the state after one turn satisfies the loop invariant again |
| MainClassFinder.CandidatesStep | freej2me-web/src/pl/zb3/freej2me/MainClassFinder.java:121-123 | a concrete head becomes the next candidate |
| MainClassFinder.WalkStart | freej2me-web/src/pl/zb3/freej2me/MainClassFinder.java:108-112 | the walk starts with the root alone in the queue, visited, and no candidate |
| MainClassFinder.NonAbstractStep | freej2me-web/src/pl/zb3/freej2me/MainClassFinder.java:121-123 | taking one more pair adds it to the candidates exactly when it is concrete |
| MainClassFinder.WalkStep | freej2me-web/src/pl/zb3/freej2me/MainClassFinder.java:115-130 | taking the head and queueing its unvisited children keeps the walk's invariant |
| MainClassFinder.StepReach | freej2me-web/src/pl/zb3/freej2me/MainClassFinder.java:125-130 | pairs queued below a reachable class are known and reachable one level deeper |
| MainClassFinder.ReachKid | freej2me-web/src/pl/zb3/freej2me/MainClassFinder.java:125-128 | a subclass of a class reached in d steps is reached in d + 1 |
| MainClassFinder.WalkOrder | freej2me-web/src/pl/zb3/freej2me/MainClassFinder.java:128 | pairs queued one level deeper than the head keep the list depth-ordered, the queue spanning at most two levels |
| MainClassFinder.WalkDone | freej2me-web/src/pl/zb3/freej2me/MainClassFinder.java:114-133 | when the queue empties, the candidates are the concrete classes reachable from the root, each once, root first, in depth order |
| MainClassFinder.ClosedReach | freej2me-web/src/pl/zb3/freej2me/MainClassFinder.java:125-130 | a visited list closed under children and starting at the root holds every reachable class |
| MainClassFinder.NonAbstractDistinct | freej2me-web/src/pl/zb3/freej2me/MainClassFinder.java:121-123 | the candidates keep the distinct names of the queue's history |
| MainClassFinder.NonAbstractOrdered | freej2me-web/src/pl/zb3/freej2me/MainClassFinder.java:121-123 | the candidates keep the depth order of the queue's history |
| MainClassFinder.NonAbstractFirst | freej2me-web/src/pl/zb3/freej2me/MainClassFinder.java:121-123 | a concrete first pair is the first candidate |
| MainClassFinder.EnqueueChildren | freej2me-web/src/pl/zb3/freej2me/MainClassFinder.java:125-130 | the queue and visited set become those EnqueueAll gives: each child not yet visited is marked visited and queued at the next depth, in the children's order; the others are skipped |
| MainClassFinder.EnqueueAll | freej2me-web/src/pl/zb3/freej2me/MainClassFinder.java:125-130 | queueing children only appends, keeping what was queued in place; only children become visited; when none is new nothing is queued |
| MainClassFinder.EnqueuedByAll | freej2me-web/src/pl/zb3/freej2me/MainClassFinder.java:125-130 | what EnqueueAll queues is one level deeper, drawn from the children, each name once, with visited matching the queued names |
| MainClassFinder.EnqueueAllStep | freej2me-web/src/pl/zb3/freej2me/MainClassFinder.java:126-128 | one more child is queued at the depth and marked exactly when it was not visited; otherwise nothing changes |
| MainClassFinder.EnqueueAllFresh | freej2me-web/src/pl/zb3/freej2me/MainClassFinder.java:125-130 | children that are all new are queued as they are, in their order |
| MainClassFinder.DistinctKidsFresh | freej2me-web/src/pl/zb3/freej2me/MainClassFinder.java:125-130 | distinct children none of which was visited all count as new |
| MainClassFinder.AtDepth | freej2me-web/src/pl/zb3/freej2me/MainClassFinder.java:128 | the pairs queued for a child list carry the children in order, each at the given depth |
| MainClassFinder.AtDepthSnoc | freej2me-web/src/pl/zb3/freej2me/MainClassFinder.java:128 | one more child adds one more pair at the end |
| MainClassFinder.FewerLeft | freej2me-web/src/pl/zb3/freej2me/MainClassFinder.java:125-130 | marking a new child visited leaves fewer child names unvisited, so the walk ends |
| MainClassFinder.BfsKeepsPrefix | freej2me-web/src/pl/zb3/freej2me/MainClassFinder.java:114-133 | the walk only appends: everything queued stays in place |
| MainClassFinder.BfsStep | freej2me-web/src/pl/zb3/freej2me/MainClassFinder.java:115-130 | one turn of the walk queues the head's children and moves past the head |
| MainClassFinder.BfsFirstStep | freej2me-web/src/pl/zb3/freej2me/MainClassFinder.java:108-130 | the walk from the root begins by queueing the root's children at depth 1 |
| MainClassFinder.RootThenChildren | freej2me-web/src/pl/zb3/freej2me/MainClassFinder.java:108-130 | with distinct direct subclasses, none the root itself, the walk lists the root and then those subclasses at depth 1 in the order of the root's child list |
| MainClassFinder.WalkIsBfs | freej2me-web/src/pl/zb3/freej2me/MainClassFinder.java:114-133 | when the queue runs dry, every pair queued names a known class and the candidates are exactly the concrete pairs of BfsVisits |
| MainClassFinder.EnqueueSeen | freej2me-web/src/pl/zb3/freej2me/MainClassFinder.java:127 | a child already visited is skipped |
| MainClassFinder.EnqueueNew | freej2me-web/src/pl/zb3/freej2me/MainClassFinder.java:127-128 | a child not yet visited is marked and queued one level deeper |
| MainClassFinder.AppendFresh | freej2me-web/src/pl/zb3/freej2me/MainClassFinder.java:127-128 | queueing a class not yet listed keeps the names distinct |
| MainClassFinder.SelectDeepest | freej2me-web/src/pl/zb3/freej2me/MainClassFinder.java:151-163 | no candidate gives null; otherwise the first candidate of greatest depth, found with a strict '>' from -1 |
| MainClassFinder.OnlyRootCandidates | freej2me-web/src/pl/zb3/freej2me/MainClassFinder.java:114-133 | without subclasses of the root every candidate is the root at depth 0 |
| MainClassFinder.OnlyRoot | freej2me-web/src/pl/zb3/freej2me/MainClassFinder.java:125-128 | without subclasses of the root only the root is reachable |
| AnalyserUtil.Bytes | freej2me-web/src/pl/zb3/freej2me/launcher/AnalyserUtil.java:25-28 | getBytes of an ASCII string gives one byte per character with the same code |
| AnalyserUtil.Decode | freej2me-web/src/pl/zb3/freej2me/launcher/AnalyserUtil.java:74 | decoding keeps one character per byte with the same code |
| AnalyserUtil.ContainsPattern | freej2me-web/src/pl/zb3/freej2me/launcher/AnalyserUtil.java:107-125 | the search succeeds exactly when the non-empty pattern occurs in the target at some position, which needs the pattern to fit |
| AnalyserUtil.ManifestSearchIsByteSearch | freej2me-web/src/pl/zb3/freej2me/launcher/AnalyserUtil.java:73-77 | String.contains on the decoded manifest finds a non-empty ASCII marker exactly when its bytes occur in the manifest's bytes |
| AnalyserUtil.FindSize | freej2me-web/src/pl/zb3/freej2me/launcher/AnalyserUtil.java:22-36 | the match found is the leftmost occurrence of three digits, 'x', three digits at or after the start index; None means there is none |
| AnalyserUtil.ThreeDigits | freej2me-web/src/pl/zb3/freej2me/launcher/AnalyserUtil.java:37-38 | three decimal digits read as a number below 1000 |
| AnalyserUtil.ScreenSize | freej2me-web/src/pl/zb3/freej2me/launcher/AnalyserUtil.java:31-39 | a size is found exactly when the lower-cased name holds the pattern, and both parts lie in [0, 1000) |
| AnalyserUtil.PhoneFromName | freej2me-web/src/pl/zb3/freej2me/launcher/AnalyserUtil.java:41-53 | a name suggests only SonyEricsson, Siemens or Motorola |
| AnalyserUtil.ModelNumberMarksSonyEricsson | freej2me-web/src/pl/zb3/freej2me/launcher/AnalyserUtil.java:23-52 | a 'k' or 'w' followed by three digits at a word end marks Sony Ericsson when no vendor word says otherwise |
| AnalyserUtil.VendorWordsIgnoreCase | freej2me-web/src/pl/zb3/freej2me/launcher/AnalyserUtil.java:41-46 | names that differ only in case (without the case-sensitive .SE. and _SE_ tags) give the same guess |
| AnalyserUtil.EntryStep | freej2me-web/src/pl/zb3/freej2me/launcher/AnalyserUtil.java:72-93 | one readable entry never lowers the DirectGraphics flag and sets only Nokia, Siemens or SonyEricsson |
| AnalyserUtil.KnownPhoneStays | freej2me-web/src/pl/zb3/freej2me/launcher/AnalyserUtil.java:73-92 | once a phone type is known only a Nokia game manifest replaces it, and the DirectGraphics flag no longer rises |
| AnalyserUtil.ScanSplit | freej2me-web/src/pl/zb3/freej2me/launcher/AnalyserUtil.java:62-94 | scanning the entries is scanning a readable prefix and then the rest |
| AnalyserUtil.NokiaManifestWins | freej2me-web/src/pl/zb3/freej2me/launcher/AnalyserUtil.java:73-77 | a readable manifest with "Nokia-MIDlet-Category: Game" makes the jar a Nokia game wherever it stands |
| AnalyserUtil.SiemensSignatureDecides | freej2me-web/src/pl/zb3/freej2me/launcher/AnalyserUtil.java:80-84 | the first class file outside com/siemens/ holding the Siemens API signature decides Siemens |
| AnalyserUtil.AnalysisResult.constructor | freej2me-web/src/pl/zb3/freej2me/launcher/AnalyserUtil.java:128 | a fresh result has width and height -1, no phone type and no DirectGraphics flag |
| AnalyserUtil.AnalysisResult.FillFromFileName | freej2me-web/src/pl/zb3/freej2me/launcher/AnalyserUtil.java:30-54 | the size and phone type are overwritten only when the name reveals them; the flag is kept |
| AnalyserUtil.AnalysisResult.FillFromJarFile | freej2me-web/src/pl/zb3/freej2me/launcher/AnalyserUtil.java:56-105 | the scan stops at the first unreadable entry; a phone type found replaces the old one and the flag is raised when the scan raised it; the size is kept |
| AnalyserUtil.ScanEntry | freej2me-web/src/pl/zb3/freej2me/launcher/AnalyserUtil.java:72-93 | the loop body for one readable entry computes EntryStep |
| AnalyserUtil.AnalyseFile | freej2me-web/src/pl/zb3/freej2me/launcher/AnalyserUtil.java:127-134 | the size comes from the name (or -1); a phone type found in the jar overrides the name's guess; the flag comes from the jar |
| LauncherUtil.DropTrailingSlashes | freej2me-web/src/pl/zb3/freej2me/launcher/LauncherUtil.java:26 | the result is a prefix of the path, does not end in '/', and only '/' characters were dropped |
| LauncherUtil.AfterLastSlash | freej2me-web/src/pl/zb3/freej2me/launcher/LauncherUtil.java:26 | the result is the suffix after the last '/', holding no '/' itself |
| LauncherUtil.FileName | freej2me-web/src/pl/zb3/freej2me/launcher/LauncherUtil.java:26 | the file name is missing exactly for a non-empty path of slashes only; otherwise it holds no '/' |
| LauncherUtil.FileNameOfChild | freej2me-web/src/pl/zb3/freej2me/launcher/LauncherUtil.java:26 | the file name of `dir/name`, with any trailing slashes, is `name` |
| LauncherUtil.AfterSlash | freej2me-web/src/pl/zb3/freej2me/launcher/LauncherUtil.java:26 | what follows the last '/' of `dir/name` is `name` |
| LauncherUtil.SlashSuffix | freej2me-web/src/pl/zb3/freej2me/launcher/LauncherUtil.java:26 | trailing slashes after a path that ends otherwise are all dropped |
| LauncherUtil.FallbackId | freej2me-web/src/pl/zb3/freej2me/launcher/LauncherUtil.java:26 | a fallback id exists exactly when the path has a file name; it is that name, same length, with no '.' and no '/' |
| LauncherUtil.EnsureAppId | freej2me-web/src/pl/zb3/freej2me/launcher/LauncherUtil.java:21-28 | a non-empty id is kept; an empty one becomes the sanitised fallback id, failing (a NullPointerException in the source) when the path has no file name |
| LauncherUtil.SanitizedDotFree | freej2me-web/src/pl/zb3/freej2me/launcher/LauncherUtil.java:26 | sanitising a name that has no '.' leaves neither '.' nor an unsafe character |
| LauncherUtil.FallbackIdIsClean | freej2me-web/src/pl/zb3/freej2me/launcher/LauncherUtil.java:26 | the sanitised fallback id holds no '.' and none of the characters the sanitiser rewrites |
| LauncherUtil.FirstIndex | freej2me-web/src/pl/zb3/freej2me/launcher/LauncherUtil.java:107 | the index of the first occurrence of the id |
| LauncherUtil.RemoveFirst | freej2me-web/src/pl/zb3/freej2me/launcher/LauncherUtil.java:107 | List.remove shortens the list by one exactly when the id is in it |
| LauncherUtil.RemoveAbsent | freej2me-web/src/pl/zb3/freej2me/launcher/LauncherUtil.java:107 | removing an id the list does not hold leaves the list unchanged |
| LauncherUtil.RemoveAt | freej2me-web/src/pl/zb3/freej2me/launcher/LauncherUtil.java:107 | when index i holds the first occurrence of the id, removal cuts out exactly that element and keeps the rest in order |
| LauncherUtil.RemoveFirstSplice | freej2me-web/src/pl/zb3/freej2me/launcher/LauncherUtil.java:107 | List.remove drops the first occurrence of the id, if any, and keeps the rest in order |
| LauncherUtil.RemoveFirstCounts | freej2me-web/src/pl/zb3/freej2me/launcher/LauncherUtil.java:107 | exactly one copy of the id is removed when there is one; nothing otherwise |
| LauncherUtil.MovedToTop | freej2me-web/src/pl/zb3/freej2me/launcher/LauncherUtil.java:101-117 | the id ends at the top of the list |
| LauncherUtil.MoveToTopIdempotent | freej2me-web/src/pl/zb3/freej2me/launcher/LauncherUtil.java:101-117 | moving the same id to the top twice is moving it once |
| LauncherUtil.DistinctRemove | freej2me-web/src/pl/zb3/freej2me/launcher/LauncherUtil.java:107 | removing from a list without repeats leaves a list without repeats, without the id, and with every other element |
| LauncherUtil.MoveToTopDistinct | freej2me-web/src/pl/zb3/freej2me/launcher/LauncherUtil.java:101-117 | a list without repeated ids stays without repeats and gains only the moved id |
| LauncherUtil.AppsList.constructor | freej2me-web/src/pl/zb3/freej2me/launcher/LauncherUtil.java:103-106 | the list is the apps.list file's lines, or missing |
| LauncherUtil.AppsList.MoveAppIdToTop | freej2me-web/src/pl/zb3/freej2me/launcher/LauncherUtil.java:101-117 | a missing list counts as empty; the written list is the old one with the id moved to the top |
| LauncherUtil.AppsList.Uninstall | freej2me-web/src/pl/zb3/freej2me/launcher/LauncherUtil.java:179-189 | the first occurrence of the id goes from the list; a missing list stays missing |
| LauncherUtil.Overlay | freej2me-web/src/pl/zb3/freej2me/launcher/LauncherUtil.java:74-84 | a null map changes nothing; otherwise its entries are put over the base and the base's other entries stay |
| LauncherUtil.SaveApp | freej2me-web/src/pl/zb3/freej2me/launcher/LauncherUtil.java:67-87 | each map of the saved configuration is the one read from the app's file (over the defaults for the settings), split as readLine splits it and stored with the as-written test, with the non-null argument map put over it |
| Graphics.Half | freej2me-web/src/javax/microedition/lcdui/Graphics.java:163-172 | Java's `n / 2` truncates toward zero: within one of n/2, never past it |
| Graphics.AnchorX | freej2me-web/src/javax/microedition/lcdui/Graphics.java:160-167 | LEFT wins over RIGHT, which wins over HCENTER: x, x - width or x - width/2 in Java int arithmetic; no flag gives x |
| Graphics.AnchorY | freej2me-web/src/javax/microedition/lcdui/Graphics.java:169-177 | BASELINE wins over BOTTOM, then TOP, then VCENTER: y + height, y - height, y or y - height/2; no flag gives y |
| Graphics.CentredBoxStraddlesAnchor | freej2me-web/src/javax/microedition/lcdui/Graphics.java:163 | a centred box that fits without overflow has x in its middle, give or take the odd pixel |
| Graphics.ComposeRGB | freej2me-web/src/javax/microedition/lcdui/Graphics.java:124 | the sum wraps as a Java int, and components in [0, 255] give red·65536 + green·256 + blue |
| Graphics.Graphics.constructor | freej2me-web/src/javax/microedition/lcdui/Graphics.java:40 | the colour starts as 0xFFFFFFFF (-1) |
| Graphics.Graphics.GetRedComponent | freej2me-web/src/javax/microedition/lcdui/Graphics.java:96 | the red component lies in [0, 255] |
| Graphics.Graphics.GetGreenComponent | freej2me-web/src/javax/microedition/lcdui/Graphics.java:94 | the green component lies in [0, 255] |
| Graphics.Graphics.GetBlueComponent | freej2me-web/src/javax/microedition/lcdui/Graphics.java:92 | the blue component lies in [0, 255] |
| Graphics.Graphics.GetColor | freej2me-web/src/javax/microedition/lcdui/Graphics.java:78 | the colour without its top byte: the three components recomposed, equal to the colour modulo 2^24 |
| Graphics.Graphics.GetGrayScale | freej2me-web/src/javax/microedition/lcdui/Graphics.java:84-90 | the mean of the three components, rounded down, in [0, 255] |
| Graphics.Graphics.SetColor | freej2me-web/src/javax/microedition/lcdui/Graphics.java:122 | the colour becomes the given value |
| Graphics.Graphics.SetColorRGB | freej2me-web/src/javax/microedition/lcdui/Graphics.java:124 | the colour becomes the wrapped composition of the three components |
| Graphics.Graphics.SetGrayScale | freej2me-web/src/javax/microedition/lcdui/Graphics.java:128-132 | all three components, and the grey level, become the low byte of the value |
| Graphics.SetColorRoundTrip | freej2me-web/src/javax/microedition/lcdui/Graphics.java:78-124 | components in [0, 255] passed to setColor are what the getters return, and getColor returns the colour |
| Graphics.GrayRoundTrip | freej2me-web/src/javax/microedition/lcdui/Graphics.java:84-132 | a grey set from a byte reads back as that byte on each component and as the grey level |
| Image.Image.constructor | freej2me-web/src/javax/microedition/lcdui/Image.java:31-34 | a new image keeps its pixels and size and is neither mutable nor marked with Siemens alpha |
| Image.BytesError | freej2me-web/src/javax/microedition/lcdui/Image.java:39-43 | the call fails exactly unless the data exists and the offset and length are non-negative and reach no further than its end; null data fails with a NullPointerException |
| Image.CreateImageFromBytes | freej2me-web/src/javax/microedition/lcdui/Image.java:36-47 | the image fails exactly when the checks or the decoding fail; otherwise it is immutable and decoded from exactly the `length` bytes at `offset` |
| Image.CreateImageCopy | freej2me-web/src/javax/microedition/lcdui/Image.java:49-54 | a null source fails with a NullPointerException; otherwise an immutable copy with the source's pixels and size |
| Image.RegionError | freej2me-web/src/javax/microedition/lcdui/Image.java:59-61 | a null source fails first; otherwise the region is accepted exactly when its far edges lie within the image and it is non-empty |
| Image.RegionChecksOnlyFarEdges | freej2me-web/src/javax/microedition/lcdui/Image.java:60-61 | a non-empty region starting left of the image but ending inside it is accepted |
| Image.CreateSubImage | freej2me-web/src/javax/microedition/lcdui/Image.java:56-63 | the call fails exactly when RegionError reports, with that error; otherwise an immutable image of the transformed region |
| Image.CreateImageFromStream | freej2me-web/src/javax/microedition/lcdui/Image.java:76-86 | a null stream fails with a NullPointerException and a decoding failure with an IOException; otherwise an immutable image decoded from all the stream's bytes |
| Image.CreateImageFromResource | freej2me-web/src/javax/microedition/lcdui/Image.java:103-112 | a null name fails with a NullPointerException and a missing resource with an IOException; otherwise the resource's decoded image |
| Image.CreateMutableImage | freej2me-web/src/javax/microedition/lcdui/Image.java:88-95 | a non-positive size fails with IllegalArgument; otherwise a mutable white image of that size, the only mutable factory result |
| Image.CreateARGBImage | freej2me-web/src/javax/microedition/lcdui/Image.java:97-101 | a non-positive size fails with IllegalArgument; otherwise an immutable image of that size filled with the colour |
| Image.RgbErrorAsWritten | freej2me-web/src/javax/microedition/lcdui/Image.java:117-119 | a null array fails with a NullPointerException and a non-positive size with IllegalArgument, before the length check |
| Image.RgbCheckOverflows | freej2me-web/src/javax/microedition/lcdui/Image.java:119 | a 65536 x 65536 image passes the check with an empty array, as the product wraps to 0 |
| Image.RgbError | freej2me-web/src/javax/microedition/lcdui/Image.java:117-119 | the corrected checks report the same null and size errors |
| Image.RgbErrorAccepts | freej2me-web/src/javax/microedition/lcdui/Image.java:117-119 | an accepted array holds every pixel of the image, and below 2^31 pixels the corrected and written checks agree |
| Image.CreateRGBImage | freej2me-web/src/javax/microedition/lcdui/Image.java:114-121 | the call fails exactly when the as-written checks report, with their error; below 2^31 pixels that is exactly when the corrected checks report, and an accepted array then holds every pixel; a success is a fresh immutable image of the array at that size |
| Micro3DModel.DoubleFaceOf | freej2me-web/src/ru/woesss/j2me/micro3d/Model.java:79-92 | the double-face flag is 0 or 1, and 1 exactly when bit 4 of the material is set |
| Micro3DModel.BlendModeOf | freej2me-web/src/ru/woesss/j2me/micro3d/Model.java:76-93 | the blend mode is 0, BLEND_HALF, BLEND_ADD or BLEND_SUB |
| Micro3DModel.BlendModeIgnoresOtherFlags | freej2me-web/src/ru/woesss/j2me/micro3d/Model.java:75-93 | bits other than 1 and 2 do not change the blend mode, and a material with those bits clear takes the mode added to it |
| Micro3DModel.Polygon.constructor | freej2me-web/src/ru/woesss/j2me/micro3d/Model.java:86-94 | the polygon keeps its indices and texture coordinates, decodes its flags from the material, and starts with face -1 and pattern 0 |
| Micro3DModel.IndexCountSplits | freej2me-web/src/ru/woesss/j2me/micro3d/Model.java:55-56 | the index count is the textured part plus the coloured part, so it never falls short of the textured part |
| Micro3DModel.Model.constructor | freej2me-web/src/ru/woesss/j2me/micro3d/Model.java:50-71 | every buffer gets the size the constructor computes (indices 3 per triangle and 6 per quad, texture bytes 5 per index, vertex capacity 3 per index, vertices 3 per vertex plus 3, bones 56 bytes each) and the model starts modified |
| PlayerEventHandler.LiveOnly | freej2me-web/src/pl/zb3/freej2me/bridge/media/PlayerEventHandler.java:38 | the kept references are exactly those still live, no more than before |
| PlayerEventHandler.LiveOnlyCounts | freej2me-web/src/pl/zb3/freej2me/bridge/media/PlayerEventHandler.java:31-38 | a live listener keeps every registration and a cleared one none |
| PlayerEventHandler.LiveOnlyIdempotent | freej2me-web/src/pl/zb3/freej2me/bridge/media/PlayerEventHandler.java:38 | dropping cleared references twice is dropping them once |
| PlayerEventHandler.Handler.constructor | freej2me-web/src/pl/zb3/freej2me/bridge/media/PlayerEventHandler.java:14 | no player has listeners |
| PlayerEventHandler.Handler.RegisterStopListener | freej2me-web/src/pl/zb3/freej2me/bridge/media/PlayerEventHandler.java:16-22 | the listener is appended to the player's list, which is created when absent |
| PlayerEventHandler.Handler.OnPlayerStop | freej2me-web/src/pl/zb3/freej2me/bridge/media/PlayerEventHandler.java:24-41 | without a list nothing is called or changed; otherwise every live listener is called once per registration in order, and the list keeps exactly those |
| PlayerEventHandler.NoClearedAfterStop | freej2me-web/src/pl/zb3/freej2me/bridge/media/PlayerEventHandler.java:38 | after a stop the player's list holds no cleared reference |
| PlayerResourceManager.Without | freej2me-web/src/pl/zb3/freej2me/bridge/media/PlayerResourceManager.java:19 | the set without the player, the rest unchanged and still without repeats |
| PlayerResourceManager.Manager.constructor | freej2me-web/src/pl/zb3/freej2me/bridge/media/PlayerResourceManager.java:11 | the playing set starts empty |
| PlayerResourceManager.Manager.MarkPlayerPlaying | freej2me-web/src/pl/zb3/freej2me/bridge/media/PlayerResourceManager.java:13-16 | the player is appended unless already there, and no other player changes |
| PlayerResourceManager.Manager.MarkPlayerNotPlaying | freej2me-web/src/pl/zb3/freej2me/bridge/media/PlayerResourceManager.java:18-20 | the player is removed if present, and no other player changes |
| PlayerResourceManager.MarksIdempotent | freej2me-web/src/pl/zb3/freej2me/bridge/media/PlayerResourceManager.java:13-20 | adding twice is adding once, and removing twice is removing once |
| PlayerResourceManager.WithoutKeepsOrder | freej2me-web/src/pl/zb3/freej2me/bridge/media/PlayerResourceManager.java:11-19 | removing keeps the insertion order of the remaining players: two players keep their relative order and their identities at their new positions |
| PlayerResourceManager.PosIndexes | freej2me-web/src/pl/zb3/freej2me/bridge/media/PlayerResourceManager.java:11-19 | each remaining player is found, after the removal, at the position counted by the players before it that stay |
| PlayerResourceManager.PosIncreasing | freej2me-web/src/pl/zb3/freej2me/bridge/media/PlayerResourceManager.java:11-19 | a player earlier in the set lands at an earlier position after the removal |
| KeyRepeat.LetterCodes | freej2me-web/web/src/key.js:36-61 | `Key<L>` maps to the ASCII code of the upper-case letter L |
| KeyRepeat.DigitCodes | freej2me-web/web/src/key.js:10-29 | `Digit<d>` maps to 48 + d and `Numpad<d>` to 96 + d |
| KeyRepeat.ArgsOf | freej2me-web/web/src/key.js:106-109 | missing args stand for the empty dictionary |
| KeyRepeat.DownPost | freej2me-web/web/src/key.js:102-123 | a down for a key not held emits exactly one 'down' and records the key awaiting its first repeat; a down for a held key emits nothing and only replaces its args; no other key changes |
| KeyRepeat.UpPost | freej2me-web/web/src/key.js:124-138 | an up for a held key emits 'up' with the key's args, followed by 'click' exactly when the first repeat had not fired, and forgets the key; an up for a key not held does nothing |
| KeyRepeat.EmptyKeyIgnored | freej2me-web/web/src/key.js:95-98 | a post with an empty key emits nothing and changes nothing |
| KeyRepeat.RepeatsCarryLatestArgs | freej2me-web/web/src/key.js:106-121 | until the key is posted again, every event for it is a 'repeat' carrying the args of its latest down post |
| KeyRepeat.ResetForgetsKeys | freej2me-web/web/src/key.js:155-161 | after reset no key is held, so an up posted next emits nothing |
| KeyRepeat.AlternatingAppend | freej2me-web/web/src/key.js:94-138 | two runs that each alternate 'down' and 'up' for a key alternate when joined |
| KeyRepeat.StepAlternates | freej2me-web/web/src/key.js:94-138 | one post or timer keeps 'down' and 'up' alternating, and the key is held afterwards exactly when it is recorded |
| KeyRepeat.RunAlternates | freej2me-web/web/src/key.js:94-138 | across any run without reset, 'down' and 'up' alternate for every key, and the key is held at the end exactly when the last of them was 'down' |
| KeyRepeat.Deliver | freej2me-web/web/src/key.js:145-153 | with a listener each event reaches it in order; without one they vanish |
| KeyRepeat.KeyRepeatManager.constructor | freej2me-web/web/src/key.js:70-71 | no key is held and there is no listener |
| KeyRepeat.KeyRepeatManager.Register | freej2me-web/web/src/key.js:80-86 | null clears the listener, a function replaces it, anything else changes nothing |
| KeyRepeat.KeyRepeatManager.Emit | freej2me-web/web/src/key.js:145-153 | the event is delivered when a listener is registered |
| KeyRepeat.KeyRepeatManager.Post | freej2me-web/web/src/key.js:94-139 | the key states and the delivered events follow Next and Out for the post |
| KeyRepeat.KeyRepeatManager.FirstRepeatTimer | freej2me-web/web/src/key.js:117-122 | the first-repeat timeout emits one 'repeat' and starts the interval |
| KeyRepeat.KeyRepeatManager.IntervalTimer | freej2me-web/web/src/key.js:119-121 | the interval emits one 'repeat' with the key's current args |
| KeyRepeat.KeyRepeatManager.Reset | freej2me-web/web/src/key.js:155-161 | every key is forgotten and nothing is emitted |
| EventQueue.Enqueued | freej2me-web/web/src/eventqueue.js:17-22 | before the first wait, or when a queued event matches `skipIfExists`, the queue is unchanged; otherwise the event is appended at the tail, the rest untouched |
| EventQueue.ApplyIsFifo | freej2me-web/web/src/eventqueue.js:17-38 | the events handed out followed by those still queued are exactly the events queued at the start followed by those pushed, in push order |
| EventQueue.EventQueue.constructor | freej2me-web/web/src/eventqueue.js:3-11 | the queue is empty, not started, and a pending promise with its resolver is in place |
| EventQueue.EventQueue.RefreshPromise | freej2me-web/web/src/eventqueue.js:13-15 | a new pending promise and its resolver |
| EventQueue.EventQueue.QueueEvent | freej2me-web/web/src/eventqueue.js:17-27 | the queue becomes Enqueued; an accepted event resolves the pending promise once and clears the resolver; a dropped one touches neither |
| EventQueue.EventQueue.WaitForEvent | freej2me-web/web/src/eventqueue.js:29-35 | the queue is started; with more than one event queued the head is returned at once, otherwise the poller suspends |
| EventQueue.EventQueue.Resume | freej2me-web/web/src/eventqueue.js:35-37 | a suspended poller resumes only once the promise is resolved, then takes a fresh promise and the head, which is never missing |
| ScreenKbd.Activate | freej2me-web/web/src/screenKbd.js:19-26 | the key becomes active, and it is reported pressed exactly when it was not active and a handler is set |
| ScreenKbd.Deactivate | freej2me-web/web/src/screenKbd.js:28-35 | the key becomes inactive, and it is reported released exactly when it was active and a handler is set |
| ScreenKbd.ActivateConsistent | freej2me-web/web/src/screenKbd.js:19-26 | activating keeps each key's press and release reports alternating and in line with the active set |
| ScreenKbd.DeactivateConsistent | freej2me-web/web/src/screenKbd.js:28-35 | deactivating keeps each key's press and release reports alternating and in line with the active set |
| ScreenKbd.StepConsistent | freej2me-web/web/src/screenKbd.js:38-87 | one changed touch of any phase keeps the reports consistent with the active set |
| ScreenKbd.HandleConsistent | freej2me-web/web/src/screenKbd.js:38-87 | across any touch events the handler hears a press only when a key turns active and a release only when it turns inactive, never two presses in a row for one key |
| ScreenKbd.StartOutsideKeys | freej2me-web/web/src/screenKbd.js:43-47 | a touch starting outside every key changes nothing |
| ScreenKbd.MoveToOtherKey | freej2me-web/web/src/screenKbd.js:57-67 | moving onto another key releases the old key before pressing the new one and remaps the touch |
| ScreenKbd.MoveOffKeys | freej2me-web/web/src/screenKbd.js:61-70 | moving off every key releases the previous key and drops the touch's mapping |
| ScreenKbd.EndForgetsTouches | freej2me-web/web/src/screenKbd.js:76-87 | after touchend or touchcancel none of the changed touches is mapped, and no mapping is added |
| ScreenKbd.LiftingOneOfTwoTouchesReleases | freej2me-web/web/src/screenKbd.js:76-87 | when two touches hold the same key, lifting one releases the key although the other still maps to it |
| ScreenKbd.ScreenKeyboard.constructor | freej2me-web/web/src/screenKbd.js:12-13 | no touch is mapped, no key is active and no handler is set |
| ScreenKbd.ScreenKeyboard.SetKbdHandler | freej2me-web/web/src/screenKbd.js:100-102 | the handler is set or cleared |
| ScreenKbd.ScreenKeyboard.ActivateKey | freej2me-web/web/src/screenKbd.js:19-26 | the state becomes Activate of the old one |
| ScreenKbd.ScreenKeyboard.DeactivateKey | freej2me-web/web/src/screenKbd.js:28-35 | the state becomes Deactivate of the old one |
| ScreenKbd.ScreenKeyboard.HandleTouchStart | freej2me-web/web/src/screenKbd.js:38-49 | each changed touch over a key is mapped to it and activates it, in order |
| ScreenKbd.ScreenKeyboard.HandleTouchMove | freej2me-web/web/src/screenKbd.js:52-73 | each changed touch follows Step for a move, in order |
| ScreenKbd.ScreenKeyboard.HandleTouchEnd | freej2me-web/web/src/screenKbd.js:76-87 | each changed touch releases its key and loses its mapping, in order |
| LauncherPage.SplitLine | freej2me-web/web/src/launcher.js:76-77 | a line yields a key and value exactly when it has a single ':', and neither part holds a ':' |
| LauncherPage.ReadToKv | freej2me-web/web/src/launcher.js:74-81 | the map returned is the given one with the lines of the trimmed text stored over it, one after the other |
| LauncherPage.LinesWithoutOneColonIgnored | freej2me-web/web/src/launcher.js:76-77 | a line with no ':' or more than one leaves the map unchanged |
| LauncherPage.UnmentionedKeysKept | freej2me-web/web/src/launcher.js:74-81 | a key no line names keeps its value, or stays absent |
| LauncherPage.StoreLinesAppend | freej2me-web/web/src/launcher.js:75-80 | reading lines in two batches is the same as reading them together |
| LauncherPage.StoreSingleLine | freej2me-web/web/src/launcher.js:75-80 | reading a one-line text is storing that line |
| LauncherPage.LastLineWins | freej2me-web/web/src/launcher.js:75-80 | the last line naming a key decides its value |
| LauncherPage.SplitAtOneColon | freej2me-web/web/src/launcher.js:76 | a line with one ':' splits around it, dropping the white space beside the ':' |
| LauncherPage.SplitBareKeyLine | freej2me-web/web/src/launcher.js:76-78 | `key:` reads as the key with an empty value |
| LauncherPage.StoreEntryLines | freej2me-web/web/src/launcher.js:75-80 | reading entry lines one by one stores their entries in order |
| LauncherPage.SerialiseRoundTrip | freej2me-web/web/src/launcher.js:517-518 | text written by the settings form as `key: value` lines reads back through readToKv as the same entries, when keys and values hold no ':' or newline and no white space at either end |
| LauncherPage.EmptyTextStoresNothing | freej2me-web/web/src/launcher.js:74-81 | an empty property list writes a text that stores nothing |
| LauncherPage.FillGuessedSettings | freej2me-web/web/src/launcher.js:411-420 | a guessed width sets width and height, every old key survives, and keys other than width, height and phone keep their values |
| LauncherPage.GuessedSettingsReadBack | freej2me-web/web/src/launcher.js:411-420 | the size written parses back to the guessed numbers, a non-empty phone guess is stored, and with no guesses the settings are unchanged |
| JsReference.NullIsZero | freej2me-web/web/libjs/libjsreference.js:4-11 | getId(null) is 0 and changes nothing; every object's id is at least 1 |
| JsReference.AssignKeepsNumbering | freej2me-web/web/libjs/libjsreference.js:7-13 | ids stay distinct and below nextId; a new object takes nextId, which grows by one; the object then maps to the id returned |
| JsReference.SameObjectSameId | freej2me-web/web/libjs/libjsreference.js:7-9 | asking again for an object's id returns the same id and changes nothing |
| JsReference.DistinctObjectsDistinctIds | freej2me-web/web/libjs/libjsreference.js:4-14 | two distinct objects never share an id |
| JsReference.ReferenceEquality | freej2me-web/web/libjs/libjsreference.js:20-22 | equal exactly when both are null or both are the same object |
| JsReference.Registry.constructor | freej2me-web/web/libjs/libjsreference.js:1-2 | the map is empty and nextId is 1 |
| JsReference.Registry.GetId | freej2me-web/web/libjs/libjsreference.js:4-19 | the id returned and the new map and counter are those of Assign, and the numbering stays distinct |
| Gles2.TransposeIndex | freej2me-web/web/libjs/libgles2.js:51-66 | entry (row, col) of the input is entry (col, row) of the output |
| Gles2.TransposeDiagonal | freej2me-web/web/libjs/libgles2.js:51-66 | diagonal entries stay in place |
| Gles2.TransposeInvolution | freej2me-web/web/libjs/libgles2.js:51-66 | transposing twice gives back the matrix |
| Gles2.Transpose3 | freej2me-web/web/libjs/libgles2.js:53-56 | the 3-by-3 transpose swaps entries 1 and 3, 2 and 6, 5 and 7 |
| Gles2.Transpose4 | freej2me-web/web/libjs/libgles2.js:59-65 | the 4-by-4 transpose swaps the six pairs across the diagonal |
| Gles2.SetAtStart | freej2me-web/web/libjs/libgles2.js:53-59 | the matrix lies over the start of the buffer and the rest of the buffer is kept |
| Gles2.Scratch.constructor | freej2me-web/web/libjs/libgles2.js:50 | two fresh, distinct buffers of 9 and 16 entries |
| Gles2.Scratch.Swap | freej2me-web/web/libjs/libgles2.js:54 | the two entries change places and nothing else changes |
| Gles2.Scratch.Swaps3 | freej2me-web/web/libjs/libgles2.js:54-56 | the three swaps leave the buffer transposed |
| Gles2.Scratch.Swaps4 | freej2me-web/web/libjs/libgles2.js:60-65 | the six swaps leave the buffer transposed |
| Gles2.Scratch.FirstRowSwaps4 | freej2me-web/web/libjs/libgles2.js:60-62 | the first three swaps exchange the first row and column |
| Gles2.Scratch.InnerSwaps4 | freej2me-web/web/libjs/libgles2.js:63-65 | the last three swaps exchange the rest across the diagonal |
| Gles2.Scratch.SetFromStart | freej2me-web/web/libjs/libgles2.js:53-59 | a matrix that fits is laid over the start of the buffer; a longer one throws and leaves the buffer unchanged |
| Gles2.Scratch.TransposeMatrix | freej2me-web/web/libjs/libgles2.js:51-69 | size 3 or 4 returns that shared buffer holding the transpose of the matrix laid over it, the other buffer untouched; a matrix too long or another size throws and changes nothing |
| Gles2.First9 | freej2me-web/web/libjs/libgles2.js:268-270 | at most the first 9 entries of the array, all 9 when it is long enough |
| Gles2.Upload3AsWritten | freej2me-web/web/libjs/libgles2.js:265-276 | as written, a transposed upload has 16 entries: the matrix laid over the 4-by-4 buffer and transposed at size 4 |
| Gles2.Upload3 | freej2me-web/web/libjs/libgles2.js:265-276 | the corrected upload of a 9-entry matrix is its 3-by-3 transpose, or the matrix itself when no transpose is asked |
| Gles2.Upload3AsWrittenMisplaces | freej2me-web/web/libjs/libgles2.js:274 | the as-written upload has 16 entries and puts the centre entry second, where the 3-by-3 transpose puts the second row's first entry |
| Gles2.IdentityAsWritten | freej2me-web/web/libjs/libgles2.js:274 | as written the identity's transpose has a 1 off the diagonal; corrected it stays the identity |
| Gles2.Upload3RoundTrip | freej2me-web/web/libjs/libgles2.js:265-276 | the corrected upload, transposed back, is the matrix given |
| Gles2.Scratch.UniformMatrix3fvAsWritten | freej2me-web/web/libjs/libgles2.js:265-276 | the upload is Upload3AsWritten of the array and the old 4-by-4 buffer |
| Gles2.Scratch.UniformMatrix3fv | freej2me-web/web/libjs/libgles2.js:265-276 | the upload is Upload3 of the array and the old 3-by-3 buffer |
| Gles2.Scratch.UniformMatrix4fv | freej2me-web/web/libjs/libgles2.js:278-284 | without transpose the array is uploaded as it is; a 16-entry one is uploaded transposed; a shorter one overwrites only the start of the shared 4-by-4 scratch buffer, whose stale entries are transposed along with it; a longer one throws |
| Gles2.Context.constructor | freej2me-web/web/libjs/libgles2.js:91-97 | the cached width and height start at 0 and nothing has been resized |
| Gles2.Context.SetSurface | freej2me-web/web/libjs/libgles2.js:109-119 | the cached size becomes the one given; canvas, viewport and resize count change exactly when the size differs from the cached one |
| CmdClient.Sent | freej2me-web/web/libmedia/transcode/transcode.js:12-18 | the new id is one past the counter and at least 1, and it joins the pending ids; nothing settles |
| CmdClient.HandleSettlesOne | freej2me-web/web/libmedia/transcode/transcode.js:20-35 | a reply to a pending id settles exactly that request, rejected exactly when an error is present, and forgets it |
| CmdClient.HandleIgnores | freej2me-web/web/libmedia/transcode/transcode.js:22-26 | a message without a truthy replyFor, or for an id not pending, changes nothing |
| CmdClient.SendValid | freej2me-web/web/libmedia/transcode/transcode.js:12-18 | sending keeps the pending ids below the counter and apart from the settled ones, and the new id was not pending |
| CmdClient.HandleValid | freej2me-web/web/libmedia/transcode/transcode.js:20-35 | handling a message keeps that invariant |
| CmdClient.RunValid | freej2me-web/web/libmedia/transcode/transcode.js:4-36 | over any sequence of sends and replies, ids are handed out one after the other and each promise settles at most once, after its request |
| CmdClient.Client.constructor | freej2me-web/web/libmedia/transcode/transcode.js:5-10 | counter 0, nothing pending, nothing posted |
| CmdClient.Client.Send | freej2me-web/web/libmedia/transcode/transcode.js:12-18 | the id and new state are those of Sent, and the request is posted with its id |
| CmdClient.Client.HandleMessage | freej2me-web/web/libmedia/transcode/transcode.js:20-35 | the new state is Handle of the old one, and nothing is posted |
| LibMidi.AfterInit | freej2me-web/web/libmidi/libmidi.js:35-65 | without worklet support init only sets initialized; with it, init succeeds exactly when the bootstrap node reports ok, and a failure leaves the state alone |
| LibMidi.InitValid | freej2me-web/web/libmidi/libmidi.js:35-65 | init keeps the one-player invariant |
| LibMidi.AccessValid | freej2me-web/web/libmidi/libmidi.js:80-86 | reading midiPlayer keeps the one-player invariant |
| LibMidi.NullUntilInit | freej2me-web/web/libmidi/libmidi.js:80-86 | before init, or after close, midiPlayer is null and creates nothing |
| LibMidi.SamePlayerEveryAccess | freej2me-web/web/libmidi/libmidi.js:80-86 | once initialized, the first read creates a player and later reads return that same one |
| LibMidi.AfterClose | freej2me-web/web/libmidi/libmidi.js:68-78 | close rejects exactly when a player exists that has no client; otherwise it leaves no player, clears initialized and keeps the creation count |
| LibMidi.CloseDiscardsPlayer | freej2me-web/web/libmidi/libmidi.js:131-135 | a successful close closes the player once, drops it and keeps the invariant, so midiPlayer is null again; a rejected close (unregistering a client-less player throws) leaves midiPlayer returning the same player |
| LibMidi.ReinitGivesNewPlayer | freej2me-web/web/libmidi/libmidi.js:68-86 | with worklet support, after close and init a new player is created, never the closed one; without it, close rejects and the same player stays |
| LibMidi.Front.constructor | freej2me-web/web/libmidi/libmidi.js:23-33 | not initialized, no player, nothing created or closed |
| LibMidi.Front.Init | freej2me-web/web/libmidi/libmidi.js:35-65 | the state follows AfterInit, and a failure changes nothing |
| LibMidi.Front.Close | freej2me-web/web/libmidi/libmidi.js:68-78 | close succeeds exactly when AfterClose does and then takes its state; a rejected close changes nothing |
| LibMidi.Front.GetMidiPlayer | freej2me-web/web/libmidi/libmidi.js:80-86 | the player returned and the new state follow Access |
| LibMidi.Player.constructor | freej2me-web/web/libmidi/libmidi.js:144-174 | a client exists exactly when audio worklets are supported, and a fresh one starts empty |
| LibMidi.Player.Send | freej2me-web/web/libmidi/libmidi.js:178-180 | without a client nothing is posted and the result is falsy; with one the request gets the client's next id |
| TranscodeJs.EnsureValid | freej2me-web/web/libmedia/transcode/transcode.js:50-58 | after ensure a worker promise is held and it is the one returned |
| TranscodeJs.EnsureOnce | freej2me-web/web/libmedia/transcode/transcode.js:50-58 | however often ensure is called the worker is loaded once, and every later call returns the first call's promise |
| TranscodeJs.Module.constructor | freej2me-web/web/libmedia/transcode/transcode.js:1-3 | no worker promise, nothing loaded, no client |
| TranscodeJs.Module.Ensure | freej2me-web/web/libmedia/transcode/transcode.js:38-58 | the state and promise follow AfterEnsure; the first call makes a fresh client, later calls keep it |
| TranscodeJs.Module.Transcode | freej2me-web/web/libmedia/transcode/transcode.js:60-64 | after ensuring the worker, the data is the last message posted on its client, under an id left pending for the reply |
| WorkerJs.CStringEnd | freej2me-web/web/libmedia/transcode/worker.js:4-8 | the scan stops at the first position that is past the heap, holds 0, or reaches idx + maxBytesToRead, and every byte before it is non-zero |
| WorkerJs.CString | freej2me-web/web/libmedia/transcode/worker.js:3-17 | the string is one code unit per byte from idx up to the stop, none of them 0, and no longer than maxBytesToRead |
| WorkerJs.ReadCString | freej2me-web/web/libmedia/transcode/worker.js:3-17 | the loops return CString of the heap |
| WorkerJs.WriteCString | freej2me-web/web/libmedia/transcode/worker.js:19-29 | returns the string's length and leaves the heap as Written: each code unit's low byte from outIdx, then a 0 |
| WorkerJs.WrittenFrame | freej2me-web/web/libmedia/transcode/worker.js:19-29 | only the string's positions and the terminator change |
| WorkerJs.StopsAtZero | freej2me-web/web/libmedia/transcode/worker.js:8 | a scan over non-zero bytes that reaches a 0 within the limit stops at that 0 |
| WorkerJs.RoundTrip | freej2me-web/web/libmedia/transcode/worker.js:3-29 | a string of code units 1 to 255 written where it fits reads back unchanged when the maximum allows its length |
| WorkerJs.ReadStringAt | freej2me-web/web/libmedia/transcode/worker.js:84-87 | a null pointer reads as the empty string; otherwise the bytes up to the stop |
| WorkerJs.OnMessage | freej2me-web/web/libmedia/transcode/worker.js:99-118 | a message with cmd and msgId is answered once with the handler's value or its error text when a command handler exists; any other message goes to the other handler, if any |
| WorkerJs.ReplySettlesRequest | freej2me-web/web/libmedia/transcode/worker.js:99-113 | the worker's reply to a request the client sent settles exactly that request, resolved with the handler's value or rejected with its error |
| RomPage.NonEmpty | script.js:14 | exactly the non-empty strings of the list are kept |
| RomPage.RomExts | script.js:15 | exactly the listed extensions other than "zip" are kept |
| RomPage.CleanIsClean | script.js:13 | a cleaned entry is trimmed and already lower-case |
| RomPage.ExtsWellFormed | script.js:11-15 | every listed extension is non-empty, trimmed and lower-case, and none of the ROM extensions is "zip" |
| RomPage.PrimaryExtChoice | script.js:16 | the primary extension is the first ROM extension when there is one, "zip" exactly when zip is the only kind listed, and "nes" otherwise |
| RomPage.GuessUsesLastSegment | script.js:90 | only the text after the last '/' counts when it is not empty |
| RomPage.GuessStripsLastExtension | script.js:92-96 | a dotted name loses only its last extension |
| RomPage.GuessKeepsUndotted | script.js:93-96 | a name without a dot is kept whole, and so is a dot file whose stripped name would be empty |
| RomPage.GuessCutsQuery | script.js:91-96 | a query string is cut off before the extension is removed |
| RomPage.PickZipEntry | script.js:281-289 | the first entry in archive order that passes the test, and none exactly when no entry passes |
| RomPage.PickSkipsDirectories | script.js:286 | with no ROM extension configured the first file is picked, never a directory |
| RomPage.PickIgnoresCase | script.js:285 | upper-case entry names match a lower-case extension |
| RomPage.LastSession | script.js:676-680 | the stored session is offered exactly when it is for this page's core and has a url |
| RomPage.KeptExactlyOnce | script.js:537-545 | the hrefs kept are exactly the found ones that are non-empty and do not end in '/', each once |
| RomPage.CollectLinks | script.js:536-553 | one entry per kept href, numbered in order |
| FlashPage.ToKeyPayload | flash-player.js:67-74 | the code is kept; "Space" sends " ", a "Key…" code sends its rest lower-cased, any other code is its own key |
| FlashPage.LetterKeyPayload | flash-player.js:69-72 | a letter key sends its lower-case letter |
| FlashPage.OtherCodesAreTheirOwnKey | flash-player.js:73 | codes such as ArrowLeft and Enter are sent as their own key |
| FlashPage.WithFile | flash-player.js:188 | exactly the entries with a non-empty file are kept |
| FlashPage.WithFileOrdered | flash-player.js:188 | filtering keeps the ids increasing |
| FlashPage.ListedIffFile | flash-player.js:184-188 | an item is listed exactly when it has a file or a path, once, under its own index, and the list keeps the order of index.json |
| FlashPage.TitleFallback | flash-player.js:186-187 | the title falls back from title to name to file to "Game n" with n one past the index, and the file from file to path |
| FlashPage.Search | flash-player.js:215-220 | exactly the entries whose lower-cased title contains the lower-cased query are shown |
| FlashPage.EmptyQueryShowsAll | flash-player.js:215-220 | an empty query shows the whole list in order |
| FlashPage.SearchIgnoresCase | flash-player.js:216-218 | a query and its lower-case form show the same entries |
| FlashPage.LocalUrl | flash-player.js:234-241 | the URL loaded for an offline entry holds no backslash |
| FlashPage.NotHttp | flash-player.js:236 | a path starting with a letter other than h is not an http(s) URL |
| FlashPage.LocalUrlOfUrl | flash-player.js:236-237 | an https URL is loaded as it is |
| FlashPage.LocalUrlOfAbsolute | flash-player.js:236-237 | an absolute path is loaded as it is |
| FlashPage.LocalUrlOfSiteRelative | flash-player.js:238-239 | a path under the offline folder is made relative to the page |
| FlashPage.BackslashPathsGetBase | flash-player.js:238-241 | a relative path with a backslash among its first 18 characters gets the base prefix before backslashes become '/' |
| FlashPage.BackslashFolderDoubled | flash-player.js:238-241 | so a path naming the offline folder with backslashes loads with the folder twice |
| FlashPage.HandleLoad | flash-player.js:144-167 | a chosen file wins over the typed URL and is loaded exactly when its extension is swf; otherwise a non-empty trimmed URL is loaded; otherwise nothing is |
| FlashPage.FileExtOf | flash-player.js:151 | the extension checked is the text after the last dot, lower-cased |
| FlashPage.UpperCaseSwfAccepted | flash-player.js:151-152 | a file ending in .SWF is accepted |
| FlashPage.InnerSwfRejected | flash-player.js:151-155 | only the last extension counts, so game.swf.zip is rejected |
| FluidSys.Truncated | freej2me-web/web/libmidi/wasm/fluidsynth/src/utils/fluid_sys.c:160-169 | the message left in errbuf is the formatted text cut to fit the buffer with its terminator, whole when it fits |
| FluidSys.LogCallFor | freej2me-web/web/libmidi/wasm/fluidsynth/src/utils/fluid_sys.c:160-180 | a call is made exactly when the level is valid and has a handler, with that handler, the truncated message and the level's user data |
| FluidSys.LogTable.constructor | freej2me-web/web/libmidi/wasm/fluidsynth/src/utils/fluid_sys.c:69-81 | every level but debug starts with the default handler and no user data, and nothing has been called |
| FluidSys.LogTable.SetLogFunction | freej2me-web/web/libmidi/wasm/fluidsynth/src/utils/fluid_sys.c:93-105 | for a valid level the handler and data are replaced and the old handler returned; an invalid level returns NULL and changes nothing |
| FluidSys.LogTable.Log | freej2me-web/web/libmidi/wasm/fluidsynth/src/utils/fluid_sys.c:160-180 | the table is kept, the call of LogCallFor is recorded, and the result is always FLUID_FAILED |
| FluidSys.SetThenLog | freej2me-web/web/libmidi/wasm/fluidsynth/src/utils/fluid_sys.c:93-180 | logging at a level just set calls that handler with that data; other levels keep theirs |
| FluidSys.InitialLogging | freej2me-web/web/libmidi/wasm/fluidsynth/src/utils/fluid_sys.c:69-180 | with the initial table the debug level is silent, the other levels use the default handler, and levels out of range log nothing |
| FluidSys.LeadingDelims | freej2me-web/web/libmidi/wasm/fluidsynth/src/utils/fluid_sys.c:311-331 | the count of leading delimiter characters, followed by a non-delimiter or the end |
| FluidSys.RunLength | freej2me-web/web/libmidi/wasm/fluidsynth/src/utils/fluid_sys.c:335-349 | the length of the leading run of non-delimiter characters, followed by a delimiter or the end |
| FluidSys.Step | freej2me-web/web/libmidi/wasm/fluidsynth/src/utils/fluid_sys.c:293-354 | there is no token exactly when only delimiters remain; a token is non-empty and holds no delimiter |
| FluidSys.SkipsDelim | freej2me-web/web/libmidi/wasm/fluidsynth/src/utils/fluid_sys.c:311-331 | a leading delimiter is skipped: the calls behave as on the rest of the text |
| FluidSys.TakesRun | freej2me-web/web/libmidi/wasm/fluidsynth/src/utils/fluid_sys.c:333-353 | a text starting with a non-delimiter yields its leading run first |
| FluidSys.TokensAreRuns | freej2me-web/web/libmidi/wasm/fluidsynth/src/utils/fluid_sys.c:293-354 | successive calls return exactly the non-empty pieces between delimiters, in order |
| FluidSys.StrtokAtEnd | freej2me-web/web/libmidi/wasm/fluidsynth/src/utils/fluid_sys.c:316-320 | when only delimiters are left the result is NULL, \*str becomes NULL and the buffer is untouched |
| FluidSys.StrtokLastToken | freej2me-web/web/libmidi/wasm/fluidsynth/src/utils/fluid_sys.c:351-353 | the last token runs to the terminator and \*str becomes NULL, the buffer untouched |
| FluidSys.StrtokCutsToken | freej2me-web/web/libmidi/wasm/fluidsynth/src/utils/fluid_sys.c:342-346 | a token ended by a delimiter has that delimiter replaced by a terminator, and \*str points just past it |
| FluidSys.StrtokLeavesRest | freej2me-web/web/libmidi/wasm/fluidsynth/src/utils/fluid_sys.c:344-346 | after a cut, \*str points at the rest of the text, which the next call works on |
| FluidSys.Strtok | freej2me-web/web/libmidi/wasm/fluidsynth/src/utils/fluid_sys.c:293-354 | the token, the new \*str and the buffer are those of StrtokResult |
| FluidSys.SkipDelims | freej2me-web/web/libmidi/wasm/fluidsynth/src/utils/fluid_sys.c:311-331 | the first loop stops at the first non-delimiter or the terminator, past only delimiters |
| FluidSys.RunEnd | freej2me-web/web/libmidi/wasm/fluidsynth/src/utils/fluid_sys.c:335-349 | the second loop stops at the first delimiter or terminator after the token's first character |
| FluidSys.StartStop | freej2me-web/web/libmidi/wasm/fluidsynth/src/utils/fluid_sys.c:861-895 | a stop request stops; a start while measuring changes nothing; another start records the end tick, starts, and clears the data when clear_data is 0 |
| FluidSys.GetStatus | freej2me-web/web/libmidi/wasm/fluidsynth/src/utils/fluid_sys.c:823-844 | a cancel request reports CANCELED and stops; otherwise READY, RUNNING while started, or STOP, the status unchanged |
| FluidSys.StartIsIdempotent | freej2me-web/web/libmidi/wasm/fluidsynth/src/utils/fluid_sys.c:863-888 | a second start while measuring changes nothing, and after a stop the next start takes over |
| FluidSys.RunningUntilStopped | freej2me-web/web/libmidi/wasm/fluidsynth/src/utils/fluid_sys.c:823-895 | after a start the status reads RUNNING until a stop, then STOP |
| FluidSys.Profiler.constructor | freej2me-web/web/libmidi/wasm/fluidsynth/src/utils/fluid_sys.c:526-539 | stopped, end tick 0, with the initial data |
| FluidSys.Profiler.StartStopMeasure | freej2me-web/web/libmidi/wasm/fluidsynth/src/utils/fluid_sys.c:861-895 | status and end tick follow StartStop, and every entry is reset exactly when it says to clear |
| FluidSys.Profiler.GetProfileStatus | freej2me-web/web/libmidi/wasm/fluidsynth/src/utils/fluid_sys.c:823-844 | the value returned and the new status follow GetStatus; the data and end tick are untouched |
| TranscodeC.ReadStep | freej2me-web/web/libmedia/transcode/wasm/lib/transcode.c:54-63 | end of file exactly when pos has reached size, pos then unchanged; otherwise the count is the smaller of the buffer size and what is left, and pos advances by it without passing size |
| TranscodeC.SeekStep | freej2me-web/web/libmedia/transcode/wasm/lib/transcode.c:65-80 | AVSEEK_SIZE reports the size and keeps pos; an in-range SEEK_SET, SEEK_CUR or SEEK_END moves pos there and returns it; a pos past size gives EINVAL; an unknown whence keeps pos |
| TranscodeC.ReadsDeliverRest | freej2me-web/web/libmedia/transcode/wasm/lib/transcode.c:54-63 | reading in chunks of any positive size delivers exactly the rest of the input |
| TranscodeC.SeekBeforeStartStrandsPosition | freej2me-web/web/libmedia/transcode/wasm/lib/transcode.c:73-79 | a relative seek before the start wraps the unsigned pos past the end: EINVAL is reported but pos keeps the wrapped value, so the next read reports end of file |
| TranscodeC.MemoryBuffer.constructor | freej2me-web/web/libmedia/transcode/wasm/lib/transcode.c:42-46 | the input at position 0 |
| TranscodeC.MemoryBuffer.ReadPacket | freej2me-web/web/libmedia/transcode/wasm/lib/transcode.c:54-63 | the count and new pos follow ReadStep, and the bytes copied are the input from the old pos, the rest of the buffer untouched |
| TranscodeC.MemoryBuffer.SeekPacket | freej2me-web/web/libmedia/transcode/wasm/lib/transcode.c:65-80 | the result and new pos follow SeekStep |
| TranscodeC.Written | freej2me-web/web/libmedia/transcode/wasm/lib/transcode.c:82-99 | -1 exactly when the data does not fit and realloc fails, nothing changing then; otherwise the data is appended, the capacity grows to twice plus the packet only when needed, and the count is returned |
| TranscodeC.WritesConcatenate | freej2me-web/web/libmedia/transcode/wasm/lib/transcode.c:82-99 | the output is everything written, in order, and always fits the capacity |
| TranscodeC.OutputBuffer.constructor | freej2me-web/web/libmedia/transcode/wasm/lib/transcode.c:48-52 | no bytes, at the capacity given |
| TranscodeC.OutputBuffer.WritePacket | freej2me-web/web/libmedia/transcode/wasm/lib/transcode.c:82-99 | bytes, capacity and result follow Written |
| TranscodeC.DrainFrames | freej2me-web/web/libmedia/transcode/wasm/lib/transcode.c:606-653 | every frame holds exactly one frame's worth of samples, padding included; its pts counts the samples written before it; only the final call pads |
| TranscodeC.DrainCounts | freej2me-web/web/libmedia/transcode/wasm/lib/transcode.c:606-653 | the samples taken are those that left the FIFO; the written count grows by a whole frame per frame; the final call empties the FIFO and any other leaves at most one frame's worth |
| TranscodeC.AudioOutput.constructor | freej2me-web/web/libmedia/transcode/wasm/lib/transcode.c:506-515 | an empty FIFO, the encoder's frame size, nothing written |
| TranscodeC.AudioOutput.WriteSamplesFromFifo | freej2me-web/web/libmedia/transcode/wasm/lib/transcode.c:606-653 | returns 0, and the frames, FIFO and written count follow Drain |
| MidiplayerSfont.ReadStepAsWritten | freej2me-web/web/libmidi/wasm/lib/midiplayer_sfont.c:29-46 | as written, the clamp test is computed in unsigned int, so a count that wraps the sum is taken whole |
| MidiplayerSfont.ReadStep | freej2me-web/web/libmidi/wasm/lib/midiplayer_sfont.c:29-46 | FLUID_FAILED exactly when the position has reached the length, the position then unchanged; otherwise the count is clamped to what is left and the position advances by it without passing the length |
| MidiplayerSfont.ReadAsWrittenClamps | freej2me-web/web/libmidi/wasm/lib/midiplayer_sfont.c:37-43 | when the sum does not wrap, the code computes the clamped read |
| MidiplayerSfont.ReadAsWrittenOverruns | freej2me-web/web/libmidi/wasm/lib/midiplayer_sfont.c:38 | 16 bytes into a 100-byte font, a count of 0xFFFF_FFF8 is taken whole as written, returning -8 and wrapping the position to 8, where the clamped read returns 84 |
| MidiplayerSfont.SeekStep | freej2me-web/web/libmidi/wasm/lib/midiplayer_sfont.c:48-73 | an unknown origin fails; a target past the length fails and keeps the position; an in-range SEEK_SET, SEEK_CUR or SEEK_END moves there and returns FLUID_OK |
| MidiplayerSfont.RewindThenRead | freej2me-web/web/libmidi/wasm/lib/midiplayer_sfont.c:29-73 | seeking to the start and reading the whole font delivers all of it |
| MidiplayerSfont.MemoryHandle.constructor | freej2me-web/web/libmidi/wasm/lib/midiplayer_sfont.c:14-27 | the embedded font at position 0 |
| MidiplayerSfont.MemoryHandle.Read | freej2me-web/web/libmidi/wasm/lib/midiplayer_sfont.c:29-46 | the result and new position follow ReadStep, and the bytes copied are the font's from the old position, the rest of the buffer untouched; a failure copies nothing |
| MidiplayerSfont.MemoryHandle.Seek | freej2me-web/web/libmidi/wasm/lib/midiplayer_sfont.c:48-73 | the result and new position follow SeekStep |
| MidiplayerSfont.MemoryHandle.Tell | freej2me-web/web/libmidi/wasm/lib/midiplayer_sfont.c:81-85 | the current position |
| MidiPlayer.LowByteNibbles | freej2me-web/web/libmidi/wasm/lib/midiplayer.c:118-120 | the high and low nibbles of the low byte split it: the low nibble of the byte is the value's low nibble and the rest is a multiple of 16 up to 0xF0 |
| MidiPlayer.HighNibble | freej2me-web/web/libmidi/wasm/lib/midiplayer.c:118 | `status & 0xF0`: a multiple of 16 between 0 and 0xF0 |
| MidiPlayer.ShortEvent | freej2me-web/web/libmidi/wasm/lib/midiplayer.c:114-133 | type and channel come from the status byte; a pitch bend joins the two 7-bit halves into the key and sets no value; any other event takes data1 as key and data2 as value |
| MidiPlayer.StatusSplits | freej2me-web/web/libmidi/wasm/lib/midiplayer.c:118-120 | type plus channel is the status byte's low 8 bits, with the channel below 16 and the type a multiple of 16 |
| MidiPlayer.StatusRoundTrip | freej2me-web/web/libmidi/wasm/lib/midiplayer.c:118-120 | a status byte built from a type and a channel decodes back to them |
| MidiPlayer.PitchBendRange | freej2me-web/web/libmidi/wasm/lib/midiplayer.c:122-123 | a pitch bend's value lies in 0 to 16383 and splits back into the data bytes' low 7 bits |
| MidiPlayer.ChunksCover | freej2me-web/web/libmidi/wasm/lib/midiplayer.c:89-98 | the catch-up chunks are non-empty, at most bsize each, and add up to exactly the missed frames |
| MidiPlayer.WriteDataWhilePlaying | freej2me-web/web/libmidi/wasm/lib/midiplayer.c:88-112 | while the player keeps playing, all the missed frames are rendered in chunks, then one block of bsize, and the result is 0 only when play was requested and the player stopped |
| MidiPlayer.WriteDataStops | freej2me-web/web/libmidi/wasm/lib/midiplayer.c:93-95 | a player that stops during catch-up ends the call after that chunk, returning 0 |
| MidiPlayer.LoopSurvivesNewSequence | freej2me-web/web/libmidi/wasm/lib/midiplayer.c:47-78 | a loop count set before a new sequence is loaded is in force once it plays, though the new player starts without it |
| MidiPlayer.LoopSurvivesStop | freej2me-web/web/libmidi/wasm/lib/midiplayer.c:64-78 | stopping and playing again keeps the loop count |
| MidiPlayer.PlayWithoutLoop | freej2me-web/web/libmidi/wasm/lib/midiplayer.c:18-68 | without a call to loop, play applies the zeroed count |
| MidiPlayer.Player.constructor | freej2me-web/web/libmidi/wasm/lib/midiplayer.c:18-42 | the state is zeroed: no player, no loop count, play not requested, nothing rendered |
| MidiPlayer.Player.SetSequence | freej2me-web/web/libmidi/wasm/lib/midiplayer.c:47-62 | the player is replaced by a new one; nothing else changes |
| MidiPlayer.Player.Play | freej2me-web/web/libmidi/wasm/lib/midiplayer.c:64-68 | play is requested with the remembered loop count, and tmp_play_set is set |
| MidiPlayer.Player.Stop | freej2me-web/web/libmidi/wasm/lib/midiplayer.c:70-72 | play is no longer requested; nothing else changes |
| MidiPlayer.Player.Loop | freej2me-web/web/libmidi/wasm/lib/midiplayer.c:74-78 | the count is remembered and applied to the current player |
| MidiPlayer.Player.WriteDataFrames | freej2me-web/web/libmidi/wasm/lib/midiplayer.c:88-112 | the frame counts rendered and the result are those of WriteData, the player state untouched |
| RomPage.GuessGameName | script.js:88-97 | an empty input gives the empty name |

## Left out

- **Page and UI code:** I/O, the DOM, rendering and page wiring are not modelled. This covers fetches, file readers, localStorage, Ruffle, the EmulatorJS loader, the launcher's UI steps and `ConfigScreen` rendering and painting. The model covers the values these handlers compute, not the pages they draw.
- **Concurrency and async hand-off:** threads, promises and callbacks are not modelled. A promise is named by a number, the event loop's resumption of `waitForEvent` is the explicit `EventQueue.EventQueue.Resume`, and key-repeat timers are explicit inputs.
- **Native and library code:** WebGL, Web Audio, the audio worklet, the wasm glue, FFmpeg's codecs and fluidsynth's synthesis are not modelled. They appear only through the values the modelled code passes to them or gets back: frame counts, PLAYING status, FIFO sizes and realloc's outcome. The FFmpeg calls inside `write_samples_from_fifo` are taken to succeed. `malloc`/`free`, `my_close`, `midiplayer_seek`, `midiplayer_get_position` and `midiplayer_delete` only forward to those libraries.
- **Floating point:** Float32Array entries are reals, and a transpose only moves them. The micro3d `Model` constructor's `Float.POSITIVE_INFINITY` sentinel in the last vertex slot is not modelled. The fluid_sys.c profiling prints and load arithmetic are not modelled.
- **Strings:** JavaScript and Java `toLowerCase` are modelled on ASCII letters only, with no Unicode case mapping.
- **Myrient list:** only the link de-duplication is modelled. The title decoding (`decodeURIComponent`), the BIOS filter and the locale sort that follow it are not.
- **JSReference WeakMap:** it is modelled as never shrinking. An entry the collector removes belongs to an object nobody can pass again.
- **Files and archives:** jars, zip archives and the file system are inputs (entry lists, class maps, `apps.list` lines). Opening, inflating and copying them is not modelled, and neither is ASM parsing: instructions are abstract tuples.
- **Java key codes:** the `KeyEvent.VK_*` values are the browser key codes of the key.js table, which is what the web build feeds the Java side. KeyEvent.java is not part of this model.
- **AnalysisResult:** AnalysisResult.java is not part of this model. A fresh result is taken to hold width and height -1, no phone and no flag.
- **libgles2.js:** only `transposeMatrix`, the two uniformMatrix uploads and `setSurface` are modelled. The inverted error check of `checkGLError` (libgles2.js:123-126) is left out with the other WebGL proxies.
- FreeJ2ME.SettingsChangedFacts: does not state the frame delay for a negative fps, which the source keeps as a negative delay. Of the system properties `settingsChanged` sets, only the phone flags are stated, not the sound, forceFullscreen, queuedPaint and dgFormat properties.
- TranscodeC.OutputBuffer.WritePacket: does not model `size_t` overflow in `size + buf_size` and `2 * capacity + buf_size`. Buffers are taken to stay below 4 GiB.
- TranscodeC.AudioOutput.WriteSamplesFromFifo: requires a positive encoder frame size, which FFmpeg's audio encoders report. The -1 failure paths of `av_frame_get_buffer`, `av_audio_fifo_read` and `av_samples_set_silence` are not modelled.
- MidiPlayer.Player.WriteDataFrames: requires `bsize > 0`. With `bsize == 0` every chunk is empty, and the loop ends only when the player stops. Negative sizes, which the unsigned comparison turns into huge ones, are not modelled.
- MidiplayerSfont.MemoryHandle.Read: requires that `position + count` does not wrap. `memcpy` would read past the font otherwise. The wrapped case is `MidiplayerSfont.ReadStepAsWritten` (see Findings).
- TranscodeC.SeekStep: models seek_packet's quirk as written. An out-of-range seek reports EINVAL but leaves `pos` at the out-of-range value, and the `pos < 0` test of an unsigned `pos` never fires.
- Config.ReadLines: whether `trim` hands back the shared empty string for a line such as `width:` depends on the Java runtime. The model does not decide it; it is the parameter `emptyIsShared`, which ReadKV, Init and LauncherUtil.SaveApp pass on.
- Image.CreateRGBImage: when the wrapped product lets a short array through, the model returns an image over that short array. CanvasImage is not part of this model, so what it then does with the missing pixels is not captured.
- Micro3DModel.Model.constructor: requires every buffer size to fit in a Java int. A wrapped size, which throws when negative and otherwise allocates a buffer of the wrong length, is not modelled.
- AnalyserUtil.IsWordChar: counts only ASCII letters, digits and '_' as word characters. Java's `\b` also treats other Unicode letters and digits as word characters, and that is not modelled.
- FluidSys.Strtok: the "Null pointer" error that `FLUID_LOG` reports for a NULL `str` or a NULL or empty `delim` is not modelled; only the NULL result is.
- LibMidi.Front.Close: the front's players are taken to have a client exactly when the front has worklet support. The source's player also checks that `AudioWorkletNode` is defined, and that case is not modelled.
- JavaString.ParseInt: only ASCII '0' to '9' count as digits. `Integer.parseInt` reads digits through `Character.digit`, which also accepts other Unicode decimal digits (Arabic-Indic or full-width ones, for example); the model rejects those. Config's width, height and font-size getters, ConfigScreen.SizeOf and ConfigScreen.Screen.DoUpdateDisplay inherit this.
- Config.WriteKV: HashMap iteration order is a parameter, a permutation of the keys, and so is MainClassFinder's order of subclasses.

## Findings

The operations of the model (Config.ReadKV, Image.CreateRGBImage and the rest) follow the code as written. Each corrected member stands beside them, with the intended property proved about it.

| source | as written | input that shows it | evidently intended | confidence | as-written member | corrected member |
|---|---|---|---|---|---|---|
| freej2me-web/src/org/recompile/freej2me/Config.java:105 | `parts[0] != "" && parts[1] != ""` compares references, so a trimmed empty key or value that is not the interned `""` is stored | the line `width:` stores width as the empty string, and `getWidth` then fails to parse it | store a line only when the trimmed key and value are both non-empty | medium, not executed (whether the runtime hands back the interned `""` decides it) | Config.StoreLineAsWritten, Config.EmptyValueStoredAsWritten | Config.StoreLine |
| freej2me-web/src/javax/microedition/lcdui/Image.java:119 | `rgb.length < width * height` multiplies in 32-bit `int`, which wraps | width 65536, height 65536 and an empty array pass the check, since the product wraps to 0 | reject an array shorter than the pixel count | high, not executed | Image.RgbErrorAsWritten, Image.RgbCheckOverflows | Image.RgbError |
| freej2me-web/web/libmidi/wasm/lib/midiplayer_sfont.c:38 | `position + bytes_to_read > length` is computed in `unsigned int`, which wraps | length 100, position 16 and count 0xFFFF_FFF8: the count is not clamped, the result is -8, the position wraps to 8, and `memcpy` reads far past the font | clamp the count to the `length - position` bytes left | high, not executed | MidiplayerSfont.ReadStepAsWritten, MidiplayerSfont.ReadAsWrittenOverruns | MidiplayerSfont.ReadStep |
| freej2me-web/web/libjs/libgles2.js:274 | `uniformMatrix3fv` transposes its 3-by-3 matrix with `transposeMatrix(fa, 4)` | the 3-by-3 identity with transpose set hands 16 entries, with a 1 at index 1, to `gl.uniformMatrix3fv`, which WebGL rejects for a mat3 | transpose at size 3 and upload 9 entries | high, not executed | Gles2.Upload3AsWritten, Gles2.IdentityAsWritten | Gles2.Upload3 |
