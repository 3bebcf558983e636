/**
 * org.recompile.freej2me.Config: per-app settings, app properties and
 * system properties, each kept as `key:value` lines.
 */
module Config {
  import opened Wrappers
  import JavaString

  /** The settings a configuration starts from before the settings file is read. */
  function DefaultSettings(): map<string, string>
  {
    map[
    "width" := "240",
    "height" := "320",
    "sound" := "on",
    "phone" := "Nokia",
    "rotate" := "off",
    "fps" := "0",
    "fontSize" := "0",
    "dgFormat" := "4444",
    "forceFullscreen" := "off",
    "queuedPaint" := "off",
    "textureDisableFilter" := "off"]
  }

  /** Map.getOrDefault. */
  function GetOrDefault(settings: map<string, string>, key: string, default: string): (r: string)
    ensures key in settings ==> r == settings[key]
    ensures key !in settings ==> r == default
  {
    if key in settings then settings[key] else default
  }

  /** line.split(":", 2) with both parts trimmed; None when the line has no ':'. */
  function ParseLine(line: string): Option<(string, string)>
  {
    match JavaString.SplitFirst(line, ':')
      case None => None
      case Some((k, v)) => Some((JavaString.Trim(k), JavaString.Trim(v)))
  }

  /** readKV's evidently intended treatment of one line: store non-empty trimmed key and value. */
  function StoreLine(out: map<string, string>, line: string): (r: map<string, string>)
    ensures out.Keys <= r.Keys
    ensures forall k :: k in r && (k !in out || r[k] != out[k]) ==>
              ParseLine(line) == Some((k, r[k])) && k != "" && r[k] != ""
  {
    match ParseLine(line)
      case Some((k, v)) => if k != "" && v != "" then out[k := v] else out
      case None => out
  }


  /**
   * readKV as written compares the trimmed parts with `!=` against the
   * literal "", which tests identity. Whether an empty part is that very
   * literal depends on the Java runtime: `emptyIsShared` says whether
   * split() and trim() return the shared empty string.
   */
  function StoreLineAsWritten(out: map<string, string>, line: string, emptyIsShared: bool): (r: map<string, string>)
    ensures out.Keys <= r.Keys
    ensures forall k :: k in r && (k !in out || r[k] != out[k]) ==> ParseLine(line) == Some((k, r[k]))
    ensures emptyIsShared ==> forall k :: k in r && (k !in out || r[k] != out[k]) ==> k != "" && r[k] != ""
  {
    match ParseLine(line)
      case Some((k, v)) =>
        var kDiffers := if emptyIsShared then k != "" else true;
        var vDiffers := if emptyIsShared then v != "" else true;
        if kDiffers && vDiffers then out[k := v] else out
      case None => out
  }

  /**
   * On a runtime that returns fresh empty strings, a line such as `width:`
   * with nothing after the colon stores an empty value, which a later
   * Integer.parseInt rejects; the emptiness test leaves the map alone.
   */
  lemma EmptyValueStoredAsWritten(out: map<string, string>, k: string)
    requires ':' !in k && JavaString.IsTrimmed(k)
    ensures StoreLineAsWritten(out, k + ":", false) == out[k := ""]
    ensures StoreLine(out, k + ":") == out
    ensures JavaString.ParseInt(StoreLineAsWritten(out, k + ":", false)[k]).None?
  {
    var line := k + ":";
    assert k + ":" + "" == line;
    ValueKeepsColons(k, "");
    EmptyValueLine(out, line, k);
  }

  /** How each reading treats a line whose value part is empty. */
  lemma EmptyValueLine(out: map<string, string>, line: string, k: string)
    requires ParseLine(line) == Some((k, []))
    ensures StoreLineAsWritten(out, line, false) == out[k := []]
    ensures StoreLine(out, line) == out
  {
  }

  /** With a shared empty string the identity test behaves like the intended emptiness test. */
  lemma AsWrittenOnSharedEmpty(out: map<string, string>, line: string)
    ensures StoreLineAsWritten(out, line, true) == StoreLine(out, line)
  {
  }

  /** The map after readKV has read `lines` into `out`, one line after the other, with the test as written. */
  function ReadLines(out: map<string, string>, lines: seq<string>, emptyIsShared: bool): (r: map<string, string>)
    ensures out.Keys <= r.Keys
  {
    if lines == [] then out
    else StoreLineAsWritten(ReadLines(out, lines[..|lines| - 1], emptyIsShared), lines[|lines| - 1], emptyIsShared)
  }

  /** A line with a non-empty key and value is stored whatever the runtime does with empty strings. */
  lemma StoreNonEmpty(out: map<string, string>, line: string, k: string, v: string, emptyIsShared: bool)
    requires ParseLine(line) == Some((k, v)) && k != "" && v != ""
    ensures StoreLineAsWritten(out, line, emptyIsShared) == StoreLine(out, line) == out[k := v]
  {
  }

  /** A stored line wins over every earlier line and over the defaults. */
  lemma LaterLineWins(out: map<string, string>, lines: seq<string>, line: string, k: string, v: string, emptyIsShared: bool)
    requires ParseLine(line) == Some((k, v)) && k != "" && v != ""
    ensures ReadLines(out, lines + [line], emptyIsShared) == ReadLines(out, lines, emptyIsShared)[k := v]
  {
    assert (lines + [line])[..|lines|] == lines;
  }

  /** A line without ':' changes nothing. */
  lemma LineWithoutColonIgnored(out: map<string, string>, lines: seq<string>, line: string, emptyIsShared: bool)
    requires ':' !in line
    ensures ReadLines(out, lines + [line], emptyIsShared) == ReadLines(out, lines, emptyIsShared)
  {
    assert (lines + [line])[..|lines|] == lines;
  }

  /** The value may itself hold ':' since only the first one splits. */
  lemma ValueKeepsColons(k: string, v: string)
    requires ':' !in k && JavaString.IsTrimmed(k) && JavaString.IsTrimmed(v)
    ensures ParseLine(k + ":" + v) == Some((k, v))
  {
    assert k + ":" + v == k + [':'] + v;
    JavaString.SplitFirstAt(k, v, ':');
    JavaString.TrimOfTrimmed(k);
    JavaString.TrimOfTrimmed(v);
  }

  /** readKV over the text of a file. */
  method ReadKV(text: string, out: map<string, string>, emptyIsShared: bool) returns (r: map<string, string>)
    ensures r == ReadLines(out, JavaString.Lines(text), emptyIsShared)
  {
    r := ReadKVLines(JavaString.Lines(text), out, emptyIsShared);
  }

  /** readKV's loop over the lines the reader returns. */
  method ReadKVLines(lines: seq<string>, out: map<string, string>, emptyIsShared: bool) returns (r: map<string, string>)
    ensures r == ReadLines(out, lines, emptyIsShared)
  {
    r := out;
    var i := 0;
    while i < |lines|
      invariant 0 <= i <= |lines|
      invariant r == ReadLines(out, lines[..i], emptyIsShared)
    {
      ReadLinesStep(out, lines, i, emptyIsShared);
      var parts := JavaString.SplitFirst(lines[i], ':');
      if parts.Some? {
        var key := JavaString.Trim(parts.value.0);
        var value := JavaString.Trim(parts.value.1);
        // `!=` on Strings compares references: an empty part differs from
        // the literal "" unless the runtime hands back that very literal.
        var keyDiffers := if emptyIsShared then key != "" else true;
        var valueDiffers := if emptyIsShared then value != "" else true;
        if keyDiffers && valueDiffers {
          r := r[key := value];
        }
      }
      i := i + 1;
    }
    assert lines[..|lines|] == lines;
  }

  lemma ReadLinesStep(out: map<string, string>, lines: seq<string>, i: nat, emptyIsShared: bool)
    requires i < |lines|
    ensures ReadLines(out, lines[..i + 1], emptyIsShared) == StoreLineAsWritten(ReadLines(out, lines[..i], emptyIsShared), lines[i], emptyIsShared)
  {
    assert lines[..i + 1][..i] == lines[..i];
  }

  /** The line writeKV emits for one entry. */
  function EntryLine(key: string, value: string): string
  {
    key + ":" + value
  }

  /** The lines writeKV emits, in the map's iteration order `order`. */
  function EntryLines(m: map<string, string>, order: seq<string>): (r: seq<string>)
    requires forall i :: 0 <= i < |order| ==> order[i] in m
    ensures |r| == |order|
    ensures forall i :: 0 <= i < |order| ==> r[i] == EntryLine(order[i], m[order[i]])
  {
    if order == [] then [] else EntryLines(m, order[..|order| - 1]) + [EntryLine(order[|order| - 1], m[order[|order| - 1]])]
  }

  /** A map iteration order: every key exactly once. */
  predicate IsOrderOf(m: map<string, string>, order: seq<string>)
  {
    && (forall i :: 0 <= i < |order| ==> order[i] in m)
    && (forall k :: k in m ==> k in order)
    && (forall i, j :: 0 <= i < j < |order| ==> order[i] != order[j])
  }

  /** writeKV: one `key:value\n` line per entry. */
  method WriteKV(m: map<string, string>, order: seq<string>) returns (text: string)
    requires IsOrderOf(m, order)
    ensures text == JavaString.JoinLines(EntryLines(m, order))
  {
    ghost var lines := EntryLines(m, order);
    text := "";
    var i := |order|;
    while i > 0
      invariant 0 <= i <= |order|
      invariant text == JavaString.JoinLines(lines[i..])
    {
      i := i - 1;
      assert lines[i..][1..] == lines[i + 1..];
      text := EntryLine(order[i], m[order[i]]) + "\n" + text;
    }
    assert lines[0..] == lines;
  }

  /** Entries that survive a write and a read unchanged. */
  predicate Storable(m: map<string, string>)
  {
    forall k :: k in m ==>
      && k != "" && m[k] != ""
      && ':' !in k && '\n' !in k && '\n' !in m[k] && '\r' !in k && '\r' !in m[k]
      && JavaString.IsTrimmed(k) && JavaString.IsTrimmed(m[k])
  }

  /** The entries of `m` for the first `n` keys of `order`. */
  function FirstEntries(m: map<string, string>, order: seq<string>, n: nat): (r: map<string, string>)
    requires n <= |order| && forall i :: 0 <= i < |order| ==> order[i] in m
    ensures forall k :: k in r <==> exists i :: 0 <= i < n && order[i] == k
    ensures forall k :: k in r ==> r[k] == m[k]
  {
    if n == 0 then map[] else FirstEntries(m, order, n - 1)[order[n - 1] := m[order[n - 1]]]
  }

  /** Reading the written lines into an empty map gives back the map. */
  lemma {:induction false} ReadWriteRoundTrip(m: map<string, string>, order: seq<string>, emptyIsShared: bool)
    requires IsOrderOf(m, order) && Storable(m)
    ensures ReadLines(map[], JavaString.Lines(JavaString.JoinLines(EntryLines(m, order))), emptyIsShared) == m
  {
    EntryLinesReadBack(m, order);
    ReadEntryLines(m, order, emptyIsShared);
  }

  lemma ReadEntryLines(m: map<string, string>, order: seq<string>, emptyIsShared: bool)
    requires IsOrderOf(m, order) && Storable(m)
    ensures ReadLines(map[], EntryLines(m, order), emptyIsShared) == m
  {
    ReadPrefix(m, order, |order|, emptyIsShared);
    assert EntryLines(m, order)[..|order|] == EntryLines(m, order);
    FirstEntriesOfOrder(m, order);
  }

  lemma EntryLinesReadBack(m: map<string, string>, order: seq<string>)
    requires IsOrderOf(m, order) && Storable(m)
    ensures JavaString.Lines(JavaString.JoinLines(EntryLines(m, order))) == EntryLines(m, order)
  {
    var lines := EntryLines(m, order);
    forall i | 0 <= i < |lines| ensures '\n' !in lines[i] && '\r' !in lines[i] {
      assert lines[i] == order[i] + [':'] + m[order[i]];
    }
    JavaString.LinesOfJoin(lines);
  }

  lemma FirstEntriesOfOrder(m: map<string, string>, order: seq<string>)
    requires IsOrderOf(m, order)
    ensures FirstEntries(m, order, |order|) == m
  {
    var r := FirstEntries(m, order, |order|);
    forall k | k in m ensures k in r {
      var i :| 0 <= i < |order| && order[i] == k;
    }
    assert r.Keys == m.Keys;
  }

  lemma {:induction false} ReadPrefix(m: map<string, string>, order: seq<string>, n: nat, emptyIsShared: bool)
    requires IsOrderOf(m, order) && Storable(m) && n <= |order|
    ensures ReadLines(map[], EntryLines(m, order)[..n], emptyIsShared) == FirstEntries(m, order, n)
  {
    var lines := EntryLines(m, order);
    if n == 0 {
      assert lines[..0] == [];
    } else {
      ReadPrefix(m, order, n - 1, emptyIsShared);
      var k := order[n - 1];
      var line := lines[n - 1];
      ReadLinesStep(map[], lines, n - 1, emptyIsShared);
      assert ParseLine(line) == Some((k, m[k])) by {
        assert line == k + ":" + m[k];
        ValueKeepsColons(k, m[k]);
      }
      StoreNonEmpty(ReadLines(map[], lines[..n - 1], emptyIsShared), line, k, m[k], emptyIsShared);
    }
  }

  /** Why a getter throws. */
  datatype GetterError = NumberFormat

  class Config {
    var appSettings: map<string, string>
    var appProperties: map<string, string>
    var systemProperties: map<string, string>

    constructor ()
      ensures appSettings == DefaultSettings()
      ensures appProperties == map[] && systemProperties == map[]
    {
      appSettings := DefaultSettings();
      appProperties := map[];
      systemProperties := map[];
    }

    /**
     * init: read the three files (given as their text) over the current
     * maps; `emptyIsShared` is the runtime's treatment of empty strings.
     */
    method Init(settingsText: string, appPropertiesText: string, systemPropertiesText: string, emptyIsShared: bool)
      modifies this
      ensures appSettings == ReadLines(old(appSettings), JavaString.Lines(settingsText), emptyIsShared)
      ensures appProperties == ReadLines(old(appProperties), JavaString.Lines(appPropertiesText), emptyIsShared)
      ensures systemProperties == ReadLines(old(systemProperties), JavaString.Lines(systemPropertiesText), emptyIsShared)
    {
      appSettings := ReadKV(settingsText, appSettings, emptyIsShared);
      appProperties := ReadKV(appPropertiesText, appProperties, emptyIsShared);
      systemProperties := ReadKV(systemPropertiesText, systemProperties, emptyIsShared);
    }

    /**
     * saveConfig: the texts written to the three files, each map in its
     * own iteration order. Reading them back with Init over empty maps
     * restores the maps (ReadWriteRoundTrip) when every entry is Storable.
     */
    method SaveConfig(settingsOrder: seq<string>, appPropertiesOrder: seq<string>, systemPropertiesOrder: seq<string>)
      returns (settingsText: string, appPropertiesText: string, systemPropertiesText: string)
      requires IsOrderOf(appSettings, settingsOrder)
      requires IsOrderOf(appProperties, appPropertiesOrder)
      requires IsOrderOf(systemProperties, systemPropertiesOrder)
      ensures settingsText == JavaString.JoinLines(EntryLines(appSettings, settingsOrder))
      ensures appPropertiesText == JavaString.JoinLines(EntryLines(appProperties, appPropertiesOrder))
      ensures systemPropertiesText == JavaString.JoinLines(EntryLines(systemProperties, systemPropertiesOrder))
    {
      settingsText := WriteKV(appSettings, settingsOrder);
      appPropertiesText := WriteKV(appProperties, appPropertiesOrder);
      systemPropertiesText := WriteKV(systemProperties, systemPropertiesOrder);
    }

    /** getWidth: Integer.parseInt of the width setting. */
    function GetWidth(): (r: Result<int, GetterError>)
      reads this
      ensures r.Ok? <==> "width" in appSettings && JavaString.ParseInt(appSettings["width"]).Some?
    {
      ParseSetting(appSettings, "width")
    }

    /** getHeight: Integer.parseInt of the height setting. */
    function GetHeight(): (r: Result<int, GetterError>)
      reads this
      ensures r.Ok? <==> "height" in appSettings && JavaString.ParseInt(appSettings["height"]).Some?
    {
      ParseSetting(appSettings, "height")
    }

    /** getFontSize: the font size setting, "0" when absent. */
    function GetFontSize(): (r: Result<int, GetterError>)
      reads this
      ensures "fontSize" !in appSettings ==> r == Ok(0)
    {
      if "fontSize" in appSettings then ParseSetting(appSettings, "fontSize")
      else
        assert JavaString.DigitsValue("0") == 0;
        ParseSetting(map["fontSize" := "0"], "fontSize")
    }
  }

  function ParseSetting(settings: map<string, string>, key: string): Result<int, GetterError>
  {
    if key in settings && JavaString.ParseInt(settings[key]).Some? then Ok(JavaString.ParseInt(settings[key]).value)
    else Err(NumberFormat)
  }

  /** A fresh configuration yields the default 240x320 screen and font size 0. */
  lemma DefaultGetters()
    ensures ParseSetting(DefaultSettings(), "width") == Ok(240)
    ensures ParseSetting(DefaultSettings(), "height") == Ok(320)
    ensures ParseSetting(DefaultSettings(), "fontSize") == Ok(0)
  {
    assert JavaString.DigitsValue("240") == 240 by {
      assert "240"[..2] == "24" && "24"[..1] == "2" && "2"[..0] == "";
    }
    assert JavaString.DigitsValue("320") == 320 by {
      assert "320"[..2] == "32" && "32"[..1] == "3" && "3"[..0] == "";
    }
    assert JavaString.DigitsValue("0") == 0 by { assert "0"[..0] == ""; }
  }
}
