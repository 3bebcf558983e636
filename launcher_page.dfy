/**
 * launcher.js: the page's own `key: value` text format for app and
 * system properties (read by `readToKv`, written by the game-settings
 * form), and `fillGuessedSettings`, which copies the analyser's guesses
 * into a new app's settings.
 */
module LauncherPage {
  import opened Wrappers
  import JavaString
  import JsString
  import JavaInt

  /**
   * One line split on `/\s*:\s*\/`. The separator always holds exactly one
   * ':' and absorbs the white space around it, so the split has two parts
   * exactly when the line has one ':', and those parts are the text before
   * it without its trailing white space and the text after it without its
   * leading white space.
   */
  function SplitLine(line: string): (r: Option<(string, string)>)
    ensures r.Some? <==> |JavaString.SplitAll(line, ':')| == 2
    ensures r.Some? ==> ':' !in r.value.0 && ':' !in r.value.1
  {
    var parts := JavaString.SplitAll(line, ':');
    if |parts| == 2 then Some((JsString.TrimEnd(parts[0]), JsString.TrimStart(parts[1]))) else None
  }

  /** A line is stored only when it splits into exactly two parts. */
  function StoreLine(kv: map<string, string>, line: string): map<string, string>
  {
    match SplitLine(line)
    case Some((key, value)) => kv[key := value]
    case None => kv
  }

  /** The lines of the text, in order. */
  function StoreLines(kv: map<string, string>, lines: seq<string>): map<string, string>
    decreases |lines|
  {
    if lines == [] then kv else StoreLines(StoreLine(kv, lines[0]), lines[1..])
  }

  /** The lines readToKv visits: the whole text trimmed, then split on every '\n'. */
  function TextLines(txt: string): seq<string>
  {
    JavaString.SplitAll(JsString.Trim(txt), '\n')
  }

  /** readToKv(txt, kv): the entries of `txt` written over `kv`, which is returned. */
  method ReadToKv(txt: string, kv: map<string, string>) returns (r: map<string, string>)
    ensures r == StoreLines(kv, TextLines(txt))
  {
    var lines := JavaString.SplitAll(JsString.Trim(txt), '\n');
    r := kv;
    var i := 0;
    while i < |lines|
      invariant 0 <= i <= |lines|
      invariant StoreLines(kv, lines) == StoreLines(r, lines[i..])
    {
      assert lines[i..] == [lines[i]] + lines[i + 1..];
      var parts := JavaString.SplitAll(lines[i], ':');
      if |parts| == 2 {
        r := r[JsString.TrimEnd(parts[0]) := JsString.TrimStart(parts[1])];
      }
      i := i + 1;
    }
  }

  /** A line with no ':' or with several is ignored. */
  lemma LinesWithoutOneColonIgnored(kv: map<string, string>, line: string)
    requires |JavaString.SplitAll(line, ':')| != 2
    ensures StoreLine(kv, line) == kv
  {
  }

  /** Whether some line of `lines` stores an entry under `key`. */
  predicate Mentions(lines: seq<string>, key: string)
  {
    exists i :: 0 <= i < |lines| && SplitLine(lines[i]).Some? && SplitLine(lines[i]).value.0 == key
  }

  /** Keys no line mentions keep their values (or stay absent). */
  lemma {:induction false} UnmentionedKeysKept(kv: map<string, string>, lines: seq<string>, key: string)
    requires !Mentions(lines, key)
    ensures key in StoreLines(kv, lines) <==> key in kv
    ensures key in kv ==> StoreLines(kv, lines)[key] == kv[key]
    decreases |lines|
  {
    if lines != [] {
      assert !Mentions(lines[1..], key) by {
        forall i | 0 <= i < |lines[1..]|
          ensures !(SplitLine(lines[1..][i]).Some? && SplitLine(lines[1..][i]).value.0 == key)
        {
          assert lines[1..][i] == lines[i + 1];
        }
      }
      assert !(SplitLine(lines[0]).Some? && SplitLine(lines[0]).value.0 == key);
      UnmentionedKeysKept(StoreLine(kv, lines[0]), lines[1..], key);
    }
  }

  /** Reading lines in two batches is reading them all: a later line overrides an earlier one. */
  lemma {:induction false} StoreLinesAppend(kv: map<string, string>, a: seq<string>, b: seq<string>)
    ensures StoreLines(kv, a + b) == StoreLines(StoreLines(kv, a), b)
    decreases |a|
  {
    if a == [] {
      assert a + b == b;
    } else {
      assert (a + b)[0] == a[0] && (a + b)[1..] == a[1..] + b;
      StoreLinesAppend(StoreLine(kv, a[0]), a[1..], b);
    }
  }

  /** Reading a single line is storing it. */
  lemma StoreSingleLine(kv: map<string, string>, line: string)
    ensures StoreLines(kv, [line]) == StoreLine(kv, line)
  {
    assert [line][1..] == [];
  }

  /** The last line that names a key decides its value. */
  lemma LastLineWins(kv: map<string, string>, lines: seq<string>, last: string, key: string, value: string)
    requires SplitLine(last) == Some((key, value))
    ensures StoreLines(kv, lines + [last]) == StoreLines(kv, lines)[key := value]
  {
    StoreLinesAppend(kv, lines, [last]);
    StoreSingleLine(StoreLines(kv, lines), last);
  }

  // ---------------------------------------------------------------- writing

  /** One entry as the settings form writes it: `${key}: ${value}`. */
  function EntryLine(entry: (string, string)): string
  {
    entry.0 + ": " + entry.1
  }

  function EntryLines(entries: seq<(string, string)>): (r: seq<string>)
    ensures |r| == |entries|
    decreases |entries|
  {
    if entries == [] then [] else [EntryLine(entries[0])] + EntryLines(entries[1..])
  }

  /** `Object.entries(props).map(...).join("\n")`. */
  function Serialise(entries: seq<(string, string)>): string
  {
    JsString.JoinWith(EntryLines(entries), '\n')
  }

  /** The entries written over `kv`, one after the other. */
  function Insert(kv: map<string, string>, entries: seq<(string, string)>): map<string, string>
    decreases |entries|
  {
    if entries == [] then kv else Insert(kv[entries[0].0 := entries[0].1], entries[1..])
  }

  /** Keys and values the format carries unchanged: no ':' or '\n', and no white space at either end. */
  predicate Writable(s: string)
  {
    ':' !in s && '\n' !in s && JsString.IsTrimmed(s)
  }

  /** A line with one ':' splits around it, the white space next to the ':' dropped. */
  lemma SplitAtOneColon(a: string, b: string)
    requires ':' !in a && ':' !in b
    ensures SplitLine(a + [':'] + b) == Some((JsString.TrimEnd(a), JsString.TrimStart(b)))
  {
    JavaString.SplitFirstAt(a, b, ':');
    assert JavaString.SplitFirst(b, ':').None?;
    assert JavaString.SplitAll(a + [':'] + b, ':') == [a, b];
  }

  lemma TrimsOfWritable(key: string, value: string)
    requires Writable(key) && Writable(value)
    ensures JsString.TrimEnd(key) == key
    ensures JsString.TrimStart([' '] + value) == value
  {
    assert ([' '] + value)[1..] == value;
  }

  lemma SplitEntryLine(key: string, value: string)
    requires Writable(key) && Writable(value)
    ensures SplitLine(EntryLine((key, value))) == Some((key, value))
  {
    var rest := [' '] + value;
    assert EntryLine((key, value)) == key + [':'] + rest;
    TrimsOfWritable(key, value);
    SplitAtOneColon(key, rest);
  }

  /** `key:` with nothing after it reads as `key` with an empty value. */
  lemma SplitBareKeyLine(key: string)
    requires Writable(key)
    ensures SplitLine(key + [':']) == Some((key, ""))
  {
    TrimsOfWritable(key, "");
    assert key + [':'] == key + [':'] + "";
    SplitAtOneColon(key, "");
  }

  /** Every entry of `entries` is Writable on both sides. */
  predicate AllWritable(entries: seq<(string, string)>)
  {
    forall i :: 0 <= i < |entries| ==> Writable(entries[i].0) && Writable(entries[i].1)
  }

  /** Reading lines that are each an entry line stores those entries in order. */
  lemma {:induction false} StoreEntryLines(kv: map<string, string>, entries: seq<(string, string)>)
    requires AllWritable(entries)
    ensures StoreLines(kv, EntryLines(entries)) == Insert(kv, entries)
    decreases |entries|
  {
    if entries != [] {
      var lines := EntryLines(entries);
      assert lines[0] == EntryLine(entries[0]) && lines[1..] == EntryLines(entries[1..]);
      assert Writable(entries[0].0) && Writable(entries[0].1);
      SplitEntryLine(entries[0].0, entries[0].1);
      assert AllWritable(entries[1..]) by {
        forall i | 0 <= i < |entries[1..]|
          ensures Writable(entries[1..][i].0) && Writable(entries[1..][i].1)
        {
          assert entries[1..][i] == entries[i + 1];
        }
      }
      StoreEntryLines(kv[entries[0].0 := entries[0].1], entries[1..]);
    }
  }

  /** The entry lines of `entries` end with that of its last entry. */
  lemma {:induction false} EntryLinesLast(entries: seq<(string, string)>)
    requires entries != []
    ensures EntryLines(entries) == EntryLines(entries[..|entries| - 1]) + [EntryLine(entries[|entries| - 1])]
    decreases |entries|
  {
    if |entries| > 1 {
      assert entries[1..][..|entries| - 2] == entries[..|entries| - 1][1..];
      EntryLinesLast(entries[1..]);
    }
  }

  /** An entry line starts with no white space, holds no '\n', and reads back as its entry once its end is trimmed. */
  lemma EntryLineShape(e: (string, string))
    requires Writable(e.0) && Writable(e.1)
    ensures EntryLine(e) != [] && !JsString.IsSpace(EntryLine(e)[0]) && '\n' !in EntryLine(e)
    ensures JsString.TrimEnd(EntryLine(e)) == (if e.1 == "" then e.0 + [':'] else EntryLine(e))
    ensures '\n' !in JsString.TrimEnd(EntryLine(e)) && JsString.TrimEnd(EntryLine(e)) != []
    ensures SplitLine(JsString.TrimEnd(EntryLine(e))) == Some(e)
  {
    var line := EntryLine(e);
    assert line[0] == if e.0 == "" then ':' else e.0[0];
    if e.1 == "" {
      assert line == e.0 + [':'] + [' '];
      assert line[..|line| - 1] == e.0 + [':'];
      SplitBareKeyLine(e.0);
    } else {
      assert line[|line| - 1] == e.1[|e.1| - 1];
      SplitEntryLine(e.0, e.1);
    }
  }

  /** The trim of the whole text only touches the end of the last entry line. */
  lemma TrimSerialised(entries: seq<(string, string)>)
    requires entries != [] && AllWritable(entries)
    ensures var n := |entries|;
            JsString.Trim(Serialise(entries))
              == JsString.JoinWith(EntryLines(entries[..n - 1]) + [JsString.TrimEnd(EntryLine(entries[n - 1]))], '\n')
  {
    var n := |entries|;
    EntryLinesLast(entries);
    EntryLineShape(entries[0]);
    EntryLineShape(entries[n - 1]);
    assert EntryLines(entries)[0] == EntryLine(entries[0]);
    JsString.TrimStartOfJoin(EntryLines(entries), '\n');
    JsString.TrimEndOfJoin(EntryLines(entries[..n - 1]), EntryLine(entries[n - 1]), '\n');
  }

  /** The lines readToKv visits in the serialised text: the entry lines, the last one trimmed at its end. */
  lemma TextLinesOfSerialised(entries: seq<(string, string)>)
    requires entries != [] && AllWritable(entries)
    ensures var n := |entries|;
            TextLines(Serialise(entries)) == EntryLines(entries[..n - 1]) + [JsString.TrimEnd(EntryLine(entries[n - 1]))]
  {
    var n := |entries|;
    var init := entries[..n - 1];
    AllWritablePrefix(entries);
    var readLines := EntryLines(init) + [JsString.TrimEnd(EntryLine(entries[n - 1]))];
    TrimSerialised(entries);
    EntryLineShape(entries[n - 1]);
    EntryLinesHaveNoNewline(init);
    assert forall i :: 0 <= i < |readLines| ==> '\n' !in readLines[i] by {
      forall i | 0 <= i < |readLines| ensures '\n' !in readLines[i] {
        if i < |EntryLines(init)| {
          assert readLines[i] == EntryLines(init)[i];
        }
      }
    }
    JsString.SplitOfJoin(readLines, '\n');
  }

  lemma {:induction false} EntryLinesHaveNoNewline(entries: seq<(string, string)>)
    requires AllWritable(entries)
    ensures forall i :: 0 <= i < |EntryLines(entries)| ==> '\n' !in EntryLines(entries)[i]
    decreases |entries|
  {
    if entries != [] {
      EntryLineShape(entries[0]);
      assert AllWritable(entries[1..]) by {
        forall i | 0 <= i < |entries[1..]|
          ensures Writable(entries[1..][i].0) && Writable(entries[1..][i].1)
        {
          assert entries[1..][i] == entries[i + 1];
        }
      }
      EntryLinesHaveNoNewline(entries[1..]);
    }
  }

  /**
   * Round trip: what the settings form writes, readToKv reads back as the
   * same entries, when keys and values contain no ':' or newline and have
   * no white space at either end. An empty last value loses the space
   * after its ':' to the trim of the whole text, and still reads back.
   */
  lemma SerialiseRoundTrip(kv: map<string, string>, entries: seq<(string, string)>)
    requires AllWritable(entries)
    ensures StoreLines(kv, TextLines(Serialise(entries))) == Insert(kv, entries)
  {
    if entries == [] {
      EmptyTextStoresNothing(kv);
    } else {
      var n := |entries|;
      var last := entries[n - 1];
      AllWritablePrefix(entries);
      TextLinesOfSerialised(entries);
      EntryLineShape(last);
      LastLineWins(kv, EntryLines(entries[..n - 1]), JsString.TrimEnd(EntryLine(last)), last.0, last.1);
      StoreEntryLines(kv, entries[..n - 1]);
      InsertLast(kv, entries);
    }
  }

  /** No entries write an empty text, which stores nothing. */
  lemma EmptyTextStoresNothing(kv: map<string, string>)
    ensures StoreLines(kv, TextLines(Serialise([]))) == kv
  {
    assert TextLines(Serialise([])) == [""];
    assert JavaString.SplitAll("", ':') == [""];
  }

  lemma AllWritablePrefix(entries: seq<(string, string)>)
    requires entries != [] && AllWritable(entries)
    ensures AllWritable(entries[..|entries| - 1])
    ensures Writable(entries[|entries| - 1].0) && Writable(entries[|entries| - 1].1)
  {
    var init := entries[..|entries| - 1];
    forall i | 0 <= i < |init| ensures Writable(init[i].0) && Writable(init[i].1) {
      assert init[i] == entries[i];
    }
  }

  lemma {:induction false} InsertLast(kv: map<string, string>, entries: seq<(string, string)>)
    requires entries != []
    ensures var n := |entries|;
            Insert(kv, entries) == Insert(kv, entries[..n - 1])[entries[n - 1].0 := entries[n - 1].1]
    decreases |entries|
  {
    if |entries| > 1 {
      assert entries[1..][..|entries| - 2] == entries[..|entries| - 1][1..];
      InsertLast(kv[entries[0].0 := entries[0].1], entries[1..]);
    }
  }

  // ---------------------------------------------------------------- guessed settings

  /**
   * fillGuessedSettings: a guessed screen size (width not -1) sets width
   * and height as decimal text; a non-empty guessed phone sets `phone`.
   * Nothing else changes.
   */
  function FillGuessedSettings(screenWidth: int, screenHeight: int, phoneType: Option<string>,
                               settings: map<string, string>): (r: map<string, string>)
    ensures screenWidth != -1 ==> "width" in r && "height" in r
    ensures forall k :: k in settings ==> k in r
    ensures forall k :: k in r && k !in {"width", "height", "phone"} ==> k in settings && r[k] == settings[k]
  {
    var sized := if screenWidth != -1 then
                   settings["width" := JavaString.IntToString(screenWidth)]["height" := JavaString.IntToString(screenHeight)]
                 else settings;
    if phoneType.Some? && phoneType.value != "" then sized["phone" := phoneType.value] else sized
  }

  /** The size written by fillGuessedSettings parses back to the guessed numbers, and a missing guess leaves the settings alone. */
  lemma GuessedSettingsReadBack(screenWidth: int, screenHeight: int, phoneType: Option<string>, settings: map<string, string>)
    requires JavaInt.IsInt(screenWidth) && JavaInt.IsInt(screenHeight)
    ensures var r := FillGuessedSettings(screenWidth, screenHeight, phoneType, settings);
            && (screenWidth != -1 ==> JavaString.ParseInt(r["width"]) == Some(screenWidth) && JavaString.ParseInt(r["height"]) == Some(screenHeight))
            && (screenWidth == -1 ==> ("width" in r <==> "width" in settings) && ("height" in r <==> "height" in settings))
            && (phoneType.Some? && phoneType.value != "" ==> r["phone"] == phoneType.value)
            && ((phoneType.None? || phoneType.value == "") && screenWidth == -1 ==> r == settings)
  {
    JavaString.ParseIntOfIntToString(screenWidth);
    JavaString.ParseIntOfIntToString(screenHeight);
  }
}
