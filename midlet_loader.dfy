/**
 * org.recompile.mobile.MIDletLoader: reading JAD and manifest
 * descriptors, deriving the app's name, icon, main class and id from the
 * `MIDlet-1` attribute, resource-name normalisation, the choice between
 * delegating a class and instrumenting it, and the call rewrite applied
 * while instrumenting.
 */
module MIDletLoader {
  import opened Wrappers
  import JavaString

  // ---------------------------------------------------------------- descriptors

  /**
   * parseDescriptorInto's variables between two lines: the key being
   * collected (null before the first key), the StringBuilder's text, and
   * the map being filled.
   */
  datatype Reader = Reader(key: Option<string>, value: string, out: map<string, string>)

  /** The entry that the key being collected contributes when flushed. */
  function Flush(r: Reader): map<string, string>
  {
    if r.key.Some? then r.out[r.key.value := JavaString.Trim(r.value)] else r.out
  }

  /** The reader once the key being collected has been stored: the value starts afresh. */
  function Flushed(r: Reader): (f: Reader)
    ensures f.out == Flush(r)
    ensures f.key == r.key && f.value == if r.key.Some? then [] else r.value
  {
    if r.key.Some? then Reader(r.key, [], Flush(r)) else r
  }

  /**
   * One line: blank lines are skipped; a line starting with a space
   * continues the value; any other line flushes the current key, clears
   * the value, and starts a new key when it holds a ':'. A line without
   * ':' keeps the old key, which is therefore stored again later.
   */
  function ReadLine(r: Reader, line: string): (s: Reader)
    ensures r.out.Keys <= s.out.Keys
    ensures JavaString.Trim(line) != [] && !JavaString.StartsWith(line, " ") ==> s.out == Flush(r)
  {
    if JavaString.Trim(line) == [] then r
    else if JavaString.StartsWith(line, " ") then r.(value := r.value + line[1..])
    else
      var flushed := Flushed(r);
      match JavaString.IndexOf(line, ':')
        case None => flushed
        case Some(i) =>
          Reader(Some(JavaString.Trim(line[..i])), flushed.value + JavaString.Trim(line[i + 1..]), flushed.out)
  }

  /** The reader after the given lines. */
  function ReadLines(r: Reader, lines: seq<string>): Reader
  {
    if lines == [] then r else ReadLine(ReadLines(r, lines[..|lines| - 1]), lines[|lines| - 1])
  }

  /** The map after the whole descriptor: the last key is flushed at the end. */
  function Descriptor(out: map<string, string>, lines: seq<string>): map<string, string>
  {
    Flush(ReadLines(Reader(None, [], out), lines))
  }

  lemma ReadLinesStep(r: Reader, lines: seq<string>, i: nat)
    requires i < |lines|
    ensures ReadLines(r, lines[..i + 1]) == ReadLine(ReadLines(r, lines[..i]), lines[i])
  {
    assert lines[..i + 1][..i] == lines[..i];
  }

  /** parseDescriptorInto over the descriptor's text. */
  method ParseDescriptorInto(text: string, keyValueMap: map<string, string>) returns (result: map<string, string>)
    ensures result == Descriptor(keyValueMap, JavaString.Lines(text))
  {
    result := ParseDescriptorLines(JavaString.Lines(text), keyValueMap);
  }

  /** parseDescriptorInto's loop over the lines the reader returns. */
  method ParseDescriptorLines(lines: seq<string>, keyValueMap: map<string, string>) returns (result: map<string, string>)
    ensures result == Descriptor(keyValueMap, lines)
  {
    var currentKey: Option<string> := None;
    var currentValue: string := [];
    result := keyValueMap;
    var n := 0;
    while n < |lines|
      invariant 0 <= n <= |lines|
      invariant ReadLines(Reader(None, [], keyValueMap), lines[..n]) == Reader(currentKey, currentValue, result)
    {
      ReadLinesStep(Reader(None, [], keyValueMap), lines, n);
      var line := lines[n];
      n := n + 1;
      if JavaString.Trim(line) == [] {
        continue;
      }
      if JavaString.StartsWith(line, " ") {
        currentValue := currentValue + line[1..];
      } else {
        if currentKey.Some? {
          result := result[currentKey.value := JavaString.Trim(currentValue)];
          currentValue := [];
        }
        var colonIndex := JavaString.IndexOf(line, ':');
        if colonIndex.Some? {
          currentKey := Some(JavaString.Trim(line[..colonIndex.value]));
          currentValue := currentValue + JavaString.Trim(line[colonIndex.value + 1..]);
        }
      }
    }
    assert lines[..|lines|] == lines;
    if currentKey.Some? {
      result := result[currentKey.value := JavaString.Trim(currentValue)];
    }
  }

  /** Blank lines change nothing. */
  lemma BlankLineSkipped(r: Reader, lines: seq<string>, line: string)
    requires JavaString.Trim(line) == []
    ensures ReadLines(r, lines + [line]) == ReadLines(r, lines)
  {
    assert (lines + [line])[..|lines|] == lines;
  }

  /** `key:value` with a plain key: the key and the value, each trimmed. */
  predicate PlainKey(k: string)
  {
    k != [] && ':' !in k && '\n' !in k && JavaString.IsTrimmed(k)
  }

  predicate PlainValue(v: string)
  {
    '\n' !in v && JavaString.IsTrimmed(v)
  }

  function EntryLine(k: string, v: string): string { k + ":" + v }

  /** Every entry has a plain key and a plain value. */
  predicate PlainEntries(entries: seq<(string, string)>)
  {
    entries == []
    || (PlainEntries(entries[..|entries| - 1])
        && PlainKey(entries[|entries| - 1].0) && PlainValue(entries[|entries| - 1].1))
  }

  function EntryLines(entries: seq<(string, string)>): (r: seq<string>)
    ensures |r| == |entries|
  {
    if entries == [] then [] else EntryLines(entries[..|entries| - 1]) + [EntryLine(entries[|entries| - 1].0, entries[|entries| - 1].1)]
  }

  /** The map after storing the entries in order: a repeated key keeps its last value. */
  function Stored(out: map<string, string>, entries: seq<(string, string)>): map<string, string>
  {
    if entries == [] then out
    else Stored(out, entries[..|entries| - 1])[entries[|entries| - 1].0 := entries[|entries| - 1].1]
  }

  lemma EntryLineSplit(k: string, v: string)
    requires PlainKey(k)
    ensures JavaString.IndexOf(EntryLine(k, v), ':') == Some(|k|)
    ensures EntryLine(k, v)[..|k|] == k && EntryLine(k, v)[|k| + 1..] == v
  {
    var line := EntryLine(k, v);
    assert line == k + [':'] + v;
    JavaString.SplitFirstAt(k, v, ':');
  }

  lemma EntryLineTrimmed(k: string, v: string)
    requires PlainKey(k) && PlainValue(v)
    ensures JavaString.Trim(EntryLine(k, v)) == EntryLine(k, v) != []
    ensures !JavaString.StartsWith(EntryLine(k, v), " ")
  {
    var line := EntryLine(k, v);
    assert line[0] == k[0];
    assert line[|line| - 1] == if v == [] then ':' else v[|v| - 1];
    JavaString.TrimOfTrimmed(line);
  }

  /** A non-blank line that does not start with a space and holds a ':' starts a new key. */
  lemma ReadKeyLine(r: Reader, line: string, i: nat)
    requires JavaString.Trim(line) != [] && !JavaString.StartsWith(line, " ")
    requires JavaString.IndexOf(line, ':') == Some(i)
    ensures ReadLine(r, line).key == Some(JavaString.Trim(line[..i]))
    ensures ReadLine(r, line).value == Flushed(r).value + JavaString.Trim(line[i + 1..])
    ensures ReadLine(r, line).out == Flush(r)
  {
  }

  /** Readers are equal when their parts are (stated apart, as whole-reader equalities are costly to prove). */
  lemma SameReader(a: Reader, b: Reader)
    requires a.key == b.key && a.value == b.value && a.out == b.out
    ensures a == b
  {
  }

  /** An entry line starts a new key, flushing the one before. */
  lemma ReadEntryLine(r: Reader, k: string, v: string)
    requires PlainKey(k) && PlainValue(v)
    requires r.key.Some? || r.value == []
    ensures var q := ReadLine(r, EntryLine(k, v)); q.key == Some(k) && q.value == v && q.out == Flush(r)
  {
    EntryLineTrimmed(k, v);
    EntryLineSplit(k, v);
    ReadKeyLine(r, EntryLine(k, v), |k|);
    JavaString.TrimOfTrimmed(k);
    JavaString.TrimOfTrimmed(v);
  }

  /** A continuation line adds its text after the leading space; a blank one adds nothing. */
  lemma ReadContinuationLine(r: Reader, more: string)
    ensures var q := ReadLine(r, " " + more);
            && q.key == r.key && q.out == r.out
            && q.value == if JavaString.Trim(" " + more) == [] then r.value else r.value + more
  {
    assert JavaString.StartsWith(" " + more, " ");
    assert (" " + more)[1..] == more;
  }

  lemma ReadAppend(r: Reader, lines: seq<string>, line: string)
    ensures ReadLines(r, lines + [line]) == ReadLine(ReadLines(r, lines), line)
  {
    assert (lines + [line])[..|lines|] == lines;
  }

  /**
   * After the entry lines, flushing the reader gives the entries stored in
   * order; the reader is either at a key or has collected nothing.
   */
  lemma {:induction false} ReadEntryPrefix(out: map<string, string>, entries: seq<(string, string)>)
    requires PlainEntries(entries)
    ensures var q := ReadLines(Reader(None, [], out), EntryLines(entries));
            (q.key.Some? || q.value == []) && Flush(q) == Stored(out, entries)
  {
    if entries != [] {
      var start := Reader(None, [], out);
      var init := entries[..|entries| - 1];
      var (k, v) := entries[|entries| - 1];
      assert EntryLines(entries) == EntryLines(init) + [EntryLine(k, v)];
      ReadEntryPrefix(out, init);
      ReadAppend(start, EntryLines(init), EntryLine(k, v));
      ReadEntryLine(ReadLines(start, EntryLines(init)), k, v);
      JavaString.TrimOfTrimmed(v);
    }
  }

  /**
   * A descriptor of plain `key:value` lines reads back as those entries,
   * stored in order, so a repeated key keeps its last value.
   */
  lemma ReadEntries(out: map<string, string>, entries: seq<(string, string)>)
    requires PlainEntries(entries)
    ensures Descriptor(out, EntryLines(entries)) == Stored(out, entries)
  {
    ReadEntryPrefix(out, entries);
  }

  /** Two lines from the initial reader. */
  lemma ReadTwoLines(out: map<string, string>, first: string, second: string)
    ensures ReadLines(Reader(None, [], out), [first, second])
            == ReadLine(ReadLine(Reader(None, [], out), first), second)
  {
    var start := Reader(None, [], out);
    assert [] + [first] == [first] && [first] + [second] == [first, second];
    ReadAppend(start, [], first);
    ReadAppend(start, [first], second);
  }

  /** A continuation line appends its text, minus the leading space, to the value. */
  lemma ContinuationAppends(out: map<string, string>, k: string, v: string, more: string)
    requires PlainKey(k) && PlainValue(v)
    ensures Descriptor(out, [EntryLine(k, v), " " + more]) == out[k := JavaString.Trim(v + more)]
  {
    var start := Reader(None, [], out);
    var p := ReadLine(start, EntryLine(k, v));
    var q := ReadLine(p, " " + more);
    ReadEntryLine(start, k, v);
    ReadContinuationLine(p, more);
    if JavaString.Trim(" " + more) == [] {
      TrimAppendBlank(v, more);
    }
    assert JavaString.Trim(q.value) == JavaString.Trim(v + more);
    FlushSome(q, k);
    ReadTwoLines(out, EntryLine(k, v), " " + more);
  }

  /** Flushing a reader that holds a key stores that key's trimmed value. */
  lemma FlushSome(q: Reader, k: string)
    requires q.key == Some(k)
    ensures Flush(q) == q.out[k := JavaString.Trim(q.value)]
  {
  }

  /** Appending only trimmable characters does not change the trimmed value. */
  lemma TrimAppendBlank(v: string, more: string)
    requires JavaString.IsTrimmed(v) && JavaString.Trim(" " + more) == []
    ensures JavaString.Trim(v + more) == v
  {
    BlankAllTrimmable(" " + more);
    assert forall i :: 0 <= i < |more| ==> more[i] == (" " + more)[i + 1];
    if v == [] {
      AllTrimmableTrimsEmpty(more);
      assert v + more == more;
    } else {
      var s := v + more;
      assert s[0] == v[0];
      TrimEndOfPadded(v, more);
    }
  }

  lemma BlankAllTrimmable(s: string)
    requires JavaString.Trim(s) == []
    ensures forall i :: 0 <= i < |s| ==> JavaString.IsTrimmable(s[i])
  {
  }

  lemma AllTrimmableTrimsEmpty(s: string)
    requires forall i :: 0 <= i < |s| ==> JavaString.IsTrimmable(s[i])
    ensures JavaString.Trim(s) == []
  {
  }

  lemma {:induction false} TrimEndOfPadded(v: string, more: string)
    requires v != [] && !JavaString.IsTrimmable(v[|v| - 1])
    requires forall i :: 0 <= i < |more| ==> JavaString.IsTrimmable(more[i])
    ensures JavaString.TrimEnd(v + more) == v
    decreases |more|
  {
    if more == [] {
      assert v + more == v;
    } else {
      var s := v + more;
      assert s[..|s| - 1] == v + more[..|more| - 1];
      TrimEndOfPadded(v, more[..|more| - 1]);
    }
  }

  /**
   * A non-continuation line without ':' flushes the current key and
   * clears the value but keeps the key, so the key is stored again with
   * an empty value at the end.
   */
  lemma LineWithoutColonEmptiesValue(out: map<string, string>, k: string, v: string, junk: string)
    requires PlainKey(k) && PlainValue(v)
    requires ':' !in junk && JavaString.Trim(junk) != [] && !JavaString.StartsWith(junk, " ")
    ensures Descriptor(out, [EntryLine(k, v), junk]) == out[k := []]
  {
    var q := ReadLines(Reader(None, [], out), [EntryLine(k, v), junk]);
    assert out[k := v][k := []] == out[k := []];
    ReadEntryThenColonFree(out, k, v, junk);
    assert JavaString.Trim(q.value) == [];
    FlushSome(q, k);
  }

  lemma ReadEntryThenColonFree(out: map<string, string>, k: string, v: string, junk: string)
    requires PlainKey(k) && PlainValue(v)
    requires ':' !in junk && JavaString.Trim(junk) != [] && !JavaString.StartsWith(junk, " ")
    ensures var q := ReadLines(Reader(None, [], out), [EntryLine(k, v), junk]);
            q.key == Some(k) && q.value == [] && q.out == out[k := v]
  {
    var start := Reader(None, [], out);
    ReadTwoLines(out, EntryLine(k, v), junk);
    ReadEntryLine(start, k, v);
    ReadColonFreeLine(ReadLine(start, EntryLine(k, v)), junk);
    JavaString.TrimOfTrimmed(v);
  }

  /** A line that is not blank, not a continuation and has no ':' only flushes. */
  lemma ReadColonFreeLine(r: Reader, line: string)
    requires JavaString.Trim(line) != [] && !JavaString.StartsWith(line, " ") && ':' !in line
    ensures var q := ReadLine(r, line); q.key == r.key && q.value == Flushed(r).value && q.out == Flush(r)
  {
  }

  // ---------------------------------------------------------------- ids and properties

  /** The characters the app-id pattern `[<>:"/\\|?*]` matches. */
  const Unsafe: set<char> := {'<', '>', ':', '"', '/', '\\', '|', '?', '*'}

  /** setAppId's replaceAll("_"): every unsafe character becomes '_'. */
  function SanitizeId(source: string): (r: string)
    ensures |r| == |source|
    ensures forall i :: 0 <= i < |source| ==> r[i] == if source[i] in Unsafe then '_' else source[i]
  {
    if source == [] then [] else [if source[0] in Unsafe then '_' else source[0]] + SanitizeId(source[1..])
  }

  /** A sanitised id holds no unsafe character, and sanitising it again changes nothing. */
  lemma SanitizeIdSafeAndIdempotent(source: string)
    ensures forall i :: 0 <= i < |SanitizeId(source)| ==> SanitizeId(source)[i] !in Unsafe
    ensures SanitizeId(SanitizeId(source)) == SanitizeId(source)
  {
    assert '_' !in Unsafe;
    var r := SanitizeId(source);
    var rr := SanitizeId(r);
    assert forall i :: 0 <= i < |r| ==> rr[i] == r[i];
  }

  class Loader {
    var name: string
    var icon: string
    var className: Option<string>
    var appId: string
    var properties: map<string, string>

    constructor ()
      ensures name == [] && icon == [] && className.None? && appId == [] && properties == map[]
    {
      name := [];
      icon := [];
      className := None;
      appId := [];
      properties := map[];
    }

    method SetAppId(source: string)
      modifies this`appId
      ensures appId == SanitizeId(source)
    {
      appId := SanitizeId(source);
    }

    /** setProperties: merge the new properties, then derive the MIDlet fields. */
    method SetProperties(newProperties: map<string, string>)
      modifies this
      ensures properties == old(properties) + newProperties
      ensures var parts := MIDletParts(properties);
              && (parts.None? ==> Fields() == old(Fields()))
              && (parts.Some? ==>
                    && name == parts.value.0 && icon == parts.value.1 && className == Some(parts.value.2)
                    && appId == if old(appId) == [] then SanitizeId(parts.value.0) else old(appId))
    {
      properties := properties + newProperties;
      HandleProperties();
    }

    /** The fields before handleProperties, as values. */
    function Fields(): (string, string, Option<string>, string)
      reads this
    {
      (name, icon, className, appId)
    }

    /**
     * handleProperties: a `MIDlet-1` value of exactly three comma-separated
     * parts gives the name, icon and class name (each trimmed); the id is
     * derived from the name only when it was still empty. Anything else
     * changes nothing.
     */
    method HandleProperties()
      modifies this`name, this`icon, this`className, this`appId
      ensures var parts := MIDletParts(properties);
              && (parts.None? ==> Fields() == old(Fields()))
              && (parts.Some? ==>
                    && name == parts.value.0 && icon == parts.value.1 && className == Some(parts.value.2)
                    && appId == if old(appId) == [] then SanitizeId(parts.value.0) else old(appId))
    {
      if "MIDlet-1" in properties {
        var val := properties["MIDlet-1"];
        var parts := JavaString.Split(val, ',');
        if |parts| == 3 {
          name := JavaString.Trim(parts[0]);
          icon := JavaString.Trim(parts[1]);
          className := Some(JavaString.Trim(parts[2]));
          if appId == [] {
            SetAppId(name);
          }
        }
      }
    }
  }

  /** The trimmed name, icon and class of a well-formed `MIDlet-1` attribute. */
  function MIDletParts(properties: map<string, string>): (r: Option<(string, string, string)>)
    ensures r.Some? ==> "MIDlet-1" in properties && |JavaString.Split(properties["MIDlet-1"], ',')| == 3
    ensures ("MIDlet-1" in properties && |JavaString.Split(properties["MIDlet-1"], ',')| == 3) ==> r.Some?
  {
    if "MIDlet-1" !in properties then None
    else
      var parts := JavaString.Split(properties["MIDlet-1"], ',');
      if |parts| == 3 then Some((JavaString.Trim(parts[0]), JavaString.Trim(parts[1]), JavaString.Trim(parts[2])))
      else None
  }

  // ---------------------------------------------------------------- resources and classes

  /** getResource / getResourceAsStream: drop at most two leading '/'. */
  function StripLeadingSlashes(resource: string): (r: string)
    ensures |resource| - 2 <= |r| <= |resource| && r == resource[|resource| - |r|..]
    ensures forall i :: 0 <= i < |resource| - |r| ==> resource[i] == '/'
    ensures |r| > |resource| - 2 ==> !JavaString.StartsWith(r, "/")
  {
    if JavaString.StartsWith(resource, "/") then
      var once := resource[1..];
      if JavaString.StartsWith(once, "/") then once[1..] else once
    else resource
  }

  /** The name prefixes loadClass leaves to the parent loader. */
  const DelegatedPrefixes: seq<string> := [
    "java.", "javax.", "com.nokia", "com.mascotcapsule", "com.samsung", "sun.",
    "com.siemens", "org.recompile", "jdk.", "com.vodafone.", "com.jblend.", "com.motorola.",
    "com.sprintpcs.", "org."]

  /** How loadClass obtains a class it has not loaded yet. */
  datatype ClassSource = Delegate | Instrument(resource: string)

  function ClassSourceOf(name: string): (r: ClassSource)
    ensures r == Delegate <==> exists i :: 0 <= i < |DelegatedPrefixes| && JavaString.StartsWith(name, DelegatedPrefixes[i])
    ensures r.Instrument? ==> r.resource == JavaString.ReplaceChar(name, '.', '/') + ".class"
  {
    if exists i :: 0 <= i < |DelegatedPrefixes| && JavaString.StartsWith(name, DelegatedPrefixes[i]) then Delegate
    else Instrument(JavaString.ReplaceChar(name, '.', '/') + ".class")
  }

  /** The "org." prefix already covers every org.* package, org.recompile included. */
  lemma OrgPackagesDelegated(name: string)
    requires JavaString.StartsWith(name, "org.")
    ensures ClassSourceOf(name) == Delegate
  {
    assert JavaString.StartsWith(name, DelegatedPrefixes[13]);
  }

  // ---------------------------------------------------------------- call rewrite

  const INVOKEVIRTUAL: int := 182
  const INVOKESTATIC: int := 184

  /** A method call instruction as ASM reports it to visitMethodInsn. */
  datatype MethodInsn = MethodInsn(opcode: int, owner: string, name: string, desc: string)

  const MobileOwner: string := "org/recompile/mobile/Mobile"
  const ResourceAsStreamDesc: string := "(Ljava/lang/Class;Ljava/lang/String;)Ljava/io/InputStream;"

  predicate IsClassResourceCall(insn: MethodInsn)
  {
    insn.opcode == INVOKEVIRTUAL && insn.name == "getResourceAsStream" && insn.owner == "java/lang/Class"
  }

  predicate IsSiemensSetListener(insn: MethodInsn)
  {
    insn.opcode == INVOKESTATIC && insn.name == "setListener" && insn.owner == "com/siemens/mp/io/Connection"
  }

  /**
   * visitMethodInsn: Class.getResourceAsStream becomes a static call on
   * Mobile, the Siemens Connection.setListener becomes setListenerCompat,
   * and every other call is passed on unchanged.
   */
  function Rewrite(insn: MethodInsn): (r: MethodInsn)
    ensures IsClassResourceCall(insn) ==> r == MethodInsn(INVOKESTATIC, MobileOwner, insn.name, ResourceAsStreamDesc)
    ensures IsSiemensSetListener(insn) ==> r == insn.(name := "setListenerCompat")
    ensures !IsClassResourceCall(insn) && !IsSiemensSetListener(insn) ==> r == insn
  {
    if IsClassResourceCall(insn) then MethodInsn(INVOKESTATIC, MobileOwner, insn.name, ResourceAsStreamDesc)
    else if IsSiemensSetListener(insn) then insn.(name := "setListenerCompat")
    else insn
  }

  /** A rewritten call is not rewritten again. */
  lemma RewriteIdempotent(insn: MethodInsn)
    ensures Rewrite(Rewrite(insn)) == Rewrite(insn)
  {
    if IsClassResourceCall(insn) {
      assert Rewrite(insn).opcode == INVOKESTATIC;
      assert Rewrite(insn).name == "getResourceAsStream";
      assert "getResourceAsStream" != "setListener";
    } else if IsSiemensSetListener(insn) {
      assert "setListenerCompat" != "setListener";
    }
  }
}
