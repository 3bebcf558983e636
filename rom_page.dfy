/**
 * script.js, the EmulatorJS ROM page: the extension list read from the
 * page's data attributes, the game name guessed from a file name or URL,
 * the ROM entry picked from a zip archive, whether the saved session is
 * offered, and the de-duplicated Myrient link list.
 */
module RomPage {
  import opened Wrappers
  import JavaString
  import JsString

  // ---- Extension list -------------------------------------------------

  /** `s.trim().toLowerCase()` (toLowerCase on ASCII letters). */
  function Clean(s: string): string
  {
    JavaString.Lower(JsString.Trim(s))
  }

  /** `.map(s => s.trim().toLowerCase())`. */
  function CleanAll(parts: seq<string>): (r: seq<string>)
    ensures |r| == |parts| && forall i :: 0 <= i < |r| ==> r[i] == Clean(parts[i])
  {
    seq(|parts|, i requires 0 <= i < |parts| => Clean(parts[i]))
  }

  /** `.filter(Boolean)`: drops empty strings, keeping order. */
  function NonEmpty(xs: seq<string>): (r: seq<string>)
    ensures forall e :: e in r <==> e in xs && e != []
  {
    if xs == [] then [] else (if xs[0] == [] then [] else [xs[0]]) + NonEmpty(xs[1..])
  }

  /** `exts`: the `data-exts` attribute, "nes,zip" when missing or empty, split on ',', cleaned, empties dropped. */
  function Exts(dataExts: Option<string>): seq<string>
  {
    var raw := if dataExts.None? || dataExts.value == [] then "nes,zip" else dataExts.value;
    NonEmpty(CleanAll(JavaString.SplitAll(raw, ',')))
  }

  /** `romExts`: the extensions other than "zip", in order. */
  function RomExts(exts: seq<string>): (r: seq<string>)
    ensures forall e :: e in r <==> e in exts && e != "zip"
  {
    if exts == [] then [] else (if exts[0] == "zip" then [] else [exts[0]]) + RomExts(exts[1..])
  }

  /** `primaryExt`: the first ROM extension, else "zip" if listed, else "nes". */
  function PrimaryExt(exts: seq<string>): (r: string)
  {
    var roms := RomExts(exts);
    if roms != [] then roms[0] else if "zip" in exts then "zip" else "nes"
  }

  lemma LowerCharIsSpace(c: char)
    ensures JsString.IsSpace(JavaString.LowerChar(c)) <==> JsString.IsSpace(c)
    ensures JavaString.LowerChar(JavaString.LowerChar(c)) == JavaString.LowerChar(c)
  {
  }

  /** A cleaned entry is trimmed and already lower-case. */
  lemma CleanIsClean(s: string)
    ensures JsString.IsTrimmed(Clean(s))
    ensures JavaString.Lower(Clean(s)) == Clean(s)
  {
    var t := JsString.TrimStart(s);
    var u := JsString.TrimEnd(t);
    assert u != [] ==> u[0] == t[0];
    var r := Clean(s);
    if r != [] {
      LowerCharIsSpace(u[0]);
      LowerCharIsSpace(u[|u| - 1]);
    }
    forall i | 0 <= i < |r|
      ensures JavaString.Lower(r)[i] == r[i]
    {
      LowerCharIsSpace(u[i]);
    }
  }

  /** Every listed extension is non-empty, trimmed and lower-case; none of the ROM extensions is "zip". */
  lemma ExtsWellFormed(dataExts: Option<string>)
    ensures forall e :: e in Exts(dataExts) ==>
              e != [] && JsString.IsTrimmed(e) && JavaString.Lower(e) == e
    ensures "zip" !in RomExts(Exts(dataExts))
  {
    var raw := if dataExts.None? || dataExts.value == [] then "nes,zip" else dataExts.value;
    var cleaned := CleanAll(JavaString.SplitAll(raw, ','));
    forall e | e in Exts(dataExts)
      ensures e != [] && JsString.IsTrimmed(e) && JavaString.Lower(e) == e
    {
      var i :| 0 <= i < |cleaned| && cleaned[i] == e;
      CleanIsClean(JavaString.SplitAll(raw, ',')[i]);
    }
  }

  /** The primary extension: a ROM extension when there is one, "zip" only when "zip" is the sole kind listed, "nes" when nothing is. */
  lemma PrimaryExtChoice(exts: seq<string>)
    ensures RomExts(exts) != [] ==> PrimaryExt(exts) in exts && PrimaryExt(exts) != "zip"
    ensures PrimaryExt(exts) == "zip" <==> RomExts(exts) == [] && "zip" in exts
    ensures PrimaryExt(exts) !in exts ==> PrimaryExt(exts) == "nes" && RomExts(exts) == []
    ensures exts != [] && exts[0] != "zip" ==> PrimaryExt(exts) == exts[0]
  {
    var roms := RomExts(exts);
    if roms != [] {
      assert roms[0] in roms;
    }
  }

  // ---- Game name --------------------------------------------------------

  function Last(parts: seq<string>): string
    requires parts != []
  {
    parts[|parts| - 1]
  }

  /** `fromUrl.split("#")[0].split("?")[0]`. */
  function StripQuery(s: string): string
  {
    JavaString.SplitAll(JavaString.SplitAll(s, '#')[0], '?')[0]
  }

  /** guessGameName: an empty input names nothing. */
  function GuessGameName(input: string): (r: string)
    ensures input == [] ==> r == []
  {
    if input == [] then []
    else
      var last := Last(JavaString.SplitAll(input, '/'));
      var fromUrl := if last != [] then last else input;
      var clean := StripQuery(fromUrl);
      var parts := JavaString.SplitAll(clean, '.');
      var kept := if |parts| > 1 then parts[..|parts| - 1] else parts;
      var joined := JsString.JoinWith(kept, '.');
      if joined != [] then joined else clean
  }

  /** No piece to split off: `split` gives the whole string. */
  lemma SplitNone(s: string, c: char)
    requires c !in s
    ensures JavaString.SplitAll(s, c) == [s]
  {
  }

  /** Without '#' or '?', nothing is cut. */
  lemma StripQueryPlain(s: string)
    requires '#' !in s && '?' !in s
    ensures StripQuery(s) == s
  {
    SplitNone(s, '#');
    SplitNone(s, '?');
  }

  /** Only the text after the last '/' counts, when there is some. */
  lemma GuessUsesLastSegment(dir: string, name: string)
    requires name != [] && '/' !in name
    ensures GuessGameName(dir + "/" + name) == GuessGameName(name)
  {
    JsString.SplitAllAppend(dir, name, '/');
    SplitNone(name, '/');
  }

  /** A name with one or more dots loses only its last extension: "a.b.nes" gives "a.b". */
  lemma GuessStripsLastExtension(base: string, ext: string)
    requires base != [] && '/' !in base && '#' !in base && '?' !in base
    requires '.' !in ext && '/' !in ext && '#' !in ext && '?' !in ext
    ensures GuessGameName(base + "." + ext) == base
  {
    var name := base + "." + ext;
    assert '/' !in name && '#' !in name && '?' !in name;
    SplitNone(name, '/');
    StripQueryPlain(name);
    JsString.SplitAllAppend(base, ext, '.');
    var parts := JavaString.SplitAll(name, '.');
    assert parts[..|parts| - 1] == JavaString.SplitAll(base, '.');
    JsString.JoinOfSplit(base, '.');
  }

  /** A name without a dot is kept whole; so is a dot file such as ".nes", whose stripped name would be empty. */
  lemma GuessKeepsUndotted(name: string, ext: string)
    requires name != [] && '/' !in name && '#' !in name && '?' !in name && '.' !in name
    requires '.' !in ext && '/' !in ext && '#' !in ext && '?' !in ext
    ensures GuessGameName(name) == name
    ensures GuessGameName("." + ext) == "." + ext
  {
    SplitNone(name, '/');
    StripQueryPlain(name);
    SplitNone(name, '.');
    var dot := "." + ext;
    assert '/' !in dot && '#' !in dot && '?' !in dot;
    SplitNone(dot, '/');
    StripQueryPlain(dot);
    assert dot == [] + ['.'] + ext;
    JsString.SplitAllAppend([], ext, '.');
    SplitNone([], '.');
  }

  /** A query string or fragment is cut off before the extension is removed. */
  lemma GuessCutsQuery(base: string, ext: string, query: string)
    requires base != [] && '/' !in base && '#' !in base && '?' !in base
    requires '.' !in ext && '/' !in ext && '#' !in ext && '?' !in ext
    requires '/' !in query && '#' !in query
    ensures GuessGameName(base + "." + ext + "?" + query) == base
  {
    var name := base + "." + ext;
    var full := name + "?" + query;
    assert '/' !in full && '#' !in full;
    assert full != [];
    SplitNone(full, '/');
    SplitNone(full, '#');
    JavaString.SplitFirstAt(name, query, '?');
    assert full == name + ['?'] + query;
    assert StripQuery(full) == name;
    GuessStripsLastExtension(base, ext);
    SplitNone(name, '/');
    StripQueryPlain(name);
  }

  // ---- Zip entry --------------------------------------------------------

  /** `name.toLowerCase().endsWith("." + ext)` for some ROM extension. */
  predicate HasRomExt(name: string, romExts: seq<string>)
  {
    exists e :: e in romExts && JavaString.EndsWith(JavaString.Lower(name), "." + e)
  }

  /** The test pickZipEntry applies: a ROM extension, or any file when no ROM extension is configured. */
  predicate Wanted(name: string, romExts: seq<string>, dirs: set<string>)
  {
    if romExts != [] then HasRomExt(name, romExts) else name !in dirs
  }

  /** pickZipEntry: the first entry passing the test, in the archive's order; `dirs` are the directory entries. */
  function PickZipEntry(names: seq<string>, romExts: seq<string>, dirs: set<string>): (r: Option<nat>)
    ensures r.None? <==> forall k :: 0 <= k < |names| ==> !Wanted(names[k], romExts, dirs)
    ensures r.Some? ==> r.value < |names| && Wanted(names[r.value], romExts, dirs)
                        && forall k :: 0 <= k < r.value ==> !Wanted(names[k], romExts, dirs)
  {
    if names == [] then None
    else if Wanted(names[0], romExts, dirs) then Some(0)
    else match PickZipEntry(names[1..], romExts, dirs)
      case None => None
      case Some(i) => Some(i + 1)
  }

  /** With no ROM extension configured, directories are never picked and the first file is. */
  lemma PickSkipsDirectories(names: seq<string>, dirs: set<string>)
    requires exists k :: 0 <= k < |names| && names[k] !in dirs
    ensures PickZipEntry(names, [], dirs).Some?
    ensures names[PickZipEntry(names, [], dirs).value] !in dirs
  {
  }

  /** Upper-case entries match too: "GAME.NES" is picked for the extension "nes". */
  lemma PickIgnoresCase(stem: string)
    ensures HasRomExt(stem + ".NES", ["nes"])
  {
    var name := stem + ".NES";
    var lowered := JavaString.Lower(name);
    var n := |lowered|;
    assert name[n - 4] == '.' && name[n - 3] == 'N' && name[n - 2] == 'E' && name[n - 1] == 'S';
    assert lowered[n - 4] == '.' && lowered[n - 3] == 'n' && lowered[n - 2] == 'e' && lowered[n - 1] == 's';
    assert lowered[n - 4..] == ".nes";
    assert "nes" in ["nes"] && JavaString.EndsWith(lowered, "." + "nes");
  }

  // ---- Saved session ----------------------------------------------------

  datatype Session = Session(core: string, url: string, source: string)

  /** `lastSession`: the stored session, offered only for this page's core and with a url. */
  function LastSession(data: Option<Session>, pageCore: string): (r: Option<Session>)
    ensures r.Some? <==> data.Some? && data.value.core == pageCore && data.value.url != []
    ensures r.Some? ==> r == data
  {
    if data.None? || data.value.core != pageCore || data.value.url == [] then None else data
  }

  // ---- Myrient list -----------------------------------------------------

  /** The hrefs kept from the matches so far: non-empty, not ending in '/', each once, in order of first occurrence. */
  function Kept(found: seq<string>): (r: seq<string>)
    ensures forall e :: e in r ==> e in found
  {
    if found == [] then []
    else
      var init := Kept(found[..|found| - 1]);
      var name := found[|found| - 1];
      if name == [] || JavaString.EndsWith(name, "/") || name in init then init else init + [name]
  }

  predicate Listable(name: string)
  {
    name != [] && !JavaString.EndsWith(name, "/")
  }

  /** The kept hrefs are exactly the listable ones found, each appearing once. */
  lemma {:induction false} KeptExactlyOnce(found: seq<string>)
    ensures forall e :: e in Kept(found) <==> e in found && Listable(e)
    ensures forall i, j :: 0 <= i < j < |Kept(found)| ==> Kept(found)[i] != Kept(found)[j]
    decreases |found|
  {
    if found != [] {
      var init := found[..|found| - 1];
      KeptExactlyOnce(init);
      assert found == init + [found[|found| - 1]];
    }
  }

  /** A list entry: `id` is its position in the list. */
  datatype Entry = Entry(id: nat, href: string)

  /** The link loop of fetchMyrientList, before titles and URLs are derived. */
  method CollectLinks(found: seq<string>) returns (list: seq<Entry>)
    ensures |list| == |Kept(found)|
    ensures forall k :: 0 <= k < |list| ==> list[k] == Entry(k, Kept(found)[k])
  {
    var seen: set<string> := {};
    list := [];
    var i := 0;
    while i < |found|
      invariant 0 <= i <= |found|
      invariant |list| == |Kept(found[..i])|
      invariant forall k :: 0 <= k < |list| ==> list[k] == Entry(k, Kept(found[..i])[k])
      invariant forall e :: e in seen <==> e in Kept(found[..i])
    {
      var name := found[i];
      assert found[..i + 1][..i] == found[..i];
      if !(name == [] || JavaString.EndsWith(name, "/")) && name !in seen {
        seen := seen + {name};
        list := list + [Entry(|list|, name)];
      }
      i := i + 1;
    }
    assert found[..i] == found;
  }
}
