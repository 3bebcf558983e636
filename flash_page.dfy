/**
 * flash-player.js, the Ruffle page: the key events the virtual pad sends,
 * the offline game list and its search, the path of an offline game, and
 * the choice handleLoad makes between a chosen file and a typed URL.
 * JavaScript's `||` picks the first truthy string; an absent or empty
 * string is falsy, written here as None or "".
 */
module FlashPage {
  import opened Wrappers
  import JavaString
  import JsString

  // ---- Virtual pad ------------------------------------------------------

  /** toKeyPayload: the `key` sent with a pad button's `code` (toLowerCase on ASCII letters). */
  function ToKeyPayload(code: string): (r: (string, string))
    ensures r.1 == code
    ensures code == "Space" ==> r.0 == " "
    ensures code != "Space" && JavaString.StartsWith(code, "Key") ==> r.0 == JavaString.Lower(code[3..])
    ensures code != "Space" && !JavaString.StartsWith(code, "Key") ==> r.0 == code
  {
    if code == "Space" then (" ", code)
    else if JavaString.StartsWith(code, "Key") then (JavaString.Lower(code[3..]), code)
    else (code, code)
  }

  /** The letter keys send their lower-case letter: "KeyZ" sends "z". */
  lemma LetterKeyPayload(c: char)
    requires 'A' <= c <= 'Z'
    ensures ToKeyPayload("Key" + [c]).0 == [(c as int + 32) as char]
  {
    var code := "Key" + [c];
    assert JavaString.StartsWith(code, "Key");
    assert code[3..] == [c];
  }

  /** Codes that are neither "Space" nor "Key…", such as "ArrowLeft" or "Enter", are sent as their own key. */
  lemma OtherCodesAreTheirOwnKey()
    ensures ToKeyPayload("ArrowLeft").0 == "ArrowLeft"
    ensures ToKeyPayload("Enter").0 == "Enter"
  {
    assert !JavaString.StartsWith("ArrowLeft", "Key") by { assert "ArrowLeft"[..3] == "Arr"; }
    assert !JavaString.StartsWith("Enter", "Key") by { assert "Enter"[..3] == "Ent"; }
  }

  // ---- Offline list -----------------------------------------------------

  function Truthy(s: Option<string>): bool
  {
    s.Some? && s.value != []
  }

  /** `a || b`. */
  function Or(a: Option<string>, b: string): string
  {
    if Truthy(a) then a.value else b
  }

  /** An item of index.json. */
  datatype Item = Item(title: Option<string>, name: Option<string>, file: Option<string>, path: Option<string>)

  datatype LocalEntry = LocalEntry(id: nat, title: string, file: string)

  /** The entry built for item `idx`. */
  function EntryOf(item: Item, idx: nat): (r: LocalEntry)
    ensures r.id == idx && r.title != []
  {
    LocalEntry(idx, Or(item.title, Or(item.name, Or(item.file, "Game " + JavaString.NatToString(idx + 1)))),
               Or(item.file, Or(item.path, "")))
  }

  /** `json.map((item, idx) => …)`. */
  function Mapped(items: seq<Item>): (r: seq<LocalEntry>)
    ensures |r| == |items| && forall i :: 0 <= i < |r| ==> r[i] == EntryOf(items[i], i)
  {
    seq(|items|, i requires 0 <= i < |items| => EntryOf(items[i], i))
  }

  /** `.filter((it) => it.file)`, keeping order. */
  function WithFile(entries: seq<LocalEntry>): (r: seq<LocalEntry>)
    ensures forall e :: e in r <==> e in entries && e.file != []
  {
    if entries == [] then []
    else (if entries[0].file != [] then [entries[0]] else []) + WithFile(entries[1..])
  }

  /** loadLocalList: every item mapped with its index, those without a file dropped. */
  function LocalList(items: seq<Item>): seq<LocalEntry>
  {
    WithFile(Mapped(items))
  }

  /** Filtering keeps the ids increasing. */
  lemma {:induction false} WithFileOrdered(entries: seq<LocalEntry>)
    requires forall i, j :: 0 <= i < j < |entries| ==> entries[i].id < entries[j].id
    ensures forall i, j :: 0 <= i < j < |WithFile(entries)| ==> WithFile(entries)[i].id < WithFile(entries)[j].id
    decreases |entries|
  {
    if entries != [] {
      WithFileOrdered(entries[1..]);
      var rest := WithFile(entries[1..]);
      forall k | 0 <= k < |rest|
        ensures entries[0].id < rest[k].id
      {
        assert rest[k] in entries[1..];
      }
    }
  }

  /**
   * An item is listed exactly when it has a file or a path, once, under its
   * own index, with that file; the list keeps the order of index.json.
   */
  lemma ListedIffFile(items: seq<Item>, idx: nat)
    requires idx < |items|
    ensures (exists e :: e in LocalList(items) && e.id == idx) <==> Truthy(items[idx].file) || Truthy(items[idx].path)
    ensures forall e :: e in LocalList(items) ==> e.id < |items| && e == EntryOf(items[e.id], e.id) && e.file != []
    ensures forall i, j :: 0 <= i < j < |LocalList(items)| ==> LocalList(items)[i].id < LocalList(items)[j].id
  {
    var m := Mapped(items);
    WithFileOrdered(m);
    assert m[idx] in m;
    forall e | e in LocalList(items)
      ensures e.id < |items| && e == EntryOf(items[e.id], e.id)
    {
      var i :| 0 <= i < |m| && m[i] == e;
    }
  }

  /** The title falls back from title to name to file to "Game <idx+1>". */
  lemma TitleFallback(idx: nat)
    ensures EntryOf(Item(None, None, Some("a.swf"), None), idx).title == "a.swf"
    ensures EntryOf(Item(Some(""), Some("Name"), Some("a.swf"), None), idx).title == "Name"
    ensures EntryOf(Item(None, None, None, Some("p.swf")), idx).title == "Game " + JavaString.NatToString(idx + 1)
    ensures EntryOf(Item(None, None, None, Some("p.swf")), idx).file == "p.swf"
  {
  }

  // ---- Search -----------------------------------------------------------

  /** handleLocalSearch: the entries of the full list whose lower-cased title contains the lower-cased query. */
  function Search(list: seq<LocalEntry>, q: string): (r: seq<LocalEntry>)
    ensures forall e :: e in r <==> e in list && JavaString.Contains(JavaString.Lower(e.title), JavaString.Lower(q))
    ensures |r| <= |list|
  {
    if list == [] then []
    else (if JavaString.Contains(JavaString.Lower(list[0].title), JavaString.Lower(q)) then [list[0]] else [])
         + Search(list[1..], q)
  }

  /** An empty query shows the whole list, in order. */
  lemma {:induction false} EmptyQueryShowsAll(list: seq<LocalEntry>)
    ensures Search(list, "") == list
  {
    if list != [] {
      assert JavaString.OccursAt(JavaString.Lower(list[0].title), "", 0);
      EmptyQueryShowsAll(list[1..]);
    }
  }

  /** Searching for "MARIO" and for "mario" give the same entries. */
  lemma SearchIgnoresCase(list: seq<LocalEntry>, q: string)
    ensures Search(list, JavaString.Lower(q)) == Search(list, q)
  {
    LowerIdempotent(q);
  }

  lemma LowerIdempotent(s: string)
    ensures JavaString.Lower(JavaString.Lower(s)) == JavaString.Lower(s)
  {
  }

  // ---- Paths ------------------------------------------------------------

  const LocalBase := "./local-games/flash/"

  /** /^https?:\/\//i */
  predicate IsHttpUrl(p: string)
  {
    JavaString.StartsWith(JavaString.Lower(p), "http://") || JavaString.StartsWith(JavaString.Lower(p), "https://")
  }

  /** The prefix decision of handleLocalPlay, on the path as stored. */
  function Prefixed(filePath: string): string
  {
    if IsHttpUrl(filePath) || JavaString.StartsWith(filePath, "/") then filePath
    else if JavaString.StartsWith(filePath, "local-games/flash/") then "./" + filePath
    else LocalBase + filePath
  }

  /** handleLocalPlay: the URL loaded for an offline entry; backslashes become '/' after the prefix decision. */
  function LocalUrl(filePath: string): (r: string)
    ensures '\\' !in r
  {
    JavaString.ReplaceChar(Prefixed(filePath), '\\', '/')
  }

  lemma NoBackslashUnchanged(s: string)
    requires '\\' !in s
    ensures JavaString.ReplaceChar(s, '\\', '/') == s
  {
  }

  lemma ReplaceCharAppend(a: string, b: string)
    ensures JavaString.ReplaceChar(a + b, '\\', '/') == JavaString.ReplaceChar(a, '\\', '/') + JavaString.ReplaceChar(b, '\\', '/')
  {
    var l := JavaString.ReplaceChar(a + b, '\\', '/');
    var r := JavaString.ReplaceChar(a, '\\', '/') + JavaString.ReplaceChar(b, '\\', '/');
    forall i | 0 <= i < |l|
      ensures l[i] == r[i]
    {
      if i >= |a| {
        assert (a + b)[i] == b[i - |a|];
      }
    }
  }

  /** A path starting with a letter other than 'h' or 'H' is not an http(s) URL. */
  lemma NotHttp(p: string)
    requires p != [] && p[0] != 'h' && p[0] != 'H'
    ensures !IsHttpUrl(p)
  {
    assert JavaString.Lower(p)[0] == JavaString.LowerChar(p[0]);
  }

  /** An https URL is loaded as it is. */
  lemma LocalUrlOfUrl(rest: string)
    requires '\\' !in rest
    ensures LocalUrl("https://" + rest) == "https://" + rest
  {
    var u := "https://" + rest;
    var lu := JavaString.Lower(u);
    forall i | 0 <= i < 8
      ensures lu[i] == "https://"[i]
    {
      assert u[i] == "https://"[i];
    }
    assert lu[..8] == "https://";
    NoBackslashUnchanged(u);
  }

  /** An absolute path is loaded as it is. */
  lemma LocalUrlOfAbsolute(rest: string)
    requires '\\' !in rest
    ensures LocalUrl("/" + rest) == "/" + rest
  {
    assert ("/" + rest)[..1] == "/";
    NoBackslashUnchanged("/" + rest);
  }

  lemma StartsWithAppend(p: string, rest: string)
    ensures JavaString.StartsWith(p + rest, p)
  {
    assert (p + rest)[..|p|] == p;
  }

  lemma NotStartsWithAt(s: string, p: string, i: nat)
    requires i < |p| && i < |s| && s[i] != p[i]
    ensures !JavaString.StartsWith(s, p)
  {
    if |p| <= |s| {
      assert s[..|p|][i] == s[i];
    }
  }

  /** A path under the offline folder is made relative to the page. */
  lemma LocalUrlOfSiteRelative(rest: string)
    requires '\\' !in rest
    ensures LocalUrl("local-games/flash/" + rest) == "./" + "local-games/flash/" + rest
  {
    var dir := "local-games/flash/";
    var l := dir + rest;
    StartsWithAppend(dir, rest);
    assert l[0] == 'l';
    NotHttp(l);
    NotStartsWithAt(l, "/", 0);
    assert Prefixed(l) == "./" + l;
    assert '\\' !in dir;
    assert '\\' !in "./" + l;
    NoBackslashUnchanged("./" + l);
  }

  /** No relative path with a backslash among its first 18 characters starts with the offline folder. */
  lemma BackslashNotInFolder(p: string, i: nat)
    requires i < 18 && i < |p| && p[i] == '\\'
    requires p[0] != '/' && p[0] != 'h' && p[0] != 'H'
    ensures Prefixed(p) == LocalBase + p
  {
    var folder := "local-games/flash/";
    assert folder[i] != '\\';
    NotHttp(p);
    NotStartsWithAt(p, "/", 0);
    NotStartsWithAt(p, folder, i);
  }

  /** A relative path with a backslash among its first 18 characters gets the base prefix. */
  lemma BackslashPathsGetBase(p: string, i: nat)
    requires i < 18 && i < |p| && p[i] == '\\'
    requires p[0] != '/' && p[0] != 'h' && p[0] != 'H'
    ensures LocalUrl(p) == LocalBase + JavaString.ReplaceChar(p, '\\', '/')
  {
    BackslashNotInFolder(p, i);
    ReplaceCharAppend(LocalBase, p);
    NoBackslashUnchanged(LocalBase);
  }

  /**
   * So a path naming the offline folder with backslashes gets the folder
   * twice: "local-games\\flash\\a.swf" loads
   * "./local-games/flash/local-games/flash/a.swf".
   */
  lemma BackslashFolderDoubled(p: string, i: nat)
    requires i < 18 <= |p| && p[i] == '\\'
    requires p[0] != '/' && p[0] != 'h' && p[0] != 'H'
    requires JavaString.ReplaceChar(p[..18], '\\', '/') == "local-games/flash/"
    ensures LocalUrl(p) == LocalBase + "local-games/flash/" + JavaString.ReplaceChar(p[18..], '\\', '/')
  {
    BackslashPathsGetBase(p, i);
    var head, tail := p[..18], p[18..];
    assert p == head + tail;
    ReplaceCharAppend(head, tail);
    var r := JavaString.ReplaceChar(tail, '\\', '/');
    assert LocalUrl(p) == LocalBase + ("local-games/flash/" + r);
  }

  // ---- Loading ----------------------------------------------------------

  datatype LoadAction = NotSwf | LoadFile(name: string) | LoadUrl(url: string) | NothingChosen

  /** The extension handleLoad checks: the text after the last '.', lower-cased (the whole name when it has none). */
  function FileExt(name: string): string
  {
    var parts := JavaString.SplitAll(name, '.');
    JavaString.Lower(parts[|parts| - 1])
  }

  /** handleLoad: a chosen file wins over the typed URL; it is loaded only with the extension "swf". */
  function HandleLoad(file: Option<string>, urlValue: string): (r: LoadAction)
    ensures file.Some? ==> (r == LoadFile(file.value) <==> FileExt(file.value) == "swf")
    ensures file.Some? ==> r.NotSwf? || r.LoadFile?
    ensures file.None? && JsString.Trim(urlValue) != [] ==> r == LoadUrl(JsString.Trim(urlValue))
    ensures file.None? && JsString.Trim(urlValue) == [] ==> r == NothingChosen
  {
    if file.Some? then
      if FileExt(file.value) != "swf" then NotSwf else LoadFile(file.value)
    else
      var url := JsString.Trim(urlValue);
      if url != [] then LoadUrl(url) else NothingChosen
  }

  /** The extension checked is the text after the last dot, lower-cased. */
  lemma FileExtOf(stem: string, ext: string)
    requires '.' !in ext
    ensures FileExt(stem + "." + ext) == JavaString.Lower(ext)
  {
    JsString.SplitAllAppend(stem, ext, '.');
  }

  lemma LowerSwf()
    ensures JavaString.Lower("SWF") == "swf"
  {
    var l := JavaString.Lower("SWF");
    assert l[0] == 's' && l[1] == 'w' && l[2] == 'f';
  }

  /** The last extension decides, in any case: "game.SWF" is accepted. */
  lemma UpperCaseSwfAccepted(stem: string)
    ensures HandleLoad(Some(stem + ".SWF"), "") == LoadFile(stem + ".SWF")
  {
    FileExtOf(stem, "SWF");
    assert stem + ".SWF" == stem + "." + "SWF";
    LowerSwf();
  }

  /** Only the last extension counts: "game.swf.zip" is rejected. */
  lemma InnerSwfRejected(stem: string)
    ensures HandleLoad(Some(stem + ".swf.zip"), "").NotSwf?
  {
    FileExtOf(stem + ".swf", "zip");
    assert stem + ".swf.zip" == stem + ".swf" + "." + "zip";
    assert JavaString.Lower("zip")[0] == 'z';
  }
}
