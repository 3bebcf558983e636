/**
 * pl.zb3.freej2me.launcher.LauncherUtil: the installed-apps bookkeeping.
 * The `apps.list` file is held as its lines (None while the file does
 * not exist); copying jars, icons and directories is not modelled.
 */
module LauncherUtil {
  import opened Wrappers
  import JavaString
  import MIDletLoader
  import Config

  // ---------------------------------------------------------------- ensureAppId

  /** The path with its trailing '/' characters removed. */
  function DropTrailingSlashes(path: string): (r: string)
    ensures |r| <= |path| && r == path[..|r|]
    ensures r == [] || r[|r| - 1] != '/'
    ensures forall i :: |r| <= i < |path| ==> path[i] == '/'
  {
    if path == [] || path[|path| - 1] != '/' then path
    else DropTrailingSlashes(path[..|path| - 1])
  }

  /** The characters after the last '/' of `t`. */
  function AfterLastSlash(t: string): (r: string)
    ensures '/' !in r
    ensures |r| <= |t| && r == t[|t| - |r|..]
    ensures |r| < |t| ==> t[|t| - |r| - 1] == '/'
  {
    if t == [] || t[|t| - 1] == '/' then []
    else AfterLastSlash(t[..|t| - 1]) + [t[|t| - 1]]
  }

  /**
   * Paths.get(path).getFileName() on a Unix file system: the last non-empty
   * component; the empty path names itself, and a path of slashes only has
   * no file name (null).
   */
  function FileName(path: string): (r: Option<string>)
    ensures r.None? <==> path != [] && forall i :: 0 <= i < |path| ==> path[i] == '/'
    ensures r.Some? ==> '/' !in r.value
  {
    var t := DropTrailingSlashes(path);
    if t == [] then (if path == [] then Some([]) else None)
    else Some(AfterLastSlash(t))
  }

  /** The file name of `dir/name` is `name`, however many slashes follow it. */
  lemma FileNameOfChild(dir: string, name: string, slashes: nat)
    requires name != [] && '/' !in name
    ensures FileName(dir + "/" + name + seq(slashes, _ => '/')) == Some(name)
  {
    var path := dir + "/" + name + seq(slashes, _ => '/');
    var t := dir + "/" + name;
    assert path[..|t|] == t;
    assert name[|name| - 1] != '/';
    assert DropTrailingSlashes(path) == t by {
      SlashSuffix(t, slashes);
    }
    AfterSlash(dir, name);
  }

  /** What follows the last '/' of `dir/name` is `name`. */
  lemma {:induction false} AfterSlash(dir: string, name: string)
    requires '/' !in name
    ensures AfterLastSlash(dir + "/" + name) == name
  {
    if name != [] {
      var t := dir + "/" + name;
      assert t[..|t| - 1] == dir + "/" + name[..|name| - 1];
      AfterSlash(dir, name[..|name| - 1]);
    }
  }

  /** Dropping trailing slashes from `t` followed by slashes gives `t`, when `t` ends otherwise. */
  lemma {:induction false} SlashSuffix(t: string, slashes: nat)
    requires t != [] && t[|t| - 1] != '/'
    ensures DropTrailingSlashes(t + seq(slashes, _ => '/')) == t
  {
    if slashes > 0 {
      var path := t + seq(slashes, _ => '/');
      assert path[..|path| - 1] == t + seq(slashes - 1, _ => '/');
      SlashSuffix(t, slashes - 1);
    } else {
      assert t + seq(0, _ => '/') == t;
    }
  }

  /** The id a jar without a descriptor gets: its file name with '.' replaced by '_'. */
  function FallbackId(fileName: string): (r: Option<string>)
    ensures r.Some? <==> FileName(fileName).Some?
    ensures r.Some? ==> '.' !in r.value && '/' !in r.value && |r.value| == |FileName(fileName).value|
  {
    match FileName(fileName)
    case None => None
    case Some(n) => Some(JavaString.ReplaceChar(n, '.', '_'))
  }

  /**
   * ensureAppId: an empty id is replaced by the sanitised fallback id; any
   * other id is kept. `ok` is false when the path has no file name, where
   * the source throws a NullPointerException.
   */
  method EnsureAppId(loader: MIDletLoader.Loader, fileName: string) returns (ok: bool)
    modifies loader`appId
    ensures old(loader.appId) != [] ==> ok && loader.appId == old(loader.appId)
    ensures old(loader.appId) == [] ==>
              ok == FallbackId(fileName).Some? &&
              loader.appId == if ok then MIDletLoader.SanitizeId(FallbackId(fileName).value) else []
  {
    ok := true;
    if loader.appId == [] {
      var id := FallbackId(fileName);
      if id.None? {
        return false;
      }
      loader.SetAppId(id.value);
    }
  }

  /** Sanitising a name without '.' leaves neither '.' nor an unsafe character. */
  lemma SanitizedDotFree(n: string)
    requires '.' !in n
    ensures var id := MIDletLoader.SanitizeId(n);
            forall i :: 0 <= i < |id| ==> id[i] != '.' && id[i] !in MIDletLoader.Unsafe
  {
    var id := MIDletLoader.SanitizeId(n);
    assert '_' !in MIDletLoader.Unsafe;
    forall i | 0 <= i < |id|
      ensures id[i] != '.' && id[i] !in MIDletLoader.Unsafe
    {
      assert n[i] != '.';
    }
  }

  /** The fallback id holds neither '.' nor any character the id sanitiser rewrites. */
  lemma FallbackIdIsClean(fileName: string)
    requires FallbackId(fileName).Some?
    ensures var id := MIDletLoader.SanitizeId(FallbackId(fileName).value);
            forall i :: 0 <= i < |id| ==> id[i] != '.' && id[i] !in MIDletLoader.Unsafe
  {
    SanitizedDotFree(FallbackId(fileName).value);
  }

  // ---------------------------------------------------------------- apps.list

  /** The index of the first occurrence of `x` (List.indexOf). */
  function FirstIndex<T(==)>(xs: seq<T>, x: T): (i: nat)
    requires x in xs
    ensures i < |xs| && xs[i] == x
    ensures forall j :: 0 <= j < i ==> xs[j] != x
  {
    if xs[0] == x then 0 else 1 + FirstIndex(xs[1..], x)
  }

  /** List.remove(Object): the list without the first occurrence of `x`, if any. */
  function RemoveFirst<T(==)>(xs: seq<T>, x: T): (r: seq<T>)
    ensures |r| == if x in xs then |xs| - 1 else |xs|
  {
    if xs == [] then []
    else if xs[0] == x then xs[1..]
    else [xs[0]] + RemoveFirst(xs[1..], x)
  }

  /** Removing a value that is not in the list leaves the list as it was. */
  lemma {:induction false} RemoveAbsent<T>(xs: seq<T>, x: T)
    requires x !in xs
    ensures RemoveFirst(xs, x) == xs
  {
    if xs != [] {
      RemoveAbsent(xs[1..], x);
      assert xs == [xs[0]] + xs[1..];
    }
  }

  /** Removing cuts out the element at `i` when it is the first occurrence of `x`. */
  lemma {:induction false} RemoveAt<T>(xs: seq<T>, x: T, i: nat)
    requires i < |xs| && xs[i] == x
    requires forall j :: 0 <= j < i ==> xs[j] != x
    ensures RemoveFirst(xs, x) == xs[..i] + xs[i + 1..]
  {
    if i > 0 {
      var tail := xs[1..];
      RemoveAt(tail, x, i - 1);
      assert xs[..i] == [xs[0]] + tail[..i - 1];
      assert xs[i + 1..] == tail[i..];
    }
  }

  /** The scan cuts out exactly the first occurrence and leaves a list without `x` untouched. */
  lemma RemoveFirstSplice<T>(xs: seq<T>, x: T)
    ensures x !in xs ==> RemoveFirst(xs, x) == xs
    ensures x in xs ==> RemoveFirst(xs, x) == xs[..FirstIndex(xs, x)] + xs[FirstIndex(xs, x) + 1..]
  {
    if x in xs {
      RemoveAt(xs, x, FirstIndex(xs, x));
    } else {
      RemoveAbsent(xs, x);
    }
  }

  /** Removing keeps every other line, in order, and drops exactly one copy of `x` if there is one. */
  lemma RemoveFirstCounts<T>(xs: seq<T>, x: T)
    ensures x in xs ==> multiset(RemoveFirst(xs, x)) + multiset{x} == multiset(xs)
    ensures x !in xs ==> multiset(RemoveFirst(xs, x)) == multiset(xs)
  {
    RemoveFirstSplice(xs, x);
    if x in xs {
      var i := FirstIndex(xs, x);
      var a, b := xs[..i], xs[i + 1..];
      assert xs == a + [x] + b;
      assert multiset(xs) == multiset(a) + multiset{x} + multiset(b);
      assert RemoveFirst(xs, x) == a + b;
    }
  }

  /** The lines after moving `appId` to the top of `lines`. */
  function MovedToTop<T(==)>(lines: seq<T>, appId: T): (r: seq<T>)
    ensures r != [] && r[0] == appId
  {
    [appId] + RemoveFirst(lines, appId)
  }

  /** Moving the same id to the top twice is the same as moving it once. */
  lemma MoveToTopIdempotent<T>(lines: seq<T>, appId: T)
    ensures MovedToTop(MovedToTop(lines, appId), appId) == MovedToTop(lines, appId)
  {
    var once := MovedToTop(lines, appId);
    RemoveFirstSplice(once, appId);
    assert FirstIndex(once, appId) == 0;
    assert once[..0] + once[1..] == once[1..];
  }

  predicate Distinct<T(==)>(xs: seq<T>)
  {
    forall i, j :: 0 <= i < j < |xs| ==> xs[i] != xs[j]
  }

  /** Removing the first `x` from a list without repeats leaves a list without repeats and without `x`. */
  lemma DistinctRemove<T>(lines: seq<T>, x: T)
    requires Distinct(lines)
    ensures Distinct(RemoveFirst(lines, x))
    ensures x !in RemoveFirst(lines, x)
    ensures forall y :: y != x ==> (y in RemoveFirst(lines, x) <==> y in lines)
  {
    RemoveFirstSplice(lines, x);
    if x in lines {
      var i := FirstIndex(lines, x);
      var r := RemoveFirst(lines, x);
      assert forall a :: 0 <= a < |r| ==> r[a] == lines[if a < i then a else a + 1];
      forall a, b | 0 <= a < b < |r|
        ensures r[a] != r[b]
      {
        assert r[a] == lines[if a < i then a else a + 1];
      }
      forall y | y in lines && y != x
        ensures y in r
      {
        var k :| 0 <= k < |lines| && lines[k] == y;
        assert r[if k < i then k else k - 1] == y;
      }
    }
  }

  /** A list without repeated ids stays without repeated ids, and gains only `appId`. */
  lemma MoveToTopDistinct<T>(lines: seq<T>, appId: T)
    requires Distinct(lines)
    ensures Distinct(MovedToTop(lines, appId))
    ensures forall x :: x in MovedToTop(lines, appId) <==> x in lines || x == appId
  {
    DistinctRemove(lines, appId);
    var rest := RemoveFirst(lines, appId);
    var r := MovedToTop(lines, appId);
    assert r[1..] == rest;
    forall a, b | 0 <= a < b < |r|
      ensures r[a] != r[b]
    {
      assert r[b] == rest[b - 1];
      if a > 0 {
        assert r[a] == rest[a - 1];
      }
    }
  }

  /**
   * The installed-apps list as the launcher keeps it on disk: the lines of
   * `apps.list`, or None while that file does not exist.
   */
  class AppsList {
    var lines: Option<seq<string>>

    constructor (existing: Option<seq<string>>)
      ensures lines == existing
    {
      lines := existing;
    }

    /** moveAppIdToTop: a missing list counts as empty; the list is then written. */
    method MoveAppIdToTop(appId: string)
      modifies this
      ensures lines == Some(MovedToTop(if old(lines).Some? then old(lines).value else [], appId))
    {
      var current: seq<string>;
      if lines.Some? {
        current := RemoveFirst(lines.value, appId);
      } else {
        current := [];
      }
      lines := Some([appId] + current);
    }

    /** uninstallApp's list update: the first occurrence of the id goes; a missing list stays missing. */
    method Uninstall(appId: string)
      modifies this
      ensures old(lines).None? ==> lines.None?
      ensures old(lines).Some? ==> lines == Some(RemoveFirst(old(lines).value, appId))
    {
      if lines.Some? {
        lines := Some(RemoveFirst(lines.value, appId));
      }
    }
  }

  // ---------------------------------------------------------------- saveApp

  /** Map.putAll of an optional map: a null map changes nothing. */
  function Overlay(base: map<string, string>, m: Option<map<string, string>>): (r: map<string, string>)
    ensures m.None? ==> r == base
    ensures m.Some? ==> r.Keys == base.Keys + m.value.Keys
    ensures m.Some? ==> forall k :: k in m.value ==> r[k] == m.value[k]
    ensures m.Some? ==> forall k :: k in base && k !in m.value ==> r[k] == base[k]
  {
    if m.Some? then base + m.value else base
  }

  /**
   * saveApp: a fresh configuration reads the app's three files (given as
   * their text), takes each non-null map over its section, and is saved;
   * the configuration returned is the one handed to saveConfig.
   * `emptyIsShared` is the runtime's treatment of empty strings, which
   * readKV's identity test depends on.
   */
  method SaveApp(settingsText: string, appPropertiesText: string, systemPropertiesText: string,
                 appSettings: Option<map<string, string>>, appProperties: Option<map<string, string>>,
                 systemProperties: Option<map<string, string>>, emptyIsShared: bool)
    returns (config: Config.Config)
    ensures fresh(config)
    ensures config.appSettings == Overlay(Config.ReadLines(Config.DefaultSettings(), JavaString.Lines(settingsText), emptyIsShared), appSettings)
    ensures config.appProperties == Overlay(Config.ReadLines(map[], JavaString.Lines(appPropertiesText), emptyIsShared), appProperties)
    ensures config.systemProperties == Overlay(Config.ReadLines(map[], JavaString.Lines(systemPropertiesText), emptyIsShared), systemProperties)
  {
    config := new Config.Config();
    config.Init(settingsText, appPropertiesText, systemPropertiesText, emptyIsShared);
    if appSettings.Some? {
      config.appSettings := config.appSettings + appSettings.value;
    }
    if appProperties.Some? {
      config.appProperties := config.appProperties + appProperties.value;
    }
    if systemProperties.Some? {
      config.systemProperties := config.systemProperties + systemProperties.value;
    }
  }
}
