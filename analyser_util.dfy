/**
 * pl.zb3.freej2me.launcher.AnalyserUtil: guess the screen size and the
 * phone type of a game from its original file name and from the contents
 * of its jar. The jar is given as the list of its entries, each with the
 * bytes read for it; opening and inflating the archive is not modelled.
 */
module AnalyserUtil {
  import opened Wrappers
  import JavaString

  /** A byte as an unsigned value. */
  type Byte = b: int | 0 <= b < 256

  /** String.getBytes() of a string of ASCII characters. */
  function Bytes(s: string): (r: seq<Byte>)
    requires forall i :: 0 <= i < |s| ==> s[i] as int < 128
    ensures |r| == |s|
    ensures forall i :: 0 <= i < |s| ==> r[i] == s[i] as int
  {
    seq(|s|, i requires 0 <= i < |s| => s[i] as int)
  }

  /** new String(bytes) with the single-byte platform charset ISO-8859-1. */
  function Decode(d: seq<Byte>): (r: string)
    ensures |r| == |d|
    ensures forall i :: 0 <= i < |d| ==> r[i] as int == d[i]
  {
    seq(|d|, i requires 0 <= i < |d| => d[i] as char)
  }

  const SiemensSig: seq<Byte> := Bytes("com/siemens/mp/")
  const Mc3Sig: seq<Byte> := Bytes("com/mascotcapsule/micro3d/v3/")
  /** The constant-pool entry of the class name: its length byte 31, then the name. */
  const DgSig: seq<Byte> := [31] + Bytes("com/nokia/mid/ui/DirectGraphics")
  /** The constant-pool entry of the method name: its length byte 20, then the name. */
  const DgFormatSig: seq<Byte> := [20] + Bytes("getNativePixelFormat")

  const ManifestName: string := "META-INF/MANIFEST.MF"
  const NokiaGameMarker: string := "Nokia-MIDlet-Category: Game"

  // ---------------------------------------------------------------------
  // containsPattern

  /** `p` occurs in `t` starting at index `i`. */
  predicate PatternAt(t: seq<Byte>, p: seq<Byte>, i: int)
  {
    0 <= i && i + |p| <= |t| && t[i..i + |p|] == p
  }

  /** What containsPattern answers: `p` is not empty and occurs somewhere in `t`. */
  predicate HasPattern(t: seq<Byte>, p: seq<Byte>)
  {
    p != [] && exists i :: 0 <= i <= |t| && PatternAt(t, p, i)
  }

  /**
   * containsPattern: an empty pattern or one longer than the target is
   * never found; otherwise every start position is compared byte by byte,
   * leaving a position at its first mismatch.
   */
  method ContainsPattern(target: seq<Byte>, pattern: seq<Byte>) returns (found: bool)
    ensures found <==> HasPattern(target, pattern)
    ensures found ==> 0 < |pattern| <= |target|
  {
    if |pattern| == 0 || |target| < |pattern| {
      return false;
    }
    var i := 0;
    while i <= |target| - |pattern|
      invariant 0 <= i <= |target| - |pattern| + 1
      invariant forall k :: 0 <= k < i ==> !PatternAt(target, pattern, k)
    {
      var matched := true;
      var j := 0;
      while j < |pattern|
        invariant 0 <= j <= |pattern|
        invariant forall m :: 0 <= m < j ==> target[i + m] == pattern[m]
      {
        if target[i + j] != pattern[j] {
          matched := false;
          break;
        }
        j := j + 1;
      }
      if matched {
        assert target[i..i + |pattern|] == pattern;
        assert PatternAt(target, pattern, i);
        return true;
      }
      assert target[i..i + |pattern|][j] != pattern[j];
      i := i + 1;
    }
    found := false;
  }

  /**
   * The manifest test searches the decoded text with String.contains;
   * for a non-empty marker it is the same as searching the manifest's
   * bytes for the marker's bytes.
   */
  lemma ManifestSearchIsByteSearch(d: seq<Byte>, p: string)
    requires p != [] && forall i :: 0 <= i < |p| ==> p[i] as int < 128
    ensures JavaString.Contains(Decode(d), p) <==> HasPattern(d, Bytes(p))
  {
    var text := Decode(d);
    var b := Bytes(p);
    if JavaString.Contains(text, p) {
      var i :| 0 <= i <= |text| && JavaString.OccursAt(text, p, i);
      assert forall m :: 0 <= m < |p| ==> d[i + m] == b[m] by {
        forall m | 0 <= m < |p|
          ensures d[i + m] == b[m]
        {
          assert text[i..i + |p|][m] == p[m];
        }
      }
      assert d[i..i + |b|] == b;
      assert PatternAt(d, b, i);
    }
    if HasPattern(d, b) {
      var i :| 0 <= i <= |d| && PatternAt(d, b, i);
      assert forall m :: 0 <= m < |p| ==> text[i + m] == p[m] by {
        forall m | 0 <= m < |p|
          ensures text[i + m] == p[m]
        {
          assert d[i..i + |b|][m] == b[m];
        }
      }
      assert text[i..i + |p|] == p;
      assert JavaString.OccursAt(text, p, i);
    }
  }

  // ---------------------------------------------------------------------
  // The file name

  /** A match of (\d{3})x(\d{3}) starting at index `i`. */
  predicate SizeAt(s: string, i: int)
  {
    && 0 <= i && i + 7 <= |s|
    && JavaString.IsDigit(s[i]) && JavaString.IsDigit(s[i + 1]) && JavaString.IsDigit(s[i + 2])
    && s[i + 3] == 'x'
    && JavaString.IsDigit(s[i + 4]) && JavaString.IsDigit(s[i + 5]) && JavaString.IsDigit(s[i + 6])
  }

  /** Matcher.find from index `from`: the leftmost match of the size pattern. */
  function FindSize(s: string, from: nat): (r: Option<nat>)
    decreases |s| - from
    ensures r.Some? ==> from <= r.value && SizeAt(s, r.value)
    ensures r.Some? ==> forall j :: from <= j < r.value ==> !SizeAt(s, j)
    ensures r.None? ==> forall j :: from <= j ==> !SizeAt(s, j)
  {
    if from + 7 > |s| then None
    else if SizeAt(s, from) then Some(from)
    else FindSize(s, from + 1)
  }

  /** The value of three decimal digits is below 1000. */
  lemma ThreeDigits(s: string)
    requires |s| == 3 && forall i :: 0 <= i < 3 ==> JavaString.IsDigit(s[i])
    ensures JavaString.DigitsValue(s) < 1000
  {
    assert s[..2][..1] == s[..1];
    assert s[..1][..0] == [];
    assert JavaString.DigitsValue(s[..1]) < 10;
    assert JavaString.DigitsValue(s[..2]) < 100;
  }

  /**
   * The screen size named by a lower-cased file name: the two three-digit
   * groups of the leftmost match, read by Integer.parseInt, which cannot
   * fail on three digits.
   */
  function ScreenSize(lc: string): (r: Option<(int, int)>)
    ensures r.Some? <==> exists i :: SizeAt(lc, i)
    ensures r.Some? ==> 0 <= r.value.0 < 1000 && 0 <= r.value.1 < 1000
  {
    match FindSize(lc, 0)
    case None => None
    case Some(i) =>
      ThreeDigits(lc[i..i + 3]);
      ThreeDigits(lc[i + 4..i + 7]);
      Some((JavaString.DigitsValue(lc[i..i + 3]), JavaString.DigitsValue(lc[i + 4..i + 7])))
  }

  /** A character \b counts as part of a word (ASCII letters, digits, '_'). */
  predicate IsWordChar(c: char)
  {
    'a' <= c <= 'z' || 'A' <= c <= 'Z' || JavaString.IsDigit(c) || c == '_'
  }

  /** A word boundary just before index `p`, where `p - 1` holds a word character. */
  predicate WordEndsAt(s: string, p: int)
  {
    0 <= p <= |s| && (p == |s| || !IsWordChar(s[p]))
  }

  /** A match of [kw]\d{3}i?\b starting at index `i`: with the 'i' if it fits, else without. */
  predicate SeModelAt(s: string, i: int)
  {
    && 0 <= i && i + 4 <= |s|
    && (s[i] == 'k' || s[i] == 'w')
    && JavaString.IsDigit(s[i + 1]) && JavaString.IsDigit(s[i + 2]) && JavaString.IsDigit(s[i + 3])
    && ((i + 4 < |s| && s[i + 4] == 'i' && WordEndsAt(s, i + 5)) || WordEndsAt(s, i + 4))
  }

  predicate HasSeModel(lc: string)
  {
    exists i :: 0 <= i < |lc| && SeModelAt(lc, i)
  }

  /**
   * The phone type a file name names, in order of precedence: the ".SE." or
   * "_SE_" tags (case-sensitive) or "ericsson"; then "siemens"; then
   * "motorola"; then a Sony Ericsson model number such as k750i. The
   * vendor words are compared on the lower-cased name.
   */
  function PhoneFromName(fileName: string): (r: Option<string>)
    ensures r.Some? ==> r.value in {"SonyEricsson", "Siemens", "Motorola"}
  {
    var lc := JavaString.Lower(fileName);
    if JavaString.Contains(fileName, ".SE.") || JavaString.Contains(fileName, "_SE_") || JavaString.Contains(lc, "ericsson") then Some("SonyEricsson")
    else if JavaString.Contains(lc, "siemens") then Some("Siemens")
    else if JavaString.Contains(lc, "motorola") then Some("Motorola")
    else if HasSeModel(lc) then Some("SonyEricsson")
    else None
  }

  /**
   * A model number (a 'k' or 'w' in either case, three digits, then the
   * end of the word, with or without a trailing 'i') marks a Sony Ericsson
   * game unless a vendor word says otherwise.
   */
  lemma ModelNumberMarksSonyEricsson(fileName: string, i: nat)
    requires i + 4 <= |fileName|
    requires JavaString.LowerChar(fileName[i]) == 'k' || JavaString.LowerChar(fileName[i]) == 'w'
    requires JavaString.IsDigit(fileName[i + 1]) && JavaString.IsDigit(fileName[i + 2]) && JavaString.IsDigit(fileName[i + 3])
    requires i + 4 == |fileName| || !IsWordChar(JavaString.LowerChar(fileName[i + 4]))
    requires !JavaString.Contains(JavaString.Lower(fileName), "siemens")
    requires !JavaString.Contains(JavaString.Lower(fileName), "motorola")
    ensures PhoneFromName(fileName) == Some("SonyEricsson")
  {
    var lc := JavaString.Lower(fileName);
    assert SeModelAt(lc, i);
  }

  /** Upper- and lower-case spellings of the vendor words are the same guess. */
  lemma VendorWordsIgnoreCase(a: string, b: string)
    requires JavaString.Lower(a) == JavaString.Lower(b)
    requires !JavaString.Contains(a, ".SE.") && !JavaString.Contains(a, "_SE_")
    requires !JavaString.Contains(b, ".SE.") && !JavaString.Contains(b, "_SE_")
    ensures PhoneFromName(a) == PhoneFromName(b)
  {
  }

  // ---------------------------------------------------------------------
  // The jar

  /** One jar entry: its name and the bytes read for it, None when reading it threw. */
  datatype Entry = Entry(name: string, data: Option<seq<Byte>>)

  /** The running verdict of fillFromJarFile: its local phoneType and the flag it sets. */
  datatype ScanState = ScanState(phone: Option<string>, dg: bool)

  const ScanStart := ScanState(None, false)

  /** The verdict after one readable entry. */
  function EntryStep(s: ScanState, e: Entry): (r: ScanState)
    requires e.data.Some?
    ensures s.dg ==> r.dg
    ensures r.phone.Some? && r.phone != s.phone ==> r.phone.value in {"Nokia", "Siemens", "SonyEricsson"}
  {
    var d := e.data.value;
    var phone := if e.name == ManifestName && JavaString.Contains(Decode(d), NokiaGameMarker) then Some("Nokia") else s.phone;
    if !JavaString.EndsWith(e.name, ".class") then ScanState(phone, s.dg)
    else
      var phone' :=
        if phone.None? && !JavaString.StartsWith(e.name, "com/siemens/") && HasPattern(d, SiemensSig) then Some("Siemens")
        else if phone.None? && HasPattern(d, Mc3Sig) then Some("SonyEricsson")
        else phone;
      var dg := phone'.None? && !JavaString.StartsWith(e.name, "com/nokia/") && HasPattern(d, DgSig) && HasPattern(d, DgFormatSig);
      ScanState(phone', s.dg || dg)
  }

  /** The verdict after the entries, stopping at the first one that could not be read. */
  function Scan(s: ScanState, entries: seq<Entry>): ScanState
    decreases |entries|
  {
    if entries == [] || entries[0].data.None? then s
    else Scan(EntryStep(s, entries[0]), entries[1..])
  }

  /** Entries before `k` were all read. */
  predicate ReadableUpTo(entries: seq<Entry>, k: int)
  {
    0 <= k <= |entries| && forall i :: 0 <= i < k ==> entries[i].data.Some?
  }

  /**
   * Once a phone type is known the class signatures are no longer looked
   * at: only a Nokia game manifest can replace it, and the DirectGraphics
   * flag is not raised any more.
   */
  lemma {:induction false} KnownPhoneStays(s: ScanState, entries: seq<Entry>)
    requires s.phone.Some?
    ensures Scan(s, entries).phone == s.phone || Scan(s, entries).phone == Some("Nokia")
    ensures Scan(s, entries).dg == s.dg
    decreases |entries|
  {
    if entries != [] && entries[0].data.Some? {
      var s' := EntryStep(s, entries[0]);
      assert s'.phone == s.phone || s'.phone == Some("Nokia");
      KnownPhoneStays(s', entries[1..]);
    }
  }

  /** Scanning splits at any readable prefix. */
  lemma {:induction false} ScanSplit(s: ScanState, entries: seq<Entry>, k: nat)
    requires ReadableUpTo(entries, k)
    ensures Scan(s, entries) == Scan(Scan(s, entries[..k]), entries[k..])
    decreases k
  {
    if k > 0 {
      assert entries[0].data.Some?;
      assert entries[..k][1..] == entries[1..][..k - 1];
      assert entries[k..] == entries[1..][k - 1..];
      ScanSplit(EntryStep(s, entries[0]), entries[1..], k - 1);
    }
  }

  /**
   * A readable game manifest marked "Nokia-MIDlet-Category: Game" makes
   * the jar a Nokia game, wherever it stands among the class files.
   */
  lemma NokiaManifestWins(entries: seq<Entry>, k: nat)
    requires ReadableUpTo(entries, k + 1)
    requires entries[k].name == ManifestName
    requires JavaString.Contains(Decode(entries[k].data.value), NokiaGameMarker)
    ensures Scan(ScanStart, entries).phone == Some("Nokia")
  {
    ScanSplit(ScanStart, entries, k);
    var s := Scan(ScanStart, entries[..k]);
    var rest := entries[k..];
    assert rest[0] == entries[k];
    var s' := EntryStep(s, rest[0]);
    assert s'.phone == Some("Nokia");
    KnownPhoneStays(s', rest[1..]);
  }

  /** The first class file with the Siemens API signature, outside com/siemens/ itself, decides Siemens. */
  lemma SiemensSignatureDecides(s: ScanState, e: Entry)
    requires s.phone.None? && e.data.Some?
    requires e.name != ManifestName && JavaString.EndsWith(e.name, ".class")
    requires !JavaString.StartsWith(e.name, "com/siemens/") && HasPattern(e.data.value, SiemensSig)
    ensures EntryStep(s, e) == ScanState(Some("Siemens"), s.dg)
  {
  }

  // ---------------------------------------------------------------------
  // The result

  /**
   * AnalysisResult. A fresh result is taken to hold width and height -1
   * (the value the launcher treats as "not guessed"), no phone type and
   * no DirectGraphics flag.
   */
  class AnalysisResult {
    var screenWidth: int
    var screenHeight: int
    var phoneType: Option<string>
    var hasDGnativeFormat: bool

    constructor ()
      ensures screenWidth == -1 && screenHeight == -1
      ensures phoneType.None? && !hasDGnativeFormat
    {
      screenWidth := -1;
      screenHeight := -1;
      phoneType := None;
      hasDGnativeFormat := false;
    }

    /** fillFromFileName: only what the name reveals is overwritten. */
    method FillFromFileName(fileName: string)
      modifies this
      ensures var size := ScreenSize(JavaString.Lower(fileName));
              && screenWidth == (if size.Some? then size.value.0 else old(screenWidth))
              && screenHeight == (if size.Some? then size.value.1 else old(screenHeight))
      ensures phoneType == (if PhoneFromName(fileName).Some? then PhoneFromName(fileName) else old(phoneType))
      ensures hasDGnativeFormat == old(hasDGnativeFormat)
    {
      var size := ScreenSize(JavaString.Lower(fileName));
      var phone := PhoneFromName(fileName);
      if size.Some? {
        screenWidth, screenHeight := size.value.0, size.value.1;
      }
      if phone.Some? {
        phoneType := phone;
      }
    }

    /**
     * fillFromJarFile: scan the entries in order until one cannot be read
     * (the exception ends the scan), raising the DirectGraphics flag on
     * the way, and then store the phone type found, if any.
     */
    method FillFromJarFile(entries: seq<Entry>)
      modifies this
      ensures var v := Scan(ScanStart, entries);
              && phoneType == (if v.phone.Some? then v.phone else old(phoneType))
              && hasDGnativeFormat == (old(hasDGnativeFormat) || v.dg)
      ensures screenWidth == old(screenWidth) && screenHeight == old(screenHeight)
    {
      var phone: Option<string> := None;
      var dg := false;
      var k := 0;
      while k < |entries|
        invariant 0 <= k <= |entries|
        invariant Scan(ScanStart, entries) == Scan(ScanState(phone, dg), entries[k..])
        invariant hasDGnativeFormat == (old(hasDGnativeFormat) || dg)
        invariant screenWidth == old(screenWidth) && screenHeight == old(screenHeight)
        invariant phoneType == old(phoneType)
      {
        var e := entries[k];
        if e.data.None? {
          break;
        }
        var s := ScanState(phone, dg);
        phone, dg := ScanEntry(e, phone, dg);
        assert ScanState(phone, dg) == EntryStep(s, e);
        if dg {
          hasDGnativeFormat := true;
        }
        assert entries[k..][1..] == entries[k + 1..];
        k := k + 1;
      }
      if phone.Some? {
        phoneType := phone;
      }
    }
  }

  /** The body of fillFromJarFile's loop for one readable entry. */
  method ScanEntry(e: Entry, phone: Option<string>, dg: bool) returns (phone': Option<string>, dg': bool)
    requires e.data.Some?
    ensures ScanState(phone', dg') == EntryStep(ScanState(phone, dg), e)
  {
    var d := e.data.value;
    phone' := phone;
    dg' := dg;
    if e.name == ManifestName {
      if JavaString.Contains(Decode(d), NokiaGameMarker) {
        phone' := Some("Nokia");
      }
    }
    if JavaString.EndsWith(e.name, ".class") {
      var siemens := false;
      if phone'.None? && !JavaString.StartsWith(e.name, "com/siemens/") {
        siemens := ContainsPattern(d, SiemensSig);
      }
      if siemens {
        phone' := Some("Siemens");
      } else if phone'.None? {
        var mc3 := ContainsPattern(d, Mc3Sig);
        if mc3 {
          phone' := Some("SonyEricsson");
        }
      }
      if phone'.None? && !JavaString.StartsWith(e.name, "com/nokia/") {
        var hasDg := ContainsPattern(d, DgSig);
        if hasDg {
          var hasFormat := ContainsPattern(d, DgFormatSig);
          if hasFormat {
            dg' := true;
          }
        }
      }
    }
  }

  /**
   * analyseFile: the file name's guesses first, then the jar's; a phone
   * type found in the jar overrides the one the name suggested.
   */
  method AnalyseFile(entries: seq<Entry>, origName: string) returns (r: AnalysisResult)
    ensures fresh(r)
    ensures var size := ScreenSize(JavaString.Lower(origName));
            && r.screenWidth == (if size.Some? then size.value.0 else -1)
            && r.screenHeight == (if size.Some? then size.value.1 else -1)
    ensures var v := Scan(ScanStart, entries);
            && r.phoneType == (if v.phone.Some? then v.phone else PhoneFromName(origName))
            && r.hasDGnativeFormat == v.dg
  {
    r := new AnalysisResult();
    r.FillFromFileName(origName);
    r.FillFromJarFile(entries);
  }
}
