/** The java.lang.String operations the modelled Java code relies on, over `seq<char>`. */
module JavaString {
  import opened Wrappers
  import JavaInt

  /** String.trim() removes characters up to and including U+0020 from both ends. */
  predicate IsTrimmable(c: char) { c <= ' ' }

  function TrimStart(s: string): (r: string)
    ensures |r| <= |s| && r == s[|s| - |r|..]
    ensures r != [] ==> !IsTrimmable(r[0])
    ensures forall i :: 0 <= i < |s| - |r| ==> IsTrimmable(s[i])
  {
    if s != [] && IsTrimmable(s[0]) then TrimStart(s[1..]) else s
  }

  function TrimEnd(s: string): (r: string)
    ensures |r| <= |s| && r == s[..|r|]
    ensures r != [] ==> !IsTrimmable(r[|r| - 1])
    ensures forall i :: |r| <= i < |s| ==> IsTrimmable(s[i])
  {
    if s != [] && IsTrimmable(s[|s| - 1]) then TrimEnd(s[..|s| - 1]) else s
  }

  /** String.trim(). */
  function Trim(s: string): string
  {
    TrimEnd(TrimStart(s))
  }

  /** A string with no trimmable character at either end. */
  predicate IsTrimmed(s: string)
  {
    s != [] ==> !IsTrimmable(s[0]) && !IsTrimmable(s[|s| - 1])
  }

  /** trim() removes exactly the edge characters: a trimmed string is returned as is. */
  lemma TrimOfTrimmed(s: string)
    requires IsTrimmed(s)
    ensures Trim(s) == s
  {
  }

  lemma TrimIsTrimmed(s: string)
    ensures IsTrimmed(Trim(s))
  {
    var t := TrimStart(s);
    var r := TrimEnd(t);
    if r != [] {
      assert r[0] == t[0];
    }
  }

  /** Index of the first `c` in `s`. */
  function IndexOf(s: string, c: char): (r: Option<nat>)
    ensures r.None? <==> c !in s
    ensures r.Some? ==> r.value < |s| && s[r.value] == c && c !in s[..r.value]
  {
    if s == [] then None
    else if s[0] == c then Some(0)
    else match IndexOf(s[1..], c)
      case None => None
      case Some(i) => assert s[1..][..i] == s[1..i + 1]; Some(i + 1)
  }

  /** s.split(c, 2): the text before and after the first `c`, or None when `c` is absent. */
  function SplitFirst(s: string, c: char): (r: Option<(string, string)>)
    ensures r.None? <==> c !in s
    ensures r.Some? ==> s == r.value.0 + [c] + r.value.1 && c !in r.value.0
  {
    match IndexOf(s, c)
      case None => None
      case Some(i) => Some((s[..i], s[i + 1..]))
  }

  /** Every piece between occurrences of `c` (the regex split before trailing empties are removed). */
  function SplitAll(s: string, c: char): (r: seq<string>)
    ensures |r| >= 1
    ensures forall i :: 0 <= i < |r| ==> c !in r[i]
    decreases |s|
  {
    match SplitFirst(s, c)
      case None => [s]
      case Some((a, b)) => [a] + SplitAll(b, c)
  }

  function DropTrailingEmpty(parts: seq<string>): (r: seq<string>)
    ensures |r| <= |parts| && r == parts[..|r|]
    ensures r != [] ==> r[|r| - 1] != []
  {
    if parts != [] && parts[|parts| - 1] == [] then DropTrailingEmpty(parts[..|parts| - 1]) else parts
  }

  /** s.split(c): no match gives [s]; otherwise trailing empty strings are dropped. */
  function Split(s: string, c: char): seq<string>
  {
    if c !in s then [s] else DropTrailingEmpty(SplitAll(s, c))
  }

  predicate IsLineBreak(c: char) { c == '\n' || c == '\r' }

  /** The index of the first '\n' or '\r', None when there is neither. */
  function LineBreak(s: string): (r: Option<nat>)
    ensures r.None? ==> forall j :: 0 <= j < |s| ==> !IsLineBreak(s[j])
    ensures r.Some? ==> r.value < |s| && IsLineBreak(s[r.value])
                        && forall j :: 0 <= j < r.value ==> !IsLineBreak(s[j])
  {
    if s == [] then None
    else if IsLineBreak(s[0]) then Some(0)
    else match LineBreak(s[1..])
      case None => None
      case Some(i) => Some(i + 1)
  }

  /**
   * The lines BufferedReader.readLine returns: a line ends at '\n', at
   * '\r', or at "\r\n" taken as one terminator; a last line without a
   * terminator still counts, and an empty remainder gives no line.
   */
  function Lines(s: string): (r: seq<string>)
    ensures forall i :: 0 <= i < |r| ==> '\n' !in r[i] && '\r' !in r[i]
    decreases |s|
  {
    if s == [] then []
    else match LineBreak(s)
      case None => [s]
      case Some(i) =>
        var next := if s[i] == '\r' && i + 1 < |s| && s[i + 1] == '\n' then i + 2 else i + 1;
        [s[..i]] + Lines(s[next..])
  }

  /** A line without terminators followed by `c` breaks exactly there. */
  lemma LineBreakAt(a: string, c: char, b: string)
    requires '\n' !in a && '\r' !in a && IsLineBreak(c)
    ensures LineBreak(a + [c] + b) == Some(|a|)
  {
    var s := a + [c] + b;
    assert s[|a|] == c;
    assert forall j :: 0 <= j < |a| ==> s[j] == a[j];
    assert forall j :: 0 <= j < |a| ==> !IsLineBreak(s[j]);
  }

  /** "\r\n" ends one line, not two. */
  lemma CrLfEndsOneLine(a: string, b: string)
    requires '\n' !in a && '\r' !in a
    ensures Lines(a + "\r\n" + b) == [a] + Lines(b)
  {
    var s := a + "\r\n" + b;
    assert s == a + ['\r'] + (['\n'] + b);
    LineBreakAt(a, '\r', ['\n'] + b);
    assert s[..|a|] == a && s[|a| + 2..] == b;
  }

  /** A lone '\r' ends a line just as '\n' does. */
  lemma CrEndsLine(a: string, b: string)
    requires '\n' !in a && '\r' !in a && (b == [] || b[0] != '\n')
    ensures Lines(a + "\r" + b) == [a] + Lines(b)
  {
    var s := a + "\r" + b;
    assert s == a + ['\r'] + b;
    LineBreakAt(a, '\r', b);
    assert s[..|a|] == a && s[|a| + 1..] == b;
  }

  /** Joining lines that each end in '\n' reads back as those lines. */
  function JoinLines(lines: seq<string>): string
  {
    if lines == [] then [] else lines[0] + "\n" + JoinLines(lines[1..])
  }

  lemma {:induction false} LinesOfJoin(lines: seq<string>)
    requires forall i :: 0 <= i < |lines| ==> '\n' !in lines[i] && '\r' !in lines[i]
    ensures Lines(JoinLines(lines)) == lines
  {
    if lines != [] {
      LfEndsLine(lines[0], JoinLines(lines[1..]));
      assert forall i :: 0 <= i < |lines[1..]| ==> lines[1..][i] == lines[i + 1];
      LinesOfJoin(lines[1..]);
    }
  }

  /** '\n' ends a line. */
  lemma LfEndsLine(a: string, b: string)
    requires '\n' !in a && '\r' !in a
    ensures Lines(a + "\n" + b) == [a] + Lines(b)
  {
    var s := a + "\n" + b;
    assert s == a + ['\n'] + b;
    LineBreakAt(a, '\n', b);
    assert s[..|a|] == a && s[|a| + 1..] == b;
  }

  /** The same lines, each ended by "\r\n" as a Windows editor writes them. */
  function JoinCrLfLines(lines: seq<string>): string
  {
    if lines == [] then [] else lines[0] + "\r\n" + JoinCrLfLines(lines[1..])
  }

  /** readLine gives the same lines whether they end in '\n' or in "\r\n". */
  lemma {:induction false} LinesOfCrLfJoin(lines: seq<string>)
    requires forall i :: 0 <= i < |lines| ==> '\n' !in lines[i] && '\r' !in lines[i]
    ensures Lines(JoinCrLfLines(lines)) == lines
    ensures Lines(JoinCrLfLines(lines)) == Lines(JoinLines(lines))
  {
    if lines != [] {
      CrLfEndsOneLine(lines[0], JoinCrLfLines(lines[1..]));
      LinesOfCrLfJoin(lines[1..]);
    }
    LinesOfJoin(lines);
  }

  /** Splitting `a + [c] + b` at its first `c`, when `a` has none, gives back `a` and `b`. */
  lemma SplitFirstAt(a: string, b: string, c: char)
    requires c !in a
    ensures SplitFirst(a + [c] + b, c) == Some((a, b))
  {
    var s := a + [c] + b;
    assert s[|a|] == c;
    assert forall j :: 0 <= j < |a| ==> s[j] == a[j] && s[j] != c;
    var i := IndexOf(s, c).value;
    assert c !in s[..i];
    assert i == |a|;
    assert s[..i] == a && s[i + 1..] == b;
  }

  function StartsWith(s: string, p: string): bool { |p| <= |s| && s[..|p|] == p }

  function EndsWith(s: string, p: string): bool { |p| <= |s| && s[|s| - |p|..] == p }

  /** String.contains: `p` occurs contiguously somewhere in `s`. */
  predicate Contains(s: string, p: string)
  {
    exists i :: 0 <= i <= |s| && OccursAt(s, p, i)
  }

  /** `p` occurs in `s` starting at index `i`. */
  predicate OccursAt(s: string, p: string, i: int)
  {
    0 <= i && i + |p| <= |s| && s[i..i + |p|] == p
  }

  /** String.replace(a, b) for single characters. */
  function ReplaceChar(s: string, a: char, b: char): (r: string)
    ensures |r| == |s|
    ensures forall i :: 0 <= i < |s| ==> r[i] == if s[i] == a then b else s[i]
  {
    seq(|s|, i requires 0 <= i < |s| => if s[i] == a then b else s[i])
  }

  /** toLowerCase restricted to ASCII letters. */
  function LowerChar(c: char): char
  {
    if 'A' <= c <= 'Z' then (c as int + 32) as char else c
  }

  function Lower(s: string): (r: string)
    ensures |r| == |s|
    ensures forall i :: 0 <= i < |s| ==> r[i] == LowerChar(s[i])
  {
    if s == [] then [] else [LowerChar(s[0])] + Lower(s[1..])
  }

  predicate IsDigit(c: char) { '0' <= c <= '9' }

  function DigitsValue(s: string): nat
    requires forall i :: 0 <= i < |s| ==> IsDigit(s[i])
  {
    if s == [] then 0
    else
      assert IsDigit(s[|s| - 1]);
      DigitsValue(s[..|s| - 1]) * 10 + (s[|s| - 1] as int - '0' as int)
  }

  /**
   * Integer.parseInt(s): an optional sign and at least one decimal digit,
   * within the int range; None stands for NumberFormatException.
   */
  function ParseInt(s: string): (r: Option<int>)
    ensures r.Some? ==> JavaInt.IsInt(r.value)
  {
    if s == [] then None
    else
      var negative := s[0] == '-';
      var digits := if s[0] == '-' || s[0] == '+' then s[1..] else s;
      if digits == [] || !(forall i :: 0 <= i < |digits| ==> IsDigit(digits[i])) then None
      else
        var magnitude: int := DigitsValue(digits);
        var v := if negative then 0 - magnitude else magnitude;
        if JavaInt.IsInt(v) then Some(v) else None
  }

  /** Decimal text of a natural number (Integer.toString for non-negative values). */
  function NatToString(n: nat): (r: string)
    ensures r != [] && forall i :: 0 <= i < |r| ==> IsDigit(r[i])
  {
    if n < 10 then [('0' as int + n) as char] else NatToString(n / 10) + [('0' as int + n % 10) as char]
  }

  /** Integer.toString, as `"" + n` produces it. */
  function IntToString(n: int): (r: string)
    ensures r != []
  {
    if n < 0 then "-" + NatToString(-n) else NatToString(n)
  }

  lemma {:induction false} DigitsOfNatToString(n: nat)
    ensures DigitsValue(NatToString(n)) == n
  {
    var s := NatToString(n);
    if n >= 10 {
      DigitsOfNatToString(n / 10);
      assert s[..|s| - 1] == NatToString(n / 10);
    }
  }

  /** Integer.parseInt reads back what Integer.toString wrote, for every int. */
  lemma ParseIntOfIntToString(n: int)
    requires JavaInt.IsInt(n)
    ensures ParseInt(IntToString(n)) == Some(n)
  {
    if n < 0 {
      DigitsOfNatToString(-n);
      assert IntToString(n)[1..] == NatToString(-n);
    } else {
      DigitsOfNatToString(n);
      assert IsDigit(NatToString(n)[0]);
    }
  }
}
