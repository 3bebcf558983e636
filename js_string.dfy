/** The JavaScript String operations the modelled page code relies on, over `seq<char>`. */
module JsString {
  import JavaString

  /** The characters `\s` matches and String.prototype.trim removes: white space and line terminators. */
  predicate IsSpace(c: char)
  {
    c in {'\t', '\n', '\U{B}', '\U{C}', '\r', ' ', '\U{A0}', '\U{1680}',
          '\U{2028}', '\U{2029}', '\U{202F}', '\U{205F}', '\U{3000}', '\U{FEFF}'}
    || ('\U{2000}' <= c <= '\U{200A}')
  }

  function TrimStart(s: string): (r: string)
    ensures |r| <= |s| && r == s[|s| - |r|..]
    ensures r != [] ==> !IsSpace(r[0])
    ensures forall i :: 0 <= i < |s| - |r| ==> IsSpace(s[i])
  {
    if s != [] && IsSpace(s[0]) then TrimStart(s[1..]) else s
  }

  function TrimEnd(s: string): (r: string)
    ensures |r| <= |s| && r == s[..|r|]
    ensures r != [] ==> !IsSpace(r[|r| - 1])
    ensures forall i :: |r| <= i < |s| ==> IsSpace(s[i])
  {
    if s != [] && IsSpace(s[|s| - 1]) then TrimEnd(s[..|s| - 1]) else s
  }

  /** String.prototype.trim. */
  function Trim(s: string): string
  {
    TrimEnd(TrimStart(s))
  }

  /** No white space at either end. */
  predicate IsTrimmed(s: string)
  {
    s != [] ==> !IsSpace(s[0]) && !IsSpace(s[|s| - 1])
  }

  /** Trimming the end of `a + b` when `b` keeps something after trimming only touches `b`. */
  lemma {:induction false} TrimEndAppend(a: string, b: string)
    requires TrimEnd(b) != []
    ensures TrimEnd(a + b) == a + TrimEnd(b)
    decreases |b|
  {
    if b != [] && IsSpace(b[|b| - 1]) {
      assert (a + b)[..|a + b| - 1] == a + b[..|b| - 1];
      TrimEndAppend(a, b[..|b| - 1]);
    }
  }

  /** Array.prototype.join with a one-character separator. */
  function JoinWith(parts: seq<string>, c: char): string
    decreases |parts|
  {
    if parts == [] then ""
    else if |parts| == 1 then parts[0]
    else parts[0] + [c] + JoinWith(parts[1..], c)
  }

  /** String.prototype.split on one character gives back the joined parts, empty ones included. */
  lemma {:induction false} SplitOfJoin(parts: seq<string>, c: char)
    requires parts != []
    requires forall i :: 0 <= i < |parts| ==> c !in parts[i]
    ensures JavaString.SplitAll(JoinWith(parts, c), c) == parts
    decreases |parts|
  {
    if |parts| == 1 {
      assert JavaString.SplitFirst(parts[0], c).None?;
    } else {
      JavaString.SplitFirstAt(parts[0], JoinWith(parts[1..], c), c);
      SplitOfJoin(parts[1..], c);
    }
  }

  /** The join of `init + [last]` is that of `init`, a separator, and `last`. */
  lemma JoinWithLast(init: seq<string>, last: string, c: char)
    ensures JoinWith(init + [last], c) == if init == [] then last else JoinWith(init, c) + [c] + last
    decreases |init|
  {
    if |init| > 1 {
      assert (init + [last])[1..] == init[1..] + [last];
      JoinWithLast(init[1..], last, c);
    } else if |init| == 1 {
      assert (init + [last])[1..] == [last];
    }
  }

  /** Trimming the end of a join only trims its last part, when something of that part remains. */
  lemma TrimEndOfJoin(init: seq<string>, last: string, c: char)
    requires TrimEnd(last) != []
    ensures TrimEnd(JoinWith(init + [last], c)) == JoinWith(init + [TrimEnd(last)], c)
  {
    JoinWithLast(init, last, c);
    JoinWithLast(init, TrimEnd(last), c);
    var prefix := if init == [] then "" else JoinWith(init, c) + [c];
    assert JoinWith(init + [last], c) == prefix + last;
    TrimEndAppend(prefix, last);
  }

  /** A join whose first part starts with no white space is left alone by trimming its start. */
  lemma TrimStartOfJoin(parts: seq<string>, c: char)
    requires parts != [] && parts[0] != [] && !IsSpace(parts[0][0])
    ensures TrimStart(JoinWith(parts, c)) == JoinWith(parts, c)
  {
    assert JoinWith(parts, c)[0] == parts[0][0];
  }

  /** Splitting `a + [c] + b`, when `b` has no `c`, splits `a` and adds `b` as the last piece. */
  lemma {:induction false} SplitAllAppend(a: string, b: string, c: char)
    requires c !in b
    ensures JavaString.SplitAll(a + [c] + b, c) == JavaString.SplitAll(a, c) + [b]
    decreases |a|
  {
    JavaString.SplitFirstAt(b, [], c);
    match JavaString.SplitFirst(a, c)
    case None =>
      JavaString.SplitFirstAt(a, b, c);
      assert JavaString.SplitFirst(b, c).None?;
    case Some((x, y)) =>
      assert a + [c] + b == x + [c] + (y + [c] + b);
      JavaString.SplitFirstAt(x, y + [c] + b, c);
      SplitAllAppend(y, b, c);
  }

  /** Joining the pieces of a split gives back the string. */
  lemma {:induction false} JoinOfSplit(s: string, c: char)
    ensures JoinWith(JavaString.SplitAll(s, c), c) == s
    decreases |s|
  {
    match JavaString.SplitFirst(s, c)
    case None =>
    case Some((x, y)) =>
      JoinOfSplit(y, c);
      assert JavaString.SplitAll(s, c)[1..] == JavaString.SplitAll(y, c);
  }
}
