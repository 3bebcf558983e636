/**
 * libmidi/wasm/fluidsynth/src/utils/fluid_sys.c: the per-level log
 * handler table and fluid_log, fluid_strtok, and the profiling
 * start/stop/status machine. LAST_LOG_LEVEL (5: PANIC, ERR, WARN, INFO,
 * DBG), FLUID_OK (0) and FLUID_FAILED (-1) come from fluidsynth's headers, which are
 * not part of this model; the build is taken to be without DEBUG, so the
 * debug level starts with no handler.
 */
module FluidSys {
  import opened Wrappers
  import opened CTypes

  // ---- Logging ------------------------------------------------------------

  const LastLogLevel := 5
  const FluidOk := 0
  const FluidFailed := -1
  /** Size of fluid_log's errbuf; vsnprintf keeps at most one byte less, for the terminator. */
  const ErrBufSize := 1024

  /** A log function: the built-in one writing to stderr, or one a caller installed. */
  datatype Handler = DefaultHandler | UserHandler(id: nat)

  /** What fluid_log hands a handler: level, formatted message, user data. */
  datatype LogCall = LogCall(handler: Handler, level: int, message: string, data: Option<nat>)

  function InitialHandlers(): (r: seq<Option<Handler>>)
    ensures |r| == LastLogLevel
  {
    [Some(DefaultHandler), Some(DefaultHandler), Some(DefaultHandler), Some(DefaultHandler), None]
  }

  predicate ValidLevel(level: int)
  {
    0 <= level < LastLogLevel
  }

  /** The message as vsnprintf leaves it in errbuf. */
  function Truncated(formatted: string): (r: string)
    ensures |r| < ErrBufSize && |r| <= |formatted| && r == formatted[..|r|]
    ensures |formatted| < ErrBufSize ==> r == formatted
  {
    if |formatted| < ErrBufSize then formatted else formatted[..ErrBufSize - 1]
  }

  /** The call fluid_log makes, if any. */
  function LogCallFor(handlers: seq<Option<Handler>>, userData: seq<Option<nat>>, level: int, formatted: string): (r: Option<LogCall>)
    requires |handlers| == |userData| == LastLogLevel
    ensures r.Some? <==> ValidLevel(level) && handlers[level].Some?
    ensures r.Some? ==> r.value == LogCall(handlers[level].value, level, Truncated(formatted), userData[level])
  {
    if ValidLevel(level) && handlers[level].Some? then
      Some(LogCall(handlers[level].value, level, Truncated(formatted), userData[level]))
    else None
  }

  /** The two static tables, and the calls made to handlers so far. */
  class LogTable {
    var handlers: seq<Option<Handler>>
    var userData: seq<Option<nat>>
    var calls: seq<LogCall>

    ghost predicate Valid()
      reads this
    {
      |handlers| == LastLogLevel && |userData| == LastLogLevel
    }

    constructor ()
      ensures Valid() && handlers == InitialHandlers() && userData == seq(LastLogLevel, _ => None) && calls == []
    {
      handlers := InitialHandlers();
      userData := seq(LastLogLevel, _ => None);
      calls := [];
    }

    /** fluid_set_log_function: installs `fun` and `data` for a valid level and returns the handler it replaced. */
    method SetLogFunction(level: int, fun: Option<Handler>, data: Option<nat>) returns (previous: Option<Handler>)
      requires Valid()
      modifies this
      ensures Valid() && calls == old(calls)
      ensures ValidLevel(level) ==>
                previous == old(handlers)[level]
                && handlers == old(handlers)[level := fun] && userData == old(userData)[level := data]
      ensures !ValidLevel(level) ==> previous.None? && handlers == old(handlers) && userData == old(userData)
    {
      previous := None;
      if 0 <= level < LastLogLevel {
        previous := handlers[level];
        handlers := handlers[level := fun];
        userData := userData[level := data];
      }
    }

    /** fluid_log: calls the level's handler when there is one, and always fails. */
    method Log(level: int, formatted: string) returns (r: int)
      requires Valid()
      modifies this
      ensures Valid() && handlers == old(handlers) && userData == old(userData)
      ensures r == FluidFailed
      ensures calls == old(calls) + (match LogCallFor(handlers, userData, level, formatted)
                                     case Some(c) => [c]
                                     case None => [])
    {
      if 0 <= level < LastLogLevel {
        var fun := handlers[level];
        if fun.Some? {
          var errbuf := Truncated(formatted);
          calls := calls + [LogCall(fun.value, level, errbuf, userData[level])];
        }
      }
      return FluidFailed;
    }
  }

  /** Setting a handler and logging at that level calls that handler with that data; other levels keep theirs. */
  lemma SetThenLog(handlers: seq<Option<Handler>>, userData: seq<Option<nat>>, level: int, other: int,
                   fun: Handler, data: Option<nat>, formatted: string)
    requires |handlers| == |userData| == LastLogLevel && ValidLevel(level) && other != level
    ensures LogCallFor(handlers[level := Some(fun)], userData[level := data], level, formatted)
            == Some(LogCall(fun, level, Truncated(formatted), data))
    ensures LogCallFor(handlers[level := Some(fun)], userData[level := data], other, formatted)
            == LogCallFor(handlers, userData, other, formatted)
  {
  }

  /** With the initial table the debug level is silent, every other level uses the default handler, and out-of-range levels log nothing. */
  lemma InitialLogging(level: int, formatted: string)
    ensures var c := LogCallFor(InitialHandlers(), seq(LastLogLevel, _ => None), level, formatted);
            (c.Some? <==> 0 <= level < 4) && (c.Some? ==> c.value.handler == DefaultHandler)
  {
  }

  // ---- fluid_strtok -------------------------------------------------------

  /** `c` is one of the delimiter characters. */
  predicate IsDelim(c: char, delim: string)
  {
    c in delim
  }

  /** Number of leading delimiter characters. */
  function LeadingDelims(s: string, delim: string): (r: nat)
    ensures r <= |s| && (forall i :: 0 <= i < r ==> IsDelim(s[i], delim)) && (r == |s| || !IsDelim(s[r], delim))
  {
    if s != [] && IsDelim(s[0], delim) then 1 + LeadingDelims(s[1..], delim) else 0
  }

  /** Length of the leading run of non-delimiter characters. */
  function RunLength(s: string, delim: string): (r: nat)
    ensures r <= |s| && (forall i :: 0 <= i < r ==> !IsDelim(s[i], delim)) && (r == |s| || IsDelim(s[r], delim))
  {
    if s != [] && !IsDelim(s[0], delim) then 1 + RunLength(s[1..], delim) else 0
  }

  /**
   * One call on the text `s` that `*str` points at (up to its terminator):
   * the token, and the text left for the next call (None when `*str`
   * becomes NULL). None when only delimiters remain.
   */
  function Step(s: string, delim: string): (r: Option<(string, Option<string>)>)
    ensures r.None? <==> LeadingDelims(s, delim) == |s|
    ensures r.Some? ==> r.value.0 != [] && forall i :: 0 <= i < |r.value.0| ==> !IsDelim(r.value.0[i], delim)
  {
    var k := LeadingDelims(s, delim);
    var u := s[k..];
    if u == [] then None
    else
      var n := RunLength(u, delim);
      if n == |u| then Some((u, None)) else Some((u[..n], Some(u[n + 1..])))
  }

  /** The tokens successive calls return, starting from `s`. */
  function Tokens(s: string, delim: string): seq<string>
    decreases |s|
  {
    match Step(s, delim)
    case None => []
    case Some((t, None)) => [t]
    case Some((t, Some(rest))) => [t] + Tokens(rest, delim)
  }

  /** The pieces of `s` between delimiter characters, empty ones included. */
  function Pieces(s: string, delim: string): (r: seq<string>)
    ensures |r| >= 1
    decreases |s|
  {
    var n := RunLength(s, delim);
    if n == |s| then [s] else [s[..n]] + Pieces(s[n + 1..], delim)
  }

  function NonEmpty(xs: seq<string>): seq<string>
  {
    if xs == [] then [] else (if xs[0] == [] then [] else [xs[0]]) + NonEmpty(xs[1..])
  }

  /** A leading delimiter is skipped: the calls behave as on the text after it, which splits off an empty piece. */
  lemma {:induction false} SkipsDelim(s: string, delim: string)
    requires s != [] && IsDelim(s[0], delim)
    ensures Tokens(s, delim) == Tokens(s[1..], delim)
    ensures Pieces(s, delim) == [[]] + Pieces(s[1..], delim)
  {
    assert LeadingDelims(s, delim) == 1 + LeadingDelims(s[1..], delim);
    assert s[LeadingDelims(s, delim)..] == s[1..][LeadingDelims(s[1..], delim)..];
    assert Step(s, delim) == Step(s[1..], delim);
    assert RunLength(s, delim) == 0;
  }

  /** A text starting with a non-delimiter yields its leading run first, as both the first token and the first piece. */
  lemma {:induction false} TakesRun(s: string, delim: string)
    requires s != [] && !IsDelim(s[0], delim)
    ensures var n := RunLength(s, delim);
            n > 0
            && (n < |s| ==> Tokens(s, delim) == [s[..n]] + Tokens(s[n + 1..], delim)
                            && Pieces(s, delim) == [s[..n]] + Pieces(s[n + 1..], delim))
            && (n == |s| ==> Tokens(s, delim) == [s] && Pieces(s, delim) == [s])
  {
    var n := RunLength(s, delim);
    assert LeadingDelims(s, delim) == 0 && s[0..] == s;
    if n < |s| {
      assert Step(s, delim) == Some((s[..n], Some(s[n + 1..])));
    } else {
      assert Step(s, delim) == Some((s, None));
    }
  }

  /** Successive calls return exactly the maximal non-delimiter runs, in order. */
  lemma {:induction false} TokensAreRuns(s: string, delim: string)
    ensures Tokens(s, delim) == NonEmpty(Pieces(s, delim))
    decreases |s|
  {
    if s == [] {
    } else if IsDelim(s[0], delim) {
      SkipsDelim(s, delim);
      TokensAreRuns(s[1..], delim);
    } else {
      TakesRun(s, delim);
      var n := RunLength(s, delim);
      if n < |s| {
        TokensAreRuns(s[n + 1..], delim);
      }
    }
  }

  /** Index of the terminator of the C string starting at `p`. */
  function NulFrom(buf: seq<char>, p: nat): (r: nat)
    requires exists k :: p <= k < |buf| && buf[k] == '\0'
    ensures p <= r < |buf| && buf[r] == '\0' && forall i :: p <= i < r ==> buf[i] != '\0'
    decreases |buf| - p
  {
    if buf[p] == '\0' then p else NulFrom(buf, p + 1)
  }

  predicate Terminated(buf: seq<char>, p: nat)
  {
    exists k :: p <= k < |buf| && buf[k] == '\0'
  }

  /** The text `*str` points at. */
  function Text(buf: seq<char>, p: nat): string
    requires Terminated(buf, p)
  {
    buf[p..NulFrom(buf, p)]
  }

  /** `char **str`: NULL, pointing at NULL, or pointing at an index of the buffer. */
  datatype StrRef = NullRef | RefToNull | RefTo(p: nat)

  /**
   * fluid_strtok. Returns the token's start index, overwrites the
   * delimiter ending it with '\0', and moves `*str` past that delimiter;
   * `*str` becomes NULL at the end of the text. A NULL `str`, a NULL or
   * empty `delim`, or `*str == NULL` give NULL and change nothing.
   */
  /**
   * What fluid_strtok returns and leaves behind, by index: the token's
   * start, the new `*str`, and the buffer. A NULL `str`, a NULL or empty
   * `delim`, or `*str == NULL` give NULL and change nothing; the first
   * three also log a "Null pointer" error, which is left out.
   */
  function StrtokResult(b: seq<char>, str: StrRef, delim: Option<string>): (r: (Option<nat>, StrRef, seq<char>))
    requires str.RefTo? ==> Terminated(b, str.p)
  {
    if str.NullRef? || delim.None? || delim.value == [] then (None, str, b)
    else if str.RefToNull? then (None, RefToNull, b)
    else
      var ds := delim.value;
      var s := Text(b, str.p);
      var k := LeadingDelims(s, ds);
      if k == |s| then (None, RefToNull, b)
      else
        var n := RunLength(s[k..], ds);
        var t := str.p + k;
        if k + n == |s| then (Some(t), RefToNull, b)
        else (Some(t), RefTo(t + n + 1), b[t + n := '\0'])
  }

  /** Only delimiters are left: NULL, `*str` becomes NULL, the buffer is untouched. */
  lemma {:induction false} StrtokAtEnd(b: seq<char>, p: nat, delim: string)
    requires Terminated(b, p) && delim != [] && Step(Text(b, p), delim).None?
    ensures StrtokResult(b, RefTo(p), Some(delim)) == (None, RefToNull, b)
  {
  }

  /** The last token: it runs to the terminator, and `*str` becomes NULL. */
  lemma {:induction false} StrtokLastToken(b: seq<char>, p: nat, delim: string)
    requires Terminated(b, p) && delim != []
    requires var r := Step(Text(b, p), delim); r.Some? && r.value.1.None?
    ensures var (token, next, b1) := StrtokResult(b, RefTo(p), Some(delim));
            var t := Step(Text(b, p), delim).value.0;
            token.Some? && p <= token.value && next == RefToNull && b1 == b
            && b[token.value..token.value + |t|] == t && b[token.value + |t|] == '\0'
  {
    var s := Text(b, p);
    var k := LeadingDelims(s, delim);
    assert s[k..] == b[p + k..NulFrom(b, p)];
  }

  /**
   * A token ended by a delimiter: the delimiter becomes '\0' and `*str`
   * points just past it.
   */
  lemma {:induction false} StrtokCutsToken(b: seq<char>, p: nat, delim: string)
    requires Terminated(b, p) && delim != []
    requires var r := Step(Text(b, p), delim); r.Some? && r.value.1.Some?
    ensures var (token, next, b1) := StrtokResult(b, RefTo(p), Some(delim));
            var t := Step(Text(b, p), delim).value.0;
            token.Some? && p <= token.value && b1 == b[token.value + |t| := '\0']
            && b1[token.value..token.value + |t|] == t && b1[token.value + |t|] == '\0'
            && next == RefTo(token.value + |t| + 1)
  {
    var s := Text(b, p);
    var k := LeadingDelims(s, delim);
    var n := RunLength(s[k..], delim);
    assert s[k..][..n] == b[p + k..p + k + n];
    var c := b[p + k + n := '\0'];
    assert c[p + k..p + k + n] == b[p + k..p + k + n];
  }

  /** The result of a call that cuts a token, by offsets into the text. */
  lemma {:induction false} CutShape(b: seq<char>, p: nat, delim: string, k: nat, n: nat)
    requires Terminated(b, p) && delim != []
    requires var r := Step(Text(b, p), delim); r.Some? && r.value.1.Some?
    requires k == LeadingDelims(Text(b, p), delim) && n == RunLength(Text(b, p)[k..], delim)
    ensures p + k + n < NulFrom(b, p)
    ensures var (token, next, b1) := StrtokResult(b, RefTo(p), Some(delim));
            token.Some? && token.value == p + k && next == RefTo(p + k + n + 1) && b1 == b[p + k + n := '\0']
    ensures Step(Text(b, p), delim).value.1.value == Text(b, p)[k..][n + 1..]
  {
  }

  /** After a cut, `*str` points at the rest of the text, which the next call works on. */
  lemma {:induction false} StrtokLeavesRest(b: seq<char>, p: nat, delim: string)
    requires Terminated(b, p) && delim != []
    requires var r := Step(Text(b, p), delim); r.Some? && r.value.1.Some?
    ensures var (_, next, b1) := StrtokResult(b, RefTo(p), Some(delim));
            next.RefTo? && Terminated(b1, next.p) && Text(b1, next.p) == Step(Text(b, p), delim).value.1.value
  {
    var k := LeadingDelims(Text(b, p), delim);
    var n := RunLength(Text(b, p)[k..], delim);
    CutShape(b, p, delim, k, n);
    TextAfterCut(b, p, k, n);
  }

  /** fluid_strtok, over the buffer `*str` points into. */
  method Strtok(buf: array<char>, str: StrRef, delim: Option<string>) returns (token: Option<nat>, next: StrRef)
    requires str.RefTo? ==> Terminated(buf[..], str.p)
    requires delim.Some? ==> '\0' !in delim.value
    modifies buf
    ensures (token, next, buf[..]) == StrtokResult(old(buf[..]), str, delim)
  {
    if str.NullRef? || delim.None? || delim.value == [] {
      return None, str;
    }
    if str.RefToNull? {
      return None, RefToNull;
    }
    ghost var ds := delim.value;
    ghost var b := buf[..];
    var p := str.p;
    ghost var nul := NulFrom(b, p);
    var i := SkipDelims(buf, p, delim.value, nul);
    LeadingDelimsAt(b, p, nul, i, ds);
    if buf[i] == '\0' {
      return None, RefToNull;
    }
    token := Some(i);
    var e := RunEnd(buf, i, delim.value, nul);
    RunLengthAt(b, p, nul, i, e, ds);
    if buf[e] == '\0' {
      return token, RefToNull;
    }
    buf[e] := '\0';
    next := RefTo(e + 1);
    assert buf[..] == b[e := '\0'];
  }

  /** The first loop of fluid_strtok: skip delimiters, stopping at the terminator. */
  method SkipDelims(buf: array<char>, p: nat, delim: string, ghost nul: nat) returns (i: nat)
    requires p <= nul < buf.Length && buf[nul] == '\0' && '\0' !in delim
    ensures p <= i <= nul && (forall j :: p <= j < i ==> IsDelim(buf[j], delim)) && (buf[i] == '\0' || !IsDelim(buf[i], delim))
  {
    i := p;
    while buf[i] != '\0' && IsDelim(buf[i], delim)
      invariant p <= i <= nul
      invariant forall j :: p <= j < i ==> IsDelim(buf[j], delim)
      decreases nul - i
    {
      i := i + 1;
    }
  }

  /** The second loop of fluid_strtok: find the character ending the token. */
  method RunEnd(buf: array<char>, i: nat, delim: string, ghost nul: nat) returns (e: nat)
    requires i < nul < buf.Length && buf[nul] == '\0' && !IsDelim(buf[i], delim)
    ensures i < e <= nul && (forall j :: i <= j < e ==> !IsDelim(buf[j], delim)) && (buf[e] == '\0' || IsDelim(buf[e], delim))
  {
    e := i + 1;
    while buf[e] != '\0' && !IsDelim(buf[e], delim)
      invariant i < e <= nul
      invariant forall j :: i <= j < e ==> !IsDelim(buf[j], delim)
      decreases nul - e
    {
      e := e + 1;
    }
  }

  lemma {:induction false} LeadingDelimsAt(b: seq<char>, p: nat, nul: nat, i: nat, ds: string)
    requires Terminated(b, p) && nul == NulFrom(b, p) && p <= i <= nul
    requires (forall j :: p <= j < i ==> IsDelim(b[j], ds)) && (b[i] == '\0' || !IsDelim(b[i], ds))
    ensures LeadingDelims(Text(b, p), ds) == i - p
  {
    var s := Text(b, p);
    assert forall j :: 0 <= j < i - p ==> s[j] == b[p + j];
    assert i - p < |s| ==> s[i - p] == b[i];
  }

  lemma {:induction false} RunLengthAt(b: seq<char>, p: nat, nul: nat, i: nat, e: nat, ds: string)
    requires Terminated(b, p) && nul == NulFrom(b, p) && p <= i < e <= nul
    requires (forall j :: i <= j < e ==> !IsDelim(b[j], ds)) && (b[e] == '\0' || IsDelim(b[e], ds))
    ensures RunLength(Text(b, p)[i - p..], ds) == e - i
  {
    var u := Text(b, p)[i - p..];
    assert forall j :: 0 <= j < e - i ==> u[j] == b[i + j];
    assert e - i < |u| ==> u[e - i] == b[e];
  }

  lemma {:induction false} TextAfterCut(b: seq<char>, p: nat, k: nat, n: nat)
    requires Terminated(b, p) && p + k + n < NulFrom(b, p)
    ensures Terminated(b[p + k + n := '\0'], p + k + n + 1)
    ensures Text(b[p + k + n := '\0'], p + k + n + 1) == Text(b, p)[k..][n + 1..]
  {
    var nul := NulFrom(b, p);
    var e := p + k + n;
    var c := b[e := '\0'];
    assert c[nul] == '\0';
    assert forall j :: e + 1 <= j < nul ==> c[j] == b[j];
    assert NulFrom(c, e + 1) == nul;
    assert Text(b, p)[k..][n + 1..] == b[e + 1..nul];
  }

  // ---- Profiling ----------------------------------------------------------

  /** The values `fluid_profile_status` takes, and those fluid_profile_get_status returns. */
  datatype ProfileStatus = Stop | Start | Ready | Running | Canceled

  /** FLUID_PROFILE_NBR: the number of measured sections. */
  const ProfileNbr := 9

  /** One entry of fluid_profile_data, without its description. */
  datatype ProfileData = ProfileData(min: real, max: real, total: real, count: int, nVoices: int, nSamples: int)

  const Cleared := ProfileData(10000000000.0, 0.0, 0.0, 0, 0, 0)

  /** The status and end tick after fluid_profile_start_stop; whether it clears the data. */
  function StartStop(status: ProfileStatus, endTicks: U32, requested: U32, clearData: int): (r: (ProfileStatus, U32, bool))
    ensures requested == 0 ==> r == (Stop, endTicks, false)
    ensures requested != 0 && status == Start ==> r == (status, endTicks, false)
    ensures requested != 0 && status != Start ==> r == (Start, requested, clearData == 0)
  {
    if requested != 0 then
      if status != Start then (Start, requested, clearData == 0) else (status, endTicks, false)
    else (Stop, endTicks, false)
  }

  /** fluid_profile_get_status: the status returned, and the status afterwards. */
  function GetStatus(status: ProfileStatus, cancelRequested: bool): (r: (ProfileStatus, ProfileStatus))
    ensures cancelRequested ==> r == (Canceled, Stop)
    ensures !cancelRequested ==> r.1 == status && r.0 == match status
                                                    case Ready => Ready
                                                    case Start => Running
                                                    case _ => Stop
  {
    if cancelRequested then (Canceled, StartStop(status, 0, 0, 0).0)
    else match status
      case Ready => (Ready, status)
      case Start => (Running, status)
      case _ => (Stop, status)
  }

  /** A second start while measuring changes nothing; a stop in between lets the next start take over. */
  lemma StartIsIdempotent(status: ProfileStatus, endTicks: U32, a: U32, b: U32, clearA: int, clearB: int)
    requires a != 0 && b != 0
    ensures var (s1, e1, _) := StartStop(status, endTicks, a, clearA);
            StartStop(s1, e1, b, clearB) == (s1, e1, false)
    ensures var (s1, e1, _) := StartStop(status, endTicks, a, clearA);
            var (s2, e2, _) := StartStop(s1, e1, 0, 0);
            StartStop(s2, e2, b, clearB) == (Start, b, clearB == 0)
  {
  }

  /** Starting reports RUNNING until stopped; then STOP. */
  lemma RunningUntilStopped(status: ProfileStatus, endTicks: U32, ticks: U32, clearData: int)
    requires ticks != 0
    ensures GetStatus(StartStop(status, endTicks, ticks, clearData).0, false).0 == Running
    ensures GetStatus(StartStop(StartStop(status, endTicks, ticks, clearData).0, endTicks, 0, 0).0, false).0 == Stop
  {
  }

  class Profiler {
    var status: ProfileStatus
    var endTicks: U32
    const data: array<ProfileData>

    ghost predicate Valid()
      reads this
    {
      data.Length == ProfileNbr
    }

    constructor (initialData: seq<ProfileData>)
      requires |initialData| == ProfileNbr
      ensures Valid() && status == Stop && endTicks == 0 && data[..] == initialData
    {
      status := Stop;
      endTicks := 0;
      data := new ProfileData[ProfileNbr](i requires 0 <= i < ProfileNbr => initialData[i]);
    }

    /** fluid_profile_start_stop. */
    method StartStopMeasure(requested: U32, clearData: int)
      requires Valid()
      modifies this, data
      ensures Valid()
      ensures var (s, e, clear) := StartStop(old(status), old(endTicks), requested, clearData);
              status == s && endTicks == e
              && data[..] == if clear then seq(ProfileNbr, _ => Cleared) else old(data[..])
    {
      if requested != 0 {
        if status != Start {
          endTicks := requested;
          if clearData == 0 {
            var i := 0;
            while i < ProfileNbr
              invariant 0 <= i <= ProfileNbr
              invariant forall j :: 0 <= j < i ==> data[j] == Cleared
              modifies data
            {
              data[i] := Cleared;
              i := i + 1;
            }
          }
          status := Start;
        }
      } else {
        status := Stop;
      }
    }

    /** fluid_profile_get_status; `cancelRequested` is what fluid_profile_is_cancel_req reports. */
    method GetProfileStatus(cancelRequested: bool) returns (r: ProfileStatus)
      requires Valid()
      modifies this, data
      ensures Valid() && data[..] == old(data[..]) && endTicks == old(endTicks)
      ensures (r, status) == GetStatus(old(status), cancelRequested)
    {
      if cancelRequested {
        StartStopMeasure(0, 0);
        return Canceled;
      }
      match status
      case Ready => return Ready;
      case Start => return Running;
      case _ => return Stop;
    }
  }
}
