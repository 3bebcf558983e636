/**
 * libmedia/transcode/worker.js: moving C strings in and out of the wasm
 * heap, and the worker's reply rule. A JavaScript string is a sequence of
 * UTF-16 code units; the heap is a Uint8Array, which ignores writes past
 * its end and reads `undefined` (falsy) there.
 */
module WorkerJs {
  import opened Wrappers
  import CmdClient

  type Byte = x: int | 0 <= x < 256
  type CodeUnit = x: int | 0 <= x < 0x1_0000
  type JsStr = seq<CodeUnit>

  /**
   * Where the scan of readCString stops: the first position from `p` that
   * is past the heap, holds 0, or reaches `endIdx` (`idx + maxBytesToRead`,
   * None when no maximum is given, as NaN compares false).
   */
  function CStringEnd(heap: seq<Byte>, p: nat, endIdx: Option<int>): (r: nat)
    ensures p <= r && (r == p || r <= |heap|)
    ensures forall k :: p <= k < r ==> heap[k] != 0
    ensures r >= |heap| || heap[r] == 0 || (endIdx.Some? && r >= endIdx.value)
    ensures endIdx.Some? && p <= endIdx.value ==> r <= endIdx.value
    decreases |heap| - p
  {
    if p < |heap| && heap[p] != 0 && !(endIdx.Some? && p >= endIdx.value) then CStringEnd(heap, p + 1, endIdx)
    else p
  }

  function EndIndex(idx: nat, maxBytesToRead: Option<int>): Option<int>
  {
    if maxBytesToRead.Some? then Some(idx + maxBytesToRead.value) else None
  }

  /** The string readCString returns: one code unit per byte up to the stop. */
  function CString(heap: seq<Byte>, idx: nat, maxBytesToRead: Option<int>): (r: JsStr)
    ensures idx + |r| == CStringEnd(heap, idx, EndIndex(idx, maxBytesToRead))
    ensures forall k :: 0 <= k < |r| ==> r[k] == heap[idx + k] != 0
    ensures maxBytesToRead.Some? ==> |r| <= if maxBytesToRead.value < 0 then 0 else maxBytesToRead.value
  {
    var e := CStringEnd(heap, idx, EndIndex(idx, maxBytesToRead));
    seq(e - idx, k requires 0 <= k < e - idx => heap[idx + k] as CodeUnit)
  }

  /** readCString: scan for the end, then collect the code units. */
  method ReadCString(heap: array<Byte>, idx: nat, maxBytesToRead: Option<int>) returns (str: JsStr)
    ensures str == CString(heap[..], idx, maxBytesToRead)
  {
    var endIdx := EndIndex(idx, maxBytesToRead);
    var endPtr := idx;
    while endPtr < heap.Length && heap[endPtr] != 0 && !(endIdx.Some? && endPtr >= endIdx.value)
      invariant idx <= endPtr && (endPtr == idx || endPtr <= heap.Length)
      invariant CStringEnd(heap[..], endPtr, endIdx) == CStringEnd(heap[..], idx, endIdx)
      decreases heap.Length - endPtr
    {
      endPtr := endPtr + 1;
    }
    str := [];
    var i := idx;
    while i < endPtr
      invariant idx <= i <= endPtr && |str| == i - idx
      invariant forall k :: 0 <= k < |str| ==> str[k] == heap[idx + k]
    {
      str := str + [heap[i] as CodeUnit];
      i := i + 1;
    }
  }

  /** The heap after writeCString: code units mod 256 from `outIdx`, then a 0, where they fit. */
  function Written(heap: seq<Byte>, str: JsStr, outIdx: nat): (r: seq<Byte>)
    ensures |r| == |heap|
  {
    seq(|heap|, k requires 0 <= k < |heap| =>
      if outIdx <= k < outIdx + |str| then str[k - outIdx] % 256
      else if k == outIdx + |str| then 0
      else heap[k])
  }

  /** writeCString: writes `str.length` bytes (`charCode & 0xff`) and a 0, returns `str.length`; writes past the end are dropped. */
  method WriteCString(str: JsStr, heap: array<Byte>, outIdx: nat) returns (n: nat)
    modifies heap
    ensures n == |str|
    ensures heap[..] == Written(old(heap[..]), str, outIdx)
  {
    var startIdx := outIdx;
    var out := outIdx;
    var i := 0;
    while i < |str|
      invariant 0 <= i <= |str| && out == startIdx + i
      invariant forall k :: 0 <= k < heap.Length ==>
                  heap[k] == if startIdx <= k < out then str[k - startIdx] % 256 else old(heap[k])
    {
      if out < heap.Length {
        heap[out] := str[i] % 256;
      }
      out := out + 1;
      i := i + 1;
    }
    if out < heap.Length {
      heap[out] := 0;
    }
    return out - startIdx;
  }

  /** Only the `|str| + 1` positions from `outIdx` change. */
  lemma WrittenFrame(heap: seq<Byte>, str: JsStr, outIdx: nat, k: nat)
    requires k < |heap| && (k < outIdx || k > outIdx + |str|)
    ensures Written(heap, str, outIdx)[k] == heap[k]
  {
  }

  /** A scan over non-zero bytes ending at a 0 within the limit stops at that 0. */
  lemma {:induction false} StopsAtZero(heap: seq<Byte>, p: nat, q: nat, endIdx: Option<int>)
    requires p <= q < |heap| && heap[q] == 0
    requires forall k :: p <= k < q ==> heap[k] != 0
    requires endIdx.None? || endIdx.value >= q
    ensures CStringEnd(heap, p, endIdx) == q
    decreases q - p
  {
    if p < q {
      StopsAtZero(heap, p + 1, q, endIdx);
    }
  }

  /**
   * A string of code units 1..255 written where it fits, terminator
   * included, reads back unchanged when the maximum allows its length.
   */
  lemma RoundTrip(heap: seq<Byte>, str: JsStr, outIdx: nat, maxBytesToRead: Option<int>)
    requires forall i :: 0 <= i < |str| ==> 1 <= str[i] <= 255
    requires outIdx + |str| < |heap|
    requires maxBytesToRead.None? || maxBytesToRead.value >= |str|
    ensures CString(Written(heap, str, outIdx), outIdx, maxBytesToRead) == str
  {
    var w := Written(heap, str, outIdx);
    forall k | outIdx <= k < outIdx + |str|
      ensures w[k] != 0
    {
      assert w[k] == str[k - outIdx];
    }
    StopsAtZero(w, outIdx, outIdx + |str|, EndIndex(outIdx, maxBytesToRead));
    var r := CString(w, outIdx, maxBytesToRead);
    forall k | 0 <= k < |str|
      ensures r[k] == str[k]
    {
      assert r[k] == w[outIdx + k];
    }
  }

  /** Glue.readStringAt: a null pointer reads as the empty string. */
  function ReadStringAt(heap: seq<Byte>, ptr: nat, maxLen: Option<int>): (r: JsStr)
    ensures ptr == 0 ==> r == []
    ensures ptr != 0 ==> ptr + |r| == CStringEnd(heap, ptr, EndIndex(ptr, maxLen))
    ensures forall k :: 0 <= k < |r| ==> r[k] == heap[ptr + k] != 0
  {
    if ptr == 0 then [] else CString(heap, ptr, maxLen)
  }

  /** A message the worker receives: `cmd` and `msgId` are falsy when empty or 0. */
  datatype Incoming = Incoming(cmd: string, msgId: int)

  datatype Reply = ValueReply(replyFor: int, value: string) | ErrorReply(replyFor: int, error: string)

  datatype Action = Answer(reply: Reply) | PassOn | Ignore

  /**
   * createMsgHandler: a message with `cmd` and `msgId` is answered once,
   * with the handler's value or its error's text, when there is a command
   * handler; any other message goes to the other handler, if any.
   */
  function OnMessage(data: Incoming, hasCmdHandler: bool, hasOtherHandler: bool, outcome: Result<string, string>): (r: Action)
    ensures data.cmd != [] && data.msgId != 0 && hasCmdHandler ==> r.Answer? && r.reply.replyFor == data.msgId
    ensures r.Answer? ==> (r.reply.ErrorReply? <==> outcome.Err?)
    ensures r.PassOn? <==> (data.cmd == [] || data.msgId == 0) && hasOtherHandler
  {
    if data.cmd != [] && data.msgId != 0 then
      if hasCmdHandler then
        Answer(if outcome.Ok? then ValueReply(data.msgId, outcome.value) else ErrorReply(data.msgId, outcome.error))
      else Ignore
    else if hasOtherHandler then PassOn
    else Ignore
  }

  /** The reply as the client's port sees it: a value reply has no `error`. */
  function AsClientMessage(reply: Reply): CmdClient.Message
  {
    match reply
    case ValueReply(id, v) => CmdClient.Message(Some(id), v, None)
    case ErrorReply(id, e) => CmdClient.Message(Some(id), "", Some(e))
  }

  /**
   * The worker's reply to a request with a command that the client sent
   * settles that request: resolved with the handler's value, or rejected
   * with its error.
   */
  lemma ReplySettlesRequest(s: CmdClient.ClientState, what: string, outcome: Result<string, string>)
    requires CmdClient.Valid(s) && what != []
    ensures var (id, s1) := CmdClient.Sent(s);
            var a := OnMessage(Incoming(what, id), true, false, outcome);
            && a.Answer?
            && var s2 := CmdClient.Handle(s1, AsClientMessage(a.reply));
            && s2.pending == s.pending
            && s2.settled == s.settled + [(id, if outcome.Ok? then CmdClient.Resolved(outcome.value) else CmdClient.Rejected(outcome.error))]
  {
    var (id, s1) := CmdClient.Sent(s);
    CmdClient.SendValid(s);
    assert id !in s.pending;
  }
}
