/**
 * CmdClient: request/reply correlation over a message port, the same class
 * in libmedia/transcode/transcode.js and libmidi/libmidi.js. Each request
 * gets the next message id; the reply naming that id settles the request's
 * promise and forgets it. A promise is named by its message id, and its
 * settlement is recorded in `settled` in the order replies arrive.
 */
module CmdClient {
  import opened Wrappers

  /** The request body (`what`), kept opaque. */
  type Request = string
  type Value = string

  /** What a port message carries: `replyFor` (None when absent), `value`, `error` (None when undefined). */
  datatype Message = Message(replyFor: Option<int>, value: Value, error: Option<Value>)

  datatype Settlement = Resolved(value: Value) | Rejected(error: Value)

  /** The client's state: `messageCounter`, the ids in `pendingMessages`, and the settlements so far. */
  datatype ClientState = ClientState(counter: nat, pending: set<nat>, settled: seq<(nat, Settlement)>)

  const Initial := ClientState(0, {}, [])

  /**
   * Every pending id was handed out; every settled id was handed out, is no
   * longer pending and was settled once; settlements come in the order of
   * the replies, so no id appears twice.
   */
  ghost predicate Valid(s: ClientState)
  {
    && (forall id :: id in s.pending ==> 1 <= id <= s.counter)
    && (forall k :: 0 <= k < |s.settled| ==> 1 <= s.settled[k].0 <= s.counter && s.settled[k].0 !in s.pending)
    && (forall j, k :: 0 <= j < k < |s.settled| ==> s.settled[j].0 != s.settled[k].0)
  }

  /** send: the new id and the state once the request is registered. */
  function Sent(s: ClientState): (r: (nat, ClientState))
    ensures r.0 == s.counter + 1 >= 1
    ensures r.1 == ClientState(r.0, s.pending + {r.0}, s.settled)
  {
    var id := s.counter + 1;
    (id, ClientState(id, s.pending + {id}, s.settled))
  }

  /** The id a message replies to, when its `replyFor` is truthy. */
  function ReplyId(m: Message): Option<int>
  {
    if m.replyFor.Some? && m.replyFor.value != 0 then m.replyFor else None
  }

  /** _handleMessage: the settlement it makes, if any. */
  function Settle(m: Message): Settlement
  {
    if m.error.Some? then Rejected(m.error.value) else Resolved(m.value)
  }

  function Handle(s: ClientState, m: Message): (r: ClientState)
    ensures r.counter == s.counter
  {
    var id := ReplyId(m);
    if id.Some? && id.value >= 0 && id.value as nat in s.pending then
      ClientState(s.counter, s.pending - {id.value as nat}, s.settled + [(id.value as nat, Settle(m))])
    else s
  }

  /** A reply to a pending id settles exactly that one request, rejecting iff `error` is present. */
  lemma HandleSettlesOne(s: ClientState, m: Message, id: nat)
    requires ReplyId(m) == Some(id as int) && id in s.pending
    ensures Handle(s, m).pending == s.pending - {id}
    ensures Handle(s, m).settled == s.settled + [(id, Settle(m))]
    ensures Settle(m).Rejected? <==> m.error.Some?
  {
  }

  /** A message without a truthy `replyFor`, or replying to an id not pending, changes nothing. */
  lemma HandleIgnores(s: ClientState, m: Message)
    requires ReplyId(m).None? || ReplyId(m).value < 0 || ReplyId(m).value as nat !in s.pending
    ensures Handle(s, m) == s
  {
  }

  lemma SendValid(s: ClientState)
    requires Valid(s)
    ensures Valid(Sent(s).1) && Sent(s).0 !in s.pending
  {
  }

  lemma HandleValid(s: ClientState, m: Message)
    requires Valid(s)
    ensures Valid(Handle(s, m))
  {
    var r := Handle(s, m);
    var id := ReplyId(m);
    if id.Some? && id.value >= 0 && id.value as nat in s.pending {
      var n := id.value as nat;
      forall k | 0 <= k < |r.settled|
        ensures 1 <= r.settled[k].0 <= r.counter && r.settled[k].0 !in r.pending
      {
        if k < |s.settled| {
          assert r.settled[k] == s.settled[k];
        }
      }
      forall j, k | 0 <= j < k < |r.settled|
        ensures r.settled[j].0 != r.settled[k].0
      {
        assert r.settled[j] == s.settled[j];
        if k < |s.settled| {
          assert r.settled[k] == s.settled[k];
        } else {
          assert r.settled[k].0 == n;
        }
      }
    }
  }

  /** What happens at the port: a request is sent, or a message arrives. */
  datatype Event = SendRequest | Arrive(m: Message)

  function Step(s: ClientState, e: Event): ClientState
  {
    match e
    case SendRequest => Sent(s).1
    case Arrive(m) => Handle(s, m)
  }

  function Run(s: ClientState, events: seq<Event>): ClientState
    decreases |events|
  {
    if events == [] then s else Run(Step(s, events[0]), events[1..])
  }

  /** How many requests a run sends. */
  function Sends(events: seq<Event>): nat
  {
    if events == [] then 0 else (if events[0].SendRequest? then 1 else 0) + Sends(events[1..])
  }

  /**
   * Whatever requests and replies occur, ids keep being handed out one
   * after the other and each promise is settled at most once, only ever
   * after its request was sent.
   */
  lemma {:induction false} RunValid(s: ClientState, events: seq<Event>)
    requires Valid(s)
    ensures Valid(Run(s, events))
    ensures Run(s, events).counter == s.counter + Sends(events)
    decreases |events|
  {
    if events != [] {
      match events[0] {
        case SendRequest => SendValid(s);
        case Arrive(m) => HandleValid(s, m);
      }
      RunValid(Step(s, events[0]), events[1..]);
    }
  }

  /** The client object, posting to a port it records in `posted`. */
  class Client {
    var messageCounter: nat
    var pendingMessages: set<nat>
    var settled: seq<(nat, Settlement)>
    /** Messages posted to the port: the request and its `msgId`. */
    var posted: seq<(Request, nat)>

    function Current(): ClientState
      reads this
    {
      ClientState(messageCounter, pendingMessages, settled)
    }

    constructor ()
      ensures Current() == Initial && posted == []
    {
      messageCounter := 0;
      pendingMessages := {};
      settled := [];
      posted := [];
    }

    method Send(what: Request) returns (msgId: nat)
      modifies this
      ensures (msgId, Current()) == Sent(old(Current()))
      ensures posted == old(posted) + [(what, msgId)]
    {
      messageCounter := messageCounter + 1;
      msgId := messageCounter;
      pendingMessages := pendingMessages + {msgId};
      posted := posted + [(what, msgId)];
    }

    method HandleMessage(data: Message)
      modifies this
      ensures Current() == Handle(old(Current()), data)
      ensures posted == old(posted)
    {
      if data.replyFor.Some? && data.replyFor.value != 0 {
        var replyFor := data.replyFor.value;
        if replyFor >= 0 && replyFor as nat in pendingMessages {
          if data.error.Some? {
            settled := settled + [(replyFor as nat, Rejected(data.error.value))];
          } else {
            settled := settled + [(replyFor as nat, Resolved(data.value))];
          }
          pendingMessages := pendingMessages - {replyFor as nat};
        }
      }
    }
  }
}
