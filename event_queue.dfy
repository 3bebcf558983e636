/**
 * eventqueue.js: the queue through which the page hands events to the
 * Java side, which polls it with `waitForEvent`. The asynchronous wait is
 * split at its `await`: a call either returns at once or suspends, and
 * `Resume` is the continuation the event loop runs once the awaited
 * promise has been resolved. One poller waits at a time, as the polling
 * loop of the page awaits each call before making the next.
 */
module EventQueue {
  import opened Wrappers

  /** `skipIfExists && queue.some(skipIfExists)`. */
  predicate SkipMatches<E>(queue: seq<E>, skipIfExists: Option<E -> bool>)
  {
    skipIfExists.Some? && exists i :: 0 <= i < |queue| && skipIfExists.value(queue[i])
  }

  /** Whether queueEvent pushes `evt`: only after the first wait, and only when no queued event matches `skipIfExists`. */
  predicate Accepts<E>(started: bool, queue: seq<E>, skipIfExists: Option<E -> bool>)
  {
    started && !SkipMatches(queue, skipIfExists)
  }

  /** The queue after queueEvent. */
  function Enqueued<E>(started: bool, queue: seq<E>, evt: E, skipIfExists: Option<E -> bool>): (r: seq<E>)
    ensures !started ==> r == queue
    ensures SkipMatches(queue, skipIfExists) ==> r == queue
    ensures Accepts(started, queue, skipIfExists) ==> r == queue + [evt] && r[|queue|] == evt
    ensures r[..|queue|] == queue
  {
    if Accepts(started, queue, skipIfExists) then queue + [evt] else queue
  }

  /** One queue operation of a started queue: queueEvent, or a wait that takes the head. */
  datatype Op<!E> = Push(evt: E, skipIfExists: Option<E -> bool>) | Take

  /** The queue after a run of operations, the events taken, and the events pushed. */
  function Apply<E>(queue: seq<E>, ops: seq<Op<E>>): (r: (seq<E>, seq<E>, seq<E>))
    decreases |ops|
  {
    if ops == [] then (queue, [], [])
    else match ops[0]
      case Push(evt, skip) =>
        var rest := Apply(Enqueued(true, queue, evt, skip), ops[1..]);
        (rest.0, rest.1, (if Accepts(true, queue, skip) then [evt] else []) + rest.2)
      case Take =>
        if queue == [] then Apply(queue, ops[1..])
        else
          var rest := Apply(queue[1..], ops[1..]);
          (rest.0, [queue[0]] + rest.1, rest.2)
  }

  /**
   * FIFO: the events handed out followed by those still queued are
   * exactly the events queued at the start followed by those pushed, in
   * the order they were pushed.
   */
  lemma {:induction false} ApplyIsFifo<E>(queue: seq<E>, ops: seq<Op<E>>)
    ensures Apply(queue, ops).1 + Apply(queue, ops).0 == queue + Apply(queue, ops).2
    decreases |ops|
  {
    if ops != [] {
      match ops[0]
      case Push(evt, skip) =>
        var q := Enqueued(true, queue, evt, skip);
        ApplyIsFifo(q, ops[1..]);
        var rest := Apply(q, ops[1..]);
        var pushed := if Accepts(true, queue, skip) then [evt] else [];
        assert q == queue + pushed;
        assert rest.1 + rest.0 == queue + (pushed + rest.2);
      case Take =>
        if queue != [] {
          ApplyIsFifo(queue[1..], ops[1..]);
          var rest := Apply(queue[1..], ops[1..]);
          assert Apply(queue, ops) == (rest.0, [queue[0]] + rest.1, rest.2);
          assert queue == [queue[0]] + queue[1..];
          assert [queue[0]] + rest.1 + rest.0 == [queue[0]] + (rest.1 + rest.0);
        } else {
          ApplyIsFifo(queue, ops[1..]);
        }
    }
  }

  /**
   * EventQueue. `resolved` says whether the current promise has been
   * resolved, `resolverSet` whether `resolvePromise` is still held, and
   * `waiting` whether the poller is suspended at the await.
   */
  class EventQueue<E> {
    var queue: seq<E>
    var started: bool
    var resolved: bool
    var resolverSet: bool
    var waiting: bool

    /**
     * The resolver is dropped exactly when the promise is resolved, and a
     * resolved promise means an event is queued, so a poller woken by it
     * always finds one.
     */
    ghost predicate Valid()
      reads this
    {
      (resolved <==> !resolverSet) && (resolved ==> |queue| >= 1)
    }

    constructor ()
      ensures Valid()
      ensures queue == [] && !started && !resolved && resolverSet && !waiting
    {
      queue := [];
      started := false;
      resolved := false;
      resolverSet := true;
      waiting := false;
    }

    /** refreshPromise: a new, pending promise and its resolver. */
    method RefreshPromise()
      modifies this`resolved, this`resolverSet
      ensures !resolved && resolverSet
    {
      resolved := false;
      resolverSet := true;
    }

    /**
     * queueEvent: dropped before the first wait or when `skipIfExists`
     * matches a queued event; otherwise appended, and the pending
     * resolver, if any, fires once and is cleared.
     */
    method QueueEvent(evt: E, skipIfExists: Option<E -> bool>)
      requires Valid()
      modifies this`queue, this`resolved, this`resolverSet
      ensures Valid()
      ensures queue == Enqueued(started, old(queue), evt, skipIfExists)
      ensures !Accepts(started, old(queue), skipIfExists) ==> resolved == old(resolved) && resolverSet == old(resolverSet)
      ensures Accepts(started, old(queue), skipIfExists) ==> resolved && !resolverSet
    {
      if !started {
        return;
      }
      if skipIfExists.Some? && exists i :: 0 <= i < |queue| && skipIfExists.value(queue[i]) {
        return;
      }
      queue := queue + [evt];
      if resolverSet {
        resolved := true;
        resolverSet := false;
      }
    }

    /**
     * waitForEvent up to its await: with more than one event queued the
     * head is returned at once; otherwise the poller suspends on the
     * current promise.
     */
    method WaitForEvent() returns (r: Option<E>)
      requires Valid() && !waiting
      modifies this`started, this`queue, this`waiting
      ensures Valid() && started
      ensures r.Some? <==> |old(queue)| > 1
      ensures r.Some? ==> r.value == old(queue)[0] && queue == old(queue)[1..] && !waiting
      ensures r.None? ==> queue == old(queue) && waiting
    {
      started := true;
      if |queue| > 1 {
        r := Some(queue[0]);
        queue := queue[1..];
      } else {
        waiting := true;
        r := None;
      }
    }

    /**
     * The continuation after the await, run once the promise is resolved:
     * a fresh promise, then the head of the queue, which is never missing.
     * Before the promise resolves the poller stays suspended.
     */
    method Resume() returns (r: Option<E>)
      requires Valid()
      modifies this`queue, this`resolved, this`resolverSet, this`waiting
      ensures Valid()
      ensures r.Some? <==> old(waiting) && old(resolved)
      ensures r.Some? ==> old(queue) != [] && r.value == old(queue)[0] && queue == old(queue)[1..] && !waiting && !resolved
      ensures r.None? ==> queue == old(queue) && waiting == old(waiting) && resolved == old(resolved) && resolverSet == old(resolverSet)
    {
      if waiting && resolved {
        RefreshPromise();
        waiting := false;
        r := Some(queue[0]);
        queue := queue[1..];
      } else {
        r := None;
      }
    }
  }
}
