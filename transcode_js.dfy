/**
 * libmedia/transcode/transcode.js: `ensure` loads the transcoding worker
 * lazily, once, and hands every caller the same promise; `transcode`
 * waits for it and then sends a request on the worker's CmdClient. A
 * promise is named by a number; the worker load itself is left out.
 */
module TranscodeJs {
  import opened Wrappers
  import CmdClient

  /** `workerPromise` (None while null) and how many worker loads were started. */
  datatype Loader = Loader(workerPromise: Option<nat>, loads: nat)

  /** The promise is the load started, so it exists exactly when a load was started, and at most one was. */
  ghost predicate Valid(l: Loader)
  {
    (l.workerPromise.None? <==> l.loads == 0) && l.loads <= 1
  }

  /** ensure: starts the load when there is no promise yet, then returns the promise. */
  function AfterEnsure(l: Loader): (Loader, nat)
  {
    if l.workerPromise.None? then (Loader(Some(l.loads), l.loads + 1), l.loads)
    else (l, l.workerPromise.value)
  }

  function EnsureTimes(l: Loader, n: nat): (r: Loader)
    decreases n
  {
    if n == 0 then l else EnsureTimes(AfterEnsure(l).0, n - 1)
  }

  lemma EnsureValid(l: Loader)
    requires Valid(l)
    ensures Valid(AfterEnsure(l).0) && AfterEnsure(l).0.workerPromise == Some(AfterEnsure(l).1)
  {
  }

  /** However many times `ensure` is called, the worker is loaded once, and every call after the first returns the first call's promise. */
  lemma {:induction false} EnsureOnce(l: Loader, n: nat)
    requires Valid(l)
    ensures Valid(EnsureTimes(l, n))
    ensures n >= 1 ==> EnsureTimes(l, n).loads == 1
    ensures n >= 1 ==> AfterEnsure(EnsureTimes(l, n)).1 == AfterEnsure(l).1
    decreases n
  {
    if n > 0 {
      EnsureValid(l);
      EnsureOnce(AfterEnsure(l).0, n - 1);
    }
  }

  class Module {
    var workerPromise: Option<nat>
    var loads: nat
    /** The worker's client, created by the load. */
    var workerClient: CmdClient.Client?

    function State(): Loader
      reads this
    {
      Loader(workerPromise, loads)
    }

    constructor ()
      ensures State() == Loader(None, 0) && workerClient == null
    {
      workerPromise := None;
      loads := 0;
      workerClient := null;
    }

    method Ensure() returns (p: nat)
      modifies this
      ensures (State(), p) == AfterEnsure(old(State()))
      ensures old(workerPromise).None? ==> fresh(workerClient) && workerClient.Current() == CmdClient.Initial
      ensures old(workerPromise).Some? ==> workerClient == old(workerClient)
    {
      if workerPromise.None? {
        workerPromise := Some(loads);
        loads := loads + 1;
        workerClient := new CmdClient.Client();
      }
      return workerPromise.value;
    }

    /** transcode: ensure the worker, then send the data on its client. */
    method Transcode(data: CmdClient.Request) returns (msgId: nat)
      requires workerPromise.Some? ==> workerClient != null
      modifies this, workerClient
      ensures workerClient != null && State() == AfterEnsure(old(State())).0
      ensures |workerClient.posted| >= 1 && workerClient.posted[|workerClient.posted| - 1] == (data, msgId)
      ensures msgId in workerClient.pendingMessages
    {
      var _ := Ensure();
      msgId := workerClient.Send(data);
    }
  }
}
