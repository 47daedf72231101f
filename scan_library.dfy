/**
 * `scan_video_library_and_wait_for_done` of kodi_rpc/scan_library.rs: start
 * a library scan, then poll `Library.IsScanningVideo` until the server says it
 * is false. The five-second pause between polls is not modelled; the replies
 * the server gives are a sequence, one per poll. The source polls for ever;
 * when the given replies run out before the loop ends, the outcome is
 * `StillScanning`.
 */
module ScanLibrary {
  import opened Wrappers
  import opened Types
  import opened KodiRpc
  import opened InfoBooleans

  datatype ScanOutcome = Done | Failed(error: RpcError) | StillScanning

  /** A poll whose reply says the library is no longer scanning. */
  predicate ReportsIdle(poll: RpcResult<InfoBooleansResponse>)
  {
    poll.Ok? && !poll.value.libraryIsScanningVideo
  }

  /** A poll that ends the loop: it failed, or it reports the scan over. */
  predicate Stops(poll: RpcResult<InfoBooleansResponse>)
  {
    poll.Err? || ReportsIdle(poll)
  }

  /** The index of the first poll that ends the loop, or the number of polls if none does. */
  function FirstStop(polls: seq<RpcResult<InfoBooleansResponse>>): (k: nat)
    ensures k <= |polls|
    ensures forall j :: 0 <= j < k ==> !Stops(polls[j])
    ensures k < |polls| ==> Stops(polls[k])
  {
    if polls == [] then 0 else if Stops(polls[0]) then 0 else 1 + FirstStop(polls[1..])
  }

  /** The first stopping poll is determined by the polls that come before it. */
  lemma {:induction false} FirstStopAt(polls: seq<RpcResult<InfoBooleansResponse>>, i: nat)
    requires i <= |polls|
    requires forall j :: 0 <= j < i ==> !Stops(polls[j])
    requires i < |polls| ==> Stops(polls[i])
    ensures FirstStop(polls) == i
  {
    if i > 0 {
      FirstStopAt(polls[1..], i - 1);
    }
  }

  /** How many polls the loop makes. */
  function PollCount(polls: seq<RpcResult<InfoBooleansResponse>>): nat
  {
    if FirstStop(polls) < |polls| then FirstStop(polls) + 1 else |polls|
  }

  /** The outcome of the operation, as a function of the replies. */
  function ScanResult(start: RpcResult<string>, polls: seq<RpcResult<InfoBooleansResponse>>): ScanOutcome
  {
    if start.Err? then Failed(start.error)
    else
      var k := FirstStop(polls);
      if k == |polls| then StillScanning
      else if polls[k].Err? then Failed(polls[k].error)
      else Done
  }

  /**
   * The loop. `start` is the reply to `VideoLibrary.Scan`, `polls` the replies
   * to the successive status requests; `calls` lists the remote methods
   * called, in order.
   */
  method ScanVideoLibraryAndWaitForDone(start: RpcResult<string>, polls: seq<RpcResult<InfoBooleansResponse>>)
    returns (outcome: ScanOutcome, calls: seq<string>)
    ensures outcome == ScanResult(start, polls)
    ensures start.Err? ==> calls == [ScanMethod]
    ensures start.Ok? ==> calls == [ScanMethod] + seq(PollCount(polls), _ => GetInfoBooleansMethod)
  {
    calls := [ScanMethod];
    if start.Err? {
      return Failed(start.error), calls;
    }
    var i := 0;
    while i < |polls|
      invariant 0 <= i <= |polls|
      invariant forall j :: 0 <= j < i ==> !Stops(polls[j])
      invariant calls == [ScanMethod] + seq(i, _ => GetInfoBooleansMethod)
    {
      var sent, status := GetInfoBoolean([IsScanningVideo], polls[i]);
      calls := calls + [sent.methodName];
      assert calls == [ScanMethod] + seq(i + 1, _ => GetInfoBooleansMethod);
      if status.Err? {
        FirstStopAt(polls, i);
        return Failed(status.error), calls;
      }
      if Get(status.value, IsScanningVideo) == Some(false) {
        FirstStopAt(polls, i);
        return Done, calls;
      }
      i := i + 1;
    }
    FirstStopAt(polls, i);
    outcome := StillScanning;
  }

  /**
   * Success means the server was seen to report the scan over, after a run of
   * polls that all succeeded and all said it was still scanning.
   */
  lemma DoneMeansIdleObserved(start: RpcResult<string>, polls: seq<RpcResult<InfoBooleansResponse>>)
    requires ScanResult(start, polls) == Done
    ensures start.Ok?
    ensures PollCount(polls) > 0 && ReportsIdle(polls[PollCount(polls) - 1])
    ensures forall j :: 0 <= j < PollCount(polls) - 1 ==> polls[j].Ok? && polls[j].value.libraryIsScanningVideo
  {
  }

  /** Replies after the one that ends the loop are never asked for: they cannot change the outcome. */
  lemma {:induction false} LaterPollsIgnored(start: RpcResult<string>, polls: seq<RpcResult<InfoBooleansResponse>>,
                                             later: seq<RpcResult<InfoBooleansResponse>>)
    requires FirstStop(polls) < |polls|
    ensures FirstStop(polls + later) == FirstStop(polls)
    ensures ScanResult(start, polls + later) == ScanResult(start, polls)
  {
    var k := FirstStop(polls);
    FirstStopAt(polls + later, k);
  }
}
