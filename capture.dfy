/**
 * The capture-and-analysis pipeline as steps on a value: what one capture
 * request, the start of an analysis and the end of an analysis do to the
 * screenshot list, the analysis log and the concurrency gate. The tracker
 * class performs these steps in place.
 */
module Capture {
  import opened Wrappers
  import opened Records
  import opened Heuristics

  /** How a frame grab ended: the id and time stamp of the new screenshot, or the message it threw with. */
  datatype Grab = Grabbed(id: int, timestamp: string) | GrabFailed(timestamp: string, message: string)

  /** How the request to the vision API ended: the reply text, or the message it threw with. */
  datatype Reply = Replied(content: string) | ReplyFailed(message: string)

  /** How the promise of `callOpenAIVision` settled: with an analysis, or rejected with a message. */
  datatype Settled = Resolved(analysis: Analysis) | Rejected(message: string)

  /**
   * `callOpenAIVision` once its request has ended: a reply is read as
   * `Respond` reads it, and a failure is passed on (re-thrown).
   */
  function CallVision(reply: Reply, hour: int, parse: string -> Option<Analysis>): (r: Settled)
    ensures reply.Replied? <==> r.Resolved?
    ensures reply.Replied? ==> r.analysis == Respond(reply.content, hour, parse)
    ensures reply.ReplyFailed? ==> r.message == reply.message
  {
    match reply
    case Replied(content) => Resolved(Respond(content, hour, parse))
    case ReplyFailed(message) => Rejected(message)
  }

  /**
   * The state a capture touches. The gate `isAnalyzingRef` is held exactly
   * when an analysis is in flight, and `inFlight` is the screenshot it is for,
   * so at most one analysis is ever outstanding.
   */
  datatype Pipeline = Pipeline(screenshots: seq<Screenshot>, log: seq<LogEntry>, inFlight: Option<Screenshot>) {
    predicate GateHeld()
    {
      inFlight.Some?
    }
  }

  // ---------------------------------------------------------------------
  // Updating the screenshot an analysis was for
  // ---------------------------------------------------------------------

  function MarkOne(s: Screenshot, id: int, a: Analysis): Screenshot
  {
    if s.id == id then s.(analyzed := true, aiAnalysis := Some(a)) else s
  }

  /** `prev.map(s => s.id === id ? { ...s, analyzed: true, aiAnalysis: a } : s)`. */
  function MarkAnalyzed(shots: seq<Screenshot>, id: int, a: Analysis): (r: seq<Screenshot>)
    ensures |r| == |shots|
  {
    if shots == [] then [] else [MarkOne(shots[0], id, a)] + MarkAnalyzed(shots[1..], id, a)
  }

  /**
   * The update keeps length and order: a screenshot with the id gets the
   * analysis and its flag set, with id, time stamp and trigger kept; every
   * other screenshot is left as it was.
   */
  lemma {:induction false} MarkAnalyzedAt(shots: seq<Screenshot>, id: int, a: Analysis, k: nat)
    requires k < |shots|
    ensures shots[k].id == id ==>
      MarkAnalyzed(shots, id, a)[k] == Screenshot(shots[k].id, shots[k].timestamp, shots[k].trigger, true, Some(a))
    ensures shots[k].id != id ==> MarkAnalyzed(shots, id, a)[k] == shots[k]
  {
    if k > 0 {
      MarkAnalyzedAt(shots[1..], id, a, k - 1);
    }
  }

  /** An id no screenshot carries (the session was reset meanwhile) leaves the list unchanged. */
  lemma {:induction false} MarkAnalyzedUnknownId(shots: seq<Screenshot>, id: int, a: Analysis)
    requires forall k :: 0 <= k < |shots| ==> shots[k].id != id
    ensures MarkAnalyzed(shots, id, a) == shots
  {
    if shots != [] {
      MarkAnalyzedUnknownId(shots[1..], id, a);
    }
  }

  /** Applying the same result twice is the same as applying it once. */
  lemma {:induction false} MarkAnalyzedIdempotent(shots: seq<Screenshot>, id: int, a: Analysis)
    ensures MarkAnalyzed(MarkAnalyzed(shots, id, a), id, a) == MarkAnalyzed(shots, id, a)
  {
    if shots != [] {
      MarkAnalyzedIdempotent(shots[1..], id, a);
    }
  }

  // ---------------------------------------------------------------------
  // The steps
  // ---------------------------------------------------------------------

  /**
   * The start of `analyzeScreenshotWithAI`: nothing happens while the gate is
   * held; otherwise the gate is taken for `shot` before any other work.
   */
  function BeginStep(p: Pipeline, shot: Screenshot): (r: Pipeline)
    ensures r.GateHeld()
    ensures r.screenshots == p.screenshots && r.log == p.log
    ensures p.GateHeld() ==> r == p
    ensures !p.GateHeld() ==> r.inFlight == Some(shot)
  {
    if p.GateHeld() then p else p.(inFlight := Some(shot))
  }

  /**
   * `triggerScreenshot(reason)`: dropped without a trace when there is no
   * stream or the gate is held; otherwise a failed grab appends one "Capture
   * Failed" row, and a successful one appends one unanalyzed screenshot
   * carrying the reason and, when a key is set, starts its analysis.
   */
  function TriggerStep(p: Pipeline, hasStream: bool, keySet: bool, reason: Reason, grab: Grab): (r: Pipeline)
    ensures (!hasStream || p.GateHeld()) ==> r == p
    ensures hasStream && !p.GateHeld() && grab.GrabFailed? ==>
      r == p.(log := p.log + [CaptureFailedEntry(grab.timestamp, reason, grab.message)])
    ensures hasStream && !p.GateHeld() && grab.Grabbed? ==>
      && r.screenshots == p.screenshots + [NewScreenshot(grab.id, grab.timestamp, reason)]
      && r.log == p.log
      && r.inFlight == (if keySet then Some(NewScreenshot(grab.id, grab.timestamp, reason)) else None)
  {
    if !hasStream || p.GateHeld() then p
    else match grab
      case GrabFailed(timestamp, message) =>
        p.(log := p.log + [CaptureFailedEntry(timestamp, reason, message)])
      case Grabbed(id, timestamp) =>
        var shot := NewScreenshot(id, timestamp, reason);
        var q := p.(screenshots := p.screenshots + [shot]);
        if keySet then BeginStep(q, shot) else q
  }

  /**
   * The end of `analyzeScreenshotWithAI`: one log row is appended (the
   * analysis on success, an "Analysis Failed" row on failure), the screenshot
   * is marked only on success, and the gate is released either way.
   */
  function FinishStep(p: Pipeline, outcome: Settled): (r: Pipeline)
    requires p.GateHeld()
    ensures !r.GateHeld()
    ensures |r.log| == |p.log| + 1 && r.log[..|p.log|] == p.log
    ensures |r.screenshots| == |p.screenshots|
    ensures outcome.Rejected? ==>
      r.screenshots == p.screenshots && r.log[|p.log|] == AnalysisFailedEntry(p.inFlight.value, outcome.message)
    ensures outcome.Resolved? ==>
      r.screenshots == MarkAnalyzed(p.screenshots, p.inFlight.value.id, outcome.analysis)
      && r.log[|p.log|] == AnalyzedEntry(p.inFlight.value, outcome.analysis)
  {
    var shot := p.inFlight.value;
    match outcome
    case Resolved(a) =>
      Pipeline(MarkAnalyzed(p.screenshots, shot.id, a), p.log + [AnalyzedEntry(shot, a)], None)
    case Rejected(message) =>
      Pipeline(p.screenshots, p.log + [AnalysisFailedEntry(shot, message)], None)
  }

  // ---------------------------------------------------------------------
  // The gate over many requests
  // ---------------------------------------------------------------------

  datatype Request = Request(reason: Reason, grab: Grab)

  function RunRequests(p: Pipeline, hasStream: bool, keySet: bool, requests: seq<Request>): Pipeline
    decreases |requests|
  {
    if requests == [] then p
    else
      var q := TriggerStep(p, hasStream, keySet, requests[0].reason, requests[0].grab);
      RunRequests(q, hasStream, keySet, requests[1..])
  }

  /**
   * While an analysis is in flight, any number of capture requests are all
   * dropped: no screenshot, no log row, and the same analysis stays in flight.
   */
  lemma {:induction false} BusyGateDropsRequests(p: Pipeline, hasStream: bool, keySet: bool, requests: seq<Request>)
    requires p.GateHeld()
    ensures RunRequests(p, hasStream, keySet, requests) == p
    decreases |requests|
  {
    if requests != [] {
      BusyGateDropsRequests(p, hasStream, keySet, requests[1..]);
    }
  }

  /** Requests never remove or reorder what the log already holds. */
  lemma {:induction false} RequestsOnlyAppend(p: Pipeline, hasStream: bool, keySet: bool, requests: seq<Request>)
    ensures |p.log| <= |RunRequests(p, hasStream, keySet, requests).log|
    ensures RunRequests(p, hasStream, keySet, requests).log[..|p.log|] == p.log
    ensures |p.screenshots| <= |RunRequests(p, hasStream, keySet, requests).screenshots|
    ensures RunRequests(p, hasStream, keySet, requests).screenshots[..|p.screenshots|] == p.screenshots
    decreases |requests|
  {
    if requests != [] {
      var q := TriggerStep(p, hasStream, keySet, requests[0].reason, requests[0].grab);
      RequestsOnlyAppend(q, hasStream, keySet, requests[1..]);
      var r := RunRequests(q, hasStream, keySet, requests[1..]);
      assert q.log[..|p.log|] == p.log;
      assert r.log[..|p.log|] == r.log[..|q.log|][..|p.log|];
      assert q.screenshots[..|p.screenshots|] == p.screenshots;
      assert r.screenshots[..|p.screenshots|] == r.screenshots[..|q.screenshots|][..|p.screenshots|];
    }
  }

  /**
   * A failed analysis followed by a successful one for a later capture leaves
   * both rows in the log in completion order, the first with productivity 0.
   */
  lemma FailureThenSuccess(p: Pipeline, reason: Reason, id: int, timestamp: string, message: string, a: Analysis)
    requires p.GateHeld()
    ensures
      var p1 := FinishStep(p, Rejected(message));
      var p2 := TriggerStep(p1, true, true, reason, Grabbed(id, timestamp));
      var p3 := FinishStep(p2, Resolved(a));
      && p3.log == p.log + [AnalysisFailedEntry(p.inFlight.value, message), AnalyzedEntry(NewScreenshot(id, timestamp, reason), a)]
      && p3.log[|p.log|].productivity == 0
      && p3.log[|p.log| + 1].error == None
  {
    var p1 := FinishStep(p, Rejected(message));
    var p2 := TriggerStep(p1, true, true, reason, Grabbed(id, timestamp));
    var p3 := FinishStep(p2, Resolved(a));
    assert p1 == Pipeline(p.screenshots, p.log + [AnalysisFailedEntry(p.inFlight.value, message)], None);
    var shot := NewScreenshot(id, timestamp, reason);
    assert p2 == Pipeline(p1.screenshots + [shot], p1.log, Some(shot));
    assert p3.log == p1.log + [AnalyzedEntry(shot, a)];
  }
}
