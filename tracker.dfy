/**
 * The `ProgressTracker` component's state and the handlers that change it:
 * interaction events, capture requests, the two halves of an analysis, the
 * API-key form, starting and stopping a session, and the end-of-session
 * analysis. Each method performs in place one of the steps of module Capture
 * or Aggregation.
 */
module Tracker {
  import opened Wrappers
  import Text
  import opened Records
  import opened Triggers
  import opened Aggregation
  import opened Format
  import opened Capture

  /** A closed session as appended to the session history. */
  datatype SessionRecord = SessionRecord(
    duration: nat,
    screenshotCount: nat,
    goal: string,
    analysisData: seq<LogEntry>,
    captureStats: CaptureStats)

  const DefaultGoal := "Complete project documentation"

  class ProgressTracker {
    var isRecording: bool
    var sessionTime: nat
    var screenshots: seq<Screenshot>
    var currentGoal: string
    var apiKey: string
    var isApiKeySet: bool
    var progressData: Progress
    var aiAnalysis: Option<Summary>
    var sessions: seq<SessionRecord>
    var analysisLog: seq<LogEntry>
    var captureStats: CaptureStats
    /** `streamRef.current` is set. */
    var hasStream: bool
    /** `keystrokeCountRef.current`. */
    var keystrokeCount: nat
    /** `isAnalyzingRef.current`, the concurrency gate. */
    var isAnalyzing: bool
    /** The screenshot whose analysis holds the gate. */
    var inFlight: Option<Screenshot>
    /** Every capture request made so far, whether or not it was dropped. */
    ghost var requests: seq<Reason>

    ghost predicate Valid()
      reads this
    {
      && keystrokeCount < BurstSize
      && (isAnalyzing <==> inFlight.Some?)
      && ProgressInRange(progressData)
      && (isRecording ==> hasStream)
    }

    /** The part of the state a capture touches. */
    function Pipe(): Pipeline
      reads this
    {
      Pipeline(screenshots, analysisLog, inFlight)
    }

    constructor ()
      ensures Valid()
      ensures !isRecording && sessionTime == 0 && screenshots == [] && analysisLog == []
      ensures currentGoal == DefaultGoal && apiKey == [] && !isApiKeySet
      ensures progressData == NoProgress && aiAnalysis == None && sessions == []
      ensures captureStats == NoStats && !hasStream && keystrokeCount == 0
      ensures !isAnalyzing && inFlight == None && requests == []
    {
      isRecording := false;
      sessionTime := 0;
      screenshots := [];
      currentGoal := DefaultGoal;
      apiKey := [];
      isApiKeySet := false;
      progressData := NoProgress;
      aiAnalysis := None;
      sessions := [];
      analysisLog := [];
      captureStats := NoStats;
      hasStream := false;
      keystrokeCount := 0;
      isAnalyzing := false;
      inFlight := None;
      requests := [];
    }

    /** The goal field's `onChange`; later analyses and summaries use the new goal. */
    method SetGoal(goal: string)
      requires Valid()
      modifies this`currentGoal
      ensures Valid() && currentGoal == goal
    {
      currentGoal := goal;
    }

    /** The key field's `onChange` followed by `handleApiKeySubmit`; a rejected key changes nothing else. */
    method SubmitApiKey(entered: string)
      requires Valid()
      modifies this`apiKey, this`isApiKeySet
      ensures Valid() && apiKey == entered
      ensures isApiKeySet == (old(isApiKeySet) || KeyAccepted(entered))
    {
      apiKey := entered;
      if KeyAccepted(apiKey) {
        isApiKeySet := true;
      }
    }

    /** One firing of the one-second session clock. */
    method Tick()
      requires Valid() && isRecording
      modifies this`sessionTime
      ensures Valid() && sessionTime == old(sessionTime) + 1
    {
      sessionTime := sessionTime + 1;
    }

    // -------------------------------------------------------------------
    // Capture and analysis
    // -------------------------------------------------------------------

    /** `triggerScreenshot(reason)`, with the frame grab's outcome given. */
    method TriggerScreenshot(reason: Reason, grab: Grab)
      requires Valid()
      modifies this`screenshots, this`analysisLog, this`isAnalyzing, this`inFlight, this`requests
      ensures Valid()
      ensures Pipe() == TriggerStep(old(Pipe()), hasStream, isApiKeySet, reason, grab)
      ensures requests == old(requests) + [reason]
    {
      requests := requests + [reason];
      if !hasStream || isAnalyzing {
        return;
      }
      match grab {
        case GrabFailed(timestamp, message) =>
          analysisLog := analysisLog + [CaptureFailedEntry(timestamp, reason, message)];
        case Grabbed(id, timestamp) =>
          var shot := NewScreenshot(id, timestamp, reason);
          screenshots := screenshots + [shot];
          if isApiKeySet {
            AnalyzeScreenshot(shot);
          }
      }
    }

    /** The start of `analyzeScreenshotWithAI(shot)`: take the gate, or return if it is held. */
    method AnalyzeScreenshot(shot: Screenshot)
      requires Valid()
      modifies this`isAnalyzing, this`inFlight
      ensures Valid()
      ensures Pipe() == BeginStep(old(Pipe()), shot)
    {
      if isAnalyzing {
        return;
      }
      isAnalyzing := true;
      inFlight := Some(shot);
    }

    /**
     * The rest of `analyzeScreenshotWithAI` once the awaited
     * `callOpenAIVision` has settled (see `Capture.CallVision`): the `try`
     * and `catch` branches, then the `finally` that releases the gate.
     */
    method FinishAnalysis(outcome: Settled)
      requires Valid() && isAnalyzing
      modifies this`screenshots, this`analysisLog, this`isAnalyzing, this`inFlight
      ensures Valid() && !isAnalyzing
      ensures Pipe() == FinishStep(old(Pipe()), outcome)
    {
      var shot := inFlight.value;
      match outcome {
        case Resolved(a) =>
          screenshots := MarkAnalyzed(screenshots, shot.id, a);
          analysisLog := analysisLog + [AnalyzedEntry(shot, a)];
        case Rejected(message) =>
          analysisLog := analysisLog + [AnalysisFailedEntry(shot, message)];
      }
      isAnalyzing := false;
      inFlight := None;
    }

    // -------------------------------------------------------------------
    // Event handlers, attached only while recording
    // -------------------------------------------------------------------

    /** The 30-second periodic capture. */
    method HandlePeriodic(grab: Grab)
      requires Valid() && isRecording
      modifies this`screenshots, this`analysisLog, this`isAnalyzing, this`inFlight, this`requests
      ensures Valid() && captureStats == old(captureStats)
      ensures requests == old(requests) + [Periodic]
      ensures Pipe() == TriggerStep(old(Pipe()), hasStream, isApiKeySet, Periodic, grab)
    {
      TriggerScreenshot(Periodic, grab);
    }

    method HandleClick(grab: Grab)
      requires Valid() && isRecording
      modifies this`captureStats, this`screenshots, this`analysisLog, this`isAnalyzing, this`inFlight, this`requests
      ensures Valid()
      ensures captureStats == old(captureStats).(clicks := old(captureStats.clicks) + 1)
      ensures requests == old(requests) + [Click]
      ensures Pipe() == TriggerStep(old(Pipe()), hasStream, isApiKeySet, Click, grab)
    {
      captureStats := captureStats.(clicks := captureStats.clicks + 1);
      TriggerScreenshot(Click, grab);
    }

    /**
     * A qualifying key adds one to the keystroke count and the burst counter;
     * the twentieth resets the counter and requests a `keystrokes` capture.
     * Any other key changes nothing.
     */
    method HandleKeydown(e: KeyEvent, grab: Grab)
      requires Valid() && isRecording
      modifies this`keystrokeCount, this`captureStats, this`screenshots, this`analysisLog,
               this`isAnalyzing, this`inFlight, this`requests
      ensures Valid()
      ensures keystrokeCount == KeyStep(old(keystrokeCount), e).count
      ensures captureStats == old(captureStats).(keystrokes := old(captureStats.keystrokes) + if IsQualifying(e) then 1 else 0)
      ensures KeyStep(old(keystrokeCount), e).fire ==>
        requests == old(requests) + [Keystrokes]
        && Pipe() == TriggerStep(old(Pipe()), hasStream, isApiKeySet, Keystrokes, grab)
      ensures !KeyStep(old(keystrokeCount), e).fire ==> requests == old(requests) && Pipe() == old(Pipe())
    {
      var isCharacterKey := Text.IsOneCodeUnit(e.key) && !e.ctrlKey && !e.altKey && !e.metaKey;
      var isAllowedKey := e.key in AllowedKeys;
      if isCharacterKey || isAllowedKey {
        keystrokeCount := keystrokeCount + 1;
        captureStats := captureStats.(keystrokes := captureStats.keystrokes + 1);
        if keystrokeCount >= BurstSize {
          keystrokeCount := 0;
          TriggerScreenshot(Keystrokes, grab);
        }
      }
    }

    /** The window regained focus. */
    method HandleWindowFocus(grab: Grab)
      requires Valid() && isRecording
      modifies this`captureStats, this`screenshots, this`analysisLog, this`isAnalyzing, this`inFlight, this`requests
      ensures Valid()
      ensures captureStats == old(captureStats).(windowChanges := old(captureStats.windowChanges) + 1)
      ensures requests == old(requests) + [FocusReturn]
      ensures Pipe() == TriggerStep(old(Pipe()), hasStream, isApiKeySet, FocusReturn, grab)
    {
      captureStats := captureStats.(windowChanges := captureStats.windowChanges + 1);
      TriggerScreenshot(FocusReturn, grab);
    }

    /** The window lost focus. */
    method HandleWindowBlur(grab: Grab)
      requires Valid() && isRecording
      modifies this`captureStats, this`screenshots, this`analysisLog, this`isAnalyzing, this`inFlight, this`requests
      ensures Valid()
      ensures captureStats == old(captureStats).(windowChanges := old(captureStats.windowChanges) + 1)
      ensures requests == old(requests) + [FocusLeave]
      ensures Pipe() == TriggerStep(old(Pipe()), hasStream, isApiKeySet, FocusLeave, grab)
    {
      captureStats := captureStats.(windowChanges := captureStats.windowChanges + 1);
      TriggerScreenshot(FocusLeave, grab);
    }

    /** The tab was hidden (`hidden`) or shown again. */
    method HandleVisibilityChange(hidden: bool, grab: Grab)
      requires Valid() && isRecording
      modifies this`captureStats, this`screenshots, this`analysisLog, this`isAnalyzing, this`inFlight, this`requests
      ensures Valid()
      ensures captureStats == old(captureStats).(windowChanges := old(captureStats.windowChanges) + 1)
      ensures requests == old(requests) + [VisibilityReason(hidden)]
      ensures Pipe() == TriggerStep(old(Pipe()), hasStream, isApiKeySet, VisibilityReason(hidden), grab)
    {
      if hidden {
        captureStats := captureStats.(windowChanges := captureStats.windowChanges + 1);
        TriggerScreenshot(TabHidden, grab);
      } else {
        captureStats := captureStats.(windowChanges := captureStats.windowChanges + 1);
        TriggerScreenshot(TabVisible, grab);
      }
    }

    // -------------------------------------------------------------------
    // Sessions
    // -------------------------------------------------------------------

    /**
     * `toggleRecording`, with whether the screen-share prompt was granted.
     * Without an accepted key nothing happens; a running session is closed;
     * otherwise a granted share starts a session with everything reset.
     */
    method ToggleRecording(screenShareGranted: bool)
      requires Valid()
      modifies this`isRecording, this`hasStream, this`sessionTime, this`screenshots, this`analysisLog,
               this`captureStats, this`keystrokeCount, this`sessions, this`aiAnalysis, this`progressData
      ensures Valid()
      ensures (currentGoal, apiKey, isApiKeySet, isAnalyzing, inFlight, requests)
        == old((currentGoal, apiKey, isApiKeySet, isAnalyzing, inFlight, requests))
      ensures !old(isApiKeySet) ==> unchanged(this)
      ensures old(isApiKeySet) && old(isRecording) ==>
        && !isRecording && SessionClosed()
        && (screenshots, analysisLog, sessionTime, captureStats, keystrokeCount, hasStream)
          == old((screenshots, analysisLog, sessionTime, captureStats, keystrokeCount, hasStream))
      ensures old(isApiKeySet) && !old(isRecording) && !screenShareGranted ==> unchanged(this)
      ensures old(isApiKeySet) && !old(isRecording) && screenShareGranted ==>
        && isRecording && hasStream
        && (sessionTime, screenshots, analysisLog, captureStats, keystrokeCount) == (0, [], [], NoStats, 0)
        && (sessions, aiAnalysis, progressData) == old((sessions, aiAnalysis, progressData))
    {
      if !isApiKeySet {
        return;
      }
      if isRecording {
        StopRecording();
      } else if screenShareGranted {
        StartSession();
      }
    }

    /** The reset once the screen share has started: a fresh, empty session is recording. */
    method StartSession()
      requires Valid()
      modifies this`isRecording, this`hasStream, this`sessionTime, this`screenshots, this`analysisLog,
               this`captureStats, this`keystrokeCount
      ensures Valid()
      ensures isRecording && hasStream
      ensures sessionTime == 0 && screenshots == [] && analysisLog == []
      ensures captureStats == NoStats && keystrokeCount == 0
    {
      hasStream := true;
      isRecording := true;
      sessionTime := 0;
      screenshots := [];
      analysisLog := [];
      captureStats := NoStats;
      keystrokeCount := 0;
    }

    /**
     * Stopping a running session: recording ends (the stream's tracks are
     * stopped, which the model does not represent) and the session is closed.
     */
    method StopRecording()
      requires Valid() && isRecording
      modifies this`isRecording, this`sessions, this`aiAnalysis, this`progressData
      ensures Valid() && !isRecording
      ensures SessionClosed()
    {
      isRecording := false;
      EndSession();
    }

    /** The shared stream's `ended` event: the session stops and is closed. */
    method HandleStreamEnded()
      requires Valid() && isRecording
      modifies this`isRecording, this`sessions, this`aiAnalysis, this`progressData
      ensures Valid() && !isRecording
      ensures SessionClosed()
    {
      StopRecording();
    }

    /**
     * What closing a session leaves behind: its record is appended to the
     * history; with no valid row the summary and the progress stay as they
     * were, otherwise the summary is published and folded into the progress.
     */
    twostate predicate SessionClosed()
      reads this
    {
      && sessions == old(sessions) + [SessionRecord(old(sessionTime), |old(screenshots)|, old(currentGoal), old(analysisLog), old(captureStats))]
      && (Summarize(old(analysisLog), old(currentGoal), old(captureStats)).None? ==>
            aiAnalysis == old(aiAnalysis) && progressData == old(progressData))
      && (Summarize(old(analysisLog), old(currentGoal), old(captureStats)).Some? ==>
            aiAnalysis == Summarize(old(analysisLog), old(currentGoal), old(captureStats))
            && progressData == FoldProgress(old(progressData), old(sessionTime), aiAnalysis.value))
    }

    /** `endSession`: record the session in the history, then summarise it. */
    method EndSession()
      requires Valid()
      modifies this`sessions, this`aiAnalysis, this`progressData
      ensures Valid()
      ensures SessionClosed()
    {
      var session := SessionRecord(sessionTime, |screenshots|, currentGoal, analysisLog, captureStats);
      sessions := sessions + [session];
      PerformFinalAnalysis(session);
    }

    /**
     * `performFinalAnalysis(session)`: with no valid row nothing changes;
     * otherwise the summary is published and folded into the progress figures.
     */
    method PerformFinalAnalysis(session: SessionRecord)
      requires Valid()
      modifies this`aiAnalysis, this`progressData
      ensures Valid()
      ensures Summarize(analysisLog, currentGoal, captureStats).None? ==>
        aiAnalysis == old(aiAnalysis) && progressData == old(progressData)
      ensures Summarize(analysisLog, currentGoal, captureStats).Some? ==>
        aiAnalysis == Summarize(analysisLog, currentGoal, captureStats)
        && progressData == FoldProgress(old(progressData), session.duration, aiAnalysis.value)
    {
      var summary := Summarize(analysisLog, currentGoal, captureStats);
      if summary.Some? {
        Publish(summary.value, session.duration);
      }
    }

    /** `setAiAnalysis(finalAnalysis)` and the `setProgressData` fold that follows it. */
    method Publish(s: Summary, duration: nat)
      requires Valid()
      modifies this`aiAnalysis, this`progressData
      ensures Valid()
      ensures aiAnalysis == Some(s) && progressData == FoldProgress(old(progressData), duration, s)
    {
      aiAnalysis := Some(s);
      FoldKeepsRange(progressData, duration, s);
      progressData := FoldProgress(progressData, duration, s);
    }
  }
}
