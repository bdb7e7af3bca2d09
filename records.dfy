/**
 * The values the tracker passes around: why a capture fired, the analyzer's
 * judgment of a screenshot, the screenshot records, the analysis-log entries
 * and the interaction counters.
 */
module Records {
  import opened Wrappers

  /** The cause of a capture request. */
  datatype Reason = Periodic | Click | Keystrokes | FocusReturn | FocusLeave | TabHidden | TabVisible

  /**
   * One analysis of a screenshot. The fields the session aggregation reads
   * with a fallback (`|| 50`, `|| []`) are optional, because a reply parsed
   * as JSON is taken as it is and may lack them.
   */
  datatype Analysis = Analysis(
    productivityScore: int,
    activity: string,
    insights: Option<seq<string>>,
    focusLevel: Option<int>,
    distractions: seq<string>,
    goalAlignment: Option<int>,
    recommendations: Option<seq<string>>,
    applications: seq<string>,
    timeOfDay: string,
    workPattern: string)

  /** A captured screenshot; the image itself is not modelled. */
  datatype Screenshot = Screenshot(
    id: int,
    timestamp: string,
    trigger: Reason,
    analyzed: bool,
    aiAnalysis: Option<Analysis>)

  /** One row of the analysis log; `error` is present only on failure rows. */
  datatype LogEntry = LogEntry(
    timestamp: string,
    trigger: Reason,
    productivity: int,
    activity: string,
    insights: Option<seq<string>>,
    fullAnalysis: Option<Analysis>,
    error: Option<string>)

  datatype CaptureStats = CaptureStats(clicks: nat, keystrokes: nat, windowChanges: nat)

  const NoStats := CaptureStats(0, 0, 0)

  /** A freshly captured screenshot, not yet analyzed. */
  function NewScreenshot(id: int, timestamp: string, trigger: Reason): (s: Screenshot)
    ensures s.id == id && s.timestamp == timestamp && s.trigger == trigger
    ensures !s.analyzed && s.aiAnalysis == None
  {
    Screenshot(id, timestamp, trigger, false, None)
  }

  /** The log row of a successful analysis of `shot`. */
  function AnalyzedEntry(shot: Screenshot, a: Analysis): (e: LogEntry)
    ensures e.timestamp == shot.timestamp && e.trigger == shot.trigger
    ensures e.productivity == a.productivityScore && e.activity == a.activity && e.insights == a.insights
    ensures e.error == None && e.fullAnalysis == Some(a)
  {
    LogEntry(shot.timestamp, shot.trigger, a.productivityScore, a.activity, a.insights, Some(a), None)
  }

  /** The log row of an analysis of `shot` that threw with `message`. */
  function AnalysisFailedEntry(shot: Screenshot, message: string): (e: LogEntry)
    ensures e.timestamp == shot.timestamp && e.trigger == shot.trigger
    ensures e.activity == "Analysis Failed" && e.insights == Some(["AI analysis failed: " + message])
    ensures e.productivity == 0 && e.error == Some(message) && e.fullAnalysis == None
  {
    LogEntry(shot.timestamp, shot.trigger, 0, "Analysis Failed",
             Some(["AI analysis failed: " + message]), None, Some(message))
  }

  /** The log row of a frame grab that threw with `message`. */
  function CaptureFailedEntry(timestamp: string, trigger: Reason, message: string): (e: LogEntry)
    ensures e.timestamp == timestamp && e.trigger == trigger
    ensures e.activity == "Capture Failed" && e.insights == Some(["Screenshot capture failed: " + message])
    ensures e.productivity == 0 && e.error == Some(message) && e.fullAnalysis == None
  {
    LogEntry(timestamp, trigger, 0, "Capture Failed",
             Some(["Screenshot capture failed: " + message]), None, Some(message))
  }
}
