/**
 * The end-of-session reduction of `performFinalAnalysis`: which log rows
 * count, the rounded means, the activity breakdown, the de-duplicated insight
 * and recommendation lists, the next-step suggestions of `generateNextSteps`,
 * and the fold into the cumulative progress figures.
 */
module Aggregation {
  import opened Wrappers
  import opened Text
  import opened Records

  // ---------------------------------------------------------------------
  // Valid rows and their means
  // ---------------------------------------------------------------------

  /** `!log.error`: a row counts unless it carries a non-empty error message. */
  predicate IsValid(e: LogEntry)
  {
    e.error.None? || e.error.value == []
  }

  /** `log.filter(log => !log.error)`. */
  function ValidEntries(log: seq<LogEntry>): (r: seq<LogEntry>)
    ensures |r| <= |log|
    ensures forall e :: e in r <==> e in log && IsValid(e)
    ensures |log| == 1 ==> r == if IsValid(log[0]) then log else []
    ensures (forall k :: 0 <= k < |log| ==> IsValid(log[k])) ==> r == log
  {
    if log == [] then []
    else (if IsValid(log[0]) then [log[0]] else []) + ValidEntries(log[1..])
  }

  /**
   * Filtering distributes over concatenation; with the one-row case above
   * this fixes the order and the multiplicity of the kept rows, and so the
   * divisor of every mean.
   */
  lemma {:induction false} ValidEntriesAppend(a: seq<LogEntry>, b: seq<LogEntry>)
    ensures ValidEntries(a + b) == ValidEntries(a) + ValidEntries(b)
  {
    if a == [] {
      assert a + b == b;
    } else {
      assert (a + b)[1..] == a[1..] + b;
      ValidEntriesAppend(a[1..], b);
    }
  }

  /** `log.fullAnalysis?.focusLevel || 50`. */
  function FocusOf(e: LogEntry): int
  {
    match e.fullAnalysis
    case Some(a) => if a.focusLevel.Some? && a.focusLevel.value != 0 then a.focusLevel.value else 50
    case None => 50
  }

  /** `log.fullAnalysis?.goalAlignment || 50`. */
  function GoalOf(e: LogEntry): int
  {
    match e.fullAnalysis
    case Some(a) => if a.goalAlignment.Some? && a.goalAlignment.value != 0 then a.goalAlignment.value else 50
    case None => 50
  }

  function ProductivityOf(e: LogEntry): int
  {
    e.productivity
  }

  /** `entries.reduce((sum, log) => sum + f(log), 0)`. */
  function Sum(entries: seq<LogEntry>, f: LogEntry -> int): int
  {
    if entries == [] then 0 else Sum(entries[..|entries| - 1], f) + f(entries[|entries| - 1])
  }

  /**
   * `r` is `Math.round(total / n)`: the integer nearest to the mean, halves
   * rounded up, i.e. r - 1/2 <= total / n < r + 1/2.
   */
  ghost predicate IsRoundedMean(r: int, total: int, n: nat)
  {
    n > 0 && 2 * n * r - n <= 2 * total < 2 * n * r + n
  }

  function RoundMean(total: int, n: nat): (r: int)
    requires n > 0
    ensures IsRoundedMean(r, total, n)
  {
    var q := (2 * total + n) / (2 * n);
    assert 2 * n * q <= 2 * total + n < 2 * n * q + 2 * n;
    q
  }

  /** The rounding condition admits exactly one integer. */
  lemma RoundedMeanUnique(r1: int, r2: int, total: int, n: nat)
    requires IsRoundedMean(r1, total, n) && IsRoundedMean(r2, total, n)
    ensures r1 == r2
  {
    BelowNextMultiple(n, r1 - r2);
    BelowNextMultiple(n, r2 - r1);
  }

  lemma BelowNextMultiple(n: nat, d: int)
    requires n > 0 && 2 * n * d < 2 * n
    ensures d <= 0
  {
    AtLeastOneMultiple(n, d);
  }

  lemma AtLeastOneMultiple(n: nat, d: int)
    ensures d >= 1 ==> n * d >= n
  {
  }

  // ---------------------------------------------------------------------
  // Activity breakdown
  // ---------------------------------------------------------------------

  /** Number of rows whose activity is `a`. */
  function CountActivity(entries: seq<LogEntry>, a: string): nat
  {
    if entries == [] then 0
    else CountActivity(entries[..|entries| - 1], a) + (if entries[|entries| - 1].activity == a then 1 else 0)
  }

  /** `entries.reduce((acc, log) => { acc[log.activity] = (acc[log.activity] || 0) + 1 }, {})`. */
  function Breakdown(entries: seq<LogEntry>): (m: map<string, nat>)
    ensures forall a :: a in m <==> CountActivity(entries, a) > 0
    ensures forall a :: a in m ==> m[a] == CountActivity(entries, a)
  {
    if entries == [] then map[]
    else
      var m := Breakdown(entries[..|entries| - 1]);
      var a := entries[|entries| - 1].activity;
      m[a := (if a in m then m[a] else 0) + 1]
  }

  /** Some key of a non-empty map. */
  ghost function Pick(m: map<string, nat>): (k: string)
    requires |m| > 0
    ensures k in m
  {
    var k :| k in m; k
  }

  /** The sum of the counts of a breakdown. */
  ghost function Total(m: map<string, nat>): nat
    decreases |m|
  {
    if |m| == 0 then 0 else m[Pick(m)] + Total(m - {Pick(m)})
  }

  /** `Total` does not depend on which key is taken first. */
  lemma {:induction false} TotalRemove(m: map<string, nat>, k: string)
    requires k in m
    ensures Total(m) == m[k] + Total(m - {k})
    decreases |m|
  {
    var c := Pick(m);
    if c != k {
      var mc := m - {c};
      var mk := m - {k};
      assert k in mc && c in mk;
      assert |mc| < |m|;
      TotalRemove(mc, k);
      TotalRemove(mk, c);
      assert mc - {k} == mk - {c};
    }
  }

  /** Counting one more row under `a` raises the total by one. */
  lemma TotalIncrement(m: map<string, nat>, a: string)
    ensures Total(m[a := (if a in m then m[a] else 0) + 1]) == Total(m) + 1
  {
    var m' := m[a := (if a in m then m[a] else 0) + 1];
    TotalRemove(m', a);
    if a in m {
      TotalRemove(m, a);
      assert m' - {a} == m - {a};
    } else {
      assert m' - {a} == m;
    }
  }

  /** The counts of the breakdown add up to the number of rows counted. */
  lemma {:induction false} BreakdownTotal(entries: seq<LogEntry>)
    ensures Total(Breakdown(entries)) == |entries|
  {
    if entries != [] {
      var init := entries[..|entries| - 1];
      BreakdownTotal(init);
      TotalIncrement(Breakdown(init), entries[|entries| - 1].activity);
    }
  }

  // ---------------------------------------------------------------------
  // Insight and recommendation lists
  // ---------------------------------------------------------------------

  /** Index of the first occurrence of `x` in `s`. */
  function FirstPos<T(==)>(s: seq<T>, x: T): (p: nat)
    requires x in s
    ensures p < |s| && s[p] == x && forall k :: 0 <= k < p ==> s[k] != x
  {
    if s[0] == x then 0 else 1 + FirstPos(s[1..], x)
  }

  /** `[...new Set(s)]`: each element once, at the place it was first seen. */
  function Dedup(s: seq<string>): (r: seq<string>)
    ensures |r| <= |s|
    ensures forall x :: x in r <==> x in s
    ensures forall i, j :: 0 <= i < j < |r| ==> r[i] != r[j]
  {
    if s == [] then []
    else
      var d := Dedup(s[..|s| - 1]);
      var x := s[|s| - 1];
      if x in d then d else d + [x]
  }

  /** `Dedup` lists the elements in the order of their first occurrence. */
  lemma {:induction false} DedupFirstSeenOrder(s: seq<string>)
    ensures forall i, j :: 0 <= i < j < |Dedup(s)| ==> FirstPos(s, Dedup(s)[i]) < FirstPos(s, Dedup(s)[j])
  {
    if s != [] {
      var init := s[..|s| - 1];
      var d := Dedup(init);
      var x := s[|s| - 1];
      DedupFirstSeenOrder(init);
      forall y | y in init ensures FirstPos(s, y) == FirstPos(init, y) {
        var p := FirstPos(init, y);
        assert s[p] == y;
        assert forall k :: 0 <= k < p ==> s[k] == init[k];
      }
      if x !in d {
        assert x !in init;
        assert FirstPos(s, x) == |init|;
        var r := d + [x];
        forall i, j | 0 <= i < j < |r|
          ensures r[i] in s && r[j] in s && FirstPos(s, r[i]) < FirstPos(s, r[j])
        {
          assert r[i] in init;
          if j == |d| {
            assert FirstPos(init, r[i]) < |init|;
          } else {
            assert r[j] in init;
          }
        }
      } else {
        forall i | 0 <= i < |d| ensures d[i] in init { }
      }
    }
  }

  /** `validAnalyses.flatMap(log => log.insights || [])`. */
  function AllInsights(entries: seq<LogEntry>): (r: seq<string>)
    ensures forall x :: x in r ==> exists e :: e in entries && e.insights.Some? && x in e.insights.value
    ensures forall e, x :: e in entries && e.insights.Some? && x in e.insights.value ==> x in r
    ensures |entries| == 1 ==> r == entries[0].insights.GetOr([])
  {
    if entries == [] then []
    else entries[0].insights.GetOr([]) + AllInsights(entries[1..])
  }

  /** The flat-map distributes over concatenation, so every row's insights appear, in row order. */
  lemma {:induction false} AllInsightsAppend(a: seq<LogEntry>, b: seq<LogEntry>)
    ensures AllInsights(a + b) == AllInsights(a) + AllInsights(b)
  {
    if a == [] {
      assert a + b == b;
    } else {
      assert (a + b)[1..] == a[1..] + b;
      AllInsightsAppend(a[1..], b);
    }
  }

  function RecommendationsOf(e: LogEntry): seq<string>
  {
    match e.fullAnalysis
    case Some(a) => a.recommendations.GetOr([])
    case None => []
  }

  /** `validAnalyses.flatMap(log => log.fullAnalysis?.recommendations || [])`. */
  function AllRecommendations(entries: seq<LogEntry>): (r: seq<string>)
    ensures forall x :: x in r ==> exists e :: e in entries && x in RecommendationsOf(e)
    ensures forall e, x :: e in entries && x in RecommendationsOf(e) ==> x in r
    ensures |entries| == 1 ==> r == RecommendationsOf(entries[0])
  {
    if entries == [] then []
    else RecommendationsOf(entries[0]) + AllRecommendations(entries[1..])
  }

  /** The flat-map distributes over concatenation, as for `AllInsights`. */
  lemma {:induction false} AllRecommendationsAppend(a: seq<LogEntry>, b: seq<LogEntry>)
    ensures AllRecommendations(a + b) == AllRecommendations(a) + AllRecommendations(b)
  {
    if a == [] {
      assert a + b == b;
    } else {
      assert (a + b)[1..] == a[1..] + b;
      AllRecommendationsAppend(a[1..], b);
    }
  }

  /** `[...new Set(all)].slice(0, 5)`. */
  function FirstFiveDistinct(all: seq<string>): (r: seq<string>)
    ensures |r| == if |Dedup(all)| < 5 then |Dedup(all)| else 5
    ensures r == Dedup(all)[..|r|]
    ensures |r| <= 5
    ensures forall x :: x in r ==> x in all
    ensures forall i, j :: 0 <= i < j < |r| ==> r[i] != r[j]
    ensures |r| == 5 || forall x :: x in all ==> x in r
  {
    var d := Dedup(all);
    var r := Take(d, 5);
    assert forall x :: x in r ==> x in d;
    r
  }

  // ---------------------------------------------------------------------
  // generateNextSteps
  // ---------------------------------------------------------------------

  const KeepMomentum := "Maintain current high productivity momentum"
  const DocumentPatterns := "Consider documenting successful work patterns"
  const FindPeakPeriods := "Identify peak productivity periods for important tasks"
  const AvoidSwitching := "Minimize context switching during focused work"
  const ReviewBlockers := "Review and eliminate key productivity blockers"
  const ShorterSessions := "Consider shorter, more focused work sessions"
  const ContinueDocumentation := "Continue systematic documentation approach"
  const PlanMilestones := "Plan next development milestones"

  /**
   * `generateNextSteps(goal, productivity)`: two suggestions for the tier of
   * the (unrounded) average productivity, then at most one for the goal,
   * where "documentation" wins over "code".
   */
  function NextSteps(goal: string, productivity: real): (r: seq<string>)
    ensures |r| == 2 || |r| == 3
    ensures productivity > 80.0 ==> r[..2] == [KeepMomentum, DocumentPatterns]
    ensures 60.0 < productivity <= 80.0 ==> r[..2] == [FindPeakPeriods, AvoidSwitching]
    ensures productivity <= 60.0 ==> r[..2] == [ReviewBlockers, ShorterSessions]
    ensures |r| == 3 <==> Contains(Lower(goal), "documentation") || Contains(Lower(goal), "code")
    ensures Contains(Lower(goal), "documentation") ==> r[2] == ContinueDocumentation
    ensures !Contains(Lower(goal), "documentation") && Contains(Lower(goal), "code") ==> r[2] == PlanMilestones
  {
    var tier :=
      if productivity > 80.0 then [KeepMomentum, DocumentPatterns]
      else if productivity > 60.0 then [FindPeakPeriods, AvoidSwitching]
      else [ReviewBlockers, ShorterSessions];
    var lowered := Lower(goal);
    if Contains(lowered, "documentation") then tier + [ContinueDocumentation]
    else if Contains(lowered, "code") then tier + [PlanMilestones]
    else tier
  }

  // ---------------------------------------------------------------------
  // The session summary
  // ---------------------------------------------------------------------

  datatype Summary = Summary(
    efficiency: int,
    focusScore: int,
    goalProgress: int,
    insights: seq<string>,
    recommendations: seq<string>,
    nextSteps: seq<string>,
    activityBreakdown: map<string, nat>,
    sessionSummary: string,
    captureBreakdown: CaptureStats)

  /**
   * The tier is chosen on the unrounded mean: productivities 80, 80 and 81
   * show an efficiency of 80 yet earn the "above 80" steps.
   */
  lemma TierUsesUnroundedAverage(goal: string)
    ensures RoundMean(80 + 80 + 81, 3) == 80
    ensures NextSteps(goal, Mean(80 + 80 + 81, 3))[..2] == [KeepMomentum, DocumentPatterns]
  {
    assert Mean(241, 3) > 80.0;
  }

  /** The mean of `total` over `n` rows as an exact fraction. */
  function Mean(total: int, n: nat): real
    requires n > 0
  {
    total as real / n as real
  }

  /** The one-line summary "Analyzed N AI insights with E% average productivity". */
  function SummaryLine(count: nat, efficiency: int): string
  {
    "Analyzed " + NatToDecimal(count) + " AI insights with " + IntToDecimal(efficiency) + "% average productivity"
  }

  /**
   * `performFinalAnalysis` minus its effects: None when the log has no valid
   * row, otherwise the summary built from the valid rows.
   */
  function Summarize(log: seq<LogEntry>, goal: string, stats: CaptureStats): Option<Summary>
  {
    if |log| == 0 then None
    else
      var valid := ValidEntries(log);
      if |valid| == 0 then None
      else
        var n := |valid|;
        var efficiency := RoundMean(Sum(valid, ProductivityOf), n);
        Some(Summary(
          efficiency,
          RoundMean(Sum(valid, FocusOf), n),
          RoundMean(Sum(valid, GoalOf), n),
          FirstFiveDistinct(AllInsights(valid)),
          FirstFiveDistinct(AllRecommendations(valid)),
          NextSteps(goal, Mean(Sum(valid, ProductivityOf), n)),
          Breakdown(valid),
          SummaryLine(n, efficiency),
          stats))
  }

  /**
   * What `Summarize` computes: nothing exactly when no row is valid (which
   * covers the empty log); otherwise the rounded means over the valid rows
   * (missing or zero focus and goal scores counting as 50), the activity
   * counts, the first five distinct insights and recommendations in the
   * order first seen, the summary line, and the next steps chosen on the
   * unrounded average.
   */
  lemma SummarizeMeaning(log: seq<LogEntry>, goal: string, stats: CaptureStats)
    ensures Summarize(log, goal, stats).None? <==> forall e :: e in log ==> !IsValid(e)
    ensures Summarize(log, goal, stats).Some? ==>
      var valid := ValidEntries(log);
      var s := Summarize(log, goal, stats).value;
      && |valid| > 0
      && IsRoundedMean(s.efficiency, Sum(valid, ProductivityOf), |valid|)
      && IsRoundedMean(s.focusScore, Sum(valid, FocusOf), |valid|)
      && IsRoundedMean(s.goalProgress, Sum(valid, GoalOf), |valid|)
      && s.nextSteps == NextSteps(goal, Mean(Sum(valid, ProductivityOf), |valid|))
      && s.activityBreakdown == Breakdown(valid)
      && s.insights == FirstFiveDistinct(AllInsights(valid))
      && s.recommendations == FirstFiveDistinct(AllRecommendations(valid))
      && s.sessionSummary == SummaryLine(|valid|, s.efficiency)
      && s.captureBreakdown == stats
  {
    var valid := ValidEntries(log);
    if |valid| == 0 {
      assert valid == [];
    } else {
      assert valid[0] in log && IsValid(valid[0]);
    }
  }

  /** The activity counts of a summary add up to the number of valid rows. */
  lemma SummaryCountsValidRows(log: seq<LogEntry>, goal: string, stats: CaptureStats)
    requires Summarize(log, goal, stats).Some?
    ensures Total(Summarize(log, goal, stats).value.activityBreakdown) == |ValidEntries(log)|
  {
    BreakdownTotal(ValidEntries(log));
  }

  // ---------------------------------------------------------------------
  // Cumulative progress
  // ---------------------------------------------------------------------

  datatype Progress = Progress(todayProgress: real, weeklyProgress: real, goalCompletion: int, efficiency: int)

  const NoProgress := Progress(0.0, 0.0, 0, 0)

  ghost predicate ProgressInRange(p: Progress)
  {
    0.0 <= p.todayProgress <= 100.0 && 0.0 <= p.weeklyProgress <= 100.0
  }

  function MinReal(a: real, b: real): real
  {
    if a <= b then a else b
  }

  /**
   * The `setProgressData` update after a summary: the session's seconds add
   * `duration / 480 * 100` to today's and `duration / 2400 * 100` to the
   * weekly percentage, each capped at 100; goal completion and efficiency
   * are replaced by the summary's.
   */
  function FoldProgress(prev: Progress, duration: nat, s: Summary): (r: Progress)
    ensures var today := prev.todayProgress + (duration as real / 480.0) * 100.0;
      (today >= 100.0 ==> r.todayProgress == 100.0) && (today < 100.0 ==> r.todayProgress == today)
    ensures var week := prev.weeklyProgress + (duration as real / 2400.0) * 100.0;
      (week >= 100.0 ==> r.weeklyProgress == 100.0) && (week < 100.0 ==> r.weeklyProgress == week)
    ensures r.todayProgress <= 100.0 && r.weeklyProgress <= 100.0
    ensures prev.todayProgress <= 100.0 ==> r.todayProgress >= prev.todayProgress
    ensures prev.weeklyProgress <= 100.0 ==> r.weeklyProgress >= prev.weeklyProgress
    ensures r.goalCompletion == s.goalProgress && r.efficiency == s.efficiency
  {
    Progress(
      MinReal(prev.todayProgress + (duration as real / 480.0) * 100.0, 100.0),
      MinReal(prev.weeklyProgress + (duration as real / 2400.0) * 100.0, 100.0),
      s.goalProgress,
      s.efficiency)
  }

  /** Folding keeps both percentages within 0..100. */
  lemma FoldKeepsRange(prev: Progress, duration: nat, s: Summary)
    requires ProgressInRange(prev)
    ensures ProgressInRange(FoldProgress(prev, duration, s))
  {
  }

  /**
   * Today's figure counts seconds against 480: any session of 480 seconds
   * (eight minutes) or more fills it, and below the cap the gain is exact.
   */
  lemma TodayGain(prev: Progress, duration: nat, s: Summary)
    requires ProgressInRange(prev)
    ensures duration >= 480 ==> FoldProgress(prev, duration, s).todayProgress == 100.0
    ensures prev.todayProgress + duration as real * 100.0 / 480.0 <= 100.0 ==>
      FoldProgress(prev, duration, s).todayProgress == prev.todayProgress + duration as real * 100.0 / 480.0
  {
  }
}
