# ProgressTracker: a verified model of the capture and analysis core

This project models the core of `src/App.js`, the `ProgressTracker` React
component of onlyworksLLM, in Dafny. While a session records, the component:

- counts clicks, keystrokes and window changes;
- grabs a frame from the shared screen on each of these events, and every 30 seconds;
- sends the frame to a vision model and records the model's reading in a log.

Only one analysis runs at a time: a gate (`isAnalyzingRef`) drops every
capture request made while an analysis is in progress. A reply is read as the
greedy `{…}` JSON span when that parses. Otherwise the component falls back to
keyword heuristics (`extractNumber`, `extractActivity`, `extractInsights`,
…). When the session ends, the valid log rows are summarised: rounded means,
an activity breakdown, de-duplicated insights and recommendations, and next
steps. The summary is folded into daily and weekly progress, each capped at 100.

The project has these modules:

- `Wrappers`: `Option`.
- `Text`: JavaScript string behaviour the component relies on. This covers
  `\s`, ASCII `toLowerCase`, `includes`, `trim`, `split(/[.!?]+/)` and decimal
  rendering.
- `Records`: screenshots, log rows and capture counters, with the builders for
  the three kinds of log row.
- `Triggers`: the keystroke filter and the burst counter, which requests a
  capture on every 20th qualifying key.
- `Heuristics`: `extractNumber`, `extractActivity`, `extractInsights`,
  `extractDistractions`, `extractRecommendations`, `extractApplications`,
  `extractTimeOfDay`, `parseAIResponse`, and the JSON-span or heuristic choice
  made in `callOpenAIVision`.
- `Aggregation`: `performFinalAnalysis` without its effects,
  `generateNextSteps`, and the progress fold.
- `Format`: `formatTime` and the API-key test of `handleApiKeySubmit`.
- `Capture`: the capture and analysis steps on values. This covers the gate,
  the `map` that marks a screenshot analysed, and the log append. The analysis
  is split into a begin step, which takes the gate, and a finish step, which
  records the outcome and releases the gate in `finally`. This way the state in
  which the gate is held can be observed between the two.
- `Tracker`: the `ProgressTracker` class. It holds the component's state
  variables and refs as fields, and each handler is a method. The methods for
  capturing, analysing, counting keys and ending a session tie the new state to
  the step functions of `Capture`, `Triggers` and `Aggregation`. `SetGoal`,
  `SubmitApiKey` and `Tick` state their field updates directly. The class
  invariant `Valid()` requires four things:
  - the burst counter stays below 20;
  - the gate is held exactly while an analysis is in flight;
  - recording implies that a stream is held;
  - the progress figures lie in [0, 100].

Some of the component's behaviour, as written, is easy to misread, so the model
states it outright:

- Heuristic scores are not clamped: any 1 to 3 digit number is taken, so a score
  can be up to 999. A zero becomes 50.
- A JSON reply that parses is used as-is. Fields it lacks are absent, and no
  default is filled in.
- The `['AI analysis completed']` fallback for insights is never taken,
  because an empty array is truthy.
- The next-step tier is chosen on the unrounded mean productivity. The
  displayed efficiency is the rounded mean. So 80, 80 and 81 display 80 but
  earn the "above 80" steps (`TierUsesUnroundedAverage`).
- A log row counts as valid when `!log.error`, so a row whose error message is
  empty counts as valid.

## Model

| member | source | states |
|---|---|---|
| Text.LowerChar | src/App.js:337-338 | an ASCII capital becomes the letter 32 code points later and every other character is kept, so the result is never a capital; whitespace and terminators are kept |
| Text.Lower | src/App.js:337-338 | `toLowerCase`: same length, and each character is folded in place |
| Text.LowerLeavesNoCapitals | src/App.js:337-338 | no capital is left, and every character that is not a capital stays where it was |
| Text.ContainsIffOccurs | src/App.js:337-338 | `includes` holds exactly when the word occurs at some position |
| Text.FilterMembers | src/App.js:344 | `filter` keeps exactly the elements that pass the test |
| Text.FilterAppend | src/App.js:344 | filtering a concatenation gives the concatenation of the filtered parts, so the kept elements keep their order and multiplicity |
| Text.FilterSingle | src/App.js:344 | one element is kept exactly when it passes the test |
| Text.FilterEmpty | src/App.js:344 | the result is empty exactly when no element passes |
| Text.Trim | src/App.js:344-345 | `trim` returns a string no longer than the input that neither starts nor ends with whitespace |
| Text.TrimBounds | src/App.js:513 | the trimmed text is the slice `s[a..b]`, where `a` is the length of the leading whitespace and everything outside the slice is whitespace |
| Text.SplitSentences | src/App.js:344 | `split(/[.!?]+/)` always yields at least one piece, even for empty text; a text that starts with a non-terminator has a non-empty first piece |
| Text.SplitSentencesSound | src/App.js:344 | no piece contains `.`, `!` or `?`, and joining the pieces gives the text without its terminators, so no other character is lost |
| Text.SplitSentencesBoundaries | src/App.js:344 | the text is the pieces joined by one maximal run of terminators each, and every piece strictly between two runs is non-empty |
| Text.Utf16Length | src/App.js:62 | `length` counts between one and two code units per character |
| Text.OneCodeUnitIff | src/App.js:62 | the direct one-unit test (`e.key.length === 1`) holds exactly when the key counts one UTF-16 code unit |
| Text.Utf16LengthOfBmp | src/App.js:62 | the length equals the number of characters exactly when no character lies above U+FFFF |
| Text.DecimalRoundTrip | src/App.js:332 | the decimal rendering of a number reads back as that number (`parseInt` of `toString`) |
| Records.NewScreenshot | src/App.js:148-155 | a fresh screenshot carries its id, time and trigger and is not yet analysed |
| Records.AnalyzedEntry | src/App.js:207-214 | the log row copies the screenshot's time and trigger and the analysis' score, activity and insights, keeps the analysis, and has no error |
| Records.AnalysisFailedEntry | src/App.js:220-227 | a failed analysis logs productivity 0, "Analysis Failed", the prefixed message as its one insight, no analysis, and the error |
| Records.CaptureFailedEntry | src/App.js:165-172 | a failed grab logs productivity 0, "Capture Failed", the prefixed message, no analysis, and the error |
| Triggers.KeyStep | src/App.js:61-76 | a non-qualifying key changes nothing; a qualifying key advances the counter mod 20 and fires exactly when it reaches 20 |
| Triggers.RunKeysCounts | src/App.js:61-76 | after N qualifying keys from counter c, the counter is (c+N) mod 20 and (c+N) div 20 captures were requested |
| Triggers.NonQualifyingKeysIgnored | src/App.js:62-65 | keys with modifiers, or named keys outside the allowed five, never move the counter or fire |
| Triggers.VisibilityReason | src/App.js:90-100 | a visibility change requests `tab_hidden` exactly when the document is hidden, and `tab_visible` otherwise |
| Heuristics.MatchAt | src/App.js:329-333 | a match at a position has the value of its 1 to 3 leading digits, at most 999 |
| Heuristics.MatchAtIffNumberMatch | src/App.js:330-331 | the matcher finds a number at a position exactly when the case-insensitive regex `keyword[:\s]*([0-9]{1,3})` matches there, with that value |
| Heuristics.ExtractNumber | src/App.js:329-333 | the result is null or a value of at most 999 |
| Heuristics.ExtractNumberFirstMatch | src/App.js:329-333 | null exactly when no position matches; otherwise the value of the leftmost match |
| Heuristics.FirstFound | src/App.js:337-339 | `find`: the first vocabulary word the text contains, and null when it contains none |
| Heuristics.ExtractActivity | src/App.js:335-341 | "General Work" exactly when no activity word occurs; otherwise the first one found, capitalised |
| Heuristics.FoundIn | src/App.js:348-351 | `filter`: keeps vocabulary order, is a subsequence of it, and holds a word exactly when the text contains it |
| Heuristics.ExtractDistractions | src/App.js:348-351 | the distraction words the text contains, in list order |
| Heuristics.ExtractApplications | src/App.js:362-365 | the application names the text contains, in list order |
| Heuristics.ExtractInsights | src/App.js:343-346 | at most three insights |
| Heuristics.InsightsAreFirstLongSentences | src/App.js:343-346 | the insights are the first three long pieces, or all of them if fewer, each trimmed, in order; there are none exactly when no piece is long |
| Heuristics.InsightsAreLongFragments | src/App.js:343-346 | each insight is longer than 10 characters, has no whitespace at either end and holds no terminator |
| Heuristics.TrimKeepsRecommends | src/App.js:353-360 | trimming a piece that mentions recommend, suggest or should keeps that mention |
| Heuristics.ExtractRecommendations | src/App.js:353-360 | at most two recommendations |
| Heuristics.RecommendationsAreFirstRecommendingSentences | src/App.js:353-360 | the recommendations are the first two pieces that mention recommend, suggest or should, or all of them if fewer, each trimmed, in order; there are none exactly when no piece mentions them |
| Heuristics.RecommendationsAreFragments | src/App.js:353-360 | each recommendation still mentions a recommending word, has no whitespace at either end and holds no terminator |
| Heuristics.TimeOfDay | src/App.js:367-372 | morning before 12, afternoon from 12 to before 17, evening otherwise, each in both directions |
| Heuristics.ScoreOr50 | src/App.js:316 | `extractNumber(text, keyword) \|\| 50`: null and 0 both become 50, any other value found is kept, and the score lies in 1..999 |
| Heuristics.ParseAIResponse | src/App.js:314-327 | every field is present and comes from its extractor: the scores from `extractNumber` or 50 (in 1..999), the insights exactly `extractInsights` with no fallback, and the distractions, recommendations and applications from theirs; the time of day and the work pattern are fixed |
| Heuristics.BraceSpan | src/App.js:298-299 | the greedy span from the first `{` to the last `}`; absent exactly when no `{` precedes a `}` |
| Heuristics.Respond | src/App.js:295-307 | a span that parses is returned as parsed; otherwise the heuristic reading |
| Heuristics.NoBracesMeansHeuristics | src/App.js:298-307 | a reply without `{` always takes the heuristic path |
| Aggregation.ValidEntries | src/App.js:452 | `filter(log => !log.error)`: holds exactly the log's rows without a non-empty error, keeps a one-row log exactly when its row is valid, and keeps an all-valid log whole |
| Aggregation.ValidEntriesAppend | src/App.js:452 | the filter distributes over concatenation, which fixes the order and multiplicity of the kept rows |
| Aggregation.RoundMean | src/App.js:468-470 | `Math.round(total / n)` is the unique integer within half a unit of the mean, rounding halves up |
| Aggregation.RoundedMeanUnique | src/App.js:468-470 | at most one integer satisfies the rounding condition |
| Aggregation.Breakdown | src/App.js:459-462 | the keys are exactly the activities of the rows, each mapped to its number of rows |
| Aggregation.BreakdownTotal | src/App.js:459-462 | the counts add up to the number of rows |
| Aggregation.Dedup | src/App.js:470-471 | `[...new Set(xs)]`: no repeats and the same elements |
| Aggregation.DedupFirstSeenOrder | src/App.js:470-471 | elements keep the order of their first occurrence |
| Aggregation.AllInsights | src/App.js:464 | every insight of a row is in the result and nothing else is; for one row it is that row's insights, or empty when absent |
| Aggregation.AllInsightsAppend | src/App.js:464 | the flat-map distributes over concatenation, so the rows' insights appear in row order |
| Aggregation.AllRecommendations | src/App.js:465 | every full-analysis recommendation of a row is in the result and nothing else is; for one row it is that row's list, or empty when absent |
| Aggregation.AllRecommendationsAppend | src/App.js:465 | the flat-map distributes over concatenation, so the recommendations appear in row order |
| Aggregation.FirstFiveDistinct | src/App.js:470-471 | exactly the first five elements of the de-duplicated list, or all of them when there are fewer; distinct and drawn from the input |
| Aggregation.NextSteps | src/App.js:489-510 | two steps by tier (above 80, above 60, otherwise), plus a third exactly when the goal mentions documentation (checked first) or code |
| Aggregation.TierUsesUnroundedAverage | src/App.js:455-473 | productivities 80, 80 and 81 show efficiency 80 yet earn the above-80 steps |
| Aggregation.SummarizeMeaning | src/App.js:449-479 | nothing exactly when no row is valid; otherwise rounded means of productivity, focus and goal over the valid rows (missing or 0 counting as 50), next steps on the unrounded mean, the breakdown, the first five distinct insights and recommendations, the summary line and the capture counters |
| Aggregation.SummaryCountsValidRows | src/App.js:449-479 | the breakdown of a summary counts every valid row once |
| Aggregation.FoldProgress | src/App.js:481-486 | today's progress becomes old + duration/480 of 100 and weekly progress old + duration/2400 of 100, each replaced by 100 exactly when it would reach 100; never decreasing; goal and efficiency are replaced |
| Aggregation.FoldKeepsRange | src/App.js:481-486 | progress within [0, 100] stays within it |
| Aggregation.TodayGain | src/App.js:482 | a session of 480 s or more fills today's progress; a shorter one adds exactly its share unless the cap is reached |
| Format.FormatTime | src/App.js:520-524 | "mm:ss": minutes padded to exactly two digits, or wider with no leading zero, and two-digit seconds; the fields read back as minutes and seconds below 60 that make up the input |
| Format.PaddedValue | src/App.js:523 | `padStart(2, '0')` keeps the numeric value |
| Format.KeyAcceptedIff | src/App.js:512-518 | a key is accepted exactly when "sk-" follows its leading whitespace |
| Capture.CallVision | src/App.js:230-311 | the promise resolves exactly when the request returned a reply, with that reply read as `Respond` reads it; a failed request rejects with its message |
| Capture.MarkAnalyzed | src/App.js:195-199 | the `map` keeps the number of screenshots |
| Capture.MarkAnalyzedAt | src/App.js:195-199 | each screenshot with the id becomes analysed with the reading, keeping its id, time and trigger; every other one is left as it was |
| Capture.MarkAnalyzedUnknownId | src/App.js:195-199 | marking an id that no screenshot has changes nothing |
| Capture.MarkAnalyzedIdempotent | src/App.js:195-199 | marking the same id twice with the same reading is the same as marking it once |
| Capture.BeginStep | src/App.js:178-182 | the gate ends up held; if it was already held nothing changes, otherwise the screenshot is in flight |
| Capture.TriggerStep | src/App.js:120-176 | dropped without a stream or while the gate is held; a failed grab logs one row; a grab appends the screenshot and, with a key set, starts its analysis |
| Capture.FinishStep | src/App.js:184-227 | the gate is released and exactly one row is appended; a resolved analysis marks the screenshot and logs the analysis, a rejection logs the failure and leaves the screenshots alone |
| Capture.BusyGateDropsRequests | src/App.js:121 | while the gate is held, any run of capture requests changes nothing |
| Capture.RequestsOnlyAppend | src/App.js:120-176 | capture requests only ever append to the screenshots and the log |
| Capture.FailureThenSuccess | src/App.js:178-227 | a failed analysis then a successful one leave a 0-productivity failure row followed by the valid row |
| Tracker.ProgressTracker.constructor | src/App.js:5-32 | the initial state: not recording, default goal, no key, zero counters, empty history, gate free |
| Tracker.ProgressTracker.SetGoal | src/App.js:674 | the goal becomes the typed text |
| Tracker.ProgressTracker.SubmitApiKey | src/App.js:512-518 | the key is stored; the key flag is set exactly when it was already set or the key is accepted |
| Tracker.ProgressTracker.Tick | src/App.js:35-44 | each second of recording adds one to the session time |
| Tracker.ProgressTracker.TriggerScreenshot | src/App.js:120-176 | the new capture state is `TriggerStep` of the old, and the request is recorded |
| Tracker.ProgressTracker.AnalyzeScreenshot | src/App.js:178-182 | the new capture state is `BeginStep` of the old |
| Tracker.ProgressTracker.FinishAnalysis | src/App.js:184-227 | given how `callOpenAIVision` settled, the new capture state is `FinishStep` of the old, and the gate is free |
| Tracker.ProgressTracker.HandlePeriodic | src/App.js:50-53 | a periodic request, counters unchanged |
| Tracker.ProgressTracker.HandleClick | src/App.js:55-59 | clicks plus one, then a click request |
| Tracker.ProgressTracker.HandleKeydown | src/App.js:61-76 | the burst counter follows `KeyStep`; keystrokes grow exactly on qualifying keys; a request is made exactly when the step fires |
| Tracker.ProgressTracker.HandleWindowFocus | src/App.js:78-82 | window changes plus one, then a focus_return request |
| Tracker.ProgressTracker.HandleWindowBlur | src/App.js:84-88 | window changes plus one, then a focus_leave request |
| Tracker.ProgressTracker.HandleVisibilityChange | src/App.js:90-100 | window changes plus one, then a tab_hidden or tab_visible request |
| Tracker.ProgressTracker.ToggleRecording | src/App.js:409-432 | without a key nothing changes; while recording, the session stops and is closed and the capture state is kept; otherwise a granted share starts a session with time, screenshots, log, counters and burst counter reset, and a refused share changes nothing; the goal, the key, the gate and the recorded capture requests are kept in every case |
| Tracker.ProgressTracker.StartSession | src/App.js:423-430 | recording with a stream, and the session time, screenshots, log, counters and burst counter reset |
| Tracker.ProgressTracker.StopRecording | src/App.js:416-420 | recording stops and the session is closed: its record appended and its summary applied |
| Tracker.ProgressTracker.HandleStreamEnded | src/App.js:396-399 | the stream's end stops recording and closes the session the same way |
| Tracker.ProgressTracker.EndSession | src/App.js:434-447 | the session record (duration, screenshot count, goal, log, counters) is appended, then the summary is applied |
| Tracker.ProgressTracker.PerformFinalAnalysis | src/App.js:449-487 | with no valid row nothing changes; otherwise the summary is published and the progress becomes `FoldProgress` of the old |
| Tracker.ProgressTracker.Publish | src/App.js:479-486 | the analysis shown becomes the summary and the progress becomes `FoldProgress` of the old progress, keeping every field within 0..100 |

## Left out

- JSX rendering, styling and the alerts are not modelled. A rejected key or a missing key changes no state, and that is modelled.
- Screen capture is reduced to its outcome. The `getDisplayMedia` prompt becomes the `screenShareGranted` parameter. The video, canvas and blob work becomes a `Grab` parameter: either an id and a time, or a failure message.
- The analyzer call is reduced to its outcome. The `fetch` to the vision API, the prompt text, the base64 conversion and the HTTP error handling become a `Reply` value: either the reply text or a failure message. `CallVision` turns it into how the promise settled. The class's `FinishAnalysis` receives that settled outcome, because the `await` lies between the two halves of `analyzeScreenshotWithAI`. `api/analyze-screenshot.js` is not part of this model.
- `JSON.parse` is the parameter `parse`, which returns nothing where the real one throws. A parsed object is assumed to have an analysis's shape. A missing or non-numeric `productivityScore` or `activity`, which would give `undefined` or `NaN` in the log, is not modelled.
- `Tracker.SessionRecord`: the session's `id: Date.now()` and its `timestamp: new Date().toLocaleString()` (src/App.js:436, 439) are dropped, not modelled; only the rendered session list (src/App.js:899, 909) shows them, and rendering is not part of this model.
- The screenshot ids (`Date.now()`), `toLocaleTimeString` timestamps and `getHours()` become parameters. So do the 1-second and 30-second timers: each firing is a call to `Tick` or `HandlePeriodic`.
- Asynchrony is modelled as single steps:
  - A capture and its analysis beginning are modelled as one step. In the component, the gate is tested before the frame-grab awaits but set only after them, so two overlapping captures can both pass the test. Only one of them then analyses.
  - React's batched state updates and the stale closures of `endSession` and `performFinalAnalysis` are modelled with the current state.
  - An analysis still in flight when a new session starts appends its row to the new session's log. The model does the same, because `FinishAnalysis` appends to whatever log is current.
- Floating point is modelled with exact numbers. Means and progress use exact rationals, and `Math.round` is exact half-up rounding. IEEE rounding of the averages and of the progress fractions is not modelled.
- Text.Lower: folds ASCII letters only. Non-ASCII case folding is not modelled.
- Heuristics.IsLong: the `s.trim().length > 10` test counts characters, not UTF-16 code units, so a sentence holding characters above U+FFFF (emoji) can count as long in JavaScript while it does not here. The key test in `Triggers.IsQualifying` does count code units, through `Text.Utf16Length`.
- Aggregation.Breakdown: a map, so the insertion order of a JavaScript object's keys is not kept. In the component the counts live in a plain object `{}` (src/App.js:460), so an activity named like an `Object.prototype` member misbehaves there: `constructor` or `toString` starts from the inherited function and gets a string count, and `__proto__` is lost. The model counts every activity name as an ordinary key.
- Stopping the stream's tracks (`track.stop()`), the object URLs and `console` logging are not modelled.
- The state fields `lastWindowTitleRef` and the screenshot's `url` and `blob` are not modelled; nothing in the core reads them.
