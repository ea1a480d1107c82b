# CoreV4 crisis engine, wellness store and logger, modelled in Dafny

This project models three parts of the CoreV4 mental-health platform and proves properties of each.

- **Crisis detection** (`crisis_detection.dfy`, module `CrisisDetection`). `analyzeText` lower-cases a message and reports each phrase from two fixed vocabularies that occurs in it:
  - six critical phrases give `critical` indicators with confidence 0.9;
  - six high-risk phrases give `high` indicators with confidence 0.7.

  `analyzeBehavior` turns more than 10 rapid clicks into a `medium` indicator and more than 300 seconds on crisis pages into a `high` one. `assessCrisisRisk`:
  - gathers both kinds of indicators;
  - takes the highest severity present as the overall risk, or `low` when there is none;
  - flags immediate attention for `critical` and `high`;
  - attaches the fixed recommendation list for that risk level.
- **Wellness store** (`wellness_store.dfy`, module `Wellness`). The store holds three fields: the mood-entry list (newest first, capped at 100), the current mood and the wellness goals. The class `WellnessStore` has one method per action: add a mood entry, set the mood, add a goal, record progress, complete a goal. It also has one read-only method per analytic:
  - the rounded mood average over a day window;
  - the trend, which compares entries 0–6 with entries 7–13 using a half-point dead band;
  - the completed-goal count.
- **Logger** (`logger.dfy`, module `Logging`). The class `Logger` has a level threshold and an in-memory buffer of at most 1000 entries:
  - a call below the threshold is dropped;
  - any other call appends its entry and evicts the oldest entry once the buffer is over capacity;
  - `crisis` logs at the top level, so it is never dropped.

Two shared modules complete the project:
- `wrappers.dfy` holds the `Option` type.
- `severities.dfy` holds the four-level severity scale `low < medium < high < critical`. The scale is used for indicator severity, overall risk and log urgency.

Conventions:
- Time is an integer count of milliseconds, passed in as `now`. One call reads the clock once.
- Generated ids are parameters.
- Numbers the code keeps as JavaScript numbers are exact `real`s: confidences, goal values, behaviour metrics and averages.
- `Math.round(y)` is `floor(y + 0.5)`.

## Model

| member | source | states |
|---|---|---|
| Severities.Max | src/services/CrisisDetectionService.ts:159-166 | The result is one of the two arguments and ranks at least as high as both. |
| CrisisDetection.ToLower | src/services/CrisisDetectionService.ts:50 | Lower-casing keeps the length, turns every upper-case ASCII letter into its lower-case letter (code point + 32), and keeps every other character. |
| CrisisDetection.ToLowerIdempotent | src/services/CrisisDetectionService.ts:50 | Lower-casing twice is the same as lower-casing once. |
| CrisisDetection.LowerKeepsPhrase | src/services/CrisisDetectionService.ts:50 | An occurrence of a phrase with no upper-case letters is still there after lower-casing. |
| CrisisDetection.ContainsIffOccurs | src/services/CrisisDetectionService.ts:66 | The scanning `includes` test holds exactly when the phrase occurs at some index of the text. |
| CrisisDetection.Contains | src/services/CrisisDetectionService.ts:66 | `includes`: the phrase fits in the text and matches at the first position or somewhere after it. |
| CrisisDetection.PhraseIndicator | src/services/CrisisDetectionService.ts:67-73 | The indicator pushed for a contained phrase: linguistic, the vocabulary's severity and confidence, the phrase quoted after the vocabulary's label, stamped `now`. |
| CrisisDetection.Matches | src/services/CrisisDetectionService.ts:65-75 | One vocabulary pass reports no more indicators than there are phrases. Each is linguistic, stamped `now`, with the vocabulary's severity and confidence. |
| CrisisDetection.MatchesSoundAt | src/services/CrisisDetectionService.ts:65-75 | Every indicator of a pass is the indicator of a listed phrase that occurs in the text. |
| CrisisDetection.MatchesAppend | src/services/CrisisDetectionService.ts:65-75 | Scanning a concatenated phrase list gives the concatenation of the two scans. |
| CrisisDetection.PhraseIndicatorInjective | src/services/CrisisDetectionService.ts:70 | Different phrases give different indicators, because the description quotes the phrase. |
| CrisisDetection.PhraseReported | src/services/CrisisDetectionService.ts:65-75 | A phrase's indicator is reported exactly when the phrase is in the list and occurs in the text. |
| CrisisDetection.PhraseReportedOnce | src/services/CrisisDetectionService.ts:65-75 | With a duplicate-free list, each phrase's indicator appears exactly once if the phrase occurs and never otherwise. |
| CrisisDetection.KeywordListsDistinct | src/services/CrisisDetectionService.ts:53-62 | Neither vocabulary repeats a phrase. |
| CrisisDetection.TextIndicators | src/services/CrisisDetectionService.ts:48-89 | Text indicators are linguistic and stamped `now`. Each is critical/0.9 or high/0.7, and no high one precedes a critical one. |
| CrisisDetection.TextReportsEachPhraseOnce | src/services/CrisisDetectionService.ts:53-88 | In `analyzeText`'s result, each vocabulary phrase is reported once when it occurs in the lower-cased text and never otherwise. |
| CrisisDetection.TextIndicatorSound | src/services/CrisisDetectionService.ts:48-89 | Every indicator `analyzeText` returns is the indicator of a phrase of one of the two vocabularies that occurs in the lower-cased text. |
| CrisisDetection.MatchesInListOrder | src/services/CrisisDetectionService.ts:65-75 | Two occurring phrases are reported in the order of the phrase list. |
| CrisisDetection.PhraseOrder | src/services/CrisisDetectionService.ts:64-88 | Within one vocabulary, `analyzeText` reports occurring phrases in vocabulary order. |
| CrisisDetection.NothingMatched | src/services/CrisisDetectionService.ts:65-75 | A pass reports nothing exactly when no listed phrase occurs. |
| CrisisDetection.NoPhraseNoIndicator | src/services/CrisisDetectionService.ts:48-99 | `analyzeText` returns an empty list exactly when no phrase of either vocabulary occurs in the lower-cased text. |
| CrisisDetection.TextMatchingIgnoresCase | src/services/CrisisDetectionService.ts:50 | Lower-casing the message beforehand does not change the result. |
| CrisisDetection.LowerFindsPhrase | src/services/CrisisDetectionService.ts:50 | A lower-case phrase occurring in the text up to ASCII case occurs exactly in the lower-cased text. |
| CrisisDetection.VocabulariesLowerCase | src/services/CrisisDetectionService.ts:53-62 | Every phrase of both vocabularies is written without upper-case letters. |
| CrisisDetection.PhraseReportedIgnoringCase | src/services/CrisisDetectionService.ts:50-88 | A vocabulary phrase occurring in the message in any ASCII case is reported by `analyzeText`. |
| CrisisDetection.ShoutedPhraseReported | src/services/CrisisDetectionService.ts:50-75 | "KILL MYSELF" is reported as the critical phrase "kill myself". |
| CrisisDetection.ScanPhrases | src/services/CrisisDetectionService.ts:65-75 | The `forEach`/`push` loop builds exactly the pass `Matches` specifies. |
| CrisisDetection.AnalyzeText | src/services/CrisisDetectionService.ts:48-100 | The imperative `analyzeText` returns exactly `TextIndicators`: the critical pass, then the high-risk pass. |
| CrisisDetection.BehaviorIndicators | src/services/CrisisDetectionService.ts:105-136 | There are at most two behavioural indicators stamped `now`. A medium/0.6 one appears iff rapid clicks exceed 10, and a high/0.8 one iff crisis-page time exceeds 300; medium comes first. |
| CrisisDetection.Exceeds | src/services/CrisisDetectionService.ts:114-125 | A metric triggers when it is present and strictly above its threshold; an absent metric never triggers. |
| CrisisDetection.BehaviorIgnoresOtherFields | src/services/CrisisDetectionService.ts:105-110 | Back-navigation and session duration never affect the behaviour indicators. |
| CrisisDetection.OverallRisk | src/services/CrisisDetectionService.ts:158-166 | The overall risk ranks at least as high as every indicator. It is `low` or the severity of some indicator, and `low` when there are none. |
| CrisisDetection.OverallRiskIsMaximum | src/services/CrisisDetectionService.ts:158-166 | The has-critical/has-high/has-medium cascade equals the fold of `Max` over the indicators. |
| CrisisDetection.RiskIsCritical | src/services/CrisisDetectionService.ts:159-164 | One critical indicator makes the overall risk critical. |
| CrisisDetection.RiskIsHigh | src/services/CrisisDetectionService.ts:159-165 | A high indicator and no critical one make the overall risk high. |
| CrisisDetection.RiskMonotonic | src/services/CrisisDetectionService.ts:158-166 | Adding indicators never lowers the overall risk. |
| CrisisDetection.Recommendations | src/services/CrisisDetectionService.ts:192-240 | Low gets four actions and every other level five. The 988 lifeline and the 741741 text line are offered exactly for critical and high risk. |
| CrisisDetection.CollectIndicators | src/services/CrisisDetectionService.ts:146-156 | The text indicators when the text is present and non-empty, followed by the behaviour indicators when metrics are present. |
| CrisisDetection.HasSeverity | src/services/CrisisDetectionService.ts:159-161 | The `some(i => i.severity === level)` test: some indicator has that severity, which requires at least one indicator. |
| CrisisDetection.HasSeverityConcat | src/services/CrisisDetectionService.ts:159-161 | A severity is present in a concatenation of indicator lists iff it is present in one of them. |
| CrisisDetection.Assess | src/services/CrisisDetectionService.ts:141-190 | The assessment holds the collected indicators and their maximum severity. It requires immediate attention iff the risk is critical or high, carries that level's non-empty recommendations, and is stamped `now`. |
| CrisisDetection.AssessCrisisRisk | src/services/CrisisDetectionService.ts:141-190 | The imperative `assessCrisisRisk` returns exactly `Assess`. |
| CrisisDetection.ContainingTextNotEmpty | src/services/CrisisDetectionService.ts:149-151 | A message containing a phrase is non-empty, so the truthiness test on the text never hides a match. |
| CrisisDetection.CriticalPhraseMeansCritical | src/services/CrisisDetectionService.ts:149-176 | A message containing a critical phrase makes the risk critical and requires immediate attention, whatever the behaviour metrics. |
| CrisisDetection.HighPhraseMeansHigh | src/services/CrisisDetectionService.ts:149-176 | A high-risk phrase without any critical phrase makes the risk high and requires immediate attention. |
| CrisisDetection.QuietInputMeansLow | src/services/CrisisDetectionService.ts:141-176 | With no phrase and no metric over its threshold, there are no indicators, the risk is low and no attention is required. |
| CrisisDetection.HopelessAndWantToDie | src/services/CrisisDetectionService.ts:48-190 | "I feel hopeless and want to die" reports each of its two phrases once. It is critical, requires attention, and is offered the 988 lifeline. |
| Wellness.PrependCapped | src/stores/wellnessStore.ts:63-66 | The new entry is first, the old entries follow in order, and the length is the old length plus one, capped at 100. |
| Wellness.PrependTwice | src/stores/wellnessStore.ts:63-66 | Two insertions put the later entry before the earlier one, followed by the surviving old entries. |
| Wellness.NewGoal | src/stores/wellnessStore.ts:73-80 | A new goal has the given id and creation time, zero progress, is open, and copies the caller's other fields. |
| Wellness.WithProgress | src/stores/wellnessStore.ts:87-99 | Goals with another id are unchanged. Goals with the id take the new value and are completed iff it reaches their target; nothing else about them changes. |
| Wellness.WithCompleted | src/stores/wellnessStore.ts:101-107 | Goals with another id are unchanged. Goals with the id become completed and keep everything else. |
| Wellness.Progressed | src/stores/wellnessStore.ts:91-95 | The updated goal holds the new value and is completed iff the value reaches its target; its id, title, description, target, unit, deadline and creation time are kept. |
| Wellness.ProgressForUnknownIdIsNoOp | src/stores/wellnessStore.ts:87-99 | Progress for an id no goal has leaves the goals as they were. |
| Wellness.ProgressLastWriteWins | src/stores/wellnessStore.ts:87-99 | Two progress updates in a row equal the second one alone. |
| Wellness.ProgressCanReopen | src/stores/wellnessStore.ts:94 | Reaching the target completes a goal, and a later lower value reopens it. |
| Wellness.CompletedGoalsCount | src/stores/wellnessStore.ts:142-145 | The count is at most the number of goals. It is zero iff none is completed, and the total iff all are. |
| Wellness.CountConcat | src/stores/wellnessStore.ts:142-145 | The count of a concatenation is the sum of the counts. |
| Wellness.NewGoalNotCounted | src/stores/wellnessStore.ts:73-85 | Adding a goal does not change the completed count. |
| Wellness.OpenGoalsWithId | src/stores/wellnessStore.ts:101-107 | The number of open goals with an id is positive iff such a goal exists. |
| Wellness.CompleteGoalCount | src/stores/wellnessStore.ts:101-107 | Completing an id raises the completed count by exactly the number of open goals with that id. |
| Wellness.InWindow | src/stores/wellnessStore.ts:115-117 | An entry is in the window exactly when it is logged and stamped at or after the cutoff; the window is no longer than the list. |
| Wellness.InWindowCounts | src/stores/wellnessStore.ts:115-117 | The window holds each entry stamped at or after the cutoff exactly as many times as the list does, and no other entry. |
| Wellness.AllInWindow | src/stores/wellnessStore.ts:115-117 | When every entry is recent enough, the window is the whole list in its order. |
| Wellness.SumMoodsBounds | src/stores/wellnessStore.ts:121 | With moods on the 1–10 scale, the sum lies between the count and ten times the count. |
| Wellness.SumMoods | src/stores/wellnessStore.ts:121 | The sum of the moods, the `reduce` used by the average here and by both trend averages at lines 132-133; it is 0 for no entries. |
| Wellness.SumMoodsFromBack | src/stores/wellnessStore.ts:121 | Adding the moods from the back, one entry at a time as `reduce` does, gives the same sum. |
| Wellness.Mean | src/stores/wellnessStore.ts:122 | `sum / length` for a non-empty list; the trend averages at lines 132-133 are the same quotient. |
| Wellness.RoundToTenth | src/stores/wellnessStore.ts:122 | The result is a whole number of tenths, more than x − 0.05 and at most x + 0.05, which makes it the nearest tenth with halves rounded up. |
| Wellness.RoundToTenthWithin | src/stores/wellnessStore.ts:122 | Rounding keeps a value between two whole numbers between them. |
| Wellness.QuotientBounds | src/stores/wellnessStore.ts:122 | A total between `low·n` and `high·n`, divided by `n`, lies between `low` and `high`. |
| Wellness.MeanInScale | src/stores/wellnessStore.ts:121-122 | The mean of 1–10 moods lies in 1–10. |
| Wellness.MoodAverage | src/stores/wellnessStore.ts:110-123 | An empty window gives 0. Otherwise the result is the window's mean rounded to a whole number of tenths (within −0.05/+0.05), and in 1–10 when every mood is. |
| Wellness.AverageOfThree | src/stores/wellnessStore.ts:110-123 | Three entries logged now average to their sum over three, rounded to a tenth. |
| Wellness.AverageOfEightSixFour | src/stores/wellnessStore.ts:110-123 | Moods 8, 6 and 4 logged now average to exactly 6.0. |
| Wellness.AverageRoundsToTenth | src/stores/wellnessStore.ts:110-123 | Moods 9, 8 and 8 logged now average to 8.3. |
| Wellness.MoodTrend | src/stores/wellnessStore.ts:125-140 | Fewer than 10 entries is stable. Otherwise, with recent = entries 0–6 (size r) and older = entries 7–13 (size o), the trend is improving iff 2(o·Σrecent − r·Σolder) > r·o, and declining iff it is below −r·o. |
| Wellness.TrendSeesNewestFourteen | src/stores/wellnessStore.ts:127-128 | Entries beyond the fourteenth never affect the trend. |
| Wellness.CrossMultiplied | src/stores/wellnessStore.ts:132-138 | Comparing a difference of means with ±0.5 is equivalent to the division-free comparison above. |
| Wellness.WellnessStore.constructor | src/stores/wellnessStore.ts:48-51 | The store starts with no entries, mood 5 and no goals. |
| Wellness.WellnessStore.AddMoodEntry | src/stores/wellnessStore.ts:54-67 | The new entry is first and the old entries follow. The list never exceeds 100, the mood becomes current, and the goals are unchanged. |
| Wellness.WellnessStore.UpdateCurrentMood | src/stores/wellnessStore.ts:69-71 | Only the current mood changes. |
| Wellness.WellnessStore.AddWellnessGoal | src/stores/wellnessStore.ts:73-85 | Exactly one open, zero-progress goal is appended. The completed count is kept and the mood fields are unchanged. |
| Wellness.WellnessStore.UpdateGoalProgress | src/stores/wellnessStore.ts:87-99 | The goals become `WithProgress` of the old goals; the mood fields are unchanged. |
| Wellness.WellnessStore.CompleteGoal | src/stores/wellnessStore.ts:101-107 | The goals become `WithCompleted` of the old goals, and the completed count grows by the open goals with that id. |
| Wellness.WellnessStore.GetMoodAverage | src/stores/wellnessStore.ts:110-123 | Returns the mood average of the current entries, 0 for an empty window. |
| Wellness.WellnessStore.GetMoodTrend | src/stores/wellnessStore.ts:125-140 | Returns the trend of the current entries; stable with fewer than 10 entries. |
| Wellness.WellnessStore.GetCompletedGoalsCount | src/stores/wellnessStore.ts:142-145 | Returns the completed count of the current goals, at most their number. |
| Logging.CrisisAlwaysRecorded | src/utils/logger.ts:6-13 | Crisis passes every threshold, and a crisis threshold drops every other level. |
| Logging.LogLevel.Value | src/utils/logger.ts:6-13 | Levels are numbered 0 to 5, and 5 belongs to Crisis alone. |
| Logging.Recorded | src/utils/logger.ts:59 | A call is kept unless its level's number is below the threshold's. |
| Logging.MakeEntry | src/utils/logger.ts:66-73 | The entry carries the call's time, level, message, context and data, plus the options' privacy flag, urgency and user id. |
| Logging.Newest | src/utils/logger.ts:76-79 | The newest `min(n, 1000)` elements of a history, as a suffix. |
| Logging.Retain | src/utils/logger.ts:76-79 | The new entry is last. Below capacity the buffer grows by it; at capacity exactly the oldest entry is dropped. The buffer stays within 1000. |
| Logging.RetainKeepsNewest | src/utils/logger.ts:76-79 | A buffer holding the newest entries of a history still does after one more push-and-shift. |
| Logging.Replay | src/utils/logger.ts:76-79 | Recording any sequence of accepted entries into an empty buffer leaves exactly the newest 1000. |
| Logging.Logger.constructor | src/utils/logger.ts:27-35 | The threshold is Debug in a development build and Info otherwise; the buffer starts empty. |
| Logging.Logger.Log | src/utils/logger.ts:52-80 | Below the threshold the buffer is unchanged. Otherwise it becomes `Retain` of the old buffer and the call's entry, and never exceeds 1000. |
| Logging.Logger.Debug | src/utils/logger.ts:107-109 | A Debug-level `log` without options. |
| Logging.Logger.Info | src/utils/logger.ts:111-113 | An Info-level `log` without options. |
| Logging.Logger.Warn | src/utils/logger.ts:115-117 | A Warn-level `log` without options. |
| Logging.Logger.Error | src/utils/logger.ts:119-121 | An Error-level `log` without options. |
| Logging.Logger.Critical | src/utils/logger.ts:123-125 | A Critical-level `log` without options. |
| Logging.Logger.Crisis | src/utils/logger.ts:130-137 | Always recorded, whatever the threshold. The last entry is at Crisis level with the given urgency. |
| Logging.Logger.GetLogs | src/utils/logger.ts:139-141 | Returns a copy of the buffer's sequence of entries, at most 1000, and changes nothing. |
| Logging.Logger.ClearLogs | src/utils/logger.ts:143-145 | The buffer is empty and the threshold is unchanged. |
| Logging.Logger.SetLogLevel | src/utils/logger.ts:147-149 | The threshold is set and the buffer is unchanged. |

## Left out

- Lower-casing covers ASCII letters only. `toLowerCase` also maps non-ASCII letters, for example the Kelvin sign to `k`, which this model does not.
- The model reads the clock once per call and uses that single `now` for every indicator and the assessment. The code calls `new Date()` for each one.
- All numbers are exact reals, not IEEE doubles, so rounding error in the mood average and the goal comparison is not modelled.
- The cutoff for `getMoodAverage` is `now - days * 86 400 000` ms. `setDate` calendar arithmetic across daylight-saving changes is not modelled.
- The `logger.crisis` calls inside `analyzeText` and `assessCrisisRisk` are logging side effects with no influence on the results, and are not modelled.
- The `riskFactors` map is never read, so it is not modelled. The singleton `getInstance` is not modelled either.
- `assessCrisisRisk`'s `userHistory` argument and `generateRecommendations`' `indicators` argument are unused by the code, so the model has neither.
- `behaviorMetrics` is any object in the code. The model gives it the four optional numeric fields `analyzeBehavior` reads.
- The store's `persist`/`partialize` snapshot to browser storage is I/O and is not modelled. `crypto.randomUUID` is modelled as an id parameter.
- Logger `sanitizeData` (regex redaction of e-mail addresses and phone numbers in production) has no Dafny counterpart. Recorded data is therefore stored as given.
- The logger's console output is not modelled.
- `import.meta.env.DEV` is modelled as the constructor's `development` flag.
- Log `data` is `unknown` in the code and optional text here. The never-set `stack` field is omitted.
- `addMoodEntry` does not check the 1–10 range in the code, and neither does the model. The bounds on the average assume it via `MoodsInScale`.
- Moods, including `currentMood`, are integers in the model. The code types them as `number`, so a fractional mood is possible there. It is left out because the store's contract treats a mood as a whole number on the 1–10 scale.
- Logging.Logger.GetLogs: log entries are immutable values in the model. In the code, `[...this.logs]` copies only the array, and the entry objects stay shared between the buffer and the returned array. A caller that mutates a returned entry therefore changes the buffered one, and the model does not capture that aliasing.
