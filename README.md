# Prediction engine of MarketReaction/Predictor, modelled in Dafny

The Predictor service makes directional forecasts ("predictions") of a
company's next price move and later grades them against realised quotes.
This project models its two jobs and proves properties of them.

- **Generation** (`PredictionGenerator.generatePrediction`) works on one company:
  - It selects the historical learning-model records with the company's current pattern.
  - It keeps the records whose sentiment difference lies strictly below the current one.
  - The predicted change is the mean of the candidate list [average, maximum, average] of the kept records' changes.
  - It classifies that change as Up, Down or None.
  - The expiry is one day ahead, rolled forward off a weekend.
  - The certainty is the hit rate of the company's recent validated predictions in the same direction. It defaults to 0.5, and a short perfect streak is clamped to 0.6.
  - Finally the forecast is reconciled with the company's open predictions: it is discarded, it updates one row's certainty, or it becomes a new row and an id is published.
- **Validation** (`PredictionValidator.validatePredictions`) scans the open predictions that are overdue:
  - It rolls the start date backward off a weekend and the end date forward off a weekend.
  - It looks up the realised quote at each date, with a fallback rule for intraday exchanges.
  - It grades the prediction: correctness, actual change and actual earning per share.
  - It collects the (exchange, day) pairs whose quotes are missing, and sends each of them once after the scan.

The model has these modules:

| module | file | content |
|---|---|---|
| `TradingCalendar` | `calendar.dfy` | Joda weekday numbering, the weekend rolls, day truncation, Java's `intValue()` narrowing |
| `Domain` | `domain.dfy` | the stored records, nullable references as `Option` |
| `Analogues` | `analogues.dfy` | analogue filtering and the predicted change |
| `CertaintyEstimator` | `certainty.dfy` | the certainty estimate and the static prediction predicates |
| `DuplicateReconciler` | `reconcile.dfy` | the discard / update / create decision |
| `Forecasting` | `forecast.dfy` | the direction, expiry, percent change, earning per share, and the candidate one generator run computes |
| `Validation` | `validation.dfy` | overdue test, start and end dates, quote lookup, grading, one prediction's verdict, the whole run as functions |
| `Engine` | `engine.dfy` | `PredictionStore`, a class whose fields are the prediction rows and the two outgoing message logs. Its methods `Generate` and `ValidateAll` do the work step by step, as the source does, and are proved against the functions above |
| `Scenarios` | `scenarios.dfy` | the situations of the repository's tests, as lemmas |

Conventions:
- Time is an `int` of milliseconds since 1970-01-01T00:00 UTC.
- "Now" is a parameter.
- Prices and certainties are `real`.
- A prediction's id is its position in the store.
- The quote query of the generator and the external quote and sentiment utilities are given as inputs: `quotePage` and `Signals`.

Paths below are relative to the repository root. `G` stands for
`src/main/java/uk/co/jassoft/markets/prediction/PredictionGenerator.java` and
`V` for `src/main/java/uk/co/jassoft/markets/prediction/PredictionValidator.java`.
The table cells spell both out.

## Model

| member | source | states |
|---|---|---|
| TradingCalendar.DayOfWeek | src/main/java/uk/co/jassoft/markets/prediction/PredictionGenerator.java:140-146 | Joda's day of week is in 1..7 (Saturday 6, Sunday 7), and the epoch day 1970-01-01 is a Thursday (4) |
| TradingCalendar.RollForward | src/main/java/uk/co/jassoft/markets/prediction/PredictionGenerator.java:138-146 | a Saturday moves two days on and a Sunday one day on; the result is never a weekend day and lies 0 to 2 days after the input |
| TradingCalendar.RollForwardIsNextBusinessDay | src/main/java/uk/co/jassoft/markets/prediction/PredictionValidator.java:88-96 | the forward roll moves a whole number (0 to 2) of days; every day it skips is a weekend day; a business day stays put; a weekend lands on Monday |
| TradingCalendar.RollBackward | src/main/java/uk/co/jassoft/markets/prediction/PredictionValidator.java:64-72 | a Saturday moves one day back and a Sunday two days back; the result is never a weekend day and lies 0 to 2 days before the input |
| TradingCalendar.RollBackwardIsPreviousBusinessDay | src/main/java/uk/co/jassoft/markets/prediction/PredictionValidator.java:64-72 | the backward roll moves 0 to 2 whole days; every day it skips is a weekend day; a business day stays put; a weekend lands on Friday |
| TradingCalendar.RollsAreIdempotent | src/main/java/uk/co/jassoft/markets/prediction/PredictionValidator.java:64-96 | rolling an already rolled date again changes nothing, in both directions |
| TradingCalendar.Midnight | src/main/java/uk/co/jassoft/markets/prediction/PredictionValidator.java:150 | day truncation gives a multiple of a day, at or before the instant and less than a day before it, with the same weekday |
| TradingCalendar.MidnightIdentifiesDay | src/main/java/uk/co/jassoft/markets/prediction/PredictionValidator.java:81 | two instants truncate to the same midnight exactly when they fall on the same day |
| TradingCalendar.IntValue | src/main/java/uk/co/jassoft/markets/prediction/PredictionValidator.java:88 | `intValue()` yields a signed 32-bit value congruent to the long modulo 2^32, and leaves a value that fits unchanged |
| Domain.Abs | src/main/java/uk/co/jassoft/markets/prediction/PredictionGenerator.java:164 | `Math.abs` is non-negative and equals the argument or its negation |
| Analogues.MatchingRecordsKeepsEveryRecord | src/main/java/uk/co/jassoft/markets/prediction/PredictionGenerator.java:82-84 | the learning-model query returns each stored record with the company and the previous quote and sentiment directions as often as it is stored, and no other record |
| Analogues.MatchingRecords | src/main/java/uk/co/jassoft/markets/prediction/PredictionGenerator.java:82-84 | the learning-model query returns exactly the stored records with the company and the previous quote and sentiment directions, and no more records than are stored |
| Analogues.FilterRecordsKeepsEveryRecord | src/main/java/uk/co/jassoft/markets/prediction/PredictionGenerator.java:233-235 | a record survives, as often as it occurs, exactly when its sentiment difference is strictly below the current one; no record is dropped or merged |
| Analogues.IsWithinDifferenceFromAverage | src/main/java/uk/co/jassoft/markets/prediction/PredictionGenerator.java:233-235 | a record passes when its sentiment difference is strictly below the current one, so a record level with the threshold never passes |
| Analogues.FilterRecords | src/main/java/uk/co/jassoft/markets/prediction/PredictionGenerator.java:90-106 | the threshold filter keeps exactly the records whose sentiment difference is strictly below the current one, and never more records than it is given |
| Analogues.Changes | src/main/java/uk/co/jassoft/markets/prediction/PredictionGenerator.java:93 | the mapped stream holds each record's resulting quote change, position by position |
| Analogues.Maximum | src/main/java/uk/co/jassoft/markets/prediction/PredictionGenerator.java:95-99 | `max()` is present exactly for a non-empty stream, is one of its values, and bounds all of them |
| Analogues.Average | src/main/java/uk/co/jassoft/markets/prediction/PredictionGenerator.java:90-94 | `average()` is present exactly for a non-empty stream, and then the mean times the count is the sum |
| Analogues.AverageWithinRange | src/main/java/uk/co/jassoft/markets/prediction/PredictionGenerator.java:124 | an average lies between the least and the greatest value |
| Analogues.CandidateValues | src/main/java/uk/co/jassoft/markets/prediction/PredictionGenerator.java:108-117 | the candidate list is empty without survivors, otherwise [average, maximum, average] of their changes |
| Analogues.SurvivingChanges | src/main/java/uk/co/jassoft/markets/prediction/PredictionGenerator.java:90-106 | a value is a surviving change exactly when some record that passes the threshold has it as its resulting change |
| Analogues.SurvivingChangesCountEveryRecord | src/main/java/uk/co/jassoft/markets/prediction/PredictionGenerator.java:90-106 | each value occurs among the changes the averages and the maximum are taken over exactly as often as passing records carry it |
| Analogues.PredictedChange | src/main/java/uk/co/jassoft/markets/prediction/PredictionGenerator.java:90-124 | there is no prediction exactly when nothing survives; otherwise the prediction lies between the least and the greatest surviving change |
| Analogues.NoSurvivorMeansNoPrediction | src/main/java/uk/co/jassoft/markets/prediction/PredictionGenerator.java:119-122 | the candidate list is empty exactly when no record passes the strict threshold |
| Analogues.PredictedChangeOfAgreeingAnalogues | src/main/java/uk/co/jassoft/markets/prediction/PredictionGenerator.java:90-124 | when every surviving record has change c, a single record in particular, the prediction is exactly c |
| Analogues.PredictedChangeWeightsAverageTwice | src/main/java/uk/co/jassoft/markets/prediction/PredictionGenerator.java:101-124 | the "above" average repeats the first filter, so the prediction is (2 * average + maximum) / 3 of the surviving changes |
| CertaintyEstimator.CompanyPredictionsKeepsEveryRow | src/main/java/uk/co/jassoft/markets/prediction/PredictionGenerator.java:148 | the company query returns each of the company's rows as often as it is stored, and no other row |
| CertaintyEstimator.CompanyPredictions | src/main/java/uk/co/jassoft/markets/prediction/PredictionGenerator.java:148 | the company query returns exactly the stored rows of the company, and never more rows than are stored |
| CertaintyEstimator.CompanyPredictionsOfConcat | src/main/java/uk/co/jassoft/markets/prediction/PredictionGenerator.java:148 | the company query keeps store order: the result for a concatenation is the result for the first part followed by that for the second |
| CertaintyEstimator.Page | src/main/java/uk/co/jassoft/markets/prediction/PredictionGenerator.java:148 | the first page holds min(size, count) rows and is a prefix of the query result |
| CertaintyEstimator.History | src/main/java/uk/co/jassoft/markets/prediction/PredictionGenerator.java:148 | the history is the first min(100, n) of the n rows of the company query, in its order |
| CertaintyEstimator.IsValidated | src/main/java/uk/co/jassoft/markets/prediction/PredictionGenerator.java:217-219 | a row is validated exactly when it has been graded, correct or not |
| CertaintyEstimator.IsWithinLastDays | src/main/java/uk/co/jassoft/markets/prediction/PredictionGenerator.java:221-223 | a row is within the last `days` days exactly when it was made less than `days` whole days before now (strictly after now minus `days` days, as Joda's `isBefore`) |
| CertaintyEstimator.MatchesDirection | src/main/java/uk/co/jassoft/markets/prediction/PredictionGenerator.java:225-227 | a row matches exactly when it points in the given direction |
| CertaintyEstimator.IsCorrect | src/main/java/uk/co/jassoft/markets/prediction/PredictionGenerator.java:229-231 | a correct row is a validated one; the code only applies it after the validated filter, where unboxing cannot fail |
| CertaintyEstimator.MatchingPredictions | src/main/java/uk/co/jassoft/markets/prediction/PredictionGenerator.java:150 | a row is matching exactly when it is validated, in the same direction and made after now minus 30 days (the predicates of lines 217-227) |
| CertaintyEstimator.MatchingPredictionsKeepsEveryRow | src/main/java/uk/co/jassoft/markets/prediction/PredictionGenerator.java:150 | each such row is matching as often as it occurs in the history, so the size of the matching list counts every comparable row |
| CertaintyEstimator.CorrectCount | src/main/java/uk/co/jassoft/markets/prediction/PredictionGenerator.java:152 | the size of the correct list is the number of positions holding a correct prediction; it equals the number of rows exactly when all are correct |
| CertaintyEstimator.Certainty | src/main/java/uk/co/jassoft/markets/prediction/PredictionGenerator.java:154-162 | the certainty always lies in [0, 1] and is 0.5 when no prediction matches |
| CertaintyEstimator.HitRate | src/main/java/uk/co/jassoft/markets/prediction/PredictionGenerator.java:157 | the ratio of correct to matching predictions times the matching count is the correct count; it lies in [0, 1] and is 1 exactly when every matching prediction was correct |
| CertaintyEstimator.CertaintyIsHitRate | src/main/java/uk/co/jassoft/markets/prediction/PredictionGenerator.java:154-162 | with matches: correct / matching when there are at least 3 matches or any match was wrong; 0.6 for a perfect streak shorter than 3; never 1.0 below 3 matches |
| CertaintyEstimator.CertaintyIgnoresOpenPredictions | src/main/java/uk/co/jassoft/markets/prediction/PredictionGenerator.java:150 | changing or appending open predictions leaves every certainty estimate unchanged |
| DuplicateReconciler.FirstOpenDuplicate | src/main/java/uk/co/jassoft/markets/prediction/PredictionGenerator.java:184-186 | the loop stops at the first open row of the company with equal direction and equal predicted change, or finds none |
| DuplicateReconciler.IsOpenDuplicate | src/main/java/uk/co/jassoft/markets/prediction/PredictionGenerator.java:184-186 | a row duplicates a candidate when it is open and has the candidate's company, direction and predicted change |
| DuplicateReconciler.Reconcile | src/main/java/uk/co/jassoft/markets/prediction/PredictionGenerator.java:181-199 | a new row is created exactly when no open duplicate exists; otherwise the first open duplicate decides, and the forecast is discarded exactly when the certainties are equal |
| DuplicateReconciler.Apply | src/main/java/uk/co/jassoft/markets/prediction/PredictionGenerator.java:187-202 | a discard changes nothing; an update changes only that row's certainty; a creation appends the candidate |
| DuplicateReconciler.ReconcileKeepsNoOpenDuplicates | src/main/java/uk/co/jassoft/markets/prediction/PredictionGenerator.java:181-203 | reconciling an open forecast keeps at most one open row per company, direction and predicted change |
| DuplicateReconciler.ReconcileTwiceDiscards | src/main/java/uk/co/jassoft/markets/prediction/PredictionGenerator.java:185-190 | reconciling the same forecast again, against the store the first reconciliation left, discards it |
| Forecasting.DirectionOf | src/main/java/uk/co/jassoft/markets/prediction/PredictionGenerator.java:128-134 | Up exactly for a positive change, Down exactly for a negative one, None exactly for zero |
| Forecasting.Expiry | src/main/java/uk/co/jassoft/markets/prediction/PredictionGenerator.java:136-146 | the expiry is never a weekend day and lies 1 to 3 days after creation |
| Forecasting.ValidityPeriodIsOneToThreeDays | src/main/java/uk/co/jassoft/markets/prediction/PredictionGenerator.java:171 | the stored validity period is one, two or three whole days, so the validator's 32-bit narrowing leaves it unchanged |
| Forecasting.ExpiryIsNextBusinessDay | src/main/java/uk/co/jassoft/markets/prediction/PredictionGenerator.java:138-146 | every day strictly between creation and expiry is a weekend day, and a business day after creation is the expiry itself |
| Forecasting.PercentChange | src/main/java/uk/co/jassoft/markets/prediction/PredictionGenerator.java:126 | the percent change times the last close is the change times 100; absent exactly when the last close is zero |
| Forecasting.EarningPerShare | src/main/java/uk/co/jassoft/markets/prediction/PredictionGenerator.java:164 | the potential earning per share is non-negative and is bid - ask + change or its negation |
| Forecasting.Forecast | src/main/java/uk/co/jassoft/markets/prediction/PredictionGenerator.java:63-179 | the outcome is a failure exactly for an unknown company; nothing exactly without quotes, for a utility's domain exception, or when no analogue passes the threshold. The candidate is open, takes the next id and the company record's id, and carries the predicted change of its analogues with the matching direction. Its expiry is the next business day, its certainty is the estimate over the store's history, its bid and ask are the last quote's, its percent change is the change over the last close times 100, and its potential earning per share is abs(bid - (ask - change)), never negative |
| Forecasting.NewPrediction | src/main/java/uk/co/jassoft/markets/prediction/PredictionGenerator.java:168-179 | the built row is open with the given id, company and creation time; its direction follows the sign of the change; it expires on the next business day (one to three days on); its certainty is the estimate over the store, within [0, 1]; it carries the last bid and ask, the percent change and the potential earning per share |
| Validation.StartDate | src/main/java/uk/co/jassoft/markets/prediction/PredictionValidator.java:64-72 | the start date is the creation instant moved back 0 to 2 whole days: the creation instant itself on a business day, otherwise the preceding Friday; never a weekend day |
| Validation.EndDate | src/main/java/uk/co/jassoft/markets/prediction/PredictionValidator.java:88-96 | the end date is the expiry moved on 0 to 2 whole days: the expiry itself on a business day, otherwise the following Monday; never a weekend day |
| Validation.ExpiryOf | src/main/java/uk/co/jassoft/markets/prediction/PredictionValidator.java:154 | the validator's expiry lies within 2^31 ms of creation and equals creation plus the validity period whenever the period fits in an int |
| Validation.IsOverdue | src/main/java/uk/co/jassoft/markets/prediction/PredictionValidator.java:153-155 | a prediction whose validity period fits in an int is overdue exactly when creation plus the period is before now |
| Validation.LatestBefore | src/main/java/uk/co/jassoft/markets/prediction/PredictionValidator.java:143-147 | the intraday query returns an end-of-day quote of the company strictly before the date, with no later such quote. It returns none exactly when no such quote exists |
| Validation.QuoteOnDay | src/main/java/uk/co/jassoft/markets/prediction/PredictionValidator.java:150 | the exact query returns an end-of-day quote of the company at that day, or none exactly when none exists |
| Validation.QuoteAtDate | src/main/java/uk/co/jassoft/markets/prediction/PredictionValidator.java:141-151 | on an intraday exchange with an earlier end-of-day quote, the latest one is used; otherwise only a quote at the day's midnight can be used. There is no quote exactly when neither lookup finds one |
| Validation.ActualDirection | src/main/java/uk/co/jassoft/markets/prediction/PredictionValidator.java:109-118 | Down exactly when start open > end close, Up exactly when below, None exactly when equal |
| Validation.Grade | src/main/java/uk/co/jassoft/markets/prediction/PredictionValidator.java:109-125 | only the three outcome fields change. The prediction is correct exactly when the price moved the predicted way. The actual change plus the start open is the end close, and the actual earning per share is abs(lastBid - (lastAsk - actualChange)), never negative |
| Validation.Examine | src/main/java/uk/co/jassoft/markets/prediction/PredictionValidator.java:62-131 | only open overdue predictions are examined. An unknown company or exchange fails the run. A missing start quote requests the start day on the company's exchange; only after that can a missing end quote request the end day. The prediction is resolved exactly when it is open, overdue, its company and exchange are known and both quotes exist, and then it is graded against them |
| Validation.Settle | src/main/java/uk/co/jassoft/markets/prediction/PredictionValidator.java:120-129 | a prediction that can be graded (open, overdue, known company and exchange, both quotes present) is replaced by its grading against its start and end quotes; any other prediction is kept unchanged; the id is kept |
| Validation.SettleResolvesOnlyOverdueOpenPredictions | src/main/java/uk/co/jassoft/markets/prediction/PredictionValidator.java:60-62 | only an open overdue prediction changes, and it then is no longer open. Nothing but the outcome fields changes, and a settled prediction is not changed again |
| Validation.MissingDayIsBusinessDayMidnight | src/main/java/uk/co/jassoft/markets/prediction/PredictionValidator.java:79-107 | a requested day is the midnight of a business day |
| Validation.SettleUpTo | src/main/java/uk/co/jassoft/markets/prediction/PredictionValidator.java:62-131 | after the scan has reached position n, the rows before n are settled and the others are untouched |
| Validation.FirstRaise | src/main/java/uk/co/jassoft/markets/prediction/PredictionValidator.java:74-75 | the first prediction whose company or exchange is unknown, or none exactly when every prediction can be examined |
| Validation.Verdicts | src/main/java/uk/co/jassoft/markets/prediction/PredictionValidator.java:62 | the scan's verdicts, one per prediction in store order |
| Validation.Requests | src/main/java/uk/co/jassoft/markets/prediction/PredictionValidator.java:58 | the collected set holds exactly the requests of the verdicts |
| Validation.MissingRequests | src/main/java/uk/co/jassoft/markets/prediction/PredictionValidator.java:58-107 | the run's request set holds exactly the requests that the examinations of the first n rows ask for |
| Validation.ScanStep | src/main/java/uk/co/jassoft/markets/prediction/PredictionValidator.java:62-131 | scanning one more prediction adds exactly its missing day, if any, to the collected set and replaces exactly that row by its settlement |
| Validation.RequestsAreBusinessDayMidnights | src/main/java/uk/co/jassoft/markets/prediction/PredictionValidator.java:79-107 | every collected request is a business-day midnight on the exchange of some overdue open prediction's company |
| Validation.SettleUpToKeepsNoOpenDuplicates | src/main/java/uk/co/jassoft/markets/prediction/PredictionValidator.java:120-129 | validation cannot create two open predictions for the same company, direction and change |
| Validation.SettleAllIsIdempotent | src/main/java/uk/co/jassoft/markets/prediction/PredictionValidator.java:60-62 | a second complete run changes no prediction |
| Engine.SettleUpToKeepsWellFormed | src/main/java/uk/co/jassoft/markets/prediction/PredictionValidator.java:129 | settled stores keep ids equal to positions and at most one open duplicate |
| Engine.PredictionStore.Generate | src/main/java/uk/co/jassoft/markets/prediction/PredictionGenerator.java:63-215 | a run fails exactly for an unknown company; without a candidate nothing is written or published; otherwise the store becomes the reconciliation of the candidate, and its id is published exactly when a row is created. The store invariant is kept |
| Engine.PredictionStore.PrepareCandidate | src/main/java/uk/co/jassoft/markets/prediction/PredictionGenerator.java:63-179 | the step-by-step lookups, early returns and field computations yield exactly the outcome `Forecasting.Forecast` describes |
| Engine.PredictionStore.AverageOfCandidates | src/main/java/uk/co/jassoft/markets/prediction/PredictionGenerator.java:90-124 | the three stream pipelines, the conditional appends and the final average give exactly the predicted change of the analogues |
| Engine.PredictionStore.NewRow | src/main/java/uk/co/jassoft/markets/prediction/PredictionGenerator.java:126-179 | the built row is the candidate with the next id, the rolled expiry, the certainty over the store and the last quote's bid and ask |
| Engine.PredictionStore.DirectionFor | src/main/java/uk/co/jassoft/markets/prediction/PredictionGenerator.java:128-134 | the two guarded assignments give the direction of the change |
| Engine.PredictionStore.ExpiryFor | src/main/java/uk/co/jassoft/markets/prediction/PredictionGenerator.java:136-146 | the two guarded moves give the expiry one business day on |
| Engine.PredictionStore.Record | src/main/java/uk/co/jassoft/markets/prediction/PredictionGenerator.java:181-203 | the loop over open predictions and the final save carry out exactly the reconciliation decision, and publish an id only for a new row |
| Engine.PredictionStore.ValidateAll | src/main/java/uk/co/jassoft/markets/prediction/PredictionValidator.java:56-139 | a run fails exactly when some prediction's company or exchange is unknown; the rows before it are settled and nothing is sent. Otherwise every row is settled, and each collected request is sent exactly once after the scan |
| Engine.PredictionStore.Scan | src/main/java/uk/co/jassoft/markets/prediction/PredictionValidator.java:56-131 | the scan settles the rows up to the first one that fails the run, or all of them, keeps the store well formed, sends nothing, and collects exactly the missing days |
| Engine.PredictionStore.SettleRows | src/main/java/uk/co/jassoft/markets/prediction/PredictionValidator.java:62-131 | the loop in store order stops exactly at the first failing row; the rows before it are settled, and without a failure every missing day is collected |
| Engine.PredictionStore.SettleRow | src/main/java/uk/co/jassoft/markets/prediction/PredictionValidator.java:62-131 | one iteration fails exactly when that row's company or exchange is unknown, and otherwise settles that row and adds its missing day |
| Engine.PredictionStore.ExaminePrediction | src/main/java/uk/co/jassoft/markets/prediction/PredictionValidator.java:62-131 | the step-by-step examination, with reassigned dates and direction, yields exactly the verdict of `Validation.Examine` |
| Engine.PredictionStore.StartDateFor | src/main/java/uk/co/jassoft/markets/prediction/PredictionValidator.java:64-72 | the two guarded moves give the start date rolled back off a weekend |
| Engine.PredictionStore.EndDateFor | src/main/java/uk/co/jassoft/markets/prediction/PredictionValidator.java:88-96 | the narrowed expiry with the two guarded moves gives the end date rolled forward off a weekend |
| Engine.PredictionStore.QuoteDirectionFor | src/main/java/uk/co/jassoft/markets/prediction/PredictionValidator.java:109-118 | the three guarded assignments give the direction the price actually moved |
| Engine.PredictionStore.Send | src/main/java/uk/co/jassoft/markets/prediction/PredictionValidator.java:134-137 | every element of the set is appended to the queue once and nothing else is |
| Engine.GenerateTwiceWritesNothing | src/main/java/uk/co/jassoft/markets/prediction/PredictionGenerator.java:181-203 | a second generator run with the same inputs at the same instant discards its forecast |
| Engine.ForecastSeesOnlyValidatedRows | src/main/java/uk/co/jassoft/markets/prediction/PredictionGenerator.java:148-158 | changing open rows in place, or appending open rows, leaves the candidate unchanged up to its id |
| Engine.GeneratedRowIsOverdueAfterExpiry | src/main/java/uk/co/jassoft/markets/prediction/PredictionValidator.java:153-155 | a row the generator writes becomes overdue for the validator exactly once the generator's expiry has passed |
| Scenarios.SingleAnalogueForecast | src/test/java/uk/co/jassoft/markets/prediction/PredictionGeneratorTest.java:144-156 | one Down/Down analogue with difference -5 and change -2, and any current difference above -5, give a Down candidate of exactly -2 |
| Scenarios.FirstPredictionHasGuessCertainty | src/test/java/uk/co/jassoft/markets/prediction/PredictionGeneratorTest.java:139-157 | with no earlier predictions the certainty is 0.5 and the change -2 |
| Scenarios.FourCorrectPredictionsGiveFullCertainty | src/test/java/uk/co/jassoft/markets/prediction/PredictionGeneratorTest.java:159-183 | after four correct Down predictions of two days ago the certainty is 1.0 and the new row is the fifth |
| Scenarios.OneCorrectPredictionGivesLowerCertainty | src/test/java/uk/co/jassoft/markets/prediction/PredictionGeneratorTest.java:214-237 | after one correct Down prediction the certainty is 0.6 |
| Scenarios.FirstRunAppendsFifthRow | src/test/java/uk/co/jassoft/markets/prediction/PredictionGeneratorTest.java:185-212 | after four correct predictions the first run creates a fifth row, with certainty 1.0 |
| Scenarios.SecondRunDiscards | src/test/java/uk/co/jassoft/markets/prediction/PredictionGeneratorTest.java:185-212 | the repeated run against the five rows discards its forecast, so five rows remain |
| Scenarios.NoStartQuoteRequestsStartDay | src/test/java/uk/co/jassoft/markets/prediction/PredictionValidatorTest.java:66-83 | without quotes the 2016-03-01 prediction stays open and 2016-03-01 is requested |
| Scenarios.NoEndQuoteRequestsEndDay | src/test/java/uk/co/jassoft/markets/prediction/PredictionValidatorTest.java:85-108 | with only the start quote the prediction stays open and 2016-03-02 is requested |
| Scenarios.ValidDataGradesCorrectly | src/test/java/uk/co/jassoft/markets/prediction/PredictionValidatorTest.java:110-141 | open 100 and close 98 grade the Down prediction correct, with actual change -2 and earning per share 4 |

Two observations about the code, which the model follows:
- The generator's quote query asks for page 0 of size 7 of the company's end-of-day quotes in ascending date order. That is the seven OLDEST quotes, not the most recent seven, so the "last quote" whose bid, ask and close are used is the seventh oldest once a company has more than seven quotes. The model takes the query result as the input `quotePage` and uses its last element, as the code does (G:72, G:80). The code refuses only an empty quote list (G:76-78); a list of fewer than seven quotes is used as it is, and so is the model's.
- The history for the certainty is the first page of 100 of an unsorted query. The model takes the first 100 of the company's rows in store order and claims nothing about recency (G:148). Open rows take places in that page too, so open rows stored ahead of validated ones can push those out of it and change the certainty. The lemmas about open rows therefore allow only changes in place and appends.

## Left out

- Spring bootstrap and dispatch (`SpringConfiguration`) are wiring only. The JMS sends are modelled as appends to `PredictionStore.generated` and `PredictionStore.missingQuoteData`.
- Repository queries become functions over sequences in store order. Where the store's order is unspecified, which is for unsorted queries and for ties on a quote's date, the first row in store order is taken.
- Validation.QuoteOnDay: when several end-of-day quotes share the exact day, which of them the single-result query returns is unspecified. The model returns the first in store order.
- `QuoteUtils.getPreviousPriceDirection`, `SentimentUtil.getPreviousSentimentDirection` and `SentimentUtil.getLastSentimentDifferenceFromAverage` are not part of this model. Their results, or their checked exceptions, are the `Signals` input. The story sentiments they read are not modelled.
- The generator's generic catch rethrows any other failure. The model's only such failure is an unknown company. A null field inside a stored quote, record or prediction, and failing saves, are not modelled: every field is present.
- Doubles are reals, so there is no rounding, NaN or signed zero. `Double.equals` and `certainty == 1` are real equality.
- Forecasting.PercentChange: division by a zero close yields an infinite or NaN double in Java. The model has no value there (`Null`).
- The wall clock is the parameter `now`. The JVM time zone is taken as UTC without daylight saving, for weekdays, `plusDays`, `toDateMidnight` and `DateUtils.truncate`.
- Logging is not modelled.
- Concurrent generator or validator runs are not modelled. The no-duplicate invariant is proved for sequential runs only.
- The `missingDatas.contains(midnight)` guard compares a date with a set of pairs, so it is always false. Set insertion already removes duplicates, and the model inserts unconditionally (V:82, V:103).
- The order in which a `HashSet` is iterated is not modelled. `ValidateAll` sends the collected pairs in an unspecified order, each exactly once.
- Mongo's generated string ids are not modelled: a row's id is its position in the store.
