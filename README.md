# Cal_Diary: derived metrics and the daily log, in Dafny

This project models the computational core of Cal_Diary, a diet-tracking web app. The user
enters a profile. The app derives BMI, the basal metabolic rate (Mifflin-St Jeor), the total daily
energy expenditure and a calorie target with a 500 kcal deficit. A daily log, keyed by calendar
date and kept in browser storage, records the foods analysed by a language-model gateway and the
water drunk. A projection shows how many days the deficit needs to reach the target weight.

Modules, one per source concern:

- `Types` (types.ts): `Gender`, `UserProfile`, `FoodItem`, `DailyLog`, and `Option` for the
  gateway's `FoodItem | null`.
- `Metrics` (App.tsx:61-78 and the dashboard at 155, 230, 259, 264): the derived numbers as functions.
- `DailyLogs` (App.tsx): what each event handler and effect makes of today's log, and how a log is
  found in, or written back to, the date-keyed map of stored logs. Pure functions with their
  contracts and lemmas.
- `LogStore` (App.tsx): class `Store` with the fields `todayLog`, `logs` (the persisted map) and
  `foodInput`. Each method is one event handler or one effect, and its `ensures` ties the new state
  to the `DailyLogs` function of the old state.
- `WeightPredictor` (components/WeightPredictor.tsx): days to goal and the 11-sample curve. The
  curve is built by a method with a loop, as in the source.
- `WaterTracker` (components/WaterTracker.tsx): percentage of the 2000 ml goal, glasses
  equivalent, and the three buttons.

Modelling choices:

- Every JavaScript number is an exact `real`.
- `Math.floor` is `.Floor`. `Math.ceil(x)` is `-((-x).Floor)`. `Math.round(x)` is
  `(x + 0.5).Floor`, which rounds halves up as JavaScript does.
- BMI is computed as `weight / hMeter / hMeter`. Over exact reals this equals the source's
  `weight / (hMeter * hMeter)`.
- Date keys are opaque strings.
- The food-analysis gateway is a parameter: what `analyzeFood` answered for the current input.
- The React effects are the methods `Persist` (the save effect) and `MigrateWater` (the unit
  migration). A caller runs them after the events they depend on (see `LogStore.WaterSession`).
- The save effect takes the date key afresh each time it saves (App.tsx:98), so `Persist` takes
  the current key as a parameter. After midnight it therefore writes the log still in memory,
  which keeps its old `date` field, under the new day's key.

For a 25-year-old man of 170 cm and 70 kg, the formula at App.tsx:69 gives
10·70 + 6.25·170 − 5·25 + 5 = 1642.5, then a TDEE of 1971 and a target of 1471 at activity 1.2
(`Metrics.EnergyBudgetExample`).

The water migration rescales any positive value under 50. It runs again whenever the intake
changes, so one run is a fixed point exactly when the value is not in (0, 1/5)
(`DailyLogs.MigrationFixedPointIff`). Legacy glass counts 1..49 become 250..12250 ml and stay
there. Starting from a whole multiple of 50 ml (0, or a whole legacy glass count after
migration), the buttons only produce whole multiples of 50 ml, so they never trigger the
migration (`DailyLogs.ButtonPressKeepsMigrationIdle`). A fractional legacy value does not have
this protection: 1.1 glasses migrates to 275 ml, one undo leaves 25 ml, and the next run of the
migration turns that into 6250 ml (`DailyLogs.FractionalLegacyRetriggers`). A genuine small millilitre value cannot
be told apart from a glass count. The model keeps this behaviour as written.

## Model

| member | source | states |
|---|---|---|
| `Metrics.JsRound` | App.tsx:155 | Math.round gives the integer n with n − ½ ≤ x < n + ½ |
| `Metrics.Bmi` | App.tsx:61-64 | BMI times the squared height in metres is the weight; BMI is non-negative for a non-negative weight |
| `Metrics.BmiIncreasesWithWeight` | App.tsx:61-64 | at equal height, more weight never gives a smaller BMI |
| `Metrics.BmiDecreasesWithHeight` | App.tsx:61-64 | at equal non-negative weight, more height never gives a larger BMI |
| `Metrics.Band` | App.tsx:230 | emerald exactly below 23, amber exactly on [23, 25), rose exactly from 25 |
| `Metrics.BandMonotonic` | App.tsx:230 | a larger BMI never gets a milder colour |
| `Metrics.BmrSlopes` | App.tsx:66-73 | BMR rises 10 kcal per kg and 6.25 kcal per cm, falls 5 kcal per year, and a zero body is left with +5 for men and −161 otherwise |
| `Metrics.BmrGenderGap` | App.tsx:66-73 | for the same body the two branches differ by exactly 166 kcal |
| `Metrics.TdeeGenderGap` | App.tsx:66-75 | for the same body and activity, the TDEE of men exceeds that of women by 166 times the activity level |
| `Metrics.TargetCalories` | App.tsx:75-76 | the target is the integer t with t ≤ TDEE − 500 < t + 1 |
| `Metrics.EnergyBudgetExample` | App.tsx:66-76 | male, 25 y, 170 cm, 70 kg, activity 1.2: BMR 1642.5, TDEE 1971, target 1471 |
| `Metrics.ConsumedCalories` | App.tsx:77 | the sum over the foods is non-negative when every food's calories are |
| `Metrics.ConsumedAppend` | App.tsx:77 | appending a food adds exactly its calories to the total |
| `Metrics.ConsumedConcat` | App.tsx:77 | the total of a concatenation is the sum of the totals |
| `Metrics.RemainingCalories` | App.tsx:78 | never negative; target − consumed when consumed ≤ target; 0 from the target on |
| `Metrics.SuggestionOfferedIffUnderTarget` | App.tsx:277 | something remains exactly when consumed is below the target |
| `Metrics.PercentBar` | App.tsx:264 | bar width ≤ 100; ≥ 0 for non-negative intake and positive target; consumed/target·100 up to the target; 100 from it on |
| `Metrics.PercentLabel` | App.tsx:259 | the label is consumed/target·100 rounded to the nearest integer, halves up |
| `Metrics.LabelRoundsBar` | App.tsx:259-264 | below the target the label is within ½ of the bar width and lies in 0..100 |
| `Metrics.GlassesApprox` | App.tsx:155 | the glass count sent for advice is water/250 rounded to the nearest integer |
| `Metrics.GlassesApproxExact` | App.tsx:155 | 250·k ml is reported as exactly k glasses |
| `DailyLogs.ReversePush` | App.tsx:381 | the food appended last is the top row, above the rows shown before |
| `DailyLogs.ReverseInvolutive` | App.tsx:381 | reversing the newest-first view gives back the storage order |
| `DailyLogs.ExceptIndexSlices` | App.tsx:396 | the index filter removes element k when k is an index, and removes nothing otherwise |
| `DailyLogs.ReverseOfRemoval` | App.tsx:395-396 | removing storage index len − 1 − idx removes display row idx and keeps the other rows in order |
| `DailyLogs.LoadOrCreate` | App.tsx:36-46 | today's stored entry if there is one, else an empty log dated today |
| `DailyLogs.SaveLog` | App.tsx:97-104 | the saved map has today's key mapped to today's log and every other day unchanged |
| `DailyLogs.LoadAfterSave` | App.tsx:36-104 | loading a day after a save gives the saved log for the saved day and the old answer for any other day |
| `DailyLogs.SaveAfterLoad` | App.tsx:36-104 | saving back an entry just loaded leaves the store unchanged |
| `DailyLogs.AfterFoodSubmit` | App.tsx:123-137 | blank input or a null answer leaves the log unchanged; otherwise the old foods are a prefix, the answer is appended and shown first, the total grows by its calories, date and water unchanged |
| `DailyLogs.DeleteTopUndoesSubmit` | App.tsx:129-135 | deleting the top row right after a successful submit restores the log |
| `DailyLogs.AfterDelete` | App.tsx:394-398 | for a displayed row: the shown food is removed, the rest keep their order, the multiset loses that food, the total drops by its calories; date and water unchanged; other indices change nothing |
| `DailyLogs.DeleteExample` | App.tsx:381-397 | foods [a, b, c] are shown as [c, b, a]; deleting display row 1 leaves [a, c] |
| `DailyLogs.AddedWater` | App.tsx:344 | the new intake is never negative; it is w + delta when that is ≥ 0, else 0 |
| `DailyLogs.AfterWater` | App.tsx:344 | only the water changes, to the clamped sum |
| `DailyLogs.UndoTakesBackGlass` | App.tsx:344 | on a non-negative intake, the glass button leaves undo enabled, and undo then restores the log |
| `DailyLogs.WaterExample` | App.tsx:344 | from 0 ml, undo is disabled (−250 would clamp to 0 anyway), and the bottle button then undo gives 350 |
| `DailyLogs.AfterMigration` | App.tsx:107-114 | only the water changes, to its migrated value |
| `DailyLogs.MigrationCases` | App.tsx:108-111 | values in (0, 50) are multiplied by 250; other values are kept; a non-negative value never shrinks |
| `DailyLogs.MigrationFixedPointIff` | App.tsx:107-114 | a second migration changes nothing exactly when the value is not in (0, 1/5) |
| `DailyLogs.LegacyGlassesMigrated` | App.tsx:107-114 | g glasses (1 ≤ g < 50) become 250·g ≥ 250 ml, a fixed point |
| `DailyLogs.MigrationExample` | App.tsx:108-111 | 4 becomes 1000, and 1000 stays 1000 |
| `DailyLogs.ButtonPressKeepsMigrationIdle` | App.tsx:107-114 | from a whole multiple of 50 ml, every enabled button leaves a whole multiple of 50 that the migration keeps |
| `DailyLogs.FractionalLegacyRetriggers` | App.tsx:107-114 | 1.1 glasses migrates to 275 ml, undo leaves 25 ml, and the migration turns that into 6250 ml |
| `LogStore.Store.Load` | App.tsx:36-46 | start state: today's stored entry or an empty log dated today; store as given; empty input box |
| `LogStore.Store.Persist` | App.tsx:97-104 | the store maps the current key to the log in memory; every other key keeps its entry |
| `LogStore.Store.MigrateWater` | App.tsx:107-114 | today's log becomes its migration; foods and date unchanged |
| `LogStore.Store.TypeFood` | App.tsx:362 | the input box holds the typed text |
| `LogStore.Store.SubmitFood` | App.tsx:123-137 | today's log follows AfterFoodSubmit; the box is cleared exactly when a food was added |
| `LogStore.Store.AddWater` | App.tsx:344 | today's log follows AfterWater; the intake stays non-negative |
| `LogStore.Store.DeleteDisplayed` | App.tsx:394-398 | today's log follows AfterDelete for the display row |
| `LogStore.WaterSession` | App.tsx:97-114 | load an empty day, press the bottle button, press undo, save: 350 ml in memory and under today's key, other days kept |
| `WeightPredictor.Ceil` | components/WeightPredictor.tsx:17 | Math.ceil gives the least integer n with n − 1 < x ≤ n |
| `WeightPredictor.DaysToGoal` | components/WeightPredictor.tsx:14-17 | 0 when nothing is to lose; else at least 1 and the least integer ≥ weightToLose·7700/500 |
| `WeightPredictor.Step` | components/WeightPredictor.tsx:23-24 | the step is ≥ 1 and days ≤ 10·step < days + 10 |
| `WeightPredictor.PredictionData` | components/WeightPredictor.tsx:19-35 | the loop builds the projection: empty without days to go; otherwise 11 samples, the first (0, weight), the last on daysToGoal |
| `WeightPredictor.ProjectionShape` | components/WeightPredictor.tsx:22-33 | 11 samples; days start at 0, never decrease, stay in [0, daysToGoal] and end on daysToGoal; weight is start − day·500/7700 and never increases |
| `WeightPredictor.GoalMetIffNoProjection` | components/WeightPredictor.tsx:17-40 | the goal-met view shows exactly when daysToGoal is 0, exactly when the projection is empty |
| `WeightPredictor.ProjectionExample` | components/WeightPredictor.tsx:17-27 | 7.7 kg gives 119 days in steps of 12; sample 9 is day 108, sample 10 is day 119 |
| `WaterTracker.GlassesEquivalent` | components/WaterTracker.tsx:11 | glasses times 250 is the intake; non-negative for a non-negative intake |
| `WaterTracker.Percentage` | components/WaterTracker.tsx:10-12 | ≤ 100; ≥ 0 for a non-negative intake; intake/2000·100 up to the goal; 100 from it on |
| `WaterTracker.OnAdd` | components/WaterTracker.tsx:47-71 | a press hands exactly one of +250, +600, −250; it hands nothing exactly when it is undo at 0 ml or less |

## Left out

- services/geminiService.ts is not part of this model. It holds network calls to a hosted model, JSON parsing and an API-key check. `analyzeFood`'s answer, or its `null` fallback, is the `result` parameter of `SubmitFood`. Nothing else models `suggestMealPlan`, `suggestFoodForRemaining` or `getHealthAdvice`; only their inputs are modelled (`TargetCalories`, `RemainingCalories`, `GlassesApprox`). `MealSuggestion` is not modelled either.
- The profile store (App.tsx:81-94, 117-121) is not modelled. It is a value replaced wholesale by the form and serialised to storage; nothing in it is computed.
- IEEE floating point is not modelled. The formatting by `toFixed(1)` is left out (BMI chip, curve weights, glasses equivalent). So is the Infinity/NaN a zero height or zero target gives: `Bmi` requires `height > 0`, and `PercentBar` and `PercentLabel` require `target != 0`.
- WeightPredictor.PredictionData: the sample weights are exact, not rounded to one decimal. The day label `วันที่ ${day}` is modelled as the integer day.
- WaterTracker.GlassesEquivalent: the value is exact, not formatted to one decimal.
- Dates are not modelled. `toDateString()` keys are opaque strings passed in. The projected calendar date (components/WeightPredictor.tsx:37-38) is omitted.
- localStorage and JSON are not modelled. The stored map is a `map<string, DailyLog>`, and a missing entry is the empty map. The branch with no `window` (App.tsx:37) behaves like an empty store.
- React scheduling is not modelled. When effects run, render order, and overlapping `await`s (input edited, or a second submit, while the gateway is answering) are left to the caller's sequence of method calls. The `isAnalyzing` flag and every other loading flag are left out.
- The `tdee` prop of WeightPredictor is never read by the component and is not modelled.
- Layout, charts, icons, tabs and the suggestion modal are not modelled.
- vite.config.ts is build configuration and is not part of this model.
