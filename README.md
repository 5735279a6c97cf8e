# Progressive-overload tracker: the rules, in Dafny

The tracker is a small web app for logging weightlifting sets: date, exercise,
weight, reps, and optional RPE and notes. It stores them in a hosted table and
advises on the next session. This project models the rules the app applies to
the logged sets and proves what they guarantee. The modelled rules are:

- **Logging a set.** A kilogram entry is converted to pounds at 2.2046226218 lb per kg. An entry is rejected when the exercise name is missing or the weight is not positive. The text fields are stripped of surrounding whitespace before storing (`Workouts.PrepareSetAsWritten`, `Workouts.Payload`). The name is tested before it is stripped, so a name made only of blanks is accepted; `Workouts.PrepareSet` is the corrected form (see "## Findings").
- **Top set per day.** Sets are grouped by date, and each date keeps its heaviest weight, in ascending date order (`Workouts.TopSetsByDay`).
- **Last session's top set.** This is what the quick-log form offers to repeat: the latest date, that date's heaviest weight and, among equal weights, the reps of the set created last (`Workouts.LastTopSet`).
- **Progression advice.** A fixed decision tree over the last three daily top weights. It gives one of: log more data, repeat the single day's weight with +1 rep, an upward trend (+5 lb), a plateau (every weight rounds to the same integer with Python's half-to-even `round`), a dip, or solid consistency (`Advisor.Suggest`, `Advisor.Advise`).
- **Epley one-rep-max estimate.** `w * (1 + reps/30)`; a missing rep count counts as zero (`Workouts.Epley`).
- **Lifetime personal records.** One row per exercise, sorted by name, with the heaviest weight and the highest Epley estimate. For the estimate, a missing rep count is read as 1 (`Workouts.PersonalRecords`).
- **Exercise list.** Missing names are dropped, the rest are stripped, duplicates removed and the list sorted in Python's string order (`Workouts.ExerciseNames`).

The project has five modules:

- `Wrappers`: Option and Result.
- `Text`: Python's `str.isspace`, `str.strip` and its code-point string order.
- `Ordered`: strictly ascending sequences, which stand in for sorted group keys and for `unique()` followed by `sorted(...)`, plus `max`.
- `Workouts`: the data and the rules above.
- `Advisor`: the progression advice.

Every rule is a pure function. A table is a sequence of `LoggedSet` rows. A date and the store's creation timestamp are integers, since the rules only compare them. Weights are real numbers.

Three facts about the code that shape the model:

- `epley_e1rm(w, 1)` evaluates to `w * 31/30`, not `w`. Only a missing or zero rep count gives `w` itself (`Workouts.Epley`). The records table reads a missing count as 1 (`Workouts.SetE1rm`).
- The records table is built as two aggregations merged on the exercise name. Rows with a weight and an exercise name fall into both groupings under the same key, so the merge never leaves a side empty. The model therefore builds the merged table directly, with both bests in each row.
- `suggestion_next_goal` has a second "no data" test on the top-set series (line 101). In pandas this fires when every row has a missing date: line 69 turns such dates into NaT, and `groupby` at line 80 drops them. The model has no missing dates, so a non-empty input always has a non-empty series. The test therefore has no branch of its own, and `Advise` returns `NeedMoreData` exactly for an empty series.

## Model

| member | source | states |
|---|---|---|
| Workouts.ToPoundsKg | streamlit_app.py:13 | a kilogram entry is multiplied by 2.2046226218 |
| Workouts.ToPoundsLb | streamlit_app.py:145 | a pound entry is stored unchanged |
| Workouts.ToPounds | streamlit_app.py:145 | a positive entry converts to a weight that is no smaller; dividing a converted kilogram entry by the factor gives the entered value back (the factor itself: `ToPoundsKg`, pounds: `ToPoundsLb`) |
| Workouts.Payload | streamlit_app.py:35-44 | each stored text field (exercise, RPE, notes) is the input with whitespace on both sides removed, neither starts nor ends with whitespace, and does not change when stripped again; date, weight and reps go through as given |
| Workouts.PrepareSetAsWritten | streamlit_app.py:141-146 | rejects a set exactly when the raw name is empty or the weight is not positive. An accepted set keeps the date and reps and stores the stripped name, RPE and notes. A pound entry is stored as entered, a kilogram entry times 2.2046226218, and either way the stored weight is positive and at least the entered value |
| Workouts.BlankExerciseStoredEmpty | streamlit_app.py:142-146 | as written, a non-empty name made only of whitespace with a positive weight is accepted and stored with the empty name |
| Workouts.RepsOrZero | streamlit_app.py:118 | `reps or 0`: a missing count is zero (specified through `Epley`) |
| Workouts.Epley | streamlit_app.py:117-118 | a missing or zero rep count estimates the weight itself; a non-negative weight and count never estimate below the weight |
| Workouts.PrepareSet | streamlit_app.py:141-146 | corrected form: rejects exactly when the stripped name is empty or the weight is not positive. When it accepts, the result equals the as-written result (so the same date, reps, converted weight and stripped texts), with a non-empty, already-stripped name. It rejects everything the as-written form rejects |
| Workouts.EpleyFormula | streamlit_app.py:117-118 | 30 times the estimate is the weight times (30 + reps) |
| Workouts.EpleyIncreasing | streamlit_app.py:117-118 | for a positive weight, more reps give a strictly higher estimate |
| Workouts.SetE1rm | streamlit_app.py:282 | a set with reps estimates as `epley_e1rm` of its weight and reps; a set without reps counts as one rep, 31/30 of its weight |
| Workouts.E1rms | streamlit_app.py:282 | the e1rm column: `SetE1rm` of each row, in order (specified through `BestE1rm`) |
| Workouts.OnDate | streamlit_app.py:90 | the selected rows are exactly the input rows of that date |
| Workouts.TopWeightOn | streamlit_app.py:80-81 | the value is the weight of some set on the date, and no set on the date is heavier |
| Workouts.DatesCover | streamlit_app.py:80 | the distinct dates collected are exactly the dates present |
| Workouts.TopSetsByDay | streamlit_app.py:77-82 | strictly ascending dates, exactly the dates present, one entry per date, each entry that date's heaviest weight; empty exactly when the input is empty |
| Workouts.LastTopIndex | streamlit_app.py:89-94 | the chosen row is last under (date, weight, creation time); no later row ties with it |
| Workouts.LastTopSet | streamlit_app.py:84-95 | none exactly for no sets. Otherwise: the latest date, that date's heaviest weight, and the reps (possibly missing) of a set of that date and weight that no such set postdates in creation time |
| Workouts.TopWeightUnique | streamlit_app.py:93 | a day has one heaviest weight |
| Workouts.LastDayIsLatest | streamlit_app.py:89 | the last entry of the top-set series is the latest date present |
| Workouts.LastTopSetIsLastDay | streamlit_app.py:84-95 | the last top set has the date and weight of the last entry of the top-set series |
| Workouts.OfExercise | streamlit_app.py:277 | the selected rows are exactly the input rows of that exercise |
| Workouts.ExercisesCover | streamlit_app.py:277 | the distinct names collected are exactly the exercises present |
| Workouts.BestWeight | streamlit_app.py:276-278 | the value is the weight of some set of the exercise, and no set of it is heavier |
| Workouts.BestE1rm | streamlit_app.py:281-285 | the value is the estimate of some set of the exercise, and no set of it has a higher one |
| Workouts.PersonalRecords | streamlit_app.py:276-288 | rows strictly ascending by name, exactly the exercises present, one row each; each row holds that exercise's heaviest weight and highest estimate |
| Workouts.RecordFor | streamlit_app.py:287-288 | every exercise present has its row |
| Workouts.ExampleRowCount | streamlit_app.py:276-288 | Squat 200x5, Squat 225x1, Bench 135x8 give two rows whatever the dates |
| Workouts.ExampleSquatRow | streamlit_app.py:276-288 | in that example the Squat row is 225 lb best weight, 700/3 lb best estimate: the two bests come from different sets |
| Workouts.ExampleBenchRow | streamlit_app.py:276-288 | in that example the Bench row is 135 lb and 171 lb |
| Workouts.Present | streamlit_app.py:55 | `dropna` keeps exactly the present names |
| Workouts.StripAll | streamlit_app.py:55 | `.str.strip()` on every name (specified by `StripAllMembers`) |
| Workouts.StripAllMembers | streamlit_app.py:55 | the stripped column holds exactly the stripped present names, each already stripped |
| Workouts.ExerciseNames | streamlit_app.py:55 | the list is strictly ascending in Python's string order (so free of duplicates), holds exactly the stripped present names, and each is already stripped |
| Workouts.PresentOfColumn | streamlit_app.py:55 | a column with nothing missing loses nothing to `dropna` |
| Workouts.ExerciseNamesIdempotent | streamlit_app.py:55 | normalising the normalised list gives it back |
| Text.LeadingSpaces | streamlit_app.py:39 | counts exactly the leading whitespace |
| Text.TrailingSpaces | streamlit_app.py:39 | counts exactly the trailing whitespace |
| Text.IsSpace | streamlit_app.py:39 | the characters `str.isspace` accepts: tab to carriage return, 0x1c to space, 0x85, 0xa0, 0x1680, 0x2000-0x200a, 0x2028, 0x2029, 0x202f, 0x205f, 0x3000 (used by `Strip`) |
| Text.Strip | streamlit_app.py:39 | the input is the result with whitespace on both sides, and the result neither starts nor ends with whitespace |
| Text.StrippedFromUnique | streamlit_app.py:39 | only one string has that relation to the input, so the contract of `Strip` fixes its result |
| Text.StripEmptyIff | streamlit_app.py:142 | a name strips to nothing exactly when it is all whitespace |
| Text.StripIdempotent | streamlit_app.py:55 | stripping twice is stripping once |
| Text.LexLess | streamlit_app.py:55 | Python's string `<`, by code point with a proper prefix first (specified by the `Lex` lemmas below) |
| Text.LexIrreflexive | streamlit_app.py:55 | no name sorts before itself |
| Text.LexTransitive | streamlit_app.py:55 | the string order is transitive |
| Text.LexTotal | streamlit_app.py:55 | of two different names one sorts first |
| Text.LexAsymmetric | streamlit_app.py:55 | the two orders of a pair never both hold |
| Ordered.DistinctCard | streamlit_app.py:80-81 | a duplicate-free sequence has as many values as entries |
| Ordered.InsertInt | streamlit_app.py:80-81 | inserting a date keeps the dates strictly ascending and adds just that date |
| Ordered.SortedDistinctInts | streamlit_app.py:80-81 | the group keys are strictly ascending and exactly the dates present |
| Ordered.StrsAscendingDistinct | streamlit_app.py:55 | a strictly ascending list of names has no duplicates |
| Ordered.InsertStr | streamlit_app.py:55 | inserting a name keeps the names strictly ascending and adds just that name |
| Ordered.SortedDistinctStrs | streamlit_app.py:55 | `sorted(unique(...))` is strictly ascending and holds exactly the input names |
| Ordered.FirstIsLeast | streamlit_app.py:55 | the first name of a sorted list precedes every other |
| Ordered.StrsAscendingUnique | streamlit_app.py:55 | two strictly ascending lists with the same names are equal |
| Ordered.MaxOf | streamlit_app.py:93 | `max` is a value of the column and no value exceeds it |
| Ordered.MaxOfExceeds | streamlit_app.py:113 | some value exceeds x exactly when the maximum does |
| Advisor.Round | streamlit_app.py:111 | `round` is within one half of x, and at exactly one half it is even |
| Advisor.RoundCharacterized | streamlit_app.py:111 | `round(x) == m` exactly when m is nearer than one half, or at one half and even |
| Advisor.RoundNearest | streamlit_app.py:111 | no integer is nearer to x than `round(x)` |
| Advisor.Window | streamlit_app.py:106 | `[-3:]` is the last three values, or all of them when fewer |
| Advisor.TopWeights | streamlit_app.py:106 | the `top_weight_lb` column: one value per day, each that day's top weight, in the series' date order |
| Advisor.CountIncreases | streamlit_app.py:107 | at most one fewer than the values, and exactly that many when the values rise strictly |
| Advisor.SameRounded | streamlit_app.py:111 | the rounded values form a one-element set (specified by `SameRoundedIff`) |
| Advisor.SameRoundedIff | streamlit_app.py:111 | the set of rounded values has one element exactly when every value rounds like the first |
| Advisor.Advise | streamlit_app.py:97-115 | no days give more data; exactly one day repeats that day's top weight; the other branches are stated by `AdviseUpward`, `AdvisePlateau`, `AdviseDip` and `AdviseSolid` |
| Advisor.AdviseOnWindow | streamlit_app.py:106-115 | with two or more days, never more data or a repeat; an upward trend suggests the last top + 5 lb; a dip quotes the last top, which is below the window's best |
| Advisor.WindowIncreases | streamlit_app.py:106-108 | with two or more days, at least two increases in the window means the last three days rose strictly |
| Advisor.Suggest | streamlit_app.py:97-115 | asks for more data exactly for no sets; asks to repeat exactly when one date is present, quoting the heaviest weight logged |
| Advisor.SingleDay | streamlit_app.py:103-105 | a one-entry series means every set is of that date |
| Advisor.SuggestQuotesLastTopSet | streamlit_app.py:97-115 | a repeat or a dip quotes the last session's top weight, and an upward trend suggests that weight + 5 lb |
| Advisor.SuggestUpwardOnSets | streamlit_app.py:100-110 | over two or more dates, the advice is upward exactly when the last three daily top weights, in date order, rose strictly |
| Advisor.AdviseUpward | streamlit_app.py:106-110 | with two or more days, upward exactly when the last three days rose strictly, suggesting the last top + 5 lb |
| Advisor.AdvisePlateau | streamlit_app.py:111-112 | otherwise, plateau exactly when every window value rounds like the last one |
| Advisor.AdviseDip | streamlit_app.py:113-114 | otherwise, dip exactly when some window value exceeds the last, quoting the last |
| Advisor.AdviseSolid | streamlit_app.py:115 | solid exactly when two or more days, no upward trend, no plateau and the last top weight is the window's best |
| Advisor.RisingSeriesGoesUp | streamlit_app.py:108-110 | 100, 105, 110 suggests 115 |
| Advisor.FlatSeriesPlateaus | streamlit_app.py:111-112 | 100, 100, 100 is a plateau |
| Advisor.FlatPairPlateaus | streamlit_app.py:111-112 | 100, 100 is a plateau |
| Advisor.NearlyFlatSeriesPlateaus | streamlit_app.py:111-112 | 99.6, 100.4 round alike: a plateau |
| Advisor.FallingSeriesDips | streamlit_app.py:113-114 | 110, 105 is a dip quoting 105 |
| Advisor.DipThenBestIsSolid | streamlit_app.py:106-115 | 105, 100, 110 is solid: one rise in the window is no trend, and 110 is the best |
| Advisor.OneStepUpIsSolid | streamlit_app.py:115 | 100, 101 is solid, not a trend |
| Advisor.SingleSetRepeats | streamlit_app.py:103-105 | one Bench Press set of 135 lb asks to repeat 135 lb |

## Left out

- Reading and writing the hosted table (client set-up, credentials, queries, inserts) is not modelled. The rules take the rows as a sequence and return the payload to insert as a value.
- The page layout, widgets, charts, messages, reruns and caching are not modelled. The advice is the branch taken plus the weight its message quotes. The `:.0f` and `:.1f` formatting of those weights is not modelled.
- Floating-point arithmetic is not modelled. Weights, the conversion factor and the estimates are exact reals, so the rounding error of `weight * 2.2046226218` and of `reps / 30` is not captured.
- pandas' type coercion and missing values in the workouts table are not modelled. Every row has a numeric weight, a date and an exercise name. `to_numeric(errors="coerce")` (line 71) would turn a bad weight into NaN, which the maxima here do not handle. `to_datetime` (line 69) would turn a missing date into NaT, which `groupby` drops at line 80. A missing exercise name would be dropped by `groupby` at line 277. Only the exercise list (line 55), whose input column is modelled as optional names, drops missing values. Dates are day numbers rather than parsed date strings.
- Workouts.LoggedSet carries no rpe, notes or id fields. No modelled rule reads them.
- Workouts.LastTopIndex: among rows with equal date, weight and creation time, it picks the later row in input order. pandas' default sort is not stable, so the code does not fix which of those ties it returns.
- Workouts.PrepareSet, Workouts.PrepareSetAsWritten: reps are taken as given. The form's lower limit of 1 and its integer step are properties of the input widget.
- Text.Strip: removes the characters Python's `str.isspace` accepts, with no Unicode normalisation. That matches `str.strip()`; it is listed here because the model has no wider notion of Unicode text.

## Findings

| source | as written | input that shows it | evidently intended | confidence | as-written member | corrected member |
|---|---|---|---|---|---|---|
| streamlit_app.py:142 | the form rejects a set only when the raw exercise text is empty; line 39 strips the name afterwards | exercise `" "` (one space), weight 100 lb: accepted and stored with the empty exercise name | reject a name that is empty after stripping, as the error message "Please enter exercise" asks | not executed; medium | Workouts.BlankExerciseStoredEmpty | Workouts.PrepareSet |
