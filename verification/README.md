# gym-logger progression engine, in Dafny

This project models the core of gym-logger, a small strength-training logger. The
app plans one workout a day from a fixed template of six exercises. Each exercise has
three sets, and each exercise's load is adjusted from the history of logged sets by
a double-progression rule:

- two complete sessions in a row with every kept set at 12 reps or more raise the
  load by about 2.5%;
- two in a row at 5 reps or fewer lower it by about 5%;
- anything else keeps the load.

The model covers these parts:

- **Session summary** (`Summary`). `summarizeExerciseSessions` groups one exercise's
  entries by calendar day. It keeps the three lowest-numbered sets of each day and
  flags the day as complete, all-high or all-low. It also computes the day's average
  weight to one decimal and orders the days newest first. `countConsecutive` is here
  too.
- **Rounding** (`Rounding`). `roundDownToIncrement` rounds down to a multiple of 0.5.
  `toFixed(1)` becomes rounding to the nearest tenth, with halves rounded away from
  zero (so an average of -1.25 becomes -1.3).
- **Progression** (`Progression`). `computeProgression` has two paths:
  - the same-day path: once the exercise has an entry on the reference day, keep
    that entry's weight;
  - the advice path: choose a base weight, then increase, decrease or maintain, with
    one of six messages.

  `getNextSessionProgression` is the same computation for the following day.
- **Planned session** (`Plan`). `createSession` turns the template into today's plan.
  Each exercise has three numbered slots, filled from today's logged workout entries
  or from the advice.
- **CSV export** (`Csv`). `toCsv` writes a header line and one comma-joined line of
  six fields per stored entry.
- **History upload** (`HistoryApi`). `isValidEntry` checks each entry, and the `PUT`
  handler accepts a batch only when every entry passes. The store is a table keyed by
  exercise, set number and timestamp, and `appendHistory` inserts a batch in one
  transaction. A batch that repeats a key already stored, or repeats one of its own,
  makes the append throw: nothing is stored and the answer is a server error, not
  `{ ok: true }`.

Supporting modules:

- `Seqs`: `filter`, `find` and `map`.
- `StableSort`: `Array.prototype.sort` with a numeric comparator, as a stable
  insertion sort on a real key.
- `Text`: `join` and `split` on one character.
- `Js`: JavaScript numbers, JSON values, `typeof` and truthiness.
- `Types`: the records.

Clocks are parameters. The wall-clock "today" of `todayString()` and the "tomorrow"
of `tomorrowString()` become an integer calendar day `today`, with `today + 1` for
tomorrow. Each timestamp is a pair: an instant (for newest-first sorting) and the
local calendar day it falls on (for `toDateString()` comparisons).

Set numbers and reps are reals, like every number in `src/lib/types.ts`: the upload
accepts any number for them, and the store keeps a fractional value as it is.

The progression rule of `src/lib/workout.ts` looks at the two newest complete
sessions only, with the fixed thresholds 12 and 5 and steps of +2.5% and -5%.
Suggestions are rounded down to 0.5 and have no other bound. The rule has no
per-exercise rep ranges, no reaction to a single session, no clamping of suggested
reps and no one-rep-max estimate.

A property worth noting (`Progression.IncreaseCanLower`): the increase rule rounds
`base * 1.025` down to a multiple of 0.5. A base weight that is itself a session
average need not be such a multiple. For example, 3.4 becomes 3.0, so the
"nudged up" advice then suggests less than the previous weight. From a whole number
of increments, an increase never lowers the weight, and from 20 upwards it always
adds at least 0.5 (`Progression.IncreaseNeverLowers`).

## Model

| member | source | states |
|---|---|---|
| StableSort.SortBy | src/lib/workout.ts:90-92 | the sorted sequence is a permutation of the input and ordered by the key |
| StableSort.FilterSort | src/lib/workout.ts:90-92 | filtering the sorted sequence gives the sort of the filtered one |
| StableSort.SortEqualKeys | src/lib/workout.ts:90-92 | sorting a sequence whose keys are all equal leaves it unchanged |
| StableSort.SortStable | src/lib/workout.ts:90-92 | the sort is stable: the elements sharing any one key keep their input order |
| StableSort.SortHead | src/lib/workout.ts:94 | the first element after sorting is the first input element with the least key |
| Seqs.Find | src/lib/workout.ts:33-38 | `find` answers nothing exactly when no element matches, else a matching element of the input |
| Seqs.FindFirst | src/lib/workout.ts:33-38 | `find` returns the earliest matching element |
| Seqs.Filter | src/lib/workout.ts:25 | `filter` keeps a sub-multiset of its input |
| Seqs.FilterMultiplicity | src/lib/workout.ts:25 | `filter` keeps every copy of an element that satisfies the predicate and no copy of any other |
| Seqs.FindFilter | src/lib/workout.ts:25-38 | `find` over a filtered array returns the first element of the whole array that passes both the filter and the search |
| Summary.KeptSets | src/lib/workout.ts:218-219 | a day keeps min(n, 3) of its entries, ordered by set number; every dropped entry has a set number no lower than any kept one; of each set number, the kept entries are the earliest ones in input order |
| Summary.MakeSession | src/lib/workout.ts:217-233 | a day's session is complete exactly when the day has at least three entries; it is all-high (all-low) exactly when it is complete and every kept set has at least 12 (at most 5) reps; never both; its average is that of its kept sets only |
| Summary.ExtraSetIgnored | src/lib/workout.ts:218-222 | an extra set numbered above three others of the same day changes nothing about the session |
| Summary.SumWeights | src/lib/workout.ts:223 | the total is 0 for no sets and grows by each set's weight, accumulating from the left |
| Summary.MeanWeight | src/lib/workout.ts:223-224 | the mean is 0 for no sets; otherwise as many copies of it as there are kept sets add up to their total weight |
| Summary.AverageWeight | src/lib/workout.ts:223-232 | the stored average is a whole number of tenths within 0.05 of the exact mean, and 0 for no sets |
| Summary.NegativeTieAverage | src/lib/workout.ts:223-232 | three sets at -1.25 store an average of -1.3 |
| Summary.DistinctDays | src/lib/workout.ts:208-215 | the grouping has one key per calendar day of the history, no day twice |
| Summary.NewestDays | src/lib/workout.ts:236-238 | the days, strictly latest first, are exactly the days of the history |
| Summary.SummarizeExerciseSessions | src/lib/workout.ts:207-239 | one session per calendar day of the history, dates strictly decreasing, each built from that day's entries |
| Summary.SummaryMatchesSource | src/lib/workout.ts:217-238 | building sessions in first-appearance order and then sorting by date equals the summary |
| Summary.SummaryHeadIsLatestDay | src/lib/workout.ts:236-238 | the first session is on the latest day any entry falls on |
| Summary.NewestEntryOnLatestDay | src/lib/workout.ts:207-239 | under a coherent clock, the newest entry of a newest-first history lies on the first session's day |
| Summary.SummaryFlagsExclusive | src/lib/workout.ts:221-222 | no summarised session is both all-high and all-low |
| Summary.CountConsecutive | src/lib/workout.ts:246-259 | the count is the length of the leading run of sessions that satisfy the predicate |
| Rounding.RoundDownToIncrement | src/lib/workout.ts:241-244 | the result is a multiple of 0.5, at most the value and more than the value less 0.5, and a multiple is left unchanged |
| Rounding.RoundDownMonotone | src/lib/workout.ts:241-244 | rounding down preserves order |
| Rounding.Round1 | src/lib/workout.ts:232 | one-decimal rounding gives a whole number of tenths at most 0.05 away, keeps the sign, and rounds a value halfway between two tenths away from zero |
| Rounding.Round1Negate | src/lib/workout.ts:232 | rounding a negated value gives the negated rounding |
| Rounding.Round1NegativeTie | src/lib/workout.ts:232 | -1.25 rounds to -1.3 and 1.25 to 1.3 |
| Rounding.Round1OfTenths | src/lib/workout.ts:243 | one-decimal rounding leaves a whole number of tenths unchanged |
| Progression.Newest | src/lib/workout.ts:90-94 | the newest entry is one of the entries with no later instant among them |
| Progression.ExerciseHistory | src/lib/workout.ts:90-92 | a permutation of the exercise's entries, copies included, sorted newest first, with the newest entry at the head |
| Progression.ExerciseHistoryMembers | src/lib/workout.ts:90-91 | the sorted history holds exactly the entries named after the exercise |
| Progression.NamedEntriesOnMembers | src/lib/workout.ts:97 | an entry counts for the reference day exactly when it is the exercise's and falls on that day |
| Progression.TodaysEntry | src/lib/workout.ts:97 | there is a same-day entry exactly when the exercise has an entry on the reference day, and it is the newest such entry |
| Progression.BaseWeight | src/lib/workout.ts:113-118 | the base weight is the newest complete session's average, else the newest entry's weight, else the template default |
| Progression.Advise | src/lib/workout.ts:120-202 | the reported run counts are the lengths of the leading all-high and all-low runs of the complete sessions; increase exactly when the leading high run is at least 2; decrease exactly when it is not and the leading low run is; each message exactly under its condition; maintain keeps the base weight; the steps are +2.5% and -5% rounded down |
| Progression.ComputeProgression | src/lib/workout.ts:81-205 | a same-day entry gives maintain at that entry's weight with no run counts; otherwise the advice over the complete sessions; the returned base weight is the suggestion; default reps come from the newest entry, else the template |
| Progression.GetNextSessionProgression | src/lib/workout.ts:74-79 | the preview continues a session only when the exercise has an entry on the next day; otherwise it is the advice over the complete sessions |
| Progression.NoHistory | src/lib/workout.ts:81-205 | with no entry for the exercise, maintain at the template weight and reps with no full sessions |
| Progression.OnlyOwnEntriesMatter | src/lib/workout.ts:90-92 | two histories with the same entries for the exercise give the same result |
| Progression.OtherExercisesIgnored | src/lib/workout.ts:90-92 | inserting entries of other exercises anywhere changes nothing |
| Progression.SameDay | src/lib/workout.ts:97-109 | with an entry on the reference day, the advice is to continue, at the weight of the latest such entry |
| Progression.CompleteSessionsFacts | src/lib/workout.ts:120 | every session the rule looks at is complete and never both all-high and all-low |
| Progression.CompleteSessionsNewestFirst | src/lib/workout.ts:112-121 | the complete sessions are in strictly decreasing date order |
| Progression.LeadingPair | src/lib/workout.ts:121-129 | a leading run of at least two is the same as the two newest sessions both holding |
| Progression.AdviseIncrease | src/lib/workout.ts:129-140 | the advice increases exactly when the two newest complete sessions are both all-high, suggesting the base plus 2.5% rounded down |
| Progression.AdviseDecrease | src/lib/workout.ts:141-157 | when no session is both all-high and all-low, the advice decreases exactly when the two newest are both all-low, suggesting the base less 5% rounded down |
| Progression.IncreaseRule | src/lib/workout.ts:112-140 | with no same-day entry, the exercise's advice increases exactly when its two newest complete sessions are all-high |
| Progression.DecreaseRule | src/lib/workout.ts:112-157 | with no same-day entry, the exercise's advice decreases exactly when its two newest complete sessions are all-low |
| Progression.BaseWeightFallback | src/lib/workout.ts:113-118 | without a same-day entry, the previous weight follows the three-way fallback, and maintain suggests it again |
| Progression.PreviewNeverSameDay | src/lib/workout.ts:74-79 | when nothing is logged after today, the next-day preview never continues a session |
| Progression.CompleteIffThreeEntries | src/lib/workout.ts:219-220 | a session of the exercise is complete exactly when at least three of its entries fall on that day |
| Progression.NewestEntryInNewestSession | src/lib/workout.ts:94-95 | under a coherent clock, the entry the default reps come from lies in the newest session |
| Progression.IncreaseNeverLowers | src/lib/workout.ts:130 | from a non-negative multiple of 0.5, an increase never lowers the weight, and from 20 it adds at least 0.5 |
| Progression.IncreaseCanLower | src/lib/workout.ts:130 | from a base of 3.4 the increase rule suggests 3.0 |
| Progression.DecreaseLowers | src/lib/workout.ts:147 | from a positive weight a decrease suggests strictly less, and never below zero |
| Plan.Numbered | src/lib/workout.ts:31-32 | the slots are numbered 1 to 3 in order |
| Plan.Slot | src/lib/workout.ts:33-56 | a slot is completed exactly when a workout entry logs that set of that exercise today; then it copies the first such entry's weight, reps and timestamp; else the advised weight and reps with no timestamp |
| Plan.CloneSet | src/lib/workout.ts:27-60 | a planned exercise keeps the template's name and defaults, carries the day's advice and has three slots |
| Plan.CreateSession | src/lib/workout.ts:23-63 | one planned exercise per template exercise, in template order, each planned from the workout entries only |
| Plan.TemplateNames | src/lib/workout.ts:6-13 | the template's six exercises, in order |
| Plan.PlanShape | src/lib/workout.ts:27-60 | each planned exercise keeps its template defaults, has advice, and has slots numbered exactly 1, 2 and 3 |
| Plan.WorkoutHistory | src/lib/workout.ts:25 | an entry is kept exactly when it is in the history and has no type or the workout type, and every copy of a kept entry stays |
| Plan.WorkoutHistoryAppend | src/lib/workout.ts:25 | the workout entries of two histories in a row are those of the first followed by those of the second, so input order is kept |
| Plan.OneWorkout | src/lib/workout.ts:25 | a single entry is kept exactly when it has no type or the workout type |
| Plan.SlotLogged | src/lib/workout.ts:25 | an entry is among the workout entries exactly when it is in the history and a workout entry |
| Plan.SlotCompletedIff | src/lib/workout.ts:25-48 | a planned slot is completed exactly when the history has a workout entry for that exercise, set number and day |
| Plan.UnloggedSlot | src/lib/workout.ts:28-56 | an unlogged slot carries the suggested weight and the default reps, and no timestamp |
| Plan.CompletedSlotCopiesFirstLog | src/lib/workout.ts:25-48 | a completed slot copies the weight, reps and timestamp of the earliest workout entry in the caller's history that logs that set of that exercise today |
| Plan.CompletedSlotContinues | src/lib/workout.ts:33-48 | a completed slot means the exercise's advice is to continue today's session |
| Plan.NonWorkoutIgnored | src/lib/workout.ts:25 | sick-day and vacation entries, wherever they are, never change the plan |
| Csv.ToCsv | src/routes/api/history.csv/+server.ts:5-19 | the export is never shorter than the header |
| Csv.HeaderFirst | src/routes/api/history.csv/+server.ts:6-18 | the export starts with the header, and is exactly the header when there are no rows |
| Csv.HeaderColumns | src/routes/api/history.csv/+server.ts:6-15 | the header splits into the six column names, one per field of a line |
| Csv.NumberText | src/routes/api/history.csv/+server.ts:10-13 | a finite number is written by the renderer; every number's text, NaN and the infinities included, is non-empty, with no comma or line break |
| Csv.BodyweightText | src/routes/api/history.csv/+server.ts:12 | a finite bodyweight is written as its number text; an absent or non-finite one as the empty field; the field has no comma or line break |
| Csv.RowFields | src/routes/api/history.csv/+server.ts:6-15 | a line has six fields, one per header column in header order: the exercise name, the set number, weight, bodyweight and reps as number text, and the timestamp, verbatim |
| Csv.LineUnderHeader | src/routes/api/history.csv/+server.ts:6-18 | when the exercise name and timestamp hold no comma, each field of a line sits under the header column that names it |
| Csv.Line | src/routes/api/history.csv/+server.ts:8-15 | a line splits back into its six fields when the exercise name and timestamp hold no comma, and holds no line break when they hold none |
| Csv.LineFields | src/routes/api/history.csv/+server.ts:7-16 | a line splits into 6 fields plus one for each comma in the exercise name or timestamp |
| Csv.LineBreaks | src/routes/api/history.csv/+server.ts:8-15 | a line holds exactly the line breaks of its exercise name and timestamp |
| Csv.CsvLines | src/routes/api/history.csv/+server.ts:5-19 | with no line break in any exercise name or timestamp, the export splits back into the header and one line per row, in order |
| Csv.NoTrailingLineBreak | src/routes/api/history.csv/+server.ts:18 | with no line break in any exercise name or timestamp, the export does not end in a line break: lines are joined, not terminated |
| Csv.LineBreaksAddLines | src/routes/api/history.csv/+server.ts:7-18 | the export splits into one line for the header, one per row, and one more for each line break inside an exercise name or timestamp |
| HistoryApi.IsValidEntry | src/routes/api/history/+server.ts:6-17 | an entry is valid exactly when it is an object holding a string `exercise` and `timestamp` and a number `setNumber`, `weight` and `reps` |
| HistoryApi.RejectsNonObjects | src/routes/api/history/+server.ts:7 | null, arrays and every primitive are invalid entries |
| HistoryApi.ValidEntryIff | src/routes/api/history/+server.ts:6-17 | validity is the object holding each of the five required fields with its required type |
| HistoryApi.OtherFieldsIgnored | src/routes/api/history/+server.ts:9-16 | setting any other field, `type` included, never changes validity |
| HistoryApi.NumbersNotRangeChecked | src/routes/api/history/+server.ts:12-14 | negative, fractional and infinite numbers pass validation |
| HistoryApi.AllValid | src/routes/api/history/+server.ts:28 | `every` holds exactly when each entry is valid |
| HistoryApi.Put | src/routes/api/history/+server.ts:24-34 | the upload passes validation exactly when the body is an object whose `entries` is an array of valid entries; it is stored exactly when it also repeats no key, and then appended in order; otherwise nothing is stored; stored keys stay unique |
| HistoryApi.FreshKeepsKeysUnique | src/lib/server/historyStore.ts:27 | appending a batch with fresh keys keeps the stored keys unique |
| HistoryApi.FreshIff | src/lib/server/historyStore.ts:27 | over rows with unique keys, a batch is fresh exactly when the rows with it appended still have unique keys |
| HistoryApi.ResubmitFails | src/lib/server/historyStore.ts:60-75 | sending an accepted non-empty batch again fails and stores nothing: a retry never duplicates a row |
| HistoryApi.OneInvalidRejectsAll | src/routes/api/history/+server.ts:28-30 | one invalid entry rejects the whole batch and leaves the store unchanged |
| HistoryApi.MalformedBodyRejected | src/routes/api/history/+server.ts:25-30 | a body that is not JSON, or has no `entries` array, is rejected with nothing stored |
| HistoryApi.PutTwice | src/routes/api/history/+server.ts:32 | two uploads store the same as one upload of both batches, when that batch repeats no key |

## Left out

- Persistence (`historyStore`, a SQLite database) is modelled only as far as `PUT`
  needs it. The table is a sequence of the uploaded entries, its primary key is the
  (exercise, set number, timestamp) triple, and the append is all or nothing. Reading
  the table back (`readHistory` and its date order), deleting and renaming are not
  modelled.
- `HistoryApi.Put`: a fresh batch of valid entries is always stored. The insert can
  also throw for reasons that lie in the SQLite driver rather than in this source,
  such as a `type` value it cannot bind; those failures are not modelled.
- The rename route, the browser-side fetch client, both `GET` handlers and their HTTP
  headers are not modelled. They are I/O around the modelled functions.
- `formatTimestamp` and `REST_SECONDS` only concern display.
- Parsing is not modelled: ISO timestamps, `toDateString()` and `new Date(...).getTime()`
  are replaced by the (instant, day) pair. `ClockCoherent` states the one relation
  between instant and day that two lemmas need.
- Floating point is not modelled: weights are exact reals, and `toFixed(1)` is exact
  rounding to the nearest tenth, halves away from zero. `Number.isFinite` on the average always holds of
  reals, so its fallback to 0 is not modelled.
- `Number#toString` on finite numbers is a parameter of the CSV export, assumed
  non-empty and free of commas and line breaks. Non-finite numbers are written as
  JavaScript writes them.
- Only the CSV export sees `bodyweight`: the other records have no such field.
- `Summary.MeanWeight` and `Summary.AverageWeight` require at most three sets, which
  always holds of kept sets. The divisor (the number of sets, or 1 for none) is
  written out for 1, 2 and 3.
- `Types.HistoryEntry`: numbers are finite reals. An upload can carry an infinite
  number (a literal such as `1e400`), which the validator accepts; the progression
  records have no counterpart for it.
- `Csv.ToCsv`: its own contract only bounds the length. Its content is stated by
  `Csv.HeaderFirst`, `Csv.CsvLines`, `Csv.LineFields` and `Csv.LineUnderHeader`.
