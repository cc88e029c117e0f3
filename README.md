# philo-tester: the log grammar, the aggregation and the checkers

philo-tester runs a dining-philosophers program and judges its output. Every
line the program prints must be `<time> <id>  <phrase>`. The phrase is one of
"is thinking", "is sleeping", "has taken a fork", "is eating" and "died".
The tester folds the lines into one record per philosopher. The record holds:
- a counter per action;
- the shortest and longest eat and sleep;
- the longest wait between meals;
- the delay of a death after the last meal.

One of three checkers then decides the run from those records and the test
case's arguments (`count t2d t2e t2s [limit]`):
- no one may die;
- no one may die, and the meal limit must be reached exactly;
- a death must be reported within 10 ms of the time to die.

The model has these modules:

- `Text`: ASCII digits, the value of a digit string and the numeral of an integer (Python's `int()` and `str()` below their digit limit).
- `LogGrammar`: the regular expression of `main.py:12`.
  - Python's `re.search` semantics are modelled as a `LineShape` and its rendering.
  - `$` admits one final newline.
  - `\s` is the 29 code points Python treats as white space.
  - `Parse` and `Decode` turn a line into an `Event`.
- `Timeline`: the per-philosopher record.
  - `Update` is what one event does to a record.
  - The dictionary is a `Table`: the keys in insertion order, plus a `map`.
  - `Aggregate` is the specification of `get_data`.
  - `GetData` is its loop, proved against `Aggregate`.
- `TimelineProps`: what the record means.
  - Independent definitions over one philosopher's own events: counts, durations, gaps between meals and time of death.
  - Lemmas showing that the aggregation computes exactly those.
- `Checkers`: the three checkers.
  - Each is an outcome function plus a method proved against it.
  - Each has a characterisation of when it passes (both directions).
  - The messages are those of the source, except the short-eat message (see Findings).
- `Dispatch`: `call_checker`, which picks the checker and turns its verdict into the label shown.
- `Scenarios`: concrete runs worked through the model.

## Model

| member | source | states |
|---|---|---|
| LogGrammar.Parse | main.py:12 | a parse result is a well-formed shape whose rendering is exactly the line |
| LogGrammar.LeadingDigits | main.py:12 | the length of the longest digit prefix: all digits before it, a non-digit or the end at it (the greedy `[0-9]+`) |
| LogGrammar.MatchTail | main.py:12 | a result is one of the alternatives, and the text is exactly its phrase followed by nothing or one final newline (the `(…)$` part) |
| LogGrammar.Matches | main.py:18-19 | no contract of its own; `MatchesIff` states when a line matches |
| LogGrammar.Decode | main.py:305-317 | a line decodes to an event exactly when it matches the pattern |
| LogGrammar.ParseRender | main.py:12 | every well-formed shape (digits, `\s`, digits, two `\s`, phrase, optional final newline) is parsed back to itself |
| LogGrammar.MatchesIff | main.py:12 | a line matches exactly when it is the rendering of some well-formed shape |
| LogGrammar.PhraseInjective | main.py:12 | the five phrases (with or without the newline) are pairwise distinct, so the action group is unambiguous |
| LogGrammar.SingleGapRejected | main.py:12 | a line whose first separator is a space and that has a single space between the id and the phrase never matches |
| LogGrammar.DecodeFormat | main.py:305-317 | decoding a printed event, with or without its newline, gives back its time, id and action |
| LogGrammar.LeadingDigitsOfNumeral | main.py:12 | helper for `ParseRender` and `DecodeFormat`: the greedy `[0-9]+` takes exactly the numeral when a non-digit follows |
| Text.DigitsValueOfNatToString | main.py:309-310 | helper for `DecodeFormat`: the value of the numeral of `n` is `n`, for every natural `n` (Python's `int(str(n)) == n` below its digit limit) |
| Timeline.Fresh | main.py:283-302 | no contract of its own; `FoldActorCursor`, `FoldActorCounts`, `FoldActorDurations`, `FoldActorMeals` and `FoldActorDeath` state what the default record means for a philosopher with no events |
| Timeline.Update | main.py:323-340 | no contract of its own; `UpdateCounts`, `UpdateDurations` and `UpdateMeals` state its effect |
| Timeline.Step | main.py:304-340 | keeps the dictionary valid; `StepEffect` states its effect |
| Timeline.Bump | main.py:328-329 | the action's counter goes up by one and no other field changes |
| Timeline.Apply | main.py:319-340 | applying an event to a dictionary keeps each key once, with keys and values in step |
| Timeline.Aggregate | main.py:279-342 | the fold of the lines is a valid dictionary |
| Timeline.GetData | main.py:279-342 | the loop returns `Aggregate` of the lines |
| Timeline.AddLine | main.py:303-340 | one loop iteration yields `Step` of the table and the line |
| Timeline.AddEvent | main.py:319-340 | a decoded event inserts a default record for a new philosopher, then updates that philosopher's record |
| Timeline.RecordEvent | main.py:323-340 | the in-place updates of a record produce `Update(p, e)` |
| TimelineProps.ApplyEffect | main.py:319-331 | only the event's philosopher changes; its counter for the action goes up by one, and its cursor is set to the event |
| TimelineProps.StepEffect | main.py:303-331 | a line that does not match leaves the table unchanged; a matching one behaves as `ApplyEffect` describes |
| TimelineProps.UpdateCounts | main.py:328-329 | an event adds one to its action's counter and nothing to the others |
| TimelineProps.UpdateDurations | main.py:323-326 | only an event after an eat (or a sleep) folds the elapsed time into the shortest and longest eat (or sleep) |
| TimelineProps.UpdateMeals | main.py:333-340 | a meal folds the time since the previous meal into the longest wait and moves the last meal; a death records the time since the last meal |
| TimelineProps.AggregateByActor | main.py:303-340 | a philosopher is in the table iff one of its lines matched, and its record depends only on its own events |
| TimelineProps.FoldActorCounts | main.py:328-329 | each counter equals the number of the philosopher's events with that action |
| TimelineProps.FoldActorCursor | main.py:330-331 | the cursor is the philosopher's last event, or none before the first |
| TimelineProps.FoldActorDurations | main.py:323-326 | the shortest (longest) eat and sleep are the minimum (maximum) of the actual durations, with the sentinel (0) when there are none |
| TimelineProps.FoldActorEatDurations | main.py:323-324 | shortest and longest eat against the eat durations |
| TimelineProps.FoldActorSleepDurations | main.py:325-326 | shortest and longest sleep against the sleep durations |
| TimelineProps.FoldActorMeals | main.py:333-336 | the last meal is the time of the latest eat, and the longest wait is the largest gap between consecutive meals, the first measured from 0 |
| TimelineProps.FoldActorDeath | main.py:338-340 | with no death the delay stays 0; otherwise it is the time of the last death minus the last meal before it |
| TimelineProps.CountersMatchLines | main.py:303-331 | the counters of all philosophers add up to the number of matching lines |
| TimelineProps.SumAfterStep | main.py:303-331 | one line adds one to the counter sum if it matches and nothing otherwise |
| TimelineProps.IdsGrowByAppend | main.py:319-321 | more lines only append philosophers; the order of the existing ones is kept |
| TimelineProps.FirstAppearanceOrder | main.py:319-321 | philosophers are listed in the order of their first matching line |
| TimelineProps.TallyAppend | main.py:328-329 | helper for `FoldActorCounts`: the reference count over one more event |
| TimelineProps.DurationsAppend | main.py:323-326 | helper for `FoldActorEatDurations` and `FoldActorSleepDurations`: the reference durations over one more event |
| TimelineProps.MealTimesAppend | main.py:333-336 | helper for `FoldActorMeals` and `FoldActorDeath`: the reference meal times over one more event |
| Checkers.FirstMalformed | main.py:16-20 | none exactly when every line matches; otherwise a line that does not match |
| Checkers.FirstMalformedIsFirst | main.py:16-20 | the line reported is the first one that does not match |
| Checkers.CheckFormat | main.py:16-20 | the format loop returns `FirstMalformed` of the lines |
| Checkers.Message | main.py:20-64 | a format message ends with the offending line, and every message about a philosopher contains its id |
| Checkers.ToVerdict | main.py:14-66 | `result` is true exactly for a pass; a format failure's message ends with the line |
| Checkers.Fault | main.py:47-64 | none iff the philosopher obeys the rules; otherwise the reason names it, reports the value that broke the rule with its bound, and every rule tested before it (death, going without food, missed sleep, short sleep, short eat, then the limit) holds; the death checker never reports a plain death |
| Checkers.CommonFault | main.py:50-64 | none iff the shared rules hold; otherwise the reason names the philosopher |
| Checkers.Obeys | main.py:47-64 | no contract of its own; `Fault` states that it reports nothing exactly when `Obeys` holds |
| Checkers.FirstFault | main.py:36-64 | none iff every listed philosopher obeys; otherwise the reason names one of them |
| Checkers.FirstFaultIsFirst | main.py:36-64 | the reason is that of the first philosopher in insertion order that breaks a rule |
| Checkers.FindFault | main.py:36-64 | the philosopher loop returns `FirstFault` |
| Checkers.MinEat | main.py:90-128 | -1 when there are no philosophers, otherwise the fewest meals of any philosopher |
| Checkers.LeastEatUnique | main.py:126-128 | helper for `FindFaultAndLeastEat`: the fewest meals is a single value |
| Checkers.FindFaultAndLeastEat | main.py:93-128 | the limit loop returns the first fault and, when there is none, the fewest meals |
| Checkers.NoDieOutcome | main.py:14-66 | no contract of its own; `NoDiePassIff` states when it passes and `MalformedFailsEveryChecker` what it reports for a malformed line |
| Checkers.NoDieLimitOutcome | main.py:68-134 | no contract of its own; `NoDieLimitPassIff` and `NoDieLimitPassReachesLimit` state when it passes and `MalformedFailsEveryChecker` what it reports for a malformed line |
| Checkers.DieOutcome | main.py:137-188 | no contract of its own; `DiePassIff` states when it passes and `MalformedFailsEveryChecker` what it reports for a malformed line |
| Checkers.CheckNoDie | main.py:14-66 | returns the verdict of `NoDieOutcome` |
| Checkers.CheckNoDieLimit | main.py:68-134 | returns the verdict of `NoDieLimitOutcome` |
| Checkers.CheckDie | main.py:137-188 | returns the verdict of `DieOutcome` |
| Checkers.NoDiePassIff | main.py:14-66 | passes iff every line matches, there are `count` philosophers, and none died, starved, skipped a sleep, or slept or ate too briefly |
| Checkers.NoDieLimitPassIff | main.py:68-134 | passes iff the no-death conditions hold, every philosopher ate at least `limit` times, and the fewest meals is exactly `limit` (-1 with no philosophers) |
| Checkers.NoDieLimitPassReachesLimit | main.py:126-134 | on a pass, some philosopher ate exactly `limit` times (`limit` is -1 when there are none) |
| Checkers.DiePassIff | main.py:137-188 | passes iff every line matches and every philosopher that died did so within `t2d + 10` ms of its last meal and obeys the shared rules |
| Checkers.MalformedFailsEveryChecker | main.py:16-20 | a line that does not match makes all three checkers fail with the format message for the first such line |
| Checkers.AllListed | main.py:36 | helper for the three pass characterisations: checking every listed philosopher is checking every philosopher in the dictionary |
| Checkers.ShortMealsFault | main.py:63-64 | a philosopher whose meals were too short is failed for a short eat reporting 100 ms against 200 ms |
| Checkers.ShortEatMisreported | main.py:64 | the short-eat message as written differs from the intended one on that philosopher |
| Checkers.LargeCountRejected | main.py:32 | the count test as written fails 300 philosophers all found; the model's count test does not |
| Checkers.LargeLimitRejected | main.py:130 | the limit test as written fails a run whose fewest meals is exactly the limit 300; the model's limit test does not |
| Dispatch.Judgement | main.py:359-376 | no contract of its own; `JudgementSuccessIff` and `JudgementMalformed` state which label it shows |
| Dispatch.LabelText | main.py:363-376 | the text is "Success" exactly for a success, and a failure shows "[Failed] " followed by its message |
| Dispatch.LabelSuccessIff | main.py:363-376 | the label reads "Success" iff the test case has a checker and the run meets its acceptance condition |
| Dispatch.MalformedLabel | main.py:363-371 | with a checker and a line that does not match, the label reads "[Failed] ", the format message and the first such line |
| Dispatch.CallChecker | main.py:359-376 | returns `Judgement` of the test case and the lines |
| Dispatch.JudgementSuccessIff | main.py:363-376 | "check by yourself" iff the test case has no checker; "Success" iff it has one and its acceptance condition holds |
| Dispatch.OutcomePassIff | main.py:363-367 | the chosen checker passes iff its acceptance condition holds |
| Dispatch.JudgementMalformed | main.py:363-371 | with a checker and a line that does not match, the label is the failure with the format message for the first such line |
| Scenarios.DecodesTo | main.py:305-317 | a printed line decodes to its event |
| Scenarios.MealScenario | main.py:279-342 | two forks, a meal at 0, a sleep at 200 and a think at 400 give eat, sleep and think 1, fork 2, and shortest eat and sleep 200 |
| Scenarios.SingleSpaceScenario | main.py:12 | the same meal written with one space before the phrase does not match, and the table stays empty |
| Scenarios.AggregateUnmatched | main.py:303-317 | lines that do not match give an empty table |
| Scenarios.NoDeathScenario | main.py:14-66 | four healthy philosophers under `4 410 200 200` pass |
| Scenarios.OneDeathScenario | main.py:47-48 | a death fails the no-death checker and names the philosopher that died |
| Scenarios.LateDeathScenario | main.py:168-170 | a death 415 ms after the last meal passes under `t2d = 410`; one 425 ms after it fails |
| Scenarios.LettersScenario | main.py:16-20 | a timestamp of letters fails every checker with that line in the message |

## Left out

- Running the philosophers program is not modelled: the subprocess, its timeout, the threads, the progress bar and the terminal interface. The model starts from the list of lines the program printed.
- The lines come from reading the program's output one line at a time, so each keeps its final newline; the grammar admits that newline. The summary view (`get_summary`) is not part of this model.
- LogGrammar.Decode: numerals of any length are read. Since Python 3.11, `int()` and `str()` raise `ValueError` on a numeral longer than the interpreter's digit limit (4300 digits by default). On a matching line with such a timestamp or id, `get_data` (main.py:309-310) aborts `call_checker` (main.py:360) before any label is set. The model instead decodes the event and shows a verdict.
- The text of the test case's arguments and `int()` on it are not modelled. The arguments are integers. `HasArgs` requires the count the checker indexes, so the `IndexError` of a short argument list is not modelled.
- Dispatch.CallChecker: the CSS classes added to the label and title widgets are not modelled; only the label text is.
- The test-case catalogue is not modelled; the scenarios use its argument lists as examples.
- `died_total` in `checker_die` is computed but never read, so it is not modelled.
- Checkers.Message: its contract states only the structure of the wording (the offending line at the end, the id inside). The rest of the text is the source's own, typos included, except for the short-eat message (see Findings).
- `checker_no_die_limit` with no philosophers leaves `min_ate` at -1. It therefore passes only when `count` is 0 and `limit` is -1. The model follows the code.
- `checker_die` does not demand that anyone die: a run with no death and no other fault passes. The model follows the code.
- A line with one space before the phrase does not match `main.py:12`, which demands two white-space characters there (`LogGrammar.SingleGapRejected`, `Scenarios.SingleSpaceScenario`).

## Findings

| source | as written | input that shows it | evidently intended | confidence | as-written member | corrected member |
|---|---|---|---|---|---|---|
| main.py:64, main.py:121, main.py:186 | the short-eat message reports `short_sleep` and `t2s` | a philosopher with shortest eat 100 and shortest sleep 300, under `t2e = 200`, `t2s = 150`: the message says "ate 300ms … longer: 150." | report `short_eat` and `t2e` | high; not executed | Checkers.ShortEatMisreported | Checkers.Fault |
| main.py:32, main.py:87 | `is not` compares integer objects, and CPython shares them only for -5 to 256 | `count = 300` with 300 philosophers found: the count test of either no-death checker fails although the counts are equal | compare values with `!=` | medium (depends on the CPython integer cache); not executed | Checkers.LargeCountRejected | Checkers.NoDiePassIff |
| main.py:130 | `is not` compares integer objects, as at main.py:32 | `limit = 300` and the fewest meals of any philosopher 300: the limit test fails although the values are equal | compare values with `!=` | medium (depends on the CPython integer cache); not executed | Checkers.LargeLimitRejected | Checkers.NoDieLimitPassIff |
