# timey-v2 in Dafny

A model of the core of timey-v2, a personal time tracker. Users keep tasks, optionally tied to a
project with an hourly rate and to a client. A play/pause timer on a task records time entries.
A summary panel totals the tracked time and earnings per project and per client. A key-value
store behind four REST endpoints (time entries, projects, tasks, clients) keeps each user's
records as one array per key.

The model follows the program's structure, one module per source file:

- `Summary` (pure): the summary panel.
  - Entry filtering by selected client and project.
  - The headline total, per-project and per-client totals and earnings, total earnings.
  - The `Hh Mm` formatter and the pie, bar and area chart data.
- `TaskAreaChart` (mixed):
  - the distinct project list;
  - the series configuration, filled by a loop into a map;
  - the per-day grouping, folded into a nested accumulator and then sorted by day;
  - the day-over-day trend.
- `Timer` (class `TimerState`): the timer's state cells.
  - Its play/pause transition posts new entries and reports the toggled task.
  - Its effect and once-a-second tick maintain the session.
- `PomodoroCircle` and `Pomodoro` (classes): the two countdown timers.
  - Each tick of the interval is one call of `Step`.
- `UseTasks`:
  - the optimistic merge of a task patch over the cached list;
  - the rule deciding when an update is written to the cache and when it is sent to the server.
- `Store`, `RedisUtils`:
  - the store, as a class over `map<string, Value>`;
  - the time-entry keys, the inclusive date-range and task queries, and the append.
- `TimeEntriesRoute`, `ProjectsRoute`, `TasksRoute`, `ClientsRoute`: the GET and POST
  handlers.
  - Session checks, validation with status codes, and record construction.
  - An append to the user's array.
- `KeySpaces`: the four key prefixes never collide.
- Helper modules:
  - `Wrappers` (`Option`);
  - `Types` (the four records);
  - `Seqs`: the array `filter`, `find`, `findIndex` and sums;
  - `Lex`: JavaScript string order, and a sort by a string key;
  - `Decimal`: number-to-text conversion in template strings;
  - `Http`: session and response.

Conventions:

- Timestamps are integer milliseconds.
- Calendar days are `YYYY-MM-DD` strings, compared in string order.
- Optional and `undefined` values are `Option`s.
- Money is exact `real` arithmetic.
- A JavaScript string is "truthy" when it is present and non-empty.
- Inputs that come from outside are parameters:
  - the session;
  - the request body and query string;
  - the generated id;
  - the timestamp-to-day conversion.

## Model

| member | source | states |
|---|---|---|
| Summary.FilteredEntries | src/components/Summary.tsx:51-61 | undefined entries stay undefined; otherwise an entry is kept iff its task exists and matches both the client and the project selector, the kept entries keep their order (a subsequence), and each is kept as often as it occurs |
| Summary.AllAllKeepsResolvable | src/components/Summary.tsx:51-61 | with both selectors on "all", the filter keeps, in order, every occurrence of each entry whose task exists and nothing else |
| Summary.TotalDurationAppend | src/components/Summary.tsx:64-68 | `TotalDuration` of a concatenation is the sum of the parts |
| Summary.TotalDurationCons | src/components/Summary.tsx:64-68 | adding an entry in front adds its duration |
| Summary.TotalTime | src/components/Summary.tsx:64-68 | the headline total is 0 when the entries are not loaded or empty |
| Summary.NonNegativeTotal | src/components/Summary.tsx:64-68 | the duration fold `TotalDuration`: durations that are all non-negative have a non-negative total |
| Summary.FilterFront | src/components/Summary.tsx:70-75 | one step of the filter seen from the front of the list |
| Summary.FilteredTotalFront | src/components/Summary.tsx:70-79 | the total of a filtered list counts the first entry exactly when it passes |
| Summary.FilteredTotalAtMost | src/components/Summary.tsx:70-79 | with non-negative durations, a filtered total lies between 0 and the unfiltered total |
| Summary.FilterSplitTotal | src/components/Summary.tsx:70-79 | filtering by the disjunction of two disjoint conditions sums their totals |
| Summary.ProjectSummaries | src/components/Summary.tsx:70-86 | one summary per project, in order: the total of the project's entries, and earnings of total/3600 times the rate |
| Summary.EarningsNonNegative | src/components/Summary.tsx:80 | `(totalTime / 3600) * hourlyRate` is never negative for a non-negative time and rate |
| Summary.EntryEarnings | src/components/Summary.tsx:98-102 | an entry whose task has no resolvable project earns 0; otherwise duration/3600 times its project's rate |
| Summary.EntryEarningsNonNegative | src/components/Summary.tsx:98-102 | one entry's earnings are never negative for a non-negative duration and rates |
| Summary.ResolvedRate | src/components/Summary.tsx:99-101 | the project an entry resolves to is one of the projects, so its rate is non-negative when all rates are |
| Summary.EntriesEarningsNonNegative | src/components/Summary.tsx:98-102 | the client earnings fold over entries is never negative when no duration and no rate is |
| Summary.ClientSummaries | src/components/Summary.tsx:88-108 | one summary per client, in order: the total of the client's entries and the sum of their own earnings |
| Summary.TotalEarnings | src/components/Summary.tsx:110-113 | the earnings fold over project summaries is never negative when no summand is |
| Summary.SelectedProjectCarriesTotal | src/components/Summary.tsx:51-86 | with a project selected, that project's summary carries the whole headline total |
| Summary.ResolveExtend | src/components/Summary.tsx:99-100 | resolving against projects + [p] yields p exactly when the entry's project id is p's |
| Summary.HasProjectInExtend | src/components/Summary.tsx:70-75 | with distinct ids, an entry resolves in projects + [p] iff in one part, never both |
| Summary.DistinctFromLast | src/components/Summary.tsx:70-86 | under distinct ids no earlier project shares the last one's id |
| Summary.SummedProjectTimesLast | src/components/Summary.tsx:70-86 | adding a project adds its entries' total to the sum of per-project totals |
| Summary.ProjectTimesPartition | src/components/Summary.tsx:70-86 | with distinct project ids, the per-project totals add up to exactly the time of the entries whose project is listed |
| Summary.SplitOnLast | src/components/Summary.tsx:70-86 | with distinct ids, the time of entries resolving in projects + [p] is that of projects plus that of p |
| Summary.ProjectTimesAtMostTotal | src/components/Summary.tsx:64-86 | with non-negative durations, the per-project totals never exceed the headline total |
| Summary.ProjectEarningsAdd | src/components/Summary.tsx:80 | earnings at a fixed rate are additive in the seconds |
| Summary.EntriesEarningsLast | src/components/Summary.tsx:98-102 | appending an entry adds its own earnings |
| Summary.FilteredTotalLast | src/components/Summary.tsx:70-79 | appending an entry adds its duration to a filtered total exactly when it passes |
| Summary.EarningsWithoutProjects | src/components/Summary.tsx:98-102 | with no projects nothing earns anything |
| Summary.EntryEarningsExtend | src/components/Summary.tsx:98-102 | adding a project with a new id changes only its own entries' earnings |
| Summary.EarningsExtend | src/components/Summary.tsx:98-102 | adding a project with a new id adds the earnings of its own entries |
| Summary.OneProjectEarnings | src/components/Summary.tsx:80 | one project's entries, earned one by one, earn what their total time earns at its rate |
| Summary.OwnEntryEarnings | src/components/Summary.tsx:98-102 | an entry of p earns its duration in hours times p's rate |
| Summary.TotalEarningsByEntry | src/components/Summary.tsx:110-113 | with distinct project ids, total earnings (a sum over projects) equal the per-entry earnings computed as for clients |
| Summary.UnresolvedEarnNothing | src/components/Summary.tsx:98-102 | entries without a resolvable project add nothing to earnings |
| Summary.ClientEarningsOnlyFromProjects | src/components/Summary.tsx:98-102 | a client's earnings come only from its entries whose project resolves |
| Summary.JsRem | src/components/Summary.tsx:117 | JavaScript `%` by a positive divisor: the remainder has the dividend's sign and is below the divisor in size |
| Summary.HoursMinutes | src/components/Summary.tsx:115-117 | for non-negative seconds: hours and minutes below 60 that account for every whole minute, leaving under 60 seconds; negative input gives negative hours and minutes in -60..0 |
| Summary.SplitRendering | src/components/Summary.tsx:118 | a rendering `Ah Bm` with no `h` in A determines A and B |
| Summary.FormatTime | src/components/Summary.tsx:115-119 | the rendering ends in `m`; a non-negative duration is written with no sign, a negative one starts with `-` |
| Summary.FormatTimeInjective | src/components/Summary.tsx:115-119 | two durations render alike iff they have the same hours and minutes |
| Summary.FormatTimeWholeMinutes | src/components/Summary.tsx:115-119 | non-negative durations render alike iff they have the same number of whole minutes |
| Summary.MinutesDetermineClock | src/components/Summary.tsx:116-117 | hours and minutes below 60 are determined by the minute count |
| Summary.PieSlices | src/components/Summary.tsx:130-136 | one slice per summary, pointwise: name, seconds, earnings, formatted time |
| Summary.BarItems | src/components/Summary.tsx:140-144 | one bar per summary, pointwise, with the time in hours |
| Summary.PieData | src/components/Summary.tsx:128-136 | the i-th slice is the slice of the i-th summary with time on it, and there are as many slices as such summaries; so every slice has positive time and comes from a summary with time, and every summary with time has its slice |
| Summary.BarData | src/components/Summary.tsx:138-144 | the i-th bar is the bar of the i-th summary with time on it, and there are as many bars as such summaries; so every bar has positive hours and comes from a summary with time, and every summary with time has its bar |
| Summary.BusyProjects | src/components/Summary.tsx:128-130 | the summaries the pie is drawn from are those with time, in their order, each as often as it occurs |
| Summary.BusyClients | src/components/Summary.tsx:138-140 | the summaries the bars are drawn from are those with time, in their order, each as often as it occurs |
| Summary.SlicesTotal | src/components/Summary.tsx:130-136 | the slices carry the summaries' seconds |
| Summary.BarItemsHours | src/components/Summary.tsx:141-143 | the bars of a list of summaries add up to their total seconds over 3600 |
| Summary.BarTotal | src/components/Summary.tsx:138-144 | dropping idle clients loses no time: the bars add up, in hours, to the per-client totals |
| Summary.PieTotal | src/components/Summary.tsx:128-136 | dropping idle projects loses no time: the pie adds up to the per-project totals |
| Summary.ProjectLabel | src/components/Summary.tsx:148-152 | a label is never empty: "Unknown" without a resolvable project, the project's name when it has one |
| Summary.AreaRows | src/components/Summary.tsx:147-155 | one chart row per entry, pointwise: its day, project label and duration |
| Summary.AreaChartData | src/components/Summary.tsx:146-155 | no entries loaded gives no rows; otherwise one row per filtered entry, in order, carrying its day, its project label and its duration |
| Summary.AreaChartTotal | src/components/Summary.tsx:146-155 | the area chart's input carries exactly the headline total time |
| Summary.AreaRowsTotal | src/components/Summary.tsx:146-155 | the rows carry exactly the entries' durations |
| Summary.WorkedExample | src/components/Summary.tsx:51-113 | one project at 60/hour with entries of 1800 s and 3600 s: total 5400 s, earnings 90 |
| TaskAreaChart.CellSumAbsent | src/components/charts/TaskAreaChart.tsx:75-88 | a (day, project) pair that never occurs has sum 0 |
| TaskAreaChart.OccursLast | src/components/charts/TaskAreaChart.tsx:75-88 | a pair occurs in data + [x] iff in data or as x |
| TaskAreaChart.CellSumLast | src/components/charts/TaskAreaChart.tsx:81-84 | appending an input row adds its duration to its own (day, project) sum and to no other |
| TaskAreaChart.Projects | src/components/charts/TaskAreaChart.tsx:51-53 | the distinct project names: duplicate-free, containing every row's project, each one named by some row |
| TaskAreaChart.ProjectsFirstOccurrence | src/components/charts/TaskAreaChart.tsx:51-53 | names are listed in order of first occurrence |
| TaskAreaChart.ColorIndex | src/components/charts/TaskAreaChart.tsx:66 | the colour index is the position modulo the five colours, hence in range |
| TaskAreaChart.ChartConfig | src/components/charts/TaskAreaChart.tsx:56-71 | keys are "tasks" and exactly the projects; each project's caption is its name and its colour is chosen by its last position; "tasks" keeps its caption unless a project is so named |
| TaskAreaChart.RowOkOtherDay | src/components/charts/TaskAreaChart.tsx:75-88 | a row of another day stays correct when a row is added |
| TaskAreaChart.AddSeconds | src/components/charts/TaskAreaChart.tsx:81-84 | a day's cells keep their order and every other project's cell; a project without a cell gets one, last, holding the duration |
| TaskAreaChart.AddRow | src/components/charts/TaskAreaChart.tsx:78-85 | the days keep their order and every other day is untouched; a new day goes last with the row's one cell |
| TaskAreaChart.Group | src/components/charts/TaskAreaChart.tsx:75-88 | the reduce yields at most one group per input row, and at least one for a non-empty input |
| TaskAreaChart.ChartRows | src/components/charts/TaskAreaChart.tsx:90-96 | the sorted rows are a reordering of the grouped days |
| TaskAreaChart.AddSecondsOk | src/components/charts/TaskAreaChart.tsx:81-84 | adding a row's seconds to its day keeps the cells correct and adds the duration to the day total |
| TaskAreaChart.AddNewDay | src/components/charts/TaskAreaChart.tsx:78-84 | a row on a new day opens a group, and the grouping still represents the data |
| TaskAreaChart.NewDayRowsOk | src/components/charts/TaskAreaChart.tsx:78-84 | the groups stay correct when a new group is opened |
| TaskAreaChart.NewDayCovered | src/components/charts/TaskAreaChart.tsx:78-84 | every (day, project) pair stays covered when a group is opened |
| TaskAreaChart.AddToDay | src/components/charts/TaskAreaChart.tsx:81-84 | a row on an existing day updates that group and the grouping still represents the data |
| TaskAreaChart.AddRowRepresents | src/components/charts/TaskAreaChart.tsx:76-86 | one step of the reduce preserves the representation invariant |
| TaskAreaChart.GroupRepresents | src/components/charts/TaskAreaChart.tsx:75-88 | the grouping has one group per day, each cell the exact sum of its (day, project) durations, every pair covered, the grand total kept |
| TaskAreaChart.ChartData | src/components/charts/TaskAreaChart.tsx:73-97 | the rows ascend strictly by day; each cell is its pair's exact sum; every input pair is covered; the total is kept |
| TaskAreaChart.SortedRepresents | src/components/charts/TaskAreaChart.tsx:91-96 | sorting keeps the representation and makes the days ascend |
| TaskAreaChart.SortKeepsRows | src/components/charts/TaskAreaChart.tsx:91-96 | a permutation keeps row correctness and coverage |
| TaskAreaChart.RowsAreInputDays | src/components/charts/TaskAreaChart.tsx:91-95 | the chart's days are exactly the input's days |
| TaskAreaChart.RowDaysOccur | src/components/charts/TaskAreaChart.tsx:91-95 | every row's day occurs in the input |
| TaskAreaChart.InputDaysHaveRows | src/components/charts/TaskAreaChart.tsx:91-95 | every input day has a row |
| TaskAreaChart.Trend | src/components/charts/TaskAreaChart.tsx:100-111 | 0 with fewer than two days, when the previous day's total is 0, or when the last two days' totals are equal |
| Timer.ElapsedSeconds | src/components/Timer.tsx:57-59 | the whole seconds between two timestamps: floor of the difference over 1000, non-negative iff now is not before the start |
| Timer.TimerState.constructor | src/components/TimeTracker.tsx:17-21 | nothing elapsed, no current entry, no session |
| Timer.TimerState.Toggle | src/components/Timer.tsx:73-109 | no-op without a task or while updating; start posts an open entry at now with duration 0 and opens a session; stop with a current entry posts a closed entry with its start (or now), end now and the elapsed seconds, and clears entry and session; stop without one posts nothing; the task is always reported with isRunning negated |
| Timer.TimerState.Sync | src/components/Timer.tsx:49-65 | a running task gets a session start if it has none; a stopped one loses it |
| Timer.TimerState.Tick | src/components/Timer.tsx:54-61 | elapsed becomes the seconds since the session start, when there is one |
| Timer.StartTickStop | src/components/Timer.tsx:73-109 | start, tick and stop post two entries for the task with the same start: the open one, and a closed one carrying the ticked seconds |
| Timer.StopWithoutEntry | src/components/Timer.tsx:92-109 | stop with no current entry posts nothing but still reports the task stopped |
| PomodoroCircle.Max | src/components/PomodoroCircle.tsx:33 | `Math.max`: the larger argument |
| PomodoroCircle.CircleTimer.TotalTime | src/components/PomodoroCircle.tsx:23 | 300 in a break, the focus minutes times 60 otherwise, at least 60 |
| PomodoroCircle.CircleTimer.constructor | src/components/PomodoroCircle.tsx:18-21 | 5 minutes, 300 seconds left, stopped, in focus |
| PomodoroCircle.CircleTimer.AdjustTime | src/components/PomodoroCircle.tsx:30-38 | ignored while running; else the minutes become max(1, minutes + amount) and the countdown restarts from it; bounded by the phase in focus |
| PomodoroCircle.CircleTimer.Reset | src/components/PomodoroCircle.tsx:40-43 | the countdown restarts from the phase's length and stops |
| PomodoroCircle.CircleTimer.Toggle | src/components/PomodoroCircle.tsx:45-47 | flips isRunning only |
| PomodoroCircle.CircleTimer.Step | src/components/PomodoroCircle.tsx:49-66 | running with time left: exactly one second less; at 0: stop, complete, flip phase, restart in full (focus minutes after a break, 300 after focus); keeps the countdown within its phase |
| Pomodoro.PhaseSeconds | src/components/Pomodoro.tsx:18 | 300 exactly for a break and 1500 exactly for focus |
| Pomodoro.PomodoroTimer.Valid | src/components/Pomodoro.tsx:13-39 | the invariant implies 0 <= timeLeft <= 1500 |
| Pomodoro.PomodoroTimer.constructor | src/components/Pomodoro.tsx:13-15 | 1500 seconds left, stopped, in focus |
| Pomodoro.PomodoroTimer.Reset | src/components/Pomodoro.tsx:17-20 | restarts from 300 in a break or 1500 in focus and stops |
| Pomodoro.PomodoroTimer.Toggle | src/components/Pomodoro.tsx:22-24 | flips isRunning only |
| Pomodoro.PomodoroTimer.Step | src/components/Pomodoro.tsx:26-44 | running with time left: one second less; at 0: stop, complete, flip phase, 1500 after a break, 300 after focus; keeps 0..1500 |
| Pomodoro.RunFocus | src/components/Pomodoro.tsx:26-39 | a fresh timer started and ticked n times has 1500 - n left, still runs in focus and has not completed |
| UseTasks.Merge | src/hooks/useTasks.tsx:118 | the patch's id wins; every field present in the patch wins; every field absent from the patch is kept |
| UseTasks.MergeFull | src/hooks/useTasks.tsx:118 | a patch carrying every field yields exactly the patched task |
| UseTasks.MergeEmpty | src/hooks/useTasks.tsx:118 | a patch with only the task's own id changes nothing |
| UseTasks.MergeIdempotent | src/hooks/useTasks.tsx:118 | merging a patch twice is merging it once |
| UseTasks.ApplyPatch | src/hooks/useTasks.tsx:116-119 | no cache gives []; otherwise same length and order and the same ids; the task with the patch's id is merged, every other task is unchanged |
| UseTasks.ApplyPatchIdempotent | src/hooks/useTasks.tsx:116-119 | applying a patch twice equals applying it once |
| UseTasks.ApplyPatchUnknownId | src/hooks/useTasks.tsx:118 | a patch for an id nobody has leaves the list as it is |
| UseTasks.TaskCache.constructor | src/hooks/useTasks.tsx:58-67 | the cache holds the given list and nothing was sent |
| UseTasks.TaskCache.OptimisticUpdate | src/hooks/useTasks.tsx:114-120 | the cached list is replaced by the patched one |
| UseTasks.TaskCache.HandleUpdateTask | src/hooks/useTasks.tsx:123-134 | the cache is patched iff the patch carries isRunning; the patch is sent iff isRunning is false or it has no timeSpent |
| UseTasks.ReportToggledTask | src/hooks/useTasks.tsx:123-134 | a toggled task reported in full is shown at once and sent once |
| UseTasks.TimeOnlyUpdate | src/hooks/useTasks.tsx:126-133 | a timeSpent-only update touches neither the cache nor the server |
| Store.Redis.constructor | src/lib/redis-utils.ts:2 | the store holds the given map |
| Store.Redis.GetEntries | src/lib/redis-utils.ts:13 | a value exactly when the key holds an entry list |
| Store.Redis.GetProjects | src/app/api/projects/route.ts:19 | a value exactly when the key holds a project list |
| Store.Redis.GetTasks | src/app/api/tasks/route.ts:18 | a value exactly when the key holds a task list |
| Store.Redis.GetClients | src/app/api/clients/route.ts:19 | a value exactly when the key holds a client list |
| Store.Redis.Set | src/lib/redis-utils.ts:34 | that key holds the value and no other key changes |
| Http.Denied | src/app/api/time-entries/route.ts:16 | a 401 failure |
| RedisUtils.TimeEntryKey | src/lib/redis-utils.ts:4 | the prefix followed by exactly the email |
| RedisUtils.TimeEntryKeyInjective | src/lib/redis-utils.ts:4 | different emails give different keys |
| RedisUtils.TimeEntryTaskKey | src/lib/redis-utils.ts:5-6 | begins with the user's entry key and ends with the task id |
| RedisUtils.ColonBeforeTask | src/lib/redis-utils.ts:5-6 | a colon precedes the task id, so no longer colon-free id ends the key |
| RedisUtils.TimeEntryTaskKeyInjective | src/lib/redis-utils.ts:5-6 | for colon-free task ids the key determines the email and the task |
| RedisUtils.TimeEntryTaskKeyCollision | src/lib/redis-utils.ts:5-6 | ("a:task:b", "c") and ("a", "b:task:c") share a key |
| RedisUtils.StoredEntries | src/lib/redis-utils.ts:13 | the stored list, or [] when nothing is stored |
| RedisUtils.ByDateRange | src/lib/redis-utils.ts:8-17 | exactly the stored entries with startDate <= date <= endDate, both inclusive |
| RedisUtils.ByTask | src/lib/redis-utils.ts:19-25 | exactly the stored entries with the task id |
| RedisUtils.QueriesKeepOrder | src/lib/redis-utils.ts:14-24 | both results are order-preserving subsequences of the stored list |
| RedisUtils.ReversedRangeIsEmpty | src/lib/redis-utils.ts:14-16 | a range with endDate < startDate selects nothing |
| RedisUtils.NothingStored | src/lib/redis-utils.ts:13-24 | with nothing stored both queries return [] |
| RedisUtils.AddTimeEntry | src/lib/redis-utils.ts:27-36 | the user's list gains the entry at its end, every other key is unchanged, and the entry is returned |
| TimeEntriesRoute.Select | src/app/api/time-entries/route.ts:24-44 | a task id filter iff a task id is given; both dates give their range; otherwise 1970-01-01..2100-12-31 |
| TimeEntriesRoute.TaskIdTakesPrecedence | src/app/api/time-entries/route.ts:24-27 | with a task id the dates make no difference |
| TimeEntriesRoute.SingleBoundIgnored | src/app/api/time-entries/route.ts:29-44 | a single date bound is treated as no dates at all |
| TimeEntriesRoute.Run | src/app/api/time-entries/route.ts:24-44 | runs the selected store query |
| TimeEntriesRoute.DefaultRangeCoversYears | src/app/api/time-entries/route.ts:39-43 | the fallback range keeps every day of the years 1971 to 2099 |
| TimeEntriesRoute.DefaultRangeMissesOtherYears | src/app/api/time-entries/route.ts:39-43 | the fallback range drops every day of a year before 1970 or after 2100 |
| TimeEntriesRoute.Get | src/app/api/time-entries/route.ts:12-52 | 401 without an email, else 200 with the selected query's result |
| TimeEntriesRoute.NewEntry | src/app/api/time-entries/route.ts:62-67 | the body's id and userId override the generated ones; the start time is the body's; task, end time and duration are the body's; the date is the start time's day |
| TimeEntriesRoute.Post | src/app/api/time-entries/route.ts:54-78 | 401 without an email; 500 for a start time with no day; otherwise 200 with the new entry, appended to the user's list and nothing else written |
| TimeEntriesRoute.PostThenGet | src/app/api/time-entries/route.ts:12-78 | on an empty store a posted entry is then listed alone by its task, and among its day's entries |
| ProjectsRoute.ProjectKey | src/app/api/projects/route.ts:8 | the prefix followed by exactly the email |
| ProjectsRoute.ProjectKeyInjective | src/app/api/projects/route.ts:8 | different emails give different keys |
| ProjectsRoute.StoredProjects | src/app/api/projects/route.ts:19-20 | the stored list, or [] |
| ProjectsRoute.AppendFreshKeepsDistinct | src/app/api/projects/route.ts:48-57 | appending under a new id keeps the ids distinct |
| ProjectsRoute.Get | src/app/api/projects/route.ts:10-28 | 401 without an email, else 200 with the stored projects or [] |
| ProjectsRoute.Post | src/app/api/projects/route.ts:30-69 | 401 without email and id; 400 unless name and rate are truthy; else 201 with a project under the generated id owned by the user id, appended, so the list then read back is the old one plus it, with ids still distinct when the generated id is fresh; nothing written otherwise |
| ProjectsRoute.ZeroRateRefused | src/app/api/projects/route.ts:40-45 | a rate of 0 is refused with 400 and nothing is stored |
| ProjectsRoute.CreateKeepsIdsDistinct | src/app/api/projects/route.ts:47-61 | a project created under a fresh id over distinct stored ids is listed last and the ids stay distinct |
| ProjectsRoute.CreateTwo | src/app/api/projects/route.ts:47-61 | two projects created in turn are listed in creation order with distinct ids |
| TasksRoute.TaskKey | src/app/api/tasks/route.ts:8 | the prefix followed by exactly the email |
| TasksRoute.TaskKeyInjective | src/app/api/tasks/route.ts:8 | different emails give different keys |
| TasksRoute.StoredTasks | src/app/api/tasks/route.ts:18-19 | the stored list, or [] |
| TasksRoute.NewTask | src/app/api/tasks/route.ts:44-53 | fresh id, the body's name and links, owned by the email, not running |
| TasksRoute.Get | src/app/api/tasks/route.ts:10-27 | 401 without an email, else 200 with the stored tasks or [] |
| TasksRoute.AppendFreshKeepsDistinct | src/app/api/tasks/route.ts:45-57 | appending under a new id keeps the ids distinct |
| TasksRoute.Post | src/app/api/tasks/route.ts:29-67 | 401 without an email; 400 without a name; else 201 with the new task appended, so the list then read back is the old one plus it, with ids still distinct when the generated id is fresh; nothing written otherwise |
| TasksRoute.CreateKeepsIdsDistinct | src/app/api/tasks/route.ts:44-59 | a task created under a fresh id over distinct stored ids is listed last and the ids stay distinct |
| TasksRoute.CreateThenList | src/app/api/tasks/route.ts:29-59 | a created task is listed last, after the existing tasks, stopped and owned by the email |
| ClientsRoute.ClientKey | src/app/api/clients/route.ts:8 | the prefix followed by exactly the email |
| ClientsRoute.ClientKeyInjective | src/app/api/clients/route.ts:8 | different emails give different keys |
| ClientsRoute.StoredClients | src/app/api/clients/route.ts:19-20 | the stored list, or [] |
| ClientsRoute.Get | src/app/api/clients/route.ts:10-28 | 401 without an email, else 200 with the stored clients or [] |
| ClientsRoute.AppendFreshKeepsDistinct | src/app/api/clients/route.ts:48-58 | appending under a new id keeps the ids distinct |
| ClientsRoute.Post | src/app/api/clients/route.ts:30-68 | 401 without email and id; 400 without a name; else 201 with a client under the generated id owned by the user id, appended, so the list then read back is the old one plus it, with ids still distinct when the generated id is fresh; nothing written otherwise |
| ClientsRoute.CreateKeepsIdsDistinct | src/app/api/clients/route.ts:47-60 | a client created under a fresh id over distinct stored ids is listed last and the ids stay distinct |
| ClientsRoute.ListButNotCreate | src/app/api/clients/route.ts:10-45 | a user with an email but no id can list clients but not create one |
| KeySpaces.NamespacesDisjoint | src/app/api/projects/route.ts:8 | entry, project, task and client keys never coincide, whatever the emails |
| KeySpaces.WritesStayInTheirSpace | src/app/api/projects/route.ts:56-59 | writing one kind's key leaves every other kind's keys as they were |
| Seqs.Filter | src/components/Summary.tsx:51 | `Array.filter`: kept elements pass and come from the input; every passing element is kept |
| Seqs.FilterIsSubseq | src/components/Summary.tsx:51 | `Array.filter` keeps the input's order |
| Seqs.FilterCounts | src/components/Summary.tsx:51 | `Array.filter` keeps every occurrence of a passing element and none of a failing one |
| Seqs.FilterLast | src/components/Summary.tsx:51 | filtering an extended list appends the new element exactly when it passes |
| Seqs.Find | src/components/Summary.tsx:52 | `Array.find`: nothing iff no element passes; otherwise the first that passes |
| Seqs.FindIndex | src/components/charts/TaskAreaChart.tsx:81 | the index of the first passing element, or none iff nothing passes |
| Seqs.SumFilterZero | src/components/Summary.tsx:128-129 | dropping zero terms keeps a sum |
| Lex.PrefixDecides | src/app/api/time-entries/route.ts:41-42 | strings whose prefixes compare strictly compare the same way |
| Lex.SortBy | src/components/charts/TaskAreaChart.tsx:96 | the sort is a permutation of its input |
| Lex.SortAscending | src/components/charts/TaskAreaChart.tsx:96 | with distinct keys the sort ascends strictly |
| Lex.SumSort | src/components/charts/TaskAreaChart.tsx:96 | sorting keeps any sum |
| Decimal.NatToString | src/components/Summary.tsx:118 | a natural number is written as a non-empty string of decimal digits with no leading zero |
| Decimal.IntToString | src/components/Summary.tsx:118 | a non-empty decimal rendering that starts with '-' iff the number is negative |
| Decimal.ParseNatToString | src/components/Summary.tsx:118 | reading the decimal digits back gives the number |
| Decimal.IntToStringInjective | src/components/Summary.tsx:118 | different numbers render differently |

## Left out

- Floating point: earnings are exact rationals. Only structural facts about them are stated, never IEEE results.
- Decimal.IntToString: JavaScript numbers are doubles. Durations and their sums are exact integers only below 2^53, and `${n}` writes magnitudes of 10^21 and more in exponent form (`1e+21`). The model's integers are unbounded and always written in plain digits, so the totals, FormatTime and FormatTimeInjective agree with the source only below those bounds.
- `formatMoney`, and the pie slices' `formattedEarnings` field it fills: these rely on `toLocaleString`.
- TaskAreaChart.Trend: only the zero cases are stated. The percentage itself is floating point.
- Rendering: all JSX and charts, the Pomodoro progress circle, and the dial clocks.
- Timers: the effects and `setInterval` are explicit method calls (`Sync`, `Tick`, `Step`).
- React Query: caching, invalidation and the fetch wrappers. Only the cache entry of the tasks query is state.
- The session: it is an input, and authentication is not part of this model.
- The Gmail and GitHub integrations are not part of this model.
- The id generators `uuidv4` and `nanoid` are a `freshId` parameter. The creates do not check the generated id, so freshness is not required of them; their contracts say that the ids stay distinct when the id is fresh (`FreshFor`).
- Date conversion: `new Date(t).toISOString().split("T")[0]` is a parameter `dayOf`.
  - The time-entries POST answers 500 when the start time is missing or outside the range a `Date` can hold.
  - A `null` start time, which JavaScript reads as the epoch, is not distinguished.
- Days are ordered as strings, which for `YYYY-MM-DD` is the chronological order.
  - The area chart sorts by `new Date(date).getTime()`; the model sorts by the day string.
  - String order is modelled on characters, not on UTF-16 code units.
- The store's 500 answers (exceptions in the store) are not modelled.
- Concurrent requests: lost updates between two read-modify-write appends are not modelled.
- The PUT and DELETE handlers of the `[id]` routes are not part of this model.
- ProjectsRoute.Post: `hourlyRate` is taken as a number, so `parseFloat` of a string is not modelled (nor is NaN, which is falsy).
- Request bodies are not fully modelled.
  - Only the fields the handlers read are modelled.
  - A name that is truthy but not a string, and extra keys spread into a time entry, are not.
- Timer.TimerState: `elapsedTime` is held in whole seconds. It is only ever set to 0 or to a floored value, so `Math.floor(elapsedTime)` is the identity.
- UseTasks.Merge: the `timeSpent` key a patch may carry is not a `Task` field. It decides the server write but is not kept in the merged task.
- RedisUtils.TimeEntryTaskKeyInjective: stated only for colon-free task ids, because in general two different (email, task) pairs can share a key (`TimeEntryTaskKeyCollision`).
- PomodoroCircle.CircleTimer.AdjustTime: the countdown is bounded by its phase only when adjusted in focus. The handler does not check the phase; only the UI hides the controls during a break.
- TaskAreaChart.ChartConfig: a project named like a member of `Object.prototype` is modelled as an ordinary key. In the source, `config["__proto__"] = ...` replaces the object's prototype instead of adding a key, so such a project is not among the keys.
- TaskAreaChart.ChartData: the cells are exact sums only for project names that are not members of `Object.prototype`. For `constructor`, `toString`, `valueOf`, `hasOwnProperty`, `isPrototypeOf`, `propertyIsEnumerable`, `toLocaleString`, `__defineGetter__`, `__defineSetter__`, `__lookupGetter__` and `__lookupSetter__`, the inherited function is truthy, so the cell is never set to 0 and `+=` concatenates the duration to the function's text. For `__proto__` the addition is dropped. The model treats every name as an ordinary key, and so do AddSeconds and AddRow.
- TaskAreaChart: a project named `date` would overwrite the row's `date` key in `{ date, ...projects }`, and `Object.values` would count the date in the trend. The model keeps the day and the cells apart.
- The summary's date-range picker only shapes the request made to the time-entries endpoint; it is covered by that route's GET.
