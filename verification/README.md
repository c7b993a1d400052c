# IATAN: models and proofs

A Dafny model of the parts of IATAN that are algorithms or state machines in their own right. `dafny verify
dfyconfig.toml` checks the whole project. One module stands for one component; each imperative operation is a
method (in a class where the source keeps fields) proved against a specification function or predicate, and the
main results are lemmas about those functions and invariants over whole runs.

| file | component |
|---|---|
| `Calendar.dfy`, `CronField.dfy`, `Cron.dfy` | cron expressions and the search for the next firing, over the Gregorian calendar in UTC |
| `CronRules.dfy` | the day rules of POSIX.1-2017 and of most cron daemons, and the documented fall-back, against the code |
| `CronLimit.dfy` | when the search for the next firing runs into its limit of 366 days |
| `Scheduler.dfy` | the task scheduler of a site with the run counters |
| `JsonRepair.dfy` | closing model output that was cut off in the middle of a JSON text |
| `JsonText.dfy` | JSON texts by RFC 8259, and when the repair of a beginning of one is one |
| `PlanPatch.dfy` | incremental plan patches and plan validation |
| `RateLimiter.dfy` | the per-IP token bucket that forgets stale buckets |
| `Pipeline.dfy` | the pipeline worker over its persisted row, with crashes and restarts |
| `ToolLoop.dfy` | the tool-call loop with a model |
| `SiteCache.dfy` | the cache of per-site databases under concurrent use |
| `Sse.dfy`, `AnthropicStream.dfy`, `OpenAIStream.dfy` | reassembly of streamed replies |
| `EventStream.dfy` | the lines of an event stream as the WHATWG HTML Standard reads them |
| `VersionLog.dfy` | save, patch, rollback and the pruned version history of a stored file |
| `FtsIndex.dfy`, `WhereClause.dfy` | full-text triggers, and the rendering of structured filters |
| `GoStrings.dfy`, `Wrappers.dfy` | the parts of Go's `strings` and `strconv` that the models call, and `Option` |

SQL rows are records and maps, the clock is a parameter, and everything the outside decides (model replies, tool
results, lost commands, panics, crashes, the order in which a map is walked or a query lists its rows) is arbitrary.
Instants are nanoseconds since 1 January of year 1, as in Go's `time.Time`. Go's 64-bit integers are written out
where they can wrap: the step of a cron field and the interval of a scheduled task.

## What the proofs show about the code

Where a property fails for some inputs, the model keeps the code's behaviour, shows such an input, and proves exactly
when the property holds.

- **Cron steps.** A validated field is read as the set it denotes if and only if none of its steps overflows a 64-bit
  integer (`CronField.ParsedExactly`). `59/9223372036854775807` is accepted and read as a set that holds minute 57
  (`CronField.OverflowExample`).
- **Days.** The code wants month, day of month and day of week to match (internal/cron/cron.go:122-126). By the INPUT FILES
  section of the crontab utility in POSIX.1-2017 either is enough when both are restricted. The two agree if and only if
  the day of week is `*`, or month and day of month are, or all three sets are full (`CronRules.PosixDays`); with the rule
  of most cron daemons, which requires the month, they agree if and only if a day field starts with `*`, or every weekday and
  every day of its months is listed (`CronRules.EitherDays`). On `0 0 1 * 1` they differ (`CronRules.FirstOrMonday`).
- **Invalid expressions.** The comment at internal/cron/cron.go:102-104 promises one hour later. Five fields that cannot be
  read fire every minute (`CronRules.MalformedFiresEveryMinute`); the result is always one hour later if and only if there
  are not five fields or nothing can ever match (`CronRules.HourLater`).
- **Far matches.** A match more than 366 days away is answered with one hour later, an instant that does not match. With all
  weekdays listed this never happens if and only if a month and a day in the sets exist in a common year
  (`CronLimit.NeverTooFar`); `0 0 13 * 5` on Friday 13 August 1999 shows it with weekdays left out
  (`CronLimit.FridayThe13th`).
- **Scheduler.** Right after a check nothing is due, except tasks whose interval wraps to the past
  (`Scheduler.DueAfterCheck`, `Scheduler.WrapsBackExample`); the interval between runs is kept for exactly the intervals up
  to 9223372036 seconds (`Scheduler.IntervalsAreKept`). error_count is the number of runs stored as failed if and only if no
  command of the task was lost (`Scheduler.RunsAreAccountedFor`); `Scheduler.LostCommand` loses one.
- **JSON repair.** The result is well bracketed, and repairing again changes nothing, if and only if the cut does not land
  on a quote that the cut-off string had escaped (`JsonRepair.RepairCompletes`, `JsonRepair.RepairIdempotent`,
  `JsonRepair.EscapedQuoteExample`): brain/plan.go:407 and brain/plan.go:416 look for any quote. The beginning of a JSON text
  that broke off inside a string is repaired to a JSON text under the same condition; one that broke off elsewhere if and
  only if, without blanks, commas and colons at its end, it ends neither behind a name nor within a word or number
  (`JsonText.RepairsToJson`): `{"a":` becomes `{"a"}` (`JsonText.NameLeft`).
- **Plan patches.** A patched plan is stored without being validated again (brain/stages.go:312-315). It still passes
  validation if and only if the patch fits (`PlanPatch.PatchKeepsValid`, `PlanPatch.HomePageExample`).
- **Rate limiter.** Forgetting stale buckets is unobservable, and every window admits at most burst + rate * duration, if
  and only if a bucket refills within the two minutes, burst <= 120 * rate or burst 0 (`RateLimiter.SweepingIsUnobservable`,
  `RateLimiter.WindowsAreBounded`, `RateLimiter.BurstsBreakTheWindow`). Under the same condition a request is refused only
  where some window that ends with it has no room (`RateLimiter.NothingRefusedWithoutNeed`). Both configured limiters meet it.
- **Pipeline.** The monitoring loop never returns to the stages, so an update received there is only recorded
  (`Pipeline.Worker.RunMonitoringLoop`). In a pause an update starts UPDATE_PLAN if and only if the row is not paused
  (`Pipeline.UpdateInPause`); which wakeups lead out of a pause is `Pipeline.PauseEnds`. A worker that starts at UPDATE_PLAN
  without a stored plan never advances (`Pipeline.Worker.RunStages`).
- **Anthropic stream.** Text in `content_block_start` is dropped (`AnthropicStream.OpeningTextLost`), and a tool call with
  empty input gets `{}` (`AnthropicStream.EmptyInputFilled`); these two cases, and no others, make the stream differ from the
  whole reply (`AnthropicStream.StreamAgrees`).
- **OpenAI stream, order.** Every walk of the map delivers the calls in the order they were started if and only if no walk
  meets two different calls (`OpenAIStream.OrderIsKept`); two open calls may arrive in either order
  (`OpenAIStream.EitherOrder`).
- **OpenAI stream, indices.** The client drops the index of a piece. What it collects for every call is what the indices ask
  for if and only if every continuing piece continues the call started last, before that is handed over
  (`OpenAIStream.CollectedByIndex`, `OpenAIStream.DeliveredByIndex`); a piece for the first of two open calls goes to the
  second (`OpenAIStream.Alternating`). Because empty arguments are delivered as `{}`, a stray `{}` may go unnoticed
  (`OpenAIStream.AlternatingEmptyObject`), and for calls with different ids nothing else may (`OpenAIStream.DeliveredRight`).
- **OpenAI stream, end.** Of any stream, with or without `[DONE]`, every call collected is delivered if and only if none is
  open at its end (`OpenAIStream.NothingLost`); a stream that hands nothing over delivers no call
  (`OpenAIStream.LostWithoutDone`).
- **Data lines.** Both clients require a space behind `data:`, which section 9.2 of the WHATWG HTML Standard makes optional.
  They hear the events of the standard, when each has one data line, if and only if no data field without the space
  carries anything (`AnthropicStream.HearsTheStandard`, `OpenAIStream.HearsTheStandard`); `data:[DONE]` is one that does
  (`AnthropicStream.MissedDone`, `OpenAIStream.MissedDone`).
- **Rollback.** Undoing a rollback restores the content, and the content type if and only if the restored version had the
  file's type, because the content recorded by a rollback is labelled with the type of the version it restores
  (`VersionLog.RollbackUndone`). Three saves with types of their own lead to a file that loses its type
  (`VersionLog.TypeLost`).

## Model

| member | source | states |
|---|---|---|
| Calendar.DateRoundTrip | internal/cron/cron.go:122-138 | every valid date is the date of its own day number |
| Calendar.NextMonth | internal/cron/cron.go:131-134 | `time.Date` with month + 1 and day 1 is the first of the next month, also in December |
| Calendar.NextDay | internal/cron/cron.go:135-138 | `time.Date` with day + 1 is the next day, also at the end of a month, of a year and of February |
| Calendar.SameMonth | internal/cron/cron.go:131-134 | the days from one date to the last of its month all lie in that month |
| GoStrings.AsciiSpaces | internal/cron/cron.go:106 | of the ASCII characters a tab, a line feed, a vertical tab, a form feed, a carriage return and a space are white space, and no other |
| GoStrings.FieldsOfWords | internal/cron/cron.go:106 | words separated by any runs of spaces, tabs and line ends are the fields |
| GoStrings.TrimSpaceMeans | brain/plan.go:361 | only white space is cut off, on both sides |
| GoStrings.AtoiReads | internal/cron/cron.go:48 | a number written in decimal notation, signed or not, is read as itself if 64 bits hold it and is refused otherwise |
| GoStrings.AtoiRefuses | internal/cron/cron.go:48 | nothing is read that is not digits behind an optional sign |
| CronField.AcceptsTheGrammar | internal/cron/cron.go:37-100 | the validation accepts a part if and only if it is written by the grammar of terms and its numbers lie in the limits |
| CronField.FillLoop | internal/cron/cron.go:173-175 | a loop that ends, after wrapping any number of times or not at all, adds exactly the values it walks through |
| CronField.NextIteration | internal/cron/cron.go:173-175 | one iteration of a loop that ends, wrapping or not, brings its end nearer |
| CronField.EndsSoon | internal/cron/cron.go:173-175 | loops that stop before they overflow end, and so do loops up to 59 that overflow |
| CronField.ParseField | internal/cron/cron.go:150-216 | the set read is the union over the parts, or the whole field when that is empty |
| CronField.WalkVisits | internal/cron/cron.go:173-175 | without overflow the loop visits exactly the values a whole number of steps from the first |
| CronField.WalkOverflows | internal/cron/cron.go:173-175 | a step that overflows puts a negative number into the set |
| CronField.AcceptedFieldEnds | internal/cron/cron.go:37-73 | every loop that an accepted field starts comes to an end |
| CronField.AcceptedIsNonEmpty | internal/cron/cron.go:208-213 | an accepted field never falls back to all values |
| CronField.ParsedExactly | internal/cron/cron.go:150-216 | an accepted field is read as exactly its denoted set, within its limits, if and only if no step overflows |
| CronField.OverflowExample | internal/cron/cron.go:155-176 | `59/9223372036854775807` passes validation and is not read as the set it denotes |
| Cron.ValidatedParses | internal/cron/cron.go:20-34 | `NextTime` can parse whatever `Validate` accepts |
| Cron.ScanIsLeast | internal/cron/cron.go:102-104 | looking at every minute finds the least matching one below the limit, and fails only if there is none |
| Cron.MonthJumpSkips | internal/cron/cron.go:131-134 | no minute that the jump to the next month passes over can match |
| Cron.DayJumpSkips | internal/cron/cron.go:135-138 | no minute that the jump to the next day passes over can match |
| Cron.HourJumpSkips | internal/cron/cron.go:139-142 | no minute that the jump to the next hour passes over can match |
| Cron.CandidateSkips | internal/cron/cron.go:121-144 | one round of the loop moves forward and does not change what the minute scan finds |
| Cron.Search | internal/cron/cron.go:121-144 | the loop with its jumps ends and finds what the minute-by-minute scan finds |
| Cron.NextTime | internal/cron/cron.go:105-147 | the method computes the next firing of the expression |
| Cron.NextFiringMeaning | internal/cron/cron.go:102-147 | the result is later than `after`: the least whole minute within 366 days at which all five fields match, or one hour later if there is none or there are not five fields |
| Cron.OneFiring | internal/cron/cron.go:102-147 | no other instant has that meaning |
| CronRules.NextWeekday | internal/cron/cron.go:122-126 | if weekdays agree with the dates of one month, each weekday agrees with the next one, a year later |
| CronRules.WholeWeek | internal/cron/cron.go:122-126 | such weekdays are all seven, if there are any |
| CronRules.PosixDays | internal/cron/cron.go:122-126 | an accepted expression matches on the days of POSIX.1-2017 at all instants if and only if its day of week is `*`, or its month and day of month are, or all three sets are full |
| CronRules.EitherDays | internal/cron/cron.go:122-126 | and on those of the usual rule if and only if a day field starts with `*`, or all weekdays and all days of its months are listed |
| CronRules.FirstOrMonday | internal/cron/cron.go:122-126 | `0 0 1 * 1` passes over Monday 8 January of year 1, which both rules include |
| CronRules.OnWeekday | internal/cron/cron.go:117-119 | every date, 29 February too, falls on every weekday in some year |
| CronRules.HourLater | internal/cron/cron.go:102-104 | the result is one hour later at all times if and only if there are not five fields or nothing can ever match |
| CronRules.MalformedFiresEveryMinute | internal/cron/cron.go:208-213 | five unreadable fields give the next minute, not one hour later |
| CronLimit.ResultMatches | internal/cron/cron.go:121-146 | the result matches if and only if some whole minute within the limit does |
| CronLimit.ComesInAYear | internal/cron/cron.go:117-119 | a date that common years have comes within 366 days of any instant, at any hour and minute |
| CronLimit.NeverTooFar | internal/cron/cron.go:119-146 | with all weekdays listed, an accepted expression is answered with a matching instant at all times if and only if a month and a day in its sets exist in a common year |
| CronLimit.FridaysApart | internal/cron/cron.go:117-119 | in the 366 days from 13 August 1999 no other 13th is a Friday |
| CronLimit.FridayThe13th | internal/cron/cron.go:119-146 | `0 0 13 * 5` asked at midnight of that day gives one o'clock, which does not match |
| Scheduler.Site.InitializeNextRun | brain/scheduler.go:70-116 | exactly the enabled tasks without a next run and with a schedule get one, in whatever order they are listed |
| Scheduler.Site.Dispatch | brain/scheduler.go:164-215 | one due task: a run row, a command unless it is lost, the next run, or disabling without a schedule |
| Scheduler.Site.CheckDueTasks | brain/scheduler.go:131-217 | the due tasks are dispatched, each once, in an order that is left open |
| Scheduler.Site.FinalizeTaskRun | brain/pipeline.go:925-940 | the run row and the counter of its task are updated together; ids that are not positive change nothing of theirs |
| Scheduler.ComputeNextRun | brain/scheduler.go:197-202 | the cron expression comes first, then a positive interval, else there is no next run |
| Scheduler.NextRunMeans | brain/scheduler.go:197-202 | a cron task runs next when its expression fires next after now: at the least whole minute within the limit that matches, or one hour later; an interval task after its interval, exactly up to 9223372036 seconds and less whole turns of 64 bits beyond |
| Scheduler.CheckReschedules | brain/scheduler.go:131-215 | after a check every task that was enabled and due is marked as run now and has the time it runs next, or is disabled if it has no schedule; every other task is as it was |
| Scheduler.StartupSchedules | brain/scheduler.go:70-116 | after startup every enabled task with a schedule and no time to run has the time it runs next; every other task is as it was |
| Scheduler.CheckSends | brain/scheduler.go:164-193 | a check adds one run row for each task listed, in their order, and the worker gets the commands of those that are not lost |
| Scheduler.DispatchedAt | brain/scheduler.go:195-215 | a check reschedules exactly the tasks it lists, each once, and leaves the others alone |
| Scheduler.OneRunEach | brain/scheduler.go:164-175 | a check adds one run row for each task it lists and none for any other |
| Scheduler.DueAfterCheck | brain/scheduler.go:131-217 | a task is due right after a check if and only if it was due and its interval wraps to the past |
| Scheduler.WrapsBackExample | brain/scheduler.go:201 | an interval of 9223372037 seconds wraps to the past |
| Scheduler.CheckKeeps | brain/scheduler.go:131-217 | a check keeps the agreement of every task row with its runs |
| Scheduler.StatusChanged | brain/pipeline.go:925-940 | changing the status of one run moves exactly one count and no start time |
| Scheduler.FinishWrites | brain/pipeline.go:925-940 | finishing a run writes its status and one counter of its task, and nothing else |
| Scheduler.FinishKeeps | brain/pipeline.go:925-940 | finishing a run keeps that agreement |
| Scheduler.RunKeeps | brain/scheduler.go:131-217 | over any sequence of checks, startups, finished and abandoned runs, toggles and new tasks, no run starts before its schedule allows after the previous one, and last run, next run and counters agree with the run rows |
| Scheduler.RunsAreAccountedFor | brain/pipeline.go:925-940 | run_count is the number of completed runs, error_count of those that failed in the worker, and every other run was not delivered or has not ended; error_count is the number of runs stored as failed if and only if none was undelivered |
| Scheduler.LostCommand | brain/scheduler.go:184-193 | one lost command leaves a run stored as failed and error_count 0 |
| Scheduler.IntervalsAreKept | brain/scheduler.go:200-202 | the runs of an interval task start at least its interval apart in all runs of the system if and only if the interval is at most 9223372036 seconds |
| JsonRepair.ScanBrackets | brain/plan.go:367-399 | the loop computes the open brackets and whether the text ends inside a string |
| JsonRepair.CutDangling | brain/plan.go:405-426 | the cut back to the last complete value, with the trims and the dangling key |
| JsonRepair.AppendClosers | brain/plan.go:463-470 | the open brackets are closed in reverse order |
| JsonRepair.RepairTruncatedJson | brain/plan.go:360-473 | the method computes the repair |
| JsonRepair.CutAtQuote | brain/plan.go:406-408 | the last quote of a text that ends inside a string opened it, or is escaped |
| JsonRepair.CutKeepsBrackets | brain/plan.go:405-426 | the cut keeps the open brackets, and ends outside every string unless it lands on an escaped quote |
| JsonRepair.RunDoc | brain/plan.go:367-399 | a document of the grammar leaves the scanner as it found it |
| JsonRepair.PrefixCompletes | brain/plan.go:463-470 | every prefix of a document that ends outside strings becomes a document when its open brackets are closed |
| JsonRepair.BracketedPrefix | brain/plan.go:401-403 | a prefix of one bracketed text has nothing open only if it is the whole text |
| JsonRepair.RepairShape | brain/plan.go:360-473 | the result is the trimmed input, or a prefix of it followed by closing brackets only |
| JsonRepair.RepairCompletes | brain/plan.go:360-473 | for every prefix of a bracketed text the repair is a bracketed text with its strings closed, if and only if the cut does not land on an escaped quote |
| JsonRepair.RepairIdempotent | brain/plan.go:360-473 | repairing twice is repairing once, for any text, if and only if the cut does not land on an escaped quote |
| JsonRepair.RepairKeepsBalanced | brain/plan.go:401-403 | a bracketed text is returned unchanged |
| JsonRepair.NoEscapedQuotes | brain/plan.go:407-416 | without a backslash in front of a quote the cut never lands on an escaped one |
| JsonRepair.EscapedQuoteExample | brain/plan.go:407 | a text cut off behind an escaped quote that comes back with its string open |
| JsonText.ReaderAgrees | brain/plan.go:367-399 | until a text leaves RFC 8259 the scanner has the open brackets of the grammar, and is in a string, and behind a backslash, exactly where the grammar is |
| JsonText.ClosedRead | brain/plan.go:463-470 | closing the open brackets gives a whole text if and only if a value ends there, or an array or object has just begun |
| JsonText.StringCutReady | brain/plan.go:406-423 | a beginning that breaks off inside a string is cut to such a place, unless the cut lands on an escaped quote |
| JsonText.RepairsToJson | brain/plan.go:360-473 | for every beginning of every JSON text, if it starts with a bracket: the repair is a JSON text if and only if nothing was open; or it broke off inside a string and the cut does not land on an escaped quote; or elsewhere, and trimmed it ends neither behind a name nor within a word or number |
| JsonText.NameLeft | brain/plan.go:424-426 | `{"a":` begins a JSON text and is repaired to `{"a"}`, which is none |
| PlanPatch.Plan.RemovePage | brain/plan.go:184-191 | the first page at the path is dropped in place |
| PlanPatch.Plan.ReplacePage | brain/plan.go:194-201 | the first page at the path is replaced in place |
| PlanPatch.Plan.EditPages | brain/plan.go:184-201 | all removals happen before all replacements |
| PlanPatch.Plan.ApplyPatch | brain/plan.go:170-246 | the new value of every field; writing to a nil colour map panics, and then the design is the only field not yet patched |
| PlanPatch.Plan.MergeDesign | brain/plan.go:219-245 | colours and components are merged entry by entry, blank settings are kept; a write to a nil colour map panics |
| PlanPatch.Merge | brain/plan.go:223-225 | writing the entries one by one merges the maps, in whatever order they are walked |
| PlanPatch.Plan.ValidatePlan | brain/plan.go:526-601 | no error is reported if and only if the plan is valid |
| PlanPatch.CheckTable | brain/plan.go:578-598 | a table is reported if and only if it has no name, a repeated column, or columns of the system only |
| PlanPatch.RemovedInOrder | brain/plan.go:184-191 | with distinct paths the removals leave the surviving pages in order |
| PlanPatch.ReplacedInOrder | brain/plan.go:194-201 | each page becomes its last replacement, in its place |
| PlanPatch.PagesAfterPatch | brain/plan.go:184-204 | the surviving pages in order, each as last replaced, and then the added pages |
| PlanPatch.FieldsAfterPatch | brain/plan.go:170-246 | every other field of the patched plan: what is appended, replaced if given, and merged entry by entry, and which new endpoints the exclusions keep out |
| PlanPatch.ValidPlans | brain/plan.go:526-601 | what a plan without errors is, condition by condition |
| PlanPatch.PatchKeepsValid | brain/plan.go:170-246 | on a plan without errors a patch never writes to a nil map, and the patched plan has no errors if and only if the patch fits |
| PlanPatch.HomePageExample | brain/plan.go:546-548 | removing the home page without adding one leaves a plan that does not pass |
| RateLimiter.RateLimiter.SweepStale | server/middleware/ratelimit.go:50-57 | exactly the buckets unused for more than two minutes are dropped |
| RateLimiter.RateLimiter.AllowRequest | server/middleware/ratelimit.go:43-79 | the new state and the answer of one request |
| RateLimiter.AllowMeans | server/middleware/ratelimit.go:43-79 | one request spelt out: when a sweep is due, what it forgets, the tokens its address has, the answer, and what is left |
| RateLimiter.ReachableSound | server/middleware/ratelimit.go:59-78 | after any run of requests every stored bucket holds between 0 and burst tokens |
| RateLimiter.SweepAgrees | server/middleware/ratelimit.go:50-57 | under the condition a sweep keeps the agreement with the limiter that never forgets |
| RateLimiter.AdmittedIsPaid | server/middleware/ratelimit.go:66-77 | admitted requests are paid for by the level at the start and the refill since |
| RateLimiter.FullAdmits | server/middleware/ratelimit.go:59-78 | without sweeping a request is admitted if and only if every window that ends with it stays within burst + rate * duration |
| RateLimiter.SweepingIsUnobservable | server/middleware/ratelimit.go:43-79 | for every run at non-decreasing times the answers equal those of a limiter that never forgets, if and only if a bucket refills before it may be swept |
| RateLimiter.WindowsAreBounded | server/middleware/ratelimit.go:43-79 | every window of every run admits at most burst + rate * duration for one address, under the same condition and only then |
| RateLimiter.NothingRefusedWithoutNeed | server/middleware/ratelimit.go:43-79 | in every run of the limiter itself exactly those requests are admitted, so its answers are determined by the windows alone, under the same condition and only then |
| RateLimiter.BurstsBreakTheWindow | server/middleware/ratelimit.go:51-56 | without the condition two full bursts get through within a pause too short to refill |
| RateLimiter.ConfiguredLimits | config/defaults.go:14-15 | both configured limiters (this one and server/admin/routes.go:69) meet the condition |
| Pipeline.CommandLeaves | brain/pipeline.go:380-459 | the row and the state that each command leaves, field by field |
| Pipeline.Worker.RunPlan | brain/stages.go:67-185 | which writes a planning run makes and how it ends, for every outcome |
| Pipeline.Worker.RunUpdatePlan | brain/stages.go:253-319 | the update request is cleared before the plan is stored, and a panic may come before, between or after the two; without a stored plan nothing is written |
| Pipeline.Worker.RunBuild | brain/stages.go:187-231 | a build leads to COMPLETE exactly when it works, and its stored plan is there to load |
| Pipeline.Worker.RunStage | brain/pipeline.go:227-263 | a stage leads only to the stage that follows it, the rows it writes still name it, and an approval asked for meanwhile sets the pause in any stage |
| Pipeline.Worker.RunOnce | brain/pipeline.go:265-334 | a run advances exactly when it works; a pause is due to the stage, an approval asked for meanwhile, a permanent error or the third failure; a retry counts one error |
| Pipeline.Worker.RunStages | brain/pipeline.go:208-335 | the loop ends in monitoring, in a recorded pause or cancelled, after at most three runs of each stage left, stages only going forward; UPDATE_PLAN without a plan never advances |
| Pipeline.Worker.HandleCommand | brain/pipeline.go:380-459 | the row, the state and the wake context after each command |
| Pipeline.Worker.MonitoringTick | brain/stages.go:323-368 | a healthy tick only counts; one with recent errors may set the approval pause |
| Pipeline.Worker.RunMonitoringLoop | brain/pipeline.go:339-357 | commands, ticks and approvals handled while monitoring run no stage |
| Pipeline.Worker.RunPausedLoop | brain/pipeline.go:359-377 | the history stays sound; a stage runs if and only if the wakeups lead to a row that is not paused and not in monitoring, and the worker is not stopped then; the first to run is the one that row names |
| Pipeline.Worker.RunBuildPipeline | brain/pipeline.go:193-335 | the same from loading the row on, where a paused row leads into the pause |
| Pipeline.PauseEnds | brain/pipeline.go:359-377 | wakeups lead from a pause to the stages if and only if, with no change to monitoring before it, there is a wake, a change to building, or an update while neither the row nor an approval asked for before pauses it |
| Pipeline.UpdateInPause | brain/pipeline.go:422-436 | an update in a pause enters the stages at UPDATE_PLAN if the row is not paused; if it is, the request waits in the row for the next wakeup |
| Pipeline.Worker.AutoRecover | brain/pipeline.go:147-189 | three recorded errors stop it; otherwise the errors and a failure pause are cleared, an approval pause is kept, and a pause for answers is lifted if and only if no question is pending and the answers can be read |
| Pipeline.ApprovalKept | brain/pipeline.go:147-189 | a worker restarted in building mode while an approval is awaited enters the stages if and only if a wakeup ends the pause |
| Pipeline.Worker.Run | brain/pipeline.go:98-143 | every start keeps the history sound, and which stage it runs first, if any, for every mode and row; without wakeups none while an approval is awaited, and in building mode the stage of a row with fewer than three errors that is not paused or was paused by a failure |
| Pipeline.Lives | brain/pipeline.go:98-189 | over any number of lives, each ended by a crash after any write and restarted from the row left behind, every persisted row at BUILD, COMPLETE or MONITORING has a plan, and rows follow one another only by progress, reset or update |
| Pipeline.RanAgain | brain/pipeline.go:295-296 | one more run of a stage keeps the bound of three per stage |
| Pipeline.RanOn | brain/pipeline.go:333-334 | advancing keeps the bound over all stages |
| ToolLoop.CallWithRetry | brain/pipeline.go:486-530 | at most three requests, stopping at the first that is answered or cannot be retried |
| ToolLoop.ExecuteToolCalls | brain/pipeline.go:606-705 | one tool message for each call, in order, with its id, whatever the call comes to, and with what the tool returned if it ran |
| ToolLoop.RoundShape | brain/pipeline.go:576-598 | a round adds the assistant message with its text and calls, and then the result of each call under its id, or the prompt to go on |
| ToolLoop.PairedAppend | brain/pipeline.go:596-597 | joining two well-paired transcripts gives a well-paired one |
| ToolLoop.PairedAt | brain/pipeline.go:596-598 | in a well-paired transcript each assistant message with k calls is followed by exactly k tool messages with the same ids in order |
| ToolLoop.TranscriptShape | brain/pipeline.go:540-600 | a transcript built round by round is well paired and extends its start; its tool messages and continuation prompts are those the rounds count |
| ToolLoop.Ask | brain/pipeline.go:543-594 | when a call stops the loop and when it goes on, with the continuation counted |
| ToolLoop.RunToolLoop | brain/pipeline.go:534-602 | at every model call the transcript is well paired; totalToolCalls counts the tool messages added; at most maxIter calls and at most two continuation prompts; each round rests on a reply and on what its tools returned, and the ending on the last reply |
| SiteCache.StepInv | db/sitedb.go:79-181 | every step of every thread keeps the lock, cache, handle and log invariants |
| SiteCache.RunInv | db/sitedb.go:79-181 | so does every interleaving |
| SiteCache.OneUnclosedHandle | db/sitedb.go:79-181 | in every interleaving a site has at most one unclosed handle |
| SiteCache.CacheIsExact | db/sitedb.go:130-181 | while nobody holds the write lock the cache holds exactly the unclosed handles, and they are usable |
| SiteCache.GotIsUsable | db/sitedb.go:79-103 | a handle is usable when it is given out |
| SiteCache.SameHandle | db/sitedb.go:79-181 | two handles given out for a site with no close, delete or close-all between them are the same |
| SiteCache.Opens | db/sitedb.go:79-125 | `Open` and `Create` of a site that is not cached, when nobody is in the way and everything opens, give out one new handle with both pools open and cache it; nothing else has changed |
| SiteCache.GivesCached | db/sitedb.go:79-169 | `Open`, `Create` and `Get` of a cached site give out its handle, and nothing else has changed |
| SiteCache.OpeningFails | db/sitedb.go:195-236 | an opening that fails, before, between or after the two pools, gives nothing out, caches nothing, and closes what it opened |
| SiteCache.NothingThere | db/sitedb.go:130-169 | without a cached handle `Get` gives nothing out, and `Close` and `Delete` close nothing |
| SiteCache.Closes | db/sitedb.go:130-161 | `Close` and `Delete` of a cached site close both pools of its handle and drop it |
| SiteCache.ClosesAll | db/sitedb.go:171-181 | `CloseAll` closes the handle of every cached site, changes no other, and empties the cache |
| SiteCache.SomeoneMoves | db/sitedb.go:80-89 | while a call is under way some thread can take a step: no deadlock |
| AnthropicStream.ParseSSEStream | llm/anthropic/client.go:377-477 | the chunks and the result for any lines, as a function of the events they carry |
| AnthropicStream.ParseResponse | llm/anthropic/client.go:335-362 | the text and the ordered calls of a whole reply |
| AnthropicStream.EndsOnce | llm/anthropic/client.go:399-476 | on any stream the end or an error is reported at most once, and last |
| AnthropicStream.BlockFed | llm/anthropic/client.go:409-440 | however a block is cut into fragments, it delivers its text, or its call with the fragments joined |
| AnthropicStream.DeliveredIsWhole | llm/anthropic/client.go:335-362 | what is delivered equals the whole reply if and only if no block is lossy |
| AnthropicStream.StreamAgrees | llm/anthropic/client.go:377-477 | a reply cut in any way and ended by message_stop is delivered as `parseResponse` reads it if and only if no block starts with text of its own and no call has empty arguments; one Done chunk, which comes last |
| AnthropicStream.LinesHeard | llm/anthropic/client.go:385-407 | from the lines on: what the parser makes of them is what it makes of the values their payloads decode to, with [DONE] as an end, whatever blank lines, comments, other fields and undecodable payloads stand between |
| AnthropicStream.LinesAgree | llm/anthropic/client.go:377-477 | so the lines of a reply, cut in any way, deliver it as `parseResponse` reads it if and only if no block is lossy |
| AnthropicStream.UsageTold | llm/anthropic/client.go:441-457 | at the end the usage last given is told, or none if none was |
| AnthropicStream.ProblemTold | llm/anthropic/client.go:459-465 | an error event ends the stream with its message, behind what was delivered until then |
| AnthropicStream.OpeningTextLost | llm/anthropic/client.go:410-417 | a reply of one block that starts with its text is delivered without it |
| AnthropicStream.EmptyInputFilled | llm/anthropic/client.go:431-437 | a call with empty input is delivered with `{}` |
| AnthropicStream.CutIsBeginning | llm/anthropic/client.go:468-476 | a stream cut off anywhere delivers a beginning of what the whole stream delivers |
| EventStream.OneLineDispatch | llm/anthropic/client.go:385-398 | when each event has one data line, the events the standard dispatches are the values of the data lines |
| EventStream.ClientsReadData | llm/anthropic/client.go:393-398 | where a client takes a line, it takes the value the standard gives |
| EventStream.SameEvents | llm/openai/client.go:373-384 | what the clients take means the same as what the standard gives if and only if every data field without the space means nothing |
| EventStream.HearsTheStandard | llm/anthropic/client.go:385-398 | for any lines and any reading of payloads, a client hears the events of the standard if and only if no data field without the space carries anything |
| AnthropicStream.HearsTheStandard | llm/anthropic/client.go:393-407 | so it is with this parser and any decoder |
| AnthropicStream.MissedDone | llm/anthropic/client.go:393-402 | of `data:[DONE]` the standard makes the end of the stream and the parser nothing |
| AnthropicStream.MeaningIsEnough | llm/anthropic/client.go:404-407 | events that carry nothing do not change what is delivered |
| OpenAIStream.HearsTheStandard | llm/openai/client.go:380-403 | and with this one |
| OpenAIStream.MissedDone | llm/openai/client.go:380-398 | of `data:[DONE]` the standard makes the end of the stream and this parser nothing too |
| OpenAIStream.Flush | llm/openai/client.go:385-396 | every partial call is handed over once, in whatever order the map is walked |
| OpenAIStream.TakeFragments | llm/openai/client.go:427-448 | the keys of the two maps stay 0 to n-1, and a fragment without an id goes to the last call |
| OpenAIStream.ParseSSEStream | llm/openai/client.go:364-477 | the chunks and the result for any lines, given the walks taken |
| OpenAIStream.WalkDeliversAll | llm/openai/client.go:384-396 | a walk over all keys hands over every call completed, as a multiset |
| OpenAIStream.HandedOver | llm/openai/client.go:426-466 | at any point, in any stream, the calls handed over were delivered completed, each once, and the collected ones that were not are still open |
| OpenAIStream.TogetherRebuilds | llm/openai/client.go:451-466 | when pieces stand together, nothing is lost by handing over on the way |
| OpenAIStream.EventsWeighed | llm/openai/client.go:426-466 | a piece that goes astray goes to a later call or to none, so weighed by place the calls collected never exceed those asked for, and match them only if every piece is straight |
| OpenAIStream.CollectedByIndex | llm/openai/client.go:273-277 | the arguments collected for every call are those its index asks for if and only if every continuing piece continues the call started last, before that is handed over |
| OpenAIStream.DeliveredByIndex | llm/openai/client.go:364-477 | so a stream that ends with [DONE] delivers what the indices ask for if every continuing piece is straight, and only if, for calls with different ids of which none has the arguments `{}` |
| OpenAIStream.DeliveredRight | llm/openai/client.go:385-396 | for calls with different ids it does so if and only if every call collected what is meant for it, or both are empty or `{}`; a stray piece goes unnoticed only where the whole `{}` of a call has strayed |
| OpenAIStream.Alternating | llm/openai/client.go:439-446 | a piece for the first of two open calls goes to the second |
| OpenAIStream.AlternatingEmptyObject | llm/openai/client.go:389-391 | with `{}` for that piece the calls delivered are right all the same |
| OpenAIStream.OutOfOrder | llm/openai/client.go:387-396 | if some walk meets two different calls, walks exist that deliver them in another order |
| OpenAIStream.OrderIsKept | llm/openai/client.go:387-396 | every walk delivers the calls in the order they were started if and only if no walk meets two different calls |
| OpenAIStream.EitherOrder | llm/openai/client.go:387-396 | two open calls can be delivered in either order |
| OpenAIStream.CutsRebuild | llm/openai/client.go:427-448 | fragments that directly follow their id chunk rebuild the calls |
| OpenAIStream.CallsDeliveredOnce | llm/openai/client.go:364-477 | a stream that ends with [DONE] delivers every call once with its fragments joined, also after finish_reason tool_calls; these are the calls of the whole reply if and only if none has empty arguments |
| OpenAIStream.NothingLost | llm/openai/client.go:364-477 | of any stream, with or without [DONE], every call collected is delivered completed, each once, if and only if none has been started behind the last event that hands calls over |
| OpenAIStream.LinesDelivered | llm/openai/client.go:364-477 | from the lines on: of messages that decode, with blank lines, comments, other fields and undecodable payloads between them, a stream that ends with [DONE] delivers exactly their texts, every call collected of their pieces once, and at the end the usage last given |
| OpenAIStream.ReplyDelivered | llm/openai/client.go:364-477 | so the lines of a reply whose calls come in pieces, each behind the one before, deliver all of it |
| OpenAIStream.LinesCutOff | llm/openai/client.go:426-477 | without [DONE] they deliver the texts, and all calls if the last message says tool_calls, none if no message does; the end is told unless the reader failed |
| OpenAIStream.LostWithoutDone | llm/openai/client.go:470-476 | a stream that ends without [DONE] and without tool_calls delivers none of its calls |
| VersionLog.StoredFile.Save | tools/storage.go:282-372 | what a save does to content, type and versions, and when it fails |
| VersionLog.StoredFile.Patch | tools/storage.go:427-531 | the version recorded before the patches, their result, and the error when none matches |
| VersionLog.StoredFile.Rollback | tools/storage.go:835-896 | the version recorded before the content is restored |
| VersionLog.StoredFile.Delete | tools/storage.go:672-711 | the file goes and its versions stay |
| VersionLog.VersionsAreAWindow | tools/storage.go:340-361 | after any sequence of operations the numbers kept are contiguous up to the number of contents recorded, and version v holds the v-th content recorded |
| VersionLog.LastTenAreKept | tools/storage.go:355-358 | the highest number never falls, and the last ten contents recorded can be restored |
| VersionLog.SavesPrune | tools/storage.go:353-359 | a save leaves at most ten versions if and only if it records one, or there were at most ten before |
| VersionLog.OverwrittenIsKept | tools/storage.go:328-361 | an overwritten content becomes the newest version, unless the file is deleted, or saved as binary or without a row |
| VersionLog.SaveLeaves | tools/storage.go:316-371 | the content and type a save leaves, and which types are recorded, spelt out |
| VersionLog.ReplacedByParts | tools/storage.go:509 | replacing joins the parts between the leftmost occurrences of the search text with the replacement |
| VersionLog.PartsOf | tools/storage.go:509 | every text has such parts |
| VersionLog.SingleCharacter | tools/storage.go:509 | for a single character they are the parts without it |
| VersionLog.ApplyMeans | tools/storage.go:498-512 | the patches work one after the other, each replacing every leftmost occurrence in what the one before it left, and it is known whether some matched and some did not |
| VersionLog.PatchStores | tools/storage.go:498-531 | what is stored is the text behind the last patch |
| VersionLog.OnePatch | tools/storage.go:498-531 | one patch that occurs stores the parts joined by its replacement |
| VersionLog.MissedPatch | tools/storage.go:485-512 | a patch that matches nothing fails, leaves the content alone and still records a version |
| VersionLog.RollbackUndone | tools/storage.go:854-896 | rolling back to the version a rollback recorded restores the content, and the content type if and only if the types agree |
| VersionLog.TypeLost | tools/storage.go:854-896 | under an unknown extension three saves, a rollback and its undoing leave the last content under another type |
| VersionLog.KnownTypesAgree | tools/storage.go:316-322 | under a known extension all types agree |
| FtsIndex.DataTable.InsertRow | tools/tables.go:346-356 | the insert trigger keeps the index equal to the one rebuilt from the rows; a row is stored exactly when it names something, its columns are known, its id is free and nothing else rejects it |
| FtsIndex.DataTable.UpdateRow | tools/tables.go:368-382 | so does the update trigger, also when the id changes |
| FtsIndex.DataTable.DeleteRow | tools/tables.go:357-367 | so does the delete trigger |
| FtsIndex.DataTable.InsertBulk | tools/tables.go:946-1010 | a bulk insert stores all its rows, or any failure leaves table and index as they were |
| FtsIndex.DataTable.Perform | tools/tables.go:324-383 | over any sequence of operations the index stays the one rebuilt from the rows |
| FtsIndex.RebuiltRemoved | tools/tables.go:357-367 | the entry that a 'delete' command names is in the index, and taking it out gives the index of the remaining rows |
| FtsIndex.RebuiltMeans | tools/tables.go:330-337 | the index holds one entry for each row, with its current text, and no other |
| WhereClause.BuildWhereClause | tools/tables.go:105-142 | the clause and the values for valid filters, and an error otherwise |
| WhereClause.ColumnNames | tools/tables.go:22 | a column name is a letter followed by letters, digits and underscores, all of ASCII |
| WhereClause.Operators | tools/tables.go:96-100 | the ten operators |
| WhereClause.FilterRead | tools/tables.go:119-137 | an operator may be typed in any case and with white space around it, and then means the same |
| WhereClause.ClausesAreWords | tools/tables.go:141 | the rendered clause is its words with single spaces between them |
| WhereClause.ReadBack | tools/tables.go:105-142 | reading the clause back, with its `?` and AND in place, gives the normalised filters in order, each with its own value |
| WhereClause.PlacesMatchParams | tools/tables.go:131-138 | the clause has as many `?` as there are values |

## Left out

- Pipeline.Worker.RunBuildPipeline: every database write is taken to succeed or the process to die, so the retry after a failed AdvanceStage, unknown stage names and rows that cannot be loaded are not modelled.
- Pipeline.Worker.RunOnce: an approval that the owner's chat asks for after a failed stage was looked at and before the row is written again is not modelled; one asked for while the stage runs is.
- Pipeline.Lives: one worker at a time; an old worker that still runs while a new one starts, and the `mode` column in the second database, are not modelled.
- ToolLoop.RunToolLoop: token sums, saved chat messages and published events are left out; the texts of tool errors stand for the formatted ones, and a tool's result is the text after truncation.
- Scheduler.RunKeeps: edits of a task's schedule and deletions are left out; instants are compared as instants and not as the texts SQLite stores.
- Cron.NextTime: UTC only; zones with daylight saving or part-hour offsets are not modelled.
- CronField.ParseField: a field whose step loop never ends is excluded by the precondition, since the code does not return either; accepted fields never have one.
- RateLimiter.WindowsAreBounded: reals stand for float64, so rounding is not modelled; buckets are values in a map instead of pointers.
- JsonRepair.RepairTruncatedJson: strings are sequences of characters where Go indexes bytes; all characters the code looks for are single bytes.
- JsonText.RepairsToJson: texts that are not the beginning of a JSON text are outside the statement; the two clean-ups that run before the repair, of comment lines and of trailing commas, are not modelled.
- AnthropicStream.StreamAgrees: JSON decoding is a parameter; a line too long for the scanner counts as a reader that fails there.
- OpenAIStream.DeliveredByIndex: a continuing piece with the index of no call, for which there is nothing to compare with, is outside the statement; the code gives it to the last open call.
- VersionLog.VersionsAreAWindow: renaming is left out, since versions keep the old name; base64 decoding is a parameter.
- EventStream.OneLineDispatch: events of several data lines, which the standard joins, are outside the comparison; the clients decode each line by itself.
- FtsIndex.DataTable.Perform: column names are compared exactly where SQLite ignores case; values of secure columns are the ones already hashed or encrypted; tokenising and ranking, recreating a table, and indexing a table that already has rows are left out.
- HTTP handlers, routing, authentication, cryptography, prompts, e-mail, payments, webhooks, the event bus and the admin interface: input, output and formatting without a deep property of their own.
