# Verified model of the assistant's control logic

The program is a personal assistant that lets a language model call tools, runs recurring jobs and
reminders, keeps an index of its runs, and digests Telegram channels. This project models the parts that
decide what happens next and proves what they keep over every run, every file and every input.

* **Agent loop** (`AgentHistory`, `AgentLoop`, `AgentSafety`, `AgentExample`). `AgentLoop.Run` is the loop with its fifteen
  counters, sets and maps, one step at a time, against an arbitrary model, arbitrary tools and an arbitrary
  clock (streams). `AgentHistory` says what each step should do as a function of the executed calls and
  recorded statuses alone, with no counter. `Run` is proved to follow that history exactly, and the
  properties of `AgentSafety` are proved of every history, so they hold of every run.
* **Reminders and jobs** (`Reminders`, `ReminderLife`, `ScheduledJobs`, `Scheduler`, `TenantTasks`). The calendar arithmetic
  of one reminder, its life over any sequence of ticks, the interval and hour window of jobs, and the runner
  object whose records, loaded tasks and configuration change on each tick. The completion callback edits the
  configuration only; the runner sees that at its next reload.
* **Run index** (`IndexLines`, `RunRepository`). The backward chunked reader against "split the whole file,
  drop blank lines, reverse", paging against slicing, and what one save adds.
* **Model fallback and statistics** (`LlmFallback`, `ModelStats`). The nested retry loops against a plan of
  attempts, the suppression timer, and two ledgers that agree.
* **Message chunker** (`MessageChunker`), **unread digest** (`UnreadDigest`), **topic lines** (`TopicLines`),
  **schedule file** (`ScheduleFile`) and **routing** (`Routing`).

The proofs compose where the program does: `Run` with `AgentSafety`; `RunTicks` with the lives of
`ReminderLife` and `ScheduledJobs`; listing with the backward reader; `Complete` with the statistics; routing
with the agent loop. That no two loaded tasks share a key, which `TickOnce` needs, is what
`TenantTasks.TasksHaveUniqueKeys` gives for normalised files.

## What the code does not do

Some expectations are false of the code. For each, a lemma or contract says exactly when it holds.

* With tools enabled a limit of two or more blocked calls is never reached: `BlockedLimitOnlyAtOne`.
* A run also ends as a final answer without passing any gate, after too many unreadable steps: `FinalGate`,
  and a run that does so with a required tool in `EndsWithoutRequiredTool`.
* The gate for rejected arguments remembers only the tool rejected last, so a final answer may be accepted
  with an earlier rejection uncorrected: `ForgottenIff`, and a run that does so in `RejectionForgotten`.
* Removing a spent reminder does not by itself keep its budget, because its record goes too; a
  configuration that still lists it starts it over: `StaleConfigurationRefires`.
* An index line saved after an unfinished one is fused with it: `AppendedLineIsNewest`.
* The end of the cooldown does not bring the primary model back. A caller that prefers the model that
  answered last tries the primary only while the timer runs, behind all fallbacks: `ReturnsOnlyUnderTimer`,
  and a run past the cooldown in `CooldownOverYetNotTried`.
* A post behind twenty others of its page is not returned, and as shown it is never returned later:
  `ReturnedIff`, `FetchUnread`.
* A topic configuration holding U+0085, U+2028 or U+2029 is broken up by the file: `UpsertIsUpdateIff`, and
  such a configuration in `SeparatorIsLost`.
* A saved task is lost on reload when a task of the other kind, or one stored with blanks around its id, keeps
  its id taken: `UpdatedTaskIsHeldOnce`, and such a file in `UpdateIsLost`.
* The schedule tool that routing forces may outlive the skill that calls for it, which is cut off later:
  `ForcedToolKeepsItsSkillIff`, and a plan over the program's own skills in `ForcedToolOutlivesSkill`.
* A plan naming an unknown required tool is refused even when it disallows tools: `ValidationMeaning`.
* The record returned by a reminder update carries the current time as its creation time, while the stored
  one keeps an earlier time: the contract of `AddOrUpdate`.

Routing does not look up the tools that it forces or derives from the skills. This does no harm with the
registry that the program builds: `SafeRegistryIff`, `ProgramRegistryIsSafe`.

## Model

| member | source | states |
|---|---|---|
| AgentLoop.Run | app/runtime/agentLoop.py:52-671 | The loop terminates against any model, tools and clock at the first step at which a limit or a verdict of the history ends it, with the traces, executed calls, accepted memory and model answers of that history; calls counted equal tool executions, plus one exactly after a detected loop, and stay in budget; all of `SafeRun` holds, with the limits of steps, calls and time |
| AgentLoop.AskModel | app/runtime/agentLoop.py:124-165 | One request and repairs until an answer parses or the repairs run out consume exactly the answers the history assigns to the step, and count their model errors once |
| AgentLoop.OnParseFailure | app/runtime/agentLoop.py:183-215 | An unreadable step is recorded and ends the run exactly at the allowed number of consecutive ones |
| AgentLoop.OnFinal | app/runtime/agentLoop.py:237-296 | A final answer gets the verdict of the two gates over the calls so far, its memory is kept only if accepted, and the second missing-tool block or a debt of two ends the run |
| AgentLoop.OnBlocked | app/runtime/agentLoop.py:305-331 | A blocked call is recorded, resets as the code does, and ends the run exactly when the blocked run reaches its limit |
| AgentLoop.IsRepeatAllowed | app/runtime/agentLoop.py:336-429 | The maps of last results and arguments give the same answer as the repeat rule over the last successful call of that tool in the history |
| AgentLoop.NormalizeEntries | app/runtime/agentLoop.py:396-424 | The trimmed lower-case entries that are not blank, each as often as it occurs |
| AgentLoop.CountSignatureInWindow | app/runtime/agentLoop.py:722-729 | Counts how often a signature occurs in the window |
| AgentLoop.AppendToWindow | app/runtime/agentLoop.py:731-739 | Appending and dropping the oldest leaves the last entries of the whole history of signatures |
| AgentLoop.CheckLoop | app/runtime/agentLoop.py:472-535 | Counts the call and reports a loop exactly when the history shows the signature too often in the window, or three equal signatures or names in a row |
| AgentLoop.BuildDigestAutoRetryArgs | app/runtime/agentLoop.py:1032-1063 | Widened arguments exactly for an empty successful digest filtered by time within less than a week |
| AgentLoop.ExecuteCall | app/runtime/agentLoop.py:536-561 | Executes the call and at most one digest retry, only while budget is left; the count equals the executions behind the log |
| AgentLoop.CountTimeout | app/runtime/agentLoop.py:562-569 | A failed result with the timeout code adds to its tool, any other result resets it: the map tells, for every tool, its timeouts since its last call that did not time out |
| AgentLoop.RememberSuccess | app/runtime/agentLoop.py:570-573 | The set of successful tools and the last result and arguments of each follow the log |
| AgentLoop.BookDebt | app/runtime/agentLoop.py:576-584 | The pending tool and count follow the log |
| AgentLoop.RecordResult | app/runtime/agentLoop.py:562-589 | After booking a result every call counter agrees with the extended log |
| AgentLoop.IsTerminalConfigError | app/runtime/agentLoop.py:699-720 | Recognises exactly the failure of the mail tool for a missing account |
| AgentLoop.JudgeResult | app/runtime/agentLoop.py:631-653 | A configuration error or a second timeout of the tool is recognised as the log says |
| AgentLoop.FinishCall | app/runtime/agentLoop.py:574-655 | An executed call is recorded with the arguments that finally ran; a success of the required tool clears the missing-tool count |
| AgentLoop.OnToolCall | app/runtime/agentLoop.py:304-655 | A requested call is blocked, stops as a loop, or is executed, exactly as the history decides |
| AgentLoop.Step | app/runtime/agentLoop.py:183-655 | A whole step yields the next history, in all branches |
| AgentLoop.DecisionIsPolicy | app/domain/policies/stopPolicy.py:24-68 | The limits evaluated over the loop's counters are those over the history |
| AgentLoop.PolicyLeavesBudget | app/domain/policies/stopPolicy.py:24-68 | While no limit is due, steps and tool calls are left |
| AgentSafety.PolicyIsNoVerdict | app/domain/policies/stopPolicy.py:24-68 | A limit ends the run only for one of its three reasons |
| AgentSafety.LimitsDecide | app/domain/policies/stopPolicy.py:24-68 | Every step of a run starts with steps and calls left and within the seconds allowed plus those earned by model errors and unreadable steps up to their maximum; without a verdict the run ends for the first of these three limits that is reached, and for no limit otherwise |
| AgentSafety.RunIsSafe | app/runtime/agentLoop.py:52-671 | Every ending run is in budget and in time, executed only permitted calls, ends by a limit exactly when that is the first one reached and by the timeout limit exactly behind two timeouts, and ends as a final answer only as the gates allow |
| AgentSafety.HistoryPermitted | app/runtime/agentLoop.py:304-561 | Every executed call, when it was made, was allowed, was no pointless repeat and no loop, and was executed as prescribed |
| AgentSafety.SignatureBound | app/runtime/agentLoop.py:471-589 | Any block of window size plus one consecutive executed calls holds a signature at most the maximum minus one times |
| AgentSafety.NoThreeInARow | app/runtime/agentLoop.py:503-535 | No three consecutive executed calls name the same tool |
| AgentSafety.OkNamesMeaning | app/runtime/agentLoop.py:570-573 | A tool counts as successful exactly when one of its executed calls ended well |
| AgentSafety.NoPointlessRepeat | app/runtime/agentLoop.py:336-469 | After a success only the three tools with a repeat rule ever run again |
| AgentSafety.RepeatMeaning | app/runtime/agentLoop.py:336-429 | A mail or news call may follow a success of its tool if and only if it looks at mails or posts that the success did not (and, for mail, asks for more than came, for news, the success was empty because of its period); after a topic call that fetched, and after any other tool, none may |
| AgentSafety.RepeatLooksFurther | app/runtime/agentLoop.py:336-469 | In every run a mail or news call after a success of its tool looks further than the last success did |
| AgentSafety.UnreadFetchIsLast | app/runtime/agentLoop.py:336-469 | After a successful unread fetch the topic digest never runs again |
| AgentSafety.RetryIsWider | app/runtime/agentLoop.py:543-561 | A digest retry happens only after an empty, time-filtered result and asks for a strictly longer period with all else kept |
| AgentSafety.PendingMeaning | app/runtime/agentLoop.py:570-584 | A tool is pending exactly when the last rejected call has not been followed by a success of its tool; the name is set exactly when the count is positive |
| AgentSafety.PendingCount | app/runtime/agentLoop.py:576-584 | The pending count, which decides when blocked finals end the run, is the number of calls of any tool rejected since the last success that cleared the debt |
| AgentSafety.ForgottenIff | app/runtime/agentLoop.py:238-296 | Without any further rejection, a final answer can come to be accepted over an uncorrected call if and only if its tool is not the pending one and not a required one that has never succeeded |
| AgentSafety.OverwritingForgets | app/runtime/agentLoop.py:576-584 | While a call is pending it cannot be forgotten; one more rejection lets it be forgotten if and only if it is of another tool |
| AgentSafety.FinalCorrectsIff | app/runtime/agentLoop.py:238-296 | Behind an accepted final answer only calls displaced by the rejection of another tool can be uncorrected, and all calls are corrected if these are |
| AgentExample.RejectionForgotten | app/runtime/agentLoop.py:238-296 | A whole run, from concrete settings and answers, that ends with an accepted final answer while a rejected call was never corrected |
| AgentSafety.FinalGate | app/runtime/agentLoop.py:206-296 | A run ends as a final answer if and only if one was accepted with the required tool successful and nothing pending, or the allowed number of consecutive steps were unreadable |
| AgentSafety.UnreadableEndsFinal | app/runtime/agentLoop.py:183-215 | A model that says nothing readable makes the run end as a final answer after the allowed number of steps, whatever tool is required, unless a limit is due before |
| AgentExample.EndsWithoutRequiredTool | app/runtime/agentLoop.py:206-214 | A concrete run that ends as a final answer with a required tool that was never executed |
| AgentSafety.RunAccounting | app/runtime/agentLoop.py:101-655 | One trace per step, steps, executions and model answers within their limits, and never a running or fatal reason |
| AgentSafety.AskedBound | app/runtime/agentLoop.py:134-159 | Steps consume at most one plus the allowed repairs model answers each |
| AgentSafety.TracesShowCalls | app/runtime/agentLoop.py:612-656 | The traces account for every executed call, once, in order, with the arguments that finally ran |
| AgentSafety.TracesInOrder | app/runtime/agentLoop.py:171-205 | Step i has exactly one trace, numbered i+1, of what the model finally said in it |
| AgentSafety.BlockedLimitOnlyAtOne | app/runtime/agentLoop.py:332-469 | With tools enabled a run ends by the limit of blocked calls if and only if the limit is one and the last step was blocked |
| AgentSafety.TimeoutLimitIff | app/runtime/agentLoop.py:562-653 | A run ends by the timeout limit if and only if some tool timed out in two of its calls with none of that tool between, and the second is then the last call |
| AgentSafety.FirstFinalAccepted | app/runtime/agentLoop.py:237-311 | With tools disabled and nothing required the first readable final answer ends the run |
| Reminders.WeekdayMeaning | app/reminders/reminderService.py:106-145 | Day 0 is a Thursday and the weekdays follow one another, from Monday as 0 to Sunday as 6 |
| Reminders.InstantFacts | app/reminders/reminderService.py:76-114 | The instant built for a local day lies in that day, on a minute, and passes the due test exactly on an allowed weekday |
| Reminders.MatchesMeaning | app/reminders/reminderService.py:116-170 | A time is due exactly when its minute starts at the scheduled instant of its day and, for a weekly schedule, that day is one of its weekdays |
| Reminders.BuildNextFireAt | app/reminders/reminderService.py:76-114 | The day scan returns the least minute start after now that the due test accepts, at most a day or a week ahead, and none exactly for weekly without a valid weekday |
| Reminders.NextFireIsLeast | app/reminders/reminderService.py:76-114 | The 14-day scan is sufficient: the same for the scan's result |
| ReminderLife.Budget | app/reminders/reminderService.py:116-204 | Under any failures deliveries never exceed the runs left at the start, fall in distinct minutes, and add up with the stored runs to that number while the record exists |
| ReminderLife.DueSlotsMeaning | app/reminders/reminderService.py:116-170 | The list of due minutes holds exactly the minute starts the due test accepts, each once, in order |
| ReminderLife.FiredIsHits | app/scheduler/schedulerRunner.py:515-634 | Whatever the ticks and failures, the deliveries fall exactly in the first N of the minutes in which a tick is due and its delivery goes through (all of them if unlimited), and the runs on record are those left |
| ReminderLife.HitsMeaning | app/scheduler/schedulerRunner.py:515-634 | With a clock that does not run backwards these minutes are listed each once and in order, without the one used before the start |
| ReminderLife.MinuteIsMissedIff | app/scheduler/schedulerRunner.py:515-634 | An unlimited reminder misses a minute if and only if no tick that is due in it has its delivery go through |
| ReminderLife.RemovedIff | app/scheduler/schedulerRunner.py:564-611 | Over any ticks and failures a reminder leaves the configuration if and only if the delivery of its last run goes through and the callback reports the removal |
| ReminderLife.OffStaysSilent | app/reminders/reminderService.py:116-170 | A reminder that is gone or switched off, in its configuration or its record, is never delivered and never removed |
| ReminderLife.RecordTellsNextFire | app/reminders/reminderService.py:116-204 | After every tick the record of an enabled reminder holds the least due minute still to come |
| ReminderLife.ExactlyOnce | app/scheduler/schedulerRunner.py:515-634 | With ticks at most a minute apart and successful deliveries, exactly one delivery in each of the first N due minutes between first and last tick (all of them if unlimited) and no other |
| ReminderLife.StaleConfigurationRefires | app/scheduler/schedulerRunner.py:586-594 | A removed reminder stays silent over any ticks; if the configuration is not reloaded its n used runs are exceeded if and only if a delivery goes through in a due minute, and what follows falls exactly in the first n of those minutes |
| ScheduledJobs.WindowIsCircular | app/scheduler/schedulerRunner.py:324-362 | The window test is one test on the clock face: every hour without a window, none with half a window, otherwise (hour-start) mod 24 at most (end-start) mod 24 |
| ScheduledJobs.RunsAreSpaced | app/scheduler/schedulerRunner.py:272-362 | Over any ticks, runs start in open hours of that clock face and at least max(5, interval) seconds after the previous finish, the first one after the finish on record |
| ScheduledJobs.SpanOfRuns | app/scheduler/schedulerRunner.py:287-323 | k runs span at least k-1 intervals |
| ScheduledJobs.NoRunMissed | app/scheduler/schedulerRunner.py:272-362 | After every tick in an open hour, so after every tick without a window, the last finish of an enabled job is less than an interval old; all runs are at ticks; a job that is switched off or has half a window never runs |
| Scheduler.ScheduleFiles.Delete | app/reminders/reminderConfigStore.py:258-283 | Removes the task of a key and nothing else, reports whether it was there, and touches the file only then |
| Scheduler.SchedulerRunner.ReloadIfChanged | app/scheduler/schedulerRunner.py:243-267 | After the reload check the loaded tasks are those of the files |
| Scheduler.SchedulerRunner.RunJobIfNotRunning | app/scheduler/schedulerRunner.py:364-513 | A due job runs once, its start and finish are recorded, and the guard against overlap is released |
| Scheduler.SchedulerRunner.RunDueJobs | app/scheduler/schedulerRunner.py:188-240 | The loop runs the due jobs in file order and touches no other key |
| Scheduler.SchedulerRunner.ProcessJobs | app/scheduler/schedulerRunner.py:188-240 | Every loaded job makes the step of its own life, all other lives are untouched |
| Scheduler.SchedulerRunner.BookDelivery | app/scheduler/schedulerRunner.py:564-611 | A delivered reminder moves on, and is removed together with its record exactly when spent and the callback reports success |
| Scheduler.SchedulerRunner.ProcessInTurn | app/scheduler/schedulerRunner.py:515-634 | Every life becomes what processing the loaded reminders in turn makes of it; jobs are untouched |
| Scheduler.SchedulerRunner.ProcessReminders | app/scheduler/schedulerRunner.py:515-634 | Every loaded reminder makes exactly one step of its own life, jobs are untouched and stay listed |
| Scheduler.OneStep | app/scheduler/schedulerRunner.py:515-634 | With one task per key, processing in turn makes exactly one step of each reminder's own life |
| Scheduler.SchedulerRunner.RemoveFromFile | app/scheduler/schedulerRunner.py:586-594 | The callback unlists this task only |
| Scheduler.SchedulerRunner.TickOnce | app/scheduler/schedulerRunner.py:185-241 | One tick is one step of every listed task's own life, with keys kept unique and jobs kept listed |
| Scheduler.SchedulerRunner.RunTicks | app/scheduler/schedulerRunner.py:185-241 | Over any ticks and failures every task lives the life its configuration dictates, so reminders keep exactly-once and budget, and jobs their spacing and window without missing a run |
| Scheduler.LivedReminderIsKept | app/scheduler/schedulerRunner.py:515-634 | A reminder's life over any ticks is delivered in the first of the minutes with a successful due tick, is within budget and, when regular, exactly once per due minute; it is removed exactly with its last run, silent when off, and its record knows the next due minute |
| Scheduler.LivedJobIsKept | app/scheduler/schedulerRunner.py:188-323 | A job's life over any ticks is spaced, also from a finish on record, inside its window, and misses no run |
| TenantTasks.TasksHaveUniqueKeys | app/scheduler/schedulerRunner.py:188-241 | The tasks of all normalised tenant files have distinct state keys, which every tick requires |
| TenantTasks.DeletionsAgree | app/reminders/reminderConfigStore.py:258-283 | Deleting a reminder's id from its tenant's file is deleting its key, and nothing else, from the scheduler's list of all tenants |
| IndexLines.ChunkSeam | app/observability/stores/jsonRunRepository.py:116-127 | Reading one more chunk before the buffered text changes nothing about the lines still to come |
| IndexLines.SplitConcat | app/observability/stores/jsonRunRepository.py:116-127 | Splitting a concatenation glues the two splits at the seam |
| IndexLines.BackwardReader.ReadChunk | app/observability/stores/jsonRunRepository.py:116-122 | Reading a chunk of any size keeps the lines still to be yielded |
| IndexLines.HasText | app/observability/stores/jsonRunRepository.py:123-130 | A line counts if and only if it holds a byte that trimming would not remove |
| IndexLines.BackwardReader.Next | app/observability/stores/jsonRunRepository.py:108-130 | Yields the next line of the newest-first list and ends exactly when none remains, for every file and chunk size |
| RunRepository.JsonRunRepository.CollectNewest | app/observability/stores/jsonRunRepository.py:89-106 | Reading that stops early collects exactly the first needed records of the full list |
| RunRepository.JsonRunRepository.Drain | app/observability/stores/jsonRunRepository.py:67-86 | The loop over yielded lines keeps only selected records and stops as soon as enough are found |
| RunRepository.MatchesMeaning | app/common/runSessionScope.py:4-25 | A session matches a principal if and only if, trimmed, it has its name or is that name, a colon and a rest |
| RunRepository.UsersAreSeparate | app/common/runSessionScope.py:4-25 | No session belongs to two Telegram users, also where one number begins with the other |
| RunRepository.RecordsMeaning | app/observability/stores/jsonRunRepository.py:67-86 | The records of a tenant are exactly those of the lines that parse and whose session belongs to it |
| RunRepository.ListingsAreDisjoint | app/observability/stores/jsonRunRepository.py:50-87 | The listings of two users have no record in common |
| RunRepository.JsonRunRepository.ListRuns | app/observability/stores/jsonRunRepository.py:50-87 | A listing is the page of the newest-first records of the tenant: the slice [offset, offset+limit) with both bounds clamped, and every record in it belongs to the tenant |
| RunRepository.PagesContinue | app/observability/stores/jsonRunRepository.py:50-87 | Listings at consecutive offsets are together the first records of the tenant, without gap or repeat |
| RunRepository.PagesCoverAll | app/observability/stores/jsonRunRepository.py:50-87 | Enough of these listings give back every record of the tenant |
| RunRepository.JsonRunRepository.AppendIndexLine | app/observability/stores/jsonRunRepository.py:32-35 | A save on an empty or newline-terminated file puts one record at the head of every listing that selects it |
| RunRepository.AppendedLineIsNewest | app/observability/stores/jsonRunRepository.py:32-35 | A saved line becomes the newest and nothing else changes if and only if the file was empty or newline-terminated |
| RunRepository.SavedRecordIsNewest | app/observability/stores/jsonRunRepository.py:32-35 | The same for the parsed and filtered records |
| RunRepository.SavedRunsAreListed | app/observability/stores/jsonRunRepository.py:15-35 | Everything saved is listed, once each, in reverse order of saving |
| LlmFallback.BuildModelOrder | app/domain/policies/fallbackPolicy.py:15-39 | The order holds the non-empty candidates, each once, where it first occurs |
| LlmFallback.DistinctFacts | app/domain/policies/fallbackPolicy.py:34-37 | The order has no repeats and exactly the non-empty candidates |
| LlmFallback.PrimaryIsInOrderIff | app/domain/policies/fallbackPolicy.py:22-37 | The primary has a place in the order of one request exactly when suppressed, preferred or also a fallback |
| LlmFallback.LlmService.TryModel | app/models/services/llmService.py:58-134 | One model gets errors until a success or all its attempts are used; every attempt is booked once |
| LlmFallback.LlmService.Complete | app/models/services/llmService.py:31-155 | The events follow the plan of models times attempts, errors then at most one success that alone cuts it short; the result names the model that answered or the last tried; everything is in both ledgers; the timer is what a success made it, untouched without one, and unset exactly when no call has succeeded or the last success was the primary |
| LlmFallback.CompleteInTurn | app/runtime/agentLoop.py:124-160 | Requests in turn, each preferring the model the one before came back with, form a chain of such completions over one timer, each served as the last answer before it dictates |
| LlmFallback.TriedIff | app/models/services/llmService.py:56-136 | A model is tried if and only if it is in the order and every answer to the models before it is an error |
| LlmFallback.PrimaryIsTriedIff | app/models/services/llmService.py:41-136 | A request tries the primary if and only if, with the timer in force, every fallback before it fails on each attempt, or, without it, the primary is preferred or a fallback and all models before it fail |
| LlmFallback.SeriesTriesPrimaryIff | app/runtime/agentLoop.py:124-160 | The same at every request of a series |
| LlmFallback.TimerMeaning | app/models/services/llmService.py:41-50 | After any series of requests the timer is unset if the last answer was the primary model's, and otherwise runs for the cooldown from the time of that answer |
| LlmFallback.SeriesByAnswers | app/models/services/llmService.py:41-136 | Told by answers and times alone: until the cooldown after an answer of another model is over, a request starts with the first fallback that has a name, and tries a primary that is no fallback if and only if every fallback fails on each attempt; otherwise it starts with the preferred model, and tries such a primary if and only if that is the preferred model |
| LlmFallback.ReturnsOnlyUnderTimer | app/runtime/agentLoop.py:124-160 | A primary that is no fallback, once another model has answered, is tried if and only if the timer is in force and every fallback fails on each attempt |
| LlmFallback.CooldownOverYetNotTried | app/runtime/agentLoop.py:124-160 | A concrete run in which the cooldown has passed and the primary is still not tried |
| LlmFallback.EarlierModelsFailed | app/models/services/llmService.py:56-136 | Every model before the one tried has exactly retry+1 attempts, all errors |
| LlmFallback.SuppressedPrimaryIsLast | app/models/services/llmService.py:41-56 | While suppressed, a primary that is no fallback is tried only after every non-empty fallback failed on each attempt |
| ModelStats.ModelStatsService.RecordAttempt | app/application/services/modelStatsService.py:82-132 | An attempt is booked in the totals and in its model's bucket |
| ModelStats.TallyCounts | app/application/services/modelStatsService.py:82-193 | Calls, successes and errors grow by the events, each once; each token count grows by the positive numbers that the successes report |
| ModelStats.BucketsGrowByTally | app/application/services/modelStatsService.py:112-126 | Each model's bucket grows by exactly that model's events |
| ModelStats.LedgersAgree | app/application/services/modelStatsService.py:82-132 | Every totals field stays the sum of that field over the models |
| MessageChunker.SplitMeaning | app/integrations/telegram/telegramMessageChunker.py:19-19 | The parts join to the text; behind each part but the last stands the first separator that begins in it or behind it, and the last part holds none |
| MessageChunker.SplitIsUnique | app/integrations/telegram/telegramMessageChunker.py:19-19 | There is only one such list of parts |
| MessageChunker.SplitTelegramMessage | app/integrations/telegram/telegramMessageChunker.py:4-51 | Every chunk fits; a text that fits is one chunk, one of separators only is cut short, and any other becomes the greedy packing of its parts between leftmost separators: each chunk non-empty and the join of its own consecutive parts or one cut of a part that is too long, nothing passed over but empty parts that did not fit, no chunk closed while the next part fitted |
| MessageChunker.NoRoomLeft | app/integrations/telegram/telegramMessageChunker.py:23-48 | After a chunk of whole parts the next piece, if any, would not have fitted into it |
| MessageChunker.PackingIsUnique | app/integrations/telegram/telegramMessageChunker.py:21-48 | There is only one greedy packing, so the chunks are determined by the parts |
| MessageChunker.AddPart | app/integrations/telegram/telegramMessageChunker.py:24-45 | Each part extends the packing of the parts before it, in all branches |
| MessageChunker.PackParts | app/integrations/telegram/telegramMessageChunker.py:21-48 | The packing loop yields the greedy packing of all parts |
| MessageChunker.AppendHardSplit | app/integrations/telegram/telegramMessageChunker.py:34-44 | A part that is too long is cut every maximum characters |
| MessageChunker.OnlySeparatorsDropped | app/integrations/telegram/telegramMessageChunker.py:4-51 | The pieces joined in all chunks concatenate to the concatenated parts, so only separators can be dropped |
| UnreadDigest.DedupePosts | app/tools/implementations/digestTelegramNewsTool.py:304-326 | Deduplication keeps, per id, the first post unless a strictly newer one replaces it in place |
| UnreadDigest.DedupedFacts | app/tools/implementations/digestTelegramNewsTool.py:304-326 | One post per id remains, one of the given posts and at least as new as every post of its id |
| UnreadDigest.MatchesTerms | app/tools/implementations/userTopicDigestTool.py:365-370 | A text is kept if and only if some term occurs in it, whatever the case of its letters |
| UnreadDigest.CollectUnreadForOneChannel | app/tools/implementations/userTopicDigestTool.py:339-388 | Filtering, sorting, cutting and formatting the page gives the items of its twenty newest unread matching posts, and the peak is its highest id |
| UnreadDigest.SortByDate | app/tools/implementations/userTopicDigestTool.py:372-372 | The sort permutes the posts, newest first, posts of one date in their order: each stands behind exactly those ahead of it |
| UnreadDigest.ByDateFacts | app/tools/implementations/userTopicDigestTool.py:372-373 | Sorting permutes the posts, newest first |
| UnreadDigest.RankByDate | app/tools/implementations/userTopicDigestTool.py:372-373 | In the order newest first a post stands behind exactly the newer ones and those of its date earlier on the page |
| UnreadDigest.RivalsAreAhead | app/tools/implementations/userTopicDigestTool.py:358-373 | The place of an unread matching post in the sorted list is the number of unread matching posts of the page that are newer, or of its date and earlier |
| UnreadDigest.ReturnedIff | app/tools/implementations/userTopicDigestTool.py:358-379 | An unread matching post is returned if and only if fewer than twenty of them are newer or of its date and earlier on the page |
| UnreadDigest.ReturnedCount | app/tools/implementations/userTopicDigestTool.py:372-379 | As many posts are returned as qualify, up to twenty |
| UnreadDigest.ReadStateStore.MergeChannelLastSeen | app/tools/stores/telegramDigestReadStateStore.py:21-32 | The stored ids become the merge of old ids and updates |
| UnreadDigest.MergedFacts | app/tools/stores/telegramDigestReadStateStore.py:21-32 | A merge lowers no id, takes every update in, and stores nothing else |
| UnreadDigest.PeakIsHighest | app/tools/implementations/userTopicDigestTool.py:390-400 | The peak noted for a page is its highest message number |
| UnreadDigest.MergeRaises | app/tools/implementations/userTopicDigestTool.py:353-357 | Each fetched channel is left with the larger of its old id and the highest number on its page, every other channel with its old id |
| UnreadDigest.ChosenIsDue | app/tools/implementations/userTopicDigestTool.py:358-373 | What is unread by the ids remembered is what is new by the pages shown so far |
| UnreadDigest.SortedChannels | app/tools/implementations/userTopicDigestTool.py:286-311 | The normalised channel names, each once, in their order |
| UnreadDigest.AscendingIsUnique | app/tools/implementations/userTopicDigestTool.py:311-311 | A set of names has one ascending list, so the order of channels is determined |
| UnreadDigest.CollectAll | app/tools/implementations/userTopicDigestTool.py:311-320 | The items are the selected posts channel after channel, each channel's newest first, none twice, and every page's peak is noted and nothing else |
| UnreadDigest.TopicDigestReader.FetchUnread | app/tools/implementations/userTopicDigestTool.py:302-336 | The exact list of items; they are the matching posts of the pages above every number that a page of their channel has ever shown and above the one remembered at the start, behind fewer than twenty such others; over any series of fetches none is returned twice, and the id remembered for each channel is the highest ever shown or the one at the start |
| UnreadDigest.TopicDigestReader.FetchTopic | app/tools/implementations/userTopicDigestTool.py:266-337 | An unknown or incomplete topic reads nothing and marks nothing; otherwise the fetch, with all that it promises |
| UnreadDigest.NormalizeKeywordTerms | app/tools/implementations/userTopicDigestTool.py:455-471 | The loop computes the search terms and stops at 48 |
| UnreadDigest.TermsFacts | app/tools/implementations/userTopicDigestTool.py:455-471 | The terms are distinct keys of non-blank keywords, at most 48, and none is missing when there are fewer |
| TopicLines.TopicMemory.LoadTopicConfig | app/tools/implementations/userTopicDigestTool.py:523-551 | Loads the first line of the key |
| TopicLines.TopicMemory.UpsertTopicConfigLine | app/tools/implementations/userTopicDigestTool.py:553-592 | After saving, the key loads the payload, every other key what it did, all other lines kept in order, also with duplicate lines, if and only if the written line holds no line break |
| TopicLines.TopicMemory.DeleteTopicConfigLines | app/tools/implementations/userTopicDigestTool.py:594-633 | After deleting, the key loads nothing, every other key what it did, other lines kept; reports whether there was a line |
| TopicLines.UpsertIsMapUpdate | app/tools/implementations/userTopicDigestTool.py:553-592 | Saving is a map update on the lines, whatever duplicates they hold |
| TopicLines.DeleteIsMapRemoval | app/tools/implementations/userTopicDigestTool.py:594-633 | Deleting is a map removal on the lines |
| TopicLines.FileKeepsLinesIff | app/memory/stores/markdownMemoryStore.py:101-109 | Lines survive being written and read if and only if none is blank and none holds a line-break character |
| TopicLines.UpsertIsUpdateIff | app/tools/implementations/userTopicDigestTool.py:553-592 | Saving through the file is a map update if and only if the written line holds no line break |
| TopicLines.BrokenLineIsNoUpdate | app/tools/implementations/userTopicDigestTool.py:553-592 | A configuration with a line break is not saved: the file then holds a broken line among the other text |
| TopicLines.SeparatorIsLost | app/tools/implementations/userTopicDigestTool.py:583-592 | A concrete codec and a payload with U+2028 that is never saved, whatever the file holds |
| ScheduleFile.NormalizeLegacySchedules | app/config/tenantSchedulesModels.py:49-107 | The three sections are merged in order, the first entry of every non-blank trimmed id kept |
| ScheduleFile.SectionsAreMerged | app/config/tenantSchedulesModels.py:49-107 | Every non-blank id named in any of the three sections is held, by the first section that names it: as it is, or as a run or a message under its trimmed id, read from either field of a legacy reminder |
| ScheduleFile.NormalizeIsIdempotent | app/config/tenantSchedulesModels.py:49-107 | Normalising a normalised document changes nothing, and its trimmed ids are unique and non-blank |
| ScheduleFile.UpdateThenLoad | app/reminders/reminderConfigStore.py:194-256 | A reload after an update sees the other tasks unchanged and in order and then the new one, lost exactly when another task keeps its id taken |
| ScheduleFile.UpdatedTaskIsHeldOnce | app/reminders/reminderConfigStore.py:194-256 | The updated task is held, once, if and only if no other task keeps its id taken; the others are those there were |
| ScheduleFile.UpdateIsLost | app/reminders/reminderConfigStore.py:194-256 | A concrete file and reminder for which the update is lost |
| ScheduleFile.CreatedMeaning | app/reminders/reminderConfigStore.py:210-238 | The creation time carried over is that of the one task replaced, if there is one and its time is not zero |
| ScheduleFile.TrimmedIdsClash | app/reminders/reminderConfigStore.py:205-219 | With trimmed ids only a task of the other kind can take an id |
| ScheduleFile.StateIdsAreDistinct | app/scheduler/schedulerRunner.py:200-527 | No two tasks of a loaded file share a state key |
| ScheduleFile.ReminderConfigStore.AddOrUpdate | app/reminders/reminderConfigStore.py:135-256 | Stores the task under its trimmed or fresh id in place of its predecessor, keeping the predecessor's creation time, and a reload sees exactly that; the record returned equals the stored one if and only if it is a job or the predecessor had no time or the current one |
| ScheduleFile.ReminderConfigStore.DeleteReminder | app/reminders/reminderConfigStore.py:258-283 | Deletes the task of the trimmed id, of either kind, and writes only if there was one |
| ScheduleFile.ReminderConfigStore.ListTasks | app/reminders/reminderConfigStore.py:85-133 | Lists the tasks of one kind in file order |
| Routing.PickSkillItems | app/skills/services/skillSelectorRules.py:398-413 | Stopping early picks the first maximum of the selected skills in catalog order |
| Routing.PickedIff | app/skills/services/skillSelectorRules.py:398-413 | A skill is picked if and only if it is selected and fewer than the maximum of the selected skills precede it in the catalog |
| Routing.PickInOrder | app/skills/services/skillSelectorRules.py:398-413 | Picked skills keep catalog order |
| Routing.SecondPickChangesNothing | app/skills/services/skillService.py:30-48 | Picking again from the picked skills, with the default skill added or not, changes nothing |
| Routing.PrependDefaultAssistant | app/runtime/llmRoutingPlanResolver.py:260-278 | The ids become trimmed, non-blank and distinct, with the default skill among them and no other added |
| Routing.ValidateAgainstCatalog | app/runtime/routingPlanModels.py:25-92 | The loops compute the validated plan or the first error |
| Routing.ValidationMeaning | app/runtime/routingPlanModels.py:25-92 | Accepted if and only if some named skill is known and the required tool is blank or registered; accepted ids are the known ones named, each once; a tool is required only if allowed and registered |
| Routing.ValidationIsIdempotent | app/runtime/routingPlanModels.py:25-92 | Validating an accepted plan again changes nothing |
| Routing.SelectRelevantSkillIds | app/skills/services/skillSelectorRules.py:304-396 | The inserts and appends select exactly the skills the rules want, the default skill first |
| Routing.ApplyHeuristicOverride | app/runtime/llmRoutingPlanResolver.py:186-237 | Tools are allowed, with the rules' skills, tool and memory mode, exactly when the plan forbids what the message needs |
| Routing.RequireByPlan | app/runtime/llmRoutingPlanResolver.py:105-124 | The forced schedule tool, or none with a feedback skill or without tools, or the plan's own |
| Routing.BuildFallbackResolution | app/runtime/llmRoutingPlanResolver.py:322-414 | Without a usable plan the rules decide, and the second pick changes nothing |
| Routing.Resolve | app/runtime/llmRoutingPlanResolver.py:38-184 | Every resolution is what the plan or the rules dictate: one pick from one set of ids, one tool permission, one required tool |
| Routing.SelectionIsNormal | app/runtime/llmRoutingPlanResolver.py:161-172 | The selected skills are distinct, known, within the maximum, in catalog order and among those asked for |
| Routing.FeedbackRequiresNothing | app/runtime/llmRoutingPlanResolver.py:239-258 | With a feedback skill selected no tool is required unless the schedule tool is forced |
| Routing.RequiredToolIsRegisteredIff | app/runtime/llmRoutingPlanResolver.py:38-184 | For every catalog, message and plan the required tool is registered or blank if and only if the tool forced, or derived by the rules from the skills they pick, is |
| Routing.SafeRegistryIff | app/runtime/routingPolicy.py:29-60 | The registries with which no unregistered tool is ever required are exactly those holding the five tools that the rules can name or routing can force |
| Routing.ProgramRegistryIsSafe | app/tools/services/toolFactory.py:103-239 | The registry the program builds is one of them |
| Routing.RulesRequireIff | app/runtime/routingPolicy.py:29-60 | Which tool the rules require: none with a feedback skill, otherwise that of the first selected one of the mail, note, schedule, topic and news skills, the schedule skill only for a recurring request |
| Routing.ForcedToolOutlivesSkill | app/runtime/llmRoutingPlanResolver.py:116-172 | With the program's own skills and tools and the largest selection, a plan for which the schedule tool is required while its skill is cut off |
| Routing.ForcedToolKeepsItsSkillIff | app/runtime/llmRoutingPlanResolver.py:116-163 | The forced tool's skill stays selected if and only if fewer than the maximum of the selected skills precede it |
| Routing.RoutedWithoutTools | app/runtime/llmRoutingPlanResolver.py:164-174 | A run routed with tools disallowed has no required tool and ends with its first readable final answer |

## Left out

- Prompt text, observation texts and previews, the wording of final answers, diagnostics and logs: presentation only.
- Parsing of model replies, YAML, JSON and HTML, and regular expressions: a reply is any parse result, an index line any parser's result, a schedule file its decoded sections. `TopicLines` assumes that JSON reading gives back what was written that JSON text has no outer blanks and, for the one result that needs it, that no proper beginning of an object can be read; `SeparatorIsLost` gives a codec that meets all three.
- Tool arguments of the wrong type (an hour count that is no number): the program raises; arguments are modelled as typed.
- The model name carried from one request to the next, and the thread pool that enforces tool time limits: a timeout is one of the envelopes a tool may answer with.
- Time zones with daylight saving: the offset is constant and a whole number of minutes, which the minute slots need. Parsing of the time of day and of the zone name is left out with it.
- Non-ASCII letters when names are lower-cased.
- Word lists of the skill rules: each is one arbitrary truth value of the message.
- Two writers on one file, crashes between a write and its rename, and the tool that edits the scheduler's state file beside the running scheduler: sequential use only.
- Migration of old scheduler state on start: the stored records are arbitrary instead.
- The scheduler's nested loops over tenants and tasks are one loop over pairs of owner and task in file order, and a change of a schedule file is taken to change its modification time.
- A scheduler without delivery or completion callback, and a service without statistics: both are modelled present.
- The start of a run is the time of its tick, as the program records it. The clock is read once a tick, so a job behind a long one really starts later, perhaps outside its window.
- Reminder deliveries that raise after the message went out count as failed, as the code counts them.
- Posts are those the page parser builds: with a text, a date and the channel they were fetched for. Last-seen ids edited by hand to be negative are excluded. A missing or unreadable last-seen file reads as empty in the program; the stored map is modelled as kept between fetches.
- Recovery from a corrupt statistics file, snapshots of statistics, run details by id.
- Intervals below 60 seconds raised on saving a job, and session names built for it: part of the opaque body of a task.
- HTTP, mail, chat and web pages, cookies and login limits.
