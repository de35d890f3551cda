# Auto-tools account rotation, modelled in Dafny

Auto-tools runs many accounts against a task-review web site. Each
account has a KPI: a target number of reviewed tasks. This project models the
scheduling core that decides which account works next, how long it works, and
what happens when its browser crashes. It also models the bookkeeping services
that the scheduler consults. The browser itself, the spreadsheets and the clock
are inputs.

The modules follow the source files:

| module | file | source |
|---|---|---|
| `Runner` | run_watchdog.dfy | `WatchdogRunner` in run_watchdog.py: the dual-queue dispatcher (`incomplete` goes before `normal`), the crash reaction, the session budget and requeue, the work-hours pause and the rotation check |
| `MultiRunner` | run_multi.dfy | run_multi.py: accounts run in pairs, crashed accounts are rerun, and rotations repeat until one of them completes nothing |
| `ConfigFile` | config_file.dfy | both `load_config` readers of `accounts.config` (run_watchdog.py and run_multi.py) |
| `Accounts` | account_monitor.dfy | `AccountMonitor`: the per-account status ledger and its restart budget |
| `Kpi` | kpi_manager.dfy | `KPIManager`: KPI targets, progress, remaining work, and the sheet-name rule |
| `Watchdog` | browser_watchdog.dfy | `BrowserWatchdog`: the session registry, health checks and one monitor tick |
| `WorkHours` | work_hours.dfy | `WorkHoursScheduler`: the work-hours gate with overnight shifts |
| `DataSheets` | data_manager.dfy | `DataManager`: header de-duplication, whitelist, refresh timing, decision routing |
| `TaskLog` | task_logger.dfy | `TaskLogger`: sheet names and the in-memory log of completed tasks |
| `Logging` | logger_utils.dfy | `ColoredLogger`: colour codes, ANSI stripping, short names, per-account colours |
| `TextUtil`, `Wrappers` | text_util.dfy, wrappers.dfy | the Python string operations used above, and `Option` |

Objects the source updates in place are classes: `WatchdogRunner`,
`AccountMonitor`, `KpiManager`, `BrowserWatchdog`, `TaskLogger` and the colour
registry. Each has a `Valid()` invariant, and each mutator states the complete
new state. A Python dict whose iteration order matters is a `map` plus the
sequence of its keys in insertion order. Loops in the source are methods with
`while` or `for` loops. Each such method is proved equal to a recursive
specification function, and the properties are lemmas about that function.

Time of day is a whole number of seconds in `[0, 86400)`. A spreadsheet of
completed tasks is a `Workbook` value: either unreadable, or a map from sheet
name to row count. A browser liveness probe is a `Liveness` value. The tasks a
browser session completes, and whether it raised, are a `Batch` input in
`MultiRunner` and a `SessionEnd` input in `Runner`. In `Runner` a session
reports its count after each task (`ApplyProgress`); when it finishes or raises,
its handler judges that last count, and when it is cancelled it writes nothing
more to the ledger.

Behaviour of the source that the model keeps as written:

- A session whose task is cancelled by the work-hours pause still runs its
  `finally` block (run_watchdog.py:377-408). That block can append an account
  with no restart budget left to `normal`.
- A full session appends its account to `normal` even when a crash requeue has
  already queued it, so the queue can hold an account twice
  (`Runner.RequeueDuplicates`).
- `_on_crash` marks the account lost but never calls `mark_restarting`. On that
  path the restart count does not grow, so the budget never runs out
  (`Runner.CrashPathNeverExhausts`).
- `KPIManager._get_sheet_name` keeps the case of the e-mail name, while
  `TaskLogger._get_sheet_name` upper-cases it. A logged sheet with a lower-case
  name is therefore not found when progress is refreshed
  (`Kpi.LoggedSheetIsNotFound`).
- Renaming repeated headers to `h_1`, `h_2`, … can produce a name that another
  column already has (`DataSheets.RenamingCanCollide`).
- `running_tasks` is a map from e-mail to a `Task` (its spawn number and
  whether it is done) plus the sequence of its keys in insertion order. A
  finished session only marks its own task done; the entry stays until the
  main loop's clean-up (`Runner.WatchdogRunner.CleanUp`) or a crash pops it.
  A respawn reuses the key's place in the order. The pause walks the tasks
  that are not done in this order, and that order decides the order in which
  they reach `normal`. A session that ends after its key was reassigned
  leaves the new task alone (`Runner.EndTask`).
- In `run`, the second "all KPIs met" stop (run_watchdog.py:534-539) can never
  fire once the first check (run_watchdog.py:510-515) has passed. The two stops
  are one outcome, `Stopped`, in `Runner.WatchdogRunner.RotationStep`.

## Model

| member | source | states |
|---|---|---|
| `TextUtil.Strip` | run_watchdog.py:623 | the result carries no Python whitespace at either end and is no longer than the input |
| `TextUtil.StripRemovesOnlySpace` | run_watchdog.py:623 | the input is the result with only whitespace before and after it, and the result has no whitespace at either end |
| `TextUtil.SplitOn` | run_watchdog.py:622 | `split` gives at least one piece and no piece holds the separator |
| `TextUtil.NatToString` | src/data_manager.py:156 | (also line 191) `str(seen[h])` in the renamed header `h_k`: `str(n)` is all digits, reads back as `n`, and has no leading zero |
| `TextUtil.Remove` | run_watchdog.py:136-137 | (also src/browser_watchdog.py:76-77) the key order after `running_tasks.pop(email)` or `del sessions[email]`: taking an id out leaves exactly the other ids, keeps a duplicate-free list duplicate-free, and changes nothing when the id is absent |
| `TextUtil.KeysListed` | src/browser_watchdog.py:189-191 | a map whose keys a duplicate-free list enumerates has as many entries as the list |
| `WorkHours.OvernightIffOpenBeforeMidnight` | src/work_hours_scheduler.py:38-45 | an enabled window is an overnight shift exactly when it is open in the last second of the day |
| `WorkHours.IsOvernightShift` | src/work_hours_scheduler.py:38-45 | for valid hours, overnight exactly when the shift, counted forward round the clock from its start hour, runs past hour 24 |
| `WorkHours.IsWithinWorkHours` | src/work_hours_scheduler.py:47-71 | always open when disabled; for valid hours, open exactly when the clock's hour lies within the shift's length after the start hour, wrapping at midnight |
| `WorkHours.ClockTestIsHourTest` | src/work_hours_scheduler.py:64-71 | the source's two clock comparisons, day and overnight, agree with the hour-distance test in every case |
| `WorkHours.DailyWorkHours` | src/work_hours_scheduler.py:175-188 | for valid hours, a count in 0..23 equal to the forward distance from start to end round the clock, and 0 exactly when start equals end |
| `WorkHours.CanRunTasks` | src/work_hours_scheduler.py:73-80 | tasks may run exactly during the `DailyWorkHours` hours after the start hour, or always when disabled |
| `WorkHours.ShouldPauseSystem` | src/work_hours_scheduler.py:190-197 | pause is exactly "tasks may not run", and a disabled gate never pauses |
| `WorkHours.TimeUntilWorkStarts` | src/work_hours_scheduler.py:82-112 | None exactly when the gate is disabled or open; otherwise a wait of between 1 second and one day |
| `WorkHours.TimeUntilWorkEnds` | src/work_hours_scheduler.py:114-141 | None exactly when the gate is disabled or closed; otherwise a wait of between 1 second and one day |
| `WorkHours.StartCountdownIsExact` | src/work_hours_scheduler.py:82-112 | (also lines 47-71) the gate stays closed for every second of the wait to the start and is open when the wait ends |
| `WorkHours.EndCountdownIsExact` | src/work_hours_scheduler.py:114-141 | (also lines 47-71) the gate stays open for every second of the wait to the end and is closed when the wait ends |
| `WorkHours.EqualHoursNeverOpen` | src/work_hours_scheduler.py:66-71 | an enabled gate whose start hour equals its end hour is never open |
| `WorkHours.Pad2` | src/work_hours_scheduler.py:173 | `{h:02d}` is two digits that read back as `h` |
| `WorkHours.WorkHoursString` | src/work_hours_scheduler.py:166-173 | the label is `HH:00 - HH:00`, and its two numbers are the start and end hours |
| `WorkHours.OpenHoursBeforeFormula` | src/work_hours_scheduler.py:38-71 | a closed formula for how many of the first `n` whole hours of the day are open, for day and overnight shifts |
| `WorkHours.DailyWorkHoursCountsOpenHours` | src/work_hours_scheduler.py:175-188 | `get_daily_work_hours` equals the number of whole hours in the day during which the gate is open |
| `WorkHours.WindowExamples` | src/work_hours_scheduler.py:175-188 | (also lines 38-71) an illustration on fixed inputs, not an all-inputs property: a 20:00-08:00 shift is open at 23:00 and 03:00, closed at noon, and lasts 12 hours; an 08:00-18:00 shift is open at 09:00 and closed at 19:00 |
| `Accounts.RestartBudget` | src/account_monitor.py:149-160 | (also lines 85-102) each crash and restart cycle adds one to the restart count, and the cycle restarts exactly while the count stays within the budget |
| `Accounts.AccountMonitor.constructor` | src/account_monitor.py:25-28 | the ledger starts empty |
| `Accounts.AccountMonitor.StartAccount` | src/account_monitor.py:51-65 | the entry becomes running with 0 completed tasks and the given limit and rotation; an earlier restart count is kept (0 for a new account), and a new account is appended to the key order |
| `Accounts.AccountMonitor.UpdateProgress` | src/account_monitor.py:67-73 | only the completed count of a known account changes; an unknown account leaves the ledger unchanged |
| `Accounts.AccountMonitor.MarkCompleted` | src/account_monitor.py:75-83 | a known account becomes completed with the given count; an unknown account changes nothing |
| `Accounts.AccountMonitor.MarkCrashed` | src/account_monitor.py:85-93 | a known account becomes crashed and keeps at most 500 characters of the error; an unknown account changes nothing |
| `Accounts.AccountMonitor.MarkRestarting` | src/account_monitor.py:95-102 | a known account (required, since the source indexes it unguarded) becomes restarting with its restart count one higher, after which `ShouldRestart` is false for every budget |
| `Accounts.AccountMonitor.MarkBrowserLost` | src/account_monitor.py:119-127 | a known account becomes crashed with the given reason; an unknown account changes nothing |
| `Accounts.AccountMonitor.ResetAll` | src/account_monitor.py:233-237 | the ledger is empty afterwards |
| `Accounts.AccountMonitor.ShouldRestart` | src/account_monitor.py:149-160 | true exactly for a known, crashed account whose restart count is below the budget |
| `Accounts.AccountMonitor.GetRemainingTasks` | src/account_monitor.py:162-168 | `max(0, max_tasks - completed_tasks)`, and 0 for an unknown account |
| `Accounts.AccountMonitor.GetCheckpoint` | src/account_monitor.py:202-207 | the completed count of a known account, and 0 otherwise |
| `Accounts.AccountMonitor.IsAccountIncomplete` | src/account_monitor.py:190-200 | true exactly for a crashed or restarting account with tasks left, which then has remaining tasks above 0 |
| `Accounts.AccountMonitor.CrashedIn` | src/account_monitor.py:104-117 | the reports name exactly the crashed accounts among the keys |
| `Accounts.AccountMonitor.GetCrashedAccounts` | src/account_monitor.py:104-117 | the loop reports exactly the crashed accounts, in ledger order |
| `Accounts.AccountMonitor.IncompleteIn` | src/account_monitor.py:170-188 | the reports name exactly the incomplete accounts among the keys, each with remaining work above 0 |
| `Accounts.AccountMonitor.GetIncompleteAccounts` | src/account_monitor.py:170-200 | the loop reports exactly the accounts `is_account_incomplete` accepts, in ledger order |
| `Kpi.SheetNameOf` | src/kpi_manager.py:40-48 | "Unknown" for an empty e-mail; otherwise the cleaned part before `@`, at most 31 characters, case kept |
| `Kpi.SheetName` | src/kpi_manager.py:40-48 | the character-replacing loop yields `SheetNameOf` |
| `Kpi.KpiManager.constructor` | src/kpi_manager.py:18-21 | no targets and no progress |
| `Kpi.KpiManager.SetKpi` | src/kpi_manager.py:30-33 | the target is set, progress is untouched, and a new account is appended to the key order |
| `Kpi.KpiManager.GetKpi` | src/kpi_manager.py:35-38 | the stored target, or 0 for an account never set |
| `Kpi.KpiManager.GetProgress` | src/kpi_manager.py:78-81 | the stored progress, or 0 for an account never refreshed |
| `Kpi.KpiManager.GetRemaining` | src/kpi_manager.py:83-88 | `max(0, kpi - progress)` |
| `Kpi.KpiManager.HasMetKpi` | src/kpi_manager.py:90-95 | met exactly when nothing remains, and true for an account without a target |
| `Kpi.KpiManager.AllKpisMet` | src/kpi_manager.py:112-119 | true exactly when every account with a target has met it, so true with no accounts |
| `Kpi.KpiManager.Gaps` | src/kpi_manager.py:97-110 | exactly the accounts below target, each with remaining work above 0 |
| `Kpi.KpiManager.GetIncompleteAccounts` | src/kpi_manager.py:97-110 | the loop lists exactly the accounts that have not met their KPI, in key order |
| `Kpi.KpiManager.RefreshProgress` | src/kpi_manager.py:50-76 | every account with a target gets its sheet's row count, or 0 when the sheet or the file cannot be read; other entries are untouched |
| `Kpi.SheetNameVersusTaskLog` | src/kpi_manager.py:40-48 | `TaskLogger`'s sheet name is this sheet name upper-cased |
| `Kpi.LoggedSheetIsNotFound` | src/kpi_manager.py:40-76 | when the name has a lower-case letter, progress read from a workbook `TaskLogger` wrote is 0 |
| `Watchdog.FailingMembers` | src/browser_watchdog.py:134-142 | exactly the sessions whose probe fails, with no repeats |
| `Watchdog.BrowserWatchdog.constructor` | src/browser_watchdog.py:30-51 | no sessions, not monitoring, and the given limits |
| `Watchdog.BrowserWatchdog.Register` | src/browser_watchdog.py:67-71 | the entry is inserted or overwritten by a fresh, healthy session with 0 tasks |
| `Watchdog.BrowserWatchdog.Unregister` | src/browser_watchdog.py:73-78 | the entry is removed, and removing an unknown e-mail changes nothing |
| `Watchdog.BrowserWatchdog.UpdateTaskCount` | src/browser_watchdog.py:80-84 | only the completed-task count of a known session changes |
| `Watchdog.BrowserWatchdog.HealthCheck` | src/browser_watchdog.py:86-121 | healthy exactly for a known session whose probe passes, which is then refreshed; a raising probe marks the session unhealthy; otherwise nothing changes |
| `Watchdog.BrowserWatchdog.HealthyIn` | src/browser_watchdog.py:193-195 | exactly the healthy sessions among the keys |
| `Watchdog.BrowserWatchdog.ActiveEmails` | src/browser_watchdog.py:193-195 | exactly the healthy sessions |
| `Watchdog.BrowserWatchdog.ActiveCount` | src/browser_watchdog.py:189-191 | the length of `ActiveEmails`, at most the number of sessions, and all of them when every session is healthy |
| `Watchdog.BrowserWatchdog.CountMatchesEmails` | src/browser_watchdog.py:189-195 | the healthy count equals the number of healthy e-mails |
| `Watchdog.BrowserWatchdog.AllHealthyCount` | src/browser_watchdog.py:189-191 | the healthy count is at most the key count, and equal to it when all are healthy |
| `Watchdog.BrowserWatchdog.StartMonitoring` | src/browser_watchdog.py:170-176 | the monitor is on and the sessions are unchanged, also when it was already on |
| `Watchdog.BrowserWatchdog.StopMonitoring` | src/browser_watchdog.py:178-187 | the monitor is off and the sessions are unchanged |
| `Watchdog.BrowserWatchdog.CheckAll` | src/browser_watchdog.py:134-142 | the failing sessions, in order; sessions that pass are refreshed |
| `Watchdog.BrowserWatchdog.UnregisterAll` | src/browser_watchdog.py:144-146 | exactly the listed sessions are removed and the others are unchanged |
| `Watchdog.BrowserWatchdog.Sweep` | src/browser_watchdog.py:134-146 | every session is probed; the failing ones are returned in registry order and are exactly the ones removed; the survivors are refreshed, and monitoring is unchanged |
| `Watchdog.BrowserWatchdog.MonitorTick` | src/browser_watchdog.py:123-168 | the failing sessions are reported and unregistered, the rest are refreshed, and `min_browsers - active` spawns are requested exactly when fewer than `min_browsers` are active |
| `TaskLog.Sanitized` | src/task_logger.py:62-65 | each of `\ / * ? : [ ]` becomes `_` and every other character is kept |
| `TaskLog.ReplaceInvalidChars` | src/task_logger.py:62-65 | the replacing loop yields `Sanitized` |
| `TaskLog.SheetBase` | src/task_logger.py:57-67 | the part before the first `@`, at most 31 characters, with the invalid characters replaced |
| `TaskLog.SheetNameOf` | src/task_logger.py:57-67 | "Unknown" for an empty user name; otherwise at most 31 characters, no `@` and no lower-case letter |
| `TaskLog.MakeRecord` | src/task_logger.py:29-55 | code "SN02", notes cut to 200 characters, the account found by the lower-cased e-mail, or "", and the decision and status title-cased by `Title` |
| `TextUtil.Title` | src/task_logger.py:46-47 | `str.title()` on ASCII: only the case changes (same lower-cased text), non-letters stay, and a letter is upper-case exactly when no letter precedes it |
| `TaskLog.TaskLogger.constructor` | src/task_logger.py:24-27 | the user name, and no completed tasks |
| `TaskLog.TaskLogger.SheetName` | src/task_logger.py:57-67 | the method yields `SheetNameOf` of the user name |
| `TaskLog.TaskLogger.LogTask` | src/task_logger.py:29-55 | exactly one record is appended and the completed count grows by one |
| `TaskLog.TaskLogger.CompletedCount` | src/task_logger.py:107-108 | the number of records logged |
| `TaskLog.AccountLookupExamples` | src/task_logger.py:8-16 | an illustration on fixed inputs (`MakeRecord` states the general lookup): a mapped e-mail in upper case finds its account name; an unmapped one gives "" |
| `TaskLog.SheetNameExample` | src/task_logger.py:57-67 | an illustration on one input (`SheetNameOf` states the general rule): `a/b@x.com` gives the sheet `A_B` |
| `Logging.Colorize` | src/logger_utils.py:84-86 | the colour's code (none for an unknown colour), the text, then the reset code |
| `Logging.ParamRun` | src/logger_utils.py:63-66 | the longest prefix of digits and semicolons |
| `Logging.AnsiMatch` | src/logger_utils.py:63-66 | a match is an `ESC [` … `m` sequence at the start of the text |
| `Logging.StripAnsi` | src/logger_utils.py:63-66 | stripping never lengthens the text |
| `Logging.StripAnsiKeepsPlainText` | src/logger_utils.py:63-66 | text with no escape character is unchanged |
| `Logging.StripAnsiUnchangedIffMatchFree` | src/logger_utils.py:63-66 | stripping leaves a text unchanged exactly when the pattern matches at no position, and any match shortens it |
| `Logging.ParamRunStopsAt` | src/logger_utils.py:63-66 | the parameter run of a code stops at its `m` |
| `Logging.CodeIsOneMatch` | src/logger_utils.py:63-66 | a colour code is matched as one sequence and stripping resumes after it |
| `Logging.StripAnsiIgnoresReset` | src/logger_utils.py:84-86 | (also lines 63-66) a trailing reset code is removed |
| `Logging.RunExtends` | src/logger_utils.py:63-66 | a trailing reset code does not extend a parameter run |
| `Logging.StripUndoesColorize` | src/logger_utils.py:84-86 | (also lines 63-66) stripping a coloured text gives the stripped text, so a text the pattern matches nowhere in (in particular one without ESC) comes back unchanged |
| `Logging.ShortEmail` | src/logger_utils.py:89-91 | at most the first 8 characters before `@`, upper-cased |
| `Logging.ShortTaskId` | src/logger_utils.py:167 | ids of at most 30 characters are kept, and longer ones become their last 30 characters |
| `Logging.ColorRegistry.constructor` | src/logger_utils.py:26-30 | no e-mail has a colour yet |
| `Logging.ColorRegistry.AccountColor` | src/logger_utils.py:76-81 | a known e-mail keeps its colour; the n-th new e-mail gets colour n mod 5; earlier assignments are kept |
| `Logging.ColorRegistry.LogIncompleteStatus` | src/logger_utils.py:216-238 | nothing for an empty list; otherwise a header and one line per incomplete account |
| `DataSheets.DedupSpec` | src/data_manager.py:150-159 | one name per header |
| `DataSheets.DedupHeaders` | src/data_manager.py:150-159 | the loop with its `seen` counters gives `DedupSpec`: the k-th repeat of `h` becomes `h_k` |
| `DataSheets.CountStep` | src/data_manager.py:150-159 | one more header adds one to its own count and nothing to the others |
| `DataSheets.CountInAbsent` | src/data_manager.py:150-159 | a header not yet seen has count 0 |
| `DataSheets.DistinctHeadersKept` | src/data_manager.py:150-159 | headers without repeats are unchanged |
| `DataSheets.CountInGrows` | src/data_manager.py:150-159 | a later position has seen the header at least once more |
| `DataSheets.RepeatsGetDistinctNames` | src/data_manager.py:150-159 | two copies of the same header get different names |
| `DataSheets.RenamingCanCollide` | src/data_manager.py:150-159 | the headers `a, a, a_1` become `a, a_1, a_1` |
| `DataSheets.ZipPrefix` | src/data_manager.py:160 | the keys are exactly the headers zipped so far |
| `DataSheets.ZipRecord` | src/data_manager.py:160 | the keys are exactly the headers that have a value in the row |
| `DataSheets.ZipLastColumnWins` | src/data_manager.py:160 | a header maps to the value of its last column |
| `DataSheets.IsInWhitelist` | src/data_manager.py:65-74 | true exactly when the id is a whitelisted UID or occurs inside a whitelisted link |
| `DataSheets.ShouldRefresh` | src/data_manager.py:81-86 | never without a sheet; otherwise exactly when the interval has elapsed |
| `DataSheets.Columns` | src/data_manager.py:160-164 | the frame's columns are exactly the keys that occur in some record |
| `DataSheets.SheetOf` | src/data_manager.py:160-164 | the frame has one row per record, read in order, and the columns of all records |
| `DataSheets.GetRecordCount` | src/data_manager.py:218-220 | 0 with no data, otherwise the row count |
| `DataSheets.FirstMatch` | src/data_manager.py:240-248 | the row found is the first whose trace id contains the id (ignoring case), and when none is found no row does |
| `DataSheets.GetDecision` | src/data_manager.py:222-275 | whitelisted ids give ACCEPT; no data gives UNSURE; a frame without a `trace_id` column raises exactly then; no matching row gives UNSURE; otherwise the first matching row's ACCEPT or REVISE column decides with its notes, and any other value goes to the score rules |
| `DataSheets.EmptySheetRaises` | src/data_manager.py:160-164 | (also lines 240-241) a sheet with no data rows raises for every id that is not whitelisted |
| `DataSheets.TracedRecordsDecide` | src/data_manager.py:160-164 | (also lines 240-241) records that all carry a trace id never raise |
| `ConfigFile.DigitRun` | run_watchdog.py:634 | the leading run of ASCII digits |
| `ConfigFile.FirstDigit` | run_watchdog.py:634 | the index of the first digit: none before it, and a digit there unless the line has none |
| `ConfigFile.FirstNumber` | run_watchdog.py:633-636 | no number exactly when the line has no digit; otherwise the value of the digit run that starts at the first digit |
| `ConfigFile.StrippedFields` | run_watchdog.py:658 | one stripped field per comma-separated piece |
| `ConfigFile.WatchdogAccount` | run_watchdog.py:657-668 | an account has a non-empty e-mail and password without commas, and the KPI of its third field (100 unless all digits) |
| `ConfigFile.MultiAccount` | run_multi.py:85-90 | an account has a non-empty e-mail and password; the password is everything after the first comma, stripped |
| `ConfigFile.ParseAccountLine` | run_watchdog.py:657-668 | comments and lines without a comma give no account; otherwise the dialect's rule |
| `ConfigFile.HeadersExclusive` | run_watchdog.py:628-655 | a line starts with at most one of the five setting headers |
| `ConfigFile.ApplyHeader` | run_watchdog.py:628-655 | each header sets its own setting (`headless` from "true" in the line, `max_concurrent` from the first number when there is one, the sheet, id and credentials from the text after the colon) and leaves the accounts and every other setting unchanged |
| `ConfigFile.StepLine` | run_watchdog.py:621-668 | `ACCOUNTS:` opens the section, other headers close it, and an account is appended only inside it |
| `ConfigFile.LoadConfig` | run_watchdog.py:602-670 | defaults when the file is absent; otherwise the line-by-line reading of its text |
| `ConfigFile.RunKeepsAccountsWellFormed` | run_watchdog.py:657-668 | every account read has a non-empty e-mail and password |
| `ConfigFile.RunOnlyAppends` | run_watchdog.py:621-668 | the reader only appends accounts |
| `ConfigFile.NoSectionNoAccounts` | run_watchdog.py:621-668 | without an `ACCOUNTS:` line no account is read |
| `ConfigFile.IndexOfAfter` | run_multi.py:86 | the first separator is the one after a separator-free prefix |
| `ConfigFile.SplitAtComma` | run_multi.py:86 | splitting at the first comma gives back the prefix and the rest |
| `ConfigFile.StripTrimmed` | run_watchdog.py:623 | already trimmed text is unchanged by strip |
| `ConfigFile.MultiKeepsCommasInPassword` | run_multi.py:85-90 | `email,pa,ss` in the pair reader gives the password `pa,ss` |
| `ConfigFile.WatchdogTwoFields` | run_watchdog.py:657-668 | `email,password` in the watchdog reader gives KPI 100 |
| `ConfigFile.ThreeFields` | run_watchdog.py:658 | `email,password,third` splits into its three fields |
| `ConfigFile.WatchdogThirdField` | run_watchdog.py:657-668 | the third field is the KPI exactly when it is all digits |
| `Runner.Min` | run_watchdog.py:218 | the smaller of the two |
| `Runner.SessionBudget` | run_watchdog.py:218-222 | `min(remaining, 100)`, which is at most 0 exactly when the KPI has nothing remaining |
| `Runner.ResumeSpawnCount` | run_watchdog.py:465 | as many browsers as wanted, but no more than are queued |
| `Runner.TopUpCount` | run_watchdog.py:559-566 | a top-up happens exactly when fewer than the minimum are active and something is queued, and it fills up to the minimum |
| `Runner.RequeueAfterSession` | run_watchdog.py:388-408 | a met KPI queues nothing; a full session appends; a short one appends only when the account is in neither queue; an unmet account always ends up in a queue |
| `Runner.RequeueDuplicates` | run_watchdog.py:394-408 | a short session keeps `normal` free of repeats; a full session of an already queued account repeats it |
| `Runner.PauseQueueProperties` | run_watchdog.py:443-449 | after the pause every cancelled account waits in a queue, the old queue is a prefix, only cancelled accounts are added, and none twice |
| `Runner.EmailOrder` | run_watchdog.py:62-65 | each configured e-mail once, in first-appearance order |
| `Runner.PasswordMap` | run_watchdog.py:62-65 | a password for exactly the configured e-mails |
| `Runner.KpiMap` | run_watchdog.py:62-65 | a KPI for exactly the configured e-mails |
| `Runner.LastLineWins` | run_watchdog.py:62-65 | a repeated e-mail takes the password and KPI of its last line |
| `Runner.PauseQueueSnoc` | run_watchdog.py:443-449 | one more walked account is appended exactly when it waits in no queue |
| `Runner.LiveKeys` | run_watchdog.py:478 | exactly the keys whose task is not done, in order, without repeats when the keys have none |
| `Runner.LiveKeysSnoc` | run_watchdog.py:443-444 | one more key adds itself exactly when its task is not done |
| `Runner.EndTask` | run_watchdog.py:377-408 | (also lines 135-139) the keys stay; only the entry still holding the finished task is marked done, and every other entry is unchanged |
| `Runner.DropDone` | run_watchdog.py:490-502 | the loop keeps exactly the tasks not done, with their values, and their keys in order |
| `Runner.PauseWalk` | run_watchdog.py:443-449 | the loop gives `PauseQueue` over the tasks not done |
| `Runner.LostRecord` | run_watchdog.py:133 | the entry becomes crashed with the watchdog's reason and keeps its counters |
| `Runner.CrashPathNeverExhausts` | run_watchdog.py:130-154 | however often the watchdog detects a crash, an account with work and budget keeps being requeued, because its restart count never grows |
| `Runner.RaiseAfterProgress` | run_watchdog.py:353-375 | a raise is judged on the progress recorded before it |
| `Runner.EndingAfterReports` | run_watchdog.py:348-408 | once the per-task reports have written a session's count, a finished or raised ending writes nothing more, and a cancelled ending leaves the entry unchanged |
| `Runner.SessionRestartSpendsBudget` | run_watchdog.py:353-375 | a session end that requeues the account spends one restart; one that does not leaves the count alone |
| `Runner.WatchdogRunner.constructor` | run_watchdog.py:39-57 | empty queues, no accounts, rotation 1 |
| `Runner.WatchdogRunner.NeedingWork` | run_watchdog.py:529-532 | (also lines 83-87) exactly the accounts below their KPI, in the given order, without repeats |
| `Runner.WatchdogRunner.NeedingWorkEmptyIffAllMet` | run_watchdog.py:510-539 | no account needs work exactly when every KPI is met |
| `Runner.WatchdogRunner.CollectNeedingWork` | run_watchdog.py:529-532 | the loop collects `NeedingWork` of the configured accounts |
| `Runner.WatchdogRunner.Initialize` | run_watchdog.py:59-87 | passwords and KPIs from the configuration (the last line wins), targets set, progress refreshed, and `normal` holds exactly the accounts still needing work |
| `Runner.WatchdogRunner.RefreshKpi` | run_watchdog.py:72-73 | (also line 390) every target's progress becomes the row count of its sheet; the targets, the runner's queues and the ledger are unchanged |
| `Runner.WatchdogRunner.Configure` | run_watchdog.py:59-70 | the password and KPI maps and the targets come from the configuration |
| `Runner.WatchdogRunner.LoadAccounts` | run_watchdog.py:62-65 | the loop fills the maps from the configuration lines |
| `Runner.WatchdogRunner.SetTargets` | run_watchdog.py:69-70 | every configured account gets its target |
| `Runner.WatchdogRunner.SpawnNext` | run_watchdog.py:162-208 | nothing outside work hours; the head of `incomplete` whenever it is non-empty, else the head of `normal`; no password drops the account, one whose task is not done goes to the back of its queue, otherwise a new task with the next spawn number takes its key (a new key goes last) |
| `Runner.WatchdogRunner.PopNext` | run_watchdog.py:169-181 | the head of `incomplete` whenever it is non-empty, and then `normal` is untouched; otherwise the head of `normal`, and then `incomplete` is untouched |
| `Runner.WatchdogRunner.Launch` | run_watchdog.py:183-202 | no password drops the account; a task that is not done sends it to the back of the queue it came from; otherwise it gets a new task as `StartTask` gives one; the drop and requeue paths leave the tasks unchanged |
| `Runner.WatchdogRunner.StartTask` | run_watchdog.py:199-202 | a new, not-done task with the next spawn number takes the key; a new key goes last and a reassigned key keeps its place |
| `Runner.WatchdogRunner.OnCrash` | run_watchdog.py:130-154 | the account is marked lost, its entry is popped from `running_tasks`, and it goes to the front of `incomplete` exactly when it has work left and may restart; `normal` and the configuration are unchanged |
| `Runner.WatchdogRunner.LoseAndRequeue` | run_watchdog.py:133-154 | the ledger side of a crash: marked lost, and requeued exactly when work and restarts remain |
| `Runner.WatchdogRunner.PopTask` | run_watchdog.py:136-139 | the key leaves `running_tasks` and its order; nothing else changes |
| `Runner.WatchdogRunner.BeginSession` | run_watchdog.py:210-227 | the budget is `SessionBudget`; a budget of at most 0 ends its session task without starting the account (its task is done), otherwise the account is started with that limit |
| `Runner.WatchdogRunner.HandleEnding` | run_watchdog.py:348-375 | a finished session records its count and is marked completed; a raise records its count, marks crashed and, while budget and work remain, marks restarting and puts the account at the front of `incomplete`; a cancellation writes nothing to the ledger and queues nothing |
| `Runner.WatchdogRunner.ApplyProgress` | run_watchdog.py:333-334 | (also lines 272-273 and 307-308) `update_progress` after each task: a known account's completed count becomes the session's count so far; no other entry changes, and an unknown account changes nothing |
| `Runner.WatchdogRunner.MarkFinished` | run_watchdog.py:349-350 | a known account becomes Completed with the session's count and keeps its other fields; no other entry changes |
| `Runner.WatchdogRunner.RecordRaise` | run_watchdog.py:352-375 | the crash is recorded and a restart queued while budget and work remain |
| `Runner.WatchdogRunner.EndSession` | run_watchdog.py:348-408 | the handlers (a cancelled session leaves the ledger entry as it finds it, even one a respawn has reset), then the KPI refresh and `RequeueAfterSession`; its own task is marked done by `EndTask`, and the keys of `running_tasks` do not change |
| `Runner.WatchdogRunner.Finally` | run_watchdog.py:377-408 | every target's progress becomes its sheet's row count with the targets kept, then the account is requeued by `RequeueAfterSession` on the refreshed KPI and task `id` is marked done by `EndTask` |
| `Runner.WatchdogRunner.Release` | run_watchdog.py:388-408 | the account requeued by `RequeueAfterSession` and task `id` marked done by `EndTask` |
| `Runner.WatchdogRunner.CleanUp` | run_watchdog.py:490-502 | the done tasks leave `running_tasks`; the others keep their values, and the keys become `LiveKeys` in their old order |
| `Runner.WatchdogRunner.PauseForWorkHours` | run_watchdog.py:443-449 | `normal` gains the accounts of the tasks not done by `PauseQueue`, in `running_tasks` order; nothing else changes |
| `Runner.WatchdogRunner.RotationStep` | run_watchdog.py:505-556 | not due while a task is not done or `normal` is non-empty; then stop exactly when every KPI is met, block (spawning only `incomplete`) exactly when `incomplete` is non-empty, and otherwise start the next rotation with exactly the accounts still needing work |
| `Runner.WatchdogRunner.DueRotation` | run_watchdog.py:507-556 | the due rotation check: stop, block or refill as above |
| `Runner.WatchdogRunner.Refill` | run_watchdog.py:541-547 | the rotation counter grows by one and `normal` becomes `NeedingWork` in configuration order |
| `Runner.WatchdogRunner.NextRotation` | run_watchdog.py:541-547 | the rotation counter grows by one and the given accounts are appended to `normal`; `incomplete`, the tasks and the configuration are unchanged |
| `MultiRunner.Pairs` | run_multi.py:328 | `ceil(n/2)` chunks of size 1 or 2, all of size 2 except perhaps the last |
| `MultiRunner.PairsTail` | run_multi.py:328 | the first pair is the first two accounts and the rest pair up the remainder |
| `MultiRunner.PairsCoverAccounts` | run_multi.py:328 | the pairs, concatenated, are the account list |
| `MultiRunner.BatchTasksConcat` | run_multi.py:242-245 | the tasks of two groups add up |
| `MultiRunner.BatchTasksZero` | run_multi.py:357-366 | (also lines 242-245) a group completes nothing exactly when each of its accounts completes nothing |
| `MultiRunner.PairsTotalIsAccountTotal` | run_multi.py:341-356 | the pair totals add up to the total over the concatenated accounts |
| `MultiRunner.RotationPairsTotal` | run_multi.py:328-356 | a rotation's pair totals add up to the total over all accounts |
| `MultiRunner.BatchRecord` | run_multi.py:95-217 | after a batch the entry keeps its restart count, has the given limit and rotation and the completed count, and is completed without error or crashed with one |
| `MultiRunner.RunBatch` | run_multi.py:95-217 | the ledger becomes `AfterBatch` and the batch's completed count is returned |
| `MultiRunner.EndBatch` | run_multi.py:196-207 | a started batch ends with the entry `Concluded`: its count recorded, then completed, or crashed with its error; no other entry and not the order changes |
| `MultiRunner.AfterBatchShape` | run_multi.py:95-217 | one batch sets exactly its account's entry |
| `MultiRunner.AfterBatchesKeepsAccounts` | run_multi.py:95-245 | a group of batches touches only its own accounts |
| `MultiRunner.AfterBatchesConcat` | run_multi.py:220-245 | running two groups one after the other is running their concatenation |
| `MultiRunner.AfterPairsIsAfterBatches` | run_multi.py:341-356 | running the pairs in turn is running the accounts in order |
| `MultiRunner.RunPair` | run_multi.py:220-245 | the pair's completed tasks are summed and the ledger becomes `AfterBatches` of the pair |
| `MultiRunner.FirstPasswordNone` | run_multi.py:268-273 | no password is found for an e-mail no line has |
| `MultiRunner.FirstPassword` | run_multi.py:268-273 | no password is found only when no line has the e-mail (`FirstPasswordNone` gives the converse) |
| `MultiRunner.FirstPasswordLoop` | run_multi.py:268-273 | the search loop finds `FirstPassword` |
| `MultiRunner.FirstPasswordAt` | run_multi.py:268-273 | the password found is that of the first line with the e-mail |
| `MultiRunner.CrashedEmailsMembers` | run_multi.py:250-254 | exactly the crashed accounts, without repeats when the keys have none |
| `MultiRunner.CrashedEmails` | run_multi.py:250-254 | no more e-mails than ledger keys, and every one reported is a crashed account |
| `MultiRunner.ReportEmails` | run_multi.py:261-262 | one e-mail per crash report, in order |
| `MultiRunner.CrashReportsAreCrashedEmails` | run_multi.py:250-262 | the ledger's crash reports name exactly `CrashedEmails` |
| `MultiRunner.RestartStepEffect` | run_multi.py:261-294 | a selected account is marked restarting and rerun with its remaining tasks as the limit, and its completed tasks are added; any other account changes nothing |
| `MultiRunner.RestartStep` | run_multi.py:261-294 | one crash report never adds or removes a ledger account and never lowers the running total |
| `MultiRunner.StepFromTotal` | run_multi.py:261-294 | one restart step adds its own tasks to the running total |
| `MultiRunner.RestartAllKeepsUnreported` | run_multi.py:261-294 | an account that is not reported crashed is untouched |
| `MultiRunner.RestartAll` | run_multi.py:261-297 | the whole restart loop keeps the set of ledger accounts and never lowers the total |
| `MultiRunner.RestartedAtMostOnce` | run_multi.py:261-294 | each crashed account is rerun at most once per call, and only with budget left (restart count then at most 3) and with its remaining tasks as the limit |
| `MultiRunner.RestartCrashedAccounts` | run_multi.py:248-297 | the ledger and the total become `RestartAll` over the crashed accounts in ledger order |
| `MultiRunner.RestartOne` | run_multi.py:261-294 | one restart decision is `RestartStep` |
| `MultiRunner.RotationTotalZero` | run_multi.py:341-366 | a rotation completes nothing exactly when each pair session and each rerun completes nothing |
| `MultiRunner.Rotate` | run_multi.py:348-356 | the restarts after the pairs keep the ledger's order and accounts as the pairs left them |
| `MultiRunner.RotationStepExists` | run_multi.py:300-366 | the rotation function satisfies the step contract `RunRotations` is stated with |
| `MultiRunner.RunRotation` | run_multi.py:341-362 | the pairs run in order, then the crashed accounts are rerun; the ledger and the total are those of `Rotate` |
| `MultiRunner.RunRotations` | run_multi.py:300-366 | no rotation without accounts; at most 100 rotations, each ledger the rotation step of the one before, every rotation but the last completes something, and the last completes nothing unless the limit was reached |

## Left out

- Browser driving (Playwright pages, logins, task pages and the bot in src/snorkel_bot.py and src/browser_manager.py). A session's outcome is an input: a `Batch` in `MultiRunner`, and a completed count with a `SessionEnd` in `Runner`.
- asyncio concurrency: task creation and cancellation, locks, `sleep` pacing, `gather`, and the scheduling of the background monitor loop. Each step is one atomic method call.
- MultiRunner.RunRotation: the two accounts of a pair run concurrently in the source and one after the other in the model. The ledger differs only when the same e-mail appears twice in the account list.
- MultiRunner.RunBatch: per-task `update_progress` calls are collapsed into the final completed count, and a browser-launch failure is a `Batch` with 0 tasks and an error.
- MultiRunner.RunRotations: the ledger history is stated through a step function tied to `MultiRunner.Rotate` by `StepIsRotate`, and `RotationStepExists` shows that `Rotate` itself is such a step.
- The watchdog's `register_browser`/`unregister_browser` calls inside `_run_account` are not part of `Runner`. The registry is modelled on its own in `Watchdog`.
- `_on_need_spawn` and the callback wiring of the watchdog. The spawn request is the result of `MonitorTick`.
- File and network I/O: the ledger's JSON file, Excel reads and writes, Google Sheets access and the whitelist file. A workbook is a value and the whitelist is two sets.
- The score thresholds and random draws of `get_decision`, the random refresh interval and the human-like delays: floating point and randomness. `DataSheets.GetDecision` stops at the `ScoreRules` outcome.
- A frame read from a local CSV or Excel file (`load_data`) has the columns of its header row even without data rows. The model takes such a frame as a `Sheet` value; `DataSheets.SheetOf` builds only the frame of the Google Sheets loaders.
- The pandas `str.contains` lookup is regex-based. `DataSheets.FirstMatch` models it as a plain, case-insensitive substring search.
- The wall clock: time is a parameter everywhere.
- Console and file logging (`print`, log handlers, `log_status`, `log_separator`, `print_status`, `get_status_message`), apart from the string helpers in `Logging`.
- analyze_decision_pattern.py, analyze_columns.py, main.py and test.py: one-off scripts outside the scheduler.
- config.py holds only constants. The values the model uses (100 tasks per rotation, 3 restarts, 100 rotations) are constants in the modules, and the minimum browser count is a parameter.
- Python's `isdigit`, `int` and the regex `\d` also accept non-ASCII digits. The model accepts ASCII digits only.
- Case mapping (`upper`, `lower`, `title`) covers ASCII letters only.
