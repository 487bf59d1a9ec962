# WranglerMaster automation supervisor, modelled in Dafny

WranglerMaster is a desktop controller for a fleet of "Wrangler" agents. Each
agent is reached over HTTP at a `host:port`. The controller keeps a list of
instances and a default work order (a JSON path). It can start, stop or
resume every enabled agent at once. For a single agent it can also run an
"advanced" mode:

- a **timer** starts the agent now and stops it (and optionally sends it home)
  once the configured hours and minutes have passed;
- a **schedule** keeps the agent running inside a daily window, which may wrap
  past midnight.

There are two editions. `WranglerMaster/wrangler_master.py` uses Tk and
holds the whole supervisor. `WranglerMaster/wrangler_master_flet.py` uses
Flet; it has the instance list, the bulk actions and the status panel, but
no timers or schedules.

The model consists of these modules:

- `Text` (text.dfy): the Python string operations the application relies on:
  `strip`, `capitalize`, and decimal formatting of integers.
- `RunConfig` (run_config.dfy): `AdvancedRunConfig`, `WranglerInstance`, and
  the round trip of the configuration through the stored dictionary.
- `Dialogs` (dialogs.dfy): the validation rules of the advanced-run dialog and
  of the add-instance dialog, in both editions.
- `Client` (client.dfy): how `get_status` turns an HTTP outcome into an
  `InstanceStatus`, and `run_order`'s choice of payload.
- `Panel` (panel.dfy): `InstancePanel.update_status` as a pure mapping from a
  status to what the panel shows, for both editions.
- `Tallies` (tallies.dfy): the counting loops of "start all", "stop all" and
  "resume all".
- `Automation` (schedule.dfy): the actions sent to an agent, the timer rule,
  the schedule window, the schedule decision, and lemmas about repeated checks.
- `Supervisor` (supervisor.dfy): the Tk `WranglerMasterApp` as a class. It
  holds the instance list, the default path, the timer table and the schedule
  table. Its methods add, remove, arm, check and run.
- `FletMaster` (flet_master.dfy): the Flet `WranglerMasterApp` as a class.

How the outside world enters the model:

- **Time.** The current time is a parameter: an `int` count of seconds for
  timers, and an hour and minute for schedules. A second parameter,
  `latest`, is the last second a `datetime` can hold; a timer whose end
  would fall after it raises `OverflowError` in the source.
- **Network.** Each HTTP status reply is a `FetchOutcome` parameter. The
  result of each run, stop or resume request is a parameter `ok`, a function
  from the position in the list to a success flag.
- **Threads.** Instead of starting a background thread, an operation returns
  the `Dispatch` it would start: the key, and the requests in order (`Run`,
  `Resume`, `Stop`, then `GoHome`).
- **Dialogs.** The outcome of a dialog is a parameter: the typed fields after
  `int()`, the chosen file (empty when cancelled), or the dialog's result.

`_check_timers` and `_check_schedules` visit the keys of their table in
insertion order, as Python dictionaries do, so the order in which their
threads are started is fixed. The model picks the next key arbitrarily
(`k :| k in pending`), and the contracts speak only of the set of dispatched
keys, each key's dispatch and the final tables, never of the order of the
dispatch list.

Some behaviours of the code are easy to miss; the model follows the code:

- An unreachable agent is not skipped by the schedule check. `get_status`
  leaves `is_executing` at its default `False`. Inside the window such an
  agent is sent a start (once); outside the window it is never stopped
  (`Supervisor.UnreachableAgentTick`).
- Adding an instance does not check for an existing instance with the same
  `host:port`. Two entries can then share one timer and one schedule key.
- Starting one mode does not remove the key's entry from the other table. A
  timer armed earlier still fires after a schedule is started for the same
  agent (`StartScheduleMode` leaves `timers` as it was).
- "Resume all" in the Tk edition counts an unreachable agent as failed. The
  Flet edition counts it as skipped (`Tallies.ResumeTallyFacts`).
- The Flet add dialog accepts an empty name, an empty host and any port that
  parses (`Dialogs.FletAcceptsWhatTkRefuses`).
- The Flet `active_timers` field (wrangler_master_flet.py:500) is created but
  never used, so `FletMaster.FletApp` has no timer table.

## Model

| member | source | states |
|---|---|---|
| Text.LeadingSpace | WranglerMaster/wrangler_master.py:1842-1844 | the count of leading whitespace (Python `isspace`): every counted character is whitespace and the next one is not |
| Text.TrailingSpace | WranglerMaster/wrangler_master.py:1842-1844 | the count of trailing whitespace: every counted character is whitespace and the one before them is not |
| Text.Strip | WranglerMaster/wrangler_master.py:1842-1844 | definition of `str.strip()`; see StripBounds, StripEnds, StripIsTrimmedInfix, StripEmptyIff and StripUnchanged |
| Text.StripBounds | WranglerMaster/wrangler_master.py:1842-1844 | `strip()` returns a contiguous slice `s[i..j]` with only whitespace before `i` and from `j` on |
| Text.StripEnds | WranglerMaster/wrangler_master.py:1842-1844 | a stripped string is empty or neither starts nor ends with whitespace |
| Text.StripIsTrimmedInfix | WranglerMaster/wrangler_master.py:1842-1844 | `strip()` keeps a middle part and drops only whitespace around it |
| Text.StripEmptyIff | WranglerMaster/wrangler_master.py:1846-1852 | a field strips to empty exactly when it is all whitespace, so it is the blank fields that are refused as "required" |
| Text.StripUnchanged | WranglerMaster/wrangler_master.py:1842-1844 | a string with no whitespace at either end strips to itself |
| Text.Capitalize | WranglerMaster/wrangler_master.py:522 | `capitalize()` keeps the length, upper-cases the first letter and lower-cases the rest (ASCII letters) |
| Text.NatToString | WranglerMaster/wrangler_master.py:537-544 | the decimal text of a number: non-empty, digits only, no leading zero unless it is "0" |
| Text.IntToString | WranglerMaster/wrangler_master.py:1400 | the decimal text of an integer starts with "-" exactly when it is negative |
| Text.NatToStringRoundTrip | WranglerMaster/wrangler_master.py:537-544 | reading the digits back gives the number |
| Text.NatToStringInjective | WranglerMaster/wrangler_master.py:1400 | distinct numbers have distinct texts, so the port part of a key names one port |
| RunConfig.NewInstance | WranglerMaster/wrangler_master.py:68-76 | a new instance has the given name, host and port, is enabled, has no go-home and no stored configuration |
| RunConfig.KeyOf | WranglerMaster/wrangler_master.py:1400 | definition of the `"host:port"` key, the same f-string as at 1192, 1201, 1329, 1434 and 1576; see SetAdvancedConfig, NatToStringInjective and RegisteredAfterUpdate |
| RunConfig.ToDict | WranglerMaster/wrangler_master.py:87-98 | `set_advanced_config` stores a dictionary with exactly the eight field names |
| RunConfig.SetAdvancedConfig | WranglerMaster/wrangler_master.py:87-98 | storing a configuration changes only the stored dictionary, so the instance keeps its `host:port` key |
| RunConfig.GetAdvancedConfig | WranglerMaster/wrangler_master.py:81-85 | definition of `get_advanced_config`; see GetAfterSet, SetAfterGet and GetWithoutStoredConfig |
| RunConfig.FromDict | WranglerMaster/wrangler_master.py:85 | definition of `AdvancedRunConfig(**d)`; see FromDictDefaultsMissingFields, FromDictRejectsUnknownKey, GetAfterSet and SetAfterGet |
| RunConfig.GetAfterSet | WranglerMaster/wrangler_master.py:81-98 | `get_advanced_config` after `set_advanced_config(c)` returns `c` |
| RunConfig.SetAfterGet | WranglerMaster/wrangler_master.py:81-98 | a full, well-typed stored dictionary read back and stored again is the same dictionary |
| RunConfig.GetWithoutStoredConfig | WranglerMaster/wrangler_master.py:55-64 | with nothing stored the result is `none`, 0h30m, 08:00-22:00, no resume |
| RunConfig.FromDictDefaultsMissingFields | WranglerMaster/wrangler_master.py:81-85 | for each of the eight fields, a value present in the stored dictionary is used and a missing one takes its dataclass default |
| RunConfig.FromDictRejectsUnknownKey | WranglerMaster/wrangler_master.py:81-85 | a stored key that is not a field makes the constructor fail |
| Dialogs.BuildAndValidate | WranglerMaster/wrangler_master.py:903-936 | accepted exactly when all six numbers parse and the mode's own rules hold; the accepted configuration carries every typed field; a parse failure is reported first |
| Dialogs.TimerModeChecks | WranglerMaster/wrangler_master.py:917-921 | timer mode reports "negative" exactly for a negative hour or minute count, and "too short" exactly for 0h0m; accepted timers last at least a minute |
| Dialogs.TimerModeIgnoresSchedule | WranglerMaster/wrangler_master.py:917-921 | in timer mode the schedule entries do not affect acceptance |
| Dialogs.ScheduleModeChecks | WranglerMaster/wrangler_master.py:922-930 | schedule mode accepts exactly hours in 0-23 and minutes in 0-59 for both ends; a bad start hour is the error reported |
| Dialogs.ScheduleModeIgnoresTimer | WranglerMaster/wrangler_master.py:922-930 | in schedule mode the timer entries do not affect acceptance |
| Dialogs.OtherModesUnchecked | WranglerMaster/wrangler_master.py:903-936 | "none" and any other mode string accept whatever parsed, out-of-range values included |
| Dialogs.ValidationExamples | WranglerMaster/wrangler_master.py:903-936 | boundary cases: 0h0m refused, 0h1m accepted, start hour 24 refused, an overnight schedule accepted, negative values accepted in "none" mode |
| Dialogs.ValidateNewInstance | WranglerMaster/wrangler_master.py:1840-1863 | the add dialog accepts exactly a non-blank stripped name and host with a port in 1..65535, and the instance gets the stripped values |
| Dialogs.BlankNameRefused | WranglerMaster/wrangler_master.py:1846-1848 | an all-whitespace name is refused as "name required", whatever else was typed |
| Dialogs.AcceptedFieldsAreTrimmed | WranglerMaster/wrangler_master.py:1842-1863 | an accepted instance's name and host have no surrounding whitespace |
| Dialogs.FletNewInstance | WranglerMaster/wrangler_master_flet.py:934-950 | the Flet add dialog builds an instance exactly when the port parses, from the stripped name and host |
| Dialogs.FletAcceptsWhatTkRefuses | WranglerMaster/wrangler_master_flet.py:934-950 | a blank name or host, or a port outside 1..65535, is refused by the Tk dialog and accepted by the Flet one |
| Client.GetStatus | WranglerMaster/wrangler_master.py:126-164 | `reachable` exactly on HTTP 200 with a readable body; otherwise `error` is set and every other field keeps its default (in particular `is_executing` is false); a non-200 code is named as "HTTP <code>" |
| Client.ReachableStatusFromBody | WranglerMaster/wrangler_master.py:136-147 | a 200 reply with a readable body is reachable with no error, and each of its ten fields is the body's value when the key is present and the dataclass default ("unknown", "None", "Unknown", `False`, 0) when it is absent |
| Client.HttpErrorNamesCode | WranglerMaster/wrangler_master.py:149-151 | two non-200 replies with the same error text had the same code |
| Client.RunPayloadFor | WranglerMaster/wrangler_master.py:182-187 | a non-empty path is sent when given, else non-empty content; with neither the call fails with its fixed message and sends nothing |
| Panel.StateText | WranglerMaster/wrangler_master_flet.py:423-440 | the label is never empty, and is "Unreachable" for any unreachable status |
| Panel.StateTextLabels | WranglerMaster/wrangler_master.py:504-522 | a reachable agent's label depends on its state string only: "executing", "pending", "idle" and "stopped" show "Executing", "Pending", "Idle" and "Bot Stopped", an empty state shows "Unknown", and any other state shows `capitalize()` of its text |
| Panel.UnreachableLabelIgnoresState | WranglerMaster/wrangler_master_flet.py:423-425 | all unreachable statuses show the same label |
| Panel.RuntimeParts | WranglerMaster/wrangler_master_flet.py:453-454 | the two `divmod` steps give `h*3600 + m*60 + s == runtime` with `m, s < 60` |
| Panel.RuntimePartsUnique | WranglerMaster/wrangler_master_flet.py:453-454 | that decomposition is the only one with minutes and seconds below 60 |
| Panel.ClockText | WranglerMaster/wrangler_master.py:537-544 | definition of the runtime text; see ClockTextUnderMinute, ClockTextUnderHour and ClockTextHours |
| Panel.RuntimeText | WranglerMaster/wrangler_master_flet.py:452-462 | the runtime line is non-empty exactly while executing with a positive runtime |
| Panel.ClockTextUnderMinute | WranglerMaster/wrangler_master_flet.py:459-460 | under a minute only the seconds are shown ("Zs") |
| Panel.ClockTextUnderHour | WranglerMaster/wrangler_master_flet.py:457-458 | under an hour the text is "Ym Zs" |
| Panel.ClockTextHours | WranglerMaster/wrangler_master_flet.py:455-456 | from an hour on, the text is "Xh Ym Zs" with the hours, the minutes of the remainder and the seconds |
| Panel.ShownFile | WranglerMaster/wrangler_master_flet.py:465-468 | an empty file shows "None"; a name up to the limit is shown as is; a longer one becomes "..." and its last `keep` characters; the result is never longer than the limit |
| Panel.FileLine | WranglerMaster/wrangler_master.py:549-553 | definition of the file line, "File: " and the shown name; see ShownFile, TkView and FletView |
| Panel.ShownFileKeepsEnd | WranglerMaster/wrangler_master.py:549-551 | the end of the file name (up to `keep` characters) always ends the shown text |
| Panel.CharacterText | WranglerMaster/wrangler_master.py:527-532 | a reachable agent whose character name is not "Unknown" shows "name @ world"; an unreachable agent, or one whose name is "Unknown", shows "Character: Unknown" |
| Panel.ButtonStates | WranglerMaster/wrangler_master_flet.py:471-477 | Run exactly when reachable and idle or stopped; Resume exactly when Run and incomplete orders exist; Stop exactly when reachable and executing |
| Panel.ButtonsOfUnreachable | WranglerMaster/wrangler_master.py:555-558 | no button is enabled on an unreachable panel, such as after a connection error or a timeout |
| Panel.TkCanAdvanced | WranglerMaster/wrangler_master.py:558 | the Tk "advanced" button is enabled exactly when Run is |
| Panel.View | WranglerMaster/wrangler_master.py:500-564 | definition of the whole panel mapping, parameterised by the file-name limit; see TkView, FletView and EditionsDifferOnlyInFileLine |
| Panel.TkView | WranglerMaster/wrangler_master.py:500-564 | the Tk panel's file line is at most "File: " plus 30 characters |
| Panel.FletView | WranglerMaster/wrangler_master_flet.py:419-482 | the Flet panel's file line is at most "File: " plus 35 characters |
| Panel.EditionsDifferOnlyInFileLine | WranglerMaster/wrangler_master_flet.py:465-468 | the two panels agree on everything but the file line; they agree fully up to 30 characters, and differ for names of 31 to 35 characters, which only the Flet panel shows whole |
| Tallies.EnabledBelowMembers | WranglerMaster/wrangler_master.py:1605-1607 | the contacted positions are exactly the enabled ones, each once and in list order |
| Tallies.RequestAll | WranglerMaster/wrangler_master_flet.py:814-824 | every enabled instance, and no disabled one, is sent one request; successes count the successful ones and `successes + failures` is the number contacted |
| Tallies.RequestAllCoverage | WranglerMaster/wrangler_master.py:1605-1613 | an instance is contacted exactly when it is enabled |
| Tallies.EnabledCount | WranglerMaster/wrangler_master.py:1605-1613 | the number contacted, so `successes + failures`, equals the number of enabled instances, on every list including the empty one |
| Tallies.DistinctCard | WranglerMaster/wrangler_master.py:1605-1613 | a list without repeats has as many elements as its set |
| Tallies.ResumeOutcome | WranglerMaster/wrangler_master.py:1669-1686 | an eligible agent's outcome is its resume result; an ineligible reachable one is skipped; an unreachable one is failed in Tk and skipped in Flet |
| Tallies.ResumeOutcomeEditions | WranglerMaster/wrangler_master_flet.py:858-873 | the editions give the same outcome except for unreachable agents |
| Tallies.EligibleAmong | WranglerMaster/wrangler_master_flet.py:858-868 | a resume is sent exactly to the probed agents that are reachable, not executing and have incomplete orders |
| Tallies.ResumeTallyFacts | WranglerMaster/wrangler_master.py:1659-1697 | every probed agent lands in exactly one bucket in both editions; successes agree; Tk's failures and Flet's skips each exceed the other's by the number of unreachable agents |
| Tallies.ResumeAll | WranglerMaster/wrangler_master_flet.py:854-873 | probes exactly the enabled instances, resumes exactly the eligible ones, and returns the edition's tally |
| Automation.StartActions | WranglerMaster/wrangler_master.py:1530-1536 | a start is one request: Resume when the configuration says so, otherwise Run with the default path |
| Automation.StopActions | WranglerMaster/wrangler_master.py:1552-1564 | a stop is Stop, followed by GoHome exactly when `go_home_after_session` |
| Automation.TimerSeconds | WranglerMaster/wrangler_master.py:1401 | definition of the timer length in seconds; see Supervisor.Master.StartTimerMode |
| Automation.Fires | WranglerMaster/wrangler_master.py:1458-1461 | definition of the firing test (not yet stopped, end time reached); see TimersAfter, TimerFiresAtMostOnce and Supervisor.Master.CheckTimers |
| Automation.TimersAfter | WranglerMaster/wrangler_master.py:1486-1488 | after a check, the fired entries are gone and every other entry is unchanged |
| Automation.FireCountWithoutEntry | WranglerMaster/wrangler_master.py:1457-1460 | a key with no timer never fires |
| Automation.TimerFiresAtMostOnce | WranglerMaster/wrangler_master.py:1457-1488 | over any sequence of checks a timer fires at most once, and fires exactly once if it was armed and some check was at or after its end |
| Automation.ExpiredTimerStopsOnce | WranglerMaster/wrangler_master.py:1462-1466 | an armed timer whose end has passed at every check fires exactly once |
| Automation.MinutesOfDay | WranglerMaster/wrangler_master.py:1509-1511 | definition of the minute of the day; see WindowExamples |
| Automation.InWindow | WranglerMaster/wrangler_master.py:1514-1519 | definition of the window test; see SameDayWindow, OvernightIsComplement, WindowLength and WindowExamples |
| Automation.SameDayWindow | WranglerMaster/wrangler_master.py:1514-1516 | with start ≤ end the window is `start <= cur < end`, so a window with start = end is always closed |
| Automation.OvernightIsComplement | WranglerMaster/wrangler_master.py:1517-1519 | with start > end the window is `cur >= start or cur < end`, the complement of the window from end to start |
| Automation.MinutesInWindowPrefix | WranglerMaster/wrangler_master.py:1510-1519 | how many of the first n minutes of the day are in the window, in closed form |
| Automation.WindowLength | WranglerMaster/wrangler_master.py:1510-1519 | a day has `end - start` open minutes, or `1440 - start + end` for an overnight window |
| Automation.WindowExamples | WranglerMaster/wrangler_master.py:1514-1519 | 08:00-22:00 opens at 08:00 and closes at 22:00; 22:00-06:00 is open at 23:00 and 05:59, closed at 06:00 and noon |
| Automation.Decide | WranglerMaster/wrangler_master.py:1524-1550 | definition of the start/stop rule; see DecideCases, NoSecondStart, NoSecondStop, DecisionsAlternate and InWindowStartsOnce |
| Automation.Apply | WranglerMaster/wrangler_master.py:1524-1550 | a check only ever changes the entry's last action, and holding leaves the entry as it was |
| Automation.DecisionDispatch | WranglerMaster/wrangler_master.py:1524-1569 | a check dispatches at most one thread, for its own key, and nothing exactly when it holds |
| Automation.DecideCases | WranglerMaster/wrangler_master.py:1524-1550 | a start exactly in the window with no earlier start while not executing; a stop exactly outside the window with no earlier stop while executing; otherwise nothing |
| Automation.NoSecondStart | WranglerMaster/wrangler_master.py:1526 | after a start, no later in-window check starts again, whatever the agent reports |
| Automation.NoSecondStop | WranglerMaster/wrangler_master.py:1548 | after a stop, no later out-of-window check stops again |
| Automation.DecisionsAlternate | WranglerMaster/wrangler_master.py:1524-1550 | over any run of checks the dispatched actions alternate start, stop, start, and the first one is the opposite of the last recorded action |
| Automation.InWindowStartsOnce | WranglerMaster/wrangler_master.py:1524-1528 | a run of checks all inside the window dispatches at most one start and no stop, and none once started |
| Supervisor.RemoveFirst | WranglerMaster/wrangler_master.py:1582 | `list.remove` on a missing value leaves the list as it was |
| Supervisor.RemoveFirstAt | WranglerMaster/wrangler_master.py:1582 | removing the first equal element is cutting that one position out |
| Supervisor.RemoveFirstMultiset | WranglerMaster/wrangler_master.py:1582 | one copy is removed and every other element kept |
| Supervisor.RegisteredAfterCut | WranglerMaster/wrangler_master.py:1576-1582 | cutting an instance out keeps every other instance's key registered |
| Supervisor.RegisteredAfterUpdate | WranglerMaster/wrangler_master.py:1346 | storing a configuration on an instance leaves the set of keys unchanged |
| Supervisor.KeySetMembers | WranglerMaster/wrangler_master.py:1486-1488 | the deleted keys are exactly the collected ones |
| Supervisor.DispatchedKeysConcat | WranglerMaster/wrangler_master.py:1492-1496 | the keys of two dispatch lists together are the union of their keys |
| Supervisor.SchedulesAfter | WranglerMaster/wrangler_master.py:1490-1496 | a schedule pass keeps the same keys |
| Supervisor.MarkFire | WranglerMaster/wrangler_master.py:1462-1466 | marking a firing entry keeps the timer-check loop's invariant |
| Supervisor.MarkDone | WranglerMaster/wrangler_master.py:1486-1488 | when the loop ends, deleting the collected keys gives the table after the check and the dispatches name exactly the fired keys |
| Supervisor.PassSentStep | WranglerMaster/wrangler_master.py:1494-1496 | checking one more key keeps the schedule pass's dispatch invariant |
| Supervisor.PassDone | WranglerMaster/wrangler_master.py:1490-1496 | when the pass ends, the dispatches cover exactly the entries whose decision is not to hold |
| Supervisor.Master.constructor | WranglerMaster/wrangler_master.py:946-965 | the application starts with no instances, no default path, and empty timer and schedule tables |
| Supervisor.Master.AddInstance | WranglerMaster/wrangler_master.py:1240-1251 | appends the validated instance exactly when the dialog accepts it, with no duplicate check; otherwise reports the dialog's error and changes nothing |
| Supervisor.Master.Remove | WranglerMaster/wrangler_master.py:1571-1585 | afterwards the key is in neither table and every other entry is unchanged; the first equal instance is removed; with none, the list is unchanged and the result is false |
| Supervisor.Master.NoneModeDispatch | WranglerMaster/wrangler_master.py:1375-1396 | none mode dispatches one start for the key and keeps no automation state |
| Supervisor.Master.StartTimerMode | WranglerMaster/wrangler_master.py:1398-1430 | when the end `now + 3600h + 60m` is representable, the key's timer becomes that end, not stopped, replacing any earlier entry, and one start is dispatched; past the clock's last second (`OverflowError`) nothing is armed or dispatched; no stop is ever dispatched |
| Supervisor.Master.CheckScheduleForInstance | WranglerMaster/wrangler_master.py:1498-1569 | an unknown key does nothing; otherwise the entry gets the decision at the given minute for the fetched status, and the decision's dispatch is returned |
| Supervisor.Master.WindowOpen | WranglerMaster/wrangler_master.py:1509-1519 | the loop's window test agrees with `InWindow` on the entry's start and end minutes, so it inherits the same-day and overnight rules |
| Supervisor.Master.StartScheduleMode | WranglerMaster/wrangler_master.py:1432-1450 | a fresh entry with no last action replaces any earlier one and is checked at once; the timer table is untouched |
| Supervisor.Master.CheckTimers | WranglerMaster/wrangler_master.py:1452-1488 | the table becomes the one with the fired entries deleted; exactly the fired keys are dispatched, each once, with Stop and GoHome as its instance asks |
| Supervisor.Master.MarkDue | WranglerMaster/wrangler_master.py:1457-1484 | the first pass marks exactly the firing entries as stopped and collects each of them once |
| Supervisor.Master.DeleteTimers | WranglerMaster/wrangler_master.py:1486-1488 | the second pass deletes exactly the collected keys |
| Supervisor.Master.CheckSchedules | WranglerMaster/wrangler_master.py:1490-1496 | every entry gets its own decision at the same minute; a dispatch is sent for exactly the keys whose decision is not to hold, at most one per key |
| Supervisor.Master.AdvancedRun | WranglerMaster/wrangler_master.py:1326-1373 | a cancel does nothing; otherwise the configuration is stored on the instance, "save" stops there, a fresh run with no default path asks for one and stops if none is chosen, then the chosen mode starts ("none", "timer", anything else as a schedule) |
| Supervisor.Master.RunWithPath | WranglerMaster/wrangler_master.py:1352-1373 | the default path is set from the picker only for a fresh run without one; a cancelled picker changes nothing else |
| Supervisor.Master.StartMode | WranglerMaster/wrangler_master.py:1364-1373 | "none" dispatches a start and keeps no state; "timer" arms the timer and dispatches a start, or does neither when the end time overflows; anything else arms and checks a schedule |
| Supervisor.Master.StartAll | WranglerMaster/wrangler_master.py:1587-1624 | without a default path the picked file is used and the default is not changed; a cancelled picker sends nothing; otherwise every enabled instance is contacted once |
| Supervisor.Master.StopAll | WranglerMaster/wrangler_master.py:1626-1653 | every enabled instance is asked to stop once, and the tally covers them all |
| Supervisor.Master.ResumeAllTk | WranglerMaster/wrangler_master.py:1655-1697 | each enabled instance is counted once; failures are the failed resumes plus the unreachable agents |
| Supervisor.Master.RemoveThenTick | WranglerMaster/wrangler_master.py:1576-1580 | after a removal, neither the next timer check nor the next schedule pass dispatches anything for the key |
| Supervisor.UnreachableAgentTick | WranglerMaster/wrangler_master.py:1521-1550 | an unreachable agent is never stopped by its schedule, and is started exactly when in the window with no earlier start |
| Supervisor.StartWithoutWorkOrder | WranglerMaster/wrangler_master.py:1530-1536 | a fresh start with an empty default path sends `Run("")`, and `run_order` refuses that without any request |
| FletMaster.FletApp.constructor | WranglerMaster/wrangler_master_flet.py:492-499 | the application starts with no instances and no default path |
| FletMaster.FletApp.AddInstance | WranglerMaster/wrangler_master_flet.py:934-956 | appends the stripped instance exactly when the port parses, otherwise changes nothing |
| FletMaster.FletApp.Remove | WranglerMaster/wrangler_master_flet.py:769-791 | removes the first equal instance; with none, the list is unchanged and the result is false |
| FletMaster.FletApp.StartAll | WranglerMaster/wrangler_master_flet.py:800-805 | the default path, or else the picked file, is used; an empty path sends nothing; any other becomes the default and every enabled instance is contacted |
| FletMaster.FletApp.DoStartAll | WranglerMaster/wrangler_master_flet.py:807-828 | an empty path does nothing; any other becomes the default and is sent to every enabled instance |
| FletMaster.FletApp.StopAll | WranglerMaster/wrangler_master_flet.py:830-848 | every enabled instance is asked to stop once, and the tally covers them all |
| FletMaster.FletApp.ResumeAll | WranglerMaster/wrangler_master_flet.py:850-881 | each enabled instance is counted once; skipped are exactly those not resumed, unreachable ones included |

## Left out

- HTTP requests are not modelled. The status reply is a `FetchOutcome`, and the result of each run, stop, resume or go-home request is a success flag. `health_check` is not modelled. The reply messages and the JSON decoding of the body are abstract.
- JSON values of the wrong type in a status body are not modelled. Python would store them as they are; `StatusBody` fixes each field's type.
- `int()` parsing of the dialog fields is not modelled: each field arrives already parsed or as a parse failure. The error message texts are not modelled either.
- The order in which `CheckTimers` and `CheckSchedules` list their dispatches is not modelled: the source follows insertion order, and the model promises only which keys are dispatched and with what requests.
- `Supervisor.Master.StartTimerMode`: only an end time past the clock's last second is modelled as `OverflowError`; an end before its first second cannot arise, since the dialog refuses negative durations in timer mode.
- Threads, `time.sleep` settle delays, `root.after`, the polling loops and the once-per-second check timer are left out. Each check is one sequential step. The unguarded sharing of the two tables between threads is left out for the same reason.
- Dispatched threads read `default_json_path` when they run, not when they are started. The model records the path at dispatch time.
- Timer and schedule entries hold a copy of the instance. In the source they hold the same object, so a later go-home toggle (wrangler_master.py:593-598) reaches an armed entry; the copy does not see it.
- The schedule check's clock is read per key in the source; `CheckSchedules` uses one minute for the whole pass.
- `Supervisor.Master.Remove` and `FletMaster.FletApp.Remove` model only the confirmed case of the yes/no dialog. When no instance is equal, `list.remove` would raise `ValueError`; the model returns false instead. In the Tk edition the two tables have already been cleaned at that point.
- The manual single-instance actions (`_on_panel_run`, `_on_panel_stop`, `_on_panel_resume`, and the Flet `_on_run`, `_on_stop`, `_on_resume`) are not modelled. Each sends one request and has no automation state.
- `_set_json_path` and the Flet file picker callbacks are not modelled; they are dialogs.
- Saving and loading the configuration and settings files is I/O and not modelled. The source's `_load_config` replaces the instance list without clearing the two tables.
- `AppSettings`, colours, widget construction, layout, logging and the executable-path helpers are not modelled; they are presentation.
- `Text.Capitalize`: only ASCII letters change case; Python maps all of Unicode.
- `Text.IsSpace` follows `str.isspace` for the characters listed in text.dfy.
- `RunConfig.FromDict`: an ill-typed value in a stored dictionary is refused. Python's dataclass would accept it without checking.

