# toggl2redmine time-entry sync, modelled in Dafny

`toggl2redmine` copies finished Toggl time entries into Redmine as logged time.
Its `time-entry-sync` command (`TimeEntrySync`) works in four steps:

1. It walks the requested range `[global_from, global_to]` one calendar day at a
   time. Each window ends at 23:59:59 of its day, or at `global_to` if that
   comes first. The next window starts one second later.
2. For each window it fetches the Toggl entries. It then unsets those of
   another user, those still running, and those of another workspace.
3. It lists every remaining entry. The Redmine issue is read from the first `#`
   of the description. An entry that names an issue and carries no `#synced`
   flag is queued.
4. If the window's queue is empty, it says so and asks nothing. Otherwise it
   asks once, and when the answer is yes it syncs the queue in order. Each
   queued entry gets a Redmine create request. When that create returns a
   record id, the Toggl entry is updated with ` #synced[<record id>]` appended
   to its description and `created_with` set to `toggl2redmine`.

The model has six modules:

- `Descriptions` (`descriptions.dfy`) holds the pure string functions. These are
  the issue number, as the first match of `/#([0-9]*)/m` gives it, and the
  `#synced` test and marker.
- `DayWindows` (`day_windows.dfy`) holds the day-by-day split of the range as a
  function. Its lemmas state that the split covers the range without gap or
  overlap.
- `Entries` (`entries.dfy`) holds Toggl entries as a keyed PHP array. It also
  holds the in-place `unset` filter as a method with a loop, proved against a
  specification function.
- `Reconciliation` (`reconciliation.dfy`) describes, as functions, what the
  command prints and which remote calls it makes. Toggl, Redmine and the person
  at the console are a `World` of answers. Toggl's entry list is indexed by the
  requested window; every other answer is indexed by how many calls of that
  kind came before. The lemmas state what those traces promise: classification,
  batch control, per-entry failure isolation, the marker round trip, and one
  fetch per window.
- `Command` (`command.dfy`) holds the class `TimeEntrySync`, whose methods mirror
  `execute`, `getTimeEntries`, `processTimeEntries` and `syncTimeEntry`. Its
  fields are the event trace and the call counters. Each method is proved to
  leave exactly the trace that the `Reconciliation` functions describe.
- `Common` (`common.dfy`) holds `Option`, the subsequence relation and
  concatenation associativity.

A point in time is a calendar day number plus a second within the day. Days are
86400 seconds long and there is no time zone. `23:59:59` is second 86399 of its
day, and "one second later" rolls over to second 0 of the next day.

Some behaviour of the code is easy to miss, and the model keeps it.

- The issue pattern is `#([0-9]*)`, with `*` and not `+`. The first `#` in the
  description therefore always decides, even when no digit follows it. The
  captured string is tested for PHP truthiness, so `""` and `"0"` mean "no
  issue". For example, `"#synced #42"` names no issue.
- A successful sync prints nothing. Only a failed create and a failed Toggl
  update are reported.
- When `global_to` is exactly midnight, the window of that day would start at
  `global_to` itself. The loop stops before it, so the last window ends at
  23:59:59 of the previous day (`DayWindows.WindowsEnds`).

## Model

| member | source | states |
|---|---|---|
| Descriptions.DigitRun | src/derhasi/toggl2redmine/Command/TimeEntrySync.php:20 | the group `([0-9]*)` captures a prefix of the text after `#` that is all digits and maximal: the next character, if any, is not a digit |
| Descriptions.FirstHash | src/derhasi/toggl2redmine/Command/TimeEntrySync.php:20 | the match starts at the first `#`: none exactly when the text has no `#`, otherwise a position holding `#` with no `#` before it |
| Descriptions.IssueNumber | src/derhasi/toggl2redmine/Command/TimeEntrySync.php:230-236 | a value exactly when the description is set and contains `#`; the value is all digits, possibly empty |
| Descriptions.IssueNumberAfterFirstHash | src/derhasi/toggl2redmine/Command/TimeEntrySync.php:230-236 | for any text before the first `#`, the issue number is the digit run right after that `#` |
| Descriptions.FirstHashAfter | src/derhasi/toggl2redmine/Command/TimeEntrySync.php:232 | a `#`-free prefix moves the first match to just after that prefix |
| Descriptions.DigitRunAppend | src/derhasi/toggl2redmine/Command/TimeEntrySync.php:20 | text that starts with a non-digit, appended after a digit run, never changes what is captured |
| Descriptions.DigitRunAllDigits | src/derhasi/toggl2redmine/Command/TimeEntrySync.php:20 | a string of digits is captured whole |
| Descriptions.IssueNumberIgnoresRest | src/derhasi/toggl2redmine/Command/TimeEntrySync.php:230-236 | the issue number is exactly the digits after the first `#`; later text, including later `#` references, has no effect |
| Descriptions.Contains | src/derhasi/toggl2redmine/Command/TimeEntrySync.php:243-245 | `strpos(...) !== FALSE`: true exactly when the flag occurs at some position of the text |
| Descriptions.IsSynced | src/derhasi/toggl2redmine/Command/TimeEntrySync.php:243-245 | isTimeEntrySynced: a set description in which the flag occurs somewhere, by `Contains`; an unset description never reads as synced. `MarkerRoundTrip` and `Reconciliation.SyncedNeverQueued` state what follows from it |
| Descriptions.IsTruthy | src/derhasi/toggl2redmine/Command/TimeEntrySync.php:184 | the `if` test on the captured value: NULL, `""` and `"0"` are false. `FlagBeforeReferenceHidesIssue` and `Reconciliation.NoIssueNeverQueued` state its effect |
| Descriptions.SyncedMarker | src/derhasi/toggl2redmine/Command/TimeEntrySync.php:284 | the appended text starts with a space, so it never extends a digit run, and the flag follows it. `MarkerRoundTrip` proves the consequence |
| Descriptions.AppendKeepsIssueNumber | src/derhasi/toggl2redmine/Command/TimeEntrySync.php:284 | appending text that starts with a non-digit to a description with a `#` keeps its issue number |
| Descriptions.MarkerRoundTrip | src/derhasi/toggl2redmine/Command/TimeEntrySync.php:284 | after ` #synced[<id>]` is appended to a description naming an issue, it reads as synced and names the same issue |
| Descriptions.FirstReferenceWins | src/derhasi/toggl2redmine/Command/TimeEntrySync.php:20 | `"Fix #42, #99"` names issue 42 |
| Descriptions.FlagBeforeReferenceHidesIssue | src/derhasi/toggl2redmine/Command/TimeEntrySync.php:184 | `"#synced #42"` captures the empty string, which is falsy, so the entry names no issue |
| DayWindows.BeforeSeconds | src/derhasi/toggl2redmine/Command/TimeEntrySync.php:142 | the `<` of two DateTimes agrees with the order of seconds since day 0 |
| DayWindows.EndOfDay | src/derhasi/toggl2redmine/Command/TimeEntrySync.php:146-147 | `setTime(23, 59, 59)` stays on the same day and never moves the time back |
| DayWindows.EndOfDayIsLastSecond | src/derhasi/toggl2redmine/Command/TimeEntrySync.php:147 | no second of the day comes after 23:59:59, and one second later is midnight of the next day |
| DayWindows.NextSecond | src/derhasi/toggl2redmine/Command/TimeEntrySync.php:165 | adding `PT1S` gives the next second, strictly later |
| DayWindows.WindowEnd | src/derhasi/toggl2redmine/Command/TimeEntrySync.php:146-150 | the end of a window is `global_to` or 23:59:59 of its start day, whichever is not after the other |
| DayWindows.Windows | src/derhasi/toggl2redmine/Command/TimeEntrySync.php:140-166 | the loop visits no window exactly when `global_from` is not before `global_to`; it terminates |
| DayWindows.WindowsStep | src/derhasi/toggl2redmine/Command/TimeEntrySync.php:142-165 | the first window runs from `global_from` to its clipped end, then the loop continues one second later |
| DayWindows.WindowAt | src/derhasi/toggl2redmine/Command/TimeEntrySync.php:142-150 | every window starts in `[global_from, global_to)` with start ≤ end ≤ `global_to`; it ends at min(23:59:59 of its day, `global_to`), so it stays within one day; the next window starts at midnight of the following day |
| DayWindows.WindowsEnds | src/derhasi/toggl2redmine/Command/TimeEntrySync.php:140-166 | the first window starts at `global_from`; the last ends at `global_to`, or one second before it when `global_to` is exactly midnight |
| DayWindows.WindowsOrdered | src/derhasi/toggl2redmine/Command/TimeEntrySync.php:140-166 | an earlier window ends before a later one starts, on an earlier day |
| DayWindows.WindowsCover | src/derhasi/toggl2redmine/Command/TimeEntrySync.php:140-166 | every second in `[global_from, global_to)` lies in some window |
| DayWindows.WindowsDisjoint | src/derhasi/toggl2redmine/Command/TimeEntrySync.php:140-166 | no second lies in two windows |
| DayWindows.WindowsWithinRange | src/derhasi/toggl2redmine/Command/TimeEntrySync.php:142-150 | no window holds a second outside `[global_from, global_to]` |
| DayWindows.ThreeDayExample | src/derhasi/toggl2redmine/Command/TimeEntrySync.php:140-166 | 10:00 on day one to 15:00 on day three gives three windows, clipped at the first start and the last end |
| Entries.Indexed | src/derhasi/toggl2redmine/Command/TimeEntrySync.php:309 | the fetched list as an array keyed 0, 1, 2, ...: same length, same entries in order, no key twice |
| Entries.ValuesIndexed | src/derhasi/toggl2redmine/Command/TimeEntrySync.php:309 | dropping the keys of the decoded list gives the list back |
| Entries.IsEmpty | src/derhasi/toggl2redmine/Command/TimeEntrySync.php:317 | PHP `empty()` on the `stop` field: unset, `""` and `"0"` are empty. `FilterMembers` states its effect through `Kept` |
| Entries.Kept | src/derhasi/toggl2redmine/Command/TimeEntrySync.php:313-323 | the three tests of the loop: the entry is the current user's, its `stop` is not empty, and it is in the workspace. `FilterMembers` states that exactly these slots survive |
| Entries.Unset | src/derhasi/toggl2redmine/Command/TimeEntrySync.php:314 | `unset($entries[$key])`. `UnsetMembers` characterises it |
| Entries.UnsetMembers | src/derhasi/toggl2redmine/Command/TimeEntrySync.php:314 | `unset($entries[$key])` leaves exactly the slots whose key differs |
| Entries.Filter | src/derhasi/toggl2redmine/Command/TimeEntrySync.php:311-326 | the specification of the loop: the kept slots in their original order, keys included. `FilterMembers`, `FilterIsSubsequence` and `FilterEntries` characterise it |
| Entries.FilterMembers | src/derhasi/toggl2redmine/Command/TimeEntrySync.php:311-326 | a slot survives exactly when it was fetched and its entry is the user's, has a non-empty `stop` and is in the workspace |
| Entries.FilterIsSubsequence | src/derhasi/toggl2redmine/Command/TimeEntrySync.php:311-326 | the result is a subsequence of the fetched array: order and keys are kept |
| Entries.ValuesOfFilter | src/derhasi/toggl2redmine/Command/TimeEntrySync.php:311-326 | the entries that `foreach` sees after the filter are a subsequence of those before it, and an entry is among them exactly when it was there and is kept |
| Entries.FetchedAndKept | src/derhasi/toggl2redmine/Command/TimeEntrySync.php:302-327 | getTimeEntries hands on exactly the kept entries of the fetched list, in the order Toggl sent them |
| Entries.DropSlot | src/derhasi/toggl2redmine/Command/TimeEntrySync.php:314 | in the loop, `unset($entries[$id])` removes exactly the visited slot, because keys are unique |
| Entries.FilterAdvance | src/derhasi/toggl2redmine/Command/TimeEntrySync.php:311-324 | one loop step: a kept slot leaves the array as it is; any other slot is unset |
| Entries.FilterEntries | src/derhasi/toggl2redmine/Command/TimeEntrySync.php:311-326 | the `unset` loop leaves exactly the kept slots, in order, keys included |
| Reconciliation.QueueMembers | src/derhasi/toggl2redmine/Command/TimeEntrySync.php:181-201 | a candidate is queued exactly when its entry is in the list, names an issue, is not synced, and the issue is the one found |
| Reconciliation.QueueKeepsOrder | src/derhasi/toggl2redmine/Command/TimeEntrySync.php:181-201 | queued entries keep their input order |
| Reconciliation.Classify | src/derhasi/toggl2redmine/Command/TimeEntrySync.php:184-200 | the issue test comes first, then the synced test. `QueueMembers`, `NoIssueNeverQueued`, `SyncedReported` and `SyncedNeverQueued` characterise it |
| Reconciliation.Report | src/derhasi/toggl2redmine/Command/TimeEntrySync.php:184-200 | the line printed for one entry: "no issue" with its id, or its id and issue marked synced or not. `NoIssueNeverQueued` and `SyncedReported` characterise it |
| Reconciliation.Reports | src/derhasi/toggl2redmine/Command/TimeEntrySync.php:181-201 | one line per entry, in foreach order. `ReportsQuiet` states that they make no call, and `Command.TimeEntrySync.ListEntries` that the loop prints exactly them |
| Reconciliation.Queue | src/derhasi/toggl2redmine/Command/TimeEntrySync.php:181-201 | the `$process` array built by the first loop. `QueueMembers` and `QueueKeepsOrder` state what it holds and in which order |
| Reconciliation.NoIssueNeverQueued | src/derhasi/toggl2redmine/Command/TimeEntrySync.php:184-200 | an entry with a falsy issue value is reported as having none and never queued, flag or no flag |
| Reconciliation.SyncedReported | src/derhasi/toggl2redmine/Command/TimeEntrySync.php:186-187 | an entry with an issue and the flag is listed as synced under that issue |
| Reconciliation.SyncedNeverQueued | src/derhasi/toggl2redmine/Command/TimeEntrySync.php:186-188 | an entry with an issue and the flag is not queued |
| Reconciliation.ReportsQuiet | src/derhasi/toggl2redmine/Command/TimeEntrySync.php:181-201 | classifying makes no remote call and asks nothing |
| Reconciliation.MarkedEntry | src/derhasi/toggl2redmine/Command/TimeEntrySync.php:284-289 | Toggl receives the original description followed by ` #synced[<id>]`, `created_with` `toggl2redmine`, and every other field as fetched |
| Reconciliation.MarkedNotRequeued | src/derhasi/toggl2redmine/Command/TimeEntrySync.php:284-285 | a marked entry is classified as synced under the issue it was queued with, so a later run does not queue it again |
| Reconciliation.Marked | src/derhasi/toggl2redmine/Command/TimeEntrySync.php:284-285 | the entry sent back to Toggl. `MarkedEntry` and `MarkedNotRequeued` characterise it |
| Reconciliation.CreateRequest | src/derhasi/toggl2redmine/Command/TimeEntrySync.php:261-268 | the create request: the queued issue, the entry's `start` and `duration`, and its description, unmarked, as `comments`. `SyncAllView` states, through `RequestsFor`, that every queued item gets exactly this request in queue order |
| Reconciliation.Succeeded | src/derhasi/toggl2redmine/Command/TimeEntrySync.php:276 | the create answer counts as a success exactly when it returned a record id. `SyncEntryView` and `ItemCalls` state that Toggl is updated exactly then |
| Reconciliation.SyncEntry | src/derhasi/toggl2redmine/Command/TimeEntrySync.php:253-293 | the trace and call counts of one syncTimeEntry. `SyncEntryView`, `SyncEntryOutcome`, `FailedSyncView` and `SucceededSyncView` characterise it |
| Reconciliation.FailedSyncView | src/derhasi/toggl2redmine/Command/TimeEntrySync.php:260-279 | when the create throws or returns no id, its request is the only call: no Toggl update |
| Reconciliation.SucceededSyncView | src/derhasi/toggl2redmine/Command/TimeEntrySync.php:284-289 | when the create returns an id, the calls are the create request, then the update of the marked entry |
| Reconciliation.SyncEntryView | src/derhasi/toggl2redmine/Command/TimeEntrySync.php:253-293 | one sync makes exactly one create request, and updates Toggl exactly when that create returned an id |
| Reconciliation.SyncEntryOutcome | src/derhasi/toggl2redmine/Command/TimeEntrySync.php:253-293 | one create is counted; a failure is the last line, with the exception message or the record's error, and no update is counted; after a success, one update is counted and the failure line appears exactly when Toggl's answer is empty |
| Reconciliation.SyncAllCounts | src/derhasi/toggl2redmine/Command/TimeEntrySync.php:217-220 | a batch issues one create per queued item and asks nothing |
| Reconciliation.SyncAllStep | src/derhasi/toggl2redmine/Command/TimeEntrySync.php:217-220 | one more queued item adds its own calls after those of the items before it |
| Reconciliation.SyncAllView | src/derhasi/toggl2redmine/Command/TimeEntrySync.php:217-220 | a batch requests one create per item in queue order, whatever happened to earlier items; it updates exactly the items whose own create succeeded; it fetches nothing and asks nothing |
| Reconciliation.SyncAll | src/derhasi/toggl2redmine/Command/TimeEntrySync.php:216-221 | the trace of the second `foreach`: each item's sync, then a progress step. `SyncAllCounts` and `SyncAllView` characterise it |
| Reconciliation.ProcessWithEmptyQueue | src/derhasi/toggl2redmine/Command/TimeEntrySync.php:203-207 | nothing queued: no prompt, no create, no update, and "all synced" is the last line |
| Reconciliation.ProcessDeclined | src/derhasi/toggl2redmine/Command/TimeEntrySync.php:209-213 | declined: exactly one prompt, showing the queue length; no create, no update; "aborted" is the last line |
| Reconciliation.ConfirmedTraceView | src/derhasi/toggl2redmine/Command/TimeEntrySync.php:210-221 | in a confirmed batch's trace the prompt is the only call before the syncs, and the progress bar is started |
| Reconciliation.ProcessConfirmed | src/derhasi/toggl2redmine/Command/TimeEntrySync.php:209-221 | confirmed: one prompt, the progress bar starts with the queue length, one create per queued item in order, updates exactly after successful creates |
| Reconciliation.ProcessNoFetch | src/derhasi/toggl2redmine/Command/TimeEntrySync.php:176-222 | processing entries never fetches from Toggl |
| Reconciliation.ProcessEvents | src/derhasi/toggl2redmine/Command/TimeEntrySync.php:176-222 | the trace of processTimeEntries. `ProcessWithEmptyQueue`, `ProcessDeclined`, `ProcessConfirmed` and `ProcessNoFetch` characterise it |
| Reconciliation.RunStep | src/derhasi/toggl2redmine/Command/TimeEntrySync.php:142-165 | the run over a range is the first day's window, then the run over the rest of the range |
| Reconciliation.DayFetchesWindow | src/derhasi/toggl2redmine/Command/TimeEntrySync.php:152-162 | one loop iteration fetches exactly its window, once |
| Reconciliation.DayEvents | src/derhasi/toggl2redmine/Command/TimeEntrySync.php:152-162 | the trace of one loop body: header, fetch, then "no entries" or the count and the batch. `DayFetchesWindow` characterises it |
| Reconciliation.RunFetchesWindows | src/derhasi/toggl2redmine/Command/TimeEntrySync.php:140-166 | the run fetches exactly its windows, each once, in order |
| Reconciliation.RunEvents | src/derhasi/toggl2redmine/Command/TimeEntrySync.php:140-166 | the trace of the windows one after the other, with the call counts carried along. `RunStep` and `RunFetchesWindows` characterise it |
| Command.TimeEntrySync.constructor | src/derhasi/toggl2redmine/Command/TimeEntrySync.php:124-129 | the command starts with its clients and workspace, an empty trace and no calls made |
| Command.TimeEntrySync.Execute | src/derhasi/toggl2redmine/Command/TimeEntrySync.php:140-168 | the `while` loop over days leaves the trace of the run over all windows of the range, then "Finished." |
| Command.TimeEntrySync.SyncWindow | src/derhasi/toggl2redmine/Command/TimeEntrySync.php:152-162 | one loop body: header, fetch, then "no entries" or the count and the batch, exactly as the window's trace |
| Command.TimeEntrySync.GetTimeEntries | src/derhasi/toggl2redmine/Command/TimeEntrySync.php:302-327 | one fetch of the window, no other call; returns the filtered array |
| Command.TimeEntrySync.ProcessTimeEntries | src/derhasi/toggl2redmine/Command/TimeEntrySync.php:176-222 | the classification loop, the empty, declined and confirmed paths and the progress loop leave exactly the batch's trace and call counts |
| Command.TimeEntrySync.ListEntries | src/derhasi/toggl2redmine/Command/TimeEntrySync.php:178-201 | the first `foreach` prints one line per entry and builds `$process` equal to the queue |
| Command.TimeEntrySync.SyncQueue | src/derhasi/toggl2redmine/Command/TimeEntrySync.php:216-221 | the second `foreach` syncs every queued item in order and advances the progress bar after each |
| Command.TimeEntrySync.SyncTimeEntry | src/derhasi/toggl2redmine/Command/TimeEntrySync.php:253-293 | create, then either report the failure and return, or mark the entry, update Toggl and report an empty answer, exactly as one sync's trace |

## Left out

- `configure` (TimeEntrySync.php:67-107) and the argument reading and client construction of `execute` (:114-129) are left out, because they are console and wiring code. The model receives the current user's id and the workspace id as a `Context`.
- Date parsing (`new \DateTime($from)`), the `'c'`, `'Y-m-d'` and `'D d.m.Y H:i'` formats, time zones and daylight-saving changes are left out. Time is a day number and a second of a fixed 86400-second day.
- The Toggl and Redmine HTTP clients are not modelled. The `World` supplies their answers: the entry list depends only on the window, and a create or update answer depends only on how many creates or updates came before.
- The `hours` value `duration / 60 / 60` (:255) is floating point and is left out. The create request carries `duration` in seconds and the raw `start` string.
- Exceptions from `updateTimeEntry`, `GetTimeEntries`, `getCurrentUser` and `new \DateTime($entry['start'])` (:256, before the `try` at :260) are not caught by the source and are not modelled. Any of them ends the whole run. The model assumes those calls return and every `start` parses, so `Reconciliation.SyncAllView`'s "whatever happened to earlier items" covers only the failures caught at :260-279. `empty($ret)` is a boolean answer.
- PHP's loose `!=` between a numeric `uid`/`wid` and a string id is modelled as integer equality.
- `!$redmine_time_entry->id` is modelled as an empty record id. The SimpleXML truthiness rules behind it are not modelled.
- Report lines keep their kind and the entry id, issue and reason, not the printed text. Only the update-failure line carries the description, as the source prints it at :291. The other lines do not, and the issue keeps the captured string rather than its `%d` rendering (for example, `007` would print as `7`).
- `$day_from = $day_to->add(...)` makes both variables the same DateTime object. The model works on values, and this aliasing is harmless because `$day_to` is cloned again at the top of each iteration.
- Progress-bar rendering and the dialog helper are reduced to events and a yes/no answer.
- src/undpaul/toggl2redmine/TimeEntry/RedmineTimeEntry.php is not part of this model.
