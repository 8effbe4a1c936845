# Singular Modern Todo App — a verified model of its core

This project models the logic behind the app's single-page dashboard, in Dafny:

- **Hour-by-hour planner.** Each task has a title and a task list. The task list is text whose lines may be checkbox items `- [ ] …` / `- [x] …`.
- **Pomodoro timer.** Work sessions alternate with short breaks, and a long break closes each round. After each work session a reflection is recorded.
- **Weekly habit grid.**
- **Submission history.** It is grouped by date.
- **Webhook and scheduler.** The webhook POSTs the history, one payload per date. The scheduler sends the day's summary every evening at 22:00 Paris time, and retries when the send fails.

One Dafny module per source file:

- `Pomodoro` (PomodoroTimer.tsx), `TimerDisplay`
- `Webhook` (webhook.ts), `Scheduler` (scheduler.ts)
- `TaskContent`, `TaskEditor`, `TaskTitle`
- `DailyCalendar`
- `HabitTracker`, `HabitSettings`, `QuestionSettings`
- `PostPomodoroForm`
- `SubmissionHistory`
- `IndexPage` (Index.tsx), `DashboardLayout`

Shared modules:

- `Domain`: the records Task, Habit, Submission and Settings.
- `Strings`: the JavaScript whitespace class, `trim`, `split('\n')`/`join('\n')`, decimal rendering and `padStart`.
- `Collections`: `filter`, `find` and `filter`+`map`.
- `Grouping`: the insertion-ordered `reduce` into an object, then `Object.entries`.
- `CheckboxLine`: a hand-written recogniser for the line pattern `^(\s*)-\s*\[([ x])\]\s*(.+)$`. It reproduces the greedy captures, and it shows that the canonical form `indent + "- [" + state + "] " + text` reads back as written.

Components that keep state in `useState` are classes:

- their fields are the state variables;
- their methods are the handlers, each tied to a function on values;
- the invariants and lemmas are proved about those functions.

Pure computations are functions with lemmas. Loops of the source are methods with invariants:

- the webhook's send loop;
- the grouping `reduce`.

The task editor's row callbacks copy the rows into a fresh array and overwrite one cell (`TaskEditor.RowsArray`, `TaskEditor.EditLine`).

Things outside the program are parameters:

- the network is `respond: nat -> Response`, the answer to the k-th request;
- the locale's date and time rendering are `dateOf`/`timeOf`;
- the wall-clock second of the day is an argument;
- `Date.now()` ids are arguments;
- an armed timeout is the delay it was armed with, and its firing is a method call.

Behaviour of the code that the model keeps as written:

- Changing the work duration resets `timeLeft` to the new work length in every mode, not only during work (`Pomodoro.WorkDurationChanged`).
- A failed daily send schedules a retry every five minutes, with no upper bound on the number of retries (`Scheduler.SubmissionScheduler.SendDailySummary`).
- The checkbox pattern needs at least one character after `]`, so `- [ ]` alone is a plain line (`CheckboxLine.Parse`).
- The webhook reports only lines that are ticked checkboxes, with the token and the indent removed. The after-session form instead keeps every line that contains `[x]`, and removes only the first `- [x] ` (`PostPomodoroForm.FormKeepsIndent`, `PostPomodoroForm.FormKeepsMentions`).
- The timer's expiry branch runs whenever `timeLeft` is 0, whether or not the timer is running.
- The notes box's hint advertises Shift+Tab as un-indent, but its handler does not look at Shift: Shift+Tab inserts a nested todo, like Tab (`TaskEditor.NotesKeyDown`, `TaskEditor.ShiftTabNests`).

## Model

| member | source | states |
|---|---|---|
| Strings.Trim | src/components/task-editor/TaskTitle.tsx:20-25 | `trim()`: empty exactly when the text is all whitespace; otherwise neither end of the result is whitespace; never longer |
| Strings.TrimFramed | src/components/task-editor/TaskTitle.tsx:20-25 | the trimmed text is a slice of the original with only whitespace cut on either side |
| Strings.TrimIdempotent | src/components/task-editor/TaskTitle.tsx:20-25 | trimming a trimmed title changes nothing |
| Strings.Split | src/components/task-editor/TaskContent.tsx:17 | `split('\n')`: at least one row, no row contains a newline |
| Strings.JoinSplit | src/components/task-editor/TaskContent.tsx:17 | joining the rows of a text with '\n' gives the text back |
| Strings.SplitJoin | src/components/TaskEditor.tsx:126-130 | splitting newline-free rows joined by '\n' gives the same rows back |
| Strings.SplitJoinAny | src/components/TaskEditor.tsx:131-138 | splitting newline-free rows joined by '\n' gives the rows back; an empty list comes back as one empty row |
| Strings.Decimal | src/components/timer/TimerDisplay.tsx:13-17 | `toString()` of a natural number: a non-empty digit string, one digit exactly below 10, two exactly from 10 to 99 |
| Strings.DecimalRoundTrip | src/components/timer/TimerDisplay.tsx:13-17 | reading the rendered digits back gives the number |
| Strings.PaddedDecimal | src/components/timer/TimerDisplay.tsx:13-17 | `padStart(2, '0')` of the rendered number is all digits and still reads back as the number |
| Strings.PadStart2 | src/components/timer/TimerDisplay.tsx:13-17 | `padStart(2, '0')`: the text keeps its length when it has two or more characters and is padded to two otherwise |
| Strings.LeadingSpaces | src/components/task-editor/TaskContent.tsx:18 | the length of the longest all-whitespace prefix: the characters before it are whitespace and the next one is not |
| Collections.RemoveAll | src/components/HabitTracker.tsx:28-29 | `filter(d => d !== x)`: the value is gone, every other value keeps its membership, never longer |
| Collections.RemoveAllAppend | src/components/HabitTracker.tsx:28-29 | the filter works element by element: filtering a concatenation filters each part |
| Collections.RemoveAllSubsequence | src/components/HabitTracker.tsx:28-29 | filtering a duplicate-free list keeps it duplicate-free |
| Collections.ToggleMember | src/components/HabitTracker.tsx:23-29 | membership of the toggled value flips, and every other value keeps its membership |
| Collections.ToggleTwiceFromAbsent | src/components/HabitTracker.tsx:23-29 | adding an absent value and toggling it again gives the list back |
| Collections.ToggleKeepsNoDuplicates | src/components/HabitTracker.tsx:23-29 | toggling keeps a duplicate-free list duplicate-free |
| Collections.FirstIndex | src/components/DailyCalendar.tsx:148 | `findIndex`: the first index satisfying the predicate, or the length when none does |
| Collections.Find | src/components/DashboardLayout.tsx:44 | `find`: None exactly when no element satisfies the predicate; otherwise the FIRST element that does: it satisfies the predicate and no earlier element does |
| Collections.FilterMap | src/utils/webhook.ts:25-28 | `filter(p).map(f)`: no longer than its input, and empty exactly when no element satisfies `p` |
| Collections.FilterMapAppend | src/utils/webhook.ts:25-28 | filter-then-map distributes over concatenation |
| Collections.FilterMapAt | src/utils/webhook.ts:25-28 | the output splits around any element: the output of what precedes it, its image exactly when it passes `p`, then the output of what follows |
| Collections.FilterMapMembers | src/utils/webhook.ts:25-28 | a value is in the output exactly when it is the image of some element that passes the filter |
| Grouping.FirstAppearances | src/utils/webhook.ts:18-23 | the distinct keys: no duplicates, every one a key of the input and every key of the input among them |
| Grouping.GroupByKeys | src/utils/webhook.ts:18-45 | the group keys of the reduce are the distinct keys in first-appearance order |
| Grouping.GroupByLookup | src/utils/webhook.ts:18-45 | each group holds, in order, the values of exactly the items with that key |
| Grouping.GroupByTotal | src/utils/webhook.ts:18-45 | the groups together hold as many values as there were items |
| Grouping.GroupByPartition | src/components/SubmissionHistory.tsx:45-54 | the groups partition the input: distinct keys, every item in its key's group, nothing lost or added |
| Grouping.InsertExisting | src/utils/webhook.ts:20-23 | pushing under a present key appends to that group and leaves the others |
| Grouping.InsertFresh | src/utils/webhook.ts:20-23 | pushing under a new key adds a one-value group at the end |
| Grouping.GroupInto | src/utils/webhook.ts:18-45 | the loop that pushes each item under its key builds exactly the grouped dictionary |
| CheckboxLine.Parse | src/components/task-editor/TaskContent.tsx:18 | a match spells the line from indent, `-`, gap, `[state]`, pad and label; the indent is the line's leading whitespace; the label starts with a non-space unless it is one character |
| CheckboxLine.ParseComplete | src/components/task-editor/TaskContent.tsx:18 | every way to spell the line with the pattern's parts is found by the recogniser |
| CheckboxLine.ParseCanonical | src/components/task-editor/TaskContent.tsx:18 | a spelling whose label is greedy-shaped is exactly the match returned |
| CheckboxLine.ParseDecides | src/components/task-editor/TaskContent.tsx:135-138 | the recogniser matches exactly the lines the regular expression accepts |
| CheckboxLine.ParseDecidesChecked | src/utils/webhook.ts:25-28 | the recogniser reports state `x` exactly on the lines the ticked-only expression accepts |
| CheckboxLine.ComposeParses | src/components/task-editor/TaskContent.tsx:164-167 | a written-back row `indent + "- [s] " + text` matches, with that indent and state, and with label `text` when it starts with a non-space |
| CheckboxLine.ComposeSpells | src/components/task-editor/TaskContent.tsx:164-167 | the written-back row spells its own parts |
| CheckboxLine.IndentParses | src/components/task-editor/TaskContent.tsx:77-106 | two more leading spaces keep a checkbox a checkbox, with the indent two longer |
| CheckboxLine.StripCheckedPrefixIsLabel | src/utils/webhook.ts:28 | the `replace` on a ticked line leaves its label, or nothing when the label is all blank |
| CheckboxLine.StripSpelled | src/utils/webhook.ts:28 | the same for any reading whose label starts with a non-blank or is one character |
| CheckboxLine.StripCheckedPrefix | src/utils/webhook.ts:28 | the replace removes only a prefix of the line; when it removes anything, the result is empty or starts with a non-blank |
| CheckboxLine.IsChecked | src/utils/webhook.ts:27 | a line the webhook counts as ticked contains `[x]`, so the after-session form keeps it too |
| CheckboxLine.CheckedHasToken | src/utils/webhook.ts:27 | a checked reading of a line contains `[x]` |
| Pomodoro.Initial | src/components/PomodoroTimer.tsx:36-39 | a fresh timer: work, stopped, cycle 1, full work length; it satisfies the invariant |
| Pomodoro.LeaveWork | src/components/PomodoroTimer.tsx:100-131 | after work: a long break exactly on the last cycle of the round, else a short break, each at its full length |
| Pomodoro.LeaveBreak | src/components/PomodoroTimer.tsx:100-131 | after a break: work at full length; the long break restarts the count at 1, a short one moves to the next cycle |
| Pomodoro.Tick | src/components/PomodoroTimer.tsx:96-99 | one second off while running and above 0, otherwise nothing changes; time never goes negative |
| Pomodoro.Expire | src/components/PomodoroTimer.tsx:100-131 | at 0 the phase changes and the cues play as the code says; above 0 nothing happens |
| Pomodoro.Skip | src/components/PomodoroTimer.tsx:70-84 | the next phase as expiry would give it, stopped |
| Pomodoro.Reset | src/components/PomodoroTimer.tsx:56-61 | back to the fresh timer |
| Pomodoro.Toggle | src/components/PomodoroTimer.tsx:63-68 | flips running; the start cue plays exactly when starting |
| Pomodoro.Clamp | src/components/PomodoroTimer.tsx:50-54 | a cycle past the round's length goes back to 1, otherwise nothing changes |
| Pomodoro.WorkDurationChanged | src/components/PomodoroTimer.tsx:45-47 | the time left becomes the new work length, in every mode |
| Pomodoro.TickKeepsInv | src/components/PomodoroTimer.tsx:96-99 | a tick keeps cycle within 1..total, no short break on the last cycle, time non-negative |
| Pomodoro.LeaveWorkKeepsInv | src/components/PomodoroTimer.tsx:100-131 | leaving work keeps the invariant |
| Pomodoro.LeaveBreakKeepsInv | src/components/PomodoroTimer.tsx:100-131 | leaving a break keeps the invariant |
| Pomodoro.ExpireKeepsInv | src/components/PomodoroTimer.tsx:100-131 | expiry keeps the invariant |
| Pomodoro.SkipKeepsInv | src/components/PomodoroTimer.tsx:70-84 | skipping keeps the invariant |
| Pomodoro.ResetAndToggleKeepInv | src/components/PomodoroTimer.tsx:56-68 | reset and start/pause keep the invariant |
| Pomodoro.ResetIdempotent | src/components/PomodoroTimer.tsx:56-61 | resetting twice is resetting once |
| Pomodoro.ToggleTwice | src/components/PomodoroTimer.tsx:63-68 | start then pause gives the timer back, and exactly one of the two plays the start cue |
| Pomodoro.ClampIdleUnderInv | src/components/PomodoroTimer.tsx:50-54 | the clamp effect does nothing while the cycle is in range |
| Pomodoro.ClampRestoresRange | src/components/PomodoroTimer.tsx:50-54 | after the round is shortened, the clamp brings the cycle back into range |
| Pomodoro.WeakInvStep | src/components/PomodoroTimer.tsx:70-135 | each step followed by the clamp keeps the cycle in range, and leaving work restores the full invariant |
| Pomodoro.RoundEndsInLongBreak | src/components/PomodoroTimer.tsx:70-84 | from work on cycle k, 2·(total−k)+1 skips reach the long break on the last cycle |
| Pomodoro.LongBreakStartsRound | src/components/PomodoroTimer.tsx:70-84 | skipping the long break starts a new round: work, cycle 1, full length, stopped |
| Pomodoro.SessionTitle | src/components/PomodoroTimer.tsx:174 | the active task's title when it has one, else "Focus Session"; never empty |
| Pomodoro.ReflectionSubmission | src/components/PomodoroTimer.tsx:171-188 | the record holds the answers, the three questions, the work length, completed, and the active task's content |
| Pomodoro.PomodoroTimer.constructor | src/components/PomodoroTimer.tsx:36-39 | the component starts from the fresh timer, with the invariant |
| Pomodoro.PomodoroTimer.OnInterval | src/components/PomodoroTimer.tsx:96-99 | the fields become `Tick` of the old state; the invariant is kept |
| Pomodoro.PomodoroTimer.Settle | src/components/PomodoroTimer.tsx:100-131 | the fields become the clamped expiry of the old state, with its cue; the invariant is kept |
| Pomodoro.PomodoroTimer.SkipPhase | src/components/PomodoroTimer.tsx:70-84 | the fields become the clamped skip; the invariant is kept |
| Pomodoro.PomodoroTimer.ResetTimer | src/components/PomodoroTimer.tsx:56-61 | the fields become the fresh timer |
| Pomodoro.PomodoroTimer.ToggleTimer | src/components/PomodoroTimer.tsx:63-68 | the fields and the cue are those of `Toggle` |
| Pomodoro.PomodoroTimer.ClampCycle | src/components/PomodoroTimer.tsx:50-54 | the fields become the clamped state |
| Pomodoro.PomodoroTimer.SetConfig | src/components/PomodoroTimer.tsx:45-54 | new props; time reset only when the work length changed; cycle clamped into range |
| Pomodoro.PomodoroTimer.SubmitReflection | src/components/PomodoroTimer.tsx:171-188 | the record handed over is `ReflectionSubmission`, and the dialog closes |
| TimerDisplay.FormatTime | src/components/timer/TimerDisplay.tsx:13-17 | `mm:ss`, five characters below 100 minutes, with the colon third from the end |
| TimerDisplay.FormatTimeRoundTrip | src/components/timer/TimerDisplay.tsx:13-17 | minutes·60 + seconds read back from the text is the original count |
| TimerDisplay.FormatTimeInjective | src/components/timer/TimerDisplay.tsx:13-17 | different counts never show the same text |
| Webhook.StatusLabel | src/utils/webhook.ts:37 | "Completed" exactly for a completed session, "Partial" exactly otherwise |
| Webhook.CompletedTasks | src/utils/webhook.ts:25-28 | no content gives none; at most one task per line |
| Webhook.CheckedLabels | src/utils/webhook.ts:25-28 | never more labels than lines; none exactly when no line is a ticked checkbox |
| Webhook.NothingTickedNothingReported | src/utils/webhook.ts:25-28 | no task is reported exactly when no line is a ticked checkbox |
| Webhook.CheckedLineReportsLabel | src/utils/webhook.ts:25-28 | a ticked line reports its label, or "" when the label is blank |
| Webhook.UncheckedLineNotReported | src/utils/webhook.ts:25-28 | a line that is not a ticked checkbox reports nothing |
| Webhook.TickedRowIsReported | src/utils/webhook.ts:25-28 | after the editor ticks a row of a task, that row's label is among the reported tasks |
| Webhook.Reflections | src/utils/webhook.ts:39-42 | one entry per question, paired with the answer at the same position or "" |
| Webhook.Project | src/utils/webhook.ts:30-43 | the wire record: time, title, duration, status, completed tasks and reflections of the submission |
| Webhook.Deliver | src/utils/webhook.ts:48-70 | the i-th request carries the i-th payload; delivered exactly when every answer is OK; a failure is the first failing answer's error and nothing is sent after it |
| Webhook.SendToWebhook | src/utils/webhook.ts:16-70 | the i-th request carries the payload of the i-th date group (its date and its records), groups in first-appearance order; delivered exactly when every group's request is answered OK, and then one request per distinct date; a failure stops at the first failing answer, all earlier answers OK, with that answer's error; a non-empty history sends at least one request |
| Webhook.PayloadsOf | src/utils/webhook.ts:48-53 | one payload per group, in order, each holding the group's date and records |
| Webhook.GroupedCount | src/utils/webhook.ts:18-23 | there are as many groups as distinct dates, so a non-empty history makes at least one group |
| Webhook.PayloadsPartition | src/utils/webhook.ts:18-45 | the payloads' records together are exactly the projected submissions, grouped by date |
| Scheduler.DelayUntilTarget | src/utils/scheduler.ts:15-30 | a positive whole-second delay of at most a day that lands on 22:00; the same day exactly when it is before 22:00 |
| Scheduler.ArmedAtTargetWaitsADay | src/utils/scheduler.ts:17-30 | armed at exactly 22:00 the wait is a full day |
| Scheduler.SubmissionScheduler.constructor | src/utils/scheduler.ts:9-13 | arms the timeout for the next 22:00; the stored marker is taken as an argument and kept; no retry is pending |
| Scheduler.SubmissionScheduler.SendDailySummary | src/utils/scheduler.ts:39-57 | nothing is sent and nothing changes when today's marker is stored; otherwise the requests are the webhook's requests to the stored URL, one payload per date group, stopping at the first failure; the outcome is Delivered exactly when the marker is not today's and every group's request is answered OK, and then every group was sent and today's marker is stored; a failure keeps the marker and adds a pending retry |
| Scheduler.SubmissionScheduler.Fire | src/utils/scheduler.ts:33-36 | the timeout sends the summary with the same requests and Delivered condition as `SendDailySummary`; a skip keeps the marker and the pending retries; a delivery sends every group, stores today's marker and keeps the pending retries; a failure keeps the marker and adds a pending retry; the next 22:00 is armed in every case |
| Scheduler.SubmissionScheduler.RetryFire | src/utils/scheduler.ts:53-56 | a retry sends the same requests as `SendDailySummary` under the same Delivered condition; a skip keeps the marker and clears one pending retry; a delivery sends every group, stores today's marker and clears one pending retry; a failure keeps the marker and leaves the retry pending |
| Scheduler.SubmissionScheduler.UpdateWebhookUrl | src/utils/scheduler.ts:59-61 | later sends go to the new URL |
| Scheduler.SubmissionScheduler.Stop | src/utils/scheduler.ts:63-68 | no timeout stays armed |
| TaskContent.KeyEdit | src/components/task-editor/TaskContent.tsx:22-127 | a key press inserts one row after the target, rewrites the target or removes it; no other row moves or changes |
| TaskContent.HandleKeyDown | src/components/task-editor/TaskContent.tsx:22-127 | the handler splices or rewrites the row list and emits the joined rows of `KeyEdit`, or nothing when `KeyEdit` gives nothing |
| TaskContent.KeyEditRoundTrip | src/components/task-editor/TaskContent.tsx:22-127 | the emitted content splits back into exactly the edited rows (one empty row when the last row was removed) |
| TaskContent.EditedRowsHaveNoNewline | src/components/task-editor/TaskContent.tsx:22-127 | every edit keeps each row free of newlines |
| TaskContent.EnterAddsItem | src/components/task-editor/TaskContent.tsx:26-46 | Ctrl+Enter and Enter on a checkbox add an empty unchecked item with the row's indent right after it |
| TaskContent.EnterOnPlainAddsEmptyRow | src/components/task-editor/TaskContent.tsx:58-76 | Enter on a plain row adds an empty row after it |
| TaskContent.ShiftTabOutdents | src/components/task-editor/TaskContent.tsx:77-106 | Shift+Tab drops two leading spaces exactly when the row has them, otherwise emits nothing |
| TaskContent.TabThenShiftTab | src/components/task-editor/TaskContent.tsx:77-106 | Tab on a checkbox indents it and Shift+Tab undoes it |
| TaskContent.TabMakesCheckbox | src/components/task-editor/TaskContent.tsx:77-106 | Tab on a plain row turns it into an unchecked item with the old text |
| TaskContent.BackspaceDeletesBlankRow | src/components/task-editor/TaskContent.tsx:107-126 | Backspace on a blank row removes exactly that row |
| TaskContent.OtherKeysEmitNothing | src/components/task-editor/TaskContent.tsx:22-127 | Ctrl+A and every other key emit nothing |
| TaskContent.CommitRow | src/components/task-editor/TaskContent.tsx:164-167 | leaving a checkbox row writes it in canonical form with its indent and state; a plain row is its text |
| TaskContent.CommitKeepsCheckbox | src/components/task-editor/TaskContent.tsx:164-167 | the committed checkbox row reads back with the same indent and state and the typed label |
| TaskEditor.TitleChange | src/components/TaskEditor.tsx:39-44 | a blank title saves nothing; otherwise the task is saved with the trimmed title |
| TaskEditor.ContentChange | src/components/TaskEditor.tsx:46-48 | only the content changes |
| TaskEditor.NotesChange | src/components/TaskEditor.tsx:148 | only the notes change |
| TaskEditor.RowsArray | src/components/TaskEditor.tsx:126-130 | a fresh array holding the rows |
| TaskEditor.EditLine | src/components/TaskEditor.tsx:126-130 | the content with row `index` replaced, re-joined |
| TaskEditor.EditLineOnlyThatRow | src/components/TaskEditor.tsx:126-130 | a newline-free edit changes that row only, and the row count stays |
| TaskEditor.FirstTokenFrom | src/components/TaskEditor.tsx:131-138 | the first `[ ]`/`[x]` at or after a position, or none |
| TaskEditor.SetToken | src/components/TaskEditor.tsx:131-138 | the `replace` of the first token by the new state; a line without one is unchanged |
| TaskEditor.SetTokenKeepsPosition | src/components/TaskEditor.tsx:131-138 | the rewritten token stays at the same position and only its state character changes |
| TaskEditor.SetTokenLastWins | src/components/TaskEditor.tsx:131-138 | setting the state twice is setting the second state once |
| TaskEditor.FirstTokenOfCheckbox | src/components/TaskEditor.tsx:131-138 | on a checkbox row the first token is the row's own box |
| TaskEditor.SetTokenChecksBox | src/components/TaskEditor.tsx:131-138 | a checkbox row keeps its indent and label and takes the new state |
| TaskEditor.SubstringFrom | src/components/TaskEditor.tsx:56 | `substring(from)`: together with `substring(0, from)` it gives the text back |
| TaskEditor.SubstringTo | src/components/TaskEditor.tsx:55 | `substring(0, to)`: a prefix of the text, `to` characters long or the whole text when `to` is past the end |
| TaskEditor.LastLine | src/components/TaskEditor.tsx:59 | `split('\n').pop()`: a newline-free suffix of the text, preceded by a newline unless it is the whole text |
| TaskEditor.ChangeCheckbox | src/components/TaskEditor.tsx:131-138 | the content with one row's token rewritten, re-joined |
| TaskEditor.ChangeCheckboxOnlyThatRow | src/components/TaskEditor.tsx:131-138 | the checkbox change keeps the row count and every other row |
| TaskEditor.LastRowIsSuffix | src/components/TaskEditor.tsx:59 | the last row is a suffix of the joined rows, and with two or more rows a newline comes just before it |
| TaskEditor.NewTodoSplice | src/components/TaskEditor.tsx:50-94 | the selection is replaced by a newline, the current indent (two more spaces for Tab) and an empty item; the cursor lands after the marker |
| TaskEditor.SpliceCursorAfterMarker | src/components/TaskEditor.tsx:50-94 | text before the new cursor is the old prefix plus the marker, text after it is what followed the selection |
| TaskEditor.NotesKeyDown | src/components/TaskEditor.tsx:50-94 | a splice exactly for Ctrl/Cmd+Enter or Tab; Tab, whatever the modifiers, gives the nested todo, Ctrl/Cmd+Enter the plain one; other keys leave the content alone |
| TaskEditor.ShiftTabNests | src/components/TaskEditor.tsx:72-93 | Shift+Tab gives the same splice as Tab: at a collapsed cursor nothing is removed, and a newline, the row's indent and `  - [ ] ` are inserted at the cursor, so it never un-indents despite the hint at TaskEditor.tsx:175 |
| TaskTitle.TitleEditor.constructor | src/components/task-editor/TaskTitle.tsx:12-13 | the title shown and edited, not editing |
| TaskTitle.TitleEditor.SyncTitle | src/components/task-editor/TaskTitle.tsx:16-18 | a new title prop replaces the edit text |
| TaskTitle.TitleEditor.StartEditing | src/components/task-editor/TaskTitle.tsx:47 | editing starts |
| TaskTitle.TitleEditor.Input | src/components/task-editor/TaskTitle.tsx:32 | the edit text follows the input |
| TaskTitle.TitleEditor.Save | src/components/task-editor/TaskTitle.tsx:20-25 | emits the trimmed text and closes exactly when the text is not blank |
| TaskTitle.TitleEditor.Escape | src/components/task-editor/TaskTitle.tsx:34-40 | drops the edit text and closes |
| TaskTitle.CommittedTitleSaved | src/components/TaskEditor.tsx:39-44 | a committed title is saved as it was emitted |
| DailyCalendar.AllHours | src/components/DailyCalendar.tsx:37 | the hours 0…23 in order |
| DailyCalendar.VisibleHours | src/components/DailyCalendar.tsx:49-51 | all hours, or in focus mode exactly the existing hours within one of the current one, ascending |
| DailyCalendar.FormatHour | src/components/DailyCalendar.tsx:53-55 | `HH:00`, five characters for an hour below 100 |
| DailyCalendar.FormatHourReadsBack | src/components/DailyCalendar.tsx:53-55 | the two digits of the label read back as the hour |
| DailyCalendar.RemainingMinutes | src/components/DailyCalendar.tsx:42 | between 1 and 60 |
| DailyCalendar.FormatRemainingTime | src/components/DailyCalendar.tsx:43-47 | "1 hour" exactly at 60, "1 minute" exactly at 1, otherwise the number and "minutes" |
| DailyCalendar.TaskAtHour | src/components/DailyCalendar.tsx:148 | none exactly when no task is at that hour; otherwise the first such task |
| DailyCalendar.TitleEdit.constructor | src/components/DailyCalendar.tsx:35-36 | nothing being edited |
| DailyCalendar.TitleEdit.Input | src/components/DailyCalendar.tsx:190-191 | the edit text follows the input |
| DailyCalendar.TitleEdit.TaskEdit | src/components/DailyCalendar.tsx:57-67 | a non-blank title saves the trimmed title and closes; otherwise the input opens on the current title |
| DailyCalendar.TitleEdit.Confirm | src/components/DailyCalendar.tsx:198-203 | saves and closes exactly when the text is not blank; a blank text changes nothing |
| DailyCalendar.TitleEdit.Cancel | src/components/DailyCalendar.tsx:208-213 | closes the input and drops the text |
| DailyCalendar.TitleEdit.KeyDown | src/components/DailyCalendar.tsx:69-79 | Enter confirms, Escape cancels, other keys change nothing |
| DailyCalendar.RenameAgreesWithEditor | src/components/DailyCalendar.tsx:57-67 | the calendar and the task editor commit exactly the same titles, trimmed |
| HabitTracker.ToggleDay | src/components/HabitTracker.tsx:23-30 | the day's membership flips, appended when added; the other days, the id and the name are kept |
| HabitTracker.ToggleHabitDay | src/components/HabitTracker.tsx:20-35 | only habits with that id change; no chime exactly when every habit with that id already had the day ticked |
| HabitTracker.UnknownHabitUnchanged | src/components/HabitTracker.tsx:20-35 | a click on an unknown id changes nothing and plays nothing |
| HabitTracker.ClickTwiceRestores | src/components/HabitTracker.tsx:23-30 | ticking and unticking a day gives the habit back |
| HabitTracker.WeekAtMostSeven | src/components/HabitTracker.tsx:94 | a week of distinct weekdays has at most seven entries, so the `n/7` count never passes 7 |
| HabitTracker.ToggleKeepsWeek | src/components/HabitTracker.tsx:23-30 | a click keeps the days distinct weekdays, at most seven |
| HabitTracker.CurrentDayIndex | src/components/HabitTracker.tsx:37-40 | a Monday-based index 0…6, Sunday being 6 and Monday 0 |
| HabitTracker.DayIndexBijective | src/components/HabitTracker.tsx:37-40 | the conversion is a bijection on the seven weekdays |
| HabitSettings.NewHabit | src/components/settings/HabitSettings.tsx:24-32 | "New habit" with no days, under the given id |
| HabitSettings.Renamed | src/components/settings/HabitSettings.tsx:34-40 | habits with that id take the name, the rest are unchanged |
| HabitSettings.WithoutId | src/components/settings/HabitSettings.tsx:42-46 | no habit with that id remains |
| HabitSettings.WithoutIdMembers | src/components/settings/HabitSettings.tsx:42-46 | exactly the habits with another id remain |
| HabitSettings.WithoutIdAppend | src/components/settings/HabitSettings.tsx:42-46 | the removal keeps the order of the rest |
| HabitSettings.RemoveUndoesAdd | src/components/settings/HabitSettings.tsx:24-46 | removing a habit just added under a fresh id gives the list back |
| HabitSettings.RenameKeepsIdentity | src/components/settings/HabitSettings.tsx:34-46 | a rename keeps every id and ticked day, and commutes with removing another id |
| HabitSettings.HabitList.constructor | src/components/settings/HabitSettings.tsx:18 | the local copy starts as the prop |
| HabitSettings.HabitList.Sync | src/components/settings/HabitSettings.tsx:20-22 | the local copy follows a new prop |
| HabitSettings.HabitList.AddHabit | src/components/settings/HabitSettings.tsx:24-32 | one new habit at the end, stored and reported |
| HabitSettings.HabitList.UpdateHabit | src/components/settings/HabitSettings.tsx:34-40 | the renamed list, stored and reported |
| HabitSettings.HabitList.RemoveHabit | src/components/settings/HabitSettings.tsx:42-46 | the list without that id, stored and reported |
| QuestionSettings.AddQuestion | src/components/settings/QuestionSettings.tsx:12-14 | "New question" appended, the rest unchanged |
| QuestionSettings.UpdateQuestion | src/components/settings/QuestionSettings.tsx:16-20 | one entry replaced, the rest unchanged |
| QuestionSettings.RemoveQuestion | src/components/settings/QuestionSettings.tsx:22-25 | the entry at the index dropped, the rest in order; an index out of range drops nothing |
| QuestionSettings.RemoveUndoesAdd | src/components/settings/QuestionSettings.tsx:12-25 | removing the question just added gives the list back |
| QuestionSettings.RemoveAfterUpdate | src/components/settings/QuestionSettings.tsx:16-25 | editing then removing a question is removing it |
| QuestionSettings.UpdateSameText | src/components/settings/QuestionSettings.tsx:16-20 | writing back the same text changes nothing |
| PostPomodoroForm.IndexOf | src/components/pomodoro/PostPomodoroForm.tsx:23-29 | the first occurrence of the pattern, or -1 exactly when there is none |
| PostPomodoroForm.ReplaceFirst | src/components/pomodoro/PostPomodoroForm.tsx:23-29 | `replace` with a plain string: the first occurrence replaced, or the text unchanged |
| PostPomodoroForm.CompletedTasks | src/components/pomodoro/PostPomodoroForm.tsx:23-29 | nothing without a task or with empty content; otherwise none exactly when no line contains `[x]` |
| PostPomodoroForm.CompletedTasksAt | src/components/pomodoro/PostPomodoroForm.tsx:23-29 | the list is the kept lines before row i, then row i (with its first `- [x] ` removed) exactly when it contains `[x]`, then the kept lines after row i: lines are kept in order |
| PostPomodoroForm.CompletedTasksMembers | src/components/pomodoro/PostPomodoroForm.tsx:23-29 | a text is listed exactly when some row contains `[x]` and becomes that text once its first `- [x] ` is removed |
| PostPomodoroForm.TokenAfterIndent | src/components/pomodoro/PostPomodoroForm.tsx:23-29 | on an indented ticked row the first `- [x] ` sits right after the indent |
| PostPomodoroForm.FormKeepsIndent | src/components/pomodoro/PostPomodoroForm.tsx:23-29 | for an indented ticked row the form keeps the indent before the label, and the webhook reports the bare label |
| PostPomodoroForm.FormKeepsMentions | src/components/pomodoro/PostPomodoroForm.tsx:23-29 | a line that mentions `[x]` without being a ticked box is completed for the form and not for the webhook |
| PostPomodoroForm.BlankAnswers | src/components/pomodoro/PostPomodoroForm.tsx:22 | one empty answer per question |
| PostPomodoroForm.AnswerForm.constructor | src/components/pomodoro/PostPomodoroForm.tsx:22 | the answers start blank |
| PostPomodoroForm.AnswerForm.EditAnswer | src/components/pomodoro/PostPomodoroForm.tsx:58-62 | only that question's answer changes |
| PostPomodoroForm.AnswerForm.Submit | src/components/pomodoro/PostPomodoroForm.tsx:31-36 | hands over the answers and the completed tasks, then blanks the answers |
| SubmissionHistory.HistoryPartition | src/components/SubmissionHistory.tsx:45-54 | the dated groups hold every submission once, under its date, in order |
| SubmissionHistory.HistoryMatchesPayloads | src/components/SubmissionHistory.tsx:45-54 | the dialog lists the same dates in the same order as the payloads a share sends |
| SubmissionHistory.RenderLine | src/components/SubmissionHistory.tsx:56-104 | a box row exactly for a checkbox line, with its indent width, state and label; otherwise the line as text |
| SubmissionHistory.RenderTaskContent | src/components/SubmissionHistory.tsx:56-104 | one drawn row per line of the task list |
| SubmissionHistory.RenderLineFollowsPattern | src/components/SubmissionHistory.tsx:58-66 | drawn as a box exactly when the pattern matches, ticked exactly when it matches with `x` |
| SubmissionHistory.TickedRowsAreReported | src/components/SubmissionHistory.tsx:67-94 | a ticked row in the history is one the webhook reports as completed |
| SubmissionHistory.StatusText | src/components/SubmissionHistory.tsx:170 | "Completed" exactly for a completed session, "Partial" exactly for one that is not |
| SubmissionHistory.Exchanges | src/components/SubmissionHistory.tsx:181-185 | each question with the answer at its position, or none when missing |
| SubmissionHistory.ExchangesMatchReflections | src/components/SubmissionHistory.tsx:181-185 | the dialog and the webhook pair each question with the same answer |
| SubmissionHistory.Share | src/components/SubmissionHistory.tsx:106-119 | without a URL it asks for one and sends nothing; otherwise the i-th request goes to the URL with the i-th date group's payload; it reports success exactly when every group's request is answered OK, and then every group was sent; on failure the last request made got the first answer that was not OK |
| SubmissionHistory.ShareTo | src/components/SubmissionHistory.tsx:112-118 | the `try` block: the requests of `sendToWebhook` to the URL, success exactly when every group's request is answered OK and then every group sent, failure at the first answer that was not OK |
| IndexPage.NewTask | src/pages/Index.tsx:72-82 | "New Task" at the hour, not completed, with the three-item checklist |
| IndexPage.NewTaskRows | src/pages/Index.tsx:72-82 | the new checklist splits into three canonical unchecked rows |
| IndexPage.NewTaskItemsUnchecked | src/pages/Index.tsx:72-82 | each of those rows reads back as an unchecked, unindented box labelled `Task item n` |
| IndexPage.ReplaceById | src/pages/Index.tsx:84-91 | tasks with that id become the update, the rest are unchanged |
| IndexPage.ReplaceThenFind | src/pages/Index.tsx:84-91 | after an update, looking the id up finds the updated task |
| IndexPage.ReplaceIdempotent | src/pages/Index.tsx:84-91 | saving the same task twice is saving it once |
| IndexPage.ToggleCompletion | src/pages/Index.tsx:93-103 | the date's membership flips in that habit's entry, created when missing; every other entry and date is kept |
| IndexPage.KeptDays | src/pages/Index.tsx:126-132 | the ticked days of the first old habit with that id, or none |
| IndexPage.MergeHabits | src/pages/Index.tsx:126-132 | the new habits in order, each with the progress its id had |
| IndexPage.MergeUnchanged | src/pages/Index.tsx:126-132 | saving the habits unchanged loses no progress |
| IndexPage.MergeKeepsProgress | src/pages/Index.tsx:126-132 | a renamed habit keeps its ticked days |
| IndexPage.Page.constructor | src/pages/Index.tsx:54-66 | the stored habits when present, otherwise the default ones with no days ticked |
| IndexPage.Page.TaskClick | src/pages/Index.tsx:68-70 | the clicked task becomes active |
| IndexPage.Page.AddTask | src/pages/Index.tsx:72-82 | one new task appended and made active |
| IndexPage.Page.UpdateTask | src/pages/Index.tsx:84-91 | tasks replaced by id; the active task follows when it has that id |
| IndexPage.Page.ToggleHabit | src/pages/Index.tsx:93-103 | the completions become `ToggleCompletion` of the old ones |
| IndexPage.Page.HabitsUpdate | src/pages/Index.tsx:105-108 | the habits become the new list |
| IndexPage.Page.SaveSettings | src/pages/Index.tsx:126-132 | the new settings, with the merged habits |
| DashboardLayout.ActiveTask | src/components/DashboardLayout.tsx:44 | no id finds nothing; otherwise none exactly when no task has the id, else the first task with that id |
| DashboardLayout.ActiveTaskFollowsUpdate | src/components/DashboardLayout.tsx:44 | after the page saves an edit, the shell shows the edited task |
| DashboardLayout.TimerConfig | src/components/DashboardLayout.tsx:105-115 | the timer receives the settings' durations, round length and auto-start |
| DashboardLayout.AutoStartChanged | src/components/DashboardLayout.tsx:58-63 | only `autoStartBreaks` changes |
| DashboardLayout.AutoStartKeepsDurations | src/components/DashboardLayout.tsx:58-63 | the switch changes only the timer's auto-start |
| DashboardLayout.HabitsUpdated | src/components/DashboardLayout.tsx:148-155 | only the habits change |
| DashboardLayout.Dashboard.constructor | src/components/DashboardLayout.tsx:49 | the local history starts as the prop |
| DashboardLayout.Dashboard.PomodoroComplete | src/components/DashboardLayout.tsx:65-72 | the new record goes first, and the listener receives it when there is one |
| DashboardLayout.Dashboard.ClearHistory | src/components/DashboardLayout.tsx:93 | the history becomes empty |

## Left out

- Sound effects, the ambient-sound player and the animations. They have no effect on state beyond the chime count that is modelled.
- Cookies and `localStorage`:
  - reads are arguments (the stored habits, the scheduler's marker);
  - writes are not modelled;
  - the dashboard's cookie effect is not modelled.
- Real time:
  - `setInterval`/`setTimeout` become method calls;
  - `Date.now()`, `getDay()`, `getHours()` and `getMinutes()` become arguments;
  - the Paris time-zone conversion and daylight-saving time are reduced to a second of the day.
- Locale formatting (`toLocaleDateString`, `toLocaleTimeString`) is an opaque function parameter.
- The network is a parameter function.
- The send is modelled as sequential, not as asynchronous interleaving with other handlers.
- Presentation: markup, CSS, focus and caret handling, including `ctrl+A`, the calendar input's focus and contentEditable refs.
- JavaScript strings are UTF-16. The model works on sequences of characters.
- Object keys: dates are assumed not to be array-index strings, which an object would enumerate first.
- `Object.values` order for the reflection answers.
- Timer `handleFormSubmit` and the after-session form's route into the timer. The timer never opens that form, so that path is dead. The form is modelled on its own.
- `TaskEditor.handleSubmit`: it calls an undefined `generateId`, so it cannot run as written.
- The notes box's shortcuts apply the notes' selection offsets to the task content. `TaskEditor.NewTodoSplice` models that mismatch as written, without claiming it is meaningful.
- Changes to the short- and long-break duration props do not reset a running break in the source. The model agrees and proves nothing more about them.
- Pomodoro.PomodoroTimer.SetConfig: requires a round length of at least 1. The settings slider only offers 2 to 8 (src/components/settings/PomodoroSettings.tsx:87-93), so this is weaker than what callers guarantee.
- Pomodoro.PomodoroTimer.constructor: requires a round length of at least 1, for the same reason as `SetConfig`. The source accepts any number; the dashboard passes the stored setting, which starts at 4 (src/pages/Index.tsx:30) and is changed only by that slider.
- The day-start and day-end forms, the settings dialog's layout and the week number (`getWeek`) are display code and are not part of this model.
- PostPomodoroForm.AnswerForm.constructor: `questions` is fixed for the form's life. A change of the prop, which does not reset the answers in the source, is not modelled.
- QuestionSettings.UpdateQuestion: requires an index inside the list. An out-of-range assignment would make a sparse array, and the only caller passes an existing index.
- Scheduler.SubmissionScheduler.RetryFire: the five-minute retry delay is kept as a constant; retries are counted, not armed as separate timeouts.
- The webhook's `CompletedTasks` contract states only bounds. Its meaning is proved in the lemmas `Webhook.NothingTickedNothingReported`, `Webhook.CheckedLineReportsLabel` and `Webhook.UncheckedLineNotReported`.
