# distill — a verified model of the to-do and Pomodoro core

distill is a React Native app that keeps a list of tasks and runs focus
sessions with a countdown timer. This project is a Dafny model of its core,
with properties proved about that model:

- **Ranking** (`algorithm.dfy`, module `Algorithm`). A task's score is a
  priority weight, plus a status weight, plus a due-date bonus by buckets.
  Completed tasks are dropped, and the rest are sorted by score, highest
  first, with the older task first on equal scores. The sort is a stable
  insertion sort. It is proved to return a permutation of the active
  tasks, in ranked order; that it is stable is by construction and is
  not proved.
- **The store** (`main_slice.dfy`, module `MainSlice`). Class `MainStore`
  holds the Redux slice's state. Each reducer is a method that updates its
  fields in place. Each list reducer is tied to a specification function
  (`DeleteFirst`, `EditFirst`, append), and lemmas prove those functions'
  properties: no-op on an unknown id, the first match only, order kept,
  ids kept unique, edits idempotent. The selectors `todayTopTasks` and
  `todayCompletedTasks` are functions.
- **The countdown hook** (`use_timer.dfy`, module `UseTimer`). Each
  operation of `useTimer` is a transition function: start, pause, reset,
  the interval tick and the monitor effect. Class `Timer` holds the three
  state fields, and each of its methods is bound to one transition.
  Lemmas over whole event sequences prove these properties:
  - the count stays within [0, initialSeconds];
  - `onFinish` fires at most once per run;
  - `onFirstStart` fires at most once between resets, and never with
    auto-start on;
  - n ticks count a running timer down to completion.
- **The working-session screen** (`working_session.dfy`, module
  `WorkingSession`). It covers:
  - the `MM:SS` text, with its inverse `ReadClock` and a round-trip proof;
  - which buttons and labels show for every reachable timer state;
  - the exit decision;
  - marking the task completed;
  - the routing of notification actions.
- **The settings screen** (`settings.dfy`, module `Settings`). It covers
  the ordered validation of a custom session length, the preset
  highlighting rule, and the handlers of the custom-length sheet.
- **The add/edit task screen** (`add_task.dfy`, module `AddTask`). It
  covers the default form, the ordered form checks, the choice between
  adding and editing, loading a task into the form, and the delete guard.
- Shared pieces: `data.dfy` (module `Data`) holds the records, `Option` and
  `Result`, look-up by id and filtering. `numbers.dfy` (module `Numbers`)
  models the JavaScript conversions the screens rely on, for integers:
  `toString`, `padStart`, `%`, `trim` and `parseInt`.

How the model represents things:
- Generated ids (`uuid()`) and the current time (`new Date()`) are
  parameters.
- Timestamps are integers.
- Due dates are day numbers, and ranking takes today's day number as an
  argument.
- Navigation and alerts are returned values. The user's answer to a
  confirmation dialog is an argument.
- The `task` route parameter is a `TaskParam` value: absent, unparsable, or
  a parsed task.

Two behaviours of the code are easy to miss, and the model follows the code:
- With auto-start on, `hasBeenStarted` is already true on mount. So
  `onFirstStart` is never called, and an auto-started working session
  records no session in the store. This is proved by
  `UseTimer.AutoStartNeverFiresFirstStart`.
- The working-session screen takes `restart` from `useTimer`, which does
  not return it. A "restart" notification action therefore reaches an
  undefined function. The call throws inside the listener and changes no
  state, so the model routes the action and changes no state.

## Model

| member | source | states |
|---|---|---|
| Data.FindIndex | src/redux/slices/main.ts:71 | `findIndex`: -1 exactly when no element has the id, otherwise the first index whose element has it |
| Data.Filter | src/utils/algorithm.ts:49 | `filter`: an element is kept exactly when it is in the input and satisfies the predicate, and the result is no longer than the input |
| Data.FilterCount | src/utils/algorithm.ts:49 | each element that satisfies the predicate occurs in the filtered list as often as in the input; no other element occurs |
| Data.FilterSingleton | src/utils/algorithm.ts:49 | a one-element list keeps its element exactly when the predicate holds |
| Data.FilterAppend | src/utils/algorithm.ts:49 | filtering a concatenation is the concatenation of the filtered parts, so the input order is kept |
| Algorithm.PriorityScore | src/utils/algorithm.ts:4-8 | the table `PRIORITY_SCORES` with a fallback of 0: the table's weight, or 0 for a priority outside the table; the values are stated by `PriorityWeights` |
| Algorithm.StatusScore | src/utils/algorithm.ts:10-14 | the table `STATUS_SCORES` with a fallback of 0: the table's weight, or 0 for a status outside the table; the values are stated by `StatusWeights` |
| Algorithm.DueDateScore | src/utils/algorithm.ts:31-41 | the due-date bonus for a day difference, by the if/else chain; its buckets are stated by `DueDateBuckets` and its monotonicity by `DueDateScoreMonotone` |
| Algorithm.TaskScore | src/utils/algorithm.ts:16-45 | `calculateTaskScore`: priority weight plus status weight, plus the due-date bonus of `due - today` when there is a due date; bounded by `ScoreBounds` |
| Algorithm.Compare | src/utils/algorithm.ts:51-61 | the comparator given to `sort`: `scoreB - scoreA` when the scores differ, otherwise the difference of the creation times; total and transitive by `CompareTotal` and `CompareTransitive` |
| Algorithm.IsActive | src/utils/algorithm.ts:49 | the filter's test `status !== 3` |
| Algorithm.PriorityWeights | src/utils/algorithm.ts:4-8 | priority 3, 2, 1 weigh 300, 200, 100; any other value weighs 0 |
| Algorithm.StatusWeights | src/utils/algorithm.ts:10-14 | status 2 weighs 150, status 1 weighs 50, status 3 and anything else weigh 0 |
| Algorithm.NoDueDateNoBonus | src/utils/algorithm.ts:26 | a task without a due date scores only its priority and status weights |
| Algorithm.DueDateBuckets | src/utils/algorithm.ts:31-41 | the bonus is 500 when overdue, 400 today, 300 tomorrow, 200 for 2..3 days, 100 for 4..7 days, 0 beyond; the buckets are inclusive |
| Algorithm.DueDateScoreMonotone | src/utils/algorithm.ts:26-41 | a later due date never earns a larger bonus; the bonus lies in [0, 500] |
| Algorithm.ScoreBounds | src/utils/algorithm.ts:16-45 | a task with priority in 1..3 and status 1 or 2 scores between 150 and 950 |
| Algorithm.CompareTransitive | src/utils/algorithm.ts:51-61 | the comparator is transitive (it is a valid sort order) |
| Algorithm.CompareTotal | src/utils/algorithm.ts:51-61 | any two tasks are ordered one way or the other |
| Algorithm.Insert | src/utils/algorithm.ts:51 | inserting adds exactly that element (multiset) |
| Algorithm.Sort | src/utils/algorithm.ts:51 | sorting returns a permutation of its input |
| Algorithm.InsertRanked | src/utils/algorithm.ts:51-61 | inserting into a ranked list keeps it ranked |
| Algorithm.SortRanked | src/utils/algorithm.ts:51-61 | the sorted list is ranked: no element compares after a later one |
| Algorithm.WeightedTasks | src/utils/algorithm.ts:47-62 | `getWeightedTasks`: no completed task, a permutation of the non-completed input tasks, ranked |
| Algorithm.RankedOrder | src/utils/algorithm.ts:55-60 | in a ranked list scores do not increase, and on equal scores creation times do not decrease |
| Algorithm.RankingMembership | src/utils/algorithm.ts:49 | a task is ranked exactly when it is in the input and not completed, and as often as it occurs there |
| Algorithm.TwoTaskExample | src/utils/algorithm.ts:16-62 | a High/To Do task due today (750) ranks before an older Low/In Progress task without a due date (250) |
| MainSlice.MainStore.constructor | src/redux/slices/main.ts:8-17 | the initial state: no date, empty lists, sort by priority descending, 25 minutes, no auto-start, normal dates |
| MainSlice.MainStore.ChangeSettings | src/redux/slices/main.ts:23-30 | each setting given in the payload is overwritten; the others keep their values; nothing else changes |
| MainSlice.MainStore.SetDate | src/redux/slices/main.ts:31-37 | the same date changes nothing; a new date is recorded and empties today's focus list |
| MainSlice.MainStore.StartSession | src/redux/slices/main.ts:38-45 | appends exactly one session, lasting 25 minutes unless a duration is given; with a fresh id the ids stay unique |
| MainSlice.MainStore.CompleteSession | src/redux/slices/main.ts:46-52 | the task of the first session with that id joins today's focus list; an unknown id changes nothing; sessions are untouched |
| MainSlice.MainStore.DeleteSession | src/redux/slices/main.ts:53-59 | removes the first session with that id, as `DeleteFirst` specifies; ids stay unique |
| MainSlice.MainStore.AddTask | src/redux/slices/main.ts:60-66 | appends exactly one task built from the payload with the fresh id and creation time; existing tasks are unchanged; ids stay unique |
| MainSlice.MainStore.EditTask | src/redux/slices/main.ts:67-79 | the list becomes `EditFirst` of the old one; ids stay unique |
| MainSlice.MainStore.DeleteTask | src/redux/slices/main.ts:80-86 | removes the first task with that id, as `DeleteFirst` specifies; ids stay unique |
| MainSlice.MainStore.ClearAllTasks | src/redux/slices/main.ts:87-91 | tasks, sessions and today's focus list become empty; settings are untouched |
| MainSlice.MainStore.SetSortConfig | src/redux/slices/main.ts:92-97 | the payload becomes the sort configuration |
| MainSlice.TodayTopTasks | src/redux/slices/main.ts:100-102 | the first min(3, n) tasks of the ranking of the n active tasks |
| MainSlice.TodayCompletedTasks | src/redux/slices/main.ts:103-105 | a task is listed exactly when it is in the list, completed, and created today, as often as it occurs in the list |
| MainSlice.TodayCompletedInOrder | src/redux/slices/main.ts:103-105 | the selector distributes over concatenation and lists a single task exactly when it is completed today, so the listed tasks keep the list order |
| MainSlice.NewTaskRecord | src/redux/slices/main.ts:60-66 | the record `addTask` pushes: the payload's fields with the fresh id and the current time as `createdAt` |
| MainSlice.ApplyPatch | src/redux/slices/main.ts:75-78 | `{ ...task, ...payload }`: each field present in the payload overrides the task's; absent fields are kept, by `ApplyPatchKeepsAbsentFields` |
| Data.RemoveAt | src/redux/slices/main.ts:85 | `splice(i, 1)`: one element shorter, the elements before `i` in place and those after it moved down by one |
| MainSlice.DeleteFirst | src/redux/slices/main.ts:80-86 | `findIndex` then `splice(i, 1)`: the list without its first element with the id, or the list itself when none has it; stated by `DeleteFirstSpec` |
| MainSlice.MissingId | src/redux/slices/main.ts:68 | `!payload.id`: the id is absent or the empty string |
| MainSlice.EditFirst | src/redux/slices/main.ts:67-79 | the task list after `editTask`: unchanged without an id or a match, otherwise the first match merged with the payload; stated by `EditFirstSpec` |
| MainSlice.CompletedOn | src/redux/slices/main.ts:104 | the selector's test: status 3 and created on the current day |
| MainSlice.AppendFreshKeepsUnique | src/redux/slices/main.ts:60-66 | pushing an element with an unused id keeps ids unique |
| MainSlice.DeleteFirstSpec | src/redux/slices/main.ts:80-86 | without the id nothing changes; otherwise exactly the first element with the id is spliced out, the others keep their order |
| MainSlice.DeleteFirstKeepsUnique | src/redux/slices/main.ts:53-59 | with unique ids, deletion keeps them unique and removes exactly that id from the set of ids |
| MainSlice.EditFirstSpec | src/redux/slices/main.ts:67-79 | a missing, empty or unknown id changes nothing; otherwise only the first task with that id is replaced, by its merge with the payload; the length is kept |
| MainSlice.EditFirstKeepsIds | src/redux/slices/main.ts:75-78 | an edit keeps the id at every position, so unique ids stay unique |
| MainSlice.ApplyPatchKeepsAbsentFields | src/redux/slices/main.ts:75-78 | fields absent from the payload keep their values; an empty payload changes nothing |
| MainSlice.EditFirstIdempotent | src/redux/slices/main.ts:67-79 | applying the same edit twice equals applying it once |
| MainSlice.TopTasksAreBest | src/redux/slices/main.ts:100-102 | the top tasks are active tasks from the list, ranked, and none left out ranks strictly above one shown |
| UseTimer.Initial | src/hooks/useTimer.tsx:13-15 | the three `useState` initial values: the full count, running and started exactly when auto-starting; stated by `InitialState` |
| UseTimer.PauseStep | src/hooks/useTimer.tsx:41-43 | `setIsRunning(false)`; that the count and the started flag are kept is stated by `PauseKeeps` |
| UseTimer.TickStep | src/hooks/useTimer.tsx:53-64 | one interval callback: `prev > 0 ? prev - 1 : 0` while running, nothing otherwise; stated by `TickCounts` |
| UseTimer.IsCompleted | src/hooks/useTimer.tsx:89-90 | `hasCompleted`: the count is 0, the timer is stopped and it has been started |
| UseTimer.StartStep | src/hooks/useTimer.tsx:30-39 | `start` calls `onFirstStart` exactly when never started; afterwards running and started, count unchanged |
| UseTimer.MonitorStep | src/hooks/useTimer.tsx:73-80 | `onFinish` is called exactly when the count is 0 while running; then the timer stops and nothing else changes; otherwise the state is unchanged |
| UseTimer.Step | src/hooks/useTimer.tsx:30-80 | one event followed by the monitor: `onFirstStart` exactly on a start of a never-started timer; `onFinish` exactly on a start at 0, a running tick from a count of at most 1, or an auto-starting reset to 0; each at most once |
| UseTimer.InitialState | src/hooks/useTimer.tsx:13-15 | the count starts at `initialSeconds`; running and started equal `autoStart`; the mounted state satisfies the invariant |
| UseTimer.SecondStartFiresNothing | src/hooks/useTimer.tsx:30-39 | a second start calls nothing and changes nothing |
| UseTimer.PauseKeeps | src/hooks/useTimer.tsx:41-43 | pause stops the timer and keeps the count and the started flag |
| UseTimer.TickCounts | src/hooks/useTimer.tsx:58-63 | a tick changes the count only while running, to max(count - 1, 0) |
| UseTimer.StepKeepsInv | src/hooks/useTimer.tsx:13-80 | every event keeps the invariant: running implies started, auto-start implies started, the count stays in [0, initialSeconds] |
| UseTimer.RunKeepsInv | src/hooks/useTimer.tsx:53-69 | along every sequence of events the invariant holds |
| UseTimer.FinishCompletes | src/hooks/useTimer.tsx:73-90 | when `onFinish` fires the timer has completed, and the monitor does not fire again |
| UseTimer.StoppedStaysStopped | src/hooks/useTimer.tsx:53-80 | without start or reset a stopped timer stays stopped and calls nothing |
| UseTimer.FinishAtMostOnce | src/hooks/useTimer.tsx:73-80 | between starts and resets `onFinish` fires at most once |
| UseTimer.AutoStartNeverFiresFirstStart | src/hooks/useTimer.tsx:13-39 | with auto-start on, no run ever calls `onFirstStart` |
| UseTimer.FirstStartAtMostOnce | src/hooks/useTimer.tsx:30-39 | without a reset `onFirstStart` fires at most once, and never once started |
| UseTimer.TicksCountDown | src/hooks/useTimer.tsx:58-63 | while running, n ticks short of zero take exactly n seconds off |
| UseTimer.CountdownCompletes | src/hooks/useTimer.tsx:53-90 | a running timer with n seconds left completes after exactly n ticks, calling `onFinish` once |
| UseTimer.PauseAfterTenSeconds | src/hooks/useTimer.tsx:30-63 | 1500 seconds, start, ten ticks, pause: 1490 seconds, paused, started, one first start |
| UseTimer.StartTicksPause | src/hooks/useTimer.tsx:30-63 | for any length without auto-start: start, n ticks short of zero, then pause leave n seconds off, paused and started, with one `onFirstStart` and no `onFinish` |
| UseTimer.Timer.constructor | src/hooks/useTimer.tsx:13-15 | the fields start in the initial state |
| UseTimer.Timer.Start | src/hooks/useTimer.tsx:30-39 | the new state and the `onFirstStart` call are those of `StartStep`; the invariant is kept |
| UseTimer.Timer.Pause | src/hooks/useTimer.tsx:41-43 | the new state is `PauseStep` of the old; the invariant is kept |
| UseTimer.Timer.Reset | src/hooks/useTimer.tsx:45-49 | the state returns to the initial one; the invariant is kept |
| UseTimer.Timer.Tick | src/hooks/useTimer.tsx:58-63 | the new state is `TickStep` of the old; the invariant is kept |
| UseTimer.Timer.Monitor | src/hooks/useTimer.tsx:73-80 | the new state and the `onFinish` call are those of `MonitorStep`; the invariant is kept |
| UseTimer.Timer.HasCompleted | src/hooks/useTimer.tsx:89-90 | completed exactly when the count is 0, stopped, and started |
| Numbers.NumberToString | src/app/working-session.tsx:47-49 | `toString()` of an integer below 10^21 in magnitude (exactly held below 2^53): a minus sign for a negative number, then the decimal digits without leading zeros; `ParseIntOfNumberToString` inverts it |
| Numbers.JsRem | src/app/working-session.tsx:49 | JavaScript's `%`: equals Dafny's `%` for a non-negative dividend, and is never positive for a negative one |
| Numbers.JsRemNegated | src/app/working-session.tsx:49 | the truncating remainder of `-a` is minus that of `a`, which pins it for negative dividends (`-61 % 60` is -1) |
| Numbers.PadStart | src/app/working-session.tsx:47-49 | `padStart`: the length is max(length, width), the end is the input, the rest is the fill |
| Numbers.IsWhitespace | src/app/add-task.tsx:58 | the characters `trim` and `parseInt` skip: tab, vertical tab, form feed, byte order mark, every space separator and the four line terminators |
| Numbers.Trim | src/app/add-task.tsx:58 | `trim()`: white space removed from both ends; empty exactly for blank text, by `TrimEmptyIffBlank` |
| Numbers.ParseInt | src/app/settings.tsx:41 | `parseInt(text, 10)`: leading white space, an optional sign, then the digit prefix; `None` (NaN) without a digit; its behaviour is stated by `ParseIntOfNumberToString`, `ParseIntIgnoresTrailing` and `ParseIntSkipsLeadingSpace` |
| Numbers.TrimEmptyIffBlank | src/app/settings.tsx:43 | `trim()` is empty exactly when every character is white space |
| Numbers.ParseIntOfNumberToString | src/app/settings.tsx:36-41 | `parseInt` reads back what `toString` writes, for every integer below 10^21 in magnitude (in the model, for every unbounded integer) |
| Numbers.ParseIntIgnoresTrailing | src/app/settings.tsx:41 | text after the digits does not change what `parseInt` reads |
| Numbers.ParseIntSkipsLeadingSpace | src/app/settings.tsx:41 | white space in front does not change what `parseInt` reads |
| WorkingSession.TimerDurationSeconds | src/app/working-session.tsx:30 | `timeDuration * 60`; the fresh countdown it gives is shown by `FreshCountdownText` |
| WorkingSession.TimeToShow | src/app/working-session.tsx:47-49 | `MM:SS`: `floor(seconds / 60)` padded to two digits, a colon, `seconds % 60` padded to two digits; inverted by `ReadClock` in `ClockRoundTrip`, width in `ClockWidth` |
| WorkingSession.ReadClock | src/app/working-session.tsx:47-49 | reads a countdown text back: digits, a colon, two digits below 60; the independent inverse `ClockRoundTrip` checks `TimeToShow` against |
| WorkingSession.PrimaryButton | src/app/working-session.tsx:167-174 | hidden once completed; otherwise 'Pause' while running, 'Resume' when started and not completed, else 'Start' |
| WorkingSession.ShowsResetButton | src/app/working-session.tsx:176-180 | the Reset button shows exactly when started and not completed |
| WorkingSession.ShowsCompletionPrompt | src/app/working-session.tsx:183-195 | the completion prompt shows exactly when completed |
| WorkingSession.ShowsMessage | src/app/working-session.tsx:150-164 | the start or completed message shows exactly when not started or completed |
| WorkingSession.OnExitDecision | src/app/working-session.tsx:54-72 | `onExit`: leave at once when not started or completed, otherwise ask for confirmation |
| WorkingSession.CompletionPatch | src/app/working-session.tsx:88 | the payload `{ id, status: 3 }`: only the id and the status are present |
| WorkingSession.ClockRoundTrip | src/app/working-session.tsx:47-49 | reading the `MM:SS` text back (`ReadClock`, its inverse) gives the count, for any count of at least 0 |
| WorkingSession.ClockWidth | src/app/working-session.tsx:47-49 | below 6000 seconds the text has five characters with the colon in the middle |
| WorkingSession.FreshCountdownText | src/app/working-session.tsx:30 | a fresh countdown of d minutes is d * 60 seconds and reads "dd:00" |
| WorkingSession.ScreenForTimerState | src/app/working-session.tsx:150-195 | for every reachable timer state: the primary button shows exactly when the completion prompt does not; the label is Pause exactly while running, Resume exactly while paused mid-session, and Start exactly before the first start; Reset shows exactly when leaving asks for confirmation; the message shows exactly when Reset does not |
| WorkingSession.CompletionMarksTask | src/app/working-session.tsx:86-91 | completing sets to 3 the status of the first task with the id and changes nothing else; an unknown or empty id changes nothing |
| WorkingSession.RouteAction | src/app/working-session.tsx:101-112 | only an action press is routed: "complete" to completion, "restart" to restart, anything else is ignored |
| WorkingSession.Screen.constructor | src/app/working-session.tsx:30-41 | the timer is created with the configured minutes as seconds and the auto-start setting |
| WorkingSession.Screen.PressPrimary | src/app/working-session.tsx:167-175 | running: pause, and no session is added; otherwise start, and a first start with a task appends a session with the configured length (the `onFirstStart` callback at lines 34-38) |
| WorkingSession.Screen.OnExit | src/app/working-session.tsx:54-72 | the screen is left at once exactly when not started or completed, otherwise only on confirmation |
| WorkingSession.Screen.HandleReset | src/app/working-session.tsx:73-85 | the timer is reset exactly when the user confirms |
| WorkingSession.Screen.DeclineCompletion | src/app/working-session.tsx:190 | "No, Reset The Timer" resets without asking |
| WorkingSession.Screen.HandleCompleted | src/app/working-session.tsx:86-91 | with a task, its status becomes 3 through `editTask`; without one nothing changes; the screen is always left |
| WorkingSession.Screen.HandleForegroundEvent | src/app/working-session.tsx:101-112 | the routing is `RouteAction`; "complete" runs the completion handler and leaves; every other event changes no task |
| Settings.ValidateCustomDuration | src/app/settings.tsx:40-56 | accepted exactly when the text parses to a number in 1..120, and then as that number; otherwise the first failing check is reported: not a number, below 1, above 120 |
| Settings.ParsedIsNotBlank | src/app/settings.tsx:43 | text that parses is never blank, so the blank check refuses nothing more |
| Settings.ValidLengthsRoundTrip | src/app/settings.tsx:35-61 | every length 1..120, as the sheet pre-fills it, is accepted as itself |
| Settings.OutOfRangeRefused | src/app/settings.tsx:48-56 | a written-out length below 1 is refused as too short; one above 120 as too long; for lengths below 10^21 in magnitude, where `toString` writes plain digits |
| Settings.TrailingTextIgnored | src/app/settings.tsx:41 | digits followed by other text are judged as the digits alone ("30m" is 30) |
| Settings.LeadingSpaceSkipped | src/app/settings.tsx:41 | leading white space does not change the verdict |
| Settings.NoDigitsRefused | src/app/settings.tsx:43-46 | text without any digit, the empty field included, is refused as not a number |
| Settings.HighlightedButtons | src/app/settings.tsx:86-104 | the four preset buttons, each highlighted when it equals the length, then the custom button, highlighted when the length is no preset; `ExactlyOneHighlighted` states that one is |
| Settings.CustomButtonLabel | src/app/settings.tsx:100-103 | the custom button shows the length exactly when it is highlighted, that is, when the length is no preset |
| Settings.ExactlyOneHighlighted | src/app/settings.tsx:86-103 | for every stored length, exactly one of the five length buttons is highlighted |
| Settings.Screen.constructor | src/app/settings.tsx:24-25 | the sheet starts closed and the field empty |
| Settings.Screen.ChangeTimeDuration | src/app/settings.tsx:27 | the length becomes the argument; the other settings are unchanged |
| Settings.Screen.ChangeAutoStart | src/app/settings.tsx:28-30 | auto-start is negated; the other settings are unchanged |
| Settings.Screen.ChangeDateFormat | src/app/settings.tsx:31-33 | the date format becomes the argument; the other settings are unchanged |
| Settings.Screen.OpenCustomModal | src/app/settings.tsx:35-38 | the sheet opens with the field holding the current length as text |
| Settings.Screen.EnterText | src/app/settings.tsx:159-161 | the field holds the typed text |
| Settings.Screen.SaveCustomDuration | src/app/settings.tsx:40-61 | an accepted length is stored, the sheet closes and the field is cleared; a refused one yields its alert and changes nothing |
| Settings.Screen.CancelCustomDuration | src/app/settings.tsx:63-66 | the sheet closes and the field is cleared; settings are untouched |
| AddTask.SetField | src/app/add-task.tsx:52-54 | `{ ...prev, [key]: value }`: the named field takes the value; `SetFieldFrame` states the other three are kept |
| AddTask.Falsy | src/app/add-task.tsx:64-73 | `!x` for an optional priority or status: absent or 0 |
| AddTask.SetFieldFrame | src/app/add-task.tsx:52-54 | `updateForm` writes the named field and leaves the other three as they were |
| AddTask.ValidateForm | src/app/add-task.tsx:56-73 | a form passes exactly when the title is not blank and priority and status are set and non-zero; otherwise the first failing check, in the order title, priority, status |
| AddTask.BlankTitleRefused | src/app/add-task.tsx:17-61 | a title of white space only is missing, and the default form is refused for its title |
| AddTask.EditsTask | src/app/add-task.tsx:75 | `isEditMode && taskId`: edit mode with a non-empty id |
| AddTask.EditPatch | src/app/add-task.tsx:76-82 | the edit payload `{ id, ...form, dueDate }`: every form field present, so a cleared due date clears the task's |
| AddTask.SubmitAction | src/app/add-task.tsx:56-95 | a refused form yields its error; a valid one is an edit exactly in edit mode with a non-empty id, carrying the id and every form field (a cleared due date clears it), and an add otherwise, carrying the form's fields |
| AddTask.LoadForm | src/app/add-task.tsx:40-45 | the form filled from a task being edited: its title, priority, status and due date |
| AddTask.EditUnchangedRoundTrip | src/app/add-task.tsx:34-95 | loading a stored, valid task and saving the form unchanged leaves the task list unchanged |
| AddTask.AddedTaskIsRanked | src/app/add-task.tsx:84-91 | a task added with a status other than Completed is at once among the ranked tasks |
| AddTask.Screen.constructor | src/app/add-task.tsx:28-30 | the screen starts with the default form, not in edit mode, without an id |
| AddTask.Screen.LoadTask | src/app/add-task.tsx:34-50 | a parsed task switches to edit mode with its id and fills the form with its title, priority, status and due date; an absent or unparsable one changes nothing |
| AddTask.Screen.UpdateForm | src/app/add-task.tsx:52-54 | the form becomes `SetField` of the old form |
| AddTask.Screen.Submit | src/app/add-task.tsx:56-95 | a refused form yields its alert and changes no task; an add appends the new task, an edit applies `EditFirst`; both leave the screen; ids stay unique with a fresh id |
| AddTask.Screen.HandleDelete | src/app/add-task.tsx:97-115 | outside edit mode or without an id nothing happens; otherwise the task is deleted, and the screen left, exactly when the user confirms |

## Left out

- The notification service and the start-up script (`src/services/notification-service.ts`, `index.js`) are not part of this model. They are calls into the notification library and an asynchronous wait for the persisted store.
- Calendar arithmetic, which the model takes as inputs:
  - due dates and "today" are day numbers, and their difference is the day count `dayjs` computes;
  - "created today" is the `isToday` argument of `TodayCompletedTasks`;
  - timestamps are integers;
  - conversion of a due date to an ISO string and back is the identity.
- `uuid()` and `new Date()` are the `freshId` and `now` parameters.
- `restart` is not modelled: `useTimer` does not provide it, so the model only reports that a "restart" action was routed.
- The timer's titles and task ids passed to `useTimer` are not modelled, because the hook ignores them.
- React scheduling is not modelled: the interval set-up and tear-down, stale callback closures and effect ordering. Each operation is one sequential transition, and the monitor runs after every event.
- The progress ring, the random start and completion messages, the theme, and all layout and rendering are presentation, and are left out.
- Store persistence is left out.
- `parseInt(text, 10)` reads only leading white space, an optional sign and a decimal digit prefix. It never strips `0x` and never reads `Infinity` or a fraction: "0x1A" gives 0, "1.5" gives 1 and "Infinity" gives NaN. `ParseInt` models all of this, so nothing of it is left out. The white space it skips, and that `trim` removes, is ECMAScript's full set: tab, vertical tab, form feed, the byte order mark, the space separators and the line terminators.
- Numbers are JavaScript doubles; the model uses unbounded integers. From 10^21 on, `toString` writes exponent notation, and `parseInt("1e+21", 10)` is 1. So a stored length of 1e21 would be pre-filled as "1e+21" and accepted as 1 minute. Integers above 2^53 are rounded. `NumberToString` writes exact digits for every integer, so `ParseIntOfNumberToString`, `ValidLengthsRoundTrip` and `OutOfRangeRefused` hold in JavaScript only below 10^21 in magnitude. The screens only format lengths up to 120 minutes (the presets, or a custom length of 1..120) and counts up to 7200 seconds.
- The `maxLength` limits of the text inputs are left out. They are enforced by the input component, not by the handlers.
- Algorithm.WeightedTasks: stability of the sort is not stated in the contract. Only "ranked" and "a permutation" are proved. Ties under `Compare` keep their input order in the model, but this is not proved. Ties are tasks with equal score and equal `createdAt`, and only stability fixes their order.
- Ranking being deterministic is not stated as a lemma: `WeightedTasks` is a function, so equal inputs give equal outputs.
- The `completedAt` field of a session is never set by the code, and the model does not set it either.
- The fallback assignment in `setSortConfig` is not modelled, because it is overwritten at once.
- The hardware back button is not modelled separately: it calls the same exit handler as `OnExit`.
- `onFinish` is not modelled on the working-session screen, because the screen passes none.
