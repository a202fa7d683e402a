# Study Hub: timer and to-do list, modelled in Dafny

Study Hub is a browser dashboard for studying. It has three parts: a catalog of learning resources
shown as cards, a 30-minute countdown timer that starts when a card is clicked, and a to-do list kept
in the browser's `localStorage`. All of this lives in `script.js`. This project models the two
parts of that file that hold state, the timer and the to-do list, together with the small pure
computations they use: the `MM:SS` display text, string trimming, and the visible-card filter.

Modules:

- `Options` (options.dfy): `Option`, for `null` values, missing storage keys and `find` misses.
- `Sequences` (sequences.dfy): `Filter`, which models `Array.prototype.filter`, and `IsSubsequence`,
  which says that a filter keeps the original order.
- `Text` (text.dfy): `trim`, with the ECMAScript whitespace and line-terminator characters.
- `Catalog` (catalog.dfy): `StudyItem` and the visible-card filter.
- `TimerDisplay` (display.dfy): `Number.toString`, `padStart(2, '0')` and the `MM:SS` text.
- `Timer` (timer.dfy): the timer.
  - `TimerState` holds the five timer variables. It also holds `activeIntervals`, the number of
    intervals the browser still fires.
  - One pure `*Step` function per operation.
  - `RunSeconds` lets `n` seconds of wall-clock time pass.
  - Lemmas about these functions.
  - The class `StudyTimer` has the variables as fields. Its methods update them step by step, and
    each method's `ensures` ties the new state to the matching `*Step` function.
- `Tasks` (tasks.dfy): the to-do list.
  - `Task`, and `Store`, the two storage entries plus a count of writes.
  - Pure functions for add, toggle, delete and the filtered views, with lemmas about them.
  - The class `TaskList`, whose fields are `tasks`, `currentFilter` and `store`. Its methods
    mutate them the way the handlers do.

The timer's consistent states are described by `Timer.WellFormed`:

- `0 <= currentTimer <= 1800`;
- an interval handle is held exactly when the session runs, and exactly then one interval is live;
- paused implies running;
- no study item implies not running;
- running implies time is left.

Every handler step keeps these facts (`StepsPreserveWellFormed`). Of the class methods,
`StartTimer`, `Tick`, `PauseTimer` and `ResetTimer` keep `Valid()`, and the constructor establishes
it. `StopTimer` and `OnTimerComplete` are inner helpers that the handlers call, and on their own
they can break it. `StopTimer` drops the handle but leaves `isTimerRunning` set. `OnTimerComplete`
on a paused session leaves it paused but not running. `SessionCompletesOnce` proves three things about a session left alone for at least
1800 seconds: it ends stopped at zero, no interval is live, and exactly one completion notice is
raised.

For the to-do list, `TaskList.Persisted()` says that reading storage back now would give exactly
the list in memory. Every method that writes the tasks entry (`SaveTasks`, `DeleteTask`, and
`AddTask` or `ToggleTaskComplete` when they change the list) ends with it true. `FilterTasks`
writes only the filter entry. After a failed `LoadTasks` it therefore leaves `Persisted()` false. Methods that reject their
input (blank text, an unknown id) leave storage as it was, including the write count.

### Behaviour of the code worth noting

- The interval callback (script.js:219-229) does not check `isTimerRunning`. It only stops counting
  because `stopTimer` clears the interval. The model keeps this: `CallbackStep` has no guard on
  running, and `Second` runs the callback only while an interval is live.
- `loadTasks` (script.js:328-331) does not guard `JSON.parse`. A malformed stored list throws
  instead of falling back to `[]`. `DecodeTasks` returns `None` for it, and `TaskList.LoadTasks`
  reports failure and leaves `tasks` unchanged.
- `deleteTask` (script.js:379-383) writes storage even when no task has the id.
- The filter is any string. `getFilteredTasks` treats every value other than `'active'` and
  `'completed'` as "all". `loadCurrentFilter` also turns a stored empty string into `'all'`.
- Task ids come from `Date.now()` and can collide. When they do, toggle acts only on the first
  match (`find`) and delete removes every match (`filter`). `CollidingIdsToggleVersusDelete` shows
  this on a concrete list.
- When a session completes, the study item stays selected and the time shows `00:00`. Only
  `resetTimer` returns to the idle state.

## Model

| member | source | states |
|---|---|---|
| `Sequences.Filter` | script.js:401-403 | the result holds exactly the elements that pass the predicate, and no more elements than the input |
| `Sequences.FilterIsSubsequence` | script.js:401-403 | a filter result keeps the input order (it is a subsequence) |
| `Sequences.FilterCounts` | script.js:401-403 | a filter result holds every passing element exactly as often as the input does, and no other element |
| `Sequences.FilterPartition` | script.js:401-403 | two complementary filters split the input: their multisets add up to the input's, and so do their lengths |
| `Text.Trim` | script.js:347 | definition of `trim` as `TrimEnd` after `TrimStart`; its properties are stated by `TrimIsInnerSlice`, `TrimmedEndsAreNotBlank`, `TrimEmptyIffBlank` and `TrimIdempotent` |
| `Text.TrimStart` | script.js:347 | the result is a suffix of the input that is empty or does not start with whitespace |
| `Text.TrimStartDropsWhitespace` | script.js:347 | every character `TrimStart` drops is whitespace |
| `Text.TrimEnd` | script.js:347 | the result is a prefix of the input that is empty or does not end with whitespace |
| `Text.TrimEndDropsWhitespace` | script.js:347 | every character `TrimEnd` drops is whitespace |
| `Text.TrimIsInnerSlice` | script.js:347 | the trimmed text is a contiguous slice of the input, and everything before and after it is whitespace |
| `Text.TrimmedEndsAreNotBlank` | script.js:347 | a non-empty trimmed text neither starts nor ends with whitespace |
| `Text.TrimEmptyIffBlank` | script.js:347-350 | the trimmed text is empty if and only if the input is all whitespace, so exactly those inputs are rejected |
| `Text.TrimIdempotent` | script.js:347 | trimming twice equals trimming once |
| `Catalog.VisibleTutorials` | script.js:305 | the cards are exactly the visible items, in catalog order, each as often as the catalog holds it |
| `TimerDisplay.Decimal` | script.js:268 | `toString` gives digits without leading zeros that denote the number; one digit below 10, at most two below 100 |
| `TimerDisplay.PadStart2` | script.js:268 | definition of `padStart(2, '0')`; `TwoDigits` and `LongTimesWiden` state its properties |
| `TimerDisplay.Display` | script.js:265-268 | definition of the `MM:SS` text; `DisplayReadsBack`, `LongTimesWiden` and `DisplayOfConsistentState` state its properties |
| `TimerDisplay.LeadingZerosKeepValue` | script.js:268 | zeros added by `padStart` do not change the number the digits denote |
| `TimerDisplay.TwoDigits` | script.js:268 | below 100, the padded field is exactly two digits denoting the number |
| `TimerDisplay.DisplayReadsBack` | script.js:265-268 | up to 5999 s the text is 5 characters with ':' at index 2, seconds field < 60, and minutes*60 + seconds equals the input |
| `TimerDisplay.LongTimesWiden` | script.js:266-268 | from 100 minutes on, the text is longer than 5 characters (`padStart` never truncates) |
| `Timer.StopStep` | script.js:251-256 | definition of `stopTimer` on the timer state; `StopIdempotent` states its properties |
| `Timer.StartStep` | script.js:200-230 | definition of `startTimer`; `StartGivesFreshSession` and `StepsPreserveWellFormed` state its properties |
| `Timer.CallbackStep` | script.js:219-229 | definition of the interval callback; `SecondWhileCounting`, `PausedCallbacksChangeNothing` and `StepsPreserveWellFormed` state its properties |
| `Timer.CompleteStep` | script.js:258-263 | definition of `onTimerComplete`; `SecondWhileCounting` and `RunCountsDown` state what it leaves after the last second |
| `Timer.PauseStep` | script.js:232-237 | definition of `pauseTimer`; `PauseFlipsOnlyPaused` and `PauseTwiceRestores` state its properties |
| `Timer.ResetStep` | script.js:239-249 | definition of `resetTimer`; `ResetReachesIdle` states its properties |
| `Timer.FireCallbacks` | script.js:219-229 | definition of several callback runs in a row; `PausedCallbacksChangeNothing` states its properties |
| `Timer.Second` | script.js:219-229 | definition of one second of time, in which every live interval runs the callback; `SecondWhileCounting` and `SecondWhileStopped` state its properties |
| `Timer.RunSeconds` | script.js:219-229 | definition of `n` seconds of time; `RunSecondsSplit`, `RunWhilePaused`, `RunWhileStopped`, `RunCountsDown` and `RunPastZero` state its properties |
| `Timer.StartGivesFreshSession` | script.js:200-229 | from any consistent state, start gives full time, running, not paused, the given item, one handle and exactly one live interval |
| `Timer.StopIdempotent` | script.js:251-256 | after `stopTimer` no handle is held, and stopping again changes nothing |
| `Timer.SecondWhileCounting` | script.js:219-227 | one second of a running, unpaused session takes off exactly 1; completion fires exactly when 1 was left, and then the session stops |
| `Timer.PausedCallbacksChangeNothing` | script.js:219-220 | while paused, any number of callbacks change nothing and raise no completion |
| `Timer.SecondWhileStopped` | script.js:251-263 | once a session has completed or been reset, a second passes without any effect |
| `Timer.PauseFlipsOnlyPaused` | script.js:232-235 | pause flips the paused flag exactly when a session runs, changes no other field, and keeps consistency |
| `Timer.PauseTwiceRestores` | script.js:232-235 | pausing twice restores the original state |
| `Timer.ResetReachesIdle` | script.js:239-256 | from every consistent state, reset reaches the same idle state; resetting again changes nothing |
| `Timer.StepsPreserveWellFormed` | script.js:127-131 | start, pause, reset, the callback and a second of time all keep the timer invariant |
| `Timer.RunSecondsSplit` | script.js:219-229 | running m + n seconds equals running m seconds and then n more, with the completions added up |
| `Timer.RunWhilePaused` | script.js:219-220 | a paused session is unchanged after any number of seconds |
| `Timer.RunWhileStopped` | script.js:251-263 | a session that is not running is unchanged after any number of seconds, so completion cannot fire again |
| `Timer.RunCountsDown` | script.js:219-229 | after n seconds, with n at most the time left, exactly n are gone; the session runs until zero, and completion fires once, at zero |
| `Timer.RunPastZero` | script.js:219-263 | an unpaused running session left alone for at least its remaining time ends stopped at 0, with no interval live and exactly one completion |
| `Timer.SessionCompletesOnce` | script.js:200-229 | start, then at least 1800 seconds: stopped at 0, no interval live, exactly one completion |
| `Timer.PauseHoldsThenResumes` | script.js:200-237 | start and pause: m seconds change nothing. Resume: n < 1800 seconds take off exactly n and the session still runs |
| `Timer.DisplayOfConsistentState` | script.js:265-268 | every consistent timer state displays as `MM:SS` denoting its time left |
| `Timer.StudyTimer.constructor` | script.js:127-131 | after initialisation's `resetTimer`, the fields hold the idle state, which is consistent |
| `Timer.StudyTimer.StopTimer` | script.js:251-256 | the fields become `StopStep` of the old ones |
| `Timer.StudyTimer.StartTimer` | script.js:200-230 | the fields become `StartStep` of the old ones and consistency is kept; the returned URL is the item's |
| `Timer.StudyTimer.Tick` | script.js:219-229 | the fields and the completion flag are `CallbackStep` of the old fields, and consistency is kept |
| `Timer.StudyTimer.OnTimerComplete` | script.js:258-263 | the fields become `CompleteStep` of the old ones |
| `Timer.StudyTimer.PauseTimer` | script.js:232-237 | the fields become `PauseStep` of the old ones and consistency is kept |
| `Timer.StudyTimer.ResetTimer` | script.js:239-249 | the fields become `ResetStep` of the old ones, which is the idle state from any consistent state |
| `Timer.StudyTimer.UpdateTimerDisplay` | script.js:265-270 | the text is 5 characters `MM:SS`, with fields that read back as the remaining seconds |
| `Tasks.StoreTasks` | script.js:333-335 | definition of `saveTasks` on storage: one write of the list; `TasksRoundTrip` states its property |
| `Tasks.DecodeTasks` | script.js:328-331 | definition of what `loadTasks` reads: a missing or empty entry is `[]`, and a malformed one is a failure; `TasksRoundTrip` states its property |
| `Tasks.StoreFilter` | script.js:342-344 | definition of `saveCurrentFilter` on storage: one write of the filter; `FilterRoundTrip` states its property |
| `Tasks.FilterOrDefault` | script.js:337-340 | definition of `getItem(...) \|\| 'all'`; `FilterRoundTrip` states its property |
| `Tasks.NewTask` | script.js:352-358 | definition of the task `addTask` creates; `NewTaskHeadsViews` states its place in the views |
| `Tasks.Toggled` | script.js:370-377 | definition of `toggleTaskComplete` on the list; `ToggleFlipsFirstMatchOnly`, `ToggleTwiceRestores` and `ToggleUnknownIdChangesNothing` state its properties |
| `Tasks.WithoutId` | script.js:379-383 | definition of `deleteTask` on the list; `DeleteRemovesAllMatches` states its properties |
| `Tasks.TasksRoundTrip` | script.js:328-335 | saving the list and loading it back gives the same list; the filter entry is untouched |
| `Tasks.FilterRoundTrip` | script.js:337-344 | a saved filter reloads as itself, except '' which reloads as 'all'; a missing entry loads as 'all' |
| `Tasks.FirstIndexOf` | script.js:371 | `find` stops at a task with the id that no earlier task has; on a miss no task has it |
| `Tasks.FilteredView` | script.js:398-407 | 'active' and 'completed' give order-preserving subsequences holding exactly the tasks with that status; any other filter gives the list itself |
| `Tasks.ToggleFlipsFirstMatchOnly` | script.js:370-377 | toggle keeps length, order and all other fields, and flips `completed` exactly on the first task with the id |
| `Tasks.FirstIndexOfSameIds` | script.js:371 | `find` by id gives the same position on two lists with the same ids at every position |
| `Tasks.ToggleTwiceRestores` | script.js:370-377 | toggling the same id twice is the identity |
| `Tasks.ToggleUnknownIdChangesNothing` | script.js:370-377 | toggling an id that no task carries changes nothing |
| `Tasks.DeleteRemovesAllMatches` | script.js:379-383 | delete keeps exactly the tasks with other ids, in order and each as often as the list holds it; deleting again or deleting an absent id changes nothing |
| `Tasks.ViewsPartitionTasks` | script.js:398-407 | the 'active' and 'completed' views together hold every task exactly as often as the list does |
| `Tasks.NewTaskHeadsViews` | script.js:352-360 | a newly added task comes first in the 'all' and 'active' views and does not appear in 'completed' |
| `Tasks.CollidingIdsToggleVersusDelete` | script.js:370-383 | with two tasks sharing an id, toggle flips only the first and delete removes both |
| `Tasks.TaskList.constructor` | script.js:132-133 | the list starts empty, the filter starts as 'all', and storage is whatever earlier visits left |
| `Tasks.TaskList.LoadTasks` | script.js:328-331 | succeeds exactly when the stored entry decodes, and then memory matches storage; on failure the list is unchanged; storage is never written |
| `Tasks.TaskList.SaveTasks` | script.js:333-335 | one write stores the current list, and storage then matches memory |
| `Tasks.TaskList.LoadCurrentFilter` | script.js:337-340 | the filter becomes the stored one, or 'all' when it is missing or empty |
| `Tasks.TaskList.SaveCurrentFilter` | script.js:342-344 | one write stores the current filter |
| `Tasks.TaskList.AddTask` | script.js:346-368 | blank input changes nothing and writes nothing; otherwise the new task, with trimmed text and not completed, goes in front of the old list and the list is saved |
| `Tasks.TaskList.ToggleTaskComplete` | script.js:370-377 | the list becomes `Toggled` of the old list; it is saved when the id is found, and nothing is written otherwise |
| `Tasks.TaskList.DeleteTask` | script.js:379-383 | the list becomes `WithoutId` of the old list and is always saved |
| `Tasks.TaskList.FilterTasks` | script.js:385-390 | the filter is set and saved, and the list is untouched |
| `Tasks.TaskList.GetFilteredTasks` | script.js:398-407 | definition: the tasks `FilteredView` selects for the current filter; `FilteredView` and `ViewsPartitionTasks` state its properties |

## Left out

- Rendering and view glue are not modelled. This covers `renderTasks`, `createTaskElement`,
  `renderTutorials`, `createTutorialCard`, `updateCurrentStudy`, the timer-control enabling and
  disabling, the modal functions, `updateFilterButtons`, and the `textContent` writes. In the
  model, the completion modal is the `completed` flag that `Tick` returns.
- `escapeHtml` is not modelled. It hands its work to the browser's HTML serialiser, whose
  behaviour is not part of this model.
- Theme handling (`loadTheme`, `toggleTheme`, `updateThemeIcon`) is not modelled. It is a DOM
  attribute plus a storage entry, and its only logic is a light/dark flip.
- The scheduling done by `setInterval` and `clearInterval` is not modelled. The held handle is a
  flag. The browser's live intervals are a count, and one elapsed second runs the callback once
  per live interval.
- `window.open` is not modelled as an effect. `StartTimer` returns the URL it would open.
- `debounce` is not modelled. It is never called.
- `Date.now()` and `new Date().toISOString()` are clock readings. They are parameters of `AddTask`.
- JSON encoding is abstract. A stored list is `Encoded(tasks)`, the empty string, or `Malformed`.
  `Malformed` covers every text that does not decode to a task list, including valid JSON that is
  not an array, which the source would accept and then fail on later.
- The HTML form's values are parameters of `AddTask`. Clearing the form after an add is not modelled.
- Page initialisation as a whole is not modelled. This covers `initializeApp`, the event wiring,
  keyboard shortcuts, the global error handler and the commented-out service worker. The
  constructors give the state right after the variable declarations; for the timer, they also
  include the `resetTimer` call that initialisation ends with. When `loadTasks` throws, the rest of
  initialisation is skipped; that is not modelled.
- The tutorial catalog's contents are not modelled. They are static data; only the visibility
  filter over them is.
- `StudyItem.visible` is a boolean. An item with no `visible` property, which `visible !== false`
  would show, cannot be expressed.
- Before initialisation `currentTimer` is `null`. The model starts it at 0, and the constructor's
  `resetTimer` overwrites it before anything reads it.
- Timer.StudyTimer.UpdateTimerDisplay: requires `0 <= currentTimer < 6000`, so it does not describe
  the text for negative values, which no consistent state holds.
- Timer.StudyTimer.Tick: requires a live interval, because the browser runs the callback only then.
  Within that, its contract is the whole callback body.
