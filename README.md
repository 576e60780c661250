# void. habit tracker — a Dafny model of its core

void. is an iOS habit tracker. Each habit has a goal. Progress and completion
are logged per day, and a heatmap shows each day's completion ratio.
A habit can carry several daily reminders, which go to the system's pending
local-notification queue. This project models the parts of the app that are
logic rather than layout, and proves what they promise:

- **Reminder scheduling** (`NotificationManager`, `NotificationCenter`).
  - The pending-request queue is a class holding a map from identifier to
    request.
  - `cancelNotifications` removes every identifier that starts with the
    habit's id.
  - `scheduleNotifications` cancels first. It then adds one request per
    enabled reminder, under `"{habitId}-{reminderId}"`.
  - The message pool and its random pick are in `NotificationMessages`.
- **Records** (`HabitReminderModel`, `ActivityLogModel`, `HabitModel`). These
  are the reminder and activity-log initialisers, with their defaults, and the
  persisted habit record.
- **Habit list view model, as its unit tests fix it** (`HabitListEngine`).
  - A class with `habits` and `heatmapData` fields, and methods for add,
    delete, progress update and move.
  - Its invariant: unique UUID ids, sortOrder increasing, a fixed-length heatmap
    of scores in [0,1], and the last cell equal to today's score.
  - Pure specification functions: today's score, the found index and the
    move.
  - The tests' four scenarios are client methods whose assertions the
    verifier discharges.
- **Older store-backed view model** (`LegacyViewModel`,
  ViewModels/HabitListViewModel.swift).
  - Its fields and defaults.
  - Fetching sorted by sortOrder from a store whose fetch and save may throw.
  - Its own scheduler, which removes by habit id but registers under reminder
    ids.
  - `updateHabit`: schedule, then save, then refetch.
- **Heatmap shades** (`ColorPalette`). These are the opacity buckets of
  `heatmapColor` and the glow threshold of `glowColor`.

Modelling choices:
- UUIDs are 36-character strings, and a generated one is a parameter.
- `Date()` is a parameter.
- `randomElement()` is a nondeterministic choice (`:|`), so every property
  holds for whichever element is picked.
- Swift `Double` is modelled as Dafny `real`.

## Model

| member | source | states |
|---|---|---|
| NotificationMessages.StandardPoolShape | void./Shared/Constants/NotificationMessages.swift:6-17 | the pool holds exactly ten messages, each non-empty, and none of them is the fallback text |
| NotificationMessages.RandomElement | void./Shared/Constants/NotificationMessages.swift:20 | `randomElement()` returns nothing exactly when the sequence is empty, and otherwise one of its elements |
| NotificationMessages.RandomVibe | void./Shared/Constants/NotificationMessages.swift:19-21 | the message is always a member of the standard pool and never the fallback "Do the thing." |
| HabitReminderModel.NewReminder | void./Models/HabitReminder.swift:17-23 | the initialiser stores the given id (the generated one when none is passed), time, enabled flag, custom flag and custom text unchanged |
| HabitReminderModel.DefaultReminder | void./Models/HabitReminder.swift:17 | a reminder built from the defaults has a generated id, is enabled, is not custom and has no custom text |
| ActivityLogModel.NewActivityLog | void./Models/ActivityLog.swift:13-18 | the id is the one generated inside the initialiser; habitID and value are stored as given; the date is the given one, or the construction time by default |
| ActivityLogModel.AppendNewLog | void./Models/ActivityLog.swift:8-16 | adding a log with a freshly generated id to logs with unique ids keeps the ids unique, and the default date is the construction time |
| Basics.HourAndMinute | void./Managers/NotificationManager.swift:46 | the extracted components are exactly the hour and minute of the date |
| Basics.HourAndMinuteIgnoresDayAndSecond | void./Managers/NotificationManager.swift:46 | two times with the same hour and minute give the same trigger components, whatever their day and second |
| Basics.UuidPrefixIsExact | void./Managers/NotificationManager.swift:66-68 | for two UUID strings, one is a prefix of the other followed by anything exactly when they are equal |
| NotificationCenter.PendingCenter.constructor | void./Managers/NotificationManager.swift:65 | a new queue has no pending request |
| NotificationCenter.PendingCenter.PendingIdentifiers | void./Managers/NotificationManager.swift:65 | the reported identifiers are exactly the pending ones |
| NotificationCenter.PendingCenter.Add | void./Managers/NotificationManager.swift:53 | the request is pending under its identifier and replaces any earlier one with that identifier; nothing else changes |
| NotificationCenter.PendingCenter.RemovePendingRequests | void./Managers/NotificationManager.swift:72 | exactly the named identifiers stop being pending; names that are not pending are ignored |
| NotificationManager.RequestId | void./Managers/NotificationManager.swift:50 | no ensures; the identifier scheme `"{habitId}-{reminderId}"`, given meaning by RequestIdHasPrefix, CancelUndoesSchedule and ScheduleLeavesOtherHabits |
| NotificationManager.RequestIdHasPrefix | void./Managers/NotificationManager.swift:50 | the request identifier starts with the habit id and is one character longer than the two ids together |
| NotificationManager.UsesCustomMessage | void./Managers/NotificationManager.swift:37 | no ensures; the condition for a custom body (custom flag set, text present and non-empty), used by IsRequestFor and so by the contracts of MakeRequest, AddReminderRequests and ScheduleNotifications |
| NotificationManager.NotificationTitle | void./Managers/NotificationManager.swift:34 | no ensures; the title "{emoji} {title}", which IsRequestFor requires of every request MakeRequest, AddReminderRequests and ScheduleNotifications produce |
| NotificationManager.ReminderTrigger | void./Managers/NotificationManager.swift:46-47 | the trigger repeats and matches only the reminder's hour and minute |
| NotificationManager.IsRequestFor | void./Managers/NotificationManager.swift:34-47 | no ensures; the reference for one request's content (title, daily hour-and-minute trigger, custom body when UsesCustomMessage holds, else a pool message), which the ensures of MakeRequest, AddReminderRequests and ScheduleNotifications assert of every request they add |
| NotificationManager.EnabledReminders | void./Managers/NotificationManager.swift:28 | a reminder is kept exactly when it is in the list and enabled; the result is never longer; with every reminder enabled it is the whole list |
| NotificationManager.WithoutPrefix | void./Managers/NotificationManager.swift:66-69 | a request survives exactly when its identifier does not start with the prefix, and it keeps its content |
| NotificationManager.ScheduledIds | void./Managers/NotificationManager.swift:23-61 | no ensures; the reference set of identifiers after scheduling (other owners' identifiers plus one per enabled reminder), which ScheduleNotifications meets and ScheduleOverridesPrevious, RescheduleKeepsIds, NoEnabledReminderOnlyCancels, CancelUndoesSchedule and ScheduleLeavesOtherHabits characterise |
| NotificationManager.CancelNotifications | void./Managers/NotificationManager.swift:64-76 | afterwards the pending requests are exactly those whose identifier does not start with the habit's id, unchanged; with no match nothing is removed |
| NotificationManager.MakeRequest | void./Managers/NotificationManager.swift:33-47 | the request built for a reminder has the title "{emoji} {title}", the daily hour-and-minute trigger, and the custom text as body when it is set and non-empty, else a pool message |
| NotificationManager.AddReminderRequests | void./Managers/NotificationManager.swift:32-60 | one identifier `"{habitId}-{reminderId}"` is added per reminder; earlier requests keep their content; each added request has the title "{emoji} {title}", the daily hour-and-minute trigger, and the custom text as body when it is set and non-empty, else a pool message |
| NotificationManager.ScheduleNotifications | void./Managers/NotificationManager.swift:23-61 | the pending identifiers become those of other owners plus exactly one per enabled reminder; requests of other owners keep their content; every request of the habit belongs to one of its enabled reminders and has that reminder's title, body and trigger |
| NotificationManager.ScheduleOverridesPrevious | void./Managers/NotificationManager.swift:23-32 | scheduling a habit again, with any reminder list, gives the same identifiers as if the earlier scheduling had not happened: requests of removed or disabled reminders are gone |
| NotificationManager.RescheduleKeepsIds | void./Managers/NotificationManager.swift:25-50 | rescheduling an unchanged habit yields the same set of identifiers |
| NotificationManager.NoEnabledReminderOnlyCancels | void./Managers/NotificationManager.swift:28-29 | with no enabled reminder, scheduling leaves exactly what cancelling leaves |
| NotificationManager.CancelUndoesSchedule | void./Managers/NotificationManager.swift:50-68 | every identifier added for a habit starts with its id, so a later cancel leaves exactly the other owners' requests |
| NotificationManager.ScheduleLeavesOtherHabits | void./Managers/NotificationManager.swift:66-68 | for distinct UUID habit ids, scheduling one habit keeps every request of another and adds none that the other's prefix would catch |
| NotificationManager.DefaultReminderIsScheduled | void./Models/HabitReminder.swift:17-22 | a reminder with default flags is scheduled, and its body comes from the pool |
| HabitModel.IsCompleted | voidTests.UITests/HabitListViewModelTests.swift:88-98 | no ensures; the completion rule (a habit is done once its current value reaches its goal, overshooting included) on which CompletedCount, TodayScore, ScoreOfTwo and UpdateHabitProgress's completion ensures are stated |
| HabitListEngine.CompletedCount | voidTests.UITests/HabitListViewModelTests.swift:91 | the number of habits at or above their goal is at most the number of habits |
| HabitListEngine.CompletedCountExtremes | voidTests.UITests/HabitListViewModelTests.swift:94-99 | the count equals the number of habits exactly when all are done, and is zero exactly when none is |
| HabitListEngine.CompletedCountAppend | voidTests.UITests/HabitListViewModelTests.swift:91 | the count of two lists together is the sum of their counts |
| HabitListEngine.CompletedCountPointwise | voidTests.UITests/HabitListViewModelTests.swift:88-95 | lists that agree position by position on completion have the same count |
| HabitListEngine.TodayScore | voidTests.UITests/HabitListViewModelTests.swift:80-99 | the score lies in [0,1]; it is 0 for no habits; it is 1 exactly when there are habits and all are done; it is 0 exactly when none is done |
| HabitListEngine.ScoreOfTwo | voidTests.UITests/HabitListViewModelTests.swift:87-99 | for two habits the score is 1 when both are done, 1/2 when exactly one is, and 0 otherwise |
| HabitListEngine.FindIndex | voidTests.UITests/HabitListViewModelTests.swift:107-111 | the id lookup that deleting and moving a habit rely on: the result is the first position holding that id, and there is none exactly when no habit has the id |
| HabitListEngine.NextSortOrder | voidTests.UITests/HabitListViewModelTests.swift:104-108 | a new habit's sortOrder exceeds every present one, so appending keeps the list in sortOrder |
| HabitListEngine.RemoveAt | voidTests.UITests/HabitListViewModelTests.swift:69-72 | removal shortens the list by one and shifts the later habits down by one place |
| HabitListEngine.AppendKeepsOrder | voidTests.UITests/HabitListViewModelTests.swift:104-108 | appending a habit with a fresh UUID id and the next sortOrder keeps the ids unique UUIDs and the sortOrder increasing |
| HabitListEngine.RemoveAtKeepsOrder | voidTests.UITests/HabitListViewModelTests.swift:69 | removal keeps the ids unique and the sortOrder increasing |
| HabitListEngine.RemoveAtMembers | voidTests.UITests/HabitListViewModelTests.swift:69 | with unique ids, removing the habit at an index leaves exactly the habits with another id |
| HabitListEngine.Moved | voidTests.UITests/HabitListViewModelTests.swift:110-114 | no ensures; the reorder `moveHabit` performs (take out at the source index, insert at the target's original index), whose length, placement, order and permutation are MovedProperties, MovedAt and MovedKeepsCompletedCount |
| HabitListEngine.MovedProperties | voidTests.UITests/HabitListViewModelTests.swift:110-114 | a move keeps the length, puts the moved habit at the target position, leaves the others in their relative order, and is a permutation |
| HabitListEngine.MovedKeepsCompletedCount | voidTests.UITests/HabitListViewModelTests.swift:111 | reordering changes no completion count, so today's score is unchanged |
| HabitListEngine.MovedAt | voidTests.UITests/HabitListViewModelTests.swift:111 | each position of the moved list holds the habit of one position of the original |
| HabitListEngine.MovedIndexInjective | voidTests.UITests/HabitListViewModelTests.swift:111 | distinct positions of the moved list come from distinct positions of the original |
| HabitListEngine.MoveKeepsIds | voidTests.UITests/HabitListViewModelTests.swift:111-116 | after a move and renumbering the ids are still unique UUIDs and every sortOrder is its position, hence increasing |
| HabitListEngine.RenumberedMoveKeepsInvariants | voidTests.UITests/HabitListViewModelTests.swift:115-116 | after a move, with sortOrder rewritten to the position, the ids are unique UUIDs, the sortOrder is the position, hence increasing, and today's score is unchanged |
| HabitListEngine.SameIdsAndOrders | voidTests.UITests/HabitListViewModelTests.swift:88-95 | a list with the same ids and sortOrders position by position keeps the list invariants |
| HabitListEngine.HabitListViewModel.constructor | voidTests.UITests/HabitListViewModelTests.swift:20-33 | a fresh view model on an empty store has no habit and scores every day 0 |
| HabitListEngine.HabitListViewModel.RefreshToday | voidTests.UITests/HabitListViewModelTests.swift:92 | only today's cell changes, to today's score; every cell stays in [0,1] |
| HabitListEngine.HabitListViewModel.AddHabit | voidTests.UITests/HabitListViewModelTests.swift:36-50 | the new habit, with the given fields, no progress and no reminders, is appended after all others in sortOrder; the invariant holds, today's cell is recomputed and past cells are kept |
| HabitListEngine.HabitListViewModel.DeleteHabit | voidTests.UITests/HabitListViewModelTests.swift:55-72 | after the deletion the habits are exactly the former ones with another id, in the same order; an unknown id changes nothing |
| HabitListEngine.HabitListViewModel.UpdateHabitProgress | voidTests.UITests/HabitListViewModelTests.swift:88-99 | only the habit with that id changes, and only its current value; it then counts as done exactly when the value reaches its goal; today's cell follows |
| HabitListEngine.HabitListViewModel.MoveHabit | voidTests.UITests/HabitListViewModelTests.swift:107-116 | the moved habit takes the target's former position and every sortOrder becomes its position; with either id unknown nothing changes |
| HabitListEngine.HabitListViewModel.RenumberSortOrders | voidTests.UITests/HabitListViewModelTests.swift:115-116 | every habit's sortOrder becomes its position in the list; nothing else about the habits changes |
| HabitListEngine.TestAddHabit | voidTests.UITests/HabitListViewModelTests.swift:31-51 | no ensures; after adding one habit to a new view model, the asserts that the list holds exactly one habit, titled "Touch Grass", follow from the contracts of the constructor and AddHabit |
| HabitListEngine.TestDeleteHabit | voidTests.UITests/HabitListViewModelTests.swift:53-73 | no ensures; after adding one habit and deleting it by its id, the assert that the list is empty follows from the contracts of AddHabit and DeleteHabit |
| HabitListEngine.TestScoreCalculation | voidTests.UITests/HabitListViewModelTests.swift:77-100 | no ensures; the asserts that today's heatmap cell is 0.5 with one of two habits done and 1.0 with both done follow from UpdateHabitProgress and ScoreOfTwo |
| HabitListEngine.TestMoveHabitOrder | voidTests.UITests/HabitListViewModelTests.swift:102-117 | no ensures; the asserts that after moving the first habit onto the second the list starts with "Second" and the sortOrders are 0 and 1 follow from the contracts of AddHabit and MoveHabit |
| LegacyViewModel.InsertBySortOrder | ViewModels/HabitListViewModel.swift:26 | inserting keeps every habit and adds exactly the new one |
| LegacyViewModel.InsertKeepsSorted | ViewModels/HabitListViewModel.swift:26 | inserting into a list sorted by sortOrder keeps it sorted |
| LegacyViewModel.SortBySortOrder | ViewModels/HabitListViewModel.swift:26 | the result is sorted ascending by sortOrder and is a permutation of the input |
| LegacyViewModel.SortKeepsSortedList | ViewModels/HabitListViewModel.swift:26 | sorting an already sorted list returns it unchanged |
| LegacyViewModel.ModelContext.constructor | ViewModels/HabitListViewModel.swift:7 | a store holds the given records, all of them saved, and throws on fetch or save as given |
| LegacyViewModel.ModelContext.Fetch | ViewModels/HabitListViewModel.swift:26-27 | the fetch fails exactly when the store throws; otherwise it returns the records sorted by sortOrder |
| LegacyViewModel.ModelContext.Save | ViewModels/HabitListViewModel.swift:52 | a save that does not throw commits the records; one that throws commits nothing |
| LegacyViewModel.FetchedHabits | ViewModels/HabitListViewModel.swift:27 | the fetched list is sorted by sortOrder; it is a permutation of the records, or empty when the fetch throws |
| LegacyViewModel.LegacyBody | ViewModels/HabitListViewModel.swift:39 | the body is the reminder's message, or "Zeit für {emoji}!" when the message is empty |
| LegacyViewModel.LegacyRequest | ViewModels/HabitListViewModel.swift:37-45 | no ensures; one reminder's request, with the habit's bare title, LegacyBody as body and a daily hour-and-minute trigger, as AddLegacyRequestsAt states for each reminder id |
| LegacyViewModel.AddLegacyRequests | ViewModels/HabitListViewModel.swift:36-47 | the pending identifiers gain exactly the reminders' ids |
| LegacyViewModel.HabitIdStrings | ViewModels/HabitListViewModel.swift:32 | the removal names exactly the listed habits' id strings |
| LegacyViewModel.LegacySchedule | ViewModels/HabitListViewModel.swift:30-48 | no ensures; the pending map after the legacy scheduler, which HabitListViewModel.ScheduleNotifications meets exactly and LegacyScheduleIds and StaleReminderSurvivesReschedule characterise |
| LegacyViewModel.LegacyScheduleIds | ViewModels/HabitListViewModel.swift:32-46 | afterwards the identifiers are the old ones minus the listed habits' ids, plus every reminder id, with no enabled filter, when notifications are on; other identifiers, reminder ids included, are not removed; with notifications off nothing is added |
| LegacyViewModel.AddLegacyRequestsKeepsOthers | ViewModels/HabitListViewModel.swift:36-46 | a pending request whose identifier no added reminder uses keeps its content |
| LegacyViewModel.AddLegacyRequestsAt | ViewModels/HabitListViewModel.swift:37-45 | with unique reminder ids, each reminder's id holds a request with the habit's bare title, that reminder's body and its daily trigger |
| LegacyViewModel.DefaultRoutineStartTimes | ViewModels/HabitListViewModel.swift:13-17 | there are start times for morning, day and evening, on today at whole hours, at hours 6, 11 and 18, which strictly increase |
| LegacyViewModel.HabitListViewModel.constructor | ViewModels/HabitListViewModel.swift:7-17 | the defaults: no context, no habit, morning selected, no routine in settings, and the default routine start times |
| LegacyViewModel.HabitListViewModel.FetchHabits | ViewModels/HabitListViewModel.swift:24-28 | without a context the habits are unchanged; otherwise they become the fetched list, or empty when the fetch throws |
| LegacyViewModel.HabitListViewModel.SetContext | ViewModels/HabitListViewModel.swift:19-22 | the context is stored, and the habits become what it fetches |
| LegacyViewModel.HabitListViewModel.ScheduleNotifications | ViewModels/HabitListViewModel.swift:30-48 | the pending map becomes the old one minus the listed habits' ids; when notifications are on, each reminder's request is then added in order under the reminder's id |
| LegacyViewModel.HabitListViewModel.UpdateHabit | ViewModels/HabitListViewModel.swift:50-54 | it schedules against the habits listed before the call, then saves, committing the store's unchanged records unless the save throws, then refetches them; the store's records and failure flags stay as they were |
| LegacyViewModel.StaleReminderSurvivesReschedule | ViewModels/HabitListViewModel.swift:32-45 | a habit rescheduled with a new reminder, or with notifications off, still has its old reminder's request pending |
| ColorPalette.HeatmapOpacity | void./Shared/Styles/ColorPalette.swift:39-49 | no ensures; the opacity switch, whose values, buckets and monotonicity are HeatmapOpacityLevels, HeatmapOpacityBuckets, HeatmapOpacityMonotone and NegativeScoreIsOpaque |
| ColorPalette.HeatmapColor | void./Shared/Styles/ColorPalette.swift:38-51 | the tile colour is the primary colour at the score's bucket opacity |
| ColorPalette.GlowColor | void./Shared/Styles/ColorPalette.swift:54-60 | the glow is present exactly when the score exceeds 0.4, and is then the primary colour at opacity 0.5 |
| ColorPalette.HeatmapOpacityLevels | void./Shared/Styles/ColorPalette.swift:39-49 | the opacity is always one of 0.1, 0.3, 0.6 and 1.0 |
| ColorPalette.HeatmapOpacityBuckets | void./Shared/Styles/ColorPalette.swift:40-48 | [0,0.2) gives 0.1, [0.2,0.4) gives 0.3, [0.4,0.7) gives 0.6, and every other score gives 1.0, each in both directions |
| ColorPalette.HeatmapOpacityMonotone | void./Shared/Styles/ColorPalette.swift:41-48 | a higher non-negative score is never drawn lighter |
| ColorPalette.NegativeScoreIsOpaque | void./Shared/Styles/ColorPalette.swift:47-48 | a negative score falls through to the default case, opacity 1.0 |
| ColorPalette.GlowImpliesStrongTile | void./Shared/Styles/ColorPalette.swift:43-56 | wherever there is a glow, the tile's opacity is at least 0.6 |
| ColorPalette.ScoreRangeShades | void./Shared/Styles/ColorPalette.swift:38-60 | every score in [0,1] gets one of the four shades, and glows exactly above 0.4 |

## Left out

- The SwiftUI views, the trait-dependent background, primary and secondary colours, and the typography are left out: they are layout and animation.
- The mock view model void./ViewModels/HabitListViewModel.swift is left out: it fills 200 random values and constant habits.
- SwiftData's persistence, the app bootstrap and the in-memory container of the tests are left out. A store is a class holding its records, with fetch and save failures as flags.
- Notification authorization and print logging are left out: they are I/O with no effect on the pending set.
- The request's sound, always `.default`, is not part of `Request`.
- NotificationCenter.PendingCenter.Add: every `add` is assumed to succeed. A request the system rejects would be missing from the pending set, and that case, with the add callback's error, is not modelled.
- NotificationManager.CancelNotifications: the source reads the pending requests asynchronously. Here the removal completes before the adds, so the interleaving of callbacks is not modelled.
- NotificationMessages.RandomVibe: the uniform distribution is not modelled, only which values can come out.
- Floating-point rounding of `Double` is not modelled (scores and opacities are exact reals), so the boundary cases of the buckets hold for exact values.
- HabitListEngine: the tested view model's implementation is not part of this model, only what its tests assert. Beyond those assertions the model fixes three choices. A new habit's sortOrder is the last one plus one. A move inserts at the target's original index. The heatmap holds a constant number of cells, `HeatmapWindow` = 100. No source file fixes the length of the tested view model's heatmap; the mock view model in void./ViewModels/HabitListViewModel.swift:20-21 fills 200 cells. The tests read only the last cell, so 100 is a free choice and no contract depends on it. Recurrence, routine filtering, the daily reset and activity logging are left out, and every habit counts as active today.
- LegacyViewModel.SortBySortOrder: the sort descriptor does not define the order among equal sortOrders. The model keeps store order for them, and `SortKeepsSortedList` relies on that choice.
- HabitListEngine.HabitListViewModel.AddHabit: reminders, notification scheduling and the recurrence/days arguments are not modelled. The new sortOrder is one more than the last habit's.
- HabitListEngine.HabitListViewModel.RefreshToday: only today's cell is recomputed. Past cells come from logs, which are not modelled, and are kept as they were.
- HabitListEngine.HabitListViewModel.DeleteHabit: cancelling the deleted habit's notifications is not part of this method. NotificationManager.CancelNotifications models it.
- ActivityLogModel.AppendNewLog: the store-level enforcement of `@Attribute(.unique)` (upsert on a clash) is not modelled. Uniqueness is stated as a requirement on a generated id that is not yet present.
- UUID generation is a parameter: fresh ids are passed in, and their freshness is a precondition where it matters.
- LegacyViewModel.HabitListViewModel.UpdateHabit: changes the caller made to the habit object in place are not modelled; the habit value is passed in.

## Findings

| source | as written | input that shows it | evidently intended | confidence | as-written member | corrected member |
|---|---|---|---|---|---|---|
| ViewModels/HabitListViewModel.swift:32 | the removal names the listed habits' id strings, but line 45 registers each request under its reminder's id, so no request scheduled there is ever removed | habit "H" with reminder "R1" is scheduled, then scheduled again with reminder "R2" instead, or with notifications off: "R1" is still pending | rescheduling a habit replaces all of its earlier requests; the later scheduler does this with `"{habitId}-{reminderId}"` identifiers and prefix cancelling | not executed | LegacyViewModel.StaleReminderSurvivesReschedule | NotificationManager.ScheduleOverridesPrevious |
