/** The habit record as the scheduler and the habit-list view model use it:
    only the fields those parts read or write. Every habit is a daily one. */
module HabitModel {
  import opened Basics
  import opened HabitReminderModel

  /** `checkmark` toggles towards a goal of 1; `value` accumulates towards its goal. */
  datatype HabitType = Checkmark | Value

  /** The time-of-day bucket a habit belongs to. */
  datatype RoutineTime = Morning | Day | Evening

  datatype Habit = Habit(
    id: string,
    title: string,
    emoji: string,
    kind: HabitType,
    goalValue: real,
    currentValue: real,
    unit: string,
    category: string,
    routineTime: RoutineTime,
    sortOrder: int,
    reminders: seq<HabitReminder>)

  /** A habit counts as done today once its value reaches the goal;
      overshooting still counts. */
  predicate IsCompleted(h: Habit)
  {
    h.currentValue >= h.goalValue
  }
}
