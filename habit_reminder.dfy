/** A single repeating time-of-day reminder of a habit
    (void./Models/HabitReminder.swift). */
module HabitReminderModel {
  import opened Basics

  datatype HabitReminder = HabitReminder(
    id: string,
    time: Date,
    isEnabled: bool,
    isCustomMessage: bool,
    customMessage: Option<string>)

  /** The initialiser. `generatedId` stands for the `UUID()` that Swift
      evaluates when no `id` is passed; every other argument has the source's
      default: enabled, no custom message. */
  function NewReminder(
    generatedId: string,
    time: Date,
    id: string := generatedId,
    isEnabled: bool := true,
    isCustomMessage: bool := false,
    customMessage: Option<string> := None): (r: HabitReminder)
    ensures r.id == id && r.time == time
    ensures r.isEnabled == isEnabled && r.isCustomMessage == isCustomMessage
    ensures r.customMessage == customMessage
  {
    HabitReminder(id, time, isEnabled, isCustomMessage, customMessage)
  }

  /** A reminder built with only a time is enabled, carries the freshly
      generated id and asks for no custom message. */
  lemma DefaultReminder(generatedId: string, time: Date)
    ensures NewReminder(generatedId, time).id == generatedId
    ensures NewReminder(generatedId, time).isEnabled
    ensures !NewReminder(generatedId, time).isCustomMessage
    ensures NewReminder(generatedId, time).customMessage == None
  {
  }
}
