/** The append-only record of one progress write (void./Models/ActivityLog.swift). */
module ActivityLogModel {
  import opened Basics

  /** `habitID` is the habit's id by value: the record holds no reference to
      the habit, so deleting a habit leaves its logs as they are. */
  datatype ActivityLog = ActivityLog(id: string, habitID: string, date: Date, value: real)

  /** The initialiser. The caller supplies no id: `generatedId` stands for the
      `UUID()` evaluated inside `init`, and `now` for `Date()`, the default of `date`. */
  function NewActivityLog(generatedId: string, now: Date, habitID: string, value: real,
                          date: Date := now): (log: ActivityLog)
    ensures log.id == generatedId
    ensures log.habitID == habitID && log.value == value && log.date == date
  {
    ActivityLog(generatedId, habitID, date, value)
  }

  /** The store declares `id` unique across all logs. */
  predicate UniqueLogIds(logs: seq<ActivityLog>)
  {
    forall i, j :: 0 <= i < j < |logs| ==> logs[i].id != logs[j].id
  }

  /** Appending a log whose generated id is new keeps the ids unique, and the
      appended record holds exactly the habit id and value given. */
  lemma AppendNewLog(logs: seq<ActivityLog>, generatedId: string, now: Date,
                     habitID: string, value: real)
    requires UniqueLogIds(logs)
    requires forall l :: l in logs ==> l.id != generatedId
    ensures UniqueLogIds(logs + [NewActivityLog(generatedId, now, habitID, value)])
    ensures (logs + [NewActivityLog(generatedId, now, habitID, value)])[|logs|].date == now
  {
    var all := logs + [NewActivityLog(generatedId, now, habitID, value)];
    forall i, j | 0 <= i < j < |all| ensures all[i].id != all[j].id {
      if j == |logs| {
        assert all[i] in logs;
      }
    }
  }
}
