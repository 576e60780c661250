/** The reminder scheduler (void./Managers/NotificationManager.swift): keeps the
    pending requests of one habit equal to its enabled reminders. Requests are
    named "{habitId}-{reminderId}", so every request of a habit is found by the
    habit id as a prefix. The process-wide `shared` instance becomes the
    `center` parameter. */
module NotificationManager {
  import opened Basics
  import opened NotificationMessages
  import opened HabitReminderModel
  import opened HabitModel
  import opened NotificationCenter

  /** The identifier of the request for reminder `r` of habit `h`. */
  function RequestId(h: Habit, r: HabitReminder): (id: string)
  {
    h.id + "-" + r.id
  }

  lemma RequestIdHasPrefix(h: Habit, r: HabitReminder)
    ensures h.id <= RequestId(h, r)
    ensures |RequestId(h, r)| == |h.id| + 1 + |r.id|
  {
    assert RequestId(h, r)[..|h.id|] == h.id;
  }

  /** The source's condition for using the reminder's own text as the body. */
  predicate UsesCustomMessage(r: HabitReminder)
  {
    r.isCustomMessage && r.customMessage.Some? && r.customMessage.value != ""
  }

  /** The title of every request of a habit: its emoji, a space, its title. */
  function NotificationTitle(h: Habit): (t: string)
  {
    h.emoji + " " + h.title
  }

  /** A daily repeating trigger on the reminder's hour and minute only. */
  function ReminderTrigger(r: HabitReminder): (t: Trigger)
    ensures t.repeats
    ensures t.dateMatching == TimeComponents(r.time.hour, r.time.minute)
  {
    CalendarTrigger(HourAndMinute(r.time), true)
  }

  /** What a request scheduled for reminder `r` of habit `h` looks like: the
      custom text as body when the reminder asks for it, else a standard message. */
  predicate IsRequestFor(q: Request, h: Habit, r: HabitReminder)
  {
    && q.title == NotificationTitle(h)
    && q.trigger == ReminderTrigger(r)
    && (if UsesCustomMessage(r) then q.body == r.customMessage.value else q.body in StandardPool)
  }

  /** `habit.reminders.filter { $0.isEnabled }`, order kept. */
  function EnabledReminders(rs: seq<HabitReminder>): (e: seq<HabitReminder>)
    ensures forall r :: r in e <==> r in rs && r.isEnabled
    ensures |e| <= |rs|
    ensures (forall r :: r in rs ==> r.isEnabled) ==> e == rs
  {
    if rs == [] then []
    else (if rs[0].isEnabled then [rs[0]] else []) + EnabledReminders(rs[1..])
  }

  /** The pending requests whose identifier does not start with `prefix`. */
  function WithoutPrefix(m: map<string, Request>, prefix: string): (r: map<string, Request>)
    ensures forall k :: k in r <==> k in m && !(prefix <= k)
    ensures forall k :: k in r ==> r[k] == m[k]
  {
    map k | k in m && !(prefix <= k) :: m[k]
  }

  /** The identifiers pending after scheduling `h` on a center whose pending
      identifiers were `ids`: the ones of other owners, plus one per enabled
      reminder of `h`. */
  function ScheduledIds(ids: set<string>, h: Habit): (r: set<string>)
  {
    (set k | k in ids && !(h.id <= k)) + (set r | r in EnabledReminders(h.reminders) :: RequestId(h, r))
  }

  /** `cancelNotifications(for:)`. The source reads the pending requests
      asynchronously; here the removal completes before the call returns. */
  method CancelNotifications(center: PendingCenter, habit: Habit)
    modifies center
    ensures center.pending == WithoutPrefix(old(center.pending), habit.id)
  {
    var requests := center.PendingIdentifiers();
    var idsToRemove := set k | k in requests && habit.id <= k;
    // The map equality below needs each prefixed identifier's membership as a fact.
    forall k | k in requests && habit.id <= k ensures k in idsToRemove {
    }
    if idsToRemove != {} {
      center.RemovePendingRequests(idsToRemove);
    }
    assert center.pending.Keys == WithoutPrefix(old(center.pending), habit.id).Keys;
  }

  /** The content and trigger built for one reminder: the custom text when it
      is set and non-empty, else a random standard message. */
  method MakeRequest(habit: Habit, reminder: HabitReminder) returns (request: Request)
    ensures IsRequestFor(request, habit, reminder)
  {
    var body: string;
    if reminder.isCustomMessage && reminder.customMessage.Some? && reminder.customMessage.value != "" {
      body := reminder.customMessage.value;
    } else {
      body := RandomVibe();
    }
    var trigger := CalendarTrigger(HourAndMinute(reminder.time), true);
    request := Request(habit.emoji + " " + habit.title, body, trigger);
  }

  /** The loop of `scheduleNotifications(for:)`: one request per reminder in
      `active`, on a center that holds no request of the habit yet. */
  method AddReminderRequests(center: PendingCenter, habit: Habit, active: seq<HabitReminder>)
    requires forall k :: k in center.pending ==> !(habit.id <= k)
    modifies center
    ensures center.pending.Keys == old(center.pending).Keys + (set r | r in active :: RequestId(habit, r))
    ensures forall k :: k in old(center.pending) ==> center.pending[k] == old(center.pending)[k]
    ensures forall k :: k in center.pending && k !in old(center.pending) ==>
              exists r :: r in active && k == RequestId(habit, r) && IsRequestFor(center.pending[k], habit, r)
  {
    ghost var base := center.pending;
    ghost var owner: map<string, HabitReminder> := map[];
    for i := 0 to |active|
      invariant center.pending.Keys == base.Keys + (set r | r in active[..i] :: RequestId(habit, r))
      invariant forall k :: k in base ==> center.pending[k] == base[k]
      invariant forall k :: k in center.pending && k !in base ==>
                  k in owner && owner[k] in active[..i] && k == RequestId(habit, owner[k]) &&
                  IsRequestFor(center.pending[k], habit, owner[k])
    {
      var reminder := active[i];
      var request := MakeRequest(habit, reminder);
      var requestId := habit.id + "-" + reminder.id;
      RequestIdHasPrefix(habit, reminder);
      RequestIdsStep(habit, active, i);
      center.Add(requestId, request);
      owner := owner[requestId := reminder];
    }
    assert active[..|active|] == active;
    forall k | k in center.pending && k !in base
      ensures exists r :: r in active && k == RequestId(habit, r) && IsRequestFor(center.pending[k], habit, r)
    {
      assert owner[k] in active;
    }
  }

  /** The identifiers of the first `i + 1` reminders: those of the first `i`
      and the identifier of reminder `i`. */
  lemma RequestIdsStep(habit: Habit, active: seq<HabitReminder>, i: nat)
    requires i < |active|
    ensures (set r | r in active[..i + 1] :: RequestId(habit, r))
         == (set r | r in active[..i] :: RequestId(habit, r)) + {RequestId(habit, active[i])}
  {
    assert active[..i + 1] == active[..i] + [active[i]];
  }

  /** `scheduleNotifications(for:)`: cancel every request of the habit, then add
      one request per enabled reminder. Requests of other owners keep their
      content; each request of the habit belongs to one of its enabled reminders. */
  method ScheduleNotifications(center: PendingCenter, habit: Habit)
    modifies center
    ensures center.pending.Keys == ScheduledIds(old(center.pending).Keys, habit)
    ensures forall k :: k in old(center.pending) && !(habit.id <= k) ==>
              center.pending[k] == old(center.pending)[k]
    ensures forall k :: k in center.pending && habit.id <= k ==>
              exists r :: r in habit.reminders && r.isEnabled && k == RequestId(habit, r) &&
                          IsRequestFor(center.pending[k], habit, r)
  {
    CancelNotifications(center, habit);
    var activeReminders := EnabledReminders(habit.reminders);
    if activeReminders == [] {
      return;
    }
    AddReminderRequests(center, habit, activeReminders);
  }

  /** Scheduling a habit replaces whatever an earlier scheduling of the same
      habit left: identifiers of reminders since removed or disabled are gone. */
  lemma ScheduleOverridesPrevious(ids: set<string>, h: Habit, updated: Habit)
    requires updated.id == h.id
    ensures ScheduledIds(ScheduledIds(ids, h), updated) == ScheduledIds(ids, updated)
  {
    var once := ScheduledIds(ids, h);
    forall r | r in EnabledReminders(h.reminders) ensures h.id <= RequestId(h, r) {
      RequestIdHasPrefix(h, r);
    }
    assert (set k | k in once && !(h.id <= k)) == (set k | k in ids && !(h.id <= k));
  }

  /** Scheduling an unchanged habit again gives the same identifiers: the
      scheme is idempotent, only the randomly picked bodies may differ. */
  lemma RescheduleKeepsIds(ids: set<string>, h: Habit)
    ensures ScheduledIds(ScheduledIds(ids, h), h) == ScheduledIds(ids, h)
  {
    ScheduleOverridesPrevious(ids, h, h);
  }

  /** With no enabled reminder nothing is added: scheduling only cancels. */
  lemma NoEnabledReminderOnlyCancels(m: map<string, Request>, h: Habit)
    requires forall r :: r in h.reminders ==> !r.isEnabled
    ensures ScheduledIds(m.Keys, h) == WithoutPrefix(m, h.id).Keys
  {
    var e := EnabledReminders(h.reminders);
    assert (set r | r in e :: RequestId(h, r)) == {};
  }

  /** Every identifier scheduled for `h` is caught by `h`'s prefix, so cancelling
      after scheduling leaves exactly the requests of other owners. */
  lemma CancelUndoesSchedule(ids: set<string>, h: Habit)
    ensures (set k | k in ScheduledIds(ids, h) && !(h.id <= k)) == (set k | k in ids && !(h.id <= k))
    ensures forall r :: r in h.reminders && r.isEnabled ==> h.id <= RequestId(h, r)
  {
    forall r | r in h.reminders ensures h.id <= RequestId(h, r) {
      RequestIdHasPrefix(h, r);
    }
  }

  /** Distinct habits with UUID ids do not disturb each other: scheduling `h`
      keeps every pending identifier of `other` and adds none that `other`'s
      prefix would catch. */
  lemma ScheduleLeavesOtherHabits(ids: set<string>, h: Habit, other: Habit)
    requires IsUuid(h.id) && IsUuid(other.id) && h.id != other.id
    ensures forall k :: k in ids && other.id <= k ==> k in ScheduledIds(ids, h)
    ensures forall r :: r in h.reminders ==> !(other.id <= RequestId(h, r))
  {
    forall k | k in ids && other.id <= k ensures !(h.id <= k) {
      if h.id <= k {
        UuidPrefixesAgree(h.id, other.id, k);
      }
    }
    forall r | r in h.reminders ensures !(other.id <= RequestId(h, r)) {
      RequestIdHasPrefix(h, r);
      if other.id <= RequestId(h, r) {
        UuidPrefixesAgree(h.id, other.id, RequestId(h, r));
      }
    }
  }

  /** A reminder made with the initialiser's defaults is scheduled, and its
      body is taken from the standard pool. */
  lemma DefaultReminderIsScheduled(ids: set<string>, h: Habit, generatedId: string, time: Date)
    requires NewReminder(generatedId, time) in h.reminders
    ensures RequestId(h, NewReminder(generatedId, time)) in ScheduledIds(ids, h)
    ensures !UsesCustomMessage(NewReminder(generatedId, time))
  {
    assert NewReminder(generatedId, time) in EnabledReminders(h.reminders);
  }
}
