/** An earlier revision of the habit-list view model
    (ViewModels/HabitListViewModel.swift). Its records predate the scheduler's:
    a reminder has one `message` text and no enabled flag, and a habit has a
    single `notificationEnabled` switch. Its scheduling removes requests named
    by habit ids but registers them under reminder ids. */
module LegacyViewModel {
  import opened Basics
  import opened HabitModel
  import opened NotificationCenter

  datatype LegacyReminder = LegacyReminder(id: string, time: Date, message: string)

  datatype LegacyHabit = LegacyHabit(
    id: string,
    title: string,
    emoji: string,
    sortOrder: int,
    notificationEnabled: bool,
    reminders: seq<LegacyReminder>)

  // ---- Fetching: `FetchDescriptor(sortBy: [SortDescriptor(\.sortOrder)])` ----

  predicate SortedBySortOrder(s: seq<LegacyHabit>)
  {
    forall i, j :: 0 <= i < j < |s| ==> s[i].sortOrder <= s[j].sortOrder
  }

  /** Insert `h` in front of the first habit with a sortOrder not below its own. */
  function InsertBySortOrder(h: LegacyHabit, sorted: seq<LegacyHabit>): (r: seq<LegacyHabit>)
    ensures multiset(r) == multiset(sorted) + multiset{h}
    ensures forall x :: x in r ==> x == h || x in sorted
  {
    if sorted == [] then [h]
    else if h.sortOrder <= sorted[0].sortOrder then [h] + sorted
    else
      assert sorted == [sorted[0]] + sorted[1..];
      [sorted[0]] + InsertBySortOrder(h, sorted[1..])
  }

  /** A habit in front of a sorted list whose sortOrders are all at least its own. */
  lemma ConsSorted(a: LegacyHabit, t: seq<LegacyHabit>)
    requires SortedBySortOrder(t)
    requires forall x :: x in t ==> a.sortOrder <= x.sortOrder
    ensures SortedBySortOrder([a] + t)
  {
    var r := [a] + t;
    forall i, j | 0 <= i < j < |r| ensures r[i].sortOrder <= r[j].sortOrder {
      assert r[j] == t[j - 1];
      if i > 0 {
        assert r[i] == t[i - 1];
      }
    }
  }

  /** Every element of a sorted list has at least the first one's sortOrder. */
  lemma SortedHeadIsLeast(s: seq<LegacyHabit>)
    requires s != [] && SortedBySortOrder(s)
    ensures forall x :: x in s[1..] ==> s[0].sortOrder <= x.sortOrder
  {
    forall x | x in s[1..] ensures s[0].sortOrder <= x.sortOrder {
      var k :| 0 <= k < |s[1..]| && s[1..][k] == x;
      assert x == s[k + 1];
    }
  }

  /** Inserting into a sorted list keeps it sorted. */
  lemma {:induction false} InsertKeepsSorted(h: LegacyHabit, sorted: seq<LegacyHabit>)
    requires SortedBySortOrder(sorted)
    ensures SortedBySortOrder(InsertBySortOrder(h, sorted))
  {
    if sorted == [] {
    } else if h.sortOrder <= sorted[0].sortOrder {
      SortedHeadIsLeast(sorted);
      assert sorted == [sorted[0]] + sorted[1..];
      ConsSorted(h, sorted);
    } else {
      var tail := sorted[1..];
      assert SortedBySortOrder(tail);
      InsertKeepsSorted(h, tail);
      SortedHeadIsLeast(sorted);
      ConsSorted(sorted[0], InsertBySortOrder(h, tail));
    }
  }

  /** The fetched order: ascending sortOrder. The sort descriptor leaves the
      order among equal sortOrders open; this model keeps them in store order,
      a choice `SortKeepsSortedList` depends on. The result is sorted and holds
      exactly the stored habits. */
  function SortBySortOrder(hs: seq<LegacyHabit>): (r: seq<LegacyHabit>)
    ensures SortedBySortOrder(r)
    ensures multiset(r) == multiset(hs)
  {
    if hs == [] then []
    else
      assert hs == [hs[0]] + hs[1..];
      InsertKeepsSorted(hs[0], SortBySortOrder(hs[1..]));
      InsertBySortOrder(hs[0], SortBySortOrder(hs[1..]))
  }

  /** Sorting a list that is already in order gives it back unchanged. */
  lemma {:induction false} SortKeepsSortedList(hs: seq<LegacyHabit>)
    requires SortedBySortOrder(hs)
    ensures SortBySortOrder(hs) == hs
  {
    if hs != [] {
      assert SortedBySortOrder(hs[1..]);
      SortKeepsSortedList(hs[1..]);
      if hs[1..] != [] {
        assert hs[0].sortOrder <= hs[1..][0].sortOrder;
      }
    }
  }

  /** The store behind the view model. `records` is what the context holds,
      unsaved changes included; `persisted` is what the last successful save
      wrote. Whether the next fetch or save throws is an abstract property of
      the store. */
  class ModelContext {
    var records: seq<LegacyHabit>
    var persisted: seq<LegacyHabit>
    var fetchFails: bool
    var saveFails: bool

    constructor (records: seq<LegacyHabit>, fetchFails: bool, saveFails: bool)
      ensures this.records == records && this.persisted == records
      ensures this.fetchFails == fetchFails && this.saveFails == saveFails
    {
      this.records := records;
      this.persisted := records;
      this.fetchFails := fetchFails;
      this.saveFails := saveFails;
    }

    /** `fetch(descriptor)`: the records in sortOrder, or nothing when it throws. */
    method Fetch() returns (r: Option<seq<LegacyHabit>>)
      ensures r.None? <==> fetchFails
      ensures r.Some? ==> r.value == SortBySortOrder(records)
    {
      r := if fetchFails then None else Some(SortBySortOrder(records));
    }

    /** `save()`: commits the records, unless it throws. */
    method Save()
      modifies this`persisted
      ensures persisted == if saveFails then old(persisted) else records
    {
      if !saveFails {
        persisted := records;
      }
    }
  }

  /** What `(try? context.fetch(descriptor)) ?? []` yields. */
  function FetchedHabits(context: ModelContext): (hs: seq<LegacyHabit>)
    reads context
    ensures SortedBySortOrder(hs)
    ensures !context.fetchFails ==> multiset(hs) == multiset(context.records)
    ensures context.fetchFails ==> hs == []
  {
    if context.fetchFails then [] else SortBySortOrder(context.records)
  }

  // ---- Scheduling ----

  /** The body: the reminder's message, or "Zeit für {emoji}!" when it is empty. */
  function LegacyBody(h: LegacyHabit, r: LegacyReminder): (body: string)
    ensures r.message != "" ==> body == r.message
    ensures r.message == "" ==> body == "Zeit für " + h.emoji + "!"
  {
    if r.message == "" then "Zeit für " + h.emoji + "!" else r.message
  }

  /** The request for one reminder: titled with the habit's bare title and
      repeating daily at the reminder's hour and minute. */
  function LegacyRequest(h: LegacyHabit, r: LegacyReminder): (q: Request)
  {
    Request(h.title, LegacyBody(h, r), CalendarTrigger(HourAndMinute(r.time), true))
  }

  /** The pending map after adding one request per reminder, in order, keyed
      by reminder id; a later reminder with the same id replaces an earlier one. */
  function AddLegacyRequests(m: map<string, Request>, h: LegacyHabit, rs: seq<LegacyReminder>): (r: map<string, Request>)
    ensures r.Keys == m.Keys + (set x | x in rs :: x.id)
  {
    if rs == [] then m
    else AddLegacyRequests(m, h, rs[..|rs| - 1])[rs[|rs| - 1].id := LegacyRequest(h, rs[|rs| - 1])]
  }

  /** The id strings of the listed habits, the identifiers the removal names. */
  function HabitIdStrings(hs: seq<LegacyHabit>): (ids: set<string>)
    ensures forall k :: k in ids <==> exists h :: h in hs && h.id == k
  {
    set h | h in hs :: h.id
  }

  /** The pending map after `scheduleNotifications(for: h)` with `listed` as
      the view model's habits. */
  function LegacySchedule(m: map<string, Request>, listed: seq<LegacyHabit>, h: LegacyHabit): map<string, Request>
  {
    var cleared := m - HabitIdStrings(listed);
    if h.notificationEnabled then AddLegacyRequests(cleared, h, h.reminders) else cleared
  }

  /** The identifiers pending afterwards: exactly those equal to a listed
      habit's id are gone; requests keyed by anything else, reminder ids
      included, stay. With notifications enabled every reminder id is added,
      with no enabled filter; otherwise nothing is added. */
  lemma LegacyScheduleIds(m: map<string, Request>, listed: seq<LegacyHabit>, h: LegacyHabit)
    ensures LegacySchedule(m, listed, h).Keys ==
      (m.Keys - HabitIdStrings(listed)) + (if h.notificationEnabled then set r | r in h.reminders :: r.id else {})
    ensures forall k :: k in m && k !in HabitIdStrings(listed) ==> k in LegacySchedule(m, listed, h)
    ensures !h.notificationEnabled ==> LegacySchedule(m, listed, h) == m - HabitIdStrings(listed)
  {
  }

  /** Adding the reminders up to `i` is adding those before `i`, then reminder `i`. */
  lemma AddLegacyRequestsStep(m: map<string, Request>, h: LegacyHabit, rs: seq<LegacyReminder>, i: nat)
    requires i < |rs|
    ensures AddLegacyRequests(m, h, rs[..i + 1]) == AddLegacyRequests(m, h, rs[..i])[rs[i].id := LegacyRequest(h, rs[i])]
  {
    assert rs[..i + 1][..i] == rs[..i];
  }

  /** Requests not named by any of the added reminders keep their content. */
  lemma {:induction false} AddLegacyRequestsKeepsOthers(m: map<string, Request>, h: LegacyHabit,
                                                      rs: seq<LegacyReminder>, k: string)
    requires k in m && forall r :: r in rs ==> r.id != k
    ensures AddLegacyRequests(m, h, rs)[k] == m[k]
  {
    if rs != [] {
      var init := rs[..|rs| - 1];
      assert forall r :: r in init ==> r in rs;
      AddLegacyRequestsKeepsOthers(m, h, init, k);
    }
  }

  /** With unique reminder ids, each reminder's id holds that reminder's request. */
  lemma {:induction false} AddLegacyRequestsAt(m: map<string, Request>, h: LegacyHabit,
                                              rs: seq<LegacyReminder>, i: nat)
    requires i < |rs|
    requires forall a, b :: 0 <= a < b < |rs| ==> rs[a].id != rs[b].id
    ensures rs[i].id in AddLegacyRequests(m, h, rs)
    ensures AddLegacyRequests(m, h, rs)[rs[i].id] == LegacyRequest(h, rs[i])
  {
    var n := |rs| - 1;
    var init := rs[..n];
    assert AddLegacyRequests(m, h, rs) == AddLegacyRequests(m, h, init)[rs[n].id := LegacyRequest(h, rs[n])];
    if i < n {
      assert init[i] == rs[i];
      forall a, b | 0 <= a < b < |init| ensures init[a].id != init[b].id {
        assert init[a] == rs[a] && init[b] == rs[b];
      }
      AddLegacyRequestsAt(m, h, init, i);
      assert rs[n].id != rs[i].id;
    }
  }

  /** The defaults of `routineStartTimes`: 6:00, 11:00 and 18:00 of the given day. */
  function DefaultRoutineStartTimes(today: Date): (times: map<RoutineTime, Date>)
    ensures times.Keys == {Morning, Day, Evening}
    ensures forall rt :: rt in times ==> times[rt].day == today.day && times[rt].minute == 0 && times[rt].second == 0
    ensures times[Morning].hour < times[Day].hour < times[Evening].hour
    ensures times[Morning].hour == 6 && times[Day].hour == 11 && times[Evening].hour == 18
  {
    map[Morning := Date(today.day, 6, 0, 0),
        Day := Date(today.day, 11, 0, 0),
        Evening := Date(today.day, 18, 0, 0)]
  }

  class HabitListViewModel {
    var modelContext: ModelContext?
    var habits: seq<LegacyHabit>
    var selectedRoutineTime: RoutineTime
    var routineForSettings: Option<RoutineTime>
    var routineStartTimes: map<RoutineTime, Date>

    /** Field defaults; `today` stands for `Date()`. */
    constructor (today: Date)
      ensures modelContext == null && habits == []
      ensures selectedRoutineTime == Morning && routineForSettings == None
      ensures routineStartTimes == DefaultRoutineStartTimes(today)
    {
      modelContext := null;
      habits := [];
      selectedRoutineTime := Morning;
      routineForSettings := None;
      routineStartTimes := DefaultRoutineStartTimes(today);
    }

    /** `fetchHabits`: without a context nothing happens; otherwise the habits
        become the fetched list, or empty when the fetch throws. */
    method FetchHabits()
      modifies this`habits
      ensures modelContext == null ==> habits == old(habits)
      ensures modelContext != null ==> habits == FetchedHabits(modelContext)
    {
      if modelContext == null {
        return;
      }
      var result := modelContext.Fetch();
      habits := match result
        case Some(fetched) => fetched
        case None => [];
    }

    /** `setContext`: store the context, then fetch from it. */
    method SetContext(context: ModelContext)
      modifies this`modelContext, this`habits
      ensures modelContext == context
      ensures habits == FetchedHabits(context)
    {
      modelContext := context;
      FetchHabits();
    }

    /** `scheduleNotifications(for:)`: remove the requests named by the
        listed habits' ids; if the habit's notifications are on, add one request
        per reminder under the reminder's id. */
    method ScheduleNotifications(center: PendingCenter, habit: LegacyHabit)
      modifies center
      ensures center.pending == LegacySchedule(old(center.pending), habits, habit)
    {
      var habitIds := set h | h in habits :: h.id;
      assert habitIds == HabitIdStrings(habits);
      center.RemovePendingRequests(habitIds);
      if !habit.notificationEnabled {
        return;
      }
      ghost var cleared := center.pending;
      for i := 0 to |habit.reminders|
        invariant center.pending == AddLegacyRequests(cleared, habit, habit.reminders[..i])
      {
        var reminder := habit.reminders[i];
        var body := if reminder.message == "" then "Zeit für " + habit.emoji + "!" else reminder.message;
        var trigger := CalendarTrigger(HourAndMinute(reminder.time), true);
        var request := Request(habit.title, body, trigger);
        assert request == LegacyRequest(habit, reminder);
        AddLegacyRequestsStep(cleared, habit, habit.reminders, i);
        center.Add(reminder.id, request);
      }
      assert habit.reminders[..|habit.reminders|] == habit.reminders;
    }

    /** `updateHabit`: schedule (against the habits listed before the call),
        then save, then refetch. */
    method UpdateHabit(center: PendingCenter, habit: LegacyHabit)
      modifies this`habits, center, modelContext
      ensures center.pending == LegacySchedule(old(center.pending), old(habits), habit)
      ensures modelContext != null ==>
        modelContext.persisted == if modelContext.saveFails then old(modelContext.persisted) else modelContext.records
      ensures modelContext != null ==>
        && modelContext.records == old(modelContext.records)
        && modelContext.fetchFails == old(modelContext.fetchFails)
        && modelContext.saveFails == old(modelContext.saveFails)
      ensures modelContext == null ==> habits == old(habits)
      ensures modelContext != null ==> habits == FetchedHabits(modelContext)
    {
      ScheduleNotifications(center, habit);
      if modelContext != null {
        modelContext.Save();
      }
      FetchHabits();
    }
  }

  /** A removed reminder keeps firing: after its habit is rescheduled with a new
      reminder set, or with notifications switched off, the old request is
      still pending, because it is keyed by the reminder id and the removal
      names only habit ids. */
  lemma StaleReminderSurvivesReschedule()
    ensures var h := LegacyHabit("H", "Water", "💧", 0, true, [LegacyReminder("R1", Date(0, 8, 0, 0), "")]);
            var first := LegacySchedule(map[], [h], h);
            && "R1" in LegacySchedule(first, [h], h.(reminders := [LegacyReminder("R2", Date(0, 9, 0, 0), "")]))
            && "R1" in LegacySchedule(first, [h], h.(notificationEnabled := false))
  {
    var h := LegacyHabit("H", "Water", "💧", 0, true, [LegacyReminder("R1", Date(0, 8, 0, 0), "")]);
    var first := LegacySchedule(map[], [h], h);
    LegacyScheduleIds(map[], [h], h);
    assert "R1" in first;
    assert "R1" != "H";
    LegacyScheduleIds(first, [h], h.(reminders := [LegacyReminder("R2", Date(0, 9, 0, 0), "")]));
    LegacyScheduleIds(first, [h], h.(notificationEnabled := false));
  }
}
