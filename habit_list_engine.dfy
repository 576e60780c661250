/** The habit-list view model as its unit tests pin it down
    (voidTests.UITests/HabitListViewModelTests.swift): an ordered list of daily
    habits, add / delete / progress / reorder, and a heatmap vector whose last
    cell is today's completion score. The store behind the list is abstract:
    the list is the store's content. */
module HabitListEngine {
  import opened Basics
  import opened HabitModel

  /** Number of days the heatmap covers; the last cell is today. */
  const HeatmapWindow: nat := 100

  predicate UniqueIds(hs: seq<Habit>)
  {
    forall i, j :: 0 <= i < j < |hs| ==> hs[i].id != hs[j].id
  }

  /** The list is in display order: sortOrder strictly increases along it. */
  predicate SortOrderIncreasing(hs: seq<Habit>)
  {
    forall i, j :: 0 <= i < j < |hs| ==> hs[i].sortOrder < hs[j].sortOrder
  }

  /** After a reorder, every habit's sortOrder is its position. */
  predicate SortOrderIsPosition(hs: seq<Habit>)
  {
    forall i :: 0 <= i < |hs| ==> hs[i].sortOrder == i
  }

  /** How many of the habits have reached their goal. */
  function CompletedCount(hs: seq<Habit>): (n: nat)
    ensures n <= |hs|
  {
    if hs == [] then 0
    else (if IsCompleted(hs[0]) then 1 else 0) + CompletedCount(hs[1..])
  }

  /** All habits are done exactly when the count is the length, none exactly
      when it is zero. */
  lemma {:induction false} CompletedCountExtremes(hs: seq<Habit>)
    ensures CompletedCount(hs) == |hs| <==> forall h :: h in hs ==> IsCompleted(h)
    ensures CompletedCount(hs) == 0 <==> forall h :: h in hs ==> !IsCompleted(h)
  {
    if hs != [] {
      CompletedCountExtremes(hs[1..]);
      assert forall h :: h in hs <==> h == hs[0] || h in hs[1..];
    }
  }

  /** A ratio of a count to a positive total no smaller than it. */
  lemma RatioBounds(c: nat, n: nat)
    requires 0 < n && c <= n
    ensures 0.0 <= c as real / n as real <= 1.0
    ensures c as real / n as real == 1.0 <==> c == n
    ensures c as real / n as real == 0.0 <==> c == 0
  {
    var q := c as real / n as real;
    assert q * n as real == c as real;
  }

  lemma {:induction false} CompletedCountAppend(a: seq<Habit>, b: seq<Habit>)
    ensures CompletedCount(a + b) == CompletedCount(a) + CompletedCount(b)
  {
    if a == [] {
      assert a + b == b;
    } else {
      assert (a + b)[1..] == a[1..] + b;
      CompletedCountAppend(a[1..], b);
    }
  }

  /** Today's score: completed habits over all (daily, hence active) habits; 0
      when there is none. It lies in [0,1], is 1 exactly when every habit is
      done and 0 exactly when none is. */
  function TodayScore(hs: seq<Habit>): (score: real)
    ensures 0.0 <= score <= 1.0
    ensures hs == [] ==> score == 0.0
    ensures score == 1.0 <==> hs != [] && forall h :: h in hs ==> IsCompleted(h)
    ensures score == 0.0 <==> forall h :: h in hs ==> !IsCompleted(h)
  {
    CompletedCountExtremes(hs);
    if hs == [] then 0.0
    else
      RatioBounds(CompletedCount(hs), |hs|);
      CompletedCount(hs) as real / |hs| as real
  }

  /** The score of two habits, the case the score test exercises: 1/2 when
      exactly one of them is done. */
  lemma ScoreOfTwo(a: Habit, b: Habit)
    ensures TodayScore([a, b]) ==
      if IsCompleted(a) && IsCompleted(b) then 1.0
      else if IsCompleted(a) || IsCompleted(b) then 0.5
      else 0.0
  {
    assert [a, b][1..] == [b];
    assert [b][1..] == [];
  }

  /** Habits that agree on progress and goal, position by position, have the
      same score whatever their other fields. */
  lemma {:induction false} CompletedCountPointwise(a: seq<Habit>, b: seq<Habit>)
    requires |a| == |b|
    requires forall i :: 0 <= i < |a| ==> IsCompleted(a[i]) == IsCompleted(b[i])
    ensures CompletedCount(a) == CompletedCount(b)
  {
    if a != [] {
      CompletedCountPointwise(a[1..], b[1..]);
    }
  }

  /** The first position holding the habit with the given id, if any. */
  function FindIndex(hs: seq<Habit>, id: string): (r: Option<nat>)
    ensures r.Some? ==> r.value < |hs| && hs[r.value].id == id
    ensures r.Some? ==> forall j :: 0 <= j < r.value ==> hs[j].id != id
    ensures r.None? <==> forall h :: h in hs ==> h.id != id
  {
    if hs == [] then None
    else if hs[0].id == id then Some(0)
    else match FindIndex(hs[1..], id)
      case None => None
      case Some(k) => Some(k + 1)
  }

  /** The sortOrder a new habit gets: one more than the largest present. */
  function NextSortOrder(hs: seq<Habit>): (n: int)
    requires SortOrderIncreasing(hs)
    ensures forall h :: h in hs ==> h.sortOrder < n
  {
    if hs == [] then 0 else hs[|hs| - 1].sortOrder + 1
  }

  /** `s` without its element at `k`. */
  function RemoveAt(s: seq<Habit>, k: nat): (r: seq<Habit>)
    requires k < |s|
    ensures |r| == |s| - 1
    ensures forall j :: 0 <= j < |r| ==> r[j] == if j < k then s[j] else s[j + 1]
  {
    s[..k] + s[k + 1..]
  }

  /** Take the element at `src` out and insert it at `dst`, an index of the
      original list. */
  function Moved(s: seq<Habit>, src: nat, dst: nat): seq<Habit>
    requires src < |s| && dst < |s|
  {
    var rest := s[..src] + s[src + 1..];
    rest[..dst] + [s[src]] + rest[dst..]
  }

  /** A move keeps the length, puts the moved element at `dst`, and leaves all
      other elements in their old relative order: it is a permutation. */
  lemma MovedProperties(s: seq<Habit>, src: nat, dst: nat)
    requires src < |s| && dst < |s|
    ensures |Moved(s, src, dst)| == |s|
    ensures Moved(s, src, dst)[dst] == s[src]
    ensures RemoveAt(Moved(s, src, dst), dst) == RemoveAt(s, src)
    ensures multiset(Moved(s, src, dst)) == multiset(s)
  {
    var rest := RemoveAt(s, src);
    var m := Moved(s, src, dst);
    assert m[..dst] == rest[..dst];
    assert m[dst + 1..] == rest[dst..];
    assert RemoveAt(m, dst) == rest[..dst] + rest[dst..];
    assert rest[..dst] + rest[dst..] == rest;
    assert s == s[..src] + [s[src]] + s[src + 1..];
    calc {
      multiset(m);
      multiset(rest[..dst]) + multiset([s[src]]) + multiset(rest[dst..]);
      multiset(rest) + multiset([s[src]]);
      multiset(s[..src]) + multiset(s[src + 1..]) + multiset([s[src]]);
      multiset(s);
    }
  }

  /** A habit between two lists adds its own count to theirs. */
  lemma CompletedCountInsert(a: seq<Habit>, x: Habit, b: seq<Habit>)
    ensures CompletedCount(a + [x] + b) == CompletedCount(a + b) + CompletedCount([x])
  {
    CompletedCountAppend(a + [x], b);
    CompletedCountAppend(a, [x]);
    CompletedCountAppend(a, b);
  }

  /** Taking one habit out and counting it apart gives the same count. */
  lemma CompletedCountSplit(s: seq<Habit>, k: nat)
    requires k < |s|
    ensures CompletedCount(s) == CompletedCount(s[..k] + s[k + 1..]) + CompletedCount([s[k]])
  {
    SplitAround(s, k);
    CompletedCountInsert(s[..k], s[k], s[k + 1..]);
  }

  /** A list is its part before `k`, its element at `k` and its part after. */
  lemma SplitAround(s: seq<Habit>, k: nat)
    requires k < |s|
    ensures s == s[..k] + [s[k]] + s[k + 1..]
  {
  }

  /** Reordering does not change how many habits are done. */
  lemma MovedKeepsCompletedCount(s: seq<Habit>, src: nat, dst: nat)
    requires src < |s| && dst < |s|
    ensures CompletedCount(Moved(s, src, dst)) == CompletedCount(s)
  {
    MovedProperties(s, src, dst);
    CompletedCountSplit(Moved(s, src, dst), dst);
    CompletedCountSplit(s, src);
  }

  class HabitListViewModel {
    var habits: seq<Habit>
    var heatmapData: seq<real>

    /** Ids are unique UUID texts, the list is in sortOrder, and the heatmap
        has one score in [0,1] per day of the window, today's being current. */
    ghost predicate Valid()
      reads this
    {
      && UniqueIds(habits)
      && (forall h :: h in habits ==> IsUuid(h.id))
      && SortOrderIncreasing(habits)
      && |heatmapData| == HeatmapWindow
      && heatmapData[HeatmapWindow - 1] == TodayScore(habits)
      && (forall i :: 0 <= i < |heatmapData| ==> 0.0 <= heatmapData[i] <= 1.0)
    }

    /** A fresh view model attached to an empty store: no habit, every day scored 0. */
    constructor ()
      ensures Valid()
      ensures habits == []
      ensures heatmapData == seq(HeatmapWindow, _ => 0.0)
    {
      habits := [];
      heatmapData := seq(HeatmapWindow, _ => 0.0);
    }

    /** Recompute today's cell from the current habits. */
    method RefreshToday()
      requires |heatmapData| == HeatmapWindow
      requires forall i :: 0 <= i < |heatmapData| ==> 0.0 <= heatmapData[i] <= 1.0
      modifies this`heatmapData
      ensures heatmapData == old(heatmapData)[..HeatmapWindow - 1] + [TodayScore(habits)]
      ensures forall i :: 0 <= i < |heatmapData| ==> 0.0 <= heatmapData[i] <= 1.0
    {
      heatmapData := heatmapData[..HeatmapWindow - 1] + [TodayScore(habits)];
    }

    /** `addHabit`: append a new habit with no progress and no reminders after
        every other habit in sortOrder. `id` stands for the freshly generated UUID. */
    method AddHabit(id: string, title: string, emoji: string, kind: HabitType, goal: real,
                    unit: string, category: string, routineTime: RoutineTime)
      requires Valid()
      requires IsUuid(id) && forall h :: h in habits ==> h.id != id
      modifies this
      ensures Valid()
      ensures habits == old(habits) +
        [Habit(id, title, emoji, kind, goal, 0.0, unit, category, routineTime, NextSortOrder(old(habits)), [])]
      ensures heatmapData[..HeatmapWindow - 1] == old(heatmapData)[..HeatmapWindow - 1]
    {
      var h := Habit(id, title, emoji, kind, goal, 0.0, unit, category, routineTime, NextSortOrder(habits), []);
      AppendKeepsOrder(habits, h);
      habits := habits + [h];
      RefreshToday();
    }

    /** `deleteHabit`: the habit with that id leaves the list; the order of the
        others is kept. An id not in the list changes nothing. */
    method DeleteHabit(id: string)
      requires Valid()
      modifies this
      ensures Valid()
      ensures forall h :: h in habits <==> h in old(habits) && h.id != id
      ensures match FindIndex(old(habits), id)
        case None => habits == old(habits)
        case Some(k) => habits == RemoveAt(old(habits), k)
      ensures heatmapData[..HeatmapWindow - 1] == old(heatmapData)[..HeatmapWindow - 1]
    {
      var found := FindIndex(habits, id);
      if found.Some? {
        RemoveAtKeepsOrder(habits, found.value);
        RemoveAtMembers(habits, found.value);
        habits := RemoveAt(habits, found.value);
      }
      RefreshToday();
    }

    /** `updateHabitProgress(for:value:)`: the habit with that id gets `value`
        as its current value; nothing else changes. Today's cell follows. */
    method UpdateHabitProgress(id: string, value: real)
      requires Valid()
      modifies this
      ensures Valid()
      ensures |habits| == |old(habits)|
      ensures forall i :: 0 <= i < |habits| ==>
        habits[i] == if old(habits)[i].id == id then old(habits)[i].(currentValue := value) else old(habits)[i]
      ensures forall h :: h in habits && h.id == id ==> (IsCompleted(h) <==> value >= h.goalValue)
      ensures heatmapData[..HeatmapWindow - 1] == old(heatmapData)[..HeatmapWindow - 1]
    {
      var found := FindIndex(habits, id);
      if found.Some? {
        var k := found.value;
        ghost var before := habits;
        habits := habits[k := habits[k].(currentValue := value)];
        SameIdsAndOrders(before, habits);
      }
      RefreshToday();
    }

    /** `moveHabit(from:to:)`: the habit `fromId` is taken out and inserted at
        the position `toId` held, then every sortOrder is rewritten to its
        position. Either id missing: nothing changes. */
    method MoveHabit(fromId: string, toId: string)
      requires Valid()
      modifies this`habits
      ensures Valid()
      ensures FindIndex(old(habits), fromId).None? || FindIndex(old(habits), toId).None? ==>
        habits == old(habits)
      ensures FindIndex(old(habits), fromId).Some? && FindIndex(old(habits), toId).Some? ==>
        var moved := Moved(old(habits), FindIndex(old(habits), fromId).value, FindIndex(old(habits), toId).value);
        && |habits| == |moved|
        && (forall i :: 0 <= i < |habits| ==> habits[i] == moved[i].(sortOrder := i))
        && habits[FindIndex(old(habits), toId).value].id == fromId
    {
      var src := FindIndex(habits, fromId);
      var dst := FindIndex(habits, toId);
      if src.None? || dst.None? {
        return;
      }
      ghost var before := habits;
      habits := Moved(habits, src.value, dst.value);
      RenumberSortOrders();
      RenumberedMoveKeepsInvariants(before, src.value, dst.value, habits);
      assert UniqueIds(habits) && SortOrderIncreasing(habits);
      assert heatmapData[HeatmapWindow - 1] == TodayScore(habits);
    }

    /** Rewrite every habit's sortOrder to its position; nothing else changes. */
    method RenumberSortOrders()
      modifies this`habits
      ensures |habits| == |old(habits)|
      ensures forall i :: 0 <= i < |habits| ==> habits[i] == old(habits)[i].(sortOrder := i)
    {
      ghost var original := habits;
      for i := 0 to |habits|
        invariant |habits| == |original|
        invariant forall k :: 0 <= k < i ==> habits[k] == original[k].(sortOrder := k)
        invariant forall k :: i <= k < |habits| ==> habits[k] == original[k]
      {
        habits := habits[i := habits[i].(sortOrder := i)];
      }
    }
  }

  /** A move followed by renumbering keeps the list's invariants and today's score. */
  lemma RenumberedMoveKeepsInvariants(before: seq<Habit>, src: nat, dst: nat, after: seq<Habit>)
    requires src < |before| && dst < |before|
    requires UniqueIds(before) && forall h :: h in before ==> IsUuid(h.id)
    requires |after| == |before|
    requires forall i :: 0 <= i < |after| ==> after[i] == Moved(before, src, dst)[i].(sortOrder := i)
    ensures UniqueIds(after) && (forall h :: h in after ==> IsUuid(h.id))
    ensures SortOrderIsPosition(after) && SortOrderIncreasing(after)
    ensures TodayScore(after) == TodayScore(before)
    ensures after[dst].id == before[src].id
  {
    MoveKeepsIds(before, src, dst, after);
    MovedProperties(before, src, dst);
    MovedKeepsCompletedCount(before, src, dst);
    CompletedCountPointwise(after, Moved(before, src, dst));
  }

  /** Where the element at position `k` of `Moved(s, src, dst)` came from. */
  function MovedIndex(src: nat, dst: nat, k: nat): nat
  {
    if k == dst then src
    else
      var r := if k < dst then k else k - 1;
      if r < src then r else r + 1
  }

  lemma MovedAt(s: seq<Habit>, src: nat, dst: nat, k: nat)
    requires src < |s| && dst < |s| && k < |s|
    ensures |Moved(s, src, dst)| == |s|
    ensures MovedIndex(src, dst, k) < |s|
    ensures Moved(s, src, dst)[k] == s[MovedIndex(src, dst, k)]
  {
    var rest := RemoveAt(s, src);
    var m := Moved(s, src, dst);
    if k < dst {
      assert m[k] == rest[k];
    } else if k > dst {
      assert m[k] == rest[k - 1];
    }
  }

  /** Different positions of a moved list come from different positions. */
  lemma MovedIndexInjective(src: nat, dst: nat, i: nat, j: nat)
    requires i != j
    ensures MovedIndex(src, dst, i) != MovedIndex(src, dst, j)
  {
  }

  /** A move followed by renumbering keeps the ids unique UUIDs and makes
      sortOrder the position. */
  lemma MoveKeepsIds(before: seq<Habit>, src: nat, dst: nat, after: seq<Habit>)
    requires src < |before| && dst < |before|
    requires UniqueIds(before) && forall h :: h in before ==> IsUuid(h.id)
    requires |after| == |before|
    requires forall i :: 0 <= i < |after| ==> after[i] == Moved(before, src, dst)[i].(sortOrder := i)
    ensures UniqueIds(after) && (forall h :: h in after ==> IsUuid(h.id))
    ensures SortOrderIsPosition(after) && SortOrderIncreasing(after)
  {
    forall i, j | 0 <= i < j < |after| ensures after[i].id != after[j].id {
      MovedAt(before, src, dst, i);
      MovedAt(before, src, dst, j);
      MovedIndexInjective(src, dst, i, j);
    }
    forall h | h in after ensures IsUuid(h.id) {
      var i :| 0 <= i < |after| && after[i] == h;
      MovedAt(before, src, dst, i);
    }
  }

  /** Appending a habit with a fresh UUID id and the next sortOrder keeps the
      list's invariants. */
  lemma AppendKeepsOrder(hs: seq<Habit>, h: Habit)
    requires UniqueIds(hs) && SortOrderIncreasing(hs) && forall x :: x in hs ==> IsUuid(x.id)
    requires IsUuid(h.id) && (forall x :: x in hs ==> x.id != h.id) && h.sortOrder == NextSortOrder(hs)
    ensures UniqueIds(hs + [h]) && SortOrderIncreasing(hs + [h])
    ensures forall x :: x in hs + [h] ==> IsUuid(x.id)
  {
    var r := hs + [h];
    forall i, j | 0 <= i < j < |r| ensures r[i].id != r[j].id && r[i].sortOrder < r[j].sortOrder {
      assert r[i] == hs[i] && hs[i] in hs;
      if j < |hs| {
        assert r[j] == hs[j];
      }
    }
  }

  /** Removing one habit keeps the list's invariants. */
  lemma RemoveAtKeepsOrder(hs: seq<Habit>, k: nat)
    requires k < |hs|
    requires UniqueIds(hs) && SortOrderIncreasing(hs) && forall h :: h in hs ==> IsUuid(h.id)
    ensures UniqueIds(RemoveAt(hs, k)) && SortOrderIncreasing(RemoveAt(hs, k))
    ensures forall h :: h in RemoveAt(hs, k) ==> IsUuid(h.id)
  {
    var r := RemoveAt(hs, k);
    forall i, j | 0 <= i < j < |r| ensures r[i].id != r[j].id && r[i].sortOrder < r[j].sortOrder {
      var a, b := if i < k then i else i + 1, if j < k then j else j + 1;
      assert r[i] == hs[a] && r[j] == hs[b];
    }
    RemoveAtMembers(hs, k);
  }

  /** With unique ids, removing position `k` removes exactly the habit with its id. */
  lemma RemoveAtMembers(hs: seq<Habit>, k: nat)
    requires k < |hs| && UniqueIds(hs)
    ensures forall h :: h in RemoveAt(hs, k) <==> h in hs && h.id != hs[k].id
  {
    var r := RemoveAt(hs, k);
    var front, back := hs[..k], hs[k + 1..];
    assert r == front + back;
    forall h | h in hs && h.id != hs[k].id ensures h in r {
      var i :| 0 <= i < |hs| && hs[i] == h;
      if i < k {
        assert front[i] == h;
      } else {
        assert back[i - k - 1] == h;
      }
    }
    forall h | h in r ensures h in hs && h.id != hs[k].id {
      if h in front {
        var i :| 0 <= i < |front| && front[i] == h;
        assert hs[i] == h;
      } else {
        var i :| 0 <= i < |back| && back[i] == h;
        assert hs[i + k + 1] == h;
      }
    }
  }

  /** Lists agreeing position by position on ids and sortOrders share the invariants. */
  lemma SameIdsAndOrders(a: seq<Habit>, b: seq<Habit>)
    requires |a| == |b|
    requires forall i :: 0 <= i < |a| ==> a[i].id == b[i].id && a[i].sortOrder == b[i].sortOrder
    requires UniqueIds(a) && SortOrderIncreasing(a) && forall h :: h in a ==> IsUuid(h.id)
    ensures UniqueIds(b) && SortOrderIncreasing(b) && forall h :: h in b ==> IsUuid(h.id)
  {
    forall h | h in b ensures IsUuid(h.id) {
      var i :| 0 <= i < |b| && b[i] == h;
      assert a[i] in a;
    }
  }

  // ---- The unit tests, as clients of the contracts above ----

  method TestAddHabit()
  {
    var vm := new HabitListViewModel();
    assert vm.habits == [];
    vm.AddHabit("00000000-0000-0000-0000-000000000001", "Touch Grass", "🌱", Checkmark, 1.0,
                "", "Health", Day);
    assert |vm.habits| == 1;
    assert vm.habits[0].title == "Touch Grass";
  }

  method TestDeleteHabit()
  {
    var vm := new HabitListViewModel();
    vm.AddHabit("00000000-0000-0000-0000-000000000002", "Delete Me", "🗑️", Checkmark, 1.0,
                "", "Test", Morning);
    var habitToDelete := vm.habits[0];
    vm.DeleteHabit(habitToDelete.id);
    assert vm.habits == [];
  }

  method TestScoreCalculation()
  {
    var vm := new HabitListViewModel();
    var waterId := "00000000-0000-0000-0000-000000000003";
    var zenId := "00000000-0000-0000-0000-000000000004";
    vm.AddHabit(waterId, "Water", "💧", Value, 2.0, "L", "Health", Morning);
    vm.AddHabit(zenId, "Zen", "🧘", Checkmark, 1.0, "", "Mindset", Morning);
    assert waterId != zenId;
    vm.UpdateHabitProgress(zenId, 1.0);
    assert vm.habits[0].id == waterId && !IsCompleted(vm.habits[0]);
    assert vm.habits[1].id == zenId && IsCompleted(vm.habits[1]);
    ScoreOfTwo(vm.habits[0], vm.habits[1]);
    assert vm.habits == [vm.habits[0], vm.habits[1]];
    assert vm.heatmapData[HeatmapWindow - 1] == 0.5;
    vm.UpdateHabitProgress(waterId, 2.0);
    assert IsCompleted(vm.habits[0]) && IsCompleted(vm.habits[1]);
    ScoreOfTwo(vm.habits[0], vm.habits[1]);
    assert vm.habits == [vm.habits[0], vm.habits[1]];
    assert vm.heatmapData[HeatmapWindow - 1] == 1.0;
  }

  method TestMoveHabitOrder()
  {
    var vm := new HabitListViewModel();
    vm.AddHabit("00000000-0000-0000-0000-000000000005", "First", "1️⃣", Checkmark, 1.0, "", "Test", Morning);
    vm.AddHabit("00000000-0000-0000-0000-000000000006", "Second", "2️⃣", Checkmark, 1.0, "", "Test", Morning);
    var firstId := vm.habits[0].id;
    var secondId := vm.habits[1].id;
    vm.MoveHabit(firstId, secondId);
    assert vm.habits[0].title == "Second";
    assert vm.habits[0].sortOrder == 0;
    assert vm.habits[1].sortOrder == 1;
  }
}
