/**
 * The weekly habit grid (src/components/HabitTracker.tsx): a click on a
 * day cell toggles that weekday in the habit's `completedDays`, with a
 * chime when the day is being added; today's column is found from
 * `Date.getDay()` converted to a Monday-based index.
 */
module HabitTracker {
  import opened Collections
  import opened Domain

  /** The habits after a click, and how many chimes it played. */
  datatype Clicked = Clicked(habits: seq<Habit>, chimes: nat)

  /** The new record of one habit: the day toggled, everything else kept. */
  function ToggleDay(habit: Habit, day: int): (r: Habit)
    ensures r.id == habit.id && r.name == habit.name
    ensures day in r.completedDays <==> day !in habit.completedDays
    ensures forall d :: d != day ==> (d in r.completedDays <==> d in habit.completedDays)
    ensures day !in habit.completedDays ==> r.completedDays == habit.completedDays + [day]
  {
    habit.(completedDays := ToggleMember(habit.completedDays, day))
  }

  /**
   * `toggleHabitDay(habitId, day)`: every habit with id `habitId` gets the
   * day toggled, every other habit is kept; a chime plays for each habit
   * the day is added to.
   */
  function ToggleHabitDay(habits: seq<Habit>, habitId: string, day: int): (r: Clicked)
    ensures |r.habits| == |habits|
    ensures forall i :: 0 <= i < |habits| && habits[i].id != habitId ==> r.habits[i] == habits[i]
    ensures forall i :: 0 <= i < |habits| && habits[i].id == habitId ==> r.habits[i] == ToggleDay(habits[i], day)
    ensures r.chimes == 0 <==> forall i :: 0 <= i < |habits| && habits[i].id == habitId ==> day in habits[i].completedDays
  {
    if habits == [] then Clicked([], 0)
    else
      var rest := ToggleHabitDay(habits[1..], habitId, day);
      var h := habits[0];
      assert forall i :: 1 <= i < |habits| ==> habits[i] == habits[1..][i - 1];
      if h.id == habitId then
        Clicked([ToggleDay(h, day)] + rest.habits, rest.chimes + if day in h.completedDays then 0 else 1)
      else Clicked([h] + rest.habits, rest.chimes)
  }

  /** A click for an id no habit has changes nothing and plays nothing. */
  lemma UnknownHabitUnchanged(habits: seq<Habit>, habitId: string, day: int)
    requires forall i :: 0 <= i < |habits| ==> habits[i].id != habitId
    ensures ToggleHabitDay(habits, habitId, day) == Clicked(habits, 0)
  {
    var r := ToggleHabitDay(habits, habitId, day);
    assert r.habits == habits;
  }

  /** Clicking a cell that is not ticked, and clicking it again, gives the habit back. */
  lemma ClickTwiceRestores(habit: Habit, day: int)
    requires day !in habit.completedDays
    ensures ToggleDay(ToggleDay(habit, day), day) == habit
  {
    ToggleTwiceFromAbsent(habit.completedDays, day);
  }

  /** Every entry is a weekday index with none repeated: what the grid can show. */
  predicate WellFormedWeek(days: seq<int>) {
    NoDuplicates(days) && forall i :: 0 <= i < |days| ==> 0 <= days[i] < 7
  }

  function Elements(days: seq<int>): set<int> {
    set d | d in days
  }

  lemma {:induction false} DistinctCount(days: seq<int>)
    requires NoDuplicates(days)
    ensures |Elements(days)| == |days|
  {
    if days != [] {
      var init := days[..|days| - 1];
      var last := days[|days| - 1];
      DistinctCount(init);
      assert last !in init;
      assert Elements(days) == Elements(init) + {last};
    }
  }

  /** The indices `0 .. n-1`. */
  function Week(n: nat): (r: set<int>)
    ensures forall d :: d in r <==> 0 <= d < n
  {
    if n == 0 then {} else Week(n - 1) + {n - 1}
  }

  lemma {:induction false} WeekSize(n: nat)
    ensures |Week(n)| == n
  {
    if n > 0 {
      WeekSize(n - 1);
      assert n - 1 !in Week(n - 1);
    }
  }

  /** A well-formed week holds at most seven days, so the `n/7` count never passes 7. */
  lemma WeekAtMostSeven(days: seq<int>)
    requires WellFormedWeek(days)
    ensures |days| <= 7
  {
    DistinctCount(days);
    WeekSize(7);
    assert Elements(days) <= Week(7);
    assert |Elements(days)| <= |Week(7)| by {
      assert Week(7) == Elements(days) + (Week(7) - Elements(days));
    }
  }

  /** Clicking a weekday cell keeps a well-formed week well formed. */
  lemma ToggleKeepsWeek(habit: Habit, day: int)
    requires WellFormedWeek(habit.completedDays) && 0 <= day < 7
    ensures WellFormedWeek(ToggleDay(habit, day).completedDays)
    ensures |ToggleDay(habit, day).completedDays| <= 7
  {
    var days := ToggleDay(habit, day).completedDays;
    ToggleKeepsNoDuplicates(habit.completedDays, day);
    forall i | 0 <= i < |days| ensures 0 <= days[i] < 7 {
      assert days[i] in days;
      if days[i] != day {
        assert days[i] in habit.completedDays;
      }
    }
    WeekAtMostSeven(days);
  }

  // ---------------------------------------------------------------------
  // getCurrentDayIndex

  /** `day === 0 ? 6 : day - 1` for `getDay()`'s 0 (Sunday) … 6 (Saturday). */
  function CurrentDayIndex(getDay: int): (i: int)
    requires 0 <= getDay < 7
    ensures 0 <= i < 7
    ensures getDay == 0 <==> i == 6
    ensures getDay == 1 <==> i == 0
  {
    if getDay == 0 then 6 else getDay - 1
  }

  /** The weekday `getDay()` reports for a Monday-based index. */
  function WeekdayOf(index: int): (day: int)
    requires 0 <= index < 7
    ensures 0 <= day < 7
  {
    (index + 1) % 7
  }

  /** The conversion is a bijection on 0..6: `WeekdayOf` undoes it both ways. */
  lemma DayIndexBijective(getDay: int, index: int)
    requires 0 <= getDay < 7 && 0 <= index < 7
    ensures WeekdayOf(CurrentDayIndex(getDay)) == getDay
    ensures CurrentDayIndex(WeekdayOf(index)) == index
  {
  }
}
