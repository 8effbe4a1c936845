/**
 * The page that owns the dashboard's state (src/pages/Index.tsx): the
 * list of tasks and the active one, the per-habit completion dates, and
 * the habits whose progress survives a settings save. Each `useState`
 * variable is a field; each handler is a method that reassigns fields.
 */
module IndexPage {
  import opened Wrappers
  import opened Strings
  import opened Collections
  import opened Domain
  import opened CheckboxLine

  /** The items of the checklist a new task starts with. */
  const NewTaskItems: seq<string> := ["- [ ] Task item 1", "- [ ] Task item 2", "- [ ] Task item 3"]

  /** The checklist a new task starts with: `'- [ ] Task item 1\n- [ ] Task item 2\n- [ ] Task item 3'`. */
  const NewTaskContent: string := Join(NewTaskItems)

  /** `handleAddTask`'s task for `hour`; `id` is the clock reading `Date.now()` rendered as text. */
  function NewTask(id: string, hour: int): (t: Task)
    ensures t.id == id && t.hour == hour && t.title == "New Task" && !t.completed
    ensures t.content == NewTaskContent && t.notes == None
  {
    Task(id, "New Task", hour, false, NewTaskContent, None)
  }

  lemma NewTaskItemsCanonical()
    ensures NewTaskItems == [Compose("", ' ', "Task item 1"), Compose("", ' ', "Task item 2"), Compose("", ' ', "Task item 3")]
  {
    assert Compose("", ' ', "Task item 1") == NewTaskItems[0];
    assert Compose("", ' ', "Task item 2") == NewTaskItems[1];
    assert Compose("", ' ', "Task item 3") == NewTaskItems[2];
  }

  lemma NewTaskItemsSingleLine()
    ensures AllNoNewline(NewTaskItems)
  {
    forall i | 0 <= i < 3 ensures NoNewline(NewTaskItems[i]) {
      var item := NewTaskItems[i];
      assert forall k :: 0 <= k < |item| ==> item[k] != '\n';
    }
  }

  /** The three items of a new task are the canonical lines of unchecked boxes `Task item 1` … `3`. */
  lemma NewTaskRows()
    ensures Split(NewTaskContent) == [Compose("", ' ', "Task item 1"), Compose("", ' ', "Task item 2"), Compose("", ' ', "Task item 3")]
  {
    NewTaskItemsCanonical();
    NewTaskItemsSingleLine();
    SplitJoin(NewTaskItems);
  }

  /** Each row of a new task reads back as an unchecked, unindented box labelled with its item text. */
  lemma NewTaskItemsUnchecked(i: nat)
    requires i < 3
    ensures i < |Split(NewTaskContent)|
      && Parse(Split(NewTaskContent)[i]) == Some(Parts("", " ", ' ', " ", "Task item " + [DigitChar(i + 1)]))
  {
    NewTaskRows();
    var text := "Task item " + [DigitChar(i + 1)];
    var line := Split(NewTaskContent)[i];
    assert line == Compose("", ' ', text);
    ComposeSpells("", ' ', text);
    ParseCanonical(line, ComposedReading("", ' ', text));
  }

  function HasId(id: string): Task -> bool {
    (t: Task) => t.id == id
  }

  /** `tasks.map(task => task.id === updated.id ? updated : task)`. */
  function ReplaceById(tasks: seq<Task>, updated: Task): (r: seq<Task>)
    ensures |r| == |tasks|
    ensures forall i :: 0 <= i < |tasks| && tasks[i].id != updated.id ==> r[i] == tasks[i]
    ensures forall i :: 0 <= i < |tasks| && tasks[i].id == updated.id ==> r[i] == updated
  {
    seq(|tasks|, i requires 0 <= i < |tasks| => if tasks[i].id == updated.id then updated else tasks[i])
  }

  /** After an update, looking the id up finds the updated task, wherever it was. */
  lemma ReplaceThenFind(tasks: seq<Task>, updated: Task)
    requires exists i :: 0 <= i < |tasks| && tasks[i].id == updated.id
    ensures Find(ReplaceById(tasks, updated), HasId(updated.id)) == Some(updated)
  {
    var r := ReplaceById(tasks, updated);
    var k := FirstIndex(r, HasId(updated.id));
    var i :| 0 <= i < |tasks| && tasks[i].id == updated.id;
    assert HasId(updated.id)(r[i]);
    assert k < |r|;
  }

  /** Saving the same task twice is saving it once. */
  lemma ReplaceIdempotent(tasks: seq<Task>, updated: Task)
    ensures ReplaceById(ReplaceById(tasks, updated), updated) == ReplaceById(tasks, updated)
  {
  }

  /** `handleToggleHabit`: the date toggled in the habit's entry, created as `[date]` when missing. */
  function ToggleCompletion(completions: map<string, seq<string>>, habitId: string, date: string): (r: map<string, seq<string>>)
    ensures r.Keys == completions.Keys + {habitId}
    ensures forall k :: k in completions && k != habitId ==> r[k] == completions[k]
    ensures habitId !in completions ==> r[habitId] == [date]
    ensures date in r[habitId] <==> !(habitId in completions && date in completions[habitId])
    ensures forall d :: d != date ==> (d in r[habitId] <==> habitId in completions && d in completions[habitId])
  {
    var dates := if habitId in completions then completions[habitId] else [];
    completions[habitId := ToggleMember(dates, date)]
  }

  function HabitHasId(id: string): Habit -> bool {
    (h: Habit) => h.id == id
  }

  /** `old.find(h => h.id === id)?.completedDays || []`. */
  function KeptDays(previous: seq<Habit>, id: string): (days: seq<int>)
    ensures (forall j :: 0 <= j < |previous| ==> previous[j].id != id) ==> days == []
    ensures forall j :: 0 <= j < |previous| && previous[j].id == id && (forall k :: 0 <= k < j ==> previous[k].id != id) ==>
      days == previous[j].completedDays
  {
    match Find(previous, HabitHasId(id))
    case Some(h) => h.completedDays
    case None => []
  }

  /** The habit merge on settings save: the new list, each habit keeping the progress its id had. */
  function MergeHabits(newHabits: seq<Habit>, previous: seq<Habit>): (r: seq<Habit>)
    ensures |r| == |newHabits|
    ensures forall i :: 0 <= i < |r| ==> r[i].id == newHabits[i].id && r[i].name == newHabits[i].name
    ensures forall i :: 0 <= i < |r| ==> r[i].completedDays == KeptDays(previous, newHabits[i].id)
  {
    seq(|newHabits|, i requires 0 <= i < |newHabits| => newHabits[i].(completedDays := KeptDays(previous, newHabits[i].id)))
  }

  predicate DistinctIds(habits: seq<Habit>) {
    forall i, j :: 0 <= i < j < |habits| ==> habits[i].id != habits[j].id
  }

  /** Saving the habits unchanged loses no progress: with distinct ids the merge is the identity. */
  lemma MergeUnchanged(habits: seq<Habit>)
    requires DistinctIds(habits)
    ensures MergeHabits(habits, habits) == habits
  {
    var r := MergeHabits(habits, habits);
    forall i | 0 <= i < |habits| ensures r[i] == habits[i] {
      assert forall k :: 0 <= k < i ==> habits[k].id != habits[i].id;
    }
  }

  /** A habit renamed in settings keeps its ticked days; a new habit starts with none. */
  lemma MergeKeepsProgress(newHabits: seq<Habit>, previous: seq<Habit>, i: nat, j: nat)
    requires i < |newHabits| && j < |previous| && DistinctIds(previous) && previous[j].id == newHabits[i].id
    ensures MergeHabits(newHabits, previous)[i].completedDays == previous[j].completedDays
  {
    assert forall k :: 0 <= k < j ==> previous[k].id != previous[j].id;
  }

  class Page {
    var tasks: seq<Task>
    var activeTask: Option<Task>
    var habitCompletions: map<string, seq<string>>
    var habits: seq<Habit>
    var settings: Settings

    /** The page's first render, with the habits read back from `localStorage` when present. */
    constructor (initialTasks: seq<Task>, initialSettings: Settings, storedHabits: Option<seq<Habit>>)
      ensures tasks == initialTasks && activeTask == None && habitCompletions == map[] && settings == initialSettings
      ensures storedHabits.Some? ==> habits == storedHabits.value
      ensures storedHabits.None? ==> |habits| == |initialSettings.habits|
      ensures storedHabits.None? ==> forall i :: 0 <= i < |habits| ==> habits[i] == initialSettings.habits[i].(completedDays := [])
    {
      tasks := initialTasks;
      activeTask := None;
      habitCompletions := map[];
      settings := initialSettings;
      habits := if storedHabits.Some? then storedHabits.value
        else seq(|initialSettings.habits|, i requires 0 <= i < |initialSettings.habits| => initialSettings.habits[i].(completedDays := []));
    }

    /** `handleTaskClick`. */
    method TaskClick(task: Task)
      modifies this`activeTask
      ensures activeTask == Some(task)
    {
      activeTask := Some(task);
    }

    /** `handleAddTask`: one new task at the end of the list, and it becomes the active one. */
    method AddTask(hour: int, id: string)
      modifies this`tasks, this`activeTask
      ensures tasks == old(tasks) + [NewTask(id, hour)]
      ensures activeTask == Some(NewTask(id, hour))
    {
      var t := NewTask(id, hour);
      tasks := tasks + [t];
      activeTask := Some(t);
    }

    /** `handleUpdateTask`: replaces the tasks with that id, and the active task when it has that id. */
    method UpdateTask(updated: Task)
      modifies this`tasks, this`activeTask
      ensures tasks == ReplaceById(old(tasks), updated)
      ensures old(activeTask).Some? && old(activeTask).value.id == updated.id ==> activeTask == Some(updated)
      ensures !(old(activeTask).Some? && old(activeTask).value.id == updated.id) ==> activeTask == old(activeTask)
    {
      tasks := ReplaceById(tasks, updated);
      if activeTask.Some? && activeTask.value.id == updated.id {
        activeTask := Some(updated);
      }
    }

    /** `handleToggleHabit`. */
    method ToggleHabit(habitId: string, date: string)
      modifies this`habitCompletions
      ensures habitCompletions == ToggleCompletion(old(habitCompletions), habitId, date)
    {
      habitCompletions := ToggleCompletion(habitCompletions, habitId, date);
    }

    /** `handleHabitsUpdate` (the write to `localStorage` is not modelled). */
    method HabitsUpdate(newHabits: seq<Habit>)
      modifies this`habits
      ensures habits == newHabits
    {
      habits := newHabits;
    }

    /** The settings dialog's `onUpdate`: the new settings, and the merged habits. */
    method SaveSettings(newSettings: Settings)
      modifies this`settings, this`habits
      ensures settings == newSettings
      ensures habits == MergeHabits(newSettings.habits, old(habits))
    {
      settings := newSettings;
      habits := MergeHabits(newSettings.habits, habits);
    }
  }
}
