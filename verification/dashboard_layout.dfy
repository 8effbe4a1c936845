/**
 * The dashboard shell (src/components/DashboardLayout.tsx): it keeps the
 * session history newest first, finds the active task by id, and turns
 * the Pomodoro switch and the habit grid into new settings for its parent.
 */
module DashboardLayout {
  import opened Wrappers
  import opened Collections
  import opened Domain
  import Pomodoro
  import IndexPage

  /** `tasks.find(task => task.id === activeTaskId)`: the first task with that id; no id finds nothing. */
  function ActiveTask(tasks: seq<Task>, activeTaskId: Option<string>): (r: Option<Task>)
    ensures activeTaskId.None? ==> r.None?
    ensures activeTaskId.Some? ==> (r.None? <==> forall i :: 0 <= i < |tasks| ==> tasks[i].id != activeTaskId.value)
    ensures r.Some? ==> r.value in tasks && r.value.id == activeTaskId.value
    ensures r.Some? ==> exists k :: 0 <= k < |tasks| && tasks[k] == r.value && forall j :: 0 <= j < k ==> tasks[j].id != activeTaskId.value
  {
    match activeTaskId
    case None => None
    case Some(id) => Find(tasks, IndexPage.HasId(id))
  }

  /** After the page saves an edit of the active task, the shell shows the edited task. */
  lemma ActiveTaskFollowsUpdate(tasks: seq<Task>, updated: Task)
    requires exists i :: 0 <= i < |tasks| && tasks[i].id == updated.id
    ensures ActiveTask(IndexPage.ReplaceById(tasks, updated), Some(updated.id)) == Some(updated)
  {
    IndexPage.ReplaceThenFind(tasks, updated);
  }

  /** The Pomodoro props the shell passes down from the settings. */
  function TimerConfig(s: Settings): (c: Pomodoro.Config)
    ensures c.workDuration == s.workDuration && c.shortBreakDuration == s.shortBreakDuration
    ensures c.longBreakDuration == s.longBreakDuration && c.totalCycles == s.pomodoroCount
    ensures c.autoStartBreaks == s.autoStartBreaks
  {
    Pomodoro.Config(s.workDuration, s.shortBreakDuration, s.longBreakDuration, s.pomodoroCount, s.autoStartBreaks)
  }

  /** `handleAutoStartChange`: the settings with only `autoStartBreaks` replaced. */
  function AutoStartChanged(s: Settings, value: bool): (r: Settings)
    ensures r.autoStartBreaks == value && r.(autoStartBreaks := s.autoStartBreaks) == s
  {
    s.(autoStartBreaks := value)
  }

  /** Flipping the switch changes only the timer's auto-start, never a duration or the round length. */
  lemma AutoStartKeepsDurations(s: Settings, value: bool)
    ensures TimerConfig(AutoStartChanged(s, value)) == TimerConfig(s).(autoStartBreaks := value)
  {
  }

  /** The habit grid's `onHabitUpdate`: the settings with only `habits` replaced. */
  function HabitsUpdated(s: Settings, habits: seq<Habit>): (r: Settings)
    ensures r.habits == habits && r.(habits := s.habits) == s
  {
    s.(habits := habits)
  }

  class Dashboard {
    /** `localSubmissions`, newest first. */
    var localSubmissions: seq<Submission>

    constructor (submissions: seq<Submission>)
      ensures localSubmissions == submissions
    {
      localSubmissions := submissions;
    }

    /**
     * `handlePomodoroComplete`: the new record goes first; the parent's
     * `onSubmissionAdd`, when given, receives that same record.
     */
    method PomodoroComplete(s: Submission, hasListener: bool) returns (forwarded: Option<Submission>)
      modifies this
      ensures localSubmissions == [s] + old(localSubmissions)
      ensures forwarded == if hasListener then Some(s) else None
    {
      localSubmissions := [s] + localSubmissions;
      forwarded := if hasListener then Some(s) else None;
    }

    /** The history dialog's Clear History. */
    method ClearHistory()
      modifies this
      ensures localSubmissions == []
    {
      localSubmissions := [];
    }
  }
}
