/**
 * The records the dashboard passes between components (src/types/index.ts).
 * Optional TypeScript fields become `Option`; numbers that are minutes,
 * counts or hours are integers.
 */
module Domain {
  import opened Wrappers

  /** A task in one hour slot of the day; `content` is its checkbox-list text. */
  datatype Task = Task(id: string, title: string, hour: int, completed: bool, content: string, notes: Option<string>)

  /** A weekly habit; `completedDays` holds Monday-based weekday indices. */
  datatype Habit = Habit(id: string, name: string, completedDays: seq<int>)

  datatype Sounds = Sounds(start: Option<string>, focus: Option<string>)

  datatype Settings = Settings(
    workDuration: nat,
    shortBreakDuration: nat,
    longBreakDuration: nat,
    pomodoroCount: nat,
    autoStartBreaks: bool,
    habits: seq<Habit>,
    dayStartQuestions: seq<string>,
    dayEndQuestions: seq<string>,
    darkMode: bool,
    notifications: bool,
    notificationSounds: Option<Sounds>,
    webhookUrl: Option<string>)

  /** The record of one finished focus session: answers in `content` pair with `questions` by index. */
  datatype Submission = Submission(
    id: string,
    title: string,
    content: seq<string>,
    timestamp: string,
    duration: int,
    completed: bool,
    questions: seq<string>,
    taskContent: Option<string>)
}
