/**
 * The Pomodoro phase engine (src/components/PomodoroTimer.tsx).
 *
 * The timer alternates work sessions with short breaks; after the last work
 * session of a round it takes a long break and starts counting again at 1.
 * Each handler and effect of the component is first given as a function on
 * a `Timer` value, where the invariant and its preservation are proved; the
 * class `PomodoroTimer` then holds the component's state in fields and its
 * methods update them in place, each tied to the function it performs.
 */
module Pomodoro {
  import opened Wrappers
  import opened Domain

  datatype Mode = Work | ShortBreak | LongBreak

  /** The component's props that the engine reads. Durations are in minutes. */
  datatype Config = Config(
    workDuration: nat,
    shortBreakDuration: nat,
    longBreakDuration: nat,
    totalCycles: nat,
    autoStartBreaks: bool)

  /** The four state fields: the phase, the seconds left in it, the session number and whether the clock runs. */
  datatype Timer = Timer(mode: Mode, timeLeft: int, currentCycle: int, isRunning: bool)

  /** The notification sounds `playSound` is asked for. */
  datatype Cue = StartCue | CompleteCue

  /** What one run of the timer effect does besides changing the state. */
  datatype Expiry = Expiry(timer: Timer, cue: Option<Cue>, opensReflection: bool)

  // ---------------------------------------------------------------------
  // The invariant

  /** The session number lies in 1..totalCycles, a short break is never taken after the last session, and no time is negative. */
  predicate Inv(c: Config, t: Timer) {
    && 1 <= t.currentCycle <= c.totalCycles
    && (t.mode == ShortBreak ==> t.currentCycle < c.totalCycles)
    && t.timeLeft >= 0
  }

  /** What still holds after `totalCycles` is lowered under a running short break: only the range of the session number. */
  predicate WeakInv(c: Config, t: Timer) {
    1 <= t.currentCycle <= c.totalCycles && t.timeLeft >= 0
  }

  /** The state the component mounts with. */
  function Initial(c: Config): (t: Timer)
    ensures c.totalCycles >= 1 ==> Inv(c, t)
    ensures t.mode == Work && !t.isRunning && t.timeLeft == c.workDuration * 60
  {
    Timer(Work, c.workDuration * 60, 1, false)
  }

  // ---------------------------------------------------------------------
  // Phase changes shared by expiry and skip

  /** Leaving a work session: a long break after the last session of the round, a short one otherwise; the session number stays. */
  function LeaveWork(c: Config, t: Timer): (r: Timer)
    ensures r.currentCycle == t.currentCycle && r.isRunning == t.isRunning
    ensures t.currentCycle == c.totalCycles ==> r.mode == LongBreak && r.timeLeft == c.longBreakDuration * 60
    ensures t.currentCycle != c.totalCycles ==> r.mode == ShortBreak && r.timeLeft == c.shortBreakDuration * 60
  {
    if t.currentCycle == c.totalCycles then t.(mode := LongBreak, timeLeft := c.longBreakDuration * 60)
    else t.(mode := ShortBreak, timeLeft := c.shortBreakDuration * 60)
  }

  /** Leaving a break: back to work for a full session; a long break restarts the count at 1, a short one moves to the next session. */
  function LeaveBreak(c: Config, t: Timer): (r: Timer)
    ensures r.mode == Work && r.timeLeft == c.workDuration * 60 && r.isRunning == t.isRunning
    ensures t.mode == LongBreak ==> r.currentCycle == 1
    ensures t.mode != LongBreak ==> r.currentCycle == t.currentCycle + 1
  {
    t.(mode := Work, timeLeft := c.workDuration * 60,
       currentCycle := if t.mode == LongBreak then 1 else t.currentCycle + 1)
  }

  // ---------------------------------------------------------------------
  // Handlers and effects

  /** One callback of the one-second interval, which exists only while the clock runs with time left. */
  function Tick(t: Timer): (r: Timer)
    ensures t.isRunning && t.timeLeft > 0 ==> r == t.(timeLeft := t.timeLeft - 1)
    ensures !(t.isRunning && t.timeLeft > 0) ==> r == t
    ensures t.timeLeft >= 0 ==> r.timeLeft >= 0
  {
    if t.isRunning && t.timeLeft > 0 then t.(timeLeft := t.timeLeft - 1) else t
  }

  /**
   * The expiry branch of the timer effect, taken whenever the time left is
   * zero and the interval is not armed: the phase ends, a sound is played
   * (`complete` after work, `start` after a break), the reflection prompt
   * opens after work, and the clock runs on exactly when breaks auto-start.
   */
  function Expire(c: Config, t: Timer): (e: Expiry)
    ensures t.timeLeft != 0 ==> e == Expiry(t, None, false)
    ensures t.timeLeft == 0 && t.mode == Work ==>
      e == Expiry(LeaveWork(c, t).(isRunning := c.autoStartBreaks), Some(CompleteCue), true)
    ensures t.timeLeft == 0 && t.mode != Work ==>
      e == Expiry(LeaveBreak(c, t).(isRunning := c.autoStartBreaks), Some(StartCue), false)
  {
    if t.isRunning && t.timeLeft > 0 then Expiry(t, None, false)
    else if t.timeLeft == 0 then
      if t.mode == Work then
        Expiry(LeaveWork(c, t.(isRunning := false)).(isRunning := if c.autoStartBreaks then true else false), Some(CompleteCue), true)
      else
        Expiry(LeaveBreak(c, t.(isRunning := false)).(isRunning := if c.autoStartBreaks then true else false), Some(StartCue), false)
    else Expiry(t, None, false)
  }

  /** `skipPhase`: the phase ends as on expiry, but the clock stops and no sound or prompt follows. */
  function Skip(c: Config, t: Timer): (r: Timer)
    ensures !r.isRunning
    ensures t.mode == Work ==> r == LeaveWork(c, t).(isRunning := false)
    ensures t.mode != Work ==> r == LeaveBreak(c, t).(isRunning := false)
  {
    var stopped := t.(isRunning := false);
    if t.mode == Work then LeaveWork(c, stopped) else LeaveBreak(c, stopped)
  }

  /** `resetTimer`: a fresh first work session, stopped, whatever the state was. */
  function Reset(c: Config, t: Timer): (r: Timer)
    ensures r == Initial(c)
  {
    t.(isRunning := false, mode := Work, currentCycle := 1, timeLeft := c.workDuration * 60)
  }

  /** `toggleTimer`: flips only the running flag; the `start` sound plays when the clock is started. */
  function Toggle(t: Timer): (r: (Timer, Option<Cue>))
    ensures r.0 == t.(isRunning := !t.isRunning)
    ensures r.1 == if t.isRunning then None else Some(StartCue)
  {
    (t.(isRunning := !t.isRunning), if !t.isRunning then Some(StartCue) else None)
  }

  /** The cycle-clamp effect: a session number above the total goes back to 1. */
  function Clamp(c: Config, t: Timer): (r: Timer)
    ensures t.currentCycle > c.totalCycles ==> r == t.(currentCycle := 1)
    ensures t.currentCycle <= c.totalCycles ==> r == t
  {
    if t.currentCycle > c.totalCycles then t.(currentCycle := 1) else t
  }

  /** The work-duration effect: whenever the work duration changes the time left becomes a full work session, in every mode. */
  function WorkDurationChanged(c: Config, t: Timer): (r: Timer)
    ensures r == t.(timeLeft := c.workDuration * 60)
  {
    t.(timeLeft := c.workDuration * 60)
  }

  // ---------------------------------------------------------------------
  // The invariant is kept

  lemma TickKeepsInv(c: Config, t: Timer)
    requires Inv(c, t)
    ensures Inv(c, Tick(t))
  {
  }

  lemma LeaveWorkKeepsInv(c: Config, t: Timer)
    requires Inv(c, t) && t.mode == Work
    ensures Inv(c, LeaveWork(c, t))
  {
  }

  lemma LeaveBreakKeepsInv(c: Config, t: Timer)
    requires Inv(c, t) && t.mode != Work
    ensures Inv(c, LeaveBreak(c, t))
  {
  }

  lemma ExpireKeepsInv(c: Config, t: Timer)
    requires Inv(c, t)
    ensures Inv(c, Expire(c, t).timer)
  {
    if t.timeLeft == 0 {
      if t.mode == Work {
        LeaveWorkKeepsInv(c, t);
      } else {
        LeaveBreakKeepsInv(c, t);
      }
    }
  }

  lemma SkipKeepsInv(c: Config, t: Timer)
    requires Inv(c, t)
    ensures Inv(c, Skip(c, t))
  {
    if t.mode == Work {
      LeaveWorkKeepsInv(c, t);
    } else {
      LeaveBreakKeepsInv(c, t);
    }
  }

  lemma ResetAndToggleKeepInv(c: Config, t: Timer)
    requires c.totalCycles >= 1 && Inv(c, t)
    ensures Inv(c, Reset(c, t)) && Inv(c, Toggle(t).0)
  {
  }

  /** Resetting twice is resetting once. */
  lemma ResetIdempotent(c: Config, t: Timer)
    ensures Reset(c, Reset(c, t)) == Reset(c, t)
  {
  }

  /** Toggling twice gives the state back, and exactly one of the two toggles plays the `start` sound. */
  lemma ToggleTwice(t: Timer)
    ensures Toggle(Toggle(t).0).0 == t
    ensures (Toggle(t).1 == Some(StartCue)) != (Toggle(Toggle(t).0).1 == Some(StartCue))
  {
  }

  /** Under the invariant the clamp effect never fires: the engine keeps the session number in range on its own. */
  lemma ClampIdleUnderInv(c: Config, t: Timer)
    requires WeakInv(c, t)
    ensures Clamp(c, t) == t
  {
  }

  /**
   * When the total is changed to any `n >= 1`, the clamp brings the state
   * back into range; from there every skip or expiry followed by the clamp
   * stays in range, and leaving a work session restores the full invariant.
   */
  lemma ClampRestoresRange(c: Config, t: Timer, n: nat)
    requires n >= 1 && 1 <= t.currentCycle && t.timeLeft >= 0
    ensures WeakInv(c.(totalCycles := n), Clamp(c.(totalCycles := n), t))
  {
  }

  lemma WeakInvStep(c: Config, t: Timer)
    requires WeakInv(c, t)
    ensures WeakInv(c, Clamp(c, Skip(c, t)))
    ensures WeakInv(c, Clamp(c, Expire(c, t).timer))
    ensures WeakInv(c, Clamp(c, Tick(t)))
    ensures t.mode == Work ==> Inv(c, Clamp(c, Skip(c, t)))
    ensures t.mode == Work && t.timeLeft == 0 ==> Inv(c, Clamp(c, Expire(c, t).timer))
  {
  }

  // ---------------------------------------------------------------------
  // A round of sessions

  /** `n` skips in a row. */
  function Skips(c: Config, t: Timer, n: nat): Timer
    decreases n
  {
    if n == 0 then t else Skips(c, Skip(c, t), n - 1)
  }

  /**
   * From work session `k` of a round, skipping through the remaining
   * sessions and short breaks reaches the long break after exactly
   * `2 * (totalCycles - k) + 1` skips, still at session `totalCycles`.
   */
  lemma {:induction false} RoundEndsInLongBreak(c: Config, t: Timer)
    requires Inv(c, t) && t.mode == Work
    ensures var r := Skips(c, t, 2 * (c.totalCycles - t.currentCycle) + 1);
      r.mode == LongBreak && r.currentCycle == c.totalCycles && r.timeLeft == c.longBreakDuration * 60
    decreases c.totalCycles - t.currentCycle
  {
    if t.currentCycle < c.totalCycles {
      var s1 := Skip(c, t);
      var s2 := Skip(c, s1);
      assert s1.mode == ShortBreak;
      assert s2.mode == Work && s2.currentCycle == t.currentCycle + 1;
      RoundEndsInLongBreak(c, s2);
      var n := 2 * (c.totalCycles - t.currentCycle) + 1;
      assert Skips(c, t, n) == Skips(c, s1, n - 1) == Skips(c, s2, n - 2);
    }
  }

  /** After the long break the next round starts at session 1. */
  lemma LongBreakStartsRound(c: Config, t: Timer)
    requires Inv(c, t) && t.mode == LongBreak
    ensures Skip(c, t) == Timer(Work, c.workDuration * 60, 1, false)
  {
  }

  // ---------------------------------------------------------------------
  // The reflection submission

  /** The three questions of the reflection form, as spelled in the component's source text. */
  function ReflectionQuestions(): seq<string> {
    [
      "Qu'as-tu accompli pendant cette session ?",
      "Quels obstacles as-tu rencontr\U{C3}\U{A9}s ?",
      "Comment pourrais-tu am\U{C3}\U{A9}liorer ta prochaine session ?"
    ]
  }

  /** `activeTask?.title || 'Focus Session'`. */
  function SessionTitle(activeTask: Option<Task>): (title: string)
    ensures title != ""
    ensures activeTask.Some? && activeTask.value.title != "" ==> title == activeTask.value.title
    ensures (activeTask.None? || activeTask.value.title == "") ==> title == "Focus Session"
  {
    if activeTask.Some? && activeTask.value.title != "" then activeTask.value.title else "Focus Session"
  }

  /**
   * `handleReflectionSubmit`'s record: the answers in form order, the work
   * duration in minutes, always completed, the three fixed questions, and
   * the active task's content when there is an active task. The id and the
   * time stamp are supplied by the caller.
   */
  function ReflectionSubmission(id: string, timestamp: string, activeTask: Option<Task>, answers: seq<string>, c: Config): (s: Submission)
    ensures s.id == id && s.timestamp == timestamp
    ensures s.title == SessionTitle(activeTask) && s.title != ""
    ensures s.content == answers && s.duration == c.workDuration && s.completed
    ensures s.questions == ReflectionQuestions() && |s.questions| == 3
    ensures s.taskContent == if activeTask.Some? then Some(activeTask.value.content) else None
  {
    Submission(id, SessionTitle(activeTask), answers, timestamp, c.workDuration, true, ReflectionQuestions(),
      if activeTask.Some? then Some(activeTask.value.content) else None)
  }

  // ---------------------------------------------------------------------
  // The component

  /**
   * The component's state. Each method is one handler or effect; those that
   * change the session number are followed by the clamp effect, which React
   * runs after the render in which the number changed.
   */
  class PomodoroTimer {
    var config: Config
    var mode: Mode
    var timeLeft: int
    var currentCycle: int
    var isRunning: bool
    var reflectionOpen: bool

    function State(): Timer
      reads this
    {
      Timer(mode, timeLeft, currentCycle, isRunning)
    }

    ghost predicate Valid()
      reads this
    {
      WeakInv(config, State())
    }

    method Assign(t: Timer)
      modifies this
      ensures State() == t && config == old(config) && reflectionOpen == old(reflectionOpen)
    {
      mode, timeLeft, currentCycle, isRunning := t.mode, t.timeLeft, t.currentCycle, t.isRunning;
    }

    constructor (c: Config)
      requires c.totalCycles >= 1
      ensures Valid() && Inv(c, State())
      ensures config == c && State() == Initial(c) && !reflectionOpen
    {
      config := c;
      mode, timeLeft, currentCycle, isRunning := Work, c.workDuration * 60, 1, false;
      reflectionOpen := false;
    }

    /** One second passes while the interval is armed. */
    method OnInterval()
      modifies this
      ensures State() == Tick(old(State()))
      ensures config == old(config) && reflectionOpen == old(reflectionOpen)
      ensures old(Valid()) ==> Valid()
      ensures old(Inv(config, State())) ==> Inv(config, State())
    {
      if isRunning && timeLeft > 0 {
        timeLeft := timeLeft - 1;
      }
    }

    /** The timer effect runs after a render; at zero it ends the phase and reports the sound it plays. */
    method Settle() returns (cue: Option<Cue>)
      modifies this
      ensures var e := Expire(old(config), old(State()));
        && State() == (if old(timeLeft) == 0 then Clamp(config, e.timer) else old(State()))
        && cue == e.cue
        && reflectionOpen == (old(reflectionOpen) || e.opensReflection)
      ensures config == old(config)
      ensures old(Valid()) ==> Valid()
      ensures old(Inv(config, State())) ==> Inv(config, State())
    {
      ExpireKeepsInvOrRange(config, State());
      ghost var e := Expire(config, State());
      cue := None;
      if !(isRunning && timeLeft > 0) && timeLeft == 0 {
        isRunning := false;
        if mode == Work {
          cue := Some(CompleteCue);
          reflectionOpen := true;
          if currentCycle == config.totalCycles {
            mode := LongBreak;
            timeLeft := config.longBreakDuration * 60;
          } else {
            mode := ShortBreak;
            timeLeft := config.shortBreakDuration * 60;
          }
        } else {
          cue := Some(StartCue);
          if mode == LongBreak {
            currentCycle := 1;
          } else {
            currentCycle := currentCycle + 1;
          }
          mode := Work;
          timeLeft := config.workDuration * 60;
        }
        if config.autoStartBreaks {
          isRunning := true;
        }
        assert State() == e.timer && cue == e.cue;
        ClampCycle();
      }
    }

    /** The Skip button. */
    method SkipPhase()
      modifies this
      ensures State() == Clamp(config, Skip(config, old(State())))
      ensures config == old(config) && reflectionOpen == old(reflectionOpen)
      ensures old(Valid()) ==> Valid()
      ensures old(Inv(config, State())) ==> Inv(config, State())
    {
      SkipKeepsInvOrRange(config, State());
      isRunning := false;
      if mode == Work {
        if currentCycle == config.totalCycles {
          mode := LongBreak;
          timeLeft := config.longBreakDuration * 60;
        } else {
          mode := ShortBreak;
          timeLeft := config.shortBreakDuration * 60;
        }
      } else {
        if mode == LongBreak {
          currentCycle := 1;
        } else {
          currentCycle := currentCycle + 1;
        }
        mode := Work;
        timeLeft := config.workDuration * 60;
      }
      ClampCycle();
    }

    /** The Reset button. */
    method ResetTimer()
      modifies this
      ensures State() == Initial(config) && config == old(config) && reflectionOpen == old(reflectionOpen)
      ensures config.totalCycles >= 1 ==> Inv(config, State())
    {
      isRunning := false;
      mode := Work;
      currentCycle := 1;
      timeLeft := config.workDuration * 60;
    }

    /** The Start/Pause button; reports the sound it plays. */
    method ToggleTimer() returns (cue: Option<Cue>)
      modifies this
      ensures (State(), cue) == Toggle(old(State()))
      ensures config == old(config) && reflectionOpen == old(reflectionOpen)
      ensures old(Valid()) ==> Valid()
      ensures old(Inv(config, State())) ==> Inv(config, State())
    {
      cue := if !isRunning then Some(StartCue) else None;
      isRunning := !isRunning;
    }

    /** The clamp effect. */
    method ClampCycle()
      modifies this`currentCycle
      ensures State() == Clamp(config, old(State()))
    {
      if currentCycle > config.totalCycles {
        currentCycle := 1;
      }
    }

    /**
     * New props: a changed work duration restarts the time left as a full
     * work session whatever the mode, and a new total is followed by the
     * clamp. Other props are only read at the next phase change.
     */
    method SetConfig(c: Config)
      requires c.totalCycles >= 1
      modifies this
      ensures config == c && reflectionOpen == old(reflectionOpen)
      ensures var t := if c.workDuration != old(config.workDuration) then WorkDurationChanged(c, old(State())) else old(State());
        State() == Clamp(c, t)
      ensures old(Valid()) || old(1 <= currentCycle && timeLeft >= 0) ==> Valid()
    {
      if c.workDuration != config.workDuration {
        timeLeft := c.workDuration * 60;
      }
      config := c;
      ClampCycle();
    }

    /** `handleReflectionSubmit`: builds the record handed to `onComplete` and closes the prompt. */
    method SubmitReflection(id: string, timestamp: string, activeTask: Option<Task>, answers: seq<string>) returns (s: Submission)
      modifies this`reflectionOpen
      ensures s == ReflectionSubmission(id, timestamp, activeTask, answers, config)
      ensures !reflectionOpen
    {
      s := ReflectionSubmission(id, timestamp, activeTask, answers, config);
      reflectionOpen := false;
    }
  }

  /** The phase change of an expiry keeps the range, and the full invariant, once followed by the clamp. */
  lemma ExpireKeepsInvOrRange(c: Config, t: Timer)
    ensures WeakInv(c, t) ==> WeakInv(c, Clamp(c, Expire(c, t).timer))
    ensures Inv(c, t) ==> Inv(c, Clamp(c, Expire(c, t).timer))
  {
    if Inv(c, t) {
      ExpireKeepsInv(c, t);
    }
  }

  lemma SkipKeepsInvOrRange(c: Config, t: Timer)
    ensures WeakInv(c, t) ==> WeakInv(c, Clamp(c, Skip(c, t)))
    ensures Inv(c, t) ==> Inv(c, Clamp(c, Skip(c, t)))
  {
    if Inv(c, t) {
      SkipKeepsInv(c, t);
    }
  }
}
