/**
 * The hour-by-hour day view (src/components/DailyCalendar.tsx): which hours
 * are listed (all 24, or the current one and its neighbours in focus
 * mode), the `HH:00` labels, the "time remaining" text, the task shown in
 * each hour, and the inline rename of a task's title.
 */
module DailyCalendar {
  import opened Wrappers
  import opened Strings
  import opened Collections
  import opened Domain
  import TaskEditor

  predicate Ascending(hs: seq<int>) {
    forall i, j :: 0 <= i < j < |hs| ==> hs[i] < hs[j]
  }

  /** `Array.from({ length: 24 }, (_, i) => i)`. */
  function AllHours(): (hs: seq<int>)
    ensures |hs| == 24 && forall i :: 0 <= i < 24 ==> hs[i] == i
  {
    seq(24, i requires 0 <= i < 24 => i)
  }

  /**
   * `visibleHours`: every hour, or in focus mode the hours next to and at
   * the current one that exist on the clock.
   */
  function VisibleHours(focusMode: bool, currentHour: int): (hs: seq<int>)
    requires 0 <= currentHour < 24
    ensures !focusMode ==> hs == AllHours()
    ensures Ascending(hs)
    ensures focusMode ==> forall h :: h in hs <==> 0 <= h < 24 && currentHour - 1 <= h <= currentHour + 1
    ensures focusMode ==> |hs| == if currentHour == 0 || currentHour == 23 then 2 else 3
  {
    if !focusMode then AllHours()
    else
      var window := [currentHour - 1, currentHour, currentHour + 1];
      if currentHour == 0 then assert window[1..] == [0, 1]; window[1..]
      else if currentHour == 23 then assert window[..2] == [22, 23]; window[..2]
      else window
  }

  /** `formatHour`: the hour padded to two digits, then `:00`. */
  function FormatHour(hour: nat): (r: string)
    ensures hour < 100 ==> |r| == 5
    ensures |r| >= 3 && r[|r| - 3..] == ":00"
  {
    PadStart2(Decimal(hour)) + ":00"
  }

  /** Every hour of the day gets its own five-character label, reading back as that hour. */
  lemma FormatHourReadsBack(hour: nat)
    requires hour < 24
    ensures var r := FormatHour(hour); AllDigits(r[..2]) && DigitsValue(r[..2]) == hour
  {
    PaddedDecimal(hour);
    assert FormatHour(hour)[..2] == PadStart2(Decimal(hour));
  }

  /** `60 - getMinutes()`: whole minutes left in the current hour, counting the current one. */
  function RemainingMinutes(currentMinute: nat): (m: int)
    requires currentMinute < 60
    ensures 1 <= m <= 60
  {
    60 - currentMinute
  }

  /** `formatRemainingTime`. */
  function FormatRemainingTime(minutes: nat): (r: string)
    ensures r == "1 hour" <==> minutes == 60
    ensures r == "1 minute" <==> minutes == 1
    ensures minutes != 60 && minutes != 1 ==> r == Decimal(minutes) + " minutes"
  {
    if minutes == 60 then "1 hour"
    else if minutes == 1 then "1 minute"
    else
      var r := Decimal(minutes) + " minutes";
      assert r[|r| - 1] == 's';
      r
  }

  function AtHour(hour: int): Task -> bool {
    (t: Task) => t.hour == hour
  }

  /** `tasks.find(t => t.hour === hour)`: the first task of that hour, if any. */
  function TaskAtHour(tasks: seq<Task>, hour: int): (r: Option<Task>)
    ensures r.None? <==> forall i :: 0 <= i < |tasks| ==> tasks[i].hour != hour
    ensures r.Some? ==> r.value.hour == hour
    ensures r.Some? ==> exists i :: 0 <= i < |tasks| && tasks[i] == r.value && (forall j :: 0 <= j < i ==> tasks[j].hour != hour)
  {
    var k := FirstIndex(tasks, AtHour(hour));
    if k < |tasks| then Some(tasks[k]) else None
  }

  /** The inline rename of a task's title. */
  class TitleEdit {
    var editingTaskId: Option<string>
    var editValue: string

    constructor ()
      ensures editingTaskId == None && editValue == ""
    {
      editingTaskId := None;
      editValue := "";
    }

    method Input(v: string)
      modifies this`editValue
      ensures editValue == v
    {
      editValue := v;
    }

    /**
     * `handleTaskEdit(task, newTitle)`: a title with text saves the task
     * with the trimmed title and closes the input; no title, or a blank
     * one, opens the input on the task's current title.
     */
    method TaskEdit(task: Task, newTitle: Option<string>) returns (saved: Option<Task>)
      modifies this
      ensures newTitle.Some? && !AllSpace(newTitle.value) ==>
        saved == Some(task.(title := Trim(newTitle.value))) && editingTaskId == None && editValue == ""
      ensures !(newTitle.Some? && !AllSpace(newTitle.value)) ==>
        saved == None && editingTaskId == Some(task.id) && editValue == task.title
    {
      if newTitle.Some? && Trim(newTitle.value) != [] {
        saved := Some(task.(title := Trim(newTitle.value)));
        editingTaskId := None;
        editValue := "";
      } else {
        saved := None;
        editingTaskId := Some(task.id);
        editValue := task.title;
      }
    }

    /** The check button and Enter: save the text when it is not blank. */
    method Confirm(task: Task) returns (saved: Option<Task>)
      modifies this
      ensures AllSpace(old(editValue)) ==> saved == None && editingTaskId == old(editingTaskId) && editValue == old(editValue)
      ensures !AllSpace(old(editValue)) ==>
        saved == Some(task.(title := Trim(old(editValue)))) && editingTaskId == None && editValue == ""
    {
      if Trim(editValue) != [] {
        saved := TaskEdit(task, Some(editValue));
      } else {
        saved := None;
      }
    }

    /** The cross button and Escape: close the input and drop the text. */
    method Cancel()
      modifies this
      ensures editingTaskId == None && editValue == ""
    {
      editingTaskId := None;
      editValue := "";
    }

    /** `handleKeyDown`: Enter confirms, Escape cancels, any other key does nothing. */
    method KeyDown(key: string, task: Task) returns (saved: Option<Task>)
      modifies this
      ensures key == "Enter" && !AllSpace(old(editValue)) ==>
        saved == Some(task.(title := Trim(old(editValue)))) && editingTaskId == None && editValue == ""
      ensures key == "Escape" ==> saved == None && editingTaskId == None && editValue == ""
      ensures key != "Escape" && !(key == "Enter" && !AllSpace(old(editValue))) ==>
        saved == None && editingTaskId == old(editingTaskId) && editValue == old(editValue)
    {
      saved := None;
      if key == "Enter" {
        saved := Confirm(task);
      } else if key == "Escape" {
        Cancel();
      }
    }
  }

  /** The calendar's rename commits titles by the same rule as the task editor's title field. */
  lemma RenameAgreesWithEditor(task: Task, v: string)
    ensures !AllSpace(v) <==> TaskEditor.TitleChange(task, v).Some?
    ensures !AllSpace(v) ==> TaskEditor.TitleChange(task, v) == Some(task.(title := Trim(v)))
  {
  }
}
