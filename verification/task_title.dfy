/**
 * The inline title editor (src/components/task-editor/TaskTitle.tsx): a
 * heading that turns into an input; blur and Enter commit the trimmed text
 * unless it is blank, Escape reverts to the current title.
 */
module TaskTitle {
  import opened Wrappers
  import opened Strings
  import opened Domain
  import TaskEditor

  class TitleEditor {
    /** The `title` prop. */
    var title: string
    var isEditing: bool
    var editValue: string

    constructor (t: string)
      ensures title == t && editValue == t && !isEditing
    {
      title := t;
      editValue := t;
      isEditing := false;
    }

    /** The effect on `[title]`: a new title replaces the text being edited. */
    method SyncTitle(t: string)
      modifies this`title, this`editValue
      ensures title == t && editValue == t
    {
      title := t;
      editValue := t;
    }

    /** A click on the heading. */
    method StartEditing()
      modifies this`isEditing
      ensures isEditing
    {
      isEditing := true;
    }

    /** Typing in the input. */
    method Input(v: string)
      modifies this`editValue
      ensures editValue == v
    {
      editValue := v;
    }

    /**
     * `handleSave`, run on blur and on Enter: a blank text emits nothing
     * and stays in edit mode; otherwise the trimmed text goes to
     * `onTitleChange` and editing ends.
     */
    method Save() returns (emitted: Option<string>)
      modifies this`isEditing
      ensures emitted.None? <==> AllSpace(editValue)
      ensures emitted.Some? ==> emitted.value == Trim(editValue) && !isEditing
      ensures emitted.None? ==> isEditing == old(isEditing)
    {
      var t := Trim(editValue);
      if t != [] {
        emitted := Some(t);
        isEditing := false;
      } else {
        emitted := None;
      }
    }

    /** Escape: the text reverts to the title and editing ends. */
    method Escape()
      modifies this`editValue, this`isEditing
      ensures editValue == title && !isEditing
    {
      editValue := title;
      isEditing := false;
    }
  }

  /**
   * The title the editor emits is saved as is by the task editor, which
   * trims it again: the task gets the text trimmed once, and a blank text
   * never reaches it.
   */
  lemma CommittedTitleSaved(task: Task, editValue: string)
    requires !AllSpace(editValue)
    ensures TaskEditor.TitleChange(task, Trim(editValue)) == Some(task.(title := Trim(editValue)))
  {
    TrimIdempotent(editValue);
  }
}
