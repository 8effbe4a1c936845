/**
 * The task-content editor (src/components/task-editor/TaskContent.tsx).
 * The content is split on '\n' into rows; a row is a checkbox row when
 * `CheckboxLine.Parse` reads it, and a plain row otherwise. A key press on a
 * row copies the row list, splices or rewrites it, and hands the re-joined
 * text to `onContentChange`; leaving a row hands the rebuilt row to
 * `onLineEdit`.
 */
module TaskContent {
  import opened Wrappers
  import opened Strings
  import opened CheckboxLine

  /** The key that was pressed; `key` is the DOM `KeyboardEvent.key` string. */
  datatype KeyEvent = KeyEvent(key: string, ctrlOrMeta: bool, shift: bool)

  /** The indent a row passes to the key handler: group 1 of the match, or "" for a plain row. */
  function RowIndent(line: string): (indent: string)
    ensures AllSpace(indent)
    ensures Parse(line).None? ==> indent == ""
  {
    if Parse(line).Some? then Parse(line).value.indent else ""
  }

  /** `${indent}- [ ] `: an empty unchecked item at the given indent. */
  function NewItem(indent: string): string {
    indent + "- [ ] "
  }

  function InsertAfter(lines: seq<string>, index: nat, line: string): (r: seq<string>)
    requires index < |lines|
    ensures |r| == |lines| + 1 && r[index + 1] == line
    ensures r[..index + 1] == lines[..index + 1] && r[index + 2..] == lines[index + 1..]
  {
    lines[..index + 1] + [line] + lines[index + 1..]
  }

  function RemoveAt(lines: seq<string>, index: nat): (r: seq<string>)
    requires index < |lines|
    ensures |r| == |lines| - 1
    ensures r[..index] == lines[..index] && r[index..] == lines[index + 1..]
  {
    lines[..index] + lines[index + 1..]
  }

  /**
   * The row list a key press on row `index` produces, or `None` when the
   * handler emits nothing. `typed` is the row's current editable text.
   * Every edit inserts one row after the target, rewrites the target, or
   * removes the target; no other row moves or changes.
   */
  function KeyEdit(lines: seq<string>, index: nat, ev: KeyEvent, typed: string): (r: Option<seq<string>>)
    requires index < |lines|
    ensures r.Some? && |r.value| == |lines| + 1 ==>
      r.value[..index + 1] == lines[..index + 1] && r.value[index + 2..] == lines[index + 1..]
    ensures r.Some? && |r.value| == |lines| ==>
      forall j :: 0 <= j < |lines| && j != index ==> r.value[j] == lines[j]
    ensures r.Some? && |r.value| == |lines| - 1 ==> r.value == lines[..index] + lines[index + 1..]
    ensures r.Some? ==> |lines| - 1 <= |r.value| <= |lines| + 1
  {
    var line := lines[index];
    var indent := RowIndent(line);
    var isCheckbox := Parse(line).Some?;
    if ev.ctrlOrMeta && ev.key == "Enter" then
      Some(InsertAfter(lines, index, NewItem(indent)))
    else if ev.ctrlOrMeta && ev.key == "a" then
      None
    else if ev.key == "Enter" then
      Some(InsertAfter(lines, index, if isCheckbox then NewItem(indent) else ""))
    else if ev.key == "Tab" then
      if ev.shift then
        if |line| >= 2 && line[..2] == "  " then Some(lines[index := line[2..]]) else None
      else if isCheckbox then
        Some(lines[index := "  " + line])
      else
        Some(lines[index := NewItem(indent) + line])
    else if ev.key == "Backspace" then
      if Trim(typed) == [] then Some(RemoveAt(lines, index)) else None
    else
      None
  }

  /**
   * `handleKeyDown`: splits `content` into rows, splices or rewrites the
   * row list and returns what it passes to `onContentChange`, or `None` when it
   * passes nothing.
   */
  method HandleKeyDown(content: string, index: nat, ev: KeyEvent, typed: string) returns (emitted: Option<string>)
    requires index < |Split(content)|
    ensures var e := KeyEdit(Split(content), index, ev, typed);
      emitted == if e.Some? then Some(Join(e.value)) else None
  {
    var newLines := Split(content);
    var currentLine := newLines[index];
    var indent := RowIndent(currentLine);
    var isCheckbox := Parse(currentLine).Some?;
    emitted := None;
    if ev.ctrlOrMeta && ev.key == "Enter" {
      newLines := InsertAfter(newLines, index, NewItem(indent));
      emitted := Some(Join(newLines));
      return;
    }
    if ev.ctrlOrMeta && ev.key == "a" {
      return;
    }
    if ev.key == "Enter" {
      newLines := InsertAfter(newLines, index, if isCheckbox then NewItem(indent) else "");
      emitted := Some(Join(newLines));
    } else if ev.key == "Tab" {
      if ev.shift {
        if |currentLine| >= 2 && currentLine[..2] == "  " {
          newLines := newLines[index := currentLine[2..]];
          emitted := Some(Join(newLines));
        }
      } else if isCheckbox {
        newLines := newLines[index := "  " + currentLine];
        emitted := Some(Join(newLines));
      } else {
        newLines := newLines[index := NewItem(indent) + currentLine];
        emitted := Some(Join(newLines));
      }
    } else if ev.key == "Backspace" {
      if Trim(typed) == [] {
        newLines := RemoveAt(newLines, index);
        emitted := Some(Join(newLines));
      }
    }
  }

  // ---------------------------------------------------------------------
  // What each key does to the rows

  /** The emitted text splits back into exactly the edited rows (an emptied list reads back as one empty row). */
  lemma KeyEditRoundTrip(content: string, index: nat, ev: KeyEvent, typed: string)
    requires index < |Split(content)|
    requires KeyEdit(Split(content), index, ev, typed).Some?
    ensures var rows := KeyEdit(Split(content), index, ev, typed).value;
      Split(Join(rows)) == Relines(rows)
  {
    var rows := KeyEdit(Split(content), index, ev, typed).value;
    EditedRowsHaveNoNewline(Split(content), index, ev, typed);
    SplitJoinAny(rows);
  }

  /** No edit brings a newline into a row, so the rows stay rows. */
  lemma EditedRowsHaveNoNewline(lines: seq<string>, index: nat, ev: KeyEvent, typed: string)
    requires index < |lines| && AllNoNewline(lines)
    requires KeyEdit(lines, index, ev, typed).Some?
    ensures AllNoNewline(KeyEdit(lines, index, ev, typed).value)
  {
    var line := lines[index];
    var rows := KeyEdit(lines, index, ev, typed).value;
    assert NoNewline(line);
    var indent := RowIndent(line);
    assert NoNewline(indent) by {
      if Parse(line).Some? {
        assert line[..|indent|] == indent;
      }
    }
    if |rows| == |lines| + 1 {
      var added := rows[index + 1];
      assert added == "" || added == NewItem(indent);
      InsertedRows(lines, index, added);
    } else if |rows| == |lines| {
      var changed := rows[index];
      assert |line| >= 2 ==> forall c :: c in line[2..] ==> c in line;
      assert NoNewline(changed);
      assert rows == lines[index := changed];
    } else {
      assert rows == RemoveAt(lines, index);
      assert forall j :: 0 <= j < |rows| ==> rows[j] == lines[if j < index then j else j + 1];
    }
  }

  lemma InsertedRows(lines: seq<string>, index: nat, added: string)
    requires index < |lines| && AllNoNewline(lines) && NoNewline(added)
    ensures AllNoNewline(InsertAfter(lines, index, added))
  {
    var rows := InsertAfter(lines, index, added);
    assert forall j :: 0 <= j < |rows| && j != index + 1 ==> rows[j] == lines[if j <= index then j else j - 1];
  }

  /** Ctrl/Cmd+Enter on any row, or Enter on a checkbox row, adds an empty unchecked item at the row's indent below it. */
  lemma EnterAddsItem(lines: seq<string>, index: nat, ev: KeyEvent, typed: string)
    requires index < |lines|
    requires ev.key == "Enter" && (ev.ctrlOrMeta || Parse(lines[index]).Some?)
    ensures KeyEdit(lines, index, ev, typed) == Some(InsertAfter(lines, index, NewItem(RowIndent(lines[index]))))
    ensures Parse(NewItem(RowIndent(lines[index]))).Some?
    ensures Parse(NewItem(RowIndent(lines[index]))).value.indent == RowIndent(lines[index])
    ensures Parse(NewItem(RowIndent(lines[index]))).value.state == ' '
  {
    var indent := RowIndent(lines[index]);
    assert NewItem(indent) == Compose(indent, ' ', "");
    ComposeParses(indent, ' ', "");
  }

  /** Plain Enter on a plain row adds an empty row below it. */
  lemma EnterOnPlainAddsEmptyRow(lines: seq<string>, index: nat, ev: KeyEvent, typed: string)
    requires index < |lines|
    requires ev.key == "Enter" && !ev.ctrlOrMeta && Parse(lines[index]).None?
    ensures KeyEdit(lines, index, ev, typed) == Some(InsertAfter(lines, index, ""))
  {
  }

  /** Shift+Tab removes the first two characters exactly when the row starts with two spaces, and emits nothing otherwise. */
  lemma ShiftTabOutdents(lines: seq<string>, index: nat, typed: string)
    requires index < |lines|
    ensures var r := KeyEdit(lines, index, KeyEvent("Tab", false, true), typed);
      && (r.Some? <==> |lines[index]| >= 2 && lines[index][..2] == "  ")
      && (r.Some? ==> r.value == lines[index := lines[index][2..]] && "  " + r.value[index] == lines[index])
  {
    var line := lines[index];
    if |line| >= 2 && line[..2] == "  " {
      assert "  " + line[2..] == line[..2] + line[2..];
    }
  }

  /** Tab on a checkbox row indents it by two spaces; Shift+Tab afterwards gives the original rows back. */
  lemma TabThenShiftTab(lines: seq<string>, index: nat, typed: string)
    requires index < |lines| && Parse(lines[index]).Some?
    ensures var tabbed := KeyEdit(lines, index, KeyEvent("Tab", false, false), typed);
      && tabbed == Some(lines[index := "  " + lines[index]])
      && Parse(tabbed.value[index]).Some?
      && KeyEdit(tabbed.value, index, KeyEvent("Tab", false, true), typed) == Some(lines)
  {
    var line := lines[index];
    IndentParses(line);
    var line' := "  " + line;
    assert line'[..2] == "  " && line'[2..] == line;
    assert lines[index := line'][index := line] == lines;
  }

  /** Tab on a plain row turns it into an unchecked checkbox whose label is the old text. */
  lemma TabMakesCheckbox(lines: seq<string>, index: nat, typed: string)
    requires index < |lines| && Parse(lines[index]).None?
    requires NoLineTerminator(lines[index]) && lines[index] != [] && !IsSpace(lines[index][0])
    ensures var r := KeyEdit(lines, index, KeyEvent("Tab", false, false), typed);
      && r == Some(lines[index := "- [ ] " + lines[index]])
      && Parse(r.value[index]).Some?
      && Parse(r.value[index]).value.state == ' '
      && Parse(r.value[index]).value.labelText == lines[index]
  {
    var line := lines[index];
    assert NewItem("") == "- [ ] " == ['-', ' ', '[', ' ', ']', ' '];
    assert NewItem("") + line == Compose("", ' ', line);
    ComposeParses("", ' ', line);
  }

  /** Backspace deletes the row exactly when its text is blank, and leaves everything alone otherwise. */
  lemma BackspaceDeletesBlankRow(lines: seq<string>, index: nat, ev: KeyEvent, typed: string)
    requires index < |lines|
    requires ev.key == "Backspace" && !(ev.ctrlOrMeta && ev.key == "a")
    ensures KeyEdit(lines, index, ev, typed) == if AllSpace(typed) then Some(RemoveAt(lines, index)) else None
  {
  }

  /** Ctrl/Cmd+A, and any key the handler does not know, emit nothing. */
  lemma OtherKeysEmitNothing(lines: seq<string>, index: nat, ev: KeyEvent, typed: string)
    requires index < |lines|
    requires (ev.ctrlOrMeta && ev.key == "a") || ev.key !in {"Enter", "Tab", "Backspace"}
    ensures KeyEdit(lines, index, ev, typed) == None
  {
  }

  // ---------------------------------------------------------------------
  // Leaving a row: the text passed to onLineEdit

  /**
   * The row a blur hands to `onLineEdit`: a checkbox row is rebuilt from its
   * indent and state around the edited text; a plain row becomes the text.
   */
  function CommitRow(line: string, newText: string): (r: string)
    ensures Parse(line).None? ==> r == newText
    ensures Parse(line).Some? ==> r == Compose(Parse(line).value.indent, Parse(line).value.state, newText)
  {
    if Parse(line).Some? then Compose(Parse(line).value.indent, Parse(line).value.state, newText) else newText
  }

  /**
   * A rebuilt checkbox row is still a checkbox row with the same indent and
   * state, and its label is the edited text when that starts with a non-blank.
   */
  lemma CommitKeepsCheckbox(line: string, newText: string)
    requires Parse(line).Some? && NoLineTerminator(newText)
    ensures Parse(CommitRow(line, newText)).Some?
    ensures Parse(CommitRow(line, newText)).value.indent == Parse(line).value.indent
    ensures Parse(CommitRow(line, newText)).value.state == Parse(line).value.state
    ensures newText != [] && !IsSpace(newText[0]) ==> Parse(CommitRow(line, newText)).value.labelText == newText
  {
    var p := Parse(line).value;
    ComposeParses(p.indent, p.state, newText);
  }
}
