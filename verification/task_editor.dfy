/**
 * The task editor (src/components/TaskEditor.tsx): committing a title,
 * saving new content, the two row callbacks of the content editor (which
 * split the content into an array, overwrite one slot and re-join), and the
 * Ctrl/Cmd+Enter and Tab shortcuts of the notes box, which splice a new
 * item into the task's content at the cursor.
 */
module TaskEditor {
  import opened Wrappers
  import opened Strings
  import opened Domain
  import opened CheckboxLine

  // ---------------------------------------------------------------------
  // Title and content

  /** `handleTitleChange`: a blank title saves nothing; otherwise the task is saved with the trimmed title. */
  function TitleChange(task: Task, newTitle: string): (saved: Option<Task>)
    ensures saved.None? <==> AllSpace(newTitle)
    ensures saved.Some? ==> saved.value.title == Trim(newTitle) && saved.value.(title := task.title) == task
  {
    if Trim(newTitle) != [] then Some(task.(title := Trim(newTitle))) else None
  }

  /** `handleContentChange`: the task is saved with only its content replaced. */
  function ContentChange(task: Task, content: string): (saved: Task)
    ensures saved.content == content && saved.(content := task.content) == task
  {
    task.(content := content)
  }

  /** The notes box's `onChange`: the task is saved with only its notes replaced. */
  function NotesChange(task: Task, notes: string): (saved: Task)
    ensures saved.notes == Some(notes) && saved.(notes := task.notes) == task
  {
    task.(notes := Some(notes))
  }

  // ---------------------------------------------------------------------
  // Row callbacks

  /** Copies the rows into a fresh array, as the handlers' `split` does. */
  method RowsArray(lines: seq<string>) returns (a: array<string>)
    ensures fresh(a) && a[..] == lines
  {
    a := new string[|lines|](i requires 0 <= i < |lines| => lines[i]);
  }

  /** `onLineEdit`: overwrites row `index` with the edited text and saves the re-joined content. */
  method EditLine(task: Task, index: nat, newText: string) returns (saved: Task)
    requires index < |Split(task.content)|
    ensures saved == task.(content := Join(Split(task.content)[index := newText]))
  {
    var lines := RowsArray(Split(task.content));
    lines[index] := newText;
    saved := ContentChange(task, Join(lines[..]));
  }

  /** A line edit without a newline replaces exactly that row: the row count and every other row are unchanged. */
  lemma EditLineOnlyThatRow(content: string, index: nat, newText: string)
    requires index < |Split(content)| && NoNewline(newText)
    ensures Split(Join(Split(content)[index := newText])) == Split(content)[index := newText]
  {
    var rows := Split(content)[index := newText];
    assert AllNoNewline(rows);
    SplitJoin(rows);
  }

  /** `[ ]` or `[x]` starts at position `i` of the line. */
  predicate TokenAt(line: string, i: nat) {
    i + 3 <= |line| && line[i] == '[' && (line[i + 1] == ' ' || line[i + 1] == 'x') && line[i + 2] == ']'
  }

  /** Where `/\[([ x])\]/` first matches in `line[from..]`, or `|line|` when it does not. */
  function FirstTokenFrom(line: string, from: nat): (i: nat)
    requires from <= |line|
    ensures from <= i <= |line|
    ensures i < |line| ==> TokenAt(line, i)
    ensures forall j :: from <= j < i ==> !TokenAt(line, j)
    decreases |line| - from
  {
    if from == |line| then |line|
    else if TokenAt(line, from) then from
    else FirstTokenFrom(line, from + 1)
  }

  function FirstToken(line: string): (i: nat)
    ensures i <= |line|
    ensures i < |line| ==> TokenAt(line, i)
    ensures forall j :: 0 <= j < i ==> !TokenAt(line, j)
  {
    FirstTokenFrom(line, 0)
  }

  /**
   * `line.replace(/\[([ x])\]/, `[${c}]`)`: the first `[ ]` or `[x]` becomes
   * `[c]`, which changes only the character between the brackets; a line
   * without such a token is unchanged.
   */
  function SetToken(line: string, c: char): (r: string)
    ensures FirstToken(line) == |line| ==> r == line
    ensures FirstToken(line) < |line| ==> r == line[FirstToken(line) + 1 := c]
  {
    var i := FirstToken(line);
    if i < |line| then
      var r := line[..i] + "[" + [c] + "]" + line[i + 3..];
      assert r == line[i + 1 := c];
      r
    else line
  }

  /** The state character `onCheckboxChange` writes. */
  function StateChar(checked: bool): char {
    if checked then 'x' else ' '
  }

  /** `onCheckboxChange`: rewrites the token of row `index` and saves the re-joined content. */
  method ChangeCheckbox(task: Task, index: nat, checked: bool) returns (saved: Task)
    requires index < |Split(task.content)|
    ensures var rows := Split(task.content);
      saved == task.(content := Join(rows[index := SetToken(rows[index], StateChar(checked))]))
  {
    var lines := RowsArray(Split(task.content));
    lines[index] := SetToken(lines[index], StateChar(checked));
    saved := ContentChange(task, Join(lines[..]));
  }

  /** Setting the token to `c` leaves the first token where it was, now holding `c`. */
  lemma SetTokenKeepsPosition(line: string, c: char)
    requires c == ' ' || c == 'x'
    ensures FirstToken(SetToken(line, c)) == FirstToken(line)
  {
    var i := FirstToken(line);
    var r := SetToken(line, c);
    if i < |line| {
      forall j | 0 <= j < i ensures !TokenAt(r, j) {
        assert !TokenAt(line, j);
        if j + 3 <= |line| && j + 2 < i {
          assert r[j..j + 3] == line[j..j + 3];
        }
      }
      assert TokenAt(r, i);
      FirstTokenAt(r, i);
    } else {
      assert r == line;
    }
  }

  lemma FirstTokenAt(line: string, i: nat)
    requires i < |line| && TokenAt(line, i)
    requires forall j :: 0 <= j < i ==> !TokenAt(line, j)
    ensures FirstToken(line) == i
  {
  }

  /** A checkbox change is idempotent and the last one wins. */
  lemma SetTokenLastWins(line: string, c: char, c': char)
    requires (c == ' ' || c == 'x') && (c' == ' ' || c' == 'x')
    ensures SetToken(SetToken(line, c'), c) == SetToken(line, c)
  {
    SetTokenKeepsPosition(line, c');
  }

  /** On a checkbox row the first token is the row's own box: only blanks and the dash come before it. */
  lemma FirstTokenOfCheckbox(line: string, p: Parts)
    requires Spells(line, p)
    ensures FirstToken(line) == BracketAt(p)
  {
    var b := BracketAt(p);
    forall j | 0 <= j < b ensures !TokenAt(line, j) {
      if j < |p.indent| {
        assert line[j] == line[..|p.indent|][j];
      } else if j > |p.indent| {
        assert line[j] == line[|p.indent| + 1..b][j - |p.indent| - 1];
      }
    }
    FirstTokenAt(line, b);
  }

  /** Writing another state character into the box of a reading gives a reading of the new line. */
  lemma SpellsWithState(line: string, p: Parts, c: char)
    requires Spells(line, p) && (c == ' ' || c == 'x')
    ensures Spells(line[BracketAt(p) + 1 := c], p.(state := c))
  {
    var b := BracketAt(p);
    var line' := line[b + 1 := c];
    assert line'[..|p.indent|] == line[..|p.indent|];
    assert line'[|p.indent| + 1..b] == line[|p.indent| + 1..b];
    assert line'[b + 3..] == line[b + 3..];
  }

  /** On a checkbox row the change sets exactly the row's state and keeps indent, gap, pad and label. */
  lemma SetTokenChecksBox(line: string, checked: bool)
    requires Parse(line).Some?
    ensures Parse(SetToken(line, StateChar(checked))) == Some(Parse(line).value.(state := StateChar(checked)))
  {
    var p := Parse(line).value;
    var c := StateChar(checked);
    FirstTokenOfCheckbox(line, p);
    var line' := SetToken(line, c);
    assert line' == line[BracketAt(p) + 1 := c];
    SpellsWithState(line, p, c);
    ParseCanonical(line', p.(state := c));
  }

  /** A checkbox change keeps the row count and every other row. */
  lemma ChangeCheckboxOnlyThatRow(content: string, index: nat, checked: bool)
    requires index < |Split(content)|
    ensures var rows := Split(content);
      Split(Join(rows[index := SetToken(rows[index], StateChar(checked))])) == rows[index := SetToken(rows[index], StateChar(checked))]
  {
    var rows := Split(content);
    var line := rows[index];
    assert NoNewline(SetToken(line, StateChar(checked))) by {
      assert NoNewline(line);
      var i := FirstToken(line);
      var r := SetToken(line, StateChar(checked));
      assert forall k :: 0 <= k < |r| ==> r[k] == line[k] || r[k] == StateChar(checked);
    }
    EditLineOnlyThatRow(content, index, SetToken(line, StateChar(checked)));
  }

  // ---------------------------------------------------------------------
  // The notes box shortcuts

  /** `s.substring(from)` for a non-negative index: clamped to the length. */
  function SubstringFrom(s: string, from: nat): (r: string)
    ensures SubstringTo(s, from) + r == s
  {
    if from <= |s| then s[from..] else []
  }

  /** `s.substring(0, to)` for a non-negative index: clamped to the length. */
  function SubstringTo(s: string, to: nat): (r: string)
    ensures |r| == if to <= |s| then to else |s|
    ensures r == s[..|r|]
  {
    if to <= |s| then s[..to] else s
  }

  /** `before.split('\n').pop() || ''`: the text after the last newline. */
  function LastLine(before: string): (r: string)
    ensures NoNewline(r)
    ensures |r| <= |before| && before[|before| - |r|..] == r
    ensures |r| < |before| ==> before[|before| - |r| - 1] == '\n'
  {
    var rows := Split(before);
    JoinSplit(before);
    LastRowIsSuffix(rows);
    rows[|rows| - 1]
  }

  lemma {:induction false} LastRowIsSuffix(rows: seq<string>)
    requires |rows| >= 1
    ensures var j := Join(rows); var last := rows[|rows| - 1];
      && |last| <= |j| && j[|j| - |last|..] == last
      && (|rows| >= 2 ==> |last| < |j| && j[|j| - |last| - 1] == '\n')
  {
    if |rows| >= 2 {
      var tail := rows[1..];
      var last := rows[|rows| - 1];
      LastRowIsSuffix(tail);
      assert tail[|tail| - 1] == last;
      var head := rows[0] + "\n";
      assert Join(rows) == head + Join(tail);
      var j := Join(rows);
      assert j[|j| - |last|..] == Join(tail)[|Join(tail)| - |last|..];
      if |tail| == 1 {
        assert Join(tail) == last;
        assert j[|j| - |last| - 1] == head[|head| - 1];
      } else {
        assert j[|j| - |last| - 1] == Join(tail)[|Join(tail)| - |last| - 1];
      }
    }
  }

  /** `currentLine.match(/^(\s*)/)?.[1] || ''`: the leading whitespace of the line. */
  function IndentOf(line: string): (indent: string)
    ensures AllSpace(indent) && |indent| <= |line| && line[..|indent|] == indent
    ensures |indent| < |line| ==> !IsSpace(line[|indent|])
  {
    line[..LeadingSpaces(line)]
  }

  /** What the shortcut writes: the new content and the cursor position it asks for. */
  datatype Splice = Splice(content: string, cursor: nat)

  /**
   * The Ctrl/Cmd+Enter (`nested == false`) and Tab (`nested == true`)
   * shortcuts: the selection is cut out of the task's content and replaced
   * by a newline, the indent of the line the cursor is on (two spaces more
   * for Tab) and an empty unchecked item. The selection offsets are those
   * of the notes box but are applied to the content.
   */
  function NewTodoSplice(content: string, selectionStart: nat, selectionEnd: nat, nested: bool): (r: Splice)
    ensures var before, after := SubstringTo(content, selectionStart), SubstringFrom(content, selectionEnd);
      var indent := IndentOf(LastLine(before));
      && r.content == before + "\n" + indent + (if nested then "  " else "") + "- [ ] " + after
      && r.cursor == selectionStart + |indent| + (if nested then 9 else 7)
  {
    var before := SubstringTo(content, selectionStart);
    var after := SubstringFrom(content, selectionEnd);
    var indent := IndentOf(LastLine(before));
    Splice(before + "\n" + indent + (if nested then "  " else "") + "- [ ] " + after,
           selectionStart + |indent| + (if nested then 9 else 7))
  }

  /**
   * When the cursor lies within the content, the new cursor sits right after
   * the inserted item marker, and the text after it is what followed the
   * selection; the selected text is dropped.
   */
  lemma SpliceCursorAfterMarker(content: string, selectionStart: nat, selectionEnd: nat, nested: bool)
    requires selectionStart <= selectionEnd <= |content|
    ensures var r := NewTodoSplice(content, selectionStart, selectionEnd, nested);
      var indent := IndentOf(LastLine(content[..selectionStart]));
      && r.cursor <= |r.content|
      && r.content[..r.cursor] == content[..selectionStart] + "\n" + indent + (if nested then "  " else "") + "- [ ] "
      && r.content[r.cursor..] == content[selectionEnd..]
      && |r.content| == |content| - (selectionEnd - selectionStart) + r.cursor - selectionStart
  {
    var r := NewTodoSplice(content, selectionStart, selectionEnd, nested);
    var head := content[..selectionStart] + "\n" + IndentOf(LastLine(content[..selectionStart])) + (if nested then "  " else "") + "- [ ] ";
    assert |head| == r.cursor;
    assert r.content == head + content[selectionEnd..];
  }

  /**
   * The notes box's `handleKeyDown` (`shift` is the Shift key): Ctrl/Cmd+Enter
   * splices in a todo at the row's indent, and Tab, whatever the modifiers,
   * a nested one; every other key leaves the content alone.
   */
  function NotesKeyDown(content: string, selectionStart: nat, selectionEnd: nat,
                        key: string, ctrlOrMeta: bool, shift: bool): (r: Option<Splice>)
    ensures r.Some? <==> (key == "Enter" && ctrlOrMeta) || key == "Tab"
    ensures r.Some? ==> r.value == NewTodoSplice(content, selectionStart, selectionEnd, key == "Tab")
  {
    if key == "Enter" && ctrlOrMeta then Some(NewTodoSplice(content, selectionStart, selectionEnd, false))
    else if key == "Tab" then Some(NewTodoSplice(content, selectionStart, selectionEnd, true))
    else None
  }

  /**
   * Shift+Tab does what Tab does: at a collapsed cursor it removes nothing
   * and inserts a newline, the row's indent and a nested `  - [ ] ` item, so
   * it never un-indents.
   */
  lemma ShiftTabNests(content: string, pos: nat, ctrlOrMeta: bool)
    requires pos <= |content|
    ensures var r := NotesKeyDown(content, pos, pos, "Tab", ctrlOrMeta, true);
      var indent := IndentOf(LastLine(content[..pos]));
      && r == NotesKeyDown(content, pos, pos, "Tab", ctrlOrMeta, false)
      && r.Some? && pos <= r.value.cursor <= |r.value.content|
      && |r.value.content| == |content| + |indent| + 9
      && r.value.content[..pos] == content[..pos]
      && r.value.content[pos..r.value.cursor] == "\n" + indent + "  - [ ] "
      && r.value.content[r.value.cursor..] == content[pos..]
  {
    var r := NewTodoSplice(content, pos, pos, true);
    var before, after := content[..pos], content[pos..];
    assert SubstringTo(content, pos) == before && SubstringFrom(content, pos) == after;
    var indent := IndentOf(LastLine(before));
    var marker := "\n" + indent + "  - [ ] ";
    assert r.content == before + marker + after;
    assert r.cursor == |before| + |marker|;
    SlicesOfInsertion(before, marker, after);
  }

  /** The three parts of a text with `marker` inserted between `before` and `after`. */
  lemma SlicesOfInsertion(before: string, marker: string, after: string)
    ensures var c := before + marker + after;
      && c[..|before|] == before
      && c[|before|..|before| + |marker|] == marker
      && c[|before| + |marker|..] == after
  {
  }
}
