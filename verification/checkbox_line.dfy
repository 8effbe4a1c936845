/**
 * The task-list line pattern `^(\s*)-\s*\[([ x])\]\s*(.+)$` shared by
 * TaskContent.tsx, SubmissionHistory.tsx and webhook.ts, as a hand-written
 * recogniser over `seq<char>`, together with the canonical form
 * `indent + "- [" + state + "] " + text` that the editors write back.
 *
 * The pattern is anchored at both ends and has no multiline flag, `\s` is
 * the ECMAScript whitespace class and `.` is any character but a line
 * terminator. Every quantifier is greedy; the recogniser reproduces which
 * characters end up in each capture group.
 */
module CheckboxLine {
  import opened Wrappers
  import opened Strings

  /**
   * The five consecutive pieces a matching line is made of: the indent
   * (group 1), the blanks after the dash, the state character (group 2),
   * the blanks after the closing bracket, and the label (group 3).
   */
  datatype Parts = Parts(indent: string, gap: string, state: char, pad: string, labelText: string)

  /** Where the opening bracket sits in a line read as `p`. */
  function BracketAt(p: Parts): nat {
    |p.indent| + 1 + |p.gap|
  }

  /** `p` is one way of reading `line` against the pattern, piece by piece from the left. */
  predicate Spells(line: string, p: Parts) {
    var a, b := |p.indent|, BracketAt(p);
    && b + 3 <= |line|
    && line[..a] == p.indent && AllSpace(p.indent)
    && line[a] == '-'
    && line[a + 1..b] == p.gap && AllSpace(p.gap)
    && line[b] == '[' && line[b + 1] == p.state && line[b + 2] == ']'
    && (p.state == ' ' || p.state == 'x')
    && line[b + 3..] == p.pad + p.labelText && AllSpace(p.pad)
    && |p.labelText| > 0 && NoLineTerminator(p.labelText)
  }

  /** The line is in the language of the pattern. */
  ghost predicate IsCheckbox(line: string) {
    exists p :: Spells(line, p)
  }

  /** The line is in the language of webhook.ts's `^(\s*)-\s*\[x\]\s*(.+)$`. */
  ghost predicate IsCheckedCheckbox(line: string) {
    exists p :: Spells(line, p) && p.state == 'x'
  }

  function Min(a: int, b: int): int {
    if a <= b then a else b
  }

  /** Where the greedy `\s*` before `(.+)$` stops in the text after `]`: it leaves at least one character. */
  function LabelStart(tail: string): nat
    requires |tail| > 0
  {
    Min(LeadingSpaces(tail), |tail| - 1)
  }

  /**
   * The match once the indent (`w` characters) and the blanks after the dash
   * (`g` characters) are known: the bracketed state, then the label.
   */
  function ParseToken(line: string, w: nat, g: nat): Option<Parts>
    requires w + 1 + g <= |line|
  {
    var b := w + 1 + g;
    if b + 3 < |line| && line[b] == '[' && (line[b + 1] == ' ' || line[b + 1] == 'x') && line[b + 2] == ']' then
      var tail := line[b + 3..];
      var k := LabelStart(tail);
      if NoLineTerminator(tail[k..]) then Some(Parts(line[..w], line[w + 1..b], line[b + 1], tail[..k], tail[k..]))
      else None
    else None
  }

  /** `line.match(checkboxPattern)`: the capture groups, or `None` when the line does not match. */
  function Parse(line: string): (r: Option<Parts>)
    ensures r.Some? ==> Spells(line, r.value)
    ensures r.Some? ==> |r.value.indent| == LeadingSpaces(line)
    ensures r.Some? ==> |r.value.labelText| == 1 || !IsSpace(r.value.labelText[0])
  {
    var w := LeadingSpaces(line);
    if w < |line| && line[w] == '-' then
      var g := LeadingSpaces(line[w + 1..]);
      var r := ParseToken(line, w, g);
      if r.Some? then
        assert line[w + 1..w + 1 + g] == line[w + 1..][..g];
        TokenSound(line, w, g);
        r
      else r
    else None
  }

  /** What the token stage finds, after an all-blank indent, a dash and an all-blank gap, is a reading of the line. */
  lemma TokenSound(line: string, w: nat, g: nat)
    requires w < |line| && w + 1 + g <= |line| && line[w] == '-'
    requires AllSpace(line[..w]) && AllSpace(line[w + 1..w + 1 + g])
    requires ParseToken(line, w, g).Some?
    ensures Spells(line, ParseToken(line, w, g).value)
    ensures var r := ParseToken(line, w, g).value; |r.labelText| == 1 || !IsSpace(r.labelText[0])
  {
    var tail := line[w + 1 + g + 3..];
    var k := LabelStart(tail);
    assert tail[..k] == tail[..LeadingSpaces(tail)][..k];
    assert tail == tail[..k] + tail[k..];
  }

  /** In a line read as `p`, the greedy blanks before and after the dash are the indent and the gap. */
  lemma SpellsBlanks(line: string, p: Parts)
    requires Spells(line, p)
    ensures LeadingSpaces(line) == |p.indent|
    ensures LeadingSpaces(line[|p.indent| + 1..]) == |p.gap|
  {
    LeadingSpacesIs(line, |p.indent|);
    var rest := line[|p.indent| + 1..];
    assert rest[..|p.gap|] == p.gap;
    assert rest[|p.gap|] == '[';
    LeadingSpacesIs(rest, |p.gap|);
  }

  /**
   * The greedy blanks of `pad + labelText` reach at least past `pad`, and
   * what they leave is a non-empty suffix of the label.
   */
  lemma LabelStartPast(pad: string, labelText: string)
    requires AllSpace(pad) && |labelText| > 0
    ensures var t := pad + labelText;
      && |pad| <= LabelStart(t)
      && t[LabelStart(t)..] == labelText[LabelStart(t) - |pad|..]
      && (NoLineTerminator(labelText) ==> NoLineTerminator(t[LabelStart(t)..]))
  {
    LeadingSpacesAppend(pad, labelText);
    var t := pad + labelText;
    var k := LabelStart(t);
    assert t[k..] == labelText[k - |pad|..];
    var suffix := labelText[k - |pad|..];
    assert forall i :: 0 <= i < |suffix| ==> suffix[i] == labelText[i + k - |pad|];
  }

  /** Once indent and gap are placed, the token stage finds the state and splits the rest greedily. */
  lemma TokenComplete(line: string, p: Parts)
    requires Spells(line, p)
    ensures var t := p.pad + p.labelText;
      ParseToken(line, |p.indent|, |p.gap|) == Some(Parts(p.indent, p.gap, p.state, t[..LabelStart(t)], t[LabelStart(t)..]))
  {
    LabelStartPast(p.pad, p.labelText);
  }

  /**
   * Every reading of a line against the pattern is found by `Parse`, with the
   * same indent, gap and state; the label is what the greedy `\s*` leaves.
   */
  lemma ParseComplete(line: string, p: Parts)
    requires Spells(line, p)
    ensures Parse(line).Some?
    ensures var r := Parse(line).value;
      && r.indent == p.indent && r.gap == p.gap && r.state == p.state
      && r.pad == (p.pad + p.labelText)[..LabelStart(p.pad + p.labelText)]
      && r.labelText == (p.pad + p.labelText)[LabelStart(p.pad + p.labelText)..]
  {
    SpellsBlanks(line, p);
    TokenComplete(line, p);
  }

  /** A reading whose label does not start with a blank (unless it is one character) is exactly what `Parse` returns. */
  lemma ParseCanonical(line: string, p: Parts)
    requires Spells(line, p)
    requires |p.labelText| == 1 || !IsSpace(p.labelText[0])
    ensures Parse(line) == Some(p)
  {
    ParseComplete(line, p);
    var t := p.pad + p.labelText;
    LeadingSpacesAppend(p.pad, p.labelText);
    assert t[..|p.pad|] == p.pad && t[|p.pad|..] == p.labelText;
  }

  /** `Parse` decides the pattern exactly: a line matches iff `Parse` finds it. */
  lemma ParseDecides(line: string)
    ensures Parse(line).Some? <==> IsCheckbox(line)
  {
    if IsCheckbox(line) {
      var p :| Spells(line, p);
      ParseComplete(line, p);
    }
  }

  /** The webhook's checked-only pattern matches exactly the lines `Parse` reads with state `x`. */
  lemma ParseDecidesChecked(line: string)
    ensures (Parse(line).Some? && Parse(line).value.state == 'x') <==> IsCheckedCheckbox(line)
  {
    if IsCheckedCheckbox(line) {
      var p :| Spells(line, p) && p.state == 'x';
      ParseComplete(line, p);
    }
  }

  /**
   * A line is rendered as checked iff its state character is `x`; such a
   * line contains `[x]`.
   */
  predicate IsChecked(line: string): (b: bool)
    ensures b ==> Contains(line, "[x]")
  {
    if Parse(line).Some? && Parse(line).value.state == 'x' then
      CheckedHasToken(line, Parse(line).value);
      true
    else false
  }

  // ---------------------------------------------------------------------
  // The canonical form the editors write

  /** `${indent}- [${state}] ${text}`. */
  function Compose(indent: string, state: char, text: string): string {
    indent + ['-', ' ', '[', state, ']', ' '] + text
  }

  /**
   * A composed line reads back as a checkbox with the same indent and state,
   * and with `text` as its label when `text` starts with a non-blank; an
   * empty `text` still matches, because the space after `]` becomes the label.
   */
  lemma ComposeParses(indent: string, state: char, text: string)
    requires AllSpace(indent) && (state == ' ' || state == 'x') && NoLineTerminator(text)
    ensures Parse(Compose(indent, state, text)).Some?
    ensures var r := Parse(Compose(indent, state, text)).value;
      r.indent == indent && r.state == state
    ensures text != [] && !IsSpace(text[0]) ==> Parse(Compose(indent, state, text)).value.labelText == text
  {
    var line := Compose(indent, state, text);
    var q := ComposedReading(indent, state, text);
    ComposeSpells(indent, state, text);
    if text != [] && !IsSpace(text[0]) {
      ParseCanonical(line, q);
    } else {
      ParseComplete(line, q);
    }
  }

  /** The reading of a composed line piece by piece; an empty text leaves the space after `]` as the label. */
  function ComposedReading(indent: string, state: char, text: string): Parts {
    if text == [] then Parts(indent, " ", state, "", " ") else Parts(indent, " ", state, " ", text)
  }

  lemma ComposeSpells(indent: string, state: char, text: string)
    requires AllSpace(indent) && (state == ' ' || state == 'x') && NoLineTerminator(text)
    ensures Spells(Compose(indent, state, text), ComposedReading(indent, state, text))
  {
    var line := Compose(indent, state, text);
    var a := |indent|;
    assert line[..a] == indent;
    assert line[a] == '-' && line[a + 2] == '[' && line[a + 3] == state && line[a + 4] == ']';
    assert line[a + 1..a + 2] == " ";
    assert line[a + 5..] == [' '] + text;
  }

  /** Two more spaces in front of a line are two more characters of indent in any reading of it. */
  lemma SpellsIndented(line: string, p: Parts)
    requires Spells(line, p)
    ensures Spells("  " + line, p.(indent := "  " + p.indent))
  {
    var line' := "  " + line;
    assert line'[2..] == line;
    assert line'[..|p.indent| + 2] == "  " + p.indent;
  }

  /** Prepending two spaces to a checkbox line indents it and keeps everything else. */
  lemma IndentParses(line: string)
    requires Parse(line).Some?
    ensures Parse("  " + line) == Some(Parse(line).value.(indent := "  " + Parse(line).value.indent))
  {
    var p := Parse(line).value;
    SpellsIndented(line, p);
    ParseCanonical("  " + line, p.(indent := "  " + p.indent));
  }

  // ---------------------------------------------------------------------
  // webhook.ts: line.replace(/^(\s*)-\s*\[x\]\s*/, '')

  /** Removes the indent, dash, `[x]` token and every blank after it; a line without that prefix is kept. */
  function StripCheckedPrefix(line: string): (r: string)
    ensures |r| <= |line| && r == line[|line| - |r|..]
    ensures r != line ==> r == [] || !IsSpace(r[0])
  {
    var w := LeadingSpaces(line);
    if w < |line| && line[w] == '-' then
      var rest := line[w + 1..];
      var g := LeadingSpaces(rest);
      var tok := rest[g..];
      if |tok| >= 3 && tok[..3] == "[x]" then
        var tail := tok[3..];
        tail[LeadingSpaces(tail)..]
      else line
    else line
  }

  /**
   * On a checked line the stripped text is the label, except that a label
   * made only of a blank (the pattern's `.+` took the last space) strips to "".
   */
  lemma StripCheckedPrefixIsLabel(line: string)
    requires IsChecked(line)
    ensures StripCheckedPrefix(line) == if AllSpace(Parse(line).value.labelText) then "" else Parse(line).value.labelText
  {
    StripSpelled(line, Parse(line).value);
  }

  /** The same, for any reading whose label does not start with a blank (unless it is one character). */
  lemma StripSpelled(line: string, p: Parts)
    requires Spells(line, p) && p.state == 'x'
    requires |p.labelText| == 1 || !IsSpace(p.labelText[0])
    ensures StripCheckedPrefix(line) == if AllSpace(p.labelText) then "" else p.labelText
  {
    SpellsBlanks(line, p);
    CheckedToken(line, p);
    var rest := line[|p.indent| + 1..];
    var tail := rest[|p.gap|..][3..];
    assert tail == p.pad + p.labelText;
    StripBlanks(p.pad, p.labelText);
    assert StripCheckedPrefix(line) == tail[LeadingSpaces(tail)..];
  }

  /** Stripping every leading blank from `pad + labelText`, where the label is as `Parse` cuts it. */
  lemma StripBlanks(pad: string, labelText: string)
    requires AllSpace(pad) && |labelText| > 0 && (|labelText| == 1 || !IsSpace(labelText[0]))
    ensures var t := pad + labelText;
      t[LeadingSpaces(t)..] == if AllSpace(labelText) then "" else labelText
  {
    LeadingSpacesAppend(pad, labelText);
    var t := pad + labelText;
    if !IsSpace(labelText[0]) {
      assert LeadingSpaces(labelText) == 0;
      assert t[|pad|..] == labelText;
    } else {
      assert LeadingSpaces(labelText) == 1;
    }
  }

  /** A checked reading contains `[x]`. */
  lemma CheckedHasToken(line: string, p: Parts)
    requires Spells(line, p) && p.state == 'x'
    ensures Contains(line, "[x]")
  {
    CheckedToken(line, p);
    var k := |p.indent| + 1 + |p.gap|;
    var tok := line[|p.indent| + 1..][|p.gap|..];
    assert tok == line[k..];
    assert line[k..k + 3] == tok[..3];
    assert OccursAt(line, "[x]", k);
  }

  /** After the gap, a checked reading continues with `[x]` and then pad and label. */
  lemma CheckedToken(line: string, p: Parts)
    requires Spells(line, p) && p.state == 'x'
    ensures var tok := line[|p.indent| + 1..][|p.gap|..];
      |tok| >= 3 && tok[..3] == "[x]" && tok[3..] == p.pad + p.labelText
  {
    var b := BracketAt(p);
    assert line[|p.indent| + 1..][|p.gap|..] == line[b..];
  }
}
