/**
 * The after-session form (src/components/pomodoro/PostPomodoroForm.tsx):
 * one answer per question, the lines of the active task that contain a
 * ticked token, and the submit that hands both over and clears the answers.
 * Its own extraction of completed tasks is looser than the webhook's: it
 * keeps any line containing `[x]` and removes only the first `- [x] `.
 */
module PostPomodoroForm {
  import opened Wrappers
  import opened Strings
  import opened Collections
  import opened CheckboxLine
  import Webhook

  /** The first index where `pat` occurs in `s`, or -1. */
  function IndexOf(s: string, pat: string): (k: int)
    ensures k == -1 <==> !Contains(s, pat)
    ensures k != -1 ==> OccursAt(s, pat, k) && forall j :: 0 <= j < k ==> !OccursAt(s, pat, j)
    decreases |s|
  {
    if |s| < |pat| then -1
    else if s[..|pat|] == pat then assert OccursAt(s, pat, 0); 0
    else
      var k := IndexOf(s[1..], pat);
      assert forall j :: OccursAt(s[1..], pat, j) <==> OccursAt(s, pat, j + 1) by {
        forall j ensures OccursAt(s[1..], pat, j) <==> OccursAt(s, pat, j + 1) {
          if 0 <= j && j + 1 + |pat| <= |s| {
            assert s[1..][j..j + |pat|] == s[j + 1..j + 1 + |pat|];
          }
        }
      }
      assert !OccursAt(s, pat, 0);
      assert forall j :: OccursAt(s, pat, j) ==> j >= 1 && OccursAt(s[1..], pat, j - 1);
      if k == -1 then -1 else k + 1
  }

  /** `s.replace(pat, rep)` with a pattern that has no special characters: the first occurrence replaced. */
  function ReplaceFirst(s: string, pat: string, rep: string): (r: string)
    ensures !Contains(s, pat) ==> r == s
    ensures Contains(s, pat) ==>
      (exists k :: OccursAt(s, pat, k) && (forall j :: 0 <= j < k ==> !OccursAt(s, pat, j)) && r == s[..k] + rep + s[k + |pat|..])
  {
    var k := IndexOf(s, pat);
    if k == -1 then s else s[..k] + rep + s[k + |pat|..]
  }

  /** The prefix the form removes from a kept line. */
  const CheckedToken: string := "- [x] "

  predicate MentionsTicked(line: string) {
    Contains(line, "[x]")
  }

  function WithoutCheckedToken(line: string): string {
    ReplaceFirst(line, CheckedToken, "")
  }

  /**
   * The memoised `completedTasks`: nothing without an active task or with an
   * empty one, otherwise its lines that mention `[x]`, in order, each with
   * its first `- [x] ` removed.
   */
  function CompletedTasks(content: Option<string>): (r: seq<string>)
    ensures content.None? || content == Some("") ==> r == []
    ensures content.Some? ==> |r| <= |Split(content.value)|
    ensures content.Some? && content != Some("") ==>
      (r == [] <==> forall i :: 0 <= i < |Split(content.value)| ==> !MentionsTicked(Split(content.value)[i]))
  {
    if content.None? || content.value == "" then []
    else FilterMap(Split(content.value), MentionsTicked, WithoutCheckedToken)
  }

  /**
   * Which lines the form keeps: exactly the lines that mention `[x]`, each
   * contributing its text without the first `- [x] `, in line order.
   */
  lemma CompletedTasksAt(content: string, i: nat)
    requires content != "" && i < |Split(content)|
    ensures var rows := Split(content);
      CompletedTasks(Some(content)) ==
        FilterMap(rows[..i], MentionsTicked, WithoutCheckedToken)
        + (if MentionsTicked(rows[i]) then [WithoutCheckedToken(rows[i])] else [])
        + FilterMap(rows[i + 1..], MentionsTicked, WithoutCheckedToken)
  {
    FilterMapAt(Split(content), i, MentionsTicked, WithoutCheckedToken);
  }

  /** Every completed task comes from a line that mentions `[x]`, and every such line gives one. */
  lemma CompletedTasksMembers(content: string, t: string)
    requires content != ""
    ensures var rows := Split(content);
      t in CompletedTasks(Some(content)) <==>
        exists i :: 0 <= i < |rows| && MentionsTicked(rows[i]) && WithoutCheckedToken(rows[i]) == t
  {
    FilterMapMembers(Split(content), MentionsTicked, WithoutCheckedToken, t);
  }

  /** On an indented ticked line the first `- [x] ` sits right after the indent. */
  lemma TokenAfterIndent(indent: string, text: string)
    requires AllSpace(indent)
    ensures IndexOf(Compose(indent, 'x', text), CheckedToken) == |indent|
  {
    var line := Compose(indent, 'x', text);
    var a := |indent|;
    assert |CheckedToken| == 6 && line[a..a + 6] == CheckedToken;
    assert OccursAt(line, CheckedToken, a);
    var k := IndexOf(line, CheckedToken);
    forall j | 0 <= j < a ensures !OccursAt(line, CheckedToken, j) {
      NotInIndent(line, indent, j);
    }
  }

  lemma NotInIndent(line: string, indent: string, j: nat)
    requires AllSpace(indent) && j < |indent| <= |line| && line[..|indent|] == indent
    ensures !OccursAt(line, CheckedToken, j)
  {
    assert line[j] == indent[j] && IsSpace(indent[j]);
    assert !IsSpace('-');
  }

  /**
   * The form and the webhook disagree on indented items: the form keeps the
   * indent in front of the label, the webhook reports the bare label.
   */
  lemma FormKeepsIndent(indent: string, text: string)
    requires AllSpace(indent) && NoLineTerminator(text) && text != [] && !IsSpace(text[0])
    ensures MentionsTicked(Compose(indent, 'x', text)) && WithoutCheckedToken(Compose(indent, 'x', text)) == indent + text
    ensures IsChecked(Compose(indent, 'x', text)) && StripCheckedPrefix(Compose(indent, 'x', text)) == text
  {
    FormSide(indent, text);
    WebhookSide(indent, text);
  }

  lemma FormSide(indent: string, text: string)
    requires AllSpace(indent)
    ensures MentionsTicked(Compose(indent, 'x', text)) && WithoutCheckedToken(Compose(indent, 'x', text)) == indent + text
  {
    var line := Compose(indent, 'x', text);
    var a := |indent|;
    TokenAfterIndent(indent, text);
    assert line[a + 2..a + 5] == "[x]";
    assert OccursAt(line, "[x]", a + 2);
    assert line[..a] == indent && line[a + 6..] == text;
  }

  lemma WebhookSide(indent: string, text: string)
    requires AllSpace(indent) && NoLineTerminator(text) && text != [] && !IsSpace(text[0])
    ensures IsChecked(Compose(indent, 'x', text)) && StripCheckedPrefix(Compose(indent, 'x', text)) == text
  {
    ComposeParses(indent, 'x', text);
    StripCheckedPrefixIsLabel(Compose(indent, 'x', text));
  }

  /**
   * A one-line task that mentions `[x]` without being a ticked checkbox is
   * a completed task for the form and none for the webhook.
   */
  lemma FormKeepsMentions(line: string)
    requires NoNewline(line) && line != [] && MentionsTicked(line) && !IsChecked(line)
    ensures CompletedTasks(Some(line)) == [WithoutCheckedToken(line)]
    ensures Webhook.CompletedTasks(Some(line)) == []
  {
    SplitNoNewline(line);
    FilterMapCons(line, [], MentionsTicked, WithoutCheckedToken);
    assert !IsChecked(Split(line)[0]);
  }

  /** One empty answer per question. */
  function BlankAnswers(questions: seq<string>): (r: seq<string>)
    ensures |r| == |questions| && forall i :: 0 <= i < |r| ==> r[i] == ""
  {
    seq(|questions|, _ => "")
  }

  class AnswerForm {
    const questions: seq<string>
    var answers: seq<string>

    predicate Valid()
      reads this
    {
      |answers| == |questions|
    }

    /** `useState(questions.map(() => ''))`. */
    constructor (questions: seq<string>)
      ensures this.questions == questions && answers == BlankAnswers(questions) && Valid()
    {
      this.questions := questions;
      answers := BlankAnswers(questions);
    }

    /** A textarea's `onChange`: only the answer to question `index` changes. */
    method EditAnswer(index: nat, value: string)
      requires Valid() && index < |questions|
      modifies this
      ensures Valid()
      ensures answers[index] == value
      ensures forall i :: 0 <= i < |answers| && i != index ==> answers[i] == old(answers)[i]
    {
      answers := answers[index := value];
    }

    /** `handleSubmit`: the current answers and the completed tasks are handed over, then the answers are cleared. */
    method Submit(activeContent: Option<string>) returns (submitted: seq<string>, completed: seq<string>)
      requires Valid()
      modifies this
      ensures Valid()
      ensures submitted == old(answers) && completed == CompletedTasks(activeContent)
      ensures answers == BlankAnswers(questions)
    {
      submitted := answers;
      completed := CompletedTasks(activeContent);
      answers := BlankAnswers(questions);
    }
  }
}
