/**
 * The history dialog (src/components/SubmissionHistory.tsx): submissions
 * grouped by date, each session's task list drawn line by line with the
 * checkbox recogniser, its questions paired with its answers, and the
 * "Share History" button that hands every submission to `sendToWebhook`.
 */
module SubmissionHistory {
  import opened Wrappers
  import opened Strings
  import opened Collections
  import opened Grouping
  import opened Domain
  import opened CheckboxLine
  import Webhook

  // ---------------------------------------------------------------------
  // groupedSubmissions

  function Same(s: Submission): Submission {
    s
  }

  /** The dated groups the dialog lists, each holding whole submissions. */
  function HistoryGroups(submissions: seq<Submission>, dateOf: string -> string): seq<Group<string, Submission>> {
    GroupBy(submissions, Webhook.DateKey(dateOf), Same)
  }

  /**
   * The dialog's groups partition the history: one per distinct date in
   * order of first appearance, each with that date's submissions in order.
   */
  lemma HistoryPartition(submissions: seq<Submission>, dateOf: string -> string)
    ensures var gs := HistoryGroups(submissions, dateOf);
      && NoDuplicates(Keys(gs))
      && Keys(gs) == FirstAppearances(KeysOf(submissions, Webhook.DateKey(dateOf)))
      && (forall i :: 0 <= i < |gs| ==> gs[i].items == ItemsOf(submissions, Webhook.DateKey(dateOf), Same, gs[i].key))
      && TotalItems(gs) == |submissions|
  {
    GroupByPartition(submissions, Webhook.DateKey(dateOf), Same);
  }

  /** The dialog shows the same dates, in the same order, as the payloads a share sends. */
  lemma HistoryMatchesPayloads(submissions: seq<Submission>, dateOf: string -> string, timeOf: string -> string)
    ensures Keys(HistoryGroups(submissions, dateOf)) == Keys(Webhook.Grouped(submissions, dateOf, timeOf))
  {
    GroupByKeys(submissions, Webhook.DateKey(dateOf), Same);
    GroupByKeys(submissions, Webhook.DateKey(dateOf), Webhook.Wire(timeOf));
  }

  // ---------------------------------------------------------------------
  // renderTaskContent

  /** A drawn row: a box indented by its indent width, or the line as text. */
  datatype Row = BoxRow(indentWidth: nat, checked: bool, labelText: string) | TextRow(text: string)

  function RenderLine(line: string): (row: Row)
    ensures row.BoxRow? <==> Parse(line).Some?
    ensures row.BoxRow? ==> row == BoxRow(|Parse(line).value.indent|, Parse(line).value.state == 'x', Parse(line).value.labelText)
    ensures row.TextRow? ==> row.text == line
  {
    match Parse(line)
    case Some(p) => BoxRow(|p.indent|, p.state == 'x', p.labelText)
    case None => TextRow(line)
  }

  /** `lines.map(…)`: one row per line of the task list. */
  function RenderTaskContent(content: string): (rows: seq<Row>)
    ensures |rows| == |Split(content)|
    ensures forall i :: 0 <= i < |rows| ==> rows[i] == RenderLine(Split(content)[i])
  {
    var lines := Split(content);
    seq(|lines|, i requires 0 <= i < |lines| => RenderLine(lines[i]))
  }

  /**
   * A line is drawn as a box exactly when it matches the checkbox pattern,
   * ticked exactly when its state is `x`; any other line is drawn verbatim.
   */
  lemma RenderLineFollowsPattern(line: string)
    ensures RenderLine(line).BoxRow? <==> IsCheckbox(line)
    ensures RenderLine(line).BoxRow? && RenderLine(line).checked <==> IsCheckedCheckbox(line)
    ensures !IsCheckbox(line) ==> RenderLine(line) == TextRow(line)
  {
    ParseDecides(line);
    ParseDecidesChecked(line);
  }

  /** A ticked row of the history is one the webhook reports as completed. */
  lemma TickedRowsAreReported(line: string)
    ensures RenderLine(line).BoxRow? && RenderLine(line).checked <==> Webhook.CheckedLabels([line]) != []
  {
  }

  // ---------------------------------------------------------------------
  // The details cell

  /** What the status pill says. */
  function StatusText(s: Submission): (t: string)
    ensures t == "Completed" <==> s.completed
    ensures t == "Partial" <==> !s.completed
  {
    Webhook.StatusLabel(s.completed)
  }

  datatype Exchange = Exchange(question: string, answer: Option<string>)

  /** `questions.map((question, index) => … content[index])`: a missing answer shows nothing. */
  function Exchanges(s: Submission): (r: seq<Exchange>)
    ensures |r| == |s.questions|
    ensures forall i :: 0 <= i < |r| ==> r[i].question == s.questions[i]
    ensures forall i :: 0 <= i < |r| ==> (r[i].answer.Some? <==> i < |s.content|)
    ensures forall i :: 0 <= i < |r| && i < |s.content| ==> r[i].answer == Some(s.content[i])
  {
    seq(|s.questions|, i requires 0 <= i < |s.questions| =>
      Exchange(s.questions[i], if i < |s.content| then Some(s.content[i]) else None))
  }

  /** The dialog and the webhook pair every question with the same answer. */
  lemma ExchangesMatchReflections(s: Submission)
    ensures var shown, sent := Exchanges(s), Webhook.Reflections(s.questions, s.content);
      |shown| == |sent| &&
      forall i :: 0 <= i < |shown| ==> shown[i].question == sent[i].question && shown[i].answer.GetOr("") == sent[i].answer
  {
  }

  // ---------------------------------------------------------------------
  // handleShare

  /** The alert the share button ends with. */
  datatype Notice = ConfigureUrl | Shared | ShareFailed

  /**
   * `handleShare`: with no URL (absent or empty) nothing is sent; otherwise
   * every submission goes to `sendToWebhook` once, and its outcome picks the alert.
   */
  method Share(submissions: seq<Submission>, webhookUrl: Option<string>,
               dateOf: string -> string, timeOf: string -> string, respond: nat -> Webhook.Response)
    returns (requests: seq<Webhook.Request>, notice: Notice)
    ensures webhookUrl.None? || webhookUrl.value == "" <==> notice == ConfigureUrl
    ensures notice == ConfigureUrl ==> requests == []
    ensures var gs := Webhook.Grouped(submissions, dateOf, timeOf);
      && |requests| <= |gs|
      && (notice == Shared ==> |requests| == |gs|)
      && (notice != ConfigureUrl ==>
            forall i :: 0 <= i < |requests| ==> requests[i] == Webhook.Request(webhookUrl.value, Webhook.Payload(gs[i].key, gs[i].items)))
    ensures notice == ShareFailed ==>
      |requests| > 0 && Webhook.AllOk(respond, |requests| - 1) && !respond(|requests| - 1).Ok?
    ensures notice == Shared <==>
      notice != ConfigureUrl && Webhook.AllOk(respond, |Webhook.Grouped(submissions, dateOf, timeOf)|)
  {
    if webhookUrl.None? || webhookUrl.value == "" {
      return [], ConfigureUrl;
    }
    requests, notice := ShareTo(submissions, webhookUrl.value, dateOf, timeOf, respond);
  }

  /** The `try` block of `handleShare`: sends to `url` and picks the alert from the outcome. */
  method ShareTo(submissions: seq<Submission>, url: string,
                 dateOf: string -> string, timeOf: string -> string, respond: nat -> Webhook.Response)
    returns (requests: seq<Webhook.Request>, notice: Notice)
    ensures notice != ConfigureUrl
    ensures var gs := Webhook.Grouped(submissions, dateOf, timeOf);
      && |requests| <= |gs|
      && (forall i :: 0 <= i < |requests| ==> requests[i] == Webhook.Request(url, Webhook.Payload(gs[i].key, gs[i].items)))
      && (notice == Shared <==> Webhook.AllOk(respond, |gs|))
      && (notice == Shared ==> |requests| == |gs|)
    ensures notice == ShareFailed ==>
      |requests| > 0 && Webhook.AllOk(respond, |requests| - 1) && !respond(|requests| - 1).Ok?
  {
    var outcome;
    requests, outcome := Webhook.SendToWebhook(submissions, url, dateOf, timeOf, respond);
    notice := if outcome.Delivered? then Shared else ShareFailed;
  }
}
