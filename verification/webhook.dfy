/**
 * `sendToWebhook` (src/utils/webhook.ts): projects every submission onto
 * the record the webhook receives, groups the records by calendar date in
 * order of first appearance, and POSTs one payload per date, stopping at
 * the first request that fails.
 *
 * The locale calls `toLocaleDateString()` and `toLocaleTimeString()` are
 * parameters (`dateOf`, `timeOf`) from a timestamp to its text; the network
 * is the parameter `respond`, the answer to the k-th request.
 */
module Webhook {
  import opened Wrappers
  import opened Strings
  import opened Collections
  import opened Grouping
  import opened Domain
  import opened CheckboxLine
  import TaskEditor

  datatype Reflection = Reflection(question: string, answer: string)

  /** One entry of a payload's `submissions`. */
  datatype WireRecord = WireRecord(
    time: string,
    title: string,
    duration: int,
    status: string,
    completedTasks: seq<string>,
    reflections: seq<Reflection>)

  datatype Payload = Payload(date: string, submissions: seq<WireRecord>)

  /** A POST of `body`, serialised as JSON, to `url`. */
  datatype Request = Request(url: string, body: Payload)

  /** What `fetch` gives back: a response, ok or not, or a rejection. */
  datatype Response = Ok | NotOk(status: int) | Rejected

  /** Why the send threw: the `HTTP error! status: …` error, or the rejection `fetch` raised. */
  datatype Failure = HttpError(status: int) | FetchError

  datatype Outcome = Delivered | Failed(error: Failure)

  // ---------------------------------------------------------------------
  // The record of one submission

  /** `completed ? 'Completed' : 'Partial'`. */
  function StatusLabel(completed: bool): (s: string)
    ensures s == "Completed" <==> completed
    ensures s == "Partial" <==> !completed
  {
    if completed then "Completed" else "Partial"
  }

  /** The lines kept by the `[x]` filter, each with its checkbox prefix stripped, in order. */
  function CheckedLabels(lines: seq<string>): (r: seq<string>)
    ensures |r| <= |lines|
    ensures r == [] <==> forall i :: 0 <= i < |lines| ==> !IsChecked(lines[i])
  {
    FilterMap(lines, IsChecked, StripCheckedPrefix)
  }

  /** `taskContent?.split('\n').filter(…).map(…) || []`. */
  function CompletedTasks(taskContent: Option<string>): (r: seq<string>)
    ensures taskContent.None? ==> r == []
    ensures taskContent.Some? ==> |r| <= |Split(taskContent.value)|
  {
    match taskContent
    case None => []
    case Some(text) => CheckedLabels(Split(text))
  }

  /** `questions.map((q, i) => ({ question: q, answer: content[i] || '' }))`. */
  function Reflections(questions: seq<string>, content: seq<string>): (r: seq<Reflection>)
    ensures |r| == |questions|
    ensures forall i :: 0 <= i < |r| ==> r[i].question == questions[i]
    ensures forall i :: 0 <= i < |r| ==> r[i].answer == if i < |content| then content[i] else ""
  {
    seq(|questions|, i requires 0 <= i < |questions| => Reflection(questions[i], if i < |content| then content[i] else ""))
  }

  function Project(s: Submission, timeOf: string -> string): (w: WireRecord)
    ensures w.time == timeOf(s.timestamp) && w.title == s.title && w.duration == s.duration
    ensures w.status == StatusLabel(s.completed)
    ensures w.completedTasks == CompletedTasks(s.taskContent)
    ensures w.reflections == Reflections(s.questions, s.content)
  {
    WireRecord(timeOf(s.timestamp), s.title, s.duration, StatusLabel(s.completed),
      CompletedTasks(s.taskContent), Reflections(s.questions, s.content))
  }

  /** The grouping key of a submission: the date text of its timestamp. */
  function DateKey(dateOf: string -> string): Submission -> string {
    (s: Submission) => dateOf(s.timestamp)
  }

  function Wire(timeOf: string -> string): Submission -> WireRecord {
    (s: Submission) => Project(s, timeOf)
  }

  // ---------------------------------------------------------------------
  // What the filter keeps

  /** A task list is reported with no completed item exactly when none of its lines is a checked box. */
  lemma NothingTickedNothingReported(lines: seq<string>)
    ensures CheckedLabels(lines) == [] <==> forall i :: 0 <= i < |lines| ==> !IsChecked(lines[i])
  {
  }

  /** A checked line is reported as its label, or as "" when the label is a lone blank. */
  lemma CheckedLineReportsLabel(line: string)
    requires IsCheckedCheckbox(line)
    ensures Parse(line).Some? && CheckedLabels([line]) == [if AllSpace(Parse(line).value.labelText) then "" else Parse(line).value.labelText]
  {
    ParseDecidesChecked(line);
    StripCheckedPrefixIsLabel(line);
  }

  /** An unchecked checkbox, or a line that is no checkbox at all, is never reported. */
  lemma UncheckedLineNotReported(line: string)
    requires !IsCheckedCheckbox(line)
    ensures CheckedLabels([line]) == []
  {
    ParseDecidesChecked(line);
  }

  /**
   * Ticking row `index` of a task in the editor makes the report of that
   * task's content carry the row's label at the row's place.
   */
  lemma TickedRowIsReported(task: Task, index: nat)
    requires index < |Split(task.content)| && Parse(Split(task.content)[index]).Some?
    ensures var rows := Split(task.content);
      var p := Parse(rows[index]).value;
      var ticked := Join(rows[index := TaskEditor.SetToken(rows[index], 'x')]);
      CompletedTasks(Some(ticked)) ==
        CheckedLabels(rows[..index])
        + [if AllSpace(p.labelText) then "" else p.labelText]
        + CheckedLabels(rows[index + 1..])
  {
    var rows := Split(task.content);
    var line := rows[index];
    var line' := TaskEditor.SetToken(line, 'x');
    var rows' := rows[index := line'];
    TaskEditor.ChangeCheckboxOnlyThatRow(task.content, index, true);
    TaskEditor.SetTokenChecksBox(line, true);
    assert Split(Join(rows')) == rows';
    StripCheckedPrefixIsLabel(line');
    FilterMapAt(rows', index, IsChecked, StripCheckedPrefix);
    assert rows'[..index] == rows[..index];
    assert rows'[index + 1..] == rows[index + 1..];
  }

  // ---------------------------------------------------------------------
  // Delivery

  /** The first `n` requests were all answered ok. */
  predicate AllOk(respond: nat -> Response, n: int) {
    forall i :: 0 <= i < n ==> respond(i).Ok?
  }

  function ErrorOf(r: Response): Failure
    requires !r.Ok?
  {
    if r.NotOk? then HttpError(r.status) else FetchError
  }

  /**
   * The `for … of` loop: POSTs the payloads in order; the k-th request is
   * answered by `respond(k)`, and the first answer that is not ok ends the
   * loop with its error. `sent` lists the requests made.
   */
  method Deliver(url: string, payloads: seq<Payload>, respond: nat -> Response) returns (sent: seq<Request>, outcome: Outcome)
    ensures 0 <= |sent| <= |payloads|
    ensures forall i :: 0 <= i < |sent| ==> sent[i] == Request(url, payloads[i])
    ensures outcome.Delivered? <==> AllOk(respond, |payloads|)
    ensures outcome.Delivered? ==> |sent| == |payloads|
    ensures outcome.Failed? ==>
      && |sent| > 0
      && AllOk(respond, |sent| - 1)
      && !respond(|sent| - 1).Ok?
      && outcome.error == ErrorOf(respond(|sent| - 1))
  {
    sent := [];
    var i := 0;
    while i < |payloads|
      invariant 0 <= i <= |payloads| && |sent| == i
      invariant forall j :: 0 <= j < i ==> sent[j] == Request(url, payloads[j])
      invariant AllOk(respond, i)
    {
      sent := sent + [Request(url, payloads[i])];
      var response := respond(i);
      if !response.Ok? {
        outcome := Failed(ErrorOf(response));
        return;
      }
      i := i + 1;
    }
    outcome := Delivered;
  }

  /** The groups `sendToWebhook` builds from `submissions`. */
  function Grouped(submissions: seq<Submission>, dateOf: string -> string, timeOf: string -> string): seq<Group<string, WireRecord>> {
    GroupBy(submissions, DateKey(dateOf), Wire(timeOf))
  }

  /**
   * `sendToWebhook`: groups the records by date with the reduce, then
   * delivers one payload per date in order of first appearance.
   */
  method SendToWebhook(submissions: seq<Submission>, url: string,
                       dateOf: string -> string, timeOf: string -> string, respond: nat -> Response)
    returns (sent: seq<Request>, outcome: Outcome)
    ensures var gs := Grouped(submissions, dateOf, timeOf);
      && |sent| <= |gs|
      && (forall i :: 0 <= i < |sent| ==> sent[i] == Request(url, Payload(gs[i].key, gs[i].items)))
      && (outcome.Delivered? <==> AllOk(respond, |gs|))
      && (outcome.Delivered? ==> |sent| == |gs|)
    ensures outcome.Delivered? ==> |sent| == |FirstAppearances(KeysOf(submissions, DateKey(dateOf)))|
    ensures |submissions| > 0 ==> |sent| > 0
    ensures outcome.Failed? ==>
      && |sent| > 0
      && AllOk(respond, |sent| - 1)
      && !respond(|sent| - 1).Ok?
      && outcome.error == ErrorOf(respond(|sent| - 1))
  {
    var groups := GroupInto(submissions, DateKey(dateOf), Wire(timeOf));
    sent, outcome := Deliver(url, PayloadsOf(groups), respond);
    GroupedCount(submissions, dateOf, timeOf);
  }

  /** One payload per group, keeping the group's date and records. */
  function PayloadsOf(groups: seq<Group<string, WireRecord>>): (ps: seq<Payload>)
    ensures |ps| == |groups|
    ensures forall i :: 0 <= i < |ps| ==> ps[i] == Payload(groups[i].key, groups[i].items)
  {
    if groups == [] then [] else [Payload(groups[0].key, groups[0].items)] + PayloadsOf(groups[1..])
  }

  /** One group per distinct date, so a non-empty history makes at least one group. */
  lemma GroupedCount(submissions: seq<Submission>, dateOf: string -> string, timeOf: string -> string)
    ensures |Grouped(submissions, dateOf, timeOf)| == |FirstAppearances(KeysOf(submissions, DateKey(dateOf)))|
    ensures |submissions| > 0 ==> |Grouped(submissions, dateOf, timeOf)| > 0
  {
    GroupByKeys(submissions, DateKey(dateOf), Wire(timeOf));
    if |submissions| > 0 {
      var keys := KeysOf(submissions, DateKey(dateOf));
      assert keys[0] in FirstAppearances(keys);
    }
  }

  /**
   * The payloads partition the records: one payload per distinct date, in
   * order of first appearance, each holding exactly the records of the
   * submissions of that date in input order, and all records together.
   */
  lemma PayloadsPartition(submissions: seq<Submission>, dateOf: string -> string, timeOf: string -> string)
    ensures var gs := Grouped(submissions, dateOf, timeOf);
      && NoDuplicates(Keys(gs))
      && Keys(gs) == FirstAppearances(KeysOf(submissions, DateKey(dateOf)))
      && (forall i :: 0 <= i < |gs| ==> gs[i].items == ItemsOf(submissions, DateKey(dateOf), Wire(timeOf), gs[i].key))
      && TotalItems(gs) == |submissions|
  {
    GroupByPartition(submissions, DateKey(dateOf), Wire(timeOf));
  }
}
