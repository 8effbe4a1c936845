/**
 * The reflection-question list in the settings dialog
 * (src/components/settings/QuestionSettings.tsx). The component keeps no
 * state: each edit builds a fresh list from the `questions` prop and
 * reports it, so each is a function of that list.
 */
module QuestionSettings {

  /** `addQuestion`: `[...questions, "New question"]`. */
  function AddQuestion(questions: seq<string>): (r: seq<string>)
    ensures |r| == |questions| + 1 && r[..|questions|] == questions && r[|questions|] == "New question"
  {
    questions + ["New question"]
  }

  /**
   * `updateQuestion(index, value)`: a copy of the list with one entry
   * replaced. The only caller passes the index of an existing question.
   */
  function UpdateQuestion(questions: seq<string>, index: nat, value: string): (r: seq<string>)
    requires index < |questions|
    ensures |r| == |questions| && r[index] == value
    ensures forall i :: 0 <= i < |questions| && i != index ==> r[i] == questions[i]
  {
    questions[index := value]
  }

  /**
   * `questions.filter((_, i) => i !== index)`: the entry at `index` dropped,
   * the rest kept in order; an index past the end drops nothing.
   */
  function RemoveQuestion(questions: seq<string>, index: int): (r: seq<string>)
    ensures 0 <= index < |questions| ==> r == questions[..index] + questions[index + 1..]
    ensures !(0 <= index < |questions|) ==> r == questions
    decreases |questions|
  {
    if questions == [] then []
    else
      var rest := RemoveQuestion(questions[1..], index - 1);
      if index == 0 then rest
      else
        assert 0 < index < |questions| ==> questions[..index] == [questions[0]] + questions[1..][..index - 1];
        assert 0 < index < |questions| ==> questions[index + 1..] == questions[1..][index..];
        [questions[0]] + rest
  }

  /** Removing the question just added gives the list back. */
  lemma RemoveUndoesAdd(questions: seq<string>)
    ensures RemoveQuestion(AddQuestion(questions), |questions|) == questions
  {
    var added := AddQuestion(questions);
    assert added[..|questions|] == questions;
  }

  /** Editing a question and then removing it is the same as removing it. */
  lemma RemoveAfterUpdate(questions: seq<string>, index: nat, value: string)
    requires index < |questions|
    ensures RemoveQuestion(UpdateQuestion(questions, index, value), index) == RemoveQuestion(questions, index)
  {
    var u := UpdateQuestion(questions, index, value);
    assert u[..index] == questions[..index];
    assert u[index + 1..] == questions[index + 1..];
  }

  /** Writing back the text a question already has changes nothing. */
  lemma UpdateSameText(questions: seq<string>, index: nat)
    requires index < |questions|
    ensures UpdateQuestion(questions, index, questions[index]) == questions
  {
  }
}
