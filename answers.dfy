/** Answer presentation: the shuffled answer list of components/Answers.tsx and the
    background classification of components/Answer.tsx (and its older copy in src/). */
module Answers {
  import opened Wrappers

  /** `s` with `x` spliced in at `index`: what `splice(index, 0, x)` leaves in the array. */
  function Inserted(s: seq<string>, index: nat, x: string): (r: seq<string>)
    requires index <= |s|
    ensures |r| == |s| + 1
    ensures r[index] == x
    ensures forall i :: 0 <= i < index ==> r[i] == s[i]
    ensures forall i :: index < i < |r| ==> r[i] == s[i - 1]
  {
    s[..index] + [x] + s[index..]
  }

  function RemovedAt(s: seq<string>, index: nat): (r: seq<string>)
    requires index < |s|
    ensures |r| == |s| - 1
    ensures forall i :: 0 <= i < index ==> r[i] == s[i]
    ensures forall i :: index <= i < |r| ==> r[i] == s[i + 1]
  {
    s[..index] + s[index + 1..]
  }

  /** Taking the correct answer back out gives the incorrect answers in their original order. */
  lemma RemoveInsertedRestores(s: seq<string>, index: nat, x: string)
    requires index <= |s|
    ensures RemovedAt(Inserted(s, index, x), index) == s
  {
    var r := RemovedAt(Inserted(s, index, x), index);
    assert |r| == |s|;
    forall i | 0 <= i < |s| ensures r[i] == s[i] {
      if i >= index {
        assert r[i] == Inserted(s, index, x)[i + 1];
      }
    }
  }

  /** The answer list holds the correct answer once more than the incorrect answers hold it,
      and every other answer exactly as often. */
  lemma InsertedIsPermutation(s: seq<string>, index: nat, x: string)
    requires index <= |s|
    ensures multiset(Inserted(s, index, x)) == multiset(s) + multiset{x}
  {
    assert s == s[..index] + s[index..];
    assert multiset(s) == multiset(s[..index]) + multiset(s[index..]);
  }

  /** Copy `incorrectAnswers` and splice `correctAnswer` into the copy at `index`;
      `index` is the random draw `floor(random() * (n + 1))`, so it lies in [0, n]. */
  method ShuffleInCorrectAnswer(incorrectAnswers: array<string>, correctAnswer: string, index: nat)
    returns (answers: array<string>)
    requires index <= incorrectAnswers.Length
    ensures fresh(answers)
    ensures answers[..] == Inserted(incorrectAnswers[..], index, correctAnswer)
    ensures incorrectAnswers[..] == old(incorrectAnswers[..])
  {
    var n := incorrectAnswers.Length;
    answers := new string[n + 1];
    var i := 0;
    while i < index
      invariant 0 <= i <= index
      invariant forall k :: 0 <= k < i ==> answers[k] == incorrectAnswers[k]
    {
      answers[i] := incorrectAnswers[i];
      i := i + 1;
    }
    answers[index] := correctAnswer;
    i := index;
    while i < n
      invariant index <= i <= n
      invariant forall k :: 0 <= k < index ==> answers[k] == incorrectAnswers[k]
      invariant answers[index] == correctAnswer
      invariant forall k :: index < k <= i ==> answers[k] == incorrectAnswers[k - 1]
    {
      answers[i + 1] := incorrectAnswers[i];
      i := i + 1;
    }
    assert answers[..] == Inserted(incorrectAnswers[..], index, correctAnswer);
  }

  /** `!!selectedAnswer`: a selection counts only when it is a non-empty string. */
  predicate HasSelection(selectedAnswer: Option<string>)
  {
    selectedAnswer.Some? && selectedAnswer.value != ""
  }

  datatype AnswerStyle = IncorrectSelected | CorrectAnswer | Unselected

  /** `getAnswerBackgroundColor`, identical in components/Answer.tsx and src/components/Answer.tsx. */
  function AnswerBackground(thisAnswer: string, selectedAnswer: Option<string>, correctAnswer: string): (style: AnswerStyle)
    ensures style == IncorrectSelected <==> selectedAnswer == Some(thisAnswer) && thisAnswer != correctAnswer
    ensures style == CorrectAnswer <==> HasSelection(selectedAnswer) && thisAnswer == correctAnswer
  {
    if selectedAnswer == Some(thisAnswer) && thisAnswer != correctAnswer then IncorrectSelected
    else if HasSelection(selectedAnswer) && thisAnswer == correctAnswer then CorrectAnswer
    else Unselected
  }

  /** The selected answer is marked wrong exactly when it is not the correct answer. */
  lemma SelectedWrongIffIncorrect(selected: string, correctAnswer: string)
    ensures AnswerBackground(selected, Some(selected), correctAnswer) == IncorrectSelected <==> selected != correctAnswer
  {
  }

  /** Once an answer is picked, the correct answer is highlighted whichever answer was picked. */
  lemma CorrectShownAfterSelection(selected: string, correctAnswer: string)
    requires selected != ""
    ensures AnswerBackground(correctAnswer, Some(selected), correctAnswer) == CorrectAnswer
  {
  }

  /** Before any selection every answer is plain, and the correct answer is never marked wrong. */
  lemma NoSelectionAllUnselected(thisAnswer: string, correctAnswer: string)
    ensures AnswerBackground(thisAnswer, None, correctAnswer) == Unselected
    ensures forall sel :: AnswerBackground(correctAnswer, sel, correctAnswer) != IncorrectSelected
  {
  }

  /** The answer list of one question and the player's pick, as the component holds them. */
  class AnswerPanel {
    var answers: Option<seq<string>>
    var selectedAnswer: Option<string>

    constructor ()
      ensures answers == None && selectedAnswer == None
    {
      answers := None;
      selectedAnswer := None;
    }

    /** Every answer button is disabled once something is selected. */
    function Disabled(): (disabled: bool)
      reads this
      ensures disabled <==> HasSelection(selectedAnswer)
    {
      HasSelection(selectedAnswer)
    }

    /** A render: the list is built only while `answers` is still null. */
    method Render(incorrectAnswers: array<string>, correctAnswer: string, index: nat)
      requires index <= incorrectAnswers.Length
      modifies this
      ensures old(answers).Some? ==> answers == old(answers)
      ensures old(answers).None? ==> answers == Some(Inserted(incorrectAnswers[..], index, correctAnswer))
      ensures selectedAnswer == old(selectedAnswer)
    {
      if answers.None? {
        var shuffled := ShuffleInCorrectAnswer(incorrectAnswers, correctAnswer, index);
        answers := Some(shuffled[..]);
      }
    }

    /** `onPress` of a button: record the pick (the button is only pressable while enabled). */
    method Select(answer: string)
      requires !Disabled()
      modifies this
      ensures selectedAnswer == Some(answer)
      ensures answers == old(answers)
    {
      selectedAnswer := Some(answer);
    }
  }
}
