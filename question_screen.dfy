/** The question screen of app/question.tsx: a local buffer (`questions.current`) topped up
    towards 20 questions, a displayed question, and the network-error and selected-answer
    fields that moving on resets. The request's asynchronous completion is the separate step
    `CompleteFetch`; `fetchQuestions`' synchronous test is `FetchQuestions`. */
module QuestionScreen {
  import opened Wrappers
  import opened TriviaTypes
  import opened Decoding

  const QUESTION_COUNT_TARGET: nat := 20

  datatype ScreenState = ScreenState(
    questions: seq<QuestionDetails>,
    current: Option<QuestionDetails>,
    networkError: string,
    selectedAnswer: string)

  /** The response of the question endpoint, or the message of the error it threw. */
  datatype Response = Results(records: seq<WireRecord>) | Failure(message: string)

  /** A state and the amount of the request issued on the way to it, if any. */
  datatype Step = Step(state: ScreenState, request: Option<nat>)

  /** `fetchQuestions` asks only below half the target, and for what is missing to reach it. */
  function FetchAmount(s: ScreenState): (amount: Option<nat>)
    ensures amount.Some? <==> |s.questions| < QUESTION_COUNT_TARGET / 2
    ensures amount.Some? ==> |s.questions| + amount.value == QUESTION_COUNT_TARGET
  {
    if |s.questions| < QUESTION_COUNT_TARGET / 2 then Some(QUESTION_COUNT_TARGET - |s.questions|) else None
  }

  /** The first half of `goToNextQuestion`: with a question buffered, it becomes the displayed
      one and the selected answer and network error are cleared. */
  function Shifted(s: ScreenState): (r: ScreenState)
    ensures |s.questions| > 0 ==> r.current == Some(s.questions[0]) && r.questions == s.questions[1..]
    ensures |s.questions| > 0 ==> r.selectedAnswer == "" && r.networkError == ""
    ensures |s.questions| == 0 ==> r == s
  {
    if |s.questions| > 0 then
      s.(questions := s.questions[1..], current := Some(s.questions[0]), selectedAnswer := "", networkError := "")
    else s
  }

  /** `goToNextQuestion`: shift, then `fetchQuestions` (always called). */
  function GoToNext(s: ScreenState): Step
  {
    var t := Shifted(s);
    Step(t, FetchAmount(t))
  }

  /** The continuation of `fetchQuestions` AS WRITTEN: `currentQuestion` is read from the
      closure of the first render (the callback has no dependencies), where it is null, so
      every successful fetch moves on to the next question. */
  function AfterFetchAsWritten(s: ScreenState, response: Response, b64: string -> string): Step
  {
    match response
    case Results(records) =>
      GoToNext(s.(questions := s.questions + DecodeQuestions(records, b64)))
    case Failure(message) =>
      Step(if |s.questions| == 0 then s.(networkError := message) else s, None)
  }

  /** The continuation of `fetchQuestions` as evidently intended: move on only when no
      question is displayed yet. */
  function AfterFetch(s: ScreenState, response: Response, b64: string -> string): Step
  {
    match response
    case Results(records) =>
      var t := s.(questions := s.questions + DecodeQuestions(records, b64));
      if s.current.None? then GoToNext(t) else Step(t, None)
    case Failure(message) =>
      Step(if |s.questions| == 0 then s.(networkError := message) else s, None)
  }

  /** A refill that completes while a question is displayed leaves that question, and the
      answer the user selected for it, in place; the fetched questions queue up behind the
      buffered ones in response order. */
  lemma RefillKeepsDisplayedQuestion(s: ScreenState, records: seq<WireRecord>, b64: string -> string)
    requires s.current.Some?
    ensures var r := AfterFetch(s, Results(records), b64);
      && r.state.current == s.current
      && r.state.selectedAnswer == s.selectedAnswer
      && r.state.questions == s.questions + DecodeQuestions(records, b64)
      && r.request.None?
  {
  }

  /** As written, a refill that completes while question `q` is displayed replaces it by the
      next buffered one and clears the user's selected answer. */
  lemma AsWrittenRefillSkipsDisplayedQuestion(q: QuestionDetails, w: WireRecord, b64: string -> string)
    requires DecodeDetails(w, b64) != q
    ensures var s := ScreenState([], Some(q), "", "answer");
      var r := AfterFetchAsWritten(s, Results([w]), b64);
      r.state.current != Some(q) && r.state.selectedAnswer == ""
  {
    var s := ScreenState([], Some(q), "", "answer");
    assert s.questions + DecodeQuestions([w], b64) == [DecodeDetails(w, b64)];
  }

  /** On the first load (nothing displayed) both versions agree. */
  lemma FirstLoadAgrees(s: ScreenState, response: Response, b64: string -> string)
    requires s.current.None?
    ensures AfterFetch(s, response, b64) == AfterFetchAsWritten(s, response, b64)
  {
  }

  /** A complete answer to the amount asked for brings the buffer to exactly the target,
      unless the completion also moved on to the first question. */
  lemma FullResponseReachesTarget(s: ScreenState, records: seq<WireRecord>, b64: string -> string)
    requires FetchAmount(s).Some? && |records| == FetchAmount(s).value
    ensures var r := AfterFetch(s, Results(records), b64).state;
      |r.questions| == (if s.current.None? then QUESTION_COUNT_TARGET - 1 else QUESTION_COUNT_TARGET)
  {
  }

  /** A failed fetch shows the network error only when no question is buffered, and changes
      nothing else. */
  lemma FailureRule(s: ScreenState, message: string, b64: string -> string)
    ensures var r := AfterFetch(s, Failure(message), b64);
      && r.request.None?
      && r.state.questions == s.questions && r.state.current == s.current
      && r.state.networkError == (if |s.questions| == 0 then message else s.networkError)
  {
  }

  /** The screen title: Medium and Hard by name, Easy otherwise. */
  function HeaderTitle(d: Difficulty): (title: string)
    ensures d == Medium <==> title == "Medium"
    ensures d == Hard <==> title == "Hard"
    ensures d == Easy <==> title == "Easy"
  {
    assert "Easy"[0] != "Medium"[0] && "Easy"[0] != "Hard"[0];
    if d.Medium? then "Medium"
    else if d.Hard? then "Hard"
    else "Easy"
  }

  class QuestionScreenState {
    var questions: seq<QuestionDetails>
    var current: Option<QuestionDetails>
    var networkError: string
    var selectedAnswer: string

    function State(): ScreenState
      reads this
    {
      ScreenState(questions, current, networkError, selectedAnswer)
    }

    constructor ()
      ensures State() == ScreenState([], None, "", "")
    {
      questions := [];
      current := None;
      networkError := "";
      selectedAnswer := "";
    }

    /** The synchronous test of `fetchQuestions`: the amount requested, if any. */
    method FetchQuestions() returns (amount: Option<nat>)
      ensures amount.Some? <==> |questions| < 10
      ensures amount.Some? ==> amount.value == 20 - |questions|
    {
      amount := None;
      if |questions| < QUESTION_COUNT_TARGET / 2 {
        amount := Some(QUESTION_COUNT_TARGET - |questions|);
      }
    }

    /** `goToNextQuestion`: `shift()` when something is buffered, then `fetchQuestions`. */
    method GoToNextQuestion() returns (amount: Option<nat>)
      modifies this
      ensures Step(State(), amount) == GoToNext(old(State()))
    {
      if |questions| > 0 {
        selectedAnswer := "";
        networkError := "";
        current := Some(questions[0]);
        questions := questions[1..];
      }
      amount := FetchQuestions();
    }

    /** The awaited part of `fetchQuestions`, moving on only when nothing is displayed. */
    method CompleteFetch(response: Response, b64: string -> string) returns (amount: Option<nat>)
      modifies this
      ensures Step(State(), amount) == AfterFetch(old(State()), response, b64)
    {
      match response {
        case Results(records) =>
          questions := questions + DecodeQuestions(records, b64);
          amount := None;
          if current.None? {
            amount := GoToNextQuestion();
          }
        case Failure(message) =>
          amount := None;
          if |questions| == 0 {
            networkError := message;
          }
      }
    }
  }

}
