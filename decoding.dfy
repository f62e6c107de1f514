/** Decoding of Open Trivia DB wire records (base64-encoded fields) into `QuestionDetails`.
    Two revisions exist: the current one (hooks/useOtdbApi.ts, with an identical copy in
    app/question.tsx) keeps `medium`, the older screens (src/screens/QuestionScreen.tsx and
    screens/QuestionScreen.tsx, identical to each other) turn `medium` into `easy`.
    The library call `Buffer.from(s, 'base64').toString()` is the parameter `b64`. */
module Decoding {
  import opened TriviaTypes

  /** A record as it arrives: every field, the difficulty included, still encoded. */
  datatype WireRecord = WireRecord(
    category: string,
    questionType: string,
    difficulty: string,
    question: string,
    correctAnswer: string,
    incorrectAnswers: seq<string>)

  /** `convertDifficultyFromBase64` of the current revision. */
  function DifficultyFromBase64(token: string, b64: string -> string): (d: Difficulty)
    ensures b64(token) == "easy" ==> d == Easy
    ensures b64(token) == "medium" ==> d == Medium
    ensures b64(token) != "easy" && b64(token) != "medium" ==> d == Hard
  {
    var text := b64(token);
    if text == "easy" then Easy
    else if text == "medium" then Medium
    else Hard
  }

  /** `convertDifficultyFromBase64` of the older screens. */
  function LegacyDifficultyFromBase64(token: string, b64: string -> string): (d: Difficulty)
    ensures d != Medium
    ensures d == Easy <==> b64(token) == "easy" || b64(token) == "medium"
  {
    var text := b64(token);
    if text == "easy" then Easy
    else if text == "medium" then Easy
    else Hard
  }

  /** `incorrect_answers.map(convertBase64ToString)`. */
  function DecodeAll(texts: seq<string>, b64: string -> string): (r: seq<string>)
    ensures |r| == |texts|
    ensures forall i :: 0 <= i < |texts| ==> r[i] == b64(texts[i])
  {
    if texts == [] then [] else [b64(texts[0])] + DecodeAll(texts[1..], b64)
  }

  /** `convertQuestionDetailsFromBase64` of the current revision. */
  function DecodeDetails(w: WireRecord, b64: string -> string): (q: QuestionDetails)
    ensures q.category == b64(w.category) && q.questionType == b64(w.questionType)
    ensures q.question == b64(w.question) && q.correctAnswer == b64(w.correctAnswer)
    ensures q.difficulty == DifficultyFromBase64(w.difficulty, b64)
    ensures |q.incorrectAnswers| == |w.incorrectAnswers|
    ensures forall i :: 0 <= i < |w.incorrectAnswers| ==> q.incorrectAnswers[i] == b64(w.incorrectAnswers[i])
  {
    QuestionDetails(
      b64(w.category), b64(w.questionType), DifficultyFromBase64(w.difficulty, b64),
      b64(w.question), b64(w.correctAnswer), DecodeAll(w.incorrectAnswers, b64))
  }

  /** `convertQuestionDetailsFromBase64` of the older screens. */
  function LegacyDecodeDetails(w: WireRecord, b64: string -> string): (q: QuestionDetails)
    ensures q.category == b64(w.category) && q.questionType == b64(w.questionType)
    ensures q.question == b64(w.question) && q.correctAnswer == b64(w.correctAnswer)
    ensures q.difficulty == LegacyDifficultyFromBase64(w.difficulty, b64)
    ensures |q.incorrectAnswers| == |w.incorrectAnswers|
    ensures forall i :: 0 <= i < |w.incorrectAnswers| ==> q.incorrectAnswers[i] == b64(w.incorrectAnswers[i])
  {
    QuestionDetails(
      b64(w.category), b64(w.questionType), LegacyDifficultyFromBase64(w.difficulty, b64),
      b64(w.question), b64(w.correctAnswer), DecodeAll(w.incorrectAnswers, b64))
  }

  /** `convertQuestionsFromBase64`: one decoded record per wire record, in order. */
  function DecodeQuestions(ws: seq<WireRecord>, b64: string -> string): (qs: seq<QuestionDetails>)
    ensures |qs| == |ws|
    ensures forall i :: 0 <= i < |ws| ==> qs[i] == DecodeDetails(ws[i], b64)
  {
    if ws == [] then [] else [DecodeDetails(ws[0], b64)] + DecodeQuestions(ws[1..], b64)
  }

  /** Decoding commutes with concatenation: a batch decoded in two parts gives the same
      list as decoded at once. */
  lemma {:induction false} DecodeQuestionsAppend(a: seq<WireRecord>, b: seq<WireRecord>, b64: string -> string)
    ensures DecodeQuestions(a + b, b64) == DecodeQuestions(a, b64) + DecodeQuestions(b, b64)
  {
    if a == [] {
      assert a + b == b;
    } else {
      assert (a + b)[1..] == a[1..] + b;
      DecodeQuestionsAppend(a[1..], b, b64);
    }
  }

  /** The two revisions disagree exactly on a token that decodes to "medium". */
  lemma RevisionsDivergeOnMedium(token: string, b64: string -> string)
    ensures DifficultyFromBase64(token, b64) != LegacyDifficultyFromBase64(token, b64)
        <==> b64(token) == "medium"
  {
  }

  /** Apart from the difficulty the two record decoders agree field by field. */
  lemma RevisionsAgreeOffDifficulty(w: WireRecord, b64: string -> string)
    ensures LegacyDecodeDetails(w, b64) == DecodeDetails(w, b64).(difficulty := LegacyDifficultyFromBase64(w.difficulty, b64))
    ensures b64(w.difficulty) != "medium" ==> LegacyDecodeDetails(w, b64) == DecodeDetails(w, b64)
  {
  }

  /** An unrecognised token (the "expert" scenario) falls back to hard in both revisions. */
  lemma UnknownTokenIsHard(token: string, b64: string -> string)
    requires b64(token) !in {"easy", "medium"}
    ensures DifficultyFromBase64(token, b64) == Hard && LegacyDifficultyFromBase64(token, b64) == Hard
  {
  }

  /** The current normaliser keeps a decoded difficulty name: feeding it a token that decodes
      to the name of `d` gives back `d`. */
  lemma DifficultyNamesRoundTrip(token: string, b64: string -> string, d: Difficulty)
    requires b64(token) == DifficultyName(d)
    ensures DifficultyFromBase64(token, b64) == d
  {
  }

  /** The wire spelling of a difficulty. */
  function DifficultyName(d: Difficulty): string
  {
    match d
    case Easy => "easy"
    case Medium => "medium"
    case Hard => "hard"
  }

}
