/** The records the trivia client passes around (types.tsx). */
module TriviaTypes {

  /** `Difficulty = 'easy' | 'medium' | 'hard'`. */
  datatype Difficulty = Easy | Medium | Hard

  /** An Open Trivia DB question as the client keeps it (`OTDBQuestionDetails`).
      The wire field `type` is called `questionType` here. */
  datatype QuestionDetails = QuestionDetails(
    category: string,
    questionType: string,
    difficulty: Difficulty,
    question: string,
    correctAnswer: string,
    incorrectAnswers: seq<string>)

  /** A catalogue entry of the remote category list (`OTDBCategory`). */
  datatype OtdbCategory = OtdbCategory(id: int, name: string)

}
