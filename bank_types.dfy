/** Records of the admin question bank (models/database.common.ts). Dates are kept as the
    ISO text they normalise to; comparing them is comparing that text. */
module BankTypes {
  import opened Wrappers

  datatype Category = Category(id: string, mainCategory: string, subcategory: string)

  datatype Question = Question(
    id: string,
    question: string,
    correctAnswer: string,
    incorrectAnswers: string,
    mainCategory: string,
    subcategory: string,
    difficulty: string,
    createdAt: string)

  /** `incorrect_answers` as it arrives: already a string, a list to be serialised, or
      missing from the posted JSON. */
  datatype IncorrectAnswers = Serialized(text: string) | AnswerList(items: seq<string>) | Absent

  /** A question as posted to the admin API (`QuestionData`); a field the JSON body lacks is None. */
  datatype QuestionData = QuestionData(
    question: Option<string>,
    correctAnswer: Option<string>,
    incorrectAnswers: IncorrectAnswers,
    category: Option<string>,
    difficulty: Option<string>)

  /** The value assigned to the `incorrect_answers` column: a string is kept as it is,
      anything else goes through `JSON.stringify`, given here as `stringify` for lists.
      `JSON.stringify(undefined)` is `undefined`, so a missing field leaves the column
      without a value (None). */
  function StoredIncorrectAnswers(field: IncorrectAnswers, stringify: seq<string> -> string): (stored: Option<string>)
    ensures field.Serialized? ==> stored == Some(field.text)
    ensures field.AnswerList? ==> stored == Some(stringify(field.items))
    ensures stored.None? <==> field.Absent?
  {
    match field
    case Serialized(text) => Some(text)
    case AnswerList(items) => Some(stringify(items))
    case Absent => None
  }

  /** When `parse` undoes `stringify`, the stored column gives back the posted list. */
  lemma StoredAnswersRoundTrip(items: seq<string>, stringify: seq<string> -> string, parse: string -> Option<seq<string>>)
    requires parse(stringify(items)) == Some(items)
    ensures var stored := StoredIncorrectAnswers(AnswerList(items), stringify);
      stored.Some? && parse(stored.value) == Some(items)
  {
  }

  predicate Distinct<T(==)>(xs: seq<T>)
  {
    forall i, j :: 0 <= i < j < |xs| ==> xs[i] != xs[j]
  }

  /** `[...new Set(categories.map(c => c.mainCategory))]`: each main category once,
      in order of first occurrence. */
  function DistinctMains(categories: seq<Category>): (mains: seq<string>)
    ensures Distinct(mains)
    ensures forall m :: m in mains <==> exists c :: c in categories && c.mainCategory == m
    ensures |mains| <= |categories|
  {
    if categories == [] then []
    else
      var init := categories[..|categories| - 1];
      var last := categories[|categories| - 1];
      var d := DistinctMains(init);
      assert forall c :: c in categories <==> c in init || c == last by {
        assert categories == init + [last];
      }
      if last.mainCategory in d then d else d + [last.mainCategory]
  }

}
