/** Question import on the device database (models/database.ts): `addQuestion` creates one
    record, `importQuestions` creates records in write batches of 50 and keeps those whose
    creation succeeded. Whether each creation succeeds is given per question. */
module BulkImport {
  import opened Wrappers
  import opened BankTypes

  const BATCH_SIZE: nat := 50

  /** A created `Question` record; a field missing from the posted data stays missing. */
  datatype ImportedQuestion = ImportedQuestion(
    question: Option<string>,
    correctAnswer: Option<string>,
    incorrectAnswers: Option<string>,
    category: Option<string>,
    difficulty: Option<string>,
    createdAt: string)

  /** What creating one record meets: whether `create` succeeds, and what `new Date()` reads
      inside its callback. */
  datatype Creation = Creation(ok: bool, now: string)

  /** The record the `create` callback fills in for `data`. */
  function Created(data: QuestionData, now: string, stringify: seq<string> -> string): (q: ImportedQuestion)
    ensures q.question == data.question && q.correctAnswer == data.correctAnswer
    ensures q.category == data.category && q.difficulty == data.difficulty && q.createdAt == now
    ensures data.incorrectAnswers.Serialized? ==> q.incorrectAnswers == Some(data.incorrectAnswers.text)
    ensures data.incorrectAnswers.AnswerList? ==> q.incorrectAnswers == Some(stringify(data.incorrectAnswers.items))
    ensures data.incorrectAnswers.Absent? <==> q.incorrectAnswers.None?
  {
    ImportedQuestion(data.question, data.correctAnswer,
      StoredIncorrectAnswers(data.incorrectAnswers, stringify),
      data.category, data.difficulty, now)
  }

  /** `addQuestion`. */
  function AddQuestion(data: QuestionData, now: string, stringify: seq<string> -> string): (q: ImportedQuestion)
    ensures q == Created(data, now, stringify)
    ensures data.incorrectAnswers.Serialized? ==> q.incorrectAnswers == Some(data.incorrectAnswers.text)
  {
    Created(data, now, stringify)
  }

  /** Consecutive slices of at most `BATCH_SIZE`, as `slice(i, i + 50)` for i = 0, 50, ... */
  function Batches<T>(s: seq<T>): (bs: seq<seq<T>>)
    ensures forall b :: b in bs ==> 0 < |b| <= BATCH_SIZE
    decreases |s|
  {
    if s == [] then []
    else if |s| <= BATCH_SIZE then [s]
    else [s[..BATCH_SIZE]] + Batches(s[BATCH_SIZE..])
  }

  function Flatten<T>(bs: seq<seq<T>>): seq<T>
  {
    if bs == [] then [] else bs[0] + Flatten(bs[1..])
  }

  /** The batches cover the input exactly once, in order, and there are ceil(n / 50) of them. */
  lemma {:induction false} BatchesCover<T>(s: seq<T>)
    ensures Flatten(Batches(s)) == s
    ensures |Batches(s)| == (|s| + BATCH_SIZE - 1) / BATCH_SIZE
    decreases |s|
  {
    if s != [] && |s| > BATCH_SIZE {
      BatchesCover(s[BATCH_SIZE..]);
      assert Batches(s)[1..] == Batches(s[BATCH_SIZE..]);
      assert s[..BATCH_SIZE] + s[BATCH_SIZE..] == s;
    }
  }

  /** The records whose creation succeeded, in input order (`filter(result !== null)`);
      each is stamped with the time its own callback read. */
  function Survivors(data: seq<QuestionData>, creations: seq<Creation>, stringify: seq<string> -> string): (r: seq<ImportedQuestion>)
    requires |creations| == |data|
    ensures |r| <= |data|
  {
    if data == [] then []
    else
      (if creations[0].ok then [Created(data[0], creations[0].now, stringify)] else [])
        + Survivors(data[1..], creations[1..], stringify)
  }

  lemma {:induction false} SurvivorsAppend(a: seq<QuestionData>, b: seq<QuestionData>, ca: seq<Creation>, cb: seq<Creation>,
                                           stringify: seq<string> -> string)
    requires |ca| == |a| && |cb| == |b|
    ensures Survivors(a + b, ca + cb, stringify) == Survivors(a, ca, stringify) + Survivors(b, cb, stringify)
  {
    if a == [] {
      assert a + b == b && ca + cb == cb;
    } else {
      SurvivorsAppend(a[1..], b, ca[1..], cb, stringify);
      assert (a + b)[0] == a[0] && (ca + cb)[0] == ca[0];
      assert (a + b)[1..] == a[1..] + b && (ca + cb)[1..] == ca[1..] + cb;
      var head := if ca[0].ok then [Created(a[0], ca[0].now, stringify)] else [];
      assert Survivors(a + b, ca + cb, stringify) == head + Survivors(a[1..] + b, ca[1..] + cb, stringify);
      assert Survivors(a, ca, stringify) == head + Survivors(a[1..], ca[1..], stringify);
    }
  }

  /** When every creation succeeds, every question is imported, in order. */
  lemma {:induction false} AllSucceedKeepsAll(data: seq<QuestionData>, creations: seq<Creation>, stringify: seq<string> -> string)
    requires |creations| == |data| && forall i :: 0 <= i < |creations| ==> creations[i].ok
    ensures |Survivors(data, creations, stringify)| == |data|
    ensures forall i :: 0 <= i < |data| ==>
      Survivors(data, creations, stringify)[i] == Created(data[i], creations[i].now, stringify)
  {
    if data != [] {
      AllSucceedKeepsAll(data[1..], creations[1..], stringify);
    }
  }

  /** The slice taken at `i` is the first of the batches still to come. */
  lemma NextBatch<T>(s: seq<T>, i: nat, end: nat)
    requires i < |s| && end == if i + BATCH_SIZE <= |s| then i + BATCH_SIZE else |s|
    ensures Batches(s[i..]) == [s[i..end]] + Batches(s[end..])
  {
    var rest := s[i..];
    if |rest| <= BATCH_SIZE {
      assert s[i..end] == rest && s[end..] == [];
    } else {
      assert rest[..BATCH_SIZE] == s[i..end];
      assert rest[BATCH_SIZE..] == s[end..];
    }
  }

  lemma SurvivorsExtend(data: seq<QuestionData>, creations: seq<Creation>, i: nat, end: nat, stringify: seq<string> -> string)
    requires |creations| == |data| && i <= end <= |data|
    ensures Survivors(data[..end], creations[..end], stringify)
      == Survivors(data[..i], creations[..i], stringify) + Survivors(data[i..end], creations[i..end], stringify)
  {
    SurvivorsAppend(data[..i], data[i..end], creations[..i], creations[i..end], stringify);
    assert data[..i] + data[i..end] == data[..end];
    assert creations[..i] + creations[i..end] == creations[..end];
  }

  /** `importQuestions`: `data` None stands for a missing argument; `creations[i]` says whether
      creating the i-th record succeeds and when. `batches` are the slices handed to
      `database.write`. */
  method ImportQuestions(data: Option<seq<QuestionData>>, creations: seq<Creation>, stringify: seq<string> -> string)
    returns (results: seq<ImportedQuestion>, batches: seq<seq<QuestionData>>)
    requires data.Some? ==> |creations| == |data.value|
    ensures data.None? || data.value == [] ==> results == [] && batches == []
    ensures data.Some? ==> results == Survivors(data.value, creations, stringify)
    ensures data.Some? ==> batches == Batches(data.value)
  {
    if data.None? || |data.value| == 0 {
      return [], [];
    }
    var questions := data.value;
    results := [];
    batches := [];
    var i := 0;
    while i < |questions|
      invariant 0 <= i <= |questions|
      invariant results == Survivors(questions[..i], creations[..i], stringify)
      invariant batches + Batches(questions[i..]) == Batches(questions)
      decreases |questions| - i
    {
      var end := if i + BATCH_SIZE <= |questions| then i + BATCH_SIZE else |questions|;
      var batch := questions[i..end];
      NextBatch(questions, i, end);
      var kept := Survivors(batch, creations[i..end], stringify);
      SurvivorsExtend(questions, creations, i, end, stringify);
      results := results + kept;
      batches := batches + [batch];
      i := end;
    }
    assert questions[..i] == questions && creations[..i] == creations;
  }
}
