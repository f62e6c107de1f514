/** The category filter of the question pool (hooks/useQuestionManager.ts,
    `filterQuestionsByCategories`): keep the questions whose category name belongs to a
    selected catalogue entry, or everything while there is nothing to filter by. */
module CategoryFilter {
  import opened TriviaTypes

  /** The `allowedNames` set: names of the catalogue entries whose id is selected. */
  function AllowedNames(categories: seq<OtdbCategory>, selectedIds: seq<int>): set<string>
  {
    set c | c in categories && c.id in selectedIds :: c.name
  }

  /** `questions.filter(q => names.has(q.category))`. */
  function KeepNamed(questions: seq<QuestionDetails>, names: set<string>): (r: seq<QuestionDetails>)
    ensures |r| <= |questions|
    ensures forall q :: q in r <==> q in questions && q.category in names
  {
    if questions == [] then []
    else (if questions[0].category in names then [questions[0]] else [])
         + KeepNamed(questions[1..], names)
  }

  /** True when the filter is switched off: no selection, or no catalogue loaded yet. */
  predicate PassThrough(categories: seq<OtdbCategory>, selectedIds: seq<int>)
  {
    |selectedIds| == 0 || |categories| == 0
  }

  /** Whether a question survives the filter. */
  predicate Admits(categories: seq<OtdbCategory>, selectedIds: seq<int>, q: QuestionDetails)
  {
    PassThrough(categories, selectedIds) || q.category in AllowedNames(categories, selectedIds)
  }

  function FilterQuestionsByCategories(
    questions: seq<QuestionDetails>, categories: seq<OtdbCategory>, selectedIds: seq<int>
  ): (r: seq<QuestionDetails>)
    ensures PassThrough(categories, selectedIds) ==> r == questions
    ensures |r| <= |questions|
    ensures forall q :: q in r <==> q in questions && Admits(categories, selectedIds, q)
  {
    if PassThrough(categories, selectedIds) then questions
    else KeepNamed(questions, AllowedNames(categories, selectedIds))
  }

  /** `a` is an order-preserving subsequence of `b`. */
  ghost predicate IsSubsequence<T>(a: seq<T>, b: seq<T>)
    decreases |b|
  {
    if a == [] then true
    else if b == [] then false
    else if a[0] == b[0] then IsSubsequence(a[1..], b[1..])
    else IsSubsequence(a, b[1..])
  }

  lemma {:induction false} KeepNamedIsSubsequence(questions: seq<QuestionDetails>, names: set<string>)
    ensures IsSubsequence(KeepNamed(questions, names), questions)
  {
    if questions != [] {
      KeepNamedIsSubsequence(questions[1..], names);
      var rest := KeepNamed(questions[1..], names);
      if questions[0].category in names {
        assert KeepNamed(questions, names) == [questions[0]] + rest;
        assert ([questions[0]] + rest)[1..] == rest;
      } else {
        assert KeepNamed(questions, names) == rest;
        SubsequenceOfTail(rest, questions);
      }
    }
  }

  lemma {:induction false} SubsequenceOfTail<T>(a: seq<T>, b: seq<T>)
    requires b != []
    requires IsSubsequence(a, b[1..])
    ensures IsSubsequence(a, b)
    decreases |a| + |b|
  {
    if a != [] && a[0] == b[0] {
      SubsequenceDropHead(a, b[1..]);
    }
  }

  lemma {:induction false} SubsequenceDropHead<T>(a: seq<T>, c: seq<T>)
    requires a != []
    requires IsSubsequence(a, c)
    ensures IsSubsequence(a[1..], c)
    decreases |a| + |c|
  {
    if c != [] {
      if a[0] == c[0] {
        SubsequenceOfTail(a[1..], c);
      } else {
        SubsequenceDropHead(a, c[1..]);
        SubsequenceOfTail(a[1..], c);
      }
    }
  }

  /** The filter keeps questions in their original relative order. */
  lemma FilterIsSubsequence(
    questions: seq<QuestionDetails>, categories: seq<OtdbCategory>, selectedIds: seq<int>)
    ensures IsSubsequence(FilterQuestionsByCategories(questions, categories, selectedIds), questions)
  {
    if PassThrough(categories, selectedIds) {
      SubsequenceReflexive(questions);
    } else {
      KeepNamedIsSubsequence(questions, AllowedNames(categories, selectedIds));
    }
  }

  lemma {:induction false} SubsequenceReflexive<T>(s: seq<T>)
    ensures IsSubsequence(s, s)
  {
    if s != [] {
      SubsequenceReflexive(s[1..]);
    }
  }

  lemma {:induction false} KeepNamedIdempotent(questions: seq<QuestionDetails>, names: set<string>)
    ensures KeepNamed(KeepNamed(questions, names), names) == KeepNamed(questions, names)
  {
    if questions != [] {
      KeepNamedIdempotent(questions[1..], names);
      var rest := KeepNamed(questions[1..], names);
      if questions[0].category in names {
        var once := [questions[0]] + rest;
        assert once[0] == questions[0] && once[1..] == rest;
        assert KeepNamed(once, names) == [questions[0]] + KeepNamed(rest, names);
      } else {
        assert KeepNamed(questions, names) == rest;
      }
    }
  }

  /** Filtering an already filtered list with the same selection changes nothing. */
  lemma FilterIdempotent(
    questions: seq<QuestionDetails>, categories: seq<OtdbCategory>, selectedIds: seq<int>)
    ensures var once := FilterQuestionsByCategories(questions, categories, selectedIds);
            FilterQuestionsByCategories(once, categories, selectedIds) == once
  {
    if !PassThrough(categories, selectedIds) {
      KeepNamedIdempotent(questions, AllowedNames(categories, selectedIds));
    }
  }

  lemma {:induction false} KeepNamedAppend(a: seq<QuestionDetails>, b: seq<QuestionDetails>, names: set<string>)
    ensures KeepNamed(a + b, names) == KeepNamed(a, names) + KeepNamed(b, names)
  {
    if a == [] {
      assert a + b == b;
    } else {
      assert (a + b)[1..] == a[1..] + b;
      KeepNamedAppend(a[1..], b, names);
    }
  }

  /** The filter distributes over concatenation: filtering a buffer and a new batch
      separately and appending gives the filtered whole. */
  lemma FilterAppend(
    a: seq<QuestionDetails>, b: seq<QuestionDetails>, categories: seq<OtdbCategory>, selectedIds: seq<int>)
    ensures FilterQuestionsByCategories(a + b, categories, selectedIds)
         == FilterQuestionsByCategories(a, categories, selectedIds)
          + FilterQuestionsByCategories(b, categories, selectedIds)
  {
    if !PassThrough(categories, selectedIds) {
      KeepNamedAppend(a, b, AllowedNames(categories, selectedIds));
    }
  }

}
