/** Server-side question-bank rules (models/database.web.ts, utils/server-db.ts): duplicate
    detection, the whole-word answer check, the categories table and the backup file.
    A table is the sequence of its rows in storage order. */
module QuestionDb {
  import opened Wrappers
  import opened Ordering
  import opened Text
  import opened BankTypes

  // ---- duplicate detection -------------------------------------------------------------

  /** The rows satisfying `keep`, in table order. */
  function Where<T(==,!new)>(rows: seq<T>, keep: T -> bool): (r: seq<T>)
    ensures |r| <= |rows|
    ensures forall x :: x in r <==> x in rows && keep(x)
  {
    if rows == [] then []
    else (if keep(rows[0]) then [rows[0]] else []) + Where(rows[1..], keep)
  }

  /** `WHERE LOWER(question) = LOWER(?)`. */
  function ExactMatches<T(==,!new)>(rows: seq<T>, text: T -> string, questionText: string): seq<T>
  {
    Where(rows, (r: T) => Lower(text(r)) == Lower(questionText))
  }

  /** `WHERE LOWER(question) LIKE LOWER('%' || ? || '%')`, the text taken literally. */
  function FuzzyMatches<T(==,!new)>(rows: seq<T>, text: T -> string, questionText: string): seq<T>
  {
    Where(rows, (r: T) => Contains(Lower(text(r)), Lower(questionText)))
  }

  /** `findSimilarQuestions` against a reachable table: exact matches when there are any,
      otherwise the first five fuzzy matches. */
  function FindSimilar<T(==,!new)>(rows: seq<T>, text: T -> string, questionText: string): (similar: seq<T>)
    ensures ExactMatches(rows, text, questionText) != [] ==> similar == ExactMatches(rows, text, questionText)
    ensures ExactMatches(rows, text, questionText) == [] ==>
      |similar| <= 5 && similar <= FuzzyMatches(rows, text, questionText)
    ensures ExactMatches(rows, text, questionText) == [] ==>
      |similar| == (if |FuzzyMatches(rows, text, questionText)| < 5
                    then |FuzzyMatches(rows, text, questionText)| else 5)
    ensures forall x :: x in similar ==> x in rows && Contains(Lower(text(x)), Lower(questionText))
  {
    var exact := ExactMatches(rows, text, questionText);
    if |exact| > 0 then
      forall x | x in exact ensures Contains(Lower(text(x)), Lower(questionText)) {
        ContainsSelf(Lower(text(x)));
      }
      exact
    else
      var fuzzy := FuzzyMatches(rows, text, questionText);
      if |fuzzy| <= 5 then fuzzy else fuzzy[..5]
  }

  /** Nothing similar is reported exactly when no stored question contains the text,
      ignoring case. */
  lemma FindSimilarEmptyIff<T(!new)>(rows: seq<T>, text: T -> string, questionText: string)
    ensures FindSimilar(rows, text, questionText) == [] <==>
      forall x :: x in rows ==> !Contains(Lower(text(x)), Lower(questionText))
  {
    var exact := ExactMatches(rows, text, questionText);
    var fuzzy := FuzzyMatches(rows, text, questionText);
    if exact == [] && fuzzy != [] {
      assert fuzzy[0] in fuzzy;
      assert FindSimilar(rows, text, questionText)[0] == fuzzy[0];
    }
    if exact != [] {
      assert exact[0] in exact;
    }
  }

  /** A stored question equal to the text up to case is always reported, and then only such
      questions are. */
  lemma ExactMatchWins<T(!new)>(rows: seq<T>, text: T -> string, questionText: string, x: T)
    requires x in rows && Lower(text(x)) == Lower(questionText)
    ensures x in FindSimilar(rows, text, questionText)
    ensures forall y :: y in FindSimilar(rows, text, questionText) ==> Lower(text(y)) == Lower(questionText)
  {
    assert x in ExactMatches(rows, text, questionText);
  }

  /** `findSimilarQuestions` as called: `table` is None when there is no connection or the
      query throws, and the error turns into an empty list. */
  function FindSimilarQuestions<T(==,!new)>(table: Option<seq<T>>, text: T -> string, questionText: string): (similar: seq<T>)
    ensures table.None? ==> similar == []
    ensures table.Some? ==> similar == FindSimilar(table.value, text, questionText)
  {
    match table
    case None => []
    case Some(rows) => FindSimilar(rows, text, questionText)
  }

  // ---- whole-word answer check -----------------------------------------------------------

  /** A word character of `\w`: ASCII letter, digit or underscore. */
  predicate IsWordChar(ch: char)
  {
    ('a' <= ch <= 'z') || ('A' <= ch <= 'Z') || ('0' <= ch <= '9') || ch == '_'
  }

  predicate WordAt(s: string, p: int)
  {
    0 <= p < |s| && IsWordChar(s[p])
  }

  /** `\b` holds at position `p`: a word character on exactly one side. */
  predicate BoundaryAt(s: string, p: int)
  {
    WordAt(s, p - 1) != WordAt(s, p)
  }

  predicate WholeWordAt(s: string, w: string, i: int)
  {
    OccursAt(s, w, i) && BoundaryAt(s, i) && BoundaryAt(s, i + |w|)
  }

  /** `/\bw\b/.test(s)`, with `w` read literally. */
  ghost predicate ContainsWholeWord(s: string, w: string)
  {
    exists i :: WholeWordAt(s, w, i)
  }

  /** The first index at or after `from` where `w` occurs as a whole word, scanning as the
      regular-expression engine does. */
  function FirstWholeWordFrom(s: string, w: string, from: nat): (found: Option<nat>)
    requires from <= |s| + 1
    ensures found.Some? ==> from <= found.value && WholeWordAt(s, w, found.value)
    ensures found.None? ==> forall i :: from <= i ==> !WholeWordAt(s, w, i)
    decreases |s| + 1 - from
  {
    if from + |w| > |s| then None
    else if WholeWordAt(s, w, from) then Some(from)
    else FirstWholeWordFrom(s, w, from + 1)
  }

  /** `checkQuestionContainsAnswer`: both sides lower-cased, then a whole-word search. */
  function CheckQuestionContainsAnswer(question: string, answer: string): (contains: bool)
    ensures contains <==> ContainsWholeWord(Lower(question), Lower(answer))
  {
    FirstWholeWordFrom(Lower(question), Lower(answer), 0).Some?
  }

  /** The check ignores case on both sides. */
  lemma CheckIgnoresCase(question: string, answer: string)
    ensures CheckQuestionContainsAnswer(Lower(question), answer) == CheckQuestionContainsAnswer(question, answer)
    ensures CheckQuestionContainsAnswer(question, Lower(answer)) == CheckQuestionContainsAnswer(question, answer)
  {
    LowerIdempotent(question);
    LowerIdempotent(answer);
  }

  /** A whole-word hit is in particular a substring hit. */
  lemma WholeWordIsSubstring(question: string, answer: string)
    requires CheckQuestionContainsAnswer(question, answer)
    ensures Contains(Lower(question), Lower(answer))
  {
    var i :| WholeWordAt(Lower(question), Lower(answer), i);
    assert OccursAt(Lower(question), Lower(answer), i);
  }

  /** Lower-casing text without capitals changes nothing. */
  lemma LowerOfLowercase(s: string)
    requires forall i :: 0 <= i < |s| ==> !('A' <= s[i] <= 'Z')
    ensures Lower(s) == s
  {
    assert forall i :: 0 <= i < |s| ==> Lower(s)[i] == s[i];
  }

  /** An answer inside a longer word does not count. */
  lemma AnswerInsideWordRejected()
    ensures !CheckQuestionContainsAnswer("cats", "cat")
  {
    LowerOfLowercase("cats");
    LowerOfLowercase("cat");
    assert !WholeWordAt("cats", "cat", 0) by {
      assert WordAt("cats", 3);
    }
    assert !WholeWordAt("cats", "cat", 1) by {
      assert "cats"[1..4] == "ats";
    }
    assert FirstWholeWordFrom("cats", "cat", 2) == None;
    assert FirstWholeWordFrom("cats", "cat", 1) == None;
    assert FirstWholeWordFrom("cats", "cat", 0) == None;
  }

  /** An answer standing alone counts, whatever its case in the question. */
  lemma AnswerStandingAloneFound()
    ensures CheckQuestionContainsAnswer("A cat!", "cat")
  {
    assert Lower("A cat!") == "a cat!" by {
      assert forall i :: 0 <= i < 6 ==> Lower("A cat!")[i] == "a cat!"[i];
    }
    LowerOfLowercase("cat");
    assert WholeWordAt("a cat!", "cat", 2) by {
      assert "a cat!"[2..5] == "cat";
      assert !WordAt("a cat!", 1) && WordAt("a cat!", 2);
      assert WordAt("a cat!", 4) && !WordAt("a cat!", 5);
    }
  }

  // ---- categories table --------------------------------------------------------------------

  predicate HasPair(rows: seq<Category>, mainCategory: string, subcategory: string)
  {
    exists r :: r in rows && r.mainCategory == mainCategory && r.subcategory == subcategory
  }

  /** `UNIQUE(main_category, subcategory)`. */
  predicate UniquePairs(rows: seq<Category>)
  {
    forall i, j :: 0 <= i < j < |rows| ==>
      (rows[i].mainCategory, rows[i].subcategory) != (rows[j].mainCategory, rows[j].subcategory)
  }

  /** `INSERT INTO categories`: None when the pair already exists (the constraint fires). */
  function InsertCategory(rows: seq<Category>, c: Category): (r: Option<seq<Category>>)
    ensures r.None? <==> HasPair(rows, c.mainCategory, c.subcategory)
    ensures r.Some? ==> r.value == rows + [c]
    ensures UniquePairs(rows) && r.Some? ==> UniquePairs(r.value)
  {
    if HasPair(rows, c.mainCategory, c.subcategory) then None
    else
      assert forall i :: 0 <= i < |rows| ==> (rows[i].mainCategory, rows[i].subcategory) != (c.mainCategory, c.subcategory) by {
        forall i | 0 <= i < |rows| ensures (rows[i].mainCategory, rows[i].subcategory) != (c.mainCategory, c.subcategory) {
          assert rows[i] in rows;
        }
      }
      Some(rows + [c])
  }

  /** `SELECT COUNT(*) ... WHERE main_category = ? AND subcategory = ?`. */
  function CountPair(rows: seq<Category>, mainCategory: string, subcategory: string): (n: nat)
    ensures n <= |rows|
  {
    if rows == [] then 0
    else
      var here := if rows[0].mainCategory == mainCategory && rows[0].subcategory == subcategory then 1 else 0;
      here + CountPair(rows[1..], mainCategory, subcategory)
  }

  lemma {:induction false} CountPairPositive(rows: seq<Category>, mainCategory: string, subcategory: string)
    ensures CountPair(rows, mainCategory, subcategory) > 0 <==> HasPair(rows, mainCategory, subcategory)
  {
    if rows != [] {
      CountPairPositive(rows[1..], mainCategory, subcategory);
      assert forall r :: r in rows <==> r == rows[0] || r in rows[1..];
    }
  }

  /** `validateCategory`: the pair is present. */
  function ValidateCategory(rows: seq<Category>, mainCategory: string, subcategory: string): (valid: bool)
    ensures valid <==> HasPair(rows, mainCategory, subcategory)
  {
    CountPairPositive(rows, mainCategory, subcategory);
    CountPair(rows, mainCategory, subcategory) > 0
  }

  /** Every default pair inserted in order; None when one of them collides (the whole
      transaction is rolled back). */
  function InsertAll(rows: seq<Category>, defaults: seq<Category>): (r: Option<seq<Category>>)
    ensures r.Some? ==> r.value == rows + defaults
    ensures UniquePairs(rows) && r.Some? ==> UniquePairs(r.value)
    decreases |defaults|
  {
    if defaults == [] then Some(rows)
    else
      match InsertCategory(rows, defaults[0])
      case None => None
      case Some(next) =>
        var r := InsertAll(next, defaults[1..]);
        assert r.Some? ==> r.value == rows + defaults by {
          assert rows + [defaults[0]] + defaults[1..] == rows + defaults;
        }
        r
  }

  /** Distinct default pairs all go in. */
  lemma {:induction false} InsertAllSucceeds(rows: seq<Category>, defaults: seq<Category>)
    requires UniquePairs(rows + defaults)
    ensures InsertAll(rows, defaults).Some?
    decreases |defaults|
  {
    if defaults != [] {
      var all := rows + defaults;
      assert !HasPair(rows, defaults[0].mainCategory, defaults[0].subcategory) by {
        forall k | 0 <= k < |rows|
          ensures (rows[k].mainCategory, rows[k].subcategory) != (defaults[0].mainCategory, defaults[0].subcategory)
        {
          assert all[k] == rows[k] && all[|rows|] == defaults[0];
        }
      }
      assert rows + [defaults[0]] + defaults[1..] == all;
      InsertAllSucceeds(rows + [defaults[0]], defaults[1..]);
    }
  }

  /** Order used by `ORDER BY main_category, subcategory` (BINARY collation). */
  predicate PairLeq(a: Category, b: Category)
  {
    if a.mainCategory != b.mainCategory then StrLeq(a.mainCategory, b.mainCategory)
    else StrLeq(a.subcategory, b.subcategory)
  }

  lemma PairLeqIsTotalPreorder()
    ensures TotalPreorder(PairLeq)
  {
    forall a: Category, b: Category ensures PairLeq(a, b) || PairLeq(b, a) {
      StrLeqTotal(a.mainCategory, b.mainCategory);
      StrLeqTotal(a.subcategory, b.subcategory);
    }
    forall a: Category, b: Category, c: Category | PairLeq(a, b) && PairLeq(b, c) ensures PairLeq(a, c) {
      if a.mainCategory != b.mainCategory && b.mainCategory != c.mainCategory {
        StrLeqTransitive(a.mainCategory, b.mainCategory, c.mainCategory);
        if a.mainCategory == c.mainCategory {
          StrLeqAntisymmetric(a.mainCategory, b.mainCategory);
        }
      } else if a.mainCategory == b.mainCategory && b.mainCategory == c.mainCategory {
        StrLeqTransitive(a.subcategory, b.subcategory, c.subcategory);
      }
    }
  }

  /** The categories table as the database module keeps it. */
  class CategoryTable {
    var rows: seq<Category>

    ghost predicate Valid()
      reads this
    {
      UniquePairs(rows)
    }

    constructor ()
      ensures rows == [] && Valid()
    {
      rows := [];
    }

    /** The population step of `initDatabase`: only an empty table receives the defaults, in
        one transaction; `ok` is false when the transaction threw and was rolled back. */
    method PopulateIfEmpty(defaults: seq<Category>) returns (ok: bool)
      requires Valid()
      modifies this
      ensures Valid()
      ensures old(rows) != [] ==> ok && rows == old(rows)
      ensures old(rows) == [] ==> (ok <==> InsertAll([], defaults).Some?)
      ensures old(rows) == [] && ok ==> rows == defaults
      ensures !ok ==> rows == old(rows)
    {
      if |rows| != 0 {
        return true;
      }
      var saved := rows;
      var i := 0;
      ok := true;
      while i < |defaults|
        invariant 0 <= i <= |defaults|
        invariant UniquePairs(rows)
        invariant rows == defaults[..i]
        invariant InsertAll([], defaults) == InsertAll(rows, defaults[i..])
      {
        var next := InsertCategory(rows, defaults[i]);
        if next.None? {
          rows := saved;
          return false;
        }
        assert defaults[i..][1..] == defaults[i + 1..];
        rows := next.value;
        assert defaults[..i + 1] == defaults[..i] + [defaults[i]];
        i := i + 1;
      }
      assert defaults[..i] == defaults;
    }

    /** `getCategories`: every row once, ordered by main category then subcategory. */
    function GetCategories(): (sorted: seq<Category>)
      reads this
      ensures multiset(sorted) == multiset(rows)
      ensures SortedBy(sorted, PairLeq)
    {
      PairLeqIsTotalPreorder();
      SortByIsSorted(rows, PairLeq);
      SortBy(rows, PairLeq)
    }
  }

  // ---- backup file ---------------------------------------------------------------------

  /** One line of `questions_backup.json`: the posted question and when it was saved. */
  datatype BackupEntry = BackupEntry(question: QuestionData, backupTimestamp: string)

  /** What reading the backup file yields: no file, text `JSON.parse` rejects, a JSON value
      that is not a list, or a list of entries. */
  datatype BackupContent = NoFile | Unparsable | NotAList | Entries(entries: seq<BackupEntry>)

  datatype BackupResult = BackupResult(content: BackupContent, saved: bool)

  /** `saveQuestionToBackupFile`: `now` is the ISO timestamp, `writeOk` whether creating the
      directory and writing the file succeed. */
  function SaveToBackup(content: BackupContent, question: QuestionData, now: string, writeOk: bool): (r: BackupResult)
    ensures r.saved <==> writeOk && !content.NotAList?
    ensures !r.saved ==> r.content == content
    ensures r.saved && content.Entries? ==> r.content == Entries(content.entries + [BackupEntry(question, now)])
    ensures r.saved && !content.Entries? ==> r.content == Entries([BackupEntry(question, now)])
  {
    match content
    case NotAList => BackupResult(content, false)
    case Entries(entries) =>
      if writeOk then BackupResult(Entries(entries + [BackupEntry(question, now)]), true)
      else BackupResult(content, false)
    case _ =>
      if writeOk then BackupResult(Entries([BackupEntry(question, now)]), true)
      else BackupResult(content, false)
  }

  /** One save per question, in order, the i-th write succeeding when `writeOk[i]` holds. */
  function SaveAll(content: BackupContent, questions: seq<QuestionData>, now: string, writeOk: seq<bool>): BackupContent
    requires |writeOk| == |questions|
    decreases |questions|
  {
    if questions == [] then content
    else SaveAll(SaveToBackup(content, questions[0], now, writeOk[0]).content, questions[1..], now, writeOk[1..])
  }

  function CountTrue(bs: seq<bool>): nat
  {
    if bs == [] then 0 else (if bs[0] then 1 else 0) + CountTrue(bs[1..])
  }

  /** The backup only grows: after a run of saves the old entries are a prefix, and one entry
      was appended per successful save. */
  lemma {:induction false} BackupAppendOnly(entries: seq<BackupEntry>, questions: seq<QuestionData>, now: string, writeOk: seq<bool>)
    requires |writeOk| == |questions|
    ensures SaveAll(Entries(entries), questions, now, writeOk).Entries?
    ensures entries <= SaveAll(Entries(entries), questions, now, writeOk).entries
    ensures |SaveAll(Entries(entries), questions, now, writeOk).entries| == |entries| + CountTrue(writeOk)
    decreases |questions|
  {
    if questions != [] {
      var next := SaveToBackup(Entries(entries), questions[0], now, writeOk[0]).content;
      BackupAppendOnly(next.entries, questions[1..], now, writeOk[1..]);
    }
  }

  class BackupFile {
    var content: BackupContent

    constructor (initial: BackupContent)
      ensures content == initial
    {
      content := initial;
    }

    method SaveQuestionToBackupFile(question: QuestionData, now: string, writeOk: bool) returns (saved: bool)
      modifies this
      ensures BackupResult(content, saved) == SaveToBackup(old(content), question, now, writeOk)
    {
      var r := SaveToBackup(content, question, now, writeOk);
      content := r.content;
      saved := r.saved;
    }
  }
}
