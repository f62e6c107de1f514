/** The admin ingestion endpoints: `POST` in app/questions+api.ts and `POST /api/questions`
    plus `POST /api/questions/check-duplicates` in server.js. Each posted question is
    validated (API route only), checked for similar stored questions, and inserted; the
    insert of one question happens before the next one is checked. What the database and
    the clock do is given per item: the generated id and whether the insert throws. */
module Ingestion {
  import opened Wrappers
  import opened Text
  import opened BankTypes
  import opened QuestionDb

  /** The JSON body: a list of questions or a single question. */
  datatype Body = ListBody(items: seq<QuestionData>) | ObjectBody(item: QuestionData)

  /** `Array.isArray(body) ? body : [body]`. */
  function QuestionsData(body: Body): (items: seq<QuestionData>)
    ensures body.ObjectBody? ==> items == [body.item]
    ensures body.ListBody? ==> items == body.items
    ensures |items| >= 1 || body.ListBody?
  {
    match body
    case ListBody(items) => items
    case ObjectBody(item) => [item]
  }

  /** What the insert of one item meets: the id `generateUUID` produced, what `new Date()`
      read, and the error message when the database rejects a well-formed row. */
  datatype ItemEnv = ItemEnv(id: string, now: string, insertError: Option<string>)

  datatype DuplicateEntry<R> = DuplicateEntry(newQuestion: QuestionData, similarQuestions: seq<R>)

  /** `addedData`, `duplicatesData` and `errorsData`; the reported counts are their lengths. */
  datatype Report<R, E> = Report(added: seq<R>, duplicates: seq<DuplicateEntry<R>>, errors: seq<E>)

  /** The loop's state: the table, the three lists, and the questions handed to the backup. */
  datatype Progress<R, E> = Progress(rows: seq<R>, report: Report<R, E>, backedUp: seq<QuestionData>)

  function Total<R, E>(r: Report<R, E>): nat
  {
    |r.added| + |r.duplicates| + |r.errors|
  }

  // ---- app/questions+api.ts ----------------------------------------------------------------

  /** A stored row of the API route's `questions` table. */
  datatype QuestionRow = QuestionRow(
    id: string,
    question: string,
    correctAnswer: string,
    incorrectAnswers: string,
    category: string,
    difficulty: string,
    createdAt: string)

  datatype ApiError = ApiError(question: string, error: string)

  function RowText(r: QuestionRow): string { r.question }

  /** A field is truthy: present and not the empty string. */
  predicate Filled(f: Option<string>)
  {
    f.Some? && f.value != ""
  }

  predicate Complete(data: QuestionData)
  {
    Filled(data.question) && Filled(data.correctAnswer) && Filled(data.category) && Filled(data.difficulty)
  }

  /** `data.question || 'Unknown'`. */
  function QuestionOrUnknown(data: QuestionData): string
  {
    if Filled(data.question) then data.question.value else "Unknown"
  }

  /** SQLite's reply, as `String(err)`, to a row whose `incorrect_answers` has no value:
      the column is declared NOT NULL (utils/server-db.ts). */
  const NotNullError: string := "SqliteError: NOT NULL constraint failed: questions.incorrect_answers"

  /** The row inserted for `data`; only a complete item with its incorrect answers present
      reaches the insert without an error. */
  function NewRow(data: QuestionData, env: ItemEnv, stringify: seq<string> -> string): (row: QuestionRow)
    requires Complete(data) && !data.incorrectAnswers.Absent?
    ensures Some(row.incorrectAnswers) == StoredIncorrectAnswers(data.incorrectAnswers, stringify)
    ensures row.question == data.question.value && row.correctAnswer == data.correctAnswer.value
    ensures row.category == data.category.value && row.difficulty == data.difficulty.value
    ensures row.id == env.id && row.createdAt == env.now
  {
    QuestionRow(env.id, data.question.value, data.correctAnswer.value,
      StoredIncorrectAnswers(data.incorrectAnswers, stringify).value,
      data.category.value, data.difficulty.value, env.now)
  }

  /** `data` passes validation, has no similar stored question, and its insert succeeds. */
  predicate Inserts(rows: seq<QuestionRow>, data: QuestionData, env: ItemEnv)
  {
    Complete(data) && FindSimilar(rows, RowText, data.question.value) == []
    && !data.incorrectAnswers.Absent? && env.insertError.None?
  }

  /** One pass of the loop body for `data`. */
  function ApiStep(p: Progress<QuestionRow, ApiError>, data: QuestionData, env: ItemEnv,
                   stringify: seq<string> -> string): (q: Progress<QuestionRow, ApiError>)
    ensures Total(q.report) == Total(p.report) + 1
    ensures !Complete(data) ==>
      q == p.(report := p.report.(errors := p.report.errors + [ApiError(QuestionOrUnknown(data), "Missing required fields")]))
    ensures Complete(data) && FindSimilar(p.rows, RowText, data.question.value) != [] ==>
      q == p.(report := p.report.(duplicates := p.report.duplicates
        + [DuplicateEntry(data, FindSimilar(p.rows, RowText, data.question.value))]))
    ensures Complete(data) && FindSimilar(p.rows, RowText, data.question.value) == [] && data.incorrectAnswers.Absent? ==>
      q == p.(report := p.report.(errors := p.report.errors + [ApiError(data.question.value, NotNullError)]))
    ensures (Complete(data) && FindSimilar(p.rows, RowText, data.question.value) == []
      && !data.incorrectAnswers.Absent? && env.insertError.Some?) ==>
      q == p.(report := p.report.(errors := p.report.errors + [ApiError(data.question.value, env.insertError.value)]))
    ensures Inserts(p.rows, data, env) ==>
      var row := NewRow(data, env, stringify);
      q == Progress(p.rows + [row], p.report.(added := p.report.added + [row]), p.backedUp + [data])
    ensures !Inserts(p.rows, data, env) ==>
      q.rows == p.rows && q.report.added == p.report.added && q.backedUp == p.backedUp
  {
    if !Complete(data) then
      p.(report := p.report.(errors := p.report.errors + [ApiError(QuestionOrUnknown(data), "Missing required fields")]))
    else
      var similar := FindSimilar(p.rows, RowText, data.question.value);
      if |similar| > 0 then
        p.(report := p.report.(duplicates := p.report.duplicates + [DuplicateEntry(data, similar)]))
      else if data.incorrectAnswers.Absent? then
        p.(report := p.report.(errors := p.report.errors + [ApiError(QuestionOrUnknown(data), NotNullError)]))
      else if env.insertError.Some? then
        p.(report := p.report.(errors := p.report.errors + [ApiError(QuestionOrUnknown(data), env.insertError.value)]))
      else
        var row := NewRow(data, env, stringify);
        Progress(p.rows + [row], p.report.(added := p.report.added + [row]), p.backedUp + [data])
  }

  /** The loop over a whole batch. */
  function ApiRun(p: Progress<QuestionRow, ApiError>, items: seq<QuestionData>, envs: seq<ItemEnv>,
                  stringify: seq<string> -> string): Progress<QuestionRow, ApiError>
    requires |envs| == |items|
  {
    if items == [] then p
    else
      var n := |items| - 1;
      ApiStep(ApiRun(p, items[..n], envs[..n], stringify), items[n], envs[n], stringify)
  }

  /** Every posted question lands in exactly one list; the table grows by exactly the added
      rows, in order; every added question is handed to the backup. */
  lemma {:induction false} ApiRunAccounts(p: Progress<QuestionRow, ApiError>, items: seq<QuestionData>,
                                          envs: seq<ItemEnv>, stringify: seq<string> -> string)
    requires |envs| == |items|
    ensures var q := ApiRun(p, items, envs, stringify);
      && Total(q.report) == Total(p.report) + |items|
      && p.report.added <= q.report.added
      && q.rows == p.rows + q.report.added[|p.report.added|..]
      && p.backedUp <= q.backedUp
      && |q.backedUp| - |p.backedUp| == |q.report.added| - |p.report.added|
  {
    if items != [] {
      var n := |items| - 1;
      var mid := ApiRun(p, items[..n], envs[..n], stringify);
      ApiRunAccounts(p, items[..n], envs[..n], stringify);
      var q := ApiStep(mid, items[n], envs[n], stringify);
      assert q.report.added[|p.report.added|..]
        == mid.report.added[|p.report.added|..] + q.report.added[|mid.report.added|..];
    }
  }

  /** Item `i` is inserted iff it passes every check against the table the loop has built
      from the items before it. */
  predicate ApiInsertsAt(p: Progress<QuestionRow, ApiError>, items: seq<QuestionData>, envs: seq<ItemEnv>,
                         stringify: seq<string> -> string, i: nat)
    requires |envs| == |items| && i < |items|
  {
    Inserts(ApiRun(p, items[..i], envs[..i], stringify).rows, items[i], envs[i])
  }

  /** The items among the first `k` that are inserted, in input order. */
  function ApiInsertedItems(p: Progress<QuestionRow, ApiError>, items: seq<QuestionData>, envs: seq<ItemEnv>,
                            stringify: seq<string> -> string, k: nat): (inserted: seq<QuestionData>)
    requires |envs| == |items| && k <= |items|
    ensures |inserted| <= k
    ensures forall d :: d in inserted ==> Complete(d) && !d.incorrectAnswers.Absent? && d in items
  {
    if k == 0 then []
    else
      ApiInsertedItems(p, items, envs, stringify, k - 1)
        + (if ApiInsertsAt(p, items, envs, stringify, k - 1) then [items[k - 1]] else [])
  }

  /** The new rows of the inserted items among the first `k`, in input order. */
  function ApiAddedRows(p: Progress<QuestionRow, ApiError>, items: seq<QuestionData>, envs: seq<ItemEnv>,
                        stringify: seq<string> -> string, k: nat): (added: seq<QuestionRow>)
    requires |envs| == |items| && k <= |items|
    ensures |added| == |ApiInsertedItems(p, items, envs, stringify, k)|
  {
    if k == 0 then []
    else
      ApiAddedRows(p, items, envs, stringify, k - 1)
        + (if ApiInsertsAt(p, items, envs, stringify, k - 1) then [NewRow(items[k - 1], envs[k - 1], stringify)] else [])
  }

  /** `added` gains exactly the new rows of the inserted items, and the backup exactly
      those items, both in input order. */
  lemma ApiRunAdds(p: Progress<QuestionRow, ApiError>, items: seq<QuestionData>, envs: seq<ItemEnv>,
                   stringify: seq<string> -> string)
    requires |envs| == |items|
    ensures var q := ApiRun(p, items, envs, stringify);
      && q.report.added == p.report.added + ApiAddedRows(p, items, envs, stringify, |items|)
      && q.backedUp == p.backedUp + ApiInsertedItems(p, items, envs, stringify, |items|)
  {
    ApiRunAddsUpTo(p, items, envs, stringify, |items|);
    assert items[..|items|] == items && envs[..|items|] == envs;
  }

  lemma {:induction false} ApiRunAddsUpTo(p: Progress<QuestionRow, ApiError>, items: seq<QuestionData>, envs: seq<ItemEnv>,
                                          stringify: seq<string> -> string, k: nat)
    requires |envs| == |items| && k <= |items|
    ensures var q := ApiRun(p, items[..k], envs[..k], stringify);
      && q.report.added == p.report.added + ApiAddedRows(p, items, envs, stringify, k)
      && q.backedUp == p.backedUp + ApiInsertedItems(p, items, envs, stringify, k)
  {
    if k == 0 {
      assert items[..0] == [] && envs[..0] == [];
    } else {
      var n := k - 1;
      ApiRunAddsUpTo(p, items, envs, stringify, n);
      ApiRunSnoc(p, items, envs, stringify, k);
      var mid := ApiRun(p, items[..n], envs[..n], stringify);
      var q := ApiStep(mid, items[n], envs[n], stringify);
      var before := ApiInsertedItems(p, items, envs, stringify, n);
      var rowsBefore := ApiAddedRows(p, items, envs, stringify, n);
      if Inserts(mid.rows, items[n], envs[n]) {
        var row := NewRow(items[n], envs[n], stringify);
        assert ApiInsertedItems(p, items, envs, stringify, k) == before + [items[n]];
        assert ApiAddedRows(p, items, envs, stringify, k) == rowsBefore + [row];
        assert q.report.added == mid.report.added + [row] && q.backedUp == mid.backedUp + [items[n]];
      } else {
        assert ApiInsertedItems(p, items, envs, stringify, k) == before;
        assert ApiAddedRows(p, items, envs, stringify, k) == rowsBefore;
        assert q.report.added == mid.report.added && q.backedUp == mid.backedUp;
      }
    }
  }

  /** The run over the first `k` items is the run over the first `k - 1` and one more step. */
  lemma ApiRunSnoc(p: Progress<QuestionRow, ApiError>, items: seq<QuestionData>, envs: seq<ItemEnv>,
                   stringify: seq<string> -> string, k: nat)
    requires |envs| == |items| && 0 < k <= |items|
    ensures ApiRun(p, items[..k], envs[..k], stringify)
      == ApiStep(ApiRun(p, items[..k - 1], envs[..k - 1], stringify), items[k - 1], envs[k - 1], stringify)
  {
    assert items[..k][..k - 1] == items[..k - 1] && envs[..k][..k - 1] == envs[..k - 1];
  }

  /** Two copies of a new question in one batch: the first is inserted, and the second is
      then found similar to it and reported as a duplicate. */
  lemma SameBatchDuplicate(rows: seq<QuestionRow>, a: QuestionData, b: QuestionData,
                           envA: ItemEnv, envB: ItemEnv, stringify: seq<string> -> string)
    requires Complete(a) && Complete(b) && !a.incorrectAnswers.Absent?
    requires FindSimilar(rows, RowText, a.question.value) == [] && envA.insertError.None?
    requires Lower(b.question.value) == Lower(a.question.value)
    ensures var q := ApiRun(Progress(rows, Report([], [], []), []), [a, b], [envA, envB], stringify);
      |q.report.added| == 1 && |q.report.duplicates| == 1 && q.report.errors == []
      && q.report.duplicates[0].newQuestion == b
      && q.report.added[0] in q.report.duplicates[0].similarQuestions
  {
    var p0 := Progress(rows, Report([], [], []), []);
    assert [a, b][..1] == [a] && [envA, envB][..1] == [envA];
    assert [a][..0] == [] && [envA][..0] == [];
    assert ApiRun(p0, [a], [envA], stringify) == ApiStep(p0, a, envA, stringify);
    var p1 := ApiStep(p0, a, envA, stringify);
    var row := NewRow(a, envA, stringify);
    assert p1 == Progress(rows + [row], Report([row], [], []), [a]);
    ExactMatchWins(p1.rows, RowText, b.question.value, row);
    assert ApiRun(p0, [a, b], [envA, envB], stringify) == ApiStep(p1, b, envB, stringify);
  }

  class ApiDatabase {
    var rows: seq<QuestionRow>

    constructor (initial: seq<QuestionRow>)
      ensures rows == initial
    {
      rows := initial;
    }

    /** The `POST` handler's loop; `envs[i]` says what the database does with item `i`. */
    method Post(body: Body, envs: seq<ItemEnv>, stringify: seq<string> -> string)
      returns (report: Report<QuestionRow, ApiError>, backedUp: seq<QuestionData>)
      requires |envs| == |QuestionsData(body)|
      modifies this
      ensures Progress(rows, report, backedUp)
        == ApiRun(Progress(old(rows), Report([], [], []), []), QuestionsData(body), envs, stringify)
    {
      var items := QuestionsData(body);
      var p := Progress(rows, Report([], [], []), []);
      var i := 0;
      while i < |items|
        invariant 0 <= i <= |items|
        invariant p == ApiRun(Progress(old(rows), Report([], [], []), []), items[..i], envs[..i], stringify)
        invariant rows == old(rows)
      {
        ApiRunSnoc(Progress(old(rows), Report([], [], []), []), items, envs, stringify, i + 1);
        p := ApiStep(p, items[i], envs[i], stringify);
        i := i + 1;
      }
      assert items[..i] == items && envs[..i] == envs;
      rows := p.rows;
      report := p.report;
      backedUp := p.backedUp;
    }
  }

  // ---- server.js ----------------------------------------------------------------------------

  /** `{ question: data.question, error: err.message }`. */
  datatype ServerError = ServerError(question: Option<string>, error: string)

  /** Text of a stored raw record. */
  function DataText(d: QuestionData): string
  {
    if d.question.Some? then d.question.value else ""
  }

  /** The similar stored records for `data`. Without a question text the lookup's query
      cannot bind its parameter, throws, and the catch turns that into an empty list. */
  function ServerSimilar(rows: seq<QuestionData>, data: QuestionData): (similar: seq<QuestionData>)
    ensures data.question.None? ==> similar == []
  {
    FindSimilarQuestions(if data.question.Some? then Some(rows) else None, DataText, DataText(data))
  }

  /** The record has no similar stored record and its insert succeeds. */
  predicate ServerInserts(rows: seq<QuestionData>, data: QuestionData, env: ItemEnv)
  {
    ServerSimilar(rows, data) == [] && env.insertError.None?
  }

  /** One pass of server.js's loop body: no validation, the raw record is inserted. */
  function ServerStep(p: Progress<QuestionData, ServerError>, data: QuestionData, env: ItemEnv): (q: Progress<QuestionData, ServerError>)
    ensures Total(q.report) == Total(p.report) + 1
    ensures ServerSimilar(p.rows, data) != [] ==>
      q == p.(report := p.report.(duplicates := p.report.duplicates + [DuplicateEntry(data, ServerSimilar(p.rows, data))]))
    ensures ServerSimilar(p.rows, data) == [] && env.insertError.Some? ==>
      q == p.(report := p.report.(errors := p.report.errors + [ServerError(data.question, env.insertError.value)]))
    ensures ServerInserts(p.rows, data, env) ==>
      q == Progress(p.rows + [data], p.report.(added := p.report.added + [data]), p.backedUp + [data])
    ensures !ServerInserts(p.rows, data, env) ==>
      q.rows == p.rows && q.report.added == p.report.added && q.backedUp == p.backedUp
  {
    var similar := ServerSimilar(p.rows, data);
    if |similar| > 0 then
      p.(report := p.report.(duplicates := p.report.duplicates + [DuplicateEntry(data, similar)]))
    else if env.insertError.Some? then
      p.(report := p.report.(errors := p.report.errors + [ServerError(data.question, env.insertError.value)]))
    else
      Progress(p.rows + [data], p.report.(added := p.report.added + [data]), p.backedUp + [data])
  }

  function ServerRun(p: Progress<QuestionData, ServerError>, items: seq<QuestionData>, envs: seq<ItemEnv>): Progress<QuestionData, ServerError>
    requires |envs| == |items|
  {
    if items == [] then p
    else
      var n := |items| - 1;
      ServerStep(ServerRun(p, items[..n], envs[..n]), items[n], envs[n])
  }

  /** server.js accounts for every record too, and the table grows by exactly the added
      records. */
  lemma {:induction false} ServerRunAccounts(p: Progress<QuestionData, ServerError>, items: seq<QuestionData>, envs: seq<ItemEnv>)
    requires |envs| == |items|
    ensures var q := ServerRun(p, items, envs);
      && Total(q.report) == Total(p.report) + |items|
      && p.report.added <= q.report.added
      && q.rows == p.rows + q.report.added[|p.report.added|..]
  {
    if items != [] {
      var n := |items| - 1;
      var mid := ServerRun(p, items[..n], envs[..n]);
      ServerRunAccounts(p, items[..n], envs[..n]);
      var q := ServerStep(mid, items[n], envs[n]);
      assert q.report.added[|p.report.added|..]
        == mid.report.added[|p.report.added|..] + q.report.added[|mid.report.added|..];
    }
  }

  /** Record `i` is inserted iff it passes the checks against the table the loop has built
      from the records before it. */
  predicate ServerInsertsAt(p: Progress<QuestionData, ServerError>, items: seq<QuestionData>, envs: seq<ItemEnv>, i: nat)
    requires |envs| == |items| && i < |items|
  {
    ServerInserts(ServerRun(p, items[..i], envs[..i]).rows, items[i], envs[i])
  }

  /** The records among the first `k` that are inserted, in input order. */
  function ServerInsertedItems(p: Progress<QuestionData, ServerError>, items: seq<QuestionData>, envs: seq<ItemEnv>, k: nat): (inserted: seq<QuestionData>)
    requires |envs| == |items| && k <= |items|
    ensures |inserted| <= k
    ensures forall d :: d in inserted ==> d in items
  {
    if k == 0 then []
    else ServerInsertedItems(p, items, envs, k - 1) + (if ServerInsertsAt(p, items, envs, k - 1) then [items[k - 1]] else [])
  }

  /** `added` and the backup gain exactly the inserted posted records, in input order. */
  lemma ServerRunAdds(p: Progress<QuestionData, ServerError>, items: seq<QuestionData>, envs: seq<ItemEnv>)
    requires |envs| == |items|
    ensures var q := ServerRun(p, items, envs);
      && q.report.added == p.report.added + ServerInsertedItems(p, items, envs, |items|)
      && q.backedUp == p.backedUp + ServerInsertedItems(p, items, envs, |items|)
  {
    ServerRunAddsUpTo(p, items, envs, |items|);
    assert items[..|items|] == items && envs[..|items|] == envs;
  }

  lemma {:induction false} ServerRunAddsUpTo(p: Progress<QuestionData, ServerError>, items: seq<QuestionData>, envs: seq<ItemEnv>, k: nat)
    requires |envs| == |items| && k <= |items|
    ensures var q := ServerRun(p, items[..k], envs[..k]);
      && q.report.added == p.report.added + ServerInsertedItems(p, items, envs, k)
      && q.backedUp == p.backedUp + ServerInsertedItems(p, items, envs, k)
  {
    if k == 0 {
      assert items[..0] == [] && envs[..0] == [];
    } else {
      var n := k - 1;
      ServerRunAddsUpTo(p, items, envs, n);
      ServerRunSnoc(p, items, envs, k);
      var mid := ServerRun(p, items[..n], envs[..n]);
      var q := ServerStep(mid, items[n], envs[n]);
      var before := ServerInsertedItems(p, items, envs, n);
      if ServerInserts(mid.rows, items[n], envs[n]) {
        assert ServerInsertedItems(p, items, envs, k) == before + [items[n]];
        assert q.report.added == mid.report.added + [items[n]] && q.backedUp == mid.backedUp + [items[n]];
      } else {
        assert ServerInsertedItems(p, items, envs, k) == before;
        assert q.report.added == mid.report.added && q.backedUp == mid.backedUp;
      }
    }
  }

  /** The run over the first `k` records is the run over the first `k - 1` and one more step. */
  lemma ServerRunSnoc(p: Progress<QuestionData, ServerError>, items: seq<QuestionData>, envs: seq<ItemEnv>, k: nat)
    requires |envs| == |items| && 0 < k <= |items|
    ensures ServerRun(p, items[..k], envs[..k]) == ServerStep(ServerRun(p, items[..k - 1], envs[..k - 1]), items[k - 1], envs[k - 1])
  {
    assert items[..k][..k - 1] == items[..k - 1] && envs[..k][..k - 1] == envs[..k - 1];
  }

  /** A record whose question is already stored (up to case) is reported and not inserted. */
  lemma ServerSkipsStoredQuestion(p: Progress<QuestionData, ServerError>, data: QuestionData, env: ItemEnv, stored: QuestionData)
    requires data.question.Some? && stored in p.rows && Lower(DataText(stored)) == Lower(data.question.value)
    ensures ServerStep(p, data, env).rows == p.rows
    ensures |ServerStep(p, data, env).report.duplicates| == |p.report.duplicates| + 1
  {
    ExactMatchWins(p.rows, DataText, DataText(data), stored);
  }

  class ServerDatabase {
    var rows: seq<QuestionData>

    constructor (initial: seq<QuestionData>)
      ensures rows == initial
    {
      rows := initial;
    }

    method Post(body: Body, envs: seq<ItemEnv>) returns (report: Report<QuestionData, ServerError>, backedUp: seq<QuestionData>)
      requires |envs| == |QuestionsData(body)|
      modifies this
      ensures Progress(rows, report, backedUp) == ServerRun(Progress(old(rows), Report([], [], []), []), QuestionsData(body), envs)
    {
      var items := QuestionsData(body);
      var p := Progress(rows, Report([], [], []), []);
      var i := 0;
      while i < |items|
        invariant 0 <= i <= |items|
        invariant p == ServerRun(Progress(old(rows), Report([], [], []), []), items[..i], envs[..i])
      {
        ServerRunSnoc(Progress(old(rows), Report([], [], []), []), items, envs, i + 1);
        p := ServerStep(p, items[i], envs[i]);
        i := i + 1;
      }
      assert items[..i] == items && envs[..i] == envs;
      rows := p.rows;
      report := p.report;
      backedUp := p.backedUp;
    }
  }

  /** The reply of `check-duplicates`. */
  datatype DuplicateCheck =
    | BadRequest(status: nat, error: string)
    | Checked(hasDuplicates: bool, duplicateCount: nat, duplicates: seq<QuestionData>)

  function CheckDuplicates(rows: seq<QuestionData>, question: Option<string>): (reply: DuplicateCheck)
    ensures reply.BadRequest? <==> !Filled(question)
    ensures reply.BadRequest? ==> reply.status == 400
    ensures reply.Checked? ==> (reply.duplicates == FindSimilar(rows, DataText, question.value)
      && reply.duplicateCount == |reply.duplicates|
      && (reply.hasDuplicates <==> reply.duplicateCount > 0))
  {
    if !Filled(question) then BadRequest(400, "Question text is required")
    else
      var similar := FindSimilar(rows, DataText, question.value);
      Checked(|similar| > 0, |similar|, similar)
  }

  /** `hasDuplicates` holds exactly when some stored question contains the text, ignoring case. */
  lemma HasDuplicatesIff(rows: seq<QuestionData>, question: string)
    requires question != ""
    ensures CheckDuplicates(rows, Some(question)).hasDuplicates <==>
      exists d :: d in rows && Contains(Lower(DataText(d)), Lower(question))
  {
    FindSimilarEmptyIff(rows, DataText, question);
  }
}
