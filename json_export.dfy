/** The JSON export of the question bank and its verifier (utils/init-json-files.ts,
    utils/json-validation.ts). The export writes `categories.json`, one questions file per
    main category named by `Slug`, and `manifest.json` recording the counts; the verifier
    checks those files against each other and against the database. */
module JsonExport {
  import opened Wrappers
  import opened Text
  import opened BankTypes

  // ---- file names --------------------------------------------------------------------

  predicate IsSlugChar(ch: char)
  {
    ('a' <= ch <= 'z') || ('0' <= ch <= '9')
  }

  /** The characters of `s` that a file name keeps, in order. */
  function SlugChars(s: string): string
  {
    if s == [] then [] else (if IsSlugChar(s[0]) then [s[0]] else []) + SlugChars(s[1..])
  }

  /** `r` with every `-` removed. */
  function Undashed(r: string): string
  {
    if r == [] then [] else (if r[0] == '-' then [] else [r[0]]) + Undashed(r[1..])
  }

  /** `replace(/[^a-z0-9]+/g, '-')`; `inRun` says the previous character was already replaced. */
  function CollapseRuns(s: string, inRun: bool): (r: string)
    ensures forall i :: 0 <= i < |r| ==> IsSlugChar(r[i]) || r[i] == '-'
    ensures forall i :: 0 <= i < |r| - 1 ==> !(r[i] == '-' && r[i + 1] == '-')
    ensures inRun && r != [] ==> r[0] != '-'
    ensures |r| <= |s|
  {
    if s == [] then []
    else if IsSlugChar(s[0]) then [s[0]] + CollapseRuns(s[1..], false)
    else if inRun then CollapseRuns(s[1..], true)
    else ['-'] + CollapseRuns(s[1..], true)
  }

  /** Apart from the dashes, the result is exactly the kept characters of `s`, in order. */
  lemma {:induction false} CollapseKeepsSlugChars(s: string, inRun: bool)
    ensures Undashed(CollapseRuns(s, inRun)) == SlugChars(s)
  {
    if s != [] {
      CollapseKeepsSlugChars(s[1..], !IsSlugChar(s[0]));
      var r := CollapseRuns(s, inRun);
      if IsSlugChar(s[0]) || !inRun {
        assert r[1..] == CollapseRuns(s[1..], !IsSlugChar(s[0]));
      }
    }
  }

  /** A non-empty run of kept characters passes through unchanged. */
  lemma {:induction false} CollapseKeepsRun(a: string, b: string, inRun: bool)
    requires a != [] && forall i :: 0 <= i < |a| ==> IsSlugChar(a[i])
    ensures CollapseRuns(a + b, inRun) == a + CollapseRuns(b, false)
  {
    assert (a + b)[0] == a[0] && (a + b)[1..] == a[1..] + b;
    if a[1..] == [] {
      assert a[1..] + b == b && a == [a[0]];
    } else {
      CollapseKeepsRun(a[1..], b, false);
      assert a == [a[0]] + a[1..];
    }
  }

  /** A maximal run of other characters becomes a single `-`, or nothing when it continues
      a run already replaced. */
  lemma {:induction false} CollapseReplacesRun(r: string, b: string, inRun: bool)
    requires r != [] && forall i :: 0 <= i < |r| ==> !IsSlugChar(r[i])
    ensures CollapseRuns(r + b, inRun) == (if inRun then [] else "-") + CollapseRuns(b, true)
  {
    assert (r + b)[0] == r[0] && (r + b)[1..] == r[1..] + b;
    if r[1..] == [] {
      assert r[1..] + b == b;
    } else {
      CollapseReplacesRun(r[1..], b, true);
    }
  }

  /** The questions file of a main category: lower-cased, every maximal run of characters
      outside [a-z0-9] turned into one `-`, then `.json`. */
  function Slug(mainCategory: string): (fileName: string)
    ensures 5 <= |fileName| <= |mainCategory| + 5
    ensures fileName[|fileName| - 5..] == ".json"
    ensures var stem := fileName[..|fileName| - 5];
      && (forall i :: 0 <= i < |stem| ==> IsSlugChar(stem[i]) || stem[i] == '-')
      && (forall i :: 0 <= i < |stem| - 1 ==> !(stem[i] == '-' && stem[i + 1] == '-'))
  {
    var stem := CollapseRuns(Lower(mainCategory), false);
    assert (stem + ".json")[..|stem|] == stem;
    stem + ".json"
  }

  /** The stem of the file name, with its dashes removed, is exactly the lower-cased
      characters of the main category that lie in [a-z0-9], in order. */
  lemma SlugKeepsCharacters(mainCategory: string)
    ensures var fileName := Slug(mainCategory);
      Undashed(fileName[..|fileName| - 5]) == SlugChars(Lower(mainCategory))
  {
    var stem := CollapseRuns(Lower(mainCategory), false);
    assert (stem + ".json")[..|stem|] == stem;
    CollapseKeepsSlugChars(Lower(mainCategory), false);
  }

  /** Case does not matter to the file name. */
  lemma SlugIgnoresCase(mainCategory: string)
    ensures Slug(Lower(mainCategory)) == Slug(mainCategory)
  {
    LowerIdempotent(mainCategory);
  }

  lemma SlugOfSpacedAmpersand()
    ensures Slug("A & B") == "a-b.json"
  {
    assert Lower("A & B") == "a & b" by {
      assert Lower("B") == "b";
      assert Lower(" B") == " b";
      assert Lower("& B") == "& b";
      assert Lower(" & B") == " & b";
    }
    assert CollapseRuns("a & b", false) == "a-b" by {
      assert "a & b" == "a" + (" & " + "b");
      CollapseKeepsRun("a", " & b", false);
      CollapseReplacesRun(" & ", "b", false);
      assert "b" == "b" + [];
      CollapseKeepsRun("b", [], true);
    }
  }

  lemma SlugOfDashed()
    ensures Slug("a-b") == "a-b.json"
  {
    assert Lower("a-b") == "a-b" by {
      assert Lower("b") == "b";
      assert Lower("-b") == "-b";
    }
    assert CollapseRuns("a-b", false) == "a-b" by {
      assert "a-b" == "a" + ("-" + "b");
      CollapseKeepsRun("a", "-b", false);
      CollapseReplacesRun("-", "b", false);
      assert "b" == "b" + [];
      CollapseKeepsRun("b", [], true);
    }
  }

  /** Two different main categories can share a file name. */
  lemma SlugCollides()
    ensures Slug("A & B") == Slug("a-b") == "a-b.json"
  {
    SlugOfSpacedAmpersand();
    SlugOfDashed();
  }

  // ---- files -----------------------------------------------------------------------------

  datatype FileInfo = FileInfo(timestamp: string, questionCount: nat, mainCategory: string)

  datatype Manifest = Manifest(
    lastUpdate: string,
    categoriesTimestamp: string,
    categoriesCount: nat,
    questionFiles: map<string, FileInfo>)

  /** The data directory: None for a file that is missing (or does not parse). */
  datatype DataDir = DataDir(
    categoriesJson: Option<seq<Category>>,
    manifest: Option<Manifest>,
    questionFiles: map<string, seq<Question>>)

  /** `SELECT * FROM questions WHERE main_category = ?`, in table order. */
  function QuestionsIn(questions: seq<Question>, mainCategory: string): (r: seq<Question>)
    ensures |r| <= |questions|
    ensures forall q :: q in r <==> q in questions && q.mainCategory == mainCategory
  {
    if questions == [] then []
    else
      var here := if questions[0].mainCategory == mainCategory then [questions[0]] else [];
      here + QuestionsIn(questions[1..], mainCategory)
  }

  // ---- export ------------------------------------------------------------------------------

  /** The manifest entries and files written for `mains`, in that order; a later main
      category whose name slugs to an earlier one's file replaces it. */
  function ExportFiles(mains: seq<string>, questions: seq<Question>, now: string): (r: (map<string, FileInfo>, map<string, seq<Question>>))
    ensures r.0.Keys == r.1.Keys
    ensures forall name :: name in r.0 ==> r.0[name].questionCount == |r.1[name]|
  {
    if mains == [] then (map[], map[])
    else
      var prev := ExportFiles(mains[..|mains| - 1], questions, now);
      var m := mains[|mains| - 1];
      var qs := QuestionsIn(questions, m);
      (prev.0[Slug(m) := FileInfo(now, |qs|, m)], prev.1[Slug(m) := qs])
  }

  /** `initializeJsonFiles` on `categories` and the questions table, at time `now`. */
  function Exported(categories: seq<Category>, questions: seq<Question>, now: string): (dir: DataDir)
    ensures dir.categoriesJson == Some(categories)
    ensures dir.manifest.Some? && dir.manifest.value.categoriesCount == |categories|
    ensures dir.manifest.value.questionFiles.Keys == dir.questionFiles.Keys
  {
    var files := ExportFiles(DistinctMains(categories), questions, now);
    DataDir(Some(categories), Some(Manifest(now, now, |categories|, files.0)), files.1)
  }

  /** The loop of `initializeJsonFiles`, filling the manifest and the files one main category
      at a time. */
  method InitializeJsonFiles(categories: seq<Category>, questions: seq<Question>, now: string) returns (dir: DataDir)
    ensures dir == Exported(categories, questions, now)
  {
    var mains := DistinctMains(categories);
    var entries: map<string, FileInfo> := map[];
    var files: map<string, seq<Question>> := map[];
    var i := 0;
    while i < |mains|
      invariant 0 <= i <= |mains|
      invariant (entries, files) == ExportFiles(mains[..i], questions, now)
    {
      var mainCategory := mains[i];
      var qs := QuestionsIn(questions, mainCategory);
      var fileName := Slug(mainCategory);
      files := files[fileName := qs];
      entries := entries[fileName := FileInfo(now, |qs|, mainCategory)];
      assert mains[..i + 1][..i] == mains[..i];
      i := i + 1;
    }
    assert mains[..i] == mains;
    dir := DataDir(Some(categories), Some(Manifest(now, now, |categories|, entries)), files);
  }

  /** The last index of `mains` whose file name is `name`, or -1. */
  function LastIndexNamed(mains: seq<string>, name: string): (i: int)
    ensures -1 <= i < |mains|
    ensures i >= 0 ==> Slug(mains[i]) == name
    ensures forall j :: i < j < |mains| ==> Slug(mains[j]) != name
  {
    if mains == [] then -1
    else if Slug(mains[|mains| - 1]) == name then |mains| - 1
    else LastIndexNamed(mains[..|mains| - 1], name)
  }

  /** Which main category a file name ends up describing: the last one in `mains` with that
      name. */
  lemma {:induction false} ExportLastWins(mains: seq<string>, questions: seq<Question>, now: string, name: string)
    ensures var r := ExportFiles(mains, questions, now);
      var i := LastIndexNamed(mains, name);
      (name in r.0 <==> i >= 0)
      && (i >= 0 ==> r.0[name].mainCategory == mains[i] && r.1[name] == QuestionsIn(questions, mains[i]))
  {
    if mains != [] {
      var n := |mains| - 1;
      ExportLastWins(mains[..n], questions, now, name);
    }
  }

  /** Without a shared file name, each main category gets its own file holding exactly its
      questions. */
  lemma ExportOwnFile(mains: seq<string>, questions: seq<Question>, now: string, k: nat)
    requires Distinct(mains) && k < |mains|
    requires forall i, j :: 0 <= i < j < |mains| ==> Slug(mains[i]) != Slug(mains[j])
    ensures var r := ExportFiles(mains, questions, now);
      Slug(mains[k]) in r.0 && r.0[Slug(mains[k])].mainCategory == mains[k]
      && r.1[Slug(mains[k])] == QuestionsIn(questions, mains[k])
  {
    ExportLastWins(mains, questions, now, Slug(mains[k]));
    var i := LastIndexNamed(mains, Slug(mains[k]));
    assert i >= k;
    assert i == k;
  }

  /** When two main categories share a file name, the earlier one's entry is overwritten:
      the manifest no longer names it. */
  lemma ExportCollisionOverwrites(mains: seq<string>, questions: seq<Question>, now: string, a: nat, b: nat)
    requires Distinct(mains) && a < b < |mains| && Slug(mains[a]) == Slug(mains[b])
    ensures var r := ExportFiles(mains, questions, now);
      Slug(mains[a]) in r.0 && r.0[Slug(mains[a])].mainCategory != mains[a]
  {
    ExportLastWins(mains, questions, now, Slug(mains[a]));
    var i := LastIndexNamed(mains, Slug(mains[a]));
    assert i >= b;
    assert mains[i] != mains[a];
  }

  // ---- verification ------------------------------------------------------------------------

  /** `verifyManifest`: both files present, the category count matches, and every listed
      questions file exists and holds the listed number of questions. */
  predicate ManifestValid(dir: DataDir)
  {
    && dir.manifest.Some? && dir.categoriesJson.Some?
    && dir.manifest.value.categoriesCount == |dir.categoriesJson.value|
    && forall name :: name in dir.manifest.value.questionFiles ==>
         name in dir.questionFiles && |dir.questionFiles[name]| == dir.manifest.value.questionFiles[name].questionCount
  }

  method VerifyManifest(dir: DataDir) returns (ok: bool)
    ensures ok == ManifestValid(dir)
  {
    if dir.manifest.None? || dir.categoriesJson.None? {
      return false;
    }
    var manifest := dir.manifest.value;
    if manifest.categoriesCount != |dir.categoriesJson.value| {
      return false;
    }
    var remaining := manifest.questionFiles.Keys;
    while remaining != {}
      invariant remaining <= manifest.questionFiles.Keys
      invariant forall name :: name in manifest.questionFiles && name !in remaining ==>
        name in dir.questionFiles && |dir.questionFiles[name]| == manifest.questionFiles[name].questionCount
      decreases |remaining|
    {
      var name :| name in remaining;
      if name !in dir.questionFiles || |dir.questionFiles[name]| != manifest.questionFiles[name].questionCount {
        return false;
      }
      remaining := remaining - {name};
    }
    return true;
  }

  /** The export passes its own manifest check. */
  lemma ExportPassesManifest(categories: seq<Category>, questions: seq<Question>, now: string)
    ensures ManifestValid(Exported(categories, questions, now))
  {
  }

  function IdsOf<T(==,!new)>(s: seq<T>, key: T -> string): set<string>
  {
    set x | x in s :: key(x)
  }

  /** What `new Map(s.map(x => [x.id, x])).get(id)` yields: the last element with that id. */
  function LastWithId<T(==,!new)>(s: seq<T>, key: T -> string, id: string): (r: Option<T>)
    ensures r.Some? <==> id in IdsOf(s, key)
    ensures r.Some? ==> r.value in s && key(r.value) == id
    ensures r.Some? ==>
      exists i :: 0 <= i < |s| && s[i] == r.value && (forall j :: i < j < |s| ==> key(s[j]) != id)
  {
    if s == [] then None
    else
      var init := s[..|s| - 1];
      var last := s[|s| - 1];
      assert forall x :: x in s <==> x in init || x == last by {
        assert s == init + [last];
      }
      if key(last) == id then
        assert s[|s| - 1] == last;
        Some(last)
      else
        var earlier := LastWithId(init, key, id);
        assert earlier.Some? ==>
          exists i :: 0 <= i < |s| && s[i] == earlier.value && (forall j :: i < j < |s| ==> key(s[j]) != id)
        by {
          if earlier.Some? {
            var i :| 0 <= i < |init| && init[i] == earlier.value &&
                     (forall j :: i < j < |init| ==> key(init[j]) != id);
            assert s[i] == init[i];
            forall j | i < j < |s| ensures key(s[j]) != id {
              if j < |init| { assert s[j] == init[j]; }
            }
          }
        }
        earlier
  }

  function CategoryId(c: Category): string { c.id }

  function QuestionId(q: Question): string { q.id }

  /** `verifyCategoryConsistency`: same number of categories, and every database id is in the
      JSON with the same main category and subcategory. JSON-only ids are caught only by the
      count. */
  predicate CategoriesConsistent(dir: DataDir, dbCategories: seq<Category>)
  {
    && dir.categoriesJson.Some?
    && |dbCategories| == |dir.categoriesJson.value|
    && forall id :: id in IdsOf(dbCategories, CategoryId) ==>
         var d := LastWithId(dbCategories, CategoryId, id).value;
         var j := LastWithId(dir.categoriesJson.value, CategoryId, id);
         j.Some? && j.value.mainCategory == d.mainCategory && j.value.subcategory == d.subcategory
  }

  method VerifyCategoryConsistency(dir: DataDir, dbCategories: seq<Category>) returns (ok: bool)
    ensures ok == CategoriesConsistent(dir, dbCategories)
  {
    if dir.categoriesJson.None? || |dbCategories| != |dir.categoriesJson.value| {
      return false;
    }
    var json := dir.categoriesJson.value;
    var remaining := IdsOf(dbCategories, CategoryId);
    while remaining != {}
      invariant remaining <= IdsOf(dbCategories, CategoryId)
      invariant forall id :: id in IdsOf(dbCategories, CategoryId) && id !in remaining ==>
        var d := LastWithId(dbCategories, CategoryId, id).value;
        var j := LastWithId(json, CategoryId, id);
        j.Some? && j.value.mainCategory == d.mainCategory && j.value.subcategory == d.subcategory
      decreases |remaining|
    {
      var id :| id in remaining;
      var d := LastWithId(dbCategories, CategoryId, id).value;
      var j := LastWithId(json, CategoryId, id);
      if j.None? || j.value.mainCategory != d.mainCategory || j.value.subcategory != d.subcategory {
        return false;
      }
      remaining := remaining - {id};
    }
    return true;
  }

  /** `verifyQuestionFileConsistency(mainCategory)`: the file named by the slug exists, holds as
      many questions as the database has for that main category, and every database question
      appears in it with every field equal. */
  predicate QuestionFileConsistent(dir: DataDir, dbQuestions: seq<Question>, mainCategory: string)
  {
    var db := QuestionsIn(dbQuestions, mainCategory);
    && Slug(mainCategory) in dir.questionFiles
    && |db| == |dir.questionFiles[Slug(mainCategory)]|
    && forall id :: id in IdsOf(db, QuestionId) ==>
         LastWithId(dir.questionFiles[Slug(mainCategory)], QuestionId, id) == LastWithId(db, QuestionId, id)
  }

  method VerifyQuestionFileConsistency(dir: DataDir, dbQuestions: seq<Question>, mainCategory: string) returns (ok: bool)
    ensures ok == QuestionFileConsistent(dir, dbQuestions, mainCategory)
  {
    var fileName := Slug(mainCategory);
    if fileName !in dir.questionFiles {
      return false;
    }
    var json := dir.questionFiles[fileName];
    var db := QuestionsIn(dbQuestions, mainCategory);
    if |db| != |json| {
      return false;
    }
    var remaining := IdsOf(db, QuestionId);
    while remaining != {}
      invariant remaining <= IdsOf(db, QuestionId)
      invariant forall id :: id in IdsOf(db, QuestionId) && id !in remaining ==>
        LastWithId(json, QuestionId, id) == LastWithId(db, QuestionId, id)
      decreases |remaining|
    {
      var id :| id in remaining;
      if LastWithId(json, QuestionId, id) != LastWithId(db, QuestionId, id) {
        return false;
      }
      remaining := remaining - {id};
    }
    return true;
  }

  /** `verifyAllFiles`: the manifest, then the categories, then each main category named in
      `categories.json`, stopping at the first failure. */
  predicate AllFilesValid(dir: DataDir, dbCategories: seq<Category>, dbQuestions: seq<Question>)
  {
    && ManifestValid(dir)
    && CategoriesConsistent(dir, dbCategories)
    && forall m :: m in DistinctMains(dir.categoriesJson.value) ==> QuestionFileConsistent(dir, dbQuestions, m)
  }

  /** When two main categories share a file name, the file holds the later one's questions,
      so the earlier one's file check fails exactly when either of the two has a question. */
  lemma ExportCollisionFileCheck(categories: seq<Category>, questions: seq<Question>, now: string, a: nat, b: nat)
    requires a < b < |DistinctMains(categories)|
    requires Slug(DistinctMains(categories)[a]) == Slug(DistinctMains(categories)[b])
    requires forall j :: b < j < |DistinctMains(categories)| ==>
      Slug(DistinctMains(categories)[j]) != Slug(DistinctMains(categories)[b])
    ensures var mains := DistinctMains(categories);
      !QuestionFileConsistent(Exported(categories, questions, now), questions, mains[a]) <==>
      exists q :: q in questions && (q.mainCategory == mains[a] || q.mainCategory == mains[b])
  {
    var mains := DistinctMains(categories);
    var name := Slug(mains[a]);
    var dir := Exported(categories, questions, now);
    ExportLastWins(mains, questions, now, name);
    var i := LastIndexNamed(mains, name);
    assert i == b;
    assert dir.questionFiles == ExportFiles(mains, questions, now).1;
    var db := QuestionsIn(questions, mains[a]);
    var file := dir.questionFiles[name];
    assert file == QuestionsIn(questions, mains[b]);
    assert mains[a] != mains[b];
    if db != [] {
      var q := db[0];
      assert q in db;
      assert q.id in IdsOf(db, QuestionId);
      var fromDb := LastWithId(db, QuestionId, q.id);
      var fromFile := LastWithId(file, QuestionId, q.id);
      assert fromDb.value.mainCategory == mains[a];
      assert fromFile.Some? ==> fromFile.value.mainCategory == mains[b];
      assert fromFile != fromDb;
    } else if file != [] {
      assert file[0] in file;
    } else {
      forall q | q in questions ensures q.mainCategory != mains[a] && q.mainCategory != mains[b] {
        assert q !in db && q !in file;
      }
    }
  }

  method VerifyAllFiles(dir: DataDir, dbCategories: seq<Category>, dbQuestions: seq<Question>) returns (ok: bool)
    ensures ok == AllFilesValid(dir, dbCategories, dbQuestions)
  {
    ok := VerifyManifest(dir);
    if !ok {
      return;
    }
    ok := VerifyCategoryConsistency(dir, dbCategories);
    if !ok {
      return;
    }
    var mains := DistinctMains(dir.categoriesJson.value);
    var i := 0;
    while i < |mains|
      invariant 0 <= i <= |mains|
      invariant forall k :: 0 <= k < i ==> QuestionFileConsistent(dir, dbQuestions, mains[k])
    {
      ok := VerifyQuestionFileConsistency(dir, dbQuestions, mains[i]);
      if !ok {
        return;
      }
      i := i + 1;
    }
    ok := true;
  }

  /** Round trip: exporting the database and verifying it right away succeeds, provided no
      two main categories share a file name. */
  lemma ExportVerifies(categories: seq<Category>, questions: seq<Question>, now: string)
    requires forall i, j :: 0 <= i < j < |DistinctMains(categories)| ==>
      Slug(DistinctMains(categories)[i]) != Slug(DistinctMains(categories)[j])
    ensures AllFilesValid(Exported(categories, questions, now), categories, questions)
  {
    var dir := Exported(categories, questions, now);
    var mains := DistinctMains(categories);
    forall m | m in mains ensures QuestionFileConsistent(dir, questions, m) {
      var k :| 0 <= k < |mains| && mains[k] == m;
      ExportOwnFile(mains, questions, now, k);
    }
  }
}
