# SimplyTrivia core, modelled in Dafny

SimplyTrivia is a React Native / Expo trivia client with a small admin back end. This
project models the sequential logic at its core and proves properties of it. Network,
database, filesystem, clock, timers and randomness are all given to the model as
parameters. The model covers:

- **Question pool** (`QuestionPool`, `CategoryFilter`): one FIFO buffer per difficulty.
  - A request is issued at or below the low-water mark of 10 questions and asks for
    20 − 10 = 10 more.
  - An in-flight flag blocks a second concurrent request.
  - At most one retry timer is pending at a time.
  - The category filter applies both to the resident buffer and to every fetched batch.
  - The pool is a class with fields `buffer`, `inFlight` and `retryPending`. Each of its
    methods is proved equal to a pure transition function, and the lemmas are stated
    about those functions.
- **Wire-record decoding** (`Decoding`): the field-by-field base64 map and both
  revisions of the difficulty normaliser. The current one keeps `medium`; the older
  screens turn `medium` into `easy`.
- **Question screen** (`QuestionScreen`): the refill rule of `app/question.tsx` (top up
  towards 20 when below 10), the `goToNextQuestion` shift, and the header title.
- **Category selection** (`Settings`, `Preferences`, `AdminCategories`):
  - toggling, select-all, clear-all and the name sort of the settings screen;
  - toggling and default initialisation of the persisted preferences store;
  - grouping, sorting, add-validation and the delete confirmation of the admin
    categories page. The grouping's `{}` accumulator inherits `Object.prototype`'s
    properties, so a main category such as "constructor" makes the grouping throw; the
    model returns no grouping then.
- **Answer presentation** (`Answers`): splicing the correct answer into a copy of the
  incorrect answers at a drawn index, and the three-way background classification.
- **Admin ingestion** (`Ingestion`, `QuestionDb`, `BulkImport`, `BankTypes`, `Text`):
  - the POST partition loops into added, duplicates and errors (API route and
    `server.js`);
  - exact-then-fuzzy duplicate detection;
  - the whole-word "question contains answer" check;
  - the categories table's uniqueness and population rule;
  - the append-only backup file;
  - the batched import in slices of 50.
- **JSON export and verification** (`JsonExport`):
  - the file-name slug and the manifest the export builds;
  - the four verifiers;
  - the round trip: an export without file-name collisions passes every verifier.

Shared pieces are `Wrappers` (Option), `TriviaTypes` (the client records) and
`Ordering`:
- a comparator becomes a relation `leq`;
- insertion sort is proved sorted and a permutation;
- SQLite's binary collation is code-point lexicographic order.

## Model

| member | source | states |
|---|---|---|
| CategoryFilter.KeepNamed | hooks/useQuestionManager.ts:169-173 | keeps exactly the questions whose category is in the name set, never more than the input |
| CategoryFilter.FilterQuestionsByCategories | hooks/useQuestionManager.ts:160-174 | input returned unchanged when nothing is selected or the catalogue is empty; otherwise a question survives iff its category names a selected catalogue entry; never longer than the input |
| CategoryFilter.FilterIsSubsequence | hooks/useQuestionManager.ts:169-173 | the filter result is an order-preserving subsequence of its input |
| CategoryFilter.FilterIdempotent | hooks/useQuestionManager.ts:160-174 | filtering an already filtered list with the same selection changes nothing |
| CategoryFilter.FilterAppend | hooks/useQuestionManager.ts:160-174 | filtering distributes over concatenation, so a filtered buffer followed by a filtered batch is the filtered whole |
| QuestionPool.WithRetry | hooks/useQuestionManager.ts:26-32 | after `scheduleRetry` a timer is pending; the buffer and the in-flight flag are untouched |
| QuestionPool.RequestFor | hooks/useQuestionManager.ts:46-57 | a request goes out iff nothing is in flight and the selection is not cleared after initialisation; it asks for 10 and names a category iff exactly one is selected, and then that one |
| QuestionPool.AfterRequest | hooks/useQuestionManager.ts:47-50 | the synchronous part sets the in-flight flag, or is a no-op when the cleared selection blocks it; buffer and timer unchanged |
| QuestionPool.AfterFilter | hooks/useQuestionManager.ts:34-44 | the filter effect keeps an order-preserving subsequence of admitted questions and touches neither flag |
| QuestionPool.PeekOf | hooks/useQuestions.ts:10-12 | null iff the buffer is empty, otherwise its first element |
| QuestionPool.AdvanceOf | hooks/useQuestions.ts:14-22 | an empty buffer stores nothing and returns null; otherwise exactly the tail is stored (one shorter) and the new head is returned |
| QuestionPool.ServeRunIsFifo | hooks/useQuestions.ts:10-22 | peeking then advancing k times serves the first k buffered questions in order |
| QuestionPool.ServeRunPastEnd | hooks/useQuestions.ts:15-17 | on an empty buffer every peek and advance yields null |
| QuestionPool.RequestGuards | hooks/useQuestionManager.ts:47-48 | while in flight, or with a cleared selection, a request changes nothing and sends nothing |
| QuestionPool.CompletionSettles | hooks/useQuestionManager.ts:59-92 | every way a fetch settles clears the in-flight flag, and a pending timer stays pending |
| QuestionPool.CompletionAppends | hooks/useQuestionManager.ts:79-81 | a completion only appends: the old buffer is a prefix, and any growth is exactly the filtered batch |
| QuestionPool.CompletionRetryRule | hooks/useQuestionManager.ts:59-92 | a timer is armed iff one was pending, or on a rate limit, or on a batch the filter empties, or on a merged buffer at or below 10; never for another error |
| QuestionPool.AllFilteredImpliesSelection | hooks/useQuestionManager.ts:65-76 | a non-empty batch filtered away entirely implies some category is selected |
| QuestionPool.FilterEffectIdempotent | hooks/useQuestionManager.ts:101-111 | the second, identical filter effect leaves the result of the first unchanged |
| QuestionPool.SelectionEffectRule | hooks/useQuestionManager.ts:113-126 | a cleared selection cancels the timer and resets the in-flight flag with no request; otherwise a request is issued iff idle and at or below 10 |
| QuestionPool.RetryFiresRule | hooks/useQuestionManager.ts:26-31 | after the timer fires none is pending, and a request goes out iff nothing is in flight and the selection is not cleared |
| QuestionPool.NarrowingTriggersRefill | hooks/useQuestionManager.ts:101-126 | narrowing to one category leaves exactly that category's questions, and at or below 10 a request for 10 of that category follows |
| QuestionPool.StartupScenario | hooks/useQuestionManager.ts:46-86 | an empty idle pool requests 10; a full admitted batch becomes the buffer in fetch order, arms a retry, and is served in that order |
| QuestionPool.KeepAllAdmitted | hooks/useQuestionManager.ts:160-174 | a batch whose questions all pass the filter comes through unchanged |
| QuestionPool.Pool.constructor | hooks/useQuestionManager.ts:21-23 | the pool starts with the store list, not in flight, no timer |
| QuestionPool.Pool.ScheduleRetry | hooks/useQuestionManager.ts:26-32 | a new timer is started iff none was pending; the state becomes `WithRetry` of the old one |
| QuestionPool.Pool.RequestQuestions | hooks/useQuestionManager.ts:46-57 | returns `RequestFor` of the old state and moves to `AfterRequest` |
| QuestionPool.Pool.CompleteRequest | hooks/useQuestionManager.ts:59-92 | moves to `AfterCompletion` of the old state for the given outcome |
| QuestionPool.Pool.FireRetry | hooks/useQuestionManager.ts:28-31 | the new state and the request are `AfterRetryFires` of the old state |
| QuestionPool.Pool.ApplyFilter | hooks/useQuestionManager.ts:34-44 | moves to `AfterFilter`; `setQuestions` is called iff the buffer changes |
| QuestionPool.Pool.SelectionChanged | hooks/useQuestionManager.ts:113-126 | the new state and the request are `AfterSelectionEffect` of the old state |
| QuestionPool.Pool.Teardown | hooks/useQuestionManager.ts:128-135 | unmounting clears a pending timer and nothing else |
| QuestionPool.Pool.Peek | hooks/useQuestions.ts:10-12 | returns `PeekOf` the buffer and changes nothing |
| QuestionPool.Pool.Advance | hooks/useQuestions.ts:14-22 | stores and returns what `AdvanceOf` prescribes; flags unchanged |
| QuestionPool.QuestionStore.SetQuestionsFor | hooks/useQuestionManager.ts:138-158 | replaces the list the difficulty selects (any non-easy, non-medium reads hard) and no other |
| Decoding.DifficultyFromBase64 | hooks/useOtdbApi.ts:61-70 | decoded `easy` gives easy, `medium` gives medium, anything else gives hard |
| Decoding.LegacyDifficultyFromBase64 | src/screens/QuestionScreen.tsx:83-94 | never medium; easy iff the decoded token is `easy` or `medium` |
| Decoding.DecodeAll | hooks/useOtdbApi.ts:55-57 | element-wise decoding keeping length and order |
| Decoding.DecodeDetails | hooks/useOtdbApi.ts:46-59 | every field decoded independently; incorrect answers keep their count and order |
| Decoding.LegacyDecodeDetails | src/screens/QuestionScreen.tsx:72-81 | the same field map with the older difficulty normaliser |
| Decoding.DecodeQuestions | hooks/useOtdbApi.ts:42-44 | one decoded record per wire record, in order |
| Decoding.DecodeQuestionsAppend | app/question.tsx:127-129 | decoding commutes with concatenation |
| Decoding.RevisionsDivergeOnMedium | screens/QuestionScreen.tsx:73-84 | the two normalisers disagree iff the token decodes to `medium` |
| Decoding.RevisionsAgreeOffDifficulty | screens/QuestionScreen.tsx:62-71 | apart from the difficulty the two record decoders agree field by field |
| Decoding.UnknownTokenIsHard | app/question.tsx:146-155 | any token other than easy and medium becomes hard in both revisions |
| Decoding.DifficultyNamesRoundTrip | app/question.tsx:146-155 | a token decoding to a difficulty's name gives that difficulty back |
| QuestionScreen.FetchAmount | app/question.tsx:30-33 | a fetch happens iff fewer than 10 are buffered, and asks for exactly what brings the buffer to 20 |
| QuestionScreen.Shifted | app/question.tsx:60-65 | with a question buffered the head becomes current, the tail remains, answer and error are cleared; an empty buffer is left alone |
| QuestionScreen.HeaderTitle | app/question.tsx:77-82 | `Medium` iff medium, `Hard` iff hard, `Easy` iff easy |
| QuestionScreen.RefillKeepsDisplayedQuestion | app/question.tsx:42-46 | with the intended guard a refill keeps the displayed question and the selected answer and appends the decoded batch |
| QuestionScreen.AsWrittenRefillSkipsDisplayedQuestion | app/question.tsx:30-54 | as written, a refill completing while a question is shown replaces it and clears the answer |
| QuestionScreen.FirstLoadAgrees | app/question.tsx:46 | with nothing displayed the written and intended continuations coincide |
| QuestionScreen.FullResponseReachesTarget | app/question.tsx:31-45 | a complete response brings the buffer to exactly 20, minus the one shown when nothing was displayed |
| QuestionScreen.FailureRule | app/question.tsx:47-51 | a failure sets the network error only when the buffer is empty and changes nothing else |
| QuestionScreen.QuestionScreenState.constructor | app/question.tsx:25-28 | empty buffer, nothing displayed, no error, no answer |
| QuestionScreen.QuestionScreenState.FetchQuestions | app/question.tsx:30-33 | requests iff fewer than 10 are buffered, amount 20 minus the buffer length |
| QuestionScreen.QuestionScreenState.GoToNextQuestion | app/question.tsx:60-67 | the new state and request are `GoToNext` of the old state |
| QuestionScreen.QuestionScreenState.CompleteFetch | app/question.tsx:42-52 | the new state and request are the intended `AfterFetch` of the old state |
| Settings.Dedup | app/settings.tsx:70 | same members as the input, without duplicates, never longer |
| Settings.DedupOfDistinct | app/settings.tsx:70 | a duplicate-free list is its own de-duplication |
| Settings.Without | app/settings.tsx:74 | exactly the members other than the id |
| Settings.WithoutAppend | app/settings.tsx:74 | removal works part by part on a concatenation, so the other ids keep their order |
| Settings.ToggleCategory | app/settings.tsx:64-76 | an update flips the id's membership and keeps every other id; no update iff the explicit value already holds |
| Settings.ToggleFlips | app/settings.tsx:64-66 | without an explicit value the toggle flips the id and nothing else |
| Settings.SelectAppends | app/settings.tsx:68-72 | selecting a new id on a duplicate-free list appends it at the end |
| Settings.DeselectRemoves | app/settings.tsx:73-75 | deselecting removes every occurrence and keeps the rest in order |
| Settings.SelectAll | app/settings.tsx:78-80 | exactly the catalogue ids, in catalogue order |
| Settings.ClearAll | app/settings.tsx:82-84 | the empty selection |
| Settings.SortCatalogue | app/settings.tsx:41-43 | the sorted catalogue is a permutation of the fetched one |
| Settings.CatalogueSortedByName | app/settings.tsx:41-43 | with a total-preorder comparator the catalogue is ordered by name |
| BankTypes.StoredIncorrectAnswers | app/questions+api.ts:65-68 | a string is stored as it is, a list through `JSON.stringify`; a missing field leaves no value, and only then |
| BankTypes.StoredAnswersRoundTrip | app/questions+api.ts:65-68 | a parser that undoes the serialiser gets the posted list back from the stored column |
| BankTypes.DistinctMains | utils/init-json-files.ts:60 | each main category once, exactly those occurring, never more than the categories |
| Preferences.FlipPair | store.tsx:40-44 | same length; matching entries have their flag flipped, all others unchanged |
| Preferences.TogglePreference | store.tsx:33-54 | an existing pair is flipped in place with the length kept; a missing pair is appended enabled; other entries unchanged |
| Preferences.ToggleTwiceRestores | store.tsx:40-44 | toggling an existing pair twice restores the list |
| Preferences.DefaultPreferences | store.tsx:67-71 | one enabled entry per category, in catalogue order |
| Preferences.PreferenceStore.constructor | store.tsx:28-30 | easy, no preferences, not initialised |
| Preferences.PreferenceStore.SetDifficulty | store.tsx:31 | replaces the difficulty only |
| Preferences.PreferenceStore.SetCategoryPreferences | store.tsx:32 | replaces the preferences only |
| Preferences.PreferenceStore.ToggleCategory | store.tsx:33-54 | the preferences become `TogglePreference` of the old ones; other fields unchanged |
| Preferences.PreferenceStore.Initialize | store.tsx:55-81 | on success `initialized` holds and defaults replace an empty list only; saved preferences are kept; a thrown load changes nothing |
| Answers.Inserted | components/Answers.tsx:17-18 | one longer, the correct answer at the index, the others shifted around it |
| Answers.RemoveInsertedRestores | components/Answers.tsx:17-18 | removing the index again gives the incorrect answers in their original order |
| Answers.InsertedIsPermutation | components/Answers.tsx:16-18 | the list holds the incorrect answers plus the correct one, as a multiset |
| Answers.ShuffleInCorrectAnswer | components/Answers.tsx:15-20 | a fresh array equal to `Inserted`, and the input array unchanged |
| Answers.AnswerBackground | components/Answer.tsx:32-48 | incorrect style iff this is the selected answer and wrong; correct style iff something is selected and this is the correct answer |
| Answers.SelectedWrongIffIncorrect | components/Answer.tsx:41-42 | the selected answer is marked wrong exactly when it is not correct |
| Answers.CorrectShownAfterSelection | components/Answer.tsx:43-44 | once an answer is picked the correct answer is highlighted |
| Answers.NoSelectionAllUnselected | src/components/Answer.tsx:28-38 | with no selection every answer is plain, and the correct answer is never marked wrong |
| Answers.AnswerPanel.constructor | components/Answers.tsx:12-13 | no answer list and no selection yet |
| Answers.AnswerPanel.Disabled | components/Answers.tsx:29 | buttons are disabled iff a non-empty answer is selected |
| Answers.AnswerPanel.Render | components/Answers.tsx:15-20 | the list is built once, while still null, and kept afterwards |
| Answers.AnswerPanel.Select | components/Answers.tsx:30-33 | records the pick and keeps the answer list |
| Text.Lower | models/database.web.ts:211-212 | same length, each character lower-cased |
| Text.LowerIdempotent | models/database.web.ts:211-212 | lower-casing twice equals lower-casing once |
| AdminCategories.InMain | app/admin/categories.web.tsx:35-41 | holds exactly the categories of one main category, never more than the input |
| AdminCategories.InMainAppend | app/admin/categories.web.tsx:35-41 | selecting a main category distributes over concatenation, so the group keeps catalogue order and multiplicity |
| AdminCategories.InMainSingle | app/admin/categories.web.tsx:36-40 | a single category is kept iff it belongs to the main category |
| AdminCategories.GroupCategories | app/admin/categories.web.tsx:34-41 | throws (None) iff some main category is a name the `{}` accumulator inherits from `Object.prototype`; otherwise the keys are exactly the main categories, each group is that category's entries and is non-empty, and group sizes sum to the number of categories |
| AdminCategories.GroupedIsPartition | app/admin/categories.web.tsx:35-41 | every category is in exactly the group of its main category and no group is empty |
| AdminCategories.GroupSizesSum | app/admin/categories.web.tsx:35-41 | the group sizes add up to the number of categories |
| AdminCategories.SortGroups | app/admin/categories.web.tsx:43-46 | the same keys, each group a permutation of the unsorted one |
| AdminCategories.SortedGroupsAscend | app/admin/categories.web.tsx:44-46 | within each group subcategories ascend |
| AdminCategories.DisplayOrder | app/admin/categories.web.tsx:194-195 | each main category appears once |
| AdminCategories.DisplayOrderSorted | app/admin/categories.web.tsx:194-195 | the display order is sorted and lists exactly the group keys |
| AdminCategories.TrimStart | app/admin/categories.web.tsx:78 | a suffix of the input with leading whitespace removed |
| AdminCategories.TrimEnd | app/admin/categories.web.tsx:78 | a prefix of the input with trailing whitespace removed |
| AdminCategories.Trim | app/admin/categories.web.tsx:78 | a slice of the input with no whitespace at either end; empty iff the input is all whitespace |
| AdminCategories.TrimIdempotent | app/admin/categories.web.tsx:90-93 | trimming twice equals trimming once |
| AdminCategories.MessageOr | app/admin/categories.web.tsx:104 | the server's error when non-empty; a missing or empty error gives the fallback message |
| AdminCategories.AddRequest | app/admin/categories.web.tsx:77-93 | no request iff either field is blank after trimming; otherwise the trimmed, non-empty values |
| AdminCategories.AddRequestStable | app/admin/categories.web.tsx:90-93 | resubmitting the trimmed values sends the same request |
| AdminCategories.AfterAdd | app/admin/categories.web.tsx:77-112 | blank input sets the error and sends nothing; success clears both fields and refetches; failure keeps the input and sets an error |
| AdminCategories.AfterDelete | app/admin/categories.web.tsx:114-141 | nothing at all unless confirmed; refetch iff confirmed and successful; the inputs are never touched |
| AdminCategories.RefusedAddKeepsInput | app/admin/categories.web.tsx:103-105 | a refused add keeps what the user typed |
| AdminCategories.CategoriesPage.constructor | app/admin/categories.web.tsx:25-31 | empty lists and an empty form |
| AdminCategories.CategoriesPage.SetForm | app/admin/categories.web.tsx:160-171 | replaces the form fields only |
| AdminCategories.CategoriesPage.LoadCategories | app/admin/categories.web.tsx:34-49 | stores the data; the sorted grouping replaces the old one unless the grouping effect throws, which it does iff a main category is an inherited property name; the form is unchanged |
| AdminCategories.CategoriesPage.HandleAddCategory | app/admin/categories.web.tsx:77-112 | form, request and refetch are those of `AfterAdd`; the category lists are unchanged |
| AdminCategories.CategoriesPage.HandleDeleteCategory | app/admin/categories.web.tsx:114-141 | form, request and refetch are those of `AfterDelete`; the category lists are unchanged |
| QuestionDb.FindSimilar | models/database.web.ts:180-199 | exact case-insensitive matches when there are any; otherwise the first min(5, n) of the n fuzzy matches, in table order; every result contains the text ignoring case |
| QuestionDb.FindSimilarEmptyIff | models/database.web.ts:182-199 | the result is empty iff no stored question contains the text ignoring case |
| QuestionDb.ExactMatchWins | models/database.web.ts:182-188 | a question equal up to case is always reported, and then only such questions |
| QuestionDb.FindSimilarQuestions | utils/server-db.ts:64-95 | no connection or a failing query gives the empty list; otherwise `FindSimilar` |
| QuestionDb.FirstWholeWordFrom | models/database.web.ts:215-216 | the first whole-word occurrence at or after the start position, or none at all |
| QuestionDb.CheckQuestionContainsAnswer | models/database.web.ts:209-217 | true iff the lower-cased answer occurs in the lower-cased question between word boundaries |
| QuestionDb.CheckIgnoresCase | models/database.web.ts:211-212 | the check gives the same verdict whatever the case of either side |
| QuestionDb.WholeWordIsSubstring | models/database.web.ts:215-216 | a whole-word hit is a case-insensitive substring hit |
| QuestionDb.AnswerInsideWordRejected | models/database.web.ts:215-216 | "cat" inside the longer word "cats" is not a whole-word hit |
| QuestionDb.AnswerStandingAloneFound | models/database.web.ts:209-216 | "cat" standing alone in "A cat!" is found, the capital in the question notwithstanding |
| QuestionDb.InsertCategory | models/database.web.ts:38-44 | the insert fails iff the pair exists; otherwise it appends, and pairs stay unique |
| QuestionDb.CountPair | models/database.web.ts:164-166 | the count never exceeds the rows |
| QuestionDb.CountPairPositive | models/database.web.ts:164-168 | the count is positive iff the pair exists |
| QuestionDb.ValidateCategory | models/database.web.ts:158-169 | true iff the pair is present |
| QuestionDb.InsertAll | models/database.web.ts:88-103 | a committed transaction appends the defaults in order and keeps pairs unique |
| QuestionDb.InsertAllSucceeds | models/database.web.ts:98-102 | distinct default pairs all go in |
| QuestionDb.PairLeqIsTotalPreorder | models/database.web.ts:116 | the order by main category then subcategory is total and transitive |
| QuestionDb.CategoryTable.constructor | models/database.web.ts:37-44 | an empty table with unique pairs |
| QuestionDb.CategoryTable.PopulateIfEmpty | models/database.web.ts:68-75 | only an empty table receives the defaults; a rollback leaves it empty; uniqueness is kept |
| QuestionDb.CategoryTable.GetCategories | models/database.web.ts:108-121 | every row once, ordered by main category then subcategory |
| QuestionDb.SaveToBackup | utils/server-db.ts:100-134 | succeeds iff the write works and the file does not hold a non-list; the entry is appended after the old ones, or starts a new list when the file is missing or unparsable; a failure changes nothing |
| QuestionDb.BackupAppendOnly | utils/server-db.ts:110-128 | after a run of saves the old entries are a prefix, with one more entry per successful save |
| QuestionDb.BackupFile.constructor | utils/server-db.ts:107-119 | the file holds the given content |
| QuestionDb.BackupFile.SaveQuestionToBackupFile | utils/server-db.ts:100-134 | the new content and the result are those of `SaveToBackup` |
| Ingestion.QuestionsData | app/questions+api.ts:34 | a list body is taken as it is; any other body is a one-element batch |
| Ingestion.NewRow | app/questions+api.ts:64-78 | the row carries the posted fields, the stored form of the incorrect answers, the generated id and the time read |
| Ingestion.ApiStep | app/questions+api.ts:42-93 | incomplete items are errors; similar items duplicates; a missing `incorrect_answers` or a failing insert an error with the database's message; otherwise the new row is appended to the table and to `added`, and the item is backed up; nothing else changes the table |
| Ingestion.ApiRunAccounts | app/questions+api.ts:42-103 | the counts sum to the batch size; the table grows by exactly the added rows, in order; each added item goes to the backup |
| Ingestion.ApiInsertedItems | app/questions+api.ts:42-85 | the inserted items, in input order, are complete, carry incorrect answers and come from the batch |
| Ingestion.ApiAddedRows | app/questions+api.ts:64-82 | one new row per inserted item |
| Ingestion.ApiRunAdds | app/questions+api.ts:42-85 | `added` gains exactly the new rows of the items that pass validation, have nothing similar in the table built so far and insert successfully, in input order; the backup gains exactly those items |
| Ingestion.SameBatchDuplicate | app/questions+api.ts:54-82 | a second copy of a new question in one batch is reported as a duplicate of the first |
| Ingestion.ApiDatabase.constructor | app/questions+api.ts:31 | the table holds the given rows |
| Ingestion.ApiDatabase.Post | app/questions+api.ts:28-103 | table, report and backup calls are those of `ApiRun` over the normalised body |
| Ingestion.ServerSimilar | server.js:40 | a record without question text has no similar records |
| Ingestion.ServerStep | server.js:39-54 | similar records become duplicates; otherwise a failing insert is an error with its message, and a successful one appends the record to the table, to `added` and to the backup; nothing else changes the table |
| Ingestion.ServerRunAccounts | server.js:38-65 | the counts sum to the batch size and the table grows by exactly the added records |
| Ingestion.ServerInsertedItems | server.js:38-54 | the inserted records come from the batch |
| Ingestion.ServerRunAdds | server.js:38-54 | `added` and the backup gain exactly the records with nothing similar in the table built so far whose insert succeeds, in input order |
| Ingestion.ServerSkipsStoredQuestion | server.js:40-44 | a record already stored up to case is reported as a duplicate and not inserted |
| Ingestion.ServerDatabase.constructor | server.js:32 | the table holds the given records |
| Ingestion.ServerDatabase.Post | server.js:29-70 | table, report and backup calls are those of `ServerRun` over the normalised body |
| Ingestion.CheckDuplicates | server.js:85-98 | status 400 iff the question is missing or empty; otherwise the similar questions, their count, and `hasDuplicates` iff the count is positive |
| Ingestion.HasDuplicatesIff | server.js:92-98 | `hasDuplicates` iff some stored question contains the text ignoring case |
| BulkImport.Created | models/database.ts:161-171 | the record copies the posted fields, keeps a string and serialises a list of incorrect answers, leaves a missing one missing, and is stamped with the time its own callback read |
| BulkImport.AddQuestion | models/database.ts:111-128 | the same record the import creates; a string of incorrect answers is kept |
| BulkImport.Batches | models/database.ts:149-155 | every batch holds between 1 and 50 items |
| BulkImport.BatchesCover | models/database.ts:154-155 | the batches concatenate to the input, and there are ceil(n/50) of them |
| BulkImport.Survivors | models/database.ts:180 | never more results than inputs |
| BulkImport.SurvivorsAppend | models/database.ts:180 | survivors of a concatenation are the survivors of each part, in order |
| BulkImport.AllSucceedKeepsAll | models/database.ts:157-180 | when every creation succeeds every question is imported, in order, each with its own creation time |
| BulkImport.ImportQuestions | models/database.ts:139-183 | missing or empty input writes nothing and returns []; otherwise the batches are `Batches` and the results are the survivors in input order |
| JsonExport.CollapseRuns | utils/json-validation.ts:160 | only [a-z0-9] and `-` remain, with no two `-` in a row |
| JsonExport.CollapseKeepsSlugChars | utils/json-validation.ts:160 | with the dashes removed the result is exactly the input's [a-z0-9] characters, in order |
| JsonExport.CollapseKeepsRun | utils/json-validation.ts:160 | a non-empty run of [a-z0-9] characters passes through unchanged |
| JsonExport.CollapseReplacesRun | utils/json-validation.ts:160 | a maximal run of other characters becomes one `-`, or nothing when it continues a replaced run |
| JsonExport.Slug | utils/json-validation.ts:160 | the name ends in `.json` and its stem has only [a-z0-9] and single `-` runs |
| JsonExport.SlugKeepsCharacters | utils/json-validation.ts:160 | the stem without dashes is exactly the lower-cased main category's [a-z0-9] characters, in order |
| JsonExport.SlugIgnoresCase | utils/init-json-files.ts:68 | case does not change the file name |
| JsonExport.SlugOfSpacedAmpersand | utils/init-json-files.ts:68 | "A & B" becomes `a-b.json` |
| JsonExport.SlugOfDashed | utils/init-json-files.ts:68 | "a-b" becomes `a-b.json` |
| JsonExport.SlugCollides | utils/init-json-files.ts:68-79 | "A & B" and "a-b" share the file name `a-b.json` |
| JsonExport.QuestionsIn | utils/init-json-files.ts:63-66 | exactly the questions of one main category, in table order |
| JsonExport.ExportFiles | utils/init-json-files.ts:62-82 | the manifest names exactly the written files, each with its question count |
| JsonExport.Exported | utils/init-json-files.ts:30-94 | categories.json holds the categories; the manifest's category count equals their number; its entries name exactly the written files |
| JsonExport.InitializeJsonFiles | utils/init-json-files.ts:30-94 | the loop produces the directory `Exported` describes |
| JsonExport.ExportLastWins | utils/init-json-files.ts:68-79 | a file name describes the last main category slugging to it, and holds that category's questions |
| JsonExport.ExportOwnFile | utils/init-json-files.ts:62-82 | without shared names each main category gets its own file holding exactly its questions |
| JsonExport.ExportCollisionOverwrites | utils/init-json-files.ts:75-79 | with a shared name the earlier category's entry is overwritten |
| JsonExport.VerifyManifest | utils/json-validation.ts:64-101 | true iff both files exist, the category count matches, and every listed file exists with the listed count |
| JsonExport.ExportPassesManifest | utils/json-validation.ts:74-94 | a fresh export passes the manifest check |
| JsonExport.LastWithId | utils/json-validation.ts:126-131 | a map lookup by id finds an element iff the id occurs, and then the last element with that id |
| JsonExport.VerifyCategoryConsistency | utils/json-validation.ts:106-152 | true iff the counts agree and every database id is in the JSON with the same main category and subcategory |
| JsonExport.VerifyQuestionFileConsistency | utils/json-validation.ts:157-209 | true iff the slug's file exists with as many questions as the database holds, and every database question is in it with equal fields |
| JsonExport.VerifyAllFiles | utils/json-validation.ts:214-244 | true iff the manifest check, the category check and every main category's file check pass |
| JsonExport.ExportCollisionFileCheck | utils/init-json-files.ts:75-79 | with a shared file name, the earlier category's file check fails iff either category has a question |
| JsonExport.ExportVerifies | utils/init-json-files.ts:30-94 | an export without file-name collisions passes every verifier against the same database |

## Left out

- Network calls are left out: axios/fetch, the OTDB token request and its retries. A fetch
  appears only as its outcome (`FetchOutcome`, `Response`, `Reply`).
- `getQuestionsFromOtdb` and `RateLimitError` are not defined by `hooks/useOtdbApi.ts` as
  shown. The pool treats them as an opaque source of outcomes.
- Real timers and React effect scheduling are not modelled. The 5500 ms retry is the
  `retryPending` flag plus the `FireRetry` step.
- `Math.random` is not modelled: the insertion index is a parameter bounded by the list
  length.
- `Buffer.from(s, 'base64').toString()` is the uninterpreted parameter `b64`.
- `JSON.stringify` of answer lists is the parameter `stringify`. Each `new Date()` is read
  per record, as `ItemEnv.now` and `Creation.now`; the export's single timestamp is the
  parameter `now`.
- Database, filesystem and insert failures enter per item as parameters: `ItemEnv`,
  `Creation`, `writeOk`, `loaded`.
- Ingestion.ApiStep: the message of the NOT NULL failure for a missing `incorrect_answers`
  is taken to be better-sqlite3's `SqliteError` text for that column.
- UI rendering, styles, persistence (zustand/AsyncStorage) and the admin index pages are
  not modelled.
- `initializeDatabase` promise memoisation and `getDB`/`initDatabase` are not modelled,
  because they are connection plumbing.
- Only the (main, sub) uniqueness of the categories table is modelled. Id uniqueness and
  generated UUIDs are not.
- The store-shape mismatches are not followed. `hooks/useQuestions.ts` and
  `hooks/useQuestionManager.ts` read per-difficulty lists that `store.tsx` as shown does
  not have. `utils/init-json-files.ts` imports a `getAllCategories` that `utils/server-db.ts`
  does not export. Both are modelled against explicit inputs (`QuestionStore`,
  `categories`).
- `models/schema.ts` as shown is a WatermelonDB `appSchema` with only a default export.
  It has no `questions` or `categories` table objects and no `QuestionData` type. So
  `schema.questions` and `schema.categories` are undefined at app/questions+api.ts:9 and
  :81, utils/init-json-files.ts:65-66 and utils/json-validation.ts:116 and :170-171. The
  model assumes a working drizzle table with the columns of utils/server-db.ts.
- `app/questions/check-duplicates+api.ts` is not part of this model. The same rule is
  modelled from `server.js`.
- `utils/backup.ts`, `utils/test-json-validation.ts` and the mobile database files are
  not part of this model.
- Text.Lower: lowers ASCII letters only. SQLite's `LOWER` does exactly this, but
  JavaScript's `toLowerCase` also lowers non-ASCII letters, so the JavaScript callers are
  modelled on ASCII text.
- AdminCategories.Trim: strips ASCII whitespace only. JavaScript's `trim` also strips
  Unicode spaces and line terminators.
- QuestionDb.FindSimilar: the `%` and `_` wildcards that LIKE would honour inside the
  question text are taken literally. The fuzzy step is a plain case-insensitive substring
  test.
- QuestionDb.CheckQuestionContainsAnswer: the answer is read literally. Regular-expression
  metacharacters in it (which the source does not escape) are not interpreted.
- JsonExport.Slug: only ASCII case folding is modelled before the replacement.
- Ingestion.ServerStep: `added` records the posted record. The source records the opaque
  result of `db.insert(...).values(...)`. Whether the insert of a raw record fails,
  including one with missing fields, is the per-item input `insertError`.
- Ingestion.ServerSimilar: a record without `question` is taken to find nothing similar.
  This assumes the lookup's query fails to bind and its catch returns an empty list.
- BulkImport.ImportQuestions: a failure of a whole `database.write` batch (the outer
  catch) is not modelled. Only per-record creation failures are.
- JsonExport.VerifyQuestionFileConsistency: `normalizeDate` is taken as the identity on
  ISO text, and the field-by-field `JSON.stringify` comparison as record equality.
- JsonExport.ExportVerifies: requires that no two main categories share a file name. With
  a collision the file holds only the later category's questions. The earlier category's
  file check then fails exactly when either of the two has a question, which
  `ExportCollisionFileCheck` states. With no questions in either, the check passes.
- AdminCategories.SortGroups: the in-place `sort` of each group is modelled on values with
  an abstract comparator. Aliasing of the grouped arrays is not captured.
- `localeCompare` is an abstract relation `leq`. Sortedness is proved for every total
  preorder; the library's exact collation is not modelled.
- The backup directory creation and the file write are folded into the single `writeOk`
  flag.

## Findings

| source | as written | input that shows it | evidently intended | confidence | as-written member | corrected member |
|---|---|---|---|---|---|---|
| app/question.tsx:30-54 | `fetchQuestions` is memoised with an empty dependency list, so its `currentQuestion` is always the initial null, and every successful fetch calls `goToNextQuestion` | a question is displayed, the buffer drops below 10, and the background refill returns one record: the displayed question is replaced and the selected answer cleared | move on after a fetch only while no question is displayed | not executed | QuestionScreen.AfterFetchAsWritten (lemma QuestionScreen.AsWrittenRefillSkipsDisplayedQuestion) | QuestionScreen.AfterFetch (lemma QuestionScreen.RefillKeepsDisplayedQuestion) |
