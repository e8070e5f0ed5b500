# QuizzGame core, modelled in Dafny

This project models the core of QuizzGame, a React quiz application written in
TypeScript, and proves properties of that model. The application has four parts:

- a catalogue of built-in and custom quizzes (the quiz provider);
- a quiz editor (the studio);
- a live session that a participant joins with a PIN code or a link;
- an analytics dashboard that exports CSV and PDF reports.

Each module follows one source file or one concern of it:

| module | file | models |
|---|---|---|
| `Wrappers` | `wrappers.dfy` | `Option` and the `??` operator |
| `Strings` | `strings.dfy` | the JavaScript string built-ins the core uses: `trim`, ASCII `toLowerCase`, `split`, `join`, `includes`, `padStart`, `slice`, `replace` of one character, number printing |
| `Sorting` | `sorting.dfy` | `Array.prototype.sort` with a comparator, as a stable insertion sort, and the default code-point string order |
| `Records` | `records.dfy` | JavaScript objects used as dictionaries (`Record<string, T>`), as association lists in insertion order |
| `QuizTypes` | `quiz_types.dfy` | the types of `context/QuizContext.tsx`, point totals and id look-ups |
| `Selection` | `selection.dfy` | the "toggle an id in a list" idiom shared by the question card, the live session and the account store |
| `Grading` | `grading.dfy` | how `submitAnswer` grades open and choice answers |
| `QuizData` | `quiz_data.dfy` | the question bank and the three built-in quizzes of `data/quizzes.ts` |
| `Tags` | `tags.dfy` | `parseTags` of the quiz editor |
| `QuizContext` | `quiz_context.dfy` | the quiz provider, as class `QuizProvider` over its React state, with pure functions for the catalogue order, share settings, attempts and patches |
| `UserContext` | `user_context.dfy` | the account store, as class `UserStore` |
| `QuizBuilder` | `quiz_builder.dfy` | the quiz editor, as class `QuizBuilderForm`, with its handlers, validator and submit normalisation |
| `Analytics` | `analytics.dfy` | the dashboard's per-question statistics, the most-missed ranking and `truncate` |
| `CsvExport` | `csv_export.dfy` | the CSV export and a reader for it |
| `PdfExport` | `pdf_export.dfy` | `createPdfDocument` and `escapePdfText`, and where a reader finds the objects, the table and the stream |
| `LiveSession` | `live_session.dfy` | the participant session page, as class `ParticipantSession` |
| `JoinForm` | `join_form.dfy` | the PIN-code and link form that opens a session |
| `QuestionCard` | `question_card.dfy` | the question card, as class `Card` |
| `Studio` | `studio.dfy` | the studio page's filters and menus |

The model follows the source's own form:

- State that React components keep becomes class fields.
- Each handler that updates the state becomes a method with a `modifies` clause. Its `ensures` gives the new state as a function of the old one.
- The `setX((previous) => ...)` updaters become pure functions, and the lemmas about them state what the source promises.
- Loops of the source (`validateQuiz`, the `forEach` passes of `finalizeAttempt` and of the share-settings effect, the object and table passes of `createPdfDocument`) are methods with `while` loops. Each is proved equal to its specification function.

Inputs the code reads from the outside become parameters: the clock (`Date.now()`), fresh ids (`crypto.randomUUID`, `generateId`), `window.location.origin` and the callbacks a component receives.

## Model

| member | source | states |
|---|---|---|
| Strings.TrimSpec | components/studio/QuizBuilderForm.tsx:671-677 | `trim` keeps a middle slice and drops exactly the white space at both ends |
| Strings.TrimStart | components/studio/QuizBuilderForm.tsx:671 | `trimStart` keeps a suffix |
| Strings.TrimStartSpec | components/studio/QuizBuilderForm.tsx:671 | what `trimStart` drops is white space, and what it keeps starts with none |
| Strings.TrimEnd | components/studio/QuizBuilderForm.tsx:671 | `trimEnd` keeps a prefix |
| Strings.TrimEndSpec | components/studio/QuizBuilderForm.tsx:671 | what `trimEnd` drops is white space, and what it keeps ends with none |
| Strings.Trim | components/studio/QuizBuilderForm.tsx:671 | `trim` keeps a slice of the text |
| Strings.TrimEmptyIff | components/studio/QuizBuilderForm.tsx:671-677 | a trimmed text is empty (falsy) exactly when the text is all white space |
| Strings.TrimIdempotent | components/studio/QuizBuilderForm.tsx:213-222 | trimming twice is trimming once |
| Strings.RemoveSpaces | components/ParticipantJoinForm.tsx:26 | `replace(/\s+/g, "")` leaves no white space, keeps exactly the other characters, and changes nothing in a text without white space |
| Strings.LowerSpec | components/ParticipantJoinForm.tsx:26-27 | lower-casing leaves no upper-case letter, keeps every other character and the length, and upper-cases back to the same text |
| Strings.UpperSpec | context/UserContext.tsx:72-76 | upper-casing leaves no lower-case letter, keeps every other character and the length, and lower-cases back to the same text |
| Strings.LowerConcat | components/ParticipantJoinForm.tsx:26-27 | lower-casing works piece by piece |
| Strings.LowerIdempotent | components/ParticipantJoinForm.tsx:26-27 | lower-casing twice is lower-casing once |
| Strings.TrimLower | context/QuizContext.tsx:751-753 | trimming and lower-casing commute |
| Strings.TrimPadded | context/QuizContext.tsx:751-753 | white space added around a text is trimmed away |
| Strings.SplitAvoids | components/studio/QuizBuilderForm.tsx:665 | no piece of a split holds a separator |
| Strings.Split | components/studio/QuizBuilderForm.tsx:665 | a split always has at least one piece |
| Strings.JoinSplit | components/studio/QuizBuilderForm.tsx:42 | joining the pieces of a split with the separator gives the text back |
| Strings.SplitJoin | components/studio/QuizBuilderForm.tsx:663-668 | splitting a join of separator-free pieces gives the pieces back |
| Strings.NatStrRoundTrip | components/AnalyticsDashboard.tsx:365 | the decimal digits of a number read back as the number |
| Strings.NatStr | components/AnalyticsDashboard.tsx:365 | `toString` of a number gives at least one digit, and digits only |
| Strings.ReplaceCharMembers | components/AnalyticsDashboard.tsx:296 | replacing a character that does not occur changes nothing; every character of the result is an unreplaced one of the text or comes from the replacement |
| Strings.ReplaceCharOne | components/AnalyticsDashboard.tsx:296 | a single character becomes the replacement exactly when it is the replaced one |
| Strings.ReplaceCharConcat | components/AnalyticsDashboard.tsx:296 | replacement works piece by piece, so each occurrence is replaced where it stands |
| Strings.PadStart | components/AnalyticsDashboard.tsx:365 | `padStart` reaches the width with the fill character and ends with the text |
| Strings.ZeroPadValue | components/AnalyticsDashboard.tsx:365 | zero-padding a number's digits keeps the number |
| Strings.SlicePrefix | data/quizzes.ts:758 | `slice(0, k)` keeps the first `k` elements, or all of them |
| Strings.SliceConcat | data/quizzes.ts:758 | two adjacent slices join into the slice they span |
| Strings.SliceSplit | data/quizzes.ts:758 | a slice up to an index and the slice from it give the whole sequence back |
| Records.Get | context/QuizContext.tsx:288 | a look-up finds a value exactly when the key is present, and finds the stored pair |
| Records.KeysSpec | context/QuizContext.tsx:294 | `Object.keys` lists exactly the present keys, `Object.values` one value per key, and with distinct keys each value is the one stored under its key |
| Records.KeysPut | context/QuizContext.tsx:431 | storing under a new key appends it to `Object.keys`; storing under a present key keeps the key order |
| Records.KeySetSize | context/QuizContext.tsx:294 | with distinct keys there are as many keys as entries |
| Records.Put | context/QuizContext.tsx:431 | `{ ...r, [k]: v }` maps `k` to `v`, keeps every other key's value, replaces in place or appends, never repeats a key |
| Records.Remove | context/QuizContext.tsx:296 | `delete` removes the key and keeps every other key's value |
| Sorting.SortBy | context/QuizContext.tsx:367-377 | the sorted copy is a permutation of the input |
| Sorting.Insert | context/QuizContext.tsx:367-377 | one insertion step adds the element and keeps the others |
| Sorting.SortBySorted | context/QuizContext.tsx:367-377 | under a consistent comparator the copy is sorted |
| Sorting.SortEqualIff | context/QuizContext.tsx:367-377 | under a total order two lists sort alike exactly when they hold the same elements |
| Sorting.SortBySortedInput | context/QuizContext.tsx:367-377 | a list that is already sorted comes back unchanged |
| Sorting.SortStable | context/QuizContext.tsx:367-377 | the sort is stable: the elements tying with any given one keep their input order |
| Sorting.SortedUnique | context/QuizContext.tsx:367-377 | under a total order two sorted arrangements of the same elements are equal |
| Sorting.TakeSorted | components/AnalyticsDashboard.tsx:56-59 | the first `n` of a sorted copy are input elements, in order |
| Sorting.TakeSortedBest | components/AnalyticsDashboard.tsx:56-59 | no element left out of the first `n` is before one kept |
| Sorting.StrLtIsTotalOrder | app/participate/session/page.tsx:37 | the default string order is a strict total order |
| Sorting.SortStrings | app/participate/session/page.tsx:59-62 | `[...ids].sort()` is a permutation of the ids |
| Sorting.SortStringsSorted | app/participate/session/page.tsx:59-62 | `[...ids].sort()` is in code-point order |
| Sorting.SortStringsEqualIff | app/participate/session/page.tsx:59-62 | two id lists sort to the same list exactly when they hold the same ids, counting repeats |
| QuizTypes.TotalPoints | context/QuizContext.tsx:408-411 | the total is the question count when no question sets points, and never negative when no question's points are |
| QuizTypes.TotalPointsConcat | context/QuizContext.tsx:408-411 | the total of two runs of questions is the sum of their totals |
| QuizTypes.TotalPointsOne | context/QuizContext.tsx:408-411 | a question adds its own points, or 1 when it sets none |
| QuizTypes.FindQuestion | context/QuizContext.tsx:403 | `find` by id succeeds exactly when some question has the id, and returns the first such question |
| QuizTypes.FindQuiz | context/QuizContext.tsx:504 | `find` by id succeeds exactly when some quiz has the id, and returns the first such quiz |
| QuizTypes.WithoutQuiz | context/QuizContext.tsx:682-684 | the filter keeps exactly the quizzes with another id |
| QuizTypes.QuestionIdsFind | context/QuizContext.tsx:392 | an id is listed exactly when `find` by that id succeeds |
| QuizTypes.QuizIdsFind | context/QuizContext.tsx:282 | an id is listed exactly when `find` by that id succeeds |
| QuizTypes.CorrectIds | app/participate/session/page.tsx:37 | the ids of the correct options, exactly |
| QuizTypes.CorrectCount | components/studio/QuizBuilderForm.tsx:699 | the number of correct options, which is the number of correct ids, and 0 exactly when no option is correct |
| Selection.WithoutId | components/QuestionCard.tsx:119 | the filter keeps exactly the other ids |
| Selection.WithoutAbsent | components/QuestionCard.tsx:119 | removing an absent id changes nothing |
| Selection.WithoutAppend | components/QuestionCard.tsx:118-120 | removing an id just appended gives what removing it before would have given |
| Selection.ToggleId | components/QuestionCard.tsx:118-120 | membership of the id flips and no other id changes |
| Selection.ToggleIdTwice | components/QuestionCard.tsx:118-120 | toggling an absent id twice restores the selection |
| Grading.NormalizeText | context/QuizContext.tsx:751-753 | the normalised text is empty exactly when the trimmed text is |
| Grading.NormalizeTrim | context/QuizContext.tsx:751-753 | trimming before normalising changes nothing |
| Grading.NormalizeIgnoresCase | context/QuizContext.tsx:751-753 | texts that differ only in letter case normalise alike |
| Grading.NormalizeIgnoresSpace | context/QuizContext.tsx:751-753 | white space around a text does not change its normal form |
| Grading.Grade | context/QuizContext.tsx:530-576 | the response carries the question id, the time, the time-out flag and the question's points, earned only when correct; an open answer stores its trimmed text; a choice answer stores the selection and the correct ids, sorted and otherwise unchanged |
| Grading.GradeOpenIff | context/QuizContext.tsx:543-547 | an open answer is correct exactly when the normalised expected answer is non-empty and equals the normalised text |
| Grading.GradeChoiceIff | context/QuizContext.tsx:549-558 | a choice answer is correct exactly when the selection holds the correct ids, counting repeats, in any order |
| Grading.GradeSortsIds | context/QuizContext.tsx:553-554 | the selected and the correct ids are stored in ascending order |
| Grading.GradeOpenAccepts | context/QuizContext.tsx:543-547 | an open answer that differs from the expected one only in case and surrounding white space is correct |
| Grading.GradeTrueFalseFallback | context/QuizContext.tsx:161-164 | for an option-less true/false question only the selection `["true"]` is correct |
| QuizData.BankShape | data/quizzes.ts:3-754 | the bank holds 25 single-choice questions, each with exactly one correct option among four |
| QuizData.BuildQuizQuestionsAsWritten | data/quizzes.ts:755-763 | as written, the copies are the bank range with everything but the id kept |
| QuizData.BuildQuizQuestions | data/quizzes.ts:755-763 | as intended, each copy's id is the prefix, a dash and the bank id |
| QuizData.BuildQuizQuestionsRange | data/quizzes.ts:755-763 | the copies are the clamped bank range, in bank order |
| QuizData.AsWrittenIdsCollide | data/quizzes.ts:760 | as written, every question of a quiz gets the same id |
| QuizData.AsWrittenLookupFindsFirst | data/quizzes.ts:760 | as written, a look-up by id always finds the quiz's first question |
| QuizData.IntendedIdsDistinct | data/quizzes.ts:760 | as intended, distinct bank ids give distinct question ids |
| QuizData.QuizzesOver | data/quizzes.ts:803-846 | the catalogue holds three quizzes, built with the intended question ids |
| QuizData.QuizzesOverShape | data/quizzes.ts:803-846 | levels 1, 2 and 3 with rising difficulty, over 8, 8 and 9 questions |
| QuizData.QuizzesCoverBank | data/quizzes.ts:800-846 | with the intended ids, the three ranges cover every bank entry once, in order, each id prefixed by its quiz id |
| QuizData.QuizzesOverQuestions | data/quizzes.ts:800-846 | with the intended ids, the quiz ids and the bank ranges [0, 8), [8, 16) and [16, 25) |
| Tags.TrimAllTrimmed | components/studio/QuizBuilderForm.tsx:666 | every piece comes out trimmed, so trimming again changes nothing |
| Tags.NonEmpty | components/studio/QuizBuilderForm.tsx:667 | `filter(Boolean)` keeps only non-empty strings |
| Tags.NonEmptyMembers | components/studio/QuizBuilderForm.tsx:667 | a string survives exactly when it is present and non-empty |
| Tags.ParseTagsClean | components/studio/QuizBuilderForm.tsx:663-668 | every tag is non-empty, trimmed and comma-free |
| Tags.PieceClean | components/studio/QuizBuilderForm.tsx:665-666 | every trimmed piece of the comma split is trimmed and comma-free |
| Tags.ParseTagsMembers | components/studio/QuizBuilderForm.tsx:663-668 | a tag is exactly a non-empty trimmed piece of the comma split |
| Tags.ParseTagsJoin | components/studio/QuizBuilderForm.tsx:42 | re-parsing the `", "`-joined tags the editor shows gives back exactly those tags |
| Tags.JoinSpaced | components/studio/QuizBuilderForm.tsx:42 | a `", "` join is a `","` join of the spaced tags |
| Tags.ParseTagsEmpty | components/studio/QuizBuilderForm.tsx:663-668 | an empty input gives no tags |
| Tags.TagsConcat | components/studio/QuizBuilderForm.tsx:663-668 | trimming and dropping empties work piece by piece, left to right |
| QuizContext.StaticQuizzesFind | context/QuizContext.tsx:152-157 | each built-in quiz keeps its definition's id and content and is marked default; distinct ids stay distinct and a look-up finds the definition |
| QuizContext.CatalogueOrderConsistent | context/QuizContext.tsx:367-377 | the catalogue comparator is a consistent order |
| QuizContext.Catalogue | context/QuizContext.tsx:365-378 | the catalogue is a permutation of the built-in and custom quizzes |
| QuizContext.CatalogueOrdered | context/QuizContext.tsx:365-378 | built-ins first, by level with a missing level last; then custom quizzes, most recently updated first |
| QuizContext.AddMissing | context/QuizContext.tsx:287-292 | every catalogue id without settings gets private settings; existing settings are kept |
| QuizContext.DropStaleSpec | context/QuizContext.tsx:294-299 | every listed key that is not a catalogue id is deleted; others are kept |
| QuizContext.ReconciledSpec | context/QuizContext.tsx:281-303 | after the effect the keys are exactly the catalogue ids: old settings kept, new ones private |
| QuizContext.AddMissingPresent | context/QuizContext.tsx:287-292 | when every catalogue id has settings the first loop changes nothing |
| QuizContext.DropStaleKept | context/QuizContext.tsx:294-299 | when every key is a catalogue id the second loop changes nothing |
| QuizContext.ReconciledIdempotent | context/QuizContext.tsx:281-303 | reconciling twice is reconciling once |
| QuizContext.WithVisibility | context/QuizContext.tsx:610-619 | going public keeps an existing token or takes a fresh one; going private drops it; other quizzes are untouched |
| QuizContext.WithVisibilityTokenStable | context/QuizContext.tsx:610-619 | making a quiz public twice keeps the first token |
| QuizContext.WithoutAttempt | context/QuizContext.tsx:487 | the filter keeps exactly the attempts with another id |
| QuizContext.WithoutAttemptUnique | context/QuizContext.tsx:487 | filtering keeps attempt ids distinct |
| QuizContext.NextHistory | context/QuizContext.tsx:486-493 | the new attempt heads a history of at most 50 entries, followed only by older attempts with other ids |
| QuizContext.NextHistoryProperties | context/QuizContext.tsx:486-493 | ids stay distinct, and below the limit every older attempt with another id is kept |
| QuizContext.AttemptsFor | context/QuizContext.tsx:466 | exactly the history's attempts at the quiz |
| QuizContext.FillDurations | context/QuizContext.tsx:442-448 | measured durations are kept and no repeated key appears |
| QuizContext.FillDurationsAt | context/QuizContext.tsx:443-447 | a question without a measured duration gets its time limit exactly when it timed out |
| QuizContext.FillDurationsOther | context/QuizContext.tsx:443-447 | a key that no question has is untouched |
| QuizContext.FillDurationsSpec | context/QuizContext.tsx:442-448 | both facts for every question of a quiz with distinct question ids |
| QuizContext.CorrectIncorrectPartition | context/QuizContext.tsx:457-462 | every response is counted once, as correct or as incorrect |
| QuizContext.CorrectQuestionIdsMembers | context/QuizContext.tsx:457-459 | an id is listed as correct exactly when a response for it is graded correct |
| QuizContext.IncorrectQuestionIdsMembers | context/QuizContext.tsx:460-462 | an id is listed as incorrect exactly when a response for it is graded incorrect |
| QuizContext.EarnedTotalPut | context/QuizContext.tsx:413-415 | storing a response changes the score by the new minus the replaced points |
| QuizContext.NextIndex | context/QuizContext.tsx:526-528 | the next index never passes the last question, and advances by one before it |
| QuizContext.NextIndexIdempotentAtEnd | context/QuizContext.tsx:526-528 | advancing from the last question stays there |
| QuizContext.SyncedOrder | context/QuizContext.tsx:390-397 | one known id per question; a stored order over the current ids is kept, and one that lost ids is replaced by the quiz order |
| QuizContext.SyncedOrderIdempotent | context/QuizContext.tsx:390-397 | re-running the effect keeps the order it produced |
| QuizContext.FilterIn | context/QuizContext.tsx:394 | the filter keeps exactly the known ids, and keeps a list of known ids whole |
| QuizContext.DraftIdNotBlank | context/QuizContext.tsx:638-660 | a created quiz never gets a blank or untrimmed id, and a trimmed draft id is kept |
| QuizContext.PrependReplacing | context/QuizContext.tsx:652-656 | the new quiz heads the list, which keeps only the quizzes with other ids |
| QuizContext.PrependReplacingUnique | context/QuizContext.tsx:652-656 | creating keeps ids distinct, and a look-up by id finds the new quiz |
| QuizContext.WithoutQuizUnique | context/QuizContext.tsx:682-684 | deleting keeps quiz ids distinct |
| QuizContext.DeleteAfterCreate | context/QuizContext.tsx:682-684 | deleting a just-created quiz leaves what deleting it before would have left |
| QuizContext.WithoutQuizTwice | context/QuizContext.tsx:682-684 | deleting twice is deleting once |
| QuizContext.ApplyPatchLaws | context/QuizContext.tsx:662-680 | an empty update only touches `updatedAt`; updating twice is updating once; origin and creation time stay; a field sent as `undefined` is cleared, while undefined tags keep the old tags |
| QuizContext.FormPatch | components/studio/QuizBuilderForm.tsx:211-237 | the editor never sends the owner, the likes, the access code or the link |
| QuizContext.EditWithForm | components/studio/QuizBuilderForm.tsx:211-237 | saving the editor (the edit page's `updateQuiz(quiz.id, update)`) sets each field the form sends, clearing blank ones, keeps the owner, likes, code and link, and keeps the old tags only when none are sent |
| QuizContext.PatchAllEffect | context/QuizContext.tsx:664-675 | other quizzes stay as they were; without a rename the ids stay, and stay distinct; each updated quiz keeps its origin and creation time and is stamped with the time |
| QuizContext.LastQuizIndex | context/QuizContext.tsx:664-675 | the index of the last quiz with the id, if any |
| QuizContext.LastPatched | context/QuizContext.tsx:662-680 | the returned quiz is the patched last quiz with the id, the entry of the patched list there |
| QuizContext.Duplicate | context/QuizContext.tsx:686-706 | the copy gets the fresh id, custom origin, both timestamps now, the signed-in user (else the source's creator) as owner, zero likes and " (copie)" after the title; every other field is the source's |
| QuizContext.SaveCopyRenames | context/QuizContext.tsx:662-674 | as written, when the edit page saves a built-in quiz by duplicating it and updating the copy with the form's object, the copy is renamed to the built-in quiz's id and nothing is left under the fresh id the page redirects to |
| QuizContext.SaveCopyKeepsId | context/QuizContext.tsx:662-674 | as intended, when the edit page saves a built-in quiz, the copy is found under its fresh id and has the form's content, the new owner and zero likes |
| QuizContext.SubmittedValid | context/QuizContext.tsx:530-593 | submitting keeps every record free of repeated keys |
| QuizContext.SubmittedResponses | context/QuizContext.tsx:578-584 | the response is stored under its question id and every other response is kept |
| QuizContext.SubmittedDurations | context/QuizContext.tsx:574-576 | a time taken is stored, clamped at zero; without one the durations are unchanged |
| QuizContext.SubmittedFinalizes | context/QuizContext.tsx:578-584 | the completing answer closes the session and heads the history with the attempt, scored with every stored response; any other answer leaves both alone |
| QuizContext.SubmittedScoreIsStale | context/QuizContext.tsx:464-474 | as written, the attempt records the score from before the final answer: 0 for a one-question quiz |
| QuizContext.SubmittedScoreCounted | context/QuizContext.tsx:578-584 | as intended, the recorded score is the old total with the replaced points swapped for the new answer's |
| QuizContext.QuizProvider.constructor | context/QuizContext.tsx:168-181 | the provider's initial state |
| QuizContext.QuizProvider.Commit | context/QuizContext.tsx:168-181 | the state setters of one handler, applied together |
| QuizContext.QuizProvider.CommitQuiz | context/QuizContext.tsx:168-181 | the quiz part of that step |
| QuizContext.QuizProvider.CommitSession | context/QuizContext.tsx:168-181 | the session part of that step |
| QuizContext.QuizProvider.CurrentQuiz | context/QuizContext.tsx:380-382 | the quiz with the current id, else the first; missing only for an empty catalogue |
| QuizContext.QuizProvider.CurrentQuestion | context/QuizContext.tsx:399-404 | a question of the current quiz, present whenever that quiz has questions |
| QuizContext.QuizProvider.StartQuiz | context/QuizContext.tsx:502-524 | fails without a state change for an unknown id; otherwise a fresh session opens on that quiz with no responses |
| QuizContext.QuizProvider.GoToNextQuestion | context/QuizContext.tsx:526-528 | the index moves to `NextIndex` |
| QuizContext.QuizProvider.RecordQuestionDuration | context/QuizContext.tsx:427-432 | a non-negative duration is stored under the question id; a negative one is ignored |
| QuizContext.QuizProvider.FillDurationsLoop | context/QuizContext.tsx:442-448 | the `forEach` computes `FillDurations` |
| QuizContext.QuizProvider.BuildAttempt | context/QuizContext.tsx:436-484 | the attempt record, with the durations filled in by the loop |
| QuizContext.QuizProvider.FinalizeAttempt | context/QuizContext.tsx:434-500 | the session closes, the attempt heads the history, and the completion is recorded for the signed-in user |
| QuizContext.QuizProvider.CloseSession | context/QuizContext.tsx:436-493 | the provider's own part of that |
| QuizContext.QuizProvider.SubmitAnswer | context/QuizContext.tsx:530-593 | an unknown quiz or question changes nothing; otherwise the graded response is stored, and the quiz is finalised once complete |
| QuizContext.QuizProvider.RecordAnswer | context/QuizContext.tsx:574-588 | the state becomes `Submitted`; the user store records the completion, scored with the final answer included, exactly for the completing answer |
| QuizContext.QuizProvider.AnswerAndStartClock | context/QuizContext.tsx:578-588 | the response is stored and a missing session start is set |
| QuizContext.QuizProvider.StoreResponse | context/QuizContext.tsx:578-584 | the `setResponses` updater, finalising a complete quiz |
| QuizContext.QuizProvider.ResetQuiz | context/QuizContext.tsx:595-608 | the session is cleared: no responses, no session, nothing ongoing, score 0 |
| QuizContext.QuizProvider.SyncQuestionOrder | context/QuizContext.tsx:390-397 | the order is resynchronised with the current quiz's question ids |
| QuizContext.QuizProvider.AddMissingLoop | context/QuizContext.tsx:287-292 | the first `forEach` computes `AddMissing`, and reports no change only when nothing changed |
| QuizContext.QuizProvider.DropStaleLoop | context/QuizContext.tsx:294-299 | the second `forEach` computes `DropStale` over the copy's keys |
| QuizContext.QuizProvider.ReconcileShareSettings | context/QuizContext.tsx:281-303 | the settings become `Reconciled` for the catalogue ids |
| QuizContext.QuizProvider.SetQuizVisibility | context/QuizContext.tsx:610-619 | the settings become `WithVisibility` |
| QuizContext.QuizProvider.GetShareLink | context/QuizContext.tsx:621-636 | a link exists exactly for a public quiz; a missing token is created first |
| QuizContext.QuizProvider.CreateQuiz | context/QuizContext.tsx:638-660 | the new quiz heads the custom list and is recorded as created by the user |
| QuizContext.QuizProvider.UpdateQuiz | context/QuizContext.tsx:662-680 | the custom list becomes `PatchAll`, and the result is the patched last match |
| QuizContext.QuizProvider.DeleteQuiz | context/QuizContext.tsx:682-684 | the custom list loses the quizzes with the id |
| QuizContext.QuizProvider.DuplicateQuiz | context/QuizContext.tsx:686-706 | an unknown id changes nothing; otherwise the copy heads the custom list |
| UserContext.NormalizeEmail | context/UserContext.tsx:65-67 | the address is empty exactly when the input is blank, and has no upper-case letter |
| UserContext.NormalizeEmailIdempotent | context/UserContext.tsx:65-67 | normalising twice is normalising once |
| UserContext.CapitalizedSegments | context/UserContext.tsx:72-76 | only non-empty segments survive, and no separator enters them |
| UserContext.Capitalize | context/UserContext.tsx:75 | the first character is upper-cased and the rest kept, so only letter case changes |
| UserContext.DeriveNameFromEmail | context/UserContext.tsx:69-77 | an address with an empty local part gives "Explorateur" |
| UserContext.DeriveNameWords | context/UserContext.tsx:69-77 | the derived name splits at its spaces into the capitalised segments of the local part |
| UserContext.PickAvatarColor | context/UserContext.tsx:79-81 | a palette color, chosen by index modulo 5 |
| UserContext.PickAvatarColorPeriodic | context/UserContext.tsx:79-81 | the palette repeats every five users |
| UserContext.ToggleLikeState | context/UserContext.tsx:203-224 | without a current user nothing changes; otherwise only the current user's liked list toggles the id |
| UserContext.ToggleFollowState | context/UserContext.tsx:233-252 | the same for the followed creators |
| UserContext.ToggleLikeTwice | context/UserContext.tsx:197-225 | liking an unliked quiz twice restores the user |
| UserContext.FindHistoryIndex | context/UserContext.tsx:263 | the first index of an entry for the quiz, or -1 when there is none |
| UserContext.UpsertHistory | context/UserContext.tsx:263-270 | the entry is in the history, which grows by at most one |
| UserContext.UpsertHistoryKeepsOnePerQuiz | context/UserContext.tsx:263-270 | one entry per quiz stays so; an existing entry is replaced where it stands, a new one goes in front |
| UserContext.RecordCompletionState | context/UserContext.tsx:258-282 | without a current user nothing changes; otherwise only the user's history is updated |
| UserContext.RecordCreatedState | context/UserContext.tsx:288-306 | an already recorded id changes nothing; a new id is appended to the user's created list |
| UserContext.RecordCreatedIdempotent | context/UserContext.tsx:285-307 | recording twice is recording once, and no id is ever listed twice |
| UserContext.FindByEmail | context/UserContext.tsx:128 | the first user with the address, or none exactly when nobody has it |
| UserContext.FindByProvider | context/UserContext.tsx:164 | the first user with the provider, or none exactly when nobody has it |
| UserContext.SignInEmailState | context/UserContext.tsx:127-154 | an existing user is signed in again; otherwise a new user with the fresh id, the trimmed name (or one derived from the address), this address and empty lists is appended and signed in |
| UserContext.SignInProviderState | context/UserContext.tsx:163-189 | the same for a provider, with its fallback address and name |
| UserContext.UserStore.constructor | context/UserContext.tsx:84-86 | nobody signed in, no users, dialog closed |
| UserContext.UserStore.User | context/UserContext.tsx:118-121 | the signed-in user exists exactly when the id is truthy and present |
| UserContext.UserStore.SignInWithEmail | context/UserContext.tsx:123-156 | a blank address changes nothing; otherwise the state is `SignInEmailState` and the dialog closes |
| UserContext.UserStore.SignInWithProvider | context/UserContext.tsx:158-191 | the state is `SignInProviderState` and the dialog closes |
| UserContext.UserStore.OpenAuthDialog | context/UserContext.tsx:309 | the dialog opens and nothing else changes |
| UserContext.UserStore.CloseAuthDialog | context/UserContext.tsx:310 | the dialog closes and nothing else changes |
| UserContext.UserStore.SignOut | context/UserContext.tsx:193-195 | only the current user id is cleared |
| UserContext.UserStore.ToggleLikeQuiz | context/UserContext.tsx:197-225 | signed out, the dialog opens; signed in, the state is `ToggleLikeState` |
| UserContext.UserStore.ToggleFollowCreator | context/UserContext.tsx:227-253 | signed out, the dialog opens; signed in, the state is `ToggleFollowState` |
| UserContext.UserStore.RecordQuizCompletion | context/UserContext.tsx:255-283 | the state is `AfterCompletion`, and no key repeats |
| UserContext.UserStore.RecordQuizCreated | context/UserContext.tsx:285-307 | the state is `AfterCreated`, and no key repeats |
| QuizBuilder.BlankPair | components/studio/QuizBuilderForm.tsx:622 | two blank options with exactly one correct, the first |
| QuizBuilder.AdaptOptionsForType | components/studio/QuizBuilderForm.tsx:644-661 | true/false gets "Vrai" (correct) and "Faux"; open gets none; choice types keep their options, or get a blank pair when they have none |
| QuizBuilder.AdaptOptionsShape | components/studio/QuizBuilderForm.tsx:644-661 | only "open" has no options; adapting never adds a second correct option; true/false has exactly one |
| QuizBuilder.ApplyOptionUpdate | components/studio/QuizBuilderForm.tsx:107-111 | an option update sets the text and the flag it carries, keeps the others, the id and the media |
| QuizBuilder.UpdateOptionsEffect | components/studio/QuizBuilderForm.tsx:106-113 | option ids stay, and stay distinct; an edit of an absent id changes nothing; repeating an edit changes nothing more |
| QuizBuilder.WithoutOption | components/studio/QuizBuilderForm.tsx:123 | the filter keeps exactly the options with another id |
| QuizBuilder.DeleteOption | components/studio/QuizBuilderForm.tsx:123-126 | the list is never empty: the filtered options, or a blank pair |
| QuizBuilder.DeleteOptionKeepsSingleAnswer | components/studio/QuizBuilderForm.tsx:119-130 | deleting never creates a second correct option |
| QuizBuilder.DeleteLastOption | components/studio/QuizBuilderForm.tsx:123-126 | deleting the only option gives a blank pair |
| QuizBuilder.FlipOption | components/studio/QuizBuilderForm.tsx:136-142 | on a "multiple" question only the clicked option's flag flips |
| QuizBuilder.MarkOnly | components/studio/QuizBuilderForm.tsx:145-151 | otherwise exactly the clicked option is correct |
| QuizBuilder.FlipOptionTwice | components/studio/QuizBuilderForm.tsx:136-142 | flipping twice restores the options |
| QuizBuilder.MarkOnlyCount | components/studio/QuizBuilderForm.tsx:145-151 | with distinct ids, one correct option if the id is present, none otherwise |
| QuizBuilder.MarkOnlyRepeatedIds | components/studio/QuizBuilderForm.tsx:145-151 | with repeated ids two options can end up correct |
| QuizBuilder.ApplyMediaUpdate | components/studio/QuizBuilderForm.tsx:176-180 | a media update sets the kind, the address and the caption it carries and keeps the others and the id |
| QuizBuilder.UpdateMediaListEffect | components/studio/QuizBuilderForm.tsx:175-182 | resource ids stay; an edit of an absent id changes nothing; repeating an edit changes nothing more |
| QuizBuilder.WithoutMedia | components/studio/QuizBuilderForm.tsx:194 | the filter keeps exactly the resources with another id |
| QuizBuilder.UpdatedQuestion | components/studio/QuizBuilderForm.tsx:64-75 | a type change re-adapts the options, otherwise the options sent, or the old ones; prompt, explanation, points, time limit and answer are those sent, else the old ones |
| QuizBuilder.UpdatedQuestionEmpty | components/studio/QuizBuilderForm.tsx:62-78 | an update that carries no field leaves the question as it was |
| QuizBuilder.ApplyEdit | components/studio/QuizBuilderForm.tsx:62-198 | what each handler does to its target question |
| QuizBuilder.ApplyEditKeepsSingleAnswer | components/studio/QuizBuilderForm.tsx:88-154 | option edits keep a non-"multiple" question at one correct option at most; toggling leaves exactly one |
| QuizBuilder.SwitchToSingleKeepsFlags | components/studio/QuizBuilderForm.tsx:66-68 | switching a "multiple" question with two correct options to "single" keeps both |
| QuizBuilder.EditMatching | components/studio/QuizBuilderForm.tsx:63-65 | the edit applies exactly to the questions with the id, and the ids stay |
| QuizBuilder.EditAbsent | components/studio/QuizBuilderForm.tsx:63-65 | editing an absent question changes nothing |
| QuizBuilder.WithoutQuestion | components/studio/QuizBuilderForm.tsx:85 | the filter keeps exactly the questions with another id |
| QuizBuilder.WithoutQuestionDistinct | components/studio/QuizBuilderForm.tsx:85 | with distinct ids at most one question goes, and ids stay distinct |
| QuizBuilder.NoMatchKeepsAll | components/studio/QuizBuilderForm.tsx:85 | deleting an absent question keeps the list |
| QuizBuilder.WithoutQuestionRepeatedIds | components/studio/QuizBuilderForm.tsx:80-86 | two questions sharing an id are both deleted, emptying a two-question quiz |
| QuizBuilder.BlankIff | components/studio/QuizBuilderForm.tsx:671 | a text is blank exactly when its trimmed form is empty |
| QuizBuilder.BlankTrim | components/studio/QuizBuilderForm.tsx:671 | trimming keeps blankness |
| QuizBuilder.QuestionError | components/studio/QuizBuilderForm.tsx:683-708 | a question error is one of the five question-level messages |
| QuizBuilder.QuestionErrorNoneIff | components/studio/QuizBuilderForm.tsx:683-708 | a question passes exactly when it meets every demand |
| QuizBuilder.FirstQuestionErrorNone | components/studio/QuizBuilderForm.tsx:683-708 | the loop passes exactly when every question does |
| QuizBuilder.ValidationNoneIff | components/studio/QuizBuilderForm.tsx:670-711 | `null` exactly when the quiz meets every demand |
| QuizBuilder.FirstQuestionErrorIsFirst | components/studio/QuizBuilderForm.tsx:683-708 | the error reported is that of the first failing question |
| QuizBuilder.FirstQuestionErrorNotQuizLevel | components/studio/QuizBuilderForm.tsx:683-708 | the loop never reports a quiz-level error |
| QuizBuilder.ValidationOrder | components/studio/QuizBuilderForm.tsx:670-711 | each error appears exactly when all earlier checks pass |
| QuizBuilder.ValidateQuiz | components/studio/QuizBuilderForm.tsx:670-711 | the loop returns `Validation` |
| QuizBuilder.NonBlankOr | components/studio/QuizBuilderForm.tsx:215-222 | `trim() || undefined`: absent exactly for a blank text, else the trimmed text |
| QuizBuilder.TrimOptionTextsIdempotent | components/studio/QuizBuilderForm.tsx:228-231 | trimming option texts twice is trimming once |
| QuizBuilder.NormalizeMediaIdempotent | components/studio/QuizBuilderForm.tsx:233-237 | normalising a resource twice is normalising once |
| QuizBuilder.NormalizeMediaListIdempotent | components/studio/QuizBuilderForm.tsx:233-237 | normalising the resources twice is normalising once |
| QuizBuilder.NormalizeQuestion | components/studio/QuizBuilderForm.tsx:223-238 | an open question loses its options and keeps its trimmed answer; a choice question loses its answer and trims its option texts |
| QuizBuilder.NormalizeQuestionIdempotent | components/studio/QuizBuilderForm.tsx:223-238 | normalising twice is normalising once |
| QuizBuilder.NormalizeQuestionError | components/studio/QuizBuilderForm.tsx:223-238 | a question passes or fails the same way after normalisation |
| QuizBuilder.NormalizeOptionChecks | components/studio/QuizBuilderForm.tsx:699-707 | trimmed option texts keep the option checks' verdicts |
| QuizBuilder.NormalizeQuestionsEffect | components/studio/QuizBuilderForm.tsx:223-238 | the questions keep their ids and order, and normalising again changes nothing |
| QuizBuilder.NormalizeFirstError | components/studio/QuizBuilderForm.tsx:223-238 | normalisation keeps the first question error |
| QuizBuilder.DraftValidation | components/studio/QuizBuilderForm.tsx:203-239 | the submitted definition passes validation exactly when the form did |
| QuizBuilder.QuizBuilderForm.constructor | components/studio/QuizBuilderForm.tsx:38-52 | the form opens on the quiz to edit, every field taken from it with a missing text as "" (the tags joined by ", "), or empty, with no difficulty, level or duration and one blank question |
| QuizBuilder.QuizBuilderForm.AddQuestion | components/studio/QuizBuilderForm.tsx:58-60 | a blank question is appended, adding one point |
| QuizBuilder.QuizBuilderForm.EditQuestion | components/studio/QuizBuilderForm.tsx:62-198 | the questions become `EditMatching` |
| QuizBuilder.QuizBuilderForm.UpdateQuestion | components/studio/QuizBuilderForm.tsx:62-78 | the same for `handleUpdateQuestion` |
| QuizBuilder.QuizBuilderForm.DeleteQuestion | components/studio/QuizBuilderForm.tsx:80-86 | refused with an error on the last question; otherwise the filter, keeping at least one question when ids are distinct |
| QuizBuilder.QuizBuilderForm.AddOption | components/studio/QuizBuilderForm.tsx:88-98 | the same for `handleAddOption` |
| QuizBuilder.QuizBuilderForm.UpdateOption | components/studio/QuizBuilderForm.tsx:100-117 | the same for `handleUpdateOption` |
| QuizBuilder.QuizBuilderForm.DeleteOption | components/studio/QuizBuilderForm.tsx:119-130 | the same for `handleDeleteOption` |
| QuizBuilder.QuizBuilderForm.ToggleCorrectOption | components/studio/QuizBuilderForm.tsx:132-154 | the same for `handleToggleCorrectOption` |
| QuizBuilder.QuizBuilderForm.AddMedia | components/studio/QuizBuilderForm.tsx:156-167 | the same for `handleAddMedia` |
| QuizBuilder.QuizBuilderForm.UpdateMedia | components/studio/QuizBuilderForm.tsx:169-186 | the same for `handleUpdateMedia` |
| QuizBuilder.QuizBuilderForm.DeleteMedia | components/studio/QuizBuilderForm.tsx:188-198 | the same for `handleDeleteMedia` |
| QuizBuilder.QuizBuilderForm.Submit | components/studio/QuizBuilderForm.tsx:200-243 | a failing check shows its message and submits nothing; otherwise the normalised draft is submitted |
| Analytics.AttemptsForConcat | components/AnalyticsDashboard.tsx:9-12 | the attempts keep history order |
| Analytics.IncorrectCountOf | components/AnalyticsDashboard.tsx:38 | never more misses than attempts; one attempt counts exactly when it lists the question as incorrect |
| Analytics.CorrectCountOf | components/AnalyticsDashboard.tsx:39 | never more correct answers than attempts; one attempt counts exactly when it lists the question as correct |
| Analytics.IncorrectCountOfZero | components/AnalyticsDashboard.tsx:38 | no misses exactly when no attempt lists the question as incorrect |
| Analytics.IncorrectCountOfAll | components/AnalyticsDashboard.tsx:38 | all misses exactly when every attempt lists it |
| Analytics.CorrectCountOfZero | components/AnalyticsDashboard.tsx:39 | no correct answers exactly when no attempt lists the question as correct |
| Analytics.CorrectCountOfAll | components/AnalyticsDashboard.tsx:39 | all correct exactly when every attempt lists it |
| Analytics.CountsConcat | components/AnalyticsDashboard.tsx:38-39 | the counts add up over runs of attempts |
| Analytics.AccuracyRange | components/AnalyticsDashboard.tsx:40-41 | a percentage: 0 exactly without correct answers, 100 exactly with correct answers only |
| Analytics.AccuracyMonotone | components/AnalyticsDashboard.tsx:40-41 | more misses never raise the accuracy |
| Analytics.AverageTime | components/AnalyticsDashboard.tsx:42-45 | the mean recorded time over the attempts, 0 without attempts |
| Analytics.QuestionStatsShape | components/AnalyticsDashboard.tsx:37-54 | each entry's id and prompt are its question's, its counts and accuracy in range |
| Analytics.Missed | components/AnalyticsDashboard.tsx:57 | exactly the stats with misses |
| Analytics.LowerAccuracyOrder | components/AnalyticsDashboard.tsx:58 | the comparator is a consistent order |
| Analytics.MostMissedShape | components/AnalyticsDashboard.tsx:56-59 | at most three missed questions, ascending accuracy, three whenever three were missed |
| Analytics.MostMissedAreLowest | components/AnalyticsDashboard.tsx:56-59 | no missed question left out has a lower accuracy than one shown |
| Analytics.TruncateFits | components/AnalyticsDashboard.tsx:320-323 | a text that fits is kept; a longer one is cut to exactly the limit, ending with an ellipsis |
| Analytics.TruncatePrefix | components/AnalyticsDashboard.tsx:320-323 | for any limit, the text or a prefix of it followed by an ellipsis |
| CsvExport.ParsePlain | components/AnalyticsDashboard.tsx:294-300 | the reader of a non-escaped field stops at a comma or the end |
| CsvExport.ParseQuoted | components/AnalyticsDashboard.tsx:294-300 | the reader of an escaped field stops after its closing quote, at a comma or the end |
| CsvExport.ParseField | components/AnalyticsDashboard.tsx:294-300 | the field reader stops at a comma or the end |
| CsvExport.ParseRecord | components/AnalyticsDashboard.tsx:86 | a record read back has at least one field |
| CsvExport.PlainRoundTrip | components/AnalyticsDashboard.tsx:294-300 | a value left unquoted reads back as itself |
| CsvExport.QuotedRoundTrip | components/AnalyticsDashboard.tsx:294-300 | doubled quotes and the closing quote read back as the value |
| CsvExport.QuotedFieldRoundTrip | components/AnalyticsDashboard.tsx:294-300 | a value with a comma or a quote reads back as itself |
| CsvExport.PlainFieldRoundTrip | components/AnalyticsDashboard.tsx:294-300 | a value without comma, quote or line break reads back as itself |
| CsvExport.FieldRoundTrip | components/AnalyticsDashboard.tsx:294-300 | an escaped cell reads back as the cell (rules 6 and 7 of section 2 of RFC 4180) |
| CsvExport.RecordRoundTrip | components/AnalyticsDashboard.tsx:86 | an exported line reads back as its cells |
| CsvExport.NoBreakInRow | components/AnalyticsDashboard.tsx:86 | cells without line breaks give a line without line breaks |
| CsvExport.NoBreakInValue | components/AnalyticsDashboard.tsx:294-300 | escaping adds no line break |
| CsvExport.DocumentRoundTrip | components/AnalyticsDashboard.tsx:86 | the export reads back row by row when no cell holds a line break |
| CsvExport.LineBreakSplitsRecord | components/AnalyticsDashboard.tsx:294-300 | a cell with a line break but no comma or quote is left unquoted and reads back as two records |
| PdfExport.Utf8Concat | components/AnalyticsDashboard.tsx:326 | the UTF-8 bytes of a concatenation are the concatenated bytes |
| PdfExport.Utf8Char | components/AnalyticsDashboard.tsx:326 | a character takes one to four bytes, one exactly for ASCII |
| PdfExport.AsciiLength | components/AnalyticsDashboard.tsx:344 | an ASCII text takes one byte per character |
| PdfExport.EscapeInOrder | components/AnalyticsDashboard.tsx:373-375 | the three passes equal a character-wise escape, since backslashes go first |
| PdfExport.EscapePdfTextEscaped | components/AnalyticsDashboard.tsx:373-375 | every `(`, `)` and `\` comes out behind a backslash |
| PdfExport.EscapeRoundTrip | components/AnalyticsDashboard.tsx:373-375 | a reader of literal strings (ISO 32000-1, section 7.3.4.2) gets a text without carriage returns back |
| PdfExport.CarriageReturnReadsAsLineFeed | components/AnalyticsDashboard.tsx:373-375 | a carriage return reads back as a line feed |
| PdfExport.PdfObjects | components/AnalyticsDashboard.tsx:346-352 | five objects: catalog, page tree, page, content stream, font |
| PdfExport.CreatePdfDocument | components/AnalyticsDashboard.tsx:325-371 | the method computes the bytes of the file |
| PdfExport.WriteFile | components/AnalyticsDashboard.tsx:328-370 | the objects after the header, then the cross-reference section |
| PdfExport.WriteObjects | components/AnalyticsDashboard.tsx:354-359 | the loop writes the objects after the header and records where each starts |
| PdfExport.WriteXref | components/AnalyticsDashboard.tsx:361-367 | the loop writes one table entry per recorded offset, then the trailer |
| PdfExport.OffsetsGrow | components/AnalyticsDashboard.tsx:354-359 | later objects start later |
| PdfExport.ObjectAtOffset | components/AnalyticsDashboard.tsx:354-359 | each recorded offset is the byte position of its object's `obj` line |
| PdfExport.XrefEntryShape | components/AnalyticsDashboard.tsx:365 | a table entry is 20 bytes whose first 10 digits read back as the offset |
| PdfExport.XrefTable | components/AnalyticsDashboard.tsx:362-366 | the table holds the free entry and one 20-byte entry per object, in order |
| PdfExport.StartXrefAtXref | components/AnalyticsDashboard.tsx:361-367 | `startxref` gives the byte position of the `xref` keyword |
| PdfExport.StreamLength | components/AnalyticsDashboard.tsx:344-350 | `/Length` bytes after the `stream` line are exactly the content stream |
| PdfExport.StreamEnd | components/AnalyticsDashboard.tsx:350 | `endstream` follows those bytes |
| LiveSession.FindSessionQuiz | app/participate/session/page.tsx:22-23 | the first quiz with the `quiz` parameter's id; none without the parameter |
| LiveSession.AnswerPointsRange | app/participate/session/page.tsx:64 | points exactly for a correct manual answer, between 100 and 160 |
| LiveSession.AnswerPointsFaster | app/participate/session/page.tsx:64 | more time left never earns fewer points |
| LiveSession.SelectionCorrectIff | app/participate/session/page.tsx:59-62 | a selection is correct exactly when it holds the correct ids, counting repeats, in any order |
| LiveSession.ScoreAnswerEffect | app/participate/session/page.tsx:71-82 | only "you" changes: score plus the points, streak one more or reset |
| LiveSession.ScoreAnswerKeepsRows | app/participate/session/page.tsx:71-82 | participants and the "you" flags stay |
| LiveSession.HigherScoreOrder | app/participate/session/page.tsx:218 | the comparator is a consistent order |
| LiveSession.PodiumShape | app/participate/session/page.tsx:218 | three entries at most, by descending score |
| LiveSession.PodiumHighest | app/participate/session/page.tsx:218 | nobody left off the podium scored more than someone on it |
| LiveSession.FormatSecondsValue | app/participate/session/page.tsx:15-17 | the padded text is digits that read back as the seconds |
| LiveSession.FormatSeconds | app/participate/session/page.tsx:15-17 | at least two characters |
| LiveSession.ParticipantSession.CurrentQuestion | app/participate/session/page.tsx:33 | present exactly for a valid index of a known quiz |
| LiveSession.ParticipantSession.constructor | app/participate/session/page.tsx:25-51 | the initial state, which the reset effect restores |
| LiveSession.ParticipantSession.FinalizeAnswer | app/participate/session/page.tsx:53-85 | no question, no change; otherwise the sorted selection, the feedback and the points are stored, the page locked and "you" scored |
| LiveSession.ParticipantSession.Tick | app/participate/session/page.tsx:108-118 | while a question is open the clock goes down by one |
| LiveSession.ParticipantSession.CheckTimeout | app/participate/session/page.tsx:144-150 | at zero the answer is finalised as a time-out when a question is shown; otherwise nothing changes |
| LiveSession.ParticipantSession.CheckQuestion | app/participate/session/page.tsx:98-106 | past the last question the results show |
| LiveSession.ParticipantSession.HandleOptionToggle | app/participate/session/page.tsx:152-168 | locked or without a question, nothing; "multiple" toggles the id; others finalise at once |
| LiveSession.ParticipantSession.HandleSubmitMultiple | app/participate/session/page.tsx:170-176 | an open "multiple" question finalises the selection |
| LiveSession.ParticipantSession.HandleNextStep | app/participate/session/page.tsx:178-197 | after the last question the results show; otherwise the next question opens fresh |
| JoinForm.NormalizeCode | components/ParticipantJoinForm.tsx:26 | the normalised code has no white space |
| JoinForm.LowerNoSpace | components/ParticipantJoinForm.tsx:26 | lower-casing brings in no white space |
| JoinForm.RemoveSpacesEmpty | components/ParticipantJoinForm.tsx:26 | removing white space leaves nothing exactly for an all-space text |
| JoinForm.RemoveSpacesConcat | components/ParticipantJoinForm.tsx:26 | white space is removed piece by piece |
| JoinForm.RemoveSpacesLower | components/ParticipantJoinForm.tsx:26 | removing white space and lower-casing commute |
| JoinForm.NormalizeCodeBlank | components/ParticipantJoinForm.tsx:26 | a code normalises to nothing exactly when it is blank |
| JoinForm.NormalizeCodeIgnores | components/ParticipantJoinForm.tsx:26 | white space anywhere and letter case do not matter |
| JoinForm.FindJoin | components/ParticipantJoinForm.tsx:29-35 | no match exactly when no quiz matches; otherwise the first match |
| JoinForm.FindJoinAt | components/ParticipantJoinForm.tsx:29-35 | the first matching quiz is the one found |
| JoinForm.BlankNeverJoins | components/ParticipantJoinForm.tsx:26-35 | a blank code and a blank link join nothing |
| JoinForm.OwnCodeJoins | components/ParticipantJoinForm.tsx:30 | a quiz's own code finds it when no earlier quiz matches |
| JoinForm.NormalizeDigits | components/ParticipantJoinForm.tsx:26 | a code of digits is its own normal form |
| JoinForm.LowerDigits | components/ParticipantJoinForm.tsx:26 | lower-casing keeps a string of digits |
| JoinForm.CodeJoinsAt | components/ParticipantJoinForm.tsx:29-35 | a code that only this quiz and no earlier one has joins this quiz |
| JoinForm.BuiltInHeaders | data/quizzes.ts:803-846 | the built-in ids, PIN codes and links |
| JoinForm.DistinctCodesJoin | components/ParticipantJoinForm.tsx:26-35 | with distinct digit codes each quiz is joined by its own code |
| JoinForm.BuiltInCodes | data/quizzes.ts:815-843 | the built-in PIN codes are distinct digit codes |
| JoinForm.JoinRoute | components/ParticipantJoinForm.tsx:42 | the route is the session page's |
| JoinForm.JoinRouteReadBack | components/ParticipantJoinForm.tsx:42 | the session page reads the id back from the route |
| JoinForm.Form.constructor | components/ParticipantJoinForm.tsx:9-13 | empty fields, no error |
| JoinForm.Form.HandleSubmit | components/ParticipantJoinForm.tsx:22-43 | no match gives the "not found" message and no route; a match gives its session route |
| JoinForm.JoinOpensSession | components/ParticipantJoinForm.tsx:42 | with distinct ids the session page opens the very quiz matched |
| QuestionCard.FormatTimeShort | components/QuestionCard.tsx:17-24 | under a minute: the seconds and `s` |
| QuestionCard.FormatTimeLong | components/QuestionCard.tsx:17-24 | from a minute: minutes, `m `, two-digit seconds, `s` |
| QuestionCard.ReadTimeShort | components/QuestionCard.tsx:17-24 | digits followed by `s` read back as their number |
| QuestionCard.ReadTimeLong | components/QuestionCard.tsx:17-24 | minutes, `m `, two digits and `s` read back as minutes and seconds |
| QuestionCard.FormatTimeReadBack | components/QuestionCard.tsx:17-24 | every non-negative time reads back as itself |
| QuestionCard.GetFeedback | components/QuestionCard.tsx:289-294 | a timed-out response reads as time up |
| QuestionCard.GetFeedbackTellsApart | components/QuestionCard.tsx:289-294 | each of the three messages appears exactly in its own case |
| QuestionCard.ChoiceOptions | components/QuestionCard.tsx:105-110 | the options shown are those graded against |
| QuestionCard.ChoiceOptionsFallback | components/QuestionCard.tsx:12-15 | an option-less true/false question shows "true" and "false", only "true" correct |
| QuestionCard.Card.constructor | components/QuestionCard.tsx:36-42 | the state after the reset effect, from the stored response |
| QuestionCard.Card.ElapsedSeconds | components/QuestionCard.tsx:46-54 | never negative; the countdown's used time for a question with a limit |
| QuestionCard.Card.HandleSelection | components/QuestionCard.tsx:112-121 | a single-choice click replaces the selection, otherwise the id toggles |
| QuestionCard.Card.SubmitPayload | components/QuestionCard.tsx:123-141 | nothing for a blank open answer or an empty selection, else the answer with the elapsed time |
| QuestionCard.Card.HandleSubmit | components/QuestionCard.tsx:123-141 | the payload is sent, and a returned response's feedback shown |
| QuestionCard.Card.TimeoutPayload | components/QuestionCard.tsx:59-64 | the answer so far, marked as timed out |
| QuestionCard.Card.HandleTimeExpired | components/QuestionCard.tsx:56-68 | unless answered, the answer so far is sent as timed out, and time up shown |
| QuestionCard.Card.StartTimer | components/QuestionCard.tsx:78-85 | with a limit and no stored answer the countdown restarts |
| QuestionCard.Card.HandleNext | components/QuestionCard.tsx:143-156 | on the last question only the end is reported; otherwise the answer and feedback clear |
| QuestionCard.Card.Tick | components/QuestionCard.tsx:86-96 | the countdown goes down by one and times out from 1 |
| Studio.FilterQuizzes | app/studio/page.tsx:30-40 | exactly the quizzes passing all three filters |
| Studio.FilterConcat | app/studio/page.tsx:30-40 | catalogue order is kept |
| Studio.FilterDefaults | app/studio/page.tsx:30-40 | an empty search with both menus on "all" shows everything |
| Studio.FilterIdempotent | app/studio/page.tsx:30-40 | filtering twice is filtering once |
| Studio.CategoryFilter | app/studio/page.tsx:35 | a category other than "all" shows exactly that category |
| Studio.SearchFindsTitle | app/studio/page.tsx:32-34 | a title containing the term, ignoring case, is found |
| Studio.SearchFindsTag | app/studio/page.tsx:32-34 | a tag equal to the term, ignoring case, is found |
| Studio.TagFilter | app/studio/page.tsx:36-37 | a tag other than "all" shows the quizzes that carry it, in any case |
| Studio.Distinct | app/studio/page.tsx:16-28 | each element once |
| Studio.AllTags | app/studio/page.tsx:16-20 | exactly the tags some custom quiz carries |
| Studio.AllCategories | app/studio/page.tsx:22-28 | exactly the non-empty categories |
| Studio.SortedDistinct | app/studio/page.tsx:16-28 | sorting a list without repeats gives a strictly ascending list of the same strings |
| Studio.StudioTagsSpec | app/studio/page.tsx:16-20 | the tag menu lists each tag once, ascending |
| Studio.StudioCategoriesSpec | app/studio/page.tsx:22-28 | the category menu lists each non-empty category once, ascending |

## Left out

- Persistence: `localStorage` reads and writes (the hydration effects) are not modelled. The state starts empty.
- React scheduling: effects run when a method calls them, not on re-render. The stale-closure values `finalizeAttempt` sees are passed in explicitly.
- QuestionCard.Card.Tick and QuestionCard.Card.StartTimer: a tick is modelled as one step of the countdown. The re-runs of the timer effect are not modelled. In the component (components/QuestionCard.tsx:46-99), each tick changes `remainingTime`. That rebuilds `computeElapsedSeconds` and then `handleTimeExpired`, so the timer effect runs again and resets the countdown to the full limit. Read this way, a limit of 2 or more would swing between the limit and one below it and never expire, and `timeTakenSeconds` would be 0 or 1. This reading comes from the text only.
- QuizContext.Submitted: the completing attempt is scored over every stored response, the final answer included (the corrected behaviour; the stale score is QuizContext.SubmittedAsWritten, see "## Findings"). Its per-question durations are still those of the render before the answer, as in the source.
- Timers: `setInterval` and `setTimeout` are not modelled. One tick is a method call.
- Randomness: the opponents' random score gains on the live session page are not modelled. Fresh ids and tokens are parameters, and not proved unique.
- The clock is an integer parameter. ISO date strings and `toLocaleString` are not modelled.
- Floating point:
  - accuracy, averages and `sessionDurationSeconds` are exact reals or are left out of the attempt record;
  - `toFixed` and `Math.round` of non-integers are not modelled;
  - so `formatSeconds` and the PDF's summary lines are not modelled.
  - a question's `points` and `timeLimit` are integers; the editor stores `Number(event.target.value)` (components/studio/QuizBuilderForm.tsx:428, 438), which can be fractional or `NaN`, and those values are not modelled.
- Strings:
  - `toLowerCase` is modelled on ASCII letters only, and `localeCompare` and the default sort as code-point order;
  - strings are sequences of code points, not UTF-16 units, and non-ASCII case mapping is not modelled;
  - `\s` is the white-space set of `trim`.
- Object key order: JavaScript orders integer-like keys first. The model keeps insertion order for every key.
- Downloads: the `Blob`, the byte-order mark and `downloadFile` are not modelled. The Excel export (an HTML table) is not modelled.
- The JSX rendering of every component is not modelled.
- CsvExport.CsvValue: a cell holding a line break is not quoted (see LineBreakSplitsRecord). The round trip is stated for cells without line breaks.
- PdfExport.EscapeRoundTrip: a carriage return reads back as a line feed (see CarriageReturnReadsAsLineFeed). The round trip is stated for text without carriage returns. Octal escapes are not read.
- JoinForm.JoinRoute: the id is placed in the route without URL encoding, as the source does; ids that need encoding are not modelled.
- A missing `accessCode` or `joinLink` reads as the empty string. Every built-in quiz has both.
- QuizContext.QuizProvider.GetShareLink: the origin is a parameter. `window.location` is not modelled.
- The provider's `averageQuestionTimeSeconds` (a real mean) is not modelled.
- The decorative pages and components that only render context values are not modelled.
- QuizData.QuizzesOver and QuizContext.StaticQuizzes: the provider is modelled over the intended question ids (the quiz id, a dash and the bank id), not over the colliding ids the escaped template produces; see "## Findings".
- QuizContext.QuizProvider.UpdateQuiz: `updateQuiz` returns the value its updater assigned; the model computes it at once, while React may run the updater later.

## Findings

| source | as written | input that shows it | evidently intended | confidence | as-written member | corrected member |
|---|---|---|---|---|---|---|
| data/quizzes.ts:760 | the id template's `$` signs are escaped, so every copied question gets the literal id `${prefix}-${question.id}` | any built-in quiz: all 8 questions of "fabric-foundations" share one id, so a look-up by id always returns the first question | the quiz id, a dash and the bank question's id | high, not executed | QuizData.AsWrittenLookupFindsFirst | QuizData.IntendedIdsDistinct |
| context/QuizContext.tsx:464-474 | `finalizeAttempt` is called from the `setResponses` updater with the score and durations of the render before the answer, so the attempt and `recordQuizCompletion` leave out the final answer's points | a one-question quiz answered correctly is recorded with score 0 | the score over every response, the final one included | high, not executed | QuizContext.SubmittedScoreIsStale | QuizContext.SubmittedScoreCounted |
| context/QuizContext.tsx:669-670 | the edit page (app/studio/[id]/edit/page.tsx, lines 25-32) saves a built-in quiz by duplicating it, then updates the copy with the form's object, whose `id` is the built-in quiz's own (components/studio/QuizBuilderForm.tsx:212), so `{ ...quiz, ...update }` renames the copy | editing "fabric-foundations" and saving: the copy is renamed "fabric-foundations" and the redirect to the fresh id finds no quiz | the copy keeps its fresh id and takes the form's content | medium, not executed | QuizContext.SaveCopyRenames | QuizContext.SaveCopyKeepsId |
