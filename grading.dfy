/**
 * How `submitAnswer` grades one answer (context/QuizContext.tsx): open answers are
 * compared after trimming and lower-casing, choice answers by comparing the sorted
 * selected ids with the sorted ids of the correct options.
 */
module Grading {
  import opened Wrappers
  import opened Strings
  import opened Sorting
  import opened QuizTypes

  /** What the question card sends; every field may be missing. */
  datatype AnswerPayload = AnswerPayload(
    selectedOptionIds: Option<seq<string>>,
    freeformText: Option<string>,
    timedOut: Option<bool>,
    timeTakenSeconds: Option<int>)

  /** The graded answer stored under the question's id. */
  datatype Response = Response(
    questionId: string,
    selectedOptionIds: seq<string>,
    correctOptionIds: seq<string>,
    freeformText: Option<string>,
    isCorrect: bool,
    earnedPoints: int,
    totalPoints: int,
    timedOut: Option<bool>,
    submittedAt: int)

  /** The options a true/false question without options of its own is graded against. */
  const TrueFalseFallback: seq<AnswerOption> :=
    [AnswerOption("true", "True", true, None), AnswerOption("false", "False", false, None)]

  /** `value.trim().toLocaleLowerCase()`. */
  function NormalizeText(s: string): (r: string)
    ensures |r| <= |s|
    ensures r == [] <==> Trim(s) == []
  {
    Lower(Trim(s))
  }

  /** Trimming before normalising changes nothing. */
  lemma NormalizeTrim(s: string)
    ensures NormalizeText(Trim(s)) == NormalizeText(s)
  {
    TrimIdempotent(s);
  }

  /** Normalising ignores case: texts equal up to case normalise alike. */
  lemma NormalizeIgnoresCase(a: string, b: string)
    requires Lower(a) == Lower(b)
    ensures NormalizeText(a) == NormalizeText(b)
  {
    TrimLower(a);
    TrimLower(b);
  }

  /** Normalising ignores white space around the text. */
  lemma NormalizeIgnoresSpace(w1: string, s: string, w2: string)
    requires AllSpace(w1) && AllSpace(w2)
    ensures NormalizeText(w1 + s + w2) == NormalizeText(s)
  {
    TrimPadded(w1, s, w2);
  }

  /** The options a choice question is graded against. */
  function GradingOptions(q: Question): (options: seq<AnswerOption>)
    ensures q.qtype == TrueFalse && q.options == [] ==> options == TrueFalseFallback
    ensures !(q.qtype == TrueFalse && q.options == []) ==> options == q.options
  {
    if q.qtype == TrueFalse && |q.options| == 0 then TrueFalseFallback else q.options
  }

  /** Element-wise equality of two lists of the same length. */
  predicate SameIds(a: seq<string>, b: seq<string>) {
    |a| == |b| && forall i :: 0 <= i < |a| ==> a[i] == b[i]
  }

  /** The response `submitAnswer` builds for `payload` on question `q` at time `now`. */
  function Grade(q: Question, questionId: string, payload: AnswerPayload, now: int): (r: Response)
    ensures r.questionId == questionId && r.submittedAt == now && r.timedOut == payload.timedOut
    ensures r.totalPoints == QuestionPoints(q)
    ensures r.earnedPoints == if r.isCorrect then QuestionPoints(q) else 0
    ensures q.qtype == Open ==> r.selectedOptionIds == [] && r.correctOptionIds == []
    ensures q.qtype == Open ==> r.freeformText == if payload.freeformText.Some? then Some(Trim(payload.freeformText.value)) else None
    ensures q.qtype != Open ==> r.freeformText == None
    ensures q.qtype != Open ==> multiset(r.selectedOptionIds) == multiset(payload.selectedOptionIds.GetOr([]))
    ensures q.qtype != Open ==> multiset(r.correctOptionIds) == multiset(CorrectIds(GradingOptions(q)))
  {
    if q.qtype == Open then
      var freeform := if payload.freeformText.Some? then Some(Trim(payload.freeformText.value)) else None;
      var expected := NormalizeText(q.answer.GetOr(""));
      var received := NormalizeText(freeform.GetOr(""));
      var ok := expected != "" && expected == received;
      Response(questionId, [], [], freeform, ok, if ok then QuestionPoints(q) else 0, QuestionPoints(q), payload.timedOut, now)
    else
      var correct := SortStrings(CorrectIds(GradingOptions(q)));
      var selected := SortStrings(payload.selectedOptionIds.GetOr([]));
      var ok := SameIds(selected, correct);
      Response(questionId, selected, correct, None, ok, if ok then QuestionPoints(q) else 0, QuestionPoints(q), payload.timedOut, now)
  }

  /**
   * An open answer is correct exactly when the expected answer, normalised, is not
   * empty and equals the received text, normalised.
   */
  lemma GradeOpenIff(q: Question, questionId: string, payload: AnswerPayload, now: int)
    requires q.qtype == Open
    ensures Grade(q, questionId, payload, now).isCorrect <==>
      NormalizeText(q.answer.GetOr("")) != "" &&
      NormalizeText(q.answer.GetOr("")) == NormalizeText(payload.freeformText.GetOr(""))
  {
    if payload.freeformText.Some? {
      NormalizeTrim(payload.freeformText.value);
    }
  }

  /** The id lists a choice response stores are in code-point order. */
  lemma GradeSortsIds(q: Question, questionId: string, payload: AnswerPayload, now: int)
    requires q.qtype != Open
    ensures SortedBy(Grade(q, questionId, payload, now).selectedOptionIds, StrLt)
    ensures SortedBy(Grade(q, questionId, payload, now).correctOptionIds, StrLt)
  {
    SortStringsSorted(payload.selectedOptionIds.GetOr([]));
    SortStringsSorted(CorrectIds(GradingOptions(q)));
  }

  /**
   * An open answer that matches the expected answer up to case and surrounding white space is
   * accepted, as long as the expected answer is not blank.
   */
  lemma GradeOpenAccepts(q: Question, questionId: string, payload: AnswerPayload, now: int, w1: string, s: string, w2: string)
    requires q.qtype == Open && q.answer.Some? && Trim(q.answer.value) != []
    requires payload.freeformText == Some(w1 + s + w2) && AllSpace(w1) && AllSpace(w2)
    requires Lower(s) == Lower(q.answer.value)
    ensures Grade(q, questionId, payload, now).isCorrect
  {
    GradeOpenIff(q, questionId, payload, now);
    NormalizeIgnoresSpace(w1, s, w2);
    NormalizeIgnoresCase(s, q.answer.value);
  }

  /** A choice answer is correct exactly when it selects the correct ids, counting repeats, in any order. */
  lemma GradeChoiceIff(q: Question, questionId: string, payload: AnswerPayload, now: int)
    requires q.qtype != Open
    ensures Grade(q, questionId, payload, now).isCorrect <==>
      multiset(payload.selectedOptionIds.GetOr([])) == multiset(CorrectIds(GradingOptions(q)))
  {
    var selected := SortStrings(payload.selectedOptionIds.GetOr([]));
    var correct := SortStrings(CorrectIds(GradingOptions(q)));
    assert SameIds(selected, correct) <==> selected == correct;
    SortStringsEqualIff(payload.selectedOptionIds.GetOr([]), CorrectIds(GradingOptions(q)));
  }

  /** A true/false question without options: only the selection `["true"]` is correct. */
  lemma GradeTrueFalseFallback(q: Question, questionId: string, payload: AnswerPayload, now: int)
    requires q.qtype == TrueFalse && q.options == []
    ensures Grade(q, questionId, payload, now).isCorrect <==> payload.selectedOptionIds.GetOr([]) == ["true"]
  {
    var s := payload.selectedOptionIds.GetOr([]);
    assert CorrectIds(TrueFalseFallback) == ["true"];
    GradeChoiceIff(q, questionId, payload, now);
    if multiset(s) == multiset{"true"} {
      assert |s| == 1 by {
        assert |multiset(s)| == |s|;
      }
      assert s[0] in multiset(s);
    }
  }
}
