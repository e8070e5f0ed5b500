/**
 * The participant's live session of app/participate/session/page.tsx: a class whose
 * fields are the page's `useState` values. The timer interval calls `Tick`, and the
 * effects that react to state are the methods `CheckQuestion` and `CheckTimeout`.
 * The opponents' random score gains are not modelled.
 */
module LiveSession {
  import opened Wrappers
  import opened Strings
  import opened Sorting
  import opened QuizTypes
  import opened Grading
  import opened Selection
  import QuizData

  const QuestionDuration: int := 30
  const BasePoints: int := 100
  const SpeedFactor: int := 2
  const PodiumSize: nat := 3

  datatype Feedback = NoFeedback | CorrectFeedback | IncorrectFeedback | TimeoutFeedback

  /** How `finalizeAnswer` was reached: a choice by the participant, or the clock. */
  datatype Mode = Manual | Timeout

  /** A leaderboard row; `isYou` is missing (false) on the other participants. */
  datatype Entry = Entry(id: string, name: string, score: int, streak: Option<int>, isYou: bool)

  const InitialLeaderboard: seq<Entry> := [
    Entry("you", "Vous", 0, Some(0), true),
    Entry("maya", "Maya T.", 140, Some(2), false),
    Entry("alex", "Alex R.", 120, Some(1), false),
    Entry("sven", "Sven L.", 100, Some(1), false),
    Entry("hana", "Hana P.", 80, Some(0), false)
  ]

  /** `quizzes.find((item) => item.id === quizId)`; a missing `quiz` parameter matches nothing. */
  function FindSessionQuiz(quizzes: seq<QuizData.StaticQuiz>, quizId: Option<string>): (r: Option<QuizDefinition>)
    ensures r.None? <==> quizId.None? || forall k :: 0 <= k < |quizzes| ==> quizzes[k].id != quizId.value
    ensures r.Some? ==> exists k :: 0 <= k < |quizzes| && quizzes[k].id == quizId.value && quizzes[k].def == r.value &&
                                    forall j :: 0 <= j < k ==> quizzes[j].id != quizId.value
  {
    if quizId.None? || quizzes == [] then None
    else if quizzes[0].id == quizId.value then Some(quizzes[0].def)
    else
      var r := FindSessionQuiz(quizzes[1..], quizId);
      assert forall k :: 1 <= k < |quizzes| ==> quizzes[k] == quizzes[1..][k - 1];
      r
  }

  // ---------------------------------------------------------------------------
  // Scoring.

  /** `BASE_POINTS + timeLeft * SPEED_FACTOR` for a correct manual answer, otherwise 0. */
  function AnswerPoints(mode: Mode, isCorrect: bool, timeLeft: int): int {
    if mode == Timeout then 0 else if isCorrect then BasePoints + timeLeft * SpeedFactor else 0
  }

  /** With the clock in range, points are earned exactly for a correct manual answer, between 100 and 160. */
  lemma AnswerPointsRange(mode: Mode, isCorrect: bool, timeLeft: int)
    requires 0 <= timeLeft <= QuestionDuration
    ensures var p := AnswerPoints(mode, isCorrect, timeLeft);
      && (p > 0 <==> mode == Manual && isCorrect)
      && (p > 0 ==> BasePoints <= p <= BasePoints + QuestionDuration * SpeedFactor)
      && p >= 0
  {
  }

  /** A faster correct answer never earns fewer points. */
  lemma AnswerPointsFaster(isCorrect: bool, t1: int, t2: int)
    requires t1 <= t2
    ensures AnswerPoints(Manual, isCorrect, t1) <= AnswerPoints(Manual, isCorrect, t2)
  {
  }

  /** The sorted ids of the question's correct options. */
  function CorrectOptionIds(q: Question): seq<string> {
    SortStrings(CorrectIds(q.options))
  }

  /** The sorted selection equals the sorted correct ids, element by element. */
  predicate SelectionCorrect(selection: seq<string>, q: Question) {
    SameIds(SortStrings(selection), CorrectOptionIds(q))
  }

  /** A selection is correct exactly when it holds the correct ids, counting repeats, in any order. */
  lemma SelectionCorrectIff(selection: seq<string>, q: Question)
    ensures SelectionCorrect(selection, q) <==> multiset(selection) == multiset(CorrectIds(q.options))
  {
    SortStringsEqualIff(selection, CorrectIds(q.options));
    var a, b := SortStrings(selection), CorrectOptionIds(q);
    assert SameIds(a, b) <==> a == b by {
      if SameIds(a, b) {
        assert forall i :: 0 <= i < |a| ==> a[i] == b[i];
      }
    }
  }

  /** Adds the points to the "you" entry and updates its streak; every other entry is kept. */
  function ScoreYou(e: Entry, points: int, isCorrect: bool): Entry {
    if !e.isYou then e
    else e.(score := e.score + points, streak := Some(if isCorrect then e.streak.GetOr(0) + 1 else 0))
  }

  /** The leaderboard update of `finalizeAnswer`. */
  function ScoreAnswer(entries: seq<Entry>, points: int, isCorrect: bool): (r: seq<Entry>)
    ensures |r| == |entries|
    ensures forall k :: 0 <= k < |entries| ==> r[k] == ScoreYou(entries[k], points, isCorrect)
  {
    seq(|entries|, k requires 0 <= k < |entries| => ScoreYou(entries[k], points, isCorrect))
  }

  /**
   * Only the "you" entries change: their score grows by the points and their streak
   * becomes one more (correct) or 0; ids, names and the order of the rows are kept.
   */
  lemma ScoreAnswerEffect(entries: seq<Entry>, points: int, isCorrect: bool, k: nat)
    requires k < |entries|
    ensures var e, r := entries[k], ScoreAnswer(entries, points, isCorrect)[k];
      && (!e.isYou ==> r == e)
      && (e.isYou ==>
            r.id == e.id && r.name == e.name && r.isYou && r.score == e.score + points &&
            r.streak == Some(if isCorrect then e.streak.GetOr(0) + 1 else 0))
  {
  }

  function Ids(entries: seq<Entry>): (ids: seq<string>)
    ensures |ids| == |entries| && forall k :: 0 <= k < |entries| ==> ids[k] == entries[k].id
  {
    seq(|entries|, k requires 0 <= k < |entries| => entries[k].id)
  }

  function YouFlags(entries: seq<Entry>): (flags: seq<bool>)
    ensures |flags| == |entries| && forall k :: 0 <= k < |entries| ==> flags[k] == entries[k].isYou
  {
    seq(|entries|, k requires 0 <= k < |entries| => entries[k].isYou)
  }

  /** Scoring keeps the participants and which of them is "you". */
  lemma ScoreAnswerKeepsRows(entries: seq<Entry>, points: int, isCorrect: bool)
    ensures Ids(ScoreAnswer(entries, points, isCorrect)) == Ids(entries)
    ensures YouFlags(ScoreAnswer(entries, points, isCorrect)) == YouFlags(entries)
  {
    var r := ScoreAnswer(entries, points, isCorrect);
    assert forall k :: 0 <= k < |r| ==> Ids(r)[k] == Ids(entries)[k];
    assert forall k :: 0 <= k < |r| ==> YouFlags(r)[k] == YouFlags(entries)[k];
  }

  // ---------------------------------------------------------------------------
  // The podium.

  /** The comparator `b.score - a.score` is negative: `a` scored more. */
  predicate HigherScore(a: Entry, b: Entry) {
    a.score > b.score
  }

  lemma HigherScoreOrder()
    ensures StrictWeakOrder(HigherScore)
  {
  }

  /** `[...leaderboard].sort((a, b) => b.score - a.score).slice(0, 3)`. */
  function Podium(entries: seq<Entry>): seq<Entry> {
    Take(SortBy(entries, HigherScore), PodiumSize)
  }

  /**
   * Three entries of the leaderboard (fewer if it is shorter), by descending score, and
   * nobody left off the podium scored more than someone on it.
   */
  lemma PodiumShape(entries: seq<Entry>)
    ensures var r := Podium(entries);
      && |r| == (if |entries| < PodiumSize then |entries| else PodiumSize)
      && (forall e :: e in r ==> e in entries)
      && (forall i, j :: 0 <= i < j < |r| ==> r[i].score >= r[j].score)
  {
    HigherScoreOrder();
    TakeSorted(entries, HigherScore, PodiumSize);
  }

  lemma PodiumHighest(entries: seq<Entry>, e: Entry)
    requires e in entries && e !in Podium(entries)
    ensures forall t :: t in Podium(entries) ==> e.score <= t.score
  {
    HigherScoreOrder();
    TakeSortedBest(entries, HigherScore, PodiumSize, e);
  }

  /** The page's `formatTime`: the seconds padded to two digits. */
  function FormatSeconds(seconds: nat): (r: string)
    ensures |r| >= 2
  {
    PadStart(NatStr(seconds), 2, '0')
  }

  /** The padded text reads back as the number of seconds. */
  lemma FormatSecondsValue(seconds: nat)
    ensures forall k :: 0 <= k < |FormatSeconds(seconds)| ==> IsDigit(FormatSeconds(seconds)[k])
    ensures DigitsValue(FormatSeconds(seconds)) == seconds
  {
    ZeroPadValue(seconds, 2);
  }

  // ---------------------------------------------------------------------------
  // The page state.

  class ParticipantSession {
    const quiz: Option<QuizDefinition>
    var questionIndex: int
    var timeLeft: int
    var selectedOptionIds: seq<string>
    var feedback: Feedback
    var isLocked: bool
    var showResults: bool
    var lastPoints: int
    var leaderboard: seq<Entry>

    /** The clock stays within [0, QUESTION_DURATION]; the leaderboard keeps its participants. */
    predicate Valid()
      reads this
    {
      && 0 <= timeLeft <= QuestionDuration
      && 0 <= questionIndex
      && Ids(leaderboard) == Ids(InitialLeaderboard)
      && YouFlags(leaderboard) == YouFlags(InitialLeaderboard)
    }

    /** `quiz?.questions[questionIndex]`. */
    function CurrentQuestion(): (q: Option<Question>)
      reads this
      ensures q.Some? <==> quiz.Some? && 0 <= questionIndex < |quiz.value.questions|
    {
      if quiz.Some? && 0 <= questionIndex < |quiz.value.questions| then Some(quiz.value.questions[questionIndex]) else None
    }

    /** The state the page starts in, and the one its reset effect restores. */
    constructor(quiz: Option<QuizDefinition>)
      ensures this.quiz == quiz
      ensures questionIndex == 0 && timeLeft == QuestionDuration && selectedOptionIds == []
      ensures feedback == NoFeedback && !isLocked && !showResults && lastPoints == 0
      ensures leaderboard == InitialLeaderboard
      ensures Valid()
    {
      this.quiz := quiz;
      questionIndex, timeLeft, selectedOptionIds := 0, QuestionDuration, [];
      feedback, isLocked, showResults := NoFeedback, false, false;
      lastPoints, leaderboard := 0, InitialLeaderboard;
    }

    /**
     * `finalizeAnswer`: without a current question nothing happens; otherwise the sorted
     * selection is stored, the feedback set, the page locked and the "you" entry scored.
     */
    method FinalizeAnswer(selection: seq<string>, mode: Mode)
      requires Valid()
      modifies this
      ensures Valid()
      ensures questionIndex == old(questionIndex) && timeLeft == old(timeLeft) && showResults == old(showResults)
      ensures old(CurrentQuestion()).None? ==>
        && selectedOptionIds == old(selectedOptionIds) && feedback == old(feedback)
        && isLocked == old(isLocked) && lastPoints == old(lastPoints) && leaderboard == old(leaderboard)
      ensures old(CurrentQuestion()).Some? ==>
        var isCorrect := SelectionCorrect(selection, old(CurrentQuestion()).value);
        var points := AnswerPoints(mode, isCorrect, old(timeLeft));
        && selectedOptionIds == SortStrings(selection)
        && feedback == (if mode == Timeout then TimeoutFeedback else if isCorrect then CorrectFeedback else IncorrectFeedback)
        && isLocked
        && lastPoints == points
        && leaderboard == ScoreAnswer(old(leaderboard), points, isCorrect)
    {
      var current := CurrentQuestion();
      if current.None? {
        return;
      }
      var normalizedSelection := SortStrings(selection);
      var correctOptionIds := CorrectOptionIds(current.value);
      var isCorrect := SameIds(normalizedSelection, correctOptionIds);
      var computedPoints := AnswerPoints(mode, isCorrect, timeLeft);
      ScoreAnswerKeepsRows(leaderboard, computedPoints, isCorrect);
      selectedOptionIds := normalizedSelection;
      feedback := if mode == Timeout then TimeoutFeedback else if isCorrect then CorrectFeedback else IncorrectFeedback;
      isLocked, lastPoints := true, computedPoints;
      leaderboard := ScoreAnswer(leaderboard, computedPoints, isCorrect);
    }

    /** One second of the countdown interval, which runs only while a question is open. */
    method Tick()
      requires Valid()
      modifies this`timeLeft
      ensures Valid()
      ensures quiz.None? || showResults || isLocked || old(timeLeft) <= 0 ==> timeLeft == old(timeLeft)
      ensures !(quiz.None? || showResults || isLocked || old(timeLeft) <= 0) ==> timeLeft == old(timeLeft) - 1
    {
      if quiz.None? || showResults || isLocked || timeLeft <= 0 {
        return;
      }
      timeLeft := if timeLeft - 1 >= 0 then timeLeft - 1 else 0;
    }

    /** The effect that ends the question when the clock has run out. */
    method CheckTimeout()
      requires Valid()
      modifies this
      ensures Valid()
      ensures old(quiz.None? || showResults || isLocked || timeLeft > 0 || CurrentQuestion().None?) ==>
        && selectedOptionIds == old(selectedOptionIds) && feedback == old(feedback) && isLocked == old(isLocked)
        && lastPoints == old(lastPoints) && leaderboard == old(leaderboard)
      ensures old(quiz.Some? && !showResults && !isLocked && timeLeft <= 0 && CurrentQuestion().Some?) ==>
        var isCorrect := SelectionCorrect([], old(CurrentQuestion()).value);
        && feedback == TimeoutFeedback && isLocked && lastPoints == 0 && selectedOptionIds == []
        && leaderboard == ScoreAnswer(old(leaderboard), 0, isCorrect)
      ensures questionIndex == old(questionIndex) && timeLeft == old(timeLeft) && showResults == old(showResults)
    {
      if quiz.None? || showResults || isLocked || timeLeft > 0 {
        return;
      }
      FinalizeAnswer([], Timeout);
    }

    /** The effect that shows the results once the index has run past the questions. */
    method CheckQuestion()
      modifies this`showResults
      ensures showResults == (old(showResults) || (quiz.Some? && CurrentQuestion().None?))
    {
      if quiz.Some? && CurrentQuestion().None? {
        showResults := true;
      }
    }

    /**
     * `handleOptionToggle`: ignored while locked or without a question; on a "multiple"
     * question the id's membership flips, otherwise the answer is final at once.
     */
    method HandleOptionToggle(optionId: string)
      requires Valid()
      modifies this
      ensures Valid()
      ensures old(CurrentQuestion()).None? || old(isLocked) ==>
        && selectedOptionIds == old(selectedOptionIds) && feedback == old(feedback) && isLocked == old(isLocked)
        && lastPoints == old(lastPoints) && leaderboard == old(leaderboard)
      ensures old(CurrentQuestion()).Some? && !old(isLocked) && old(CurrentQuestion()).value.qtype == Multiple ==>
        && selectedOptionIds == ToggleId(old(selectedOptionIds), optionId)
        && feedback == old(feedback) && !isLocked && lastPoints == old(lastPoints) && leaderboard == old(leaderboard)
      ensures old(CurrentQuestion()).Some? && !old(isLocked) && old(CurrentQuestion()).value.qtype != Multiple ==>
        var isCorrect := SelectionCorrect([optionId], old(CurrentQuestion()).value);
        var points := AnswerPoints(Manual, isCorrect, old(timeLeft));
        && selectedOptionIds == SortStrings([optionId]) && isLocked && lastPoints == points
        && feedback == (if isCorrect then CorrectFeedback else IncorrectFeedback)
        && leaderboard == ScoreAnswer(old(leaderboard), points, isCorrect)
      ensures questionIndex == old(questionIndex) && timeLeft == old(timeLeft) && showResults == old(showResults)
    {
      var current := CurrentQuestion();
      if current.None? || isLocked {
        return;
      }
      if current.value.qtype == Multiple {
        selectedOptionIds := ToggleId(selectedOptionIds, optionId);
        return;
      }
      FinalizeAnswer([optionId], Manual);
    }

    /** `handleSubmitMultiple`: on an open "multiple" question, the current selection is final. */
    method HandleSubmitMultiple()
      requires Valid()
      modifies this
      ensures Valid()
      ensures old(CurrentQuestion()).None? || old(isLocked) || old(CurrentQuestion()).value.qtype != Multiple ==>
        && selectedOptionIds == old(selectedOptionIds) && feedback == old(feedback) && isLocked == old(isLocked)
        && lastPoints == old(lastPoints) && leaderboard == old(leaderboard)
      ensures old(CurrentQuestion()).Some? && !old(isLocked) && old(CurrentQuestion()).value.qtype == Multiple ==>
        var isCorrect := SelectionCorrect(old(selectedOptionIds), old(CurrentQuestion()).value);
        var points := AnswerPoints(Manual, isCorrect, old(timeLeft));
        && selectedOptionIds == SortStrings(old(selectedOptionIds)) && isLocked && lastPoints == points
        && feedback == (if isCorrect then CorrectFeedback else IncorrectFeedback)
        && leaderboard == ScoreAnswer(old(leaderboard), points, isCorrect)
      ensures questionIndex == old(questionIndex) && timeLeft == old(timeLeft) && showResults == old(showResults)
    {
      var current := CurrentQuestion();
      if current.None? || isLocked || current.value.qtype != Multiple {
        return;
      }
      FinalizeAnswer(selectedOptionIds, Manual);
    }

    /**
     * `handleNextStep`: after the last question the results are shown; otherwise the next
     * question opens with a full clock, an empty selection and no feedback.
     */
    method HandleNextStep()
      requires Valid()
      modifies this
      ensures Valid()
      ensures leaderboard == old(leaderboard)
      ensures quiz.None? ==>
        && questionIndex == old(questionIndex) && showResults == old(showResults) && timeLeft == old(timeLeft)
        && selectedOptionIds == old(selectedOptionIds) && feedback == old(feedback) && isLocked == old(isLocked)
        && lastPoints == old(lastPoints)
      ensures quiz.Some? && old(questionIndex) >= |quiz.value.questions| - 1 ==>
        && showResults && questionIndex == old(questionIndex) && timeLeft == old(timeLeft)
        && selectedOptionIds == old(selectedOptionIds) && feedback == old(feedback) && isLocked == old(isLocked)
        && lastPoints == old(lastPoints)
      ensures quiz.Some? && old(questionIndex) < |quiz.value.questions| - 1 ==>
        && questionIndex == old(questionIndex) + 1 && timeLeft == QuestionDuration && selectedOptionIds == []
        && feedback == NoFeedback && !isLocked && lastPoints == 0 && showResults == old(showResults)
    {
      if quiz.None? {
        return;
      }
      var isLastQuestion := questionIndex >= |quiz.value.questions| - 1;
      if isLastQuestion {
        showResults := true;
        return;
      }
      questionIndex, timeLeft, selectedOptionIds := questionIndex + 1, QuestionDuration, [];
      feedback, isLocked, lastPoints := NoFeedback, false, 0;
    }

    /** The podium shown with the results. */
    function PodiumEntries(): seq<Entry>
      reads this
    {
      Podium(leaderboard)
    }
  }
}
