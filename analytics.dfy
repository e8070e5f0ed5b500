/**
 * The figures of components/AnalyticsDashboard.tsx: the attempts of the current quiz,
 * per-question counts and accuracy, the "most missed questions" ranking and `truncate`.
 * Accuracy and average time are exact rationals (`real`); the file's floating-point
 * rounding is not modelled.
 */
module Analytics {
  import opened Wrappers
  import opened Strings
  import opened Sorting
  import opened Records
  import opened QuizTypes
  import opened QuizContext

  // ---------------------------------------------------------------------------
  // The attempts shown: `QuizContext.AttemptsFor` on the current quiz.

  /** Attempts keep their history order: filtering a concatenation filters each part. */
  lemma {:induction false} AttemptsForConcat(a: seq<Attempt>, b: seq<Attempt>, quizId: string)
    ensures AttemptsFor(a + b, quizId) == AttemptsFor(a, quizId) + AttemptsFor(b, quizId)
  {
    if a == [] {
      assert a + b == b;
    } else {
      assert (a + b)[1..] == a[1..] + b;
      AttemptsForConcat(a[1..], b, quizId);
    }
  }

  // ---------------------------------------------------------------------------
  // Per-question statistics.

  /** The number of attempts whose `incorrectQuestionIds` include `qid`. */
  function IncorrectCountOf(attempts: seq<Attempt>, qid: string): (n: nat)
    ensures n <= |attempts|
    ensures |attempts| == 1 ==> (n == 1 <==> qid in attempts[0].incorrectQuestionIds)
  {
    if attempts == [] then 0
    else (if qid in attempts[0].incorrectQuestionIds then 1 else 0) + IncorrectCountOf(attempts[1..], qid)
  }

  /** The number of attempts whose `correctQuestionIds` include `qid`. */
  function CorrectCountOf(attempts: seq<Attempt>, qid: string): (n: nat)
    ensures n <= |attempts|
    ensures |attempts| == 1 ==> (n == 1 <==> qid in attempts[0].correctQuestionIds)
  {
    if attempts == [] then 0
    else (if qid in attempts[0].correctQuestionIds then 1 else 0) + CorrectCountOf(attempts[1..], qid)
  }

  /** No attempt lists `qid` as missed exactly when the count is zero. */
  lemma {:induction false} IncorrectCountOfZero(attempts: seq<Attempt>, qid: string)
    ensures IncorrectCountOf(attempts, qid) == 0 <==> forall k :: 0 <= k < |attempts| ==> qid !in attempts[k].incorrectQuestionIds
  {
    if attempts != [] {
      IncorrectCountOfZero(attempts[1..], qid);
      assert forall k :: 1 <= k < |attempts| ==> attempts[k] == attempts[1..][k - 1];
    }
  }

  /** Every attempt lists `qid` as missed exactly when the count is the number of attempts. */
  lemma {:induction false} IncorrectCountOfAll(attempts: seq<Attempt>, qid: string)
    ensures IncorrectCountOf(attempts, qid) == |attempts| <==> forall k :: 0 <= k < |attempts| ==> qid in attempts[k].incorrectQuestionIds
  {
    if attempts != [] {
      IncorrectCountOfAll(attempts[1..], qid);
      assert forall k :: 1 <= k < |attempts| ==> attempts[k] == attempts[1..][k - 1];
    }
  }

  /** No attempt lists `qid` as answered correctly exactly when the count is zero. */
  lemma {:induction false} CorrectCountOfZero(attempts: seq<Attempt>, qid: string)
    ensures CorrectCountOf(attempts, qid) == 0 <==> forall k :: 0 <= k < |attempts| ==> qid !in attempts[k].correctQuestionIds
  {
    if attempts != [] {
      CorrectCountOfZero(attempts[1..], qid);
      assert forall k :: 1 <= k < |attempts| ==> attempts[k] == attempts[1..][k - 1];
    }
  }

  /** Every attempt lists `qid` as answered correctly exactly when the count is the number of attempts. */
  lemma {:induction false} CorrectCountOfAll(attempts: seq<Attempt>, qid: string)
    ensures CorrectCountOf(attempts, qid) == |attempts| <==> forall k :: 0 <= k < |attempts| ==> qid in attempts[k].correctQuestionIds
  {
    if attempts != [] {
      CorrectCountOfAll(attempts[1..], qid);
      assert forall k :: 1 <= k < |attempts| ==> attempts[k] == attempts[1..][k - 1];
    }
  }

  /** Counts add up over a concatenation of attempt lists. */
  lemma {:induction false} CountsConcat(a: seq<Attempt>, b: seq<Attempt>, qid: string)
    ensures IncorrectCountOf(a + b, qid) == IncorrectCountOf(a, qid) + IncorrectCountOf(b, qid)
    ensures CorrectCountOf(a + b, qid) == CorrectCountOf(a, qid) + CorrectCountOf(b, qid)
  {
    if a == [] {
      assert a + b == b;
    } else {
      assert (a + b)[1..] == a[1..] + b;
      CountsConcat(a[1..], b, qid);
    }
  }

  /** `correct + incorrect === 0 ? 0 : (correct / (correct + incorrect)) * 100`. */
  function Accuracy(correct: nat, incorrect: nat): real {
    if correct + incorrect == 0 then 0.0 else (correct as real / (correct + incorrect) as real) * 100.0
  }

  /** Accuracy is a percentage: 0 exactly with no correct answer, 100 exactly with correct answers only. */
  lemma AccuracyRange(correct: nat, incorrect: nat)
    ensures 0.0 <= Accuracy(correct, incorrect) <= 100.0
    ensures Accuracy(correct, incorrect) == 0.0 <==> correct == 0
    ensures Accuracy(correct, incorrect) == 100.0 <==> correct > 0 && incorrect == 0
  {
    if correct + incorrect > 0 {
      var t := (correct + incorrect) as real;
      var f := correct as real / t;
      assert f * t == correct as real;
      assert 0.0 <= f <= 1.0;
      assert f == 1.0 <==> incorrect == 0;
    }
  }

  /** More misses at the same number of correct answers never raises the accuracy. */
  lemma AccuracyMonotone(correct: nat, incorrect: nat, more: nat)
    requires incorrect <= more
    ensures Accuracy(correct, more) <= Accuracy(correct, incorrect)
  {
    if correct > 0 {
      var t1 := (correct + incorrect) as real;
      var t2 := (correct + more) as real;
      assert (correct as real / t2) * t2 == correct as real;
      assert (correct as real / t1) * t1 == correct as real;
      assert correct as real / t2 <= correct as real / t1;
    }
  }

  /** `attempt.questionDurations[question.id] ?? 0`, summed. */
  function DurationSum(attempts: seq<Attempt>, qid: string): int {
    if attempts == [] then 0
    else Get(attempts[0].questionDurations, qid).GetOr(0) + DurationSum(attempts[1..], qid)
  }

  /** The mean recorded time for one question over the attempts, 0 without attempts. */
  function AverageTime(attempts: seq<Attempt>, qid: string): (t: real)
    ensures attempts == [] ==> t == 0.0
    ensures attempts != [] ==> t * |attempts| as real == DurationSum(attempts, qid) as real
  {
    if |attempts| == 0 then 0.0 else DurationSum(attempts, qid) as real / |attempts| as real
  }

  datatype QuestionStat = QuestionStat(id: string, prompt: string, accuracy: real, incorrectCount: nat, averageTime: real)

  /** The statistics of one question over the attempts. */
  function StatOf(q: Question, attempts: seq<Attempt>): QuestionStat {
    var incorrect := IncorrectCountOf(attempts, q.id);
    var correct := CorrectCountOf(attempts, q.id);
    QuestionStat(q.id, q.prompt, Accuracy(correct, incorrect), incorrect, AverageTime(attempts, q.id))
  }

  /** `questionStats`: one entry per question of the quiz, in question order. */
  function QuestionStats(questions: seq<Question>, attempts: seq<Attempt>): (r: seq<QuestionStat>)
    ensures |r| == |questions|
    ensures forall k :: 0 <= k < |questions| ==> r[k] == StatOf(questions[k], attempts)
  {
    seq(|questions|, k requires 0 <= k < |questions| => StatOf(questions[k], attempts))
  }

  /** Each entry's id and prompt are its question's, its counts and accuracy are within range. */
  lemma QuestionStatsShape(questions: seq<Question>, attempts: seq<Attempt>, k: nat)
    requires k < |questions|
    ensures var s := QuestionStats(questions, attempts)[k];
      && s.id == questions[k].id && s.prompt == questions[k].prompt
      && s.incorrectCount <= |attempts|
      && 0.0 <= s.accuracy <= 100.0
      && (s.incorrectCount == 0 <==> forall j :: 0 <= j < |attempts| ==> questions[k].id !in attempts[j].incorrectQuestionIds)
  {
    var q := questions[k];
    AccuracyRange(CorrectCountOf(attempts, q.id), IncorrectCountOf(attempts, q.id));
    IncorrectCountOfZero(attempts, q.id);
  }

  // ---------------------------------------------------------------------------
  // The most missed questions.

  /** `.filter((stat) => stat.incorrectCount > 0)`. */
  function Missed(stats: seq<QuestionStat>): (r: seq<QuestionStat>)
    ensures |r| <= |stats|
    ensures forall s :: s in r <==> s in stats && s.incorrectCount > 0
  {
    if stats == [] then []
    else if stats[0].incorrectCount > 0 then [stats[0]] + Missed(stats[1..])
    else Missed(stats[1..])
  }

  /** The comparator `a.accuracy - b.accuracy` is negative. */
  predicate LowerAccuracy(a: QuestionStat, b: QuestionStat) {
    a.accuracy < b.accuracy
  }

  lemma LowerAccuracyOrder()
    ensures StrictWeakOrder(LowerAccuracy)
  {
  }

  const MostMissedLimit: nat := 3

  /** `mostMissedQuestions`: the missed questions by ascending accuracy, at most three. */
  function MostMissed(stats: seq<QuestionStat>): seq<QuestionStat> {
    Take(SortBy(Missed(stats), LowerAccuracy), MostMissedLimit)
  }

  /**
   * At most three entries, each a missed question of the list, in ascending accuracy;
   * there are three of them whenever at least three questions were missed.
   */
  lemma MostMissedShape(stats: seq<QuestionStat>)
    ensures var r := MostMissed(stats);
      && |r| == (if |Missed(stats)| < MostMissedLimit then |Missed(stats)| else MostMissedLimit)
      && (forall s :: s in r ==> s in stats && s.incorrectCount > 0)
      && (forall i, j :: 0 <= i < j < |r| ==> r[i].accuracy <= r[j].accuracy)
  {
    LowerAccuracyOrder();
    TakeSorted(Missed(stats), LowerAccuracy, MostMissedLimit);
  }

  /** No missed question left out of the ranking has a lower accuracy than one shown. */
  lemma MostMissedAreLowest(stats: seq<QuestionStat>, s: QuestionStat)
    requires s in stats && s.incorrectCount > 0 && s !in MostMissed(stats)
    ensures forall t :: t in MostMissed(stats) ==> t.accuracy <= s.accuracy
  {
    LowerAccuracyOrder();
    TakeSortedBest(Missed(stats), LowerAccuracy, MostMissedLimit, s);
  }

  // ---------------------------------------------------------------------------
  // `truncate`.

  const Ellipsis: char := '…'

  /** `value` when it fits, otherwise `value.slice(0, maxLength - 1)` followed by an ellipsis. */
  function Truncate(value: string, maxLength: int): string {
    if |value| <= maxLength then value else Slice(value, 0, maxLength - 1) + [Ellipsis]
  }

  /** A text that fits is returned unchanged; a longer one is cut to exactly `maxLength` characters. */
  lemma TruncateFits(value: string, maxLength: int)
    ensures |value| <= maxLength ==> Truncate(value, maxLength) == value
    ensures 1 <= maxLength < |value| ==>
      && |Truncate(value, maxLength)| == maxLength
      && Truncate(value, maxLength) == value[..maxLength - 1] + [Ellipsis]
  {
  }

  /** Whatever `maxLength` is, the result is the text or a prefix of it followed by an ellipsis. */
  lemma TruncatePrefix(value: string, maxLength: int)
    ensures var r := Truncate(value, maxLength);
      r == value || (|r| >= 1 && |r| - 1 <= |value| && r == value[..|r| - 1] + [Ellipsis])
  {
  }
}
