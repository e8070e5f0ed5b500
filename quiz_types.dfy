/**
 * The entities of the quiz catalogue: media, answer options, questions and quizzes,
 * and the point total of a list of questions (`points ?? 1` summed left to right).
 * Timestamps are milliseconds since the epoch; ISO strings are not modelled.
 */
module QuizTypes {
  import opened Wrappers

  datatype MediaType = Image | Video | Gif | Link

  /** `label` is a reserved word here; the media label is `caption`. */
  datatype MediaResource = MediaResource(id: string, kind: MediaType, url: string, caption: Option<string>)

  datatype AnswerOption = AnswerOption(id: string, text: string, isCorrect: bool, media: Option<seq<MediaResource>>)

  datatype QuestionType = Single | Multiple | TrueFalse | Open

  datatype Question = Question(
    id: string,
    prompt: string,
    qtype: QuestionType,
    options: seq<AnswerOption>,
    explanation: string,
    points: Option<int>,
    timeLimit: Option<int>,
    answer: Option<string>,
    media: Option<seq<MediaResource>>)

  datatype Difficulty = Beginner | Intermediate | Advanced

  /** Everything a quiz definition holds except its id. */
  datatype QuizDefinition = QuizDefinition(
    title: string,
    description: string,
    duration: Option<int>,
    level: Option<int>,
    difficulty: Option<Difficulty>,
    focusArea: Option<string>,
    recommendedFor: Option<string>,
    accessCode: Option<string>,
    joinLink: Option<string>,
    creatorId: Option<string>,
    communityLikes: Option<int>,
    coverImage: Option<string>,
    tags: Option<seq<string>>,
    category: Option<string>,
    questions: seq<Question>)

  datatype Origin = Default | Custom

  datatype Quiz = Quiz(id: string, def: QuizDefinition, origin: Origin, createdAt: int, updatedAt: int)

  /** `Math.max` and `Math.min` on integers. */
  function Max(a: int, b: int): int { if a >= b then a else b }
  function Min(a: int, b: int): int { if a <= b then a else b }

  /** `question.points ?? 1`. */
  function QuestionPoints(q: Question): int {
    q.points.GetOr(1)
  }

  /** `questions.reduce((sum, q) => sum + (q.points ?? 1), 0)`. */
  function TotalPoints(qs: seq<Question>): (total: int)
    ensures (forall i :: 0 <= i < |qs| ==> qs[i].points.None?) ==> total == |qs|
    ensures (forall i :: 0 <= i < |qs| ==> QuestionPoints(qs[i]) >= 0) ==> total >= 0
  {
    if qs == [] then 0 else TotalPoints(qs[..|qs| - 1]) + QuestionPoints(qs[|qs| - 1])
  }

  /** One question contributes its `points`, or 1 when it sets none; with TotalPointsConcat this fixes every total. */
  lemma TotalPointsOne(q: Question)
    ensures TotalPoints([q]) == if q.points.Some? then q.points.value else 1
  {
    assert [q][..0] == [];
  }

  /** The total of a concatenation is the sum of the totals. */
  lemma {:induction false} TotalPointsConcat(a: seq<Question>, b: seq<Question>)
    ensures TotalPoints(a + b) == TotalPoints(a) + TotalPoints(b)
    decreases |b|
  {
    if b != [] {
      assert (a + b)[..|a + b| - 1] == a + b[..|b| - 1];
      assert (a + b)[|a + b| - 1] == b[|b| - 1];
      TotalPointsConcat(a, b[..|b| - 1]);
    } else {
      assert a + b == a;
    }
  }

  /** The first element whose id is `id` (`list.find((x) => x.id === id)`). */
  function FindQuestion(qs: seq<Question>, id: string): (r: Option<Question>)
    ensures r.Some? <==> exists i | 0 <= i < |qs| :: qs[i].id == id
    ensures r.Some? ==> r.value in qs && r.value.id == id
    ensures r.Some? ==> exists i | 0 <= i < |qs| :: qs[i] == r.value && forall j :: 0 <= j < i ==> qs[j].id != id
  {
    Find(qs, (q: Question) => q.id == id)
  }

  /** The first quiz whose id is `id`. */
  function FindQuiz(qs: seq<Quiz>, id: string): (r: Option<Quiz>)
    ensures r.Some? <==> exists i | 0 <= i < |qs| :: qs[i].id == id
    ensures r.Some? ==> r.value in qs && r.value.id == id
    ensures r.Some? ==> exists i | 0 <= i < |qs| :: qs[i] == r.value && forall j :: 0 <= j < i ==> qs[j].id != id
  {
    Find(qs, (q: Quiz) => q.id == id)
  }

  function QuestionIds(qs: seq<Question>): (ids: seq<string>)
    ensures |ids| == |qs| && forall i :: 0 <= i < |qs| ==> ids[i] == qs[i].id
  {
    seq(|qs|, i requires 0 <= i < |qs| => qs[i].id)
  }

  /** `find` by id succeeds exactly for the listed ids. */
  lemma QuestionIdsFind(qs: seq<Question>, id: string)
    ensures id in QuestionIds(qs) <==> FindQuestion(qs, id).Some?
  {
    if FindQuestion(qs, id).Some? {
      var i :| 0 <= i < |qs| && qs[i].id == id;
      assert QuestionIds(qs)[i] == id;
    }
  }

  function QuizIds(qs: seq<Quiz>): (ids: seq<string>)
    ensures |ids| == |qs| && forall i :: 0 <= i < |qs| ==> ids[i] == qs[i].id
  {
    seq(|qs|, i requires 0 <= i < |qs| => qs[i].id)
  }

  /** `find` by id succeeds exactly for the listed ids. */
  lemma QuizIdsFind(qs: seq<Quiz>, id: string)
    ensures id in QuizIds(qs) <==> FindQuiz(qs, id).Some?
  {
    if FindQuiz(qs, id).Some? {
      var i :| 0 <= i < |qs| && qs[i].id == id;
      assert QuizIds(qs)[i] == id;
    }
  }

  /** `list.filter((x) => x.id !== id)`. */
  function WithoutQuiz(qs: seq<Quiz>, id: string): (r: seq<Quiz>)
    ensures forall q :: q in r <==> q in qs && q.id != id
    ensures |r| <= |qs|
  {
    if qs == [] then []
    else if qs[0].id == id then WithoutQuiz(qs[1..], id)
    else [qs[0]] + WithoutQuiz(qs[1..], id)
  }

  /** Some option flagged correct has id `x`. */
  predicate IsCorrectId(options: seq<AnswerOption>, x: string) {
    exists i | 0 <= i < |options| :: options[i].isCorrect && options[i].id == x
  }

  lemma IsCorrectIdCons(options: seq<AnswerOption>)
    requires options != []
    ensures forall x :: IsCorrectId(options, x) <==> (options[0].isCorrect && options[0].id == x) || IsCorrectId(options[1..], x)
  {
    forall x | IsCorrectId(options[1..], x) ensures IsCorrectId(options, x) {
      var i :| 0 <= i < |options[1..]| && options[1..][i].isCorrect && options[1..][i].id == x;
      assert options[i + 1] == options[1..][i];
    }
    forall x | IsCorrectId(options, x) && !(options[0].isCorrect && options[0].id == x) ensures IsCorrectId(options[1..], x) {
      var i :| 0 <= i < |options| && options[i].isCorrect && options[i].id == x;
      assert options[1..][i - 1] == options[i];
    }
  }

  /** `options.filter((o) => o.isCorrect).map((o) => o.id)`: the ids of the correct options, in option order. */
  function CorrectIds(options: seq<AnswerOption>): (ids: seq<string>)
    ensures forall x :: x in ids <==> IsCorrectId(options, x)
    ensures |ids| <= |options|
  {
    if options == [] then []
    else
      IsCorrectIdCons(options);
      var rest := CorrectIds(options[1..]);
      if options[0].isCorrect then [options[0].id] + rest else rest
  }

  /** Number of options flagged correct. */
  function CorrectCount(options: seq<AnswerOption>): (n: nat)
    ensures n <= |options|
    ensures n == |CorrectIds(options)|
    ensures n == 0 <==> forall i :: 0 <= i < |options| ==> !options[i].isCorrect
  {
    if options == [] then 0 else (if options[0].isCorrect then 1 else 0) + CorrectCount(options[1..])
  }
}
