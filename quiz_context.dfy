/**
 * The session engine and catalogue store of context/QuizContext.tsx. The provider is a
 * class whose fields are its `useState` values; each callback is a method. The derived
 * values (`quizzes`, `currentQuiz`, `score`, the completion flags) are functions of the
 * fields. Ids, tokens and `Date.now()` are parameters.
 */
module QuizContext {
  import opened Wrappers
  import opened Strings
  import opened Sorting
  import opened Records
  import opened QuizTypes
  import opened Grading
  import QuizData
  import UserContext

  const MaxSafeInteger: int := 9007199254740991
  const HistoryLimit: nat := 50
  /** `2024-01-01T00:00:00.000Z` in milliseconds. */
  const StaticTimestamp: int := 1704067200000

  datatype ShareConfig = ShareConfig(isPublic: bool, shareToken: Option<string>)

  /** `{ isPublic: false }`. */
  const PrivateShare := ShareConfig(false, None)

  /** A finished attempt; the floating-point accuracy and average are not part of the model. */
  datatype Attempt = Attempt(
    id: string,
    participantLabel: string,
    quizId: string,
    quizTitle: string,
    score: int,
    totalQuestions: nat,
    startedAt: int,
    completedAt: int,
    durationMs: int,
    questionDurations: Record<int>,
    correctQuestionIds: seq<string>,
    incorrectQuestionIds: seq<string>)

  // ---------------------------------------------------------------------------
  // The built-in quizzes.

  function ToStatic(s: QuizData.StaticQuiz): Quiz {
    Quiz(s.id, s.def, Default, StaticTimestamp, StaticTimestamp)
  }

  function StaticQuizzesOf(defs: seq<QuizData.StaticQuiz>): (qs: seq<Quiz>)
    ensures |qs| == |defs|
    ensures forall i :: 0 <= i < |defs| ==> qs[i] == ToStatic(defs[i])
  {
    seq(|defs|, i requires 0 <= i < |defs| => ToStatic(defs[i]))
  }

  /**
   * Every built-in quiz keeps its definition's id and content and is marked `default`; so
   * distinct definition ids give distinct quizzes, and looking an id up finds its definition.
   */
  lemma StaticQuizzesFind(defs: seq<QuizData.StaticQuiz>, k: nat)
    requires forall i, j :: 0 <= i < j < |defs| ==> defs[i].id != defs[j].id
    requires k < |defs|
    ensures UniqueQuizIds(StaticQuizzesOf(defs))
    ensures FindQuiz(StaticQuizzesOf(defs), defs[k].id) == Some(Quiz(defs[k].id, defs[k].def, Default, StaticTimestamp, StaticTimestamp))
  {
    var qs := StaticQuizzesOf(defs);
    var r := FindQuiz(qs, defs[k].id);
    var i :| 0 <= i < |qs| && qs[i] == r.value && forall j :: 0 <= j < i ==> qs[j].id != defs[k].id;
    assert qs[k].id == defs[k].id;
  }

  /** `STATIC_QUIZZES`. */
  function StaticQuizzes(): seq<Quiz> {
    StaticQuizzesOf(QuizData.Quizzes())
  }

  // ---------------------------------------------------------------------------
  // Catalogue order.

  function LevelKey(q: Quiz): int {
    q.def.level.GetOr(MaxSafeInteger)
  }

  /** The comparator of `quizzes` returns a negative number for (a, b). */
  predicate CatalogueBefore(staticIds: seq<string>, a: Quiz, b: Quiz) {
    var aStatic := a.id in staticIds;
    var bStatic := b.id in staticIds;
    if aStatic && bStatic then LevelKey(a) - LevelKey(b) < 0
    else if aStatic != bStatic then aStatic
    else b.updatedAt - a.updatedAt < 0
  }

  function CatalogueOrder(staticIds: seq<string>): (Quiz, Quiz) -> bool {
    (a: Quiz, b: Quiz) => CatalogueBefore(staticIds, a, b)
  }

  lemma CatalogueOrderConsistent(staticIds: seq<string>)
    ensures StrictWeakOrder(CatalogueOrder(staticIds))
  {
    var before := CatalogueOrder(staticIds);
    forall a, b, c | !before(a, b) && !before(b, c) ensures !before(a, c) {
      assert !CatalogueBefore(staticIds, a, b) && !CatalogueBefore(staticIds, b, c);
    }
  }

  /** `quizzes`: the built-in and custom quizzes, sorted. */
  function Catalogue(statics: seq<Quiz>, custom: seq<Quiz>): (qs: seq<Quiz>)
    ensures multiset(qs) == multiset(statics + custom)
    ensures |qs| == |statics| + |custom|
  {
    SortBy(statics + custom, CatalogueOrder(QuizIds(statics)))
  }

  /**
   * Built-in quizzes come first, by ascending level with a missing level last; custom
   * quizzes follow, most recently updated first.
   */
  lemma CatalogueOrdered(statics: seq<Quiz>, custom: seq<Quiz>)
    ensures var qs, ids := Catalogue(statics, custom), QuizIds(statics);
      && (forall i, j :: 0 <= i < j < |qs| && qs[j].id in ids ==> qs[i].id in ids)
      && (forall i, j :: 0 <= i < j < |qs| && qs[i].id in ids && qs[j].id in ids ==> LevelKey(qs[i]) <= LevelKey(qs[j]))
      && (forall i, j :: 0 <= i < j < |qs| && qs[i].id in ids && qs[j].id in ids && qs[i].def.level.None? ==>
            qs[j].def.level.None? || qs[j].def.level.value >= MaxSafeInteger)
      && (forall i, j :: 0 <= i < j < |qs| && qs[i].id !in ids && qs[j].id !in ids ==> qs[i].updatedAt >= qs[j].updatedAt)
  {
    var ids := QuizIds(statics);
    var qs := Catalogue(statics, custom);
    CatalogueOrderConsistent(ids);
    SortBySorted(statics + custom, CatalogueOrder(ids));
    forall i, j | 0 <= i < j < |qs| ensures !CatalogueBefore(ids, qs[j], qs[i]) {
      assert !CatalogueOrder(ids)(qs[j], qs[i]);
    }
  }

  // ---------------------------------------------------------------------------
  // Share settings.

  /** The first loop of the reconciliation effect: every catalogue id without settings gets `{ isPublic: false }`. */
  function AddMissing(r: Record<ShareConfig>, ids: seq<string>): (r': Record<ShareConfig>)
    ensures UniqueKeys(r) ==> UniqueKeys(r')
    ensures forall k :: Get(r', k) == if HasKey(r, k) then Get(r, k) else if k in ids then Some(PrivateShare) else None
  {
    if ids == [] then r
    else
      var prev := AddMissing(r, ids[..|ids| - 1]);
      var id := ids[|ids| - 1];
      assert forall k :: k in ids <==> k in ids[..|ids| - 1] || k == id by {
        assert ids == ids[..|ids| - 1] + [id];
      }
      if HasKey(prev, id) then prev else Put(prev, id, PrivateShare)
  }

  /** The second loop: every key in `keys` that is not a catalogue id is deleted. */
  function DropStale(r: Record<ShareConfig>, keys: seq<string>, ids: seq<string>): Record<ShareConfig> {
    if keys == [] then r
    else
      var prev := DropStale(r, keys[..|keys| - 1], ids);
      var k := keys[|keys| - 1];
      if k in ids then prev else Remove(prev, k)
  }

  /** The second loop deletes exactly the listed keys that are not catalogue ids. */
  lemma {:induction false} DropStaleSpec(r: Record<ShareConfig>, keys: seq<string>, ids: seq<string>)
    ensures UniqueKeys(r) ==> UniqueKeys(DropStale(r, keys, ids))
    ensures forall k :: Get(DropStale(r, keys, ids), k) == if k in keys && k !in ids then None else Get(r, k)
  {
    if keys != [] {
      var front, last := keys[..|keys| - 1], keys[|keys| - 1];
      DropStaleSpec(r, front, ids);
      assert forall x :: x in keys <==> x in front || x == last by {
        assert keys == front + [last];
      }
    }
  }

  /** One more key for DropStale: the key is dropped unless it is a catalogue id. */
  lemma DropStaleStep(r: Record<ShareConfig>, keys: seq<string>, j: int, ids: seq<string>)
    requires 0 <= j <= |keys|
    ensures j < |keys| ==>
      DropStale(r, keys[..j + 1], ids) ==
        if keys[j] in ids then DropStale(r, keys[..j], ids) else Remove(DropStale(r, keys[..j], ids), keys[j])
    ensures j == |keys| ==> DropStale(r, keys[..j], ids) == DropStale(r, keys, ids)
    ensures DropStale(r, keys[..0], ids) == r
  {
    assert keys[..0] == [];
    if j < |keys| {
      assert keys[..j + 1][..j] == keys[..j];
    } else {
      assert keys[..j] == keys;
    }
  }

  /** The settings the reconciliation effect leaves for catalogue ids `ids`. */
  function Reconciled(previous: Record<ShareConfig>, ids: seq<string>): Record<ShareConfig> {
    var added := AddMissing(previous, ids);
    DropStale(added, Keys(added), ids)
  }

  /**
   * After reconciliation the keys are exactly the catalogue ids; existing settings of
   * catalogue quizzes are kept and the others are `{ isPublic: false }`.
   */
  lemma ReconciledSpec(previous: Record<ShareConfig>, ids: seq<string>)
    requires UniqueKeys(previous)
    ensures UniqueKeys(Reconciled(previous, ids))
    ensures forall k :: HasKey(Reconciled(previous, ids), k) <==> k in ids
    ensures forall k :: k in ids && HasKey(previous, k) ==> Get(Reconciled(previous, ids), k) == Get(previous, k)
    ensures forall k :: k in ids && !HasKey(previous, k) ==> Get(Reconciled(previous, ids), k) == Some(PrivateShare)
  {
    var added := AddMissing(previous, ids);
    var r := Reconciled(previous, ids);
    DropStaleSpec(added, Keys(added), ids);
    forall k ensures HasKey(r, k) <==> k in ids {
      assert k in Keys(added) <==> HasKey(added, k) by {
        if HasKey(added, k) {
          var i :| 0 <= i < |added| && added[i].0 == k;
          assert Keys(added)[i] == k;
        }
      }
    }
  }

  lemma {:induction false} AddMissingPresent(r: Record<ShareConfig>, ids: seq<string>)
    requires forall k :: k in ids ==> HasKey(r, k)
    ensures AddMissing(r, ids) == r
  {
    if ids != [] {
      AddMissingPresent(r, ids[..|ids| - 1]);
      assert ids[|ids| - 1] in ids;
    }
  }

  lemma {:induction false} DropStaleKept(r: Record<ShareConfig>, keys: seq<string>, ids: seq<string>)
    requires forall k :: k in keys ==> k in ids
    ensures DropStale(r, keys, ids) == r
  {
    if keys != [] {
      DropStaleKept(r, keys[..|keys| - 1], ids);
      assert keys[|keys| - 1] in keys;
    }
  }

  /** Reconciling settings that are already reconciled changes nothing. */
  lemma ReconciledIdempotent(previous: Record<ShareConfig>, ids: seq<string>)
    requires UniqueKeys(previous)
    ensures Reconciled(Reconciled(previous, ids), ids) == Reconciled(previous, ids)
  {
    var r := Reconciled(previous, ids);
    ReconciledSpec(previous, ids);
    AddMissingPresent(r, ids);
    forall k | k in Keys(r) ensures k in ids {
      var i :| 0 <= i < |Keys(r)| && Keys(r)[i] == k;
      assert HasKey(r, r[i].0);
    }
    DropStaleKept(r, Keys(r), ids);
  }

  /** `setQuizVisibility`: public keeps an existing token (or takes `freshToken`), private drops it. */
  function WithVisibility(settings: Record<ShareConfig>, quizId: string, isPublic: bool, freshToken: string): (r: Record<ShareConfig>)
    ensures isPublic ==> Get(r, quizId).Some? && Get(r, quizId).value.isPublic
    ensures isPublic && Get(settings, quizId).Some? && Get(settings, quizId).value.shareToken.Some? ==>
      Get(r, quizId) == Some(ShareConfig(true, Get(settings, quizId).value.shareToken))
    ensures isPublic && (Get(settings, quizId).None? || Get(settings, quizId).value.shareToken.None?) ==>
      Get(r, quizId) == Some(ShareConfig(true, Some(freshToken)))
    ensures !isPublic ==> Get(r, quizId) == Some(PrivateShare)
    ensures forall k :: k != quizId ==> Get(r, k) == Get(settings, k)
    ensures UniqueKeys(settings) ==> UniqueKeys(r)
  {
    var current := Get(settings, quizId).GetOr(PrivateShare);
    var token := if isPublic then (if current.shareToken.Some? then current.shareToken else Some(freshToken)) else None;
    Put(settings, quizId, ShareConfig(isPublic, token))
  }

  /** Making a quiz public twice keeps the token of the first time. */
  lemma WithVisibilityTokenStable(settings: Record<ShareConfig>, quizId: string, t1: string, t2: string)
    ensures Get(WithVisibility(WithVisibility(settings, quizId, true, t1), quizId, true, t2), quizId) ==
            Get(WithVisibility(settings, quizId, true, t1), quizId)
  {
  }

  /** `${origin}/quiz?id=${quizId}&invite=${token}`. */
  function ShareLink(origin: string, quizId: string, token: string): string {
    origin + "/quiz?id=" + quizId + "&invite=" + token
  }

  // ---------------------------------------------------------------------------
  // Attempts.

  function WithoutAttempt(h: seq<Attempt>, id: string): (r: seq<Attempt>)
    ensures forall a :: a in r <==> a in h && a.id != id
    ensures |r| <= |h|
  {
    if h == [] then []
    else if h[0].id == id then WithoutAttempt(h[1..], id)
    else [h[0]] + WithoutAttempt(h[1..], id)
  }

  predicate UniqueAttemptIds(h: seq<Attempt>) {
    forall i, j :: 0 <= i < j < |h| ==> h[i].id != h[j].id
  }

  lemma {:induction false} WithoutAttemptUnique(h: seq<Attempt>, id: string)
    requires UniqueAttemptIds(h)
    ensures UniqueAttemptIds(WithoutAttempt(h, id))
  {
    if h != [] {
      WithoutAttemptUnique(h[1..], id);
      var rest := WithoutAttempt(h[1..], id);
      forall j | 0 <= j < |rest| ensures rest[j].id != h[0].id {
        assert rest[j] in h[1..];
        var k :| 0 <= k < |h[1..]| && h[1..][k] == rest[j];
        assert h[k + 1] == rest[j];
      }
    }
  }

  /** `[attempt, ...previous.filter((entry) => entry.id !== attempt.id)].slice(0, 50)`. */
  function NextHistory(h: seq<Attempt>, a: Attempt): (r: seq<Attempt>)
    ensures 1 <= |r| <= HistoryLimit
    ensures r[0] == a
    ensures forall i :: 1 <= i < |r| ==> r[i].id != a.id && r[i] in h
  {
    var next := [a] + WithoutAttempt(h, a.id);
    var r := Take(next, HistoryLimit);
    assert forall i :: 1 <= i < |r| ==> r[i] == next[i] && next[i] in WithoutAttempt(h, a.id);
    r
  }

  /**
   * The new attempt heads the history, no two entries share an id, and while the limit is
   * not reached every older attempt with another id is kept.
   */
  lemma NextHistoryProperties(h: seq<Attempt>, a: Attempt)
    requires UniqueAttemptIds(h)
    ensures UniqueAttemptIds(NextHistory(h, a))
    ensures |WithoutAttempt(h, a.id)| < HistoryLimit ==> forall b :: b in h && b.id != a.id ==> b in NextHistory(h, a)
  {
    var rest := WithoutAttempt(h, a.id);
    WithoutAttemptUnique(h, a.id);
    var r := NextHistory(h, a);
    forall i, j | 0 <= i < j < |r| ensures r[i].id != r[j].id {
      if i > 0 {
        assert r[i] == rest[i - 1] && r[j] == rest[j - 1];
      }
    }
    if |rest| < HistoryLimit {
      assert r == [a] + rest;
    }
  }

  /** `attemptHistory.filter((attempt) => attempt.quizId === quizId)`. */
  function AttemptsFor(history: seq<Attempt>, quizId: string): (r: seq<Attempt>)
    ensures |r| <= |history|
    ensures forall a :: a in r ==> a in history && a.quizId == quizId
    ensures forall a :: a in history && a.quizId == quizId ==> a in r
  {
    if history == [] then []
    else if history[0].quizId == quizId then [history[0]] + AttemptsFor(history[1..], quizId)
    else AttemptsFor(history[1..], quizId)
  }

  /** `Participant ${n + 1}`. */
  function ParticipantLabel(previousAttempts: nat): string {
    "Participant " + NatStr(previousAttempts + 1)
  }

  /** The duration recorded for a timed-out question with a (truthy) time limit. */
  function TimedOutDuration(q: Question, responses: Record<Response>): Option<int> {
    var r := Get(responses, q.id);
    if r.Some? && r.value.timedOut == Some(true) && q.timeLimit.Some? && q.timeLimit.value != 0
    then Some(q.timeLimit.value) else None
  }

  /** The `durations` record after the `forEach` over `qs`. */
  function FillDurations(d: Record<int>, qs: seq<Question>, responses: Record<Response>): (r: Record<int>)
    ensures UniqueKeys(d) ==> UniqueKeys(r)
    ensures forall k :: HasKey(d, k) ==> Get(r, k) == Get(d, k)
  {
    if qs == [] then d
    else
      var prev := FillDurations(d, qs[..|qs| - 1], responses);
      var q := qs[|qs| - 1];
      if HasKey(prev, q.id) then prev
      else match TimedOutDuration(q, responses)
        case Some(t) => Put(prev, q.id, t)
        case None => prev
  }

  /** A key that no question has is left as it was. */
  lemma {:induction false} FillDurationsOther(d: Record<int>, qs: seq<Question>, responses: Record<Response>, k: string)
    requires forall i :: 0 <= i < |qs| ==> qs[i].id != k
    ensures Get(FillDurations(d, qs, responses), k) == Get(d, k)
  {
    if qs != [] {
      FillDurationsOther(d, qs[..|qs| - 1], responses, k);
      assert qs[|qs| - 1].id != k;
    }
  }

  /** A question without a measured duration gets the time limit exactly when it timed out. */
  lemma {:induction false} FillDurationsAt(d: Record<int>, qs: seq<Question>, responses: Record<Response>, i: nat)
    requires forall i, j :: 0 <= i < j < |qs| ==> qs[i].id != qs[j].id
    requires i < |qs| && !HasKey(d, qs[i].id)
    ensures Get(FillDurations(d, qs, responses), qs[i].id) == TimedOutDuration(qs[i], responses)
  {
    var init := qs[..|qs| - 1];
    var q := qs[|qs| - 1];
    if i == |qs| - 1 {
      FillDurationsOther(d, init, responses, q.id);
    } else {
      assert init[i] == qs[i];
      FillDurationsAt(d, init, responses, i);
      assert qs[i].id != q.id;
    }
  }

  /**
   * For a quiz whose question ids are distinct: a measured duration is kept, a missing
   * one becomes the time limit exactly when the question timed out, and no other key
   * is added.
   */
  lemma FillDurationsSpec(d: Record<int>, qs: seq<Question>, responses: Record<Response>)
    requires forall i, j :: 0 <= i < j < |qs| ==> qs[i].id != qs[j].id
    ensures forall i :: 0 <= i < |qs| && !HasKey(d, qs[i].id) ==>
      Get(FillDurations(d, qs, responses), qs[i].id) == TimedOutDuration(qs[i], responses)
    ensures forall k :: (forall i :: 0 <= i < |qs| ==> qs[i].id != k) ==> Get(FillDurations(d, qs, responses), k) == Get(d, k)
  {
    forall i | 0 <= i < |qs| && !HasKey(d, qs[i].id)
      ensures Get(FillDurations(d, qs, responses), qs[i].id) == TimedOutDuration(qs[i], responses)
    {
      FillDurationsAt(d, qs, responses, i);
    }
    forall k | forall i :: 0 <= i < |qs| ==> qs[i].id != k
      ensures Get(FillDurations(d, qs, responses), k) == Get(d, k)
    {
      FillDurationsOther(d, qs, responses, k);
    }
  }

  /** `Object.values(allResponses).filter((r) => r.isCorrect).map((r) => r.questionId)`. */
  function CorrectQuestionIds(rs: seq<Response>): (ids: seq<string>)
    ensures |ids| <= |rs|
  {
    if rs == [] then [] else (if rs[0].isCorrect then [rs[0].questionId] else []) + CorrectQuestionIds(rs[1..])
  }

  /** The same with `!r.isCorrect`. */
  function IncorrectQuestionIds(rs: seq<Response>): (ids: seq<string>)
    ensures |ids| <= |rs|
  {
    if rs == [] then [] else (if rs[0].isCorrect then [] else [rs[0].questionId]) + IncorrectQuestionIds(rs[1..])
  }

  /** A question is listed as correct exactly when one of its responses is graded correct. */
  lemma {:induction false} CorrectQuestionIdsMembers(rs: seq<Response>, qid: string)
    ensures qid in CorrectQuestionIds(rs) <==> exists i | 0 <= i < |rs| :: rs[i].questionId == qid && rs[i].isCorrect
  {
    if rs != [] {
      CorrectQuestionIdsMembers(rs[1..], qid);
      if exists i | 0 <= i < |rs| :: rs[i].questionId == qid && rs[i].isCorrect {
        var i :| 0 <= i < |rs| && rs[i].questionId == qid && rs[i].isCorrect;
        if i > 0 {
          assert rs[1..][i - 1] == rs[i];
        }
      }
      if exists i | 0 <= i < |rs| - 1 :: rs[1..][i].questionId == qid && rs[1..][i].isCorrect {
        var i :| 0 <= i < |rs| - 1 && rs[1..][i].questionId == qid && rs[1..][i].isCorrect;
        assert rs[i + 1] == rs[1..][i];
      }
    }
  }

  /** A question is listed as incorrect exactly when one of its responses is graded incorrect. */
  lemma {:induction false} IncorrectQuestionIdsMembers(rs: seq<Response>, qid: string)
    ensures qid in IncorrectQuestionIds(rs) <==> exists i | 0 <= i < |rs| :: rs[i].questionId == qid && !rs[i].isCorrect
  {
    if rs != [] {
      IncorrectQuestionIdsMembers(rs[1..], qid);
      if exists i | 0 <= i < |rs| :: rs[i].questionId == qid && !rs[i].isCorrect {
        var i :| 0 <= i < |rs| && rs[i].questionId == qid && !rs[i].isCorrect;
        if i > 0 {
          assert rs[1..][i - 1] == rs[i];
        }
      }
      if exists i | 0 <= i < |rs| - 1 :: rs[1..][i].questionId == qid && !rs[1..][i].isCorrect {
        var i :| 0 <= i < |rs| - 1 && rs[1..][i].questionId == qid && !rs[1..][i].isCorrect;
        assert rs[i + 1] == rs[1..][i];
      }
    }
  }

  function ResponseQuestionIds(rs: seq<Response>): (ids: seq<string>)
    ensures |ids| == |rs| && forall i :: 0 <= i < |rs| ==> ids[i] == rs[i].questionId
  {
    seq(|rs|, i requires 0 <= i < |rs| => rs[i].questionId)
  }

  /** Every response is counted once, as correct or as incorrect. */
  lemma {:induction false} CorrectIncorrectPartition(rs: seq<Response>)
    ensures multiset(CorrectQuestionIds(rs)) + multiset(IncorrectQuestionIds(rs)) == multiset(ResponseQuestionIds(rs))
    ensures |CorrectQuestionIds(rs)| + |IncorrectQuestionIds(rs)| == |rs|
  {
    if rs != [] {
      CorrectIncorrectPartition(rs[1..]);
      assert ResponseQuestionIds(rs) == [rs[0].questionId] + ResponseQuestionIds(rs[1..]);
    }
  }

  /**
   * The attempt `finalizeAttempt` records; `score` is the value from before the final answer
   * and `durations` the filled copy of the durations from before it.
   */
  function MakeAttempt(quiz: Quiz, allResponses: Record<Response>, score: int, durations: Record<int>,
                       sessionStartedAt: Option<int>, sessionId: Option<string>, history: seq<Attempt>,
                       now: int, freshAttemptId: string): Attempt
  {
    var startedAt := sessionStartedAt.GetOr(now);
    Attempt(sessionId.GetOr(freshAttemptId), ParticipantLabel(|AttemptsFor(history, quiz.id)|), quiz.id, quiz.def.title,
      score, |quiz.def.questions|, startedAt, now, now - startedAt, durations,
      CorrectQuestionIds(Values(allResponses)), IncorrectQuestionIds(Values(allResponses)))
  }

  // ---------------------------------------------------------------------------
  // Scores and indices.

  /** `Object.values(responses).reduce((acc, r) => acc + r.earnedPoints, 0)`. */
  function EarnedTotal(r: Record<Response>): int {
    if r == [] then 0 else r[0].1.earnedPoints + EarnedTotal(r[1..])
  }

  /** Storing a response under a key replaces that key's points and keeps every other response's. */
  lemma {:induction false} EarnedTotalPut(r: Record<Response>, k: string, v: Response)
    requires UniqueKeys(r)
    ensures EarnedTotal(Put(r, k, v)) ==
      EarnedTotal(r) - (if Get(r, k).Some? then Get(r, k).value.earnedPoints else 0) + v.earnedPoints
  {
    if r != [] {
      HeadKeyNotInTail(r);
      if r[0].0 == k {
        assert Put(r, k, v) == [(k, v)] + r[1..];
        assert ([(k, v)] + r[1..])[1..] == r[1..];
      } else {
        assert UniqueKeys(r[1..]);
        EarnedTotalPut(r[1..], k, v);
        var tail := Put(r[1..], k, v);
        assert Put(r, k, v) == [r[0]] + tail;
        assert ([r[0]] + tail)[1..] == tail;
      }
    }
  }

  /** `Math.min(index + 1, Math.max(0, total - 1))`. */
  function NextIndex(index: int, total: nat): (r: int)
    ensures r <= Max(0, total - 1)
    ensures index >= -1 ==> r >= 0
    ensures index < Max(0, total - 1) ==> r == index + 1
  {
    Min(index + 1, Max(0, total - 1))
  }

  /** Advancing from the last question stays there. */
  lemma NextIndexIdempotentAtEnd(index: int, total: nat)
    requires index >= Max(0, total - 1)
    ensures NextIndex(index, total) == Max(0, total - 1)
    ensures NextIndex(NextIndex(index, total), total) == NextIndex(index, total)
  {
  }

  /** The question-order effect: keep the stored order if it still lists as many known ids, else the quiz order. */
  function SyncedOrder(previous: seq<string>, ids: seq<string>): (order: seq<string>)
    ensures |order| == |ids|
    ensures forall i :: 0 <= i < |order| ==> order[i] in ids
    ensures (forall i :: 0 <= i < |previous| ==> previous[i] in ids) && |previous| == |ids| ==> order == previous
    ensures |FilterIn(previous, ids)| != |ids| ==> order == ids
  {
    var filtered := FilterIn(previous, ids);
    if |filtered| == |ids| then filtered else ids
  }

  /** Re-running the effect on the order it produced keeps that order. */
  lemma SyncedOrderIdempotent(previous: seq<string>, ids: seq<string>)
    ensures SyncedOrder(SyncedOrder(previous, ids), ids) == SyncedOrder(previous, ids)
  {
  }

  /** The stored ids that are still known, in their stored order. */
  function FilterIn(s: seq<string>, ids: seq<string>): (r: seq<string>)
    ensures forall x :: x in r <==> x in s && x in ids
    ensures |r| <= |s|
    ensures (forall i :: 0 <= i < |s| ==> s[i] in ids) ==> r == s
  {
    if s == [] then [] else (if s[0] in ids then [s[0]] else []) + FilterIn(s[1..], ids)
  }

  // ---------------------------------------------------------------------------
  // Custom quizzes.

  /** `Omit<QuizDefinition, "id"> & { id?: string }`. */
  datatype QuizDraft = QuizDraft(id: Option<string>, def: QuizDefinition)

  /**
   * `Partial<QuizDefinition>`: the outer `Option` says whether the key is present. For an
   * optional field the inner `Option` is its value, so a key present with `undefined` is
   * `Some(None)` and clears the field. The required fields carry a plain value; `tags`
   * keeps its old value when the update leaves it undefined.
   */
  datatype QuizPatch = QuizPatch(
    id: Option<string>,
    title: Option<string>,
    description: Option<string>,
    duration: Option<Option<int>>,
    level: Option<Option<int>>,
    difficulty: Option<Option<Difficulty>>,
    focusArea: Option<Option<string>>,
    recommendedFor: Option<Option<string>>,
    accessCode: Option<Option<string>>,
    joinLink: Option<Option<string>>,
    creatorId: Option<Option<string>>,
    communityLikes: Option<Option<int>>,
    coverImage: Option<Option<string>>,
    tags: Option<seq<string>>,
    category: Option<Option<string>>,
    questions: Option<seq<Question>>)

  const EmptyPatch := QuizPatch(None, None, None, None, None, None, None, None, None, None, None, None, None, None, None, None)

  /** `a ?? b` for optional fields. */
  function OrElse<T>(a: Option<T>, b: Option<T>): (r: Option<T>)
    ensures a.Some? ==> r == a
    ensures a.None? ==> r == b
  {
    if a.Some? then a else b
  }

  /** The id `createQuiz` gives: the trimmed draft id, or a fresh one when that is blank. */
  function DraftId(draft: QuizDraft, freshId: string): (id: string)
    ensures draft.id.Some? && Trim(draft.id.value) != "" ==> id == Trim(draft.id.value)
    ensures draft.id.None? || Trim(draft.id.value) == "" ==> id == freshId
  {
    if draft.id.Some? && Trim(draft.id.value) != "" then Trim(draft.id.value) else freshId
  }

  /**
   * A created quiz never gets a blank id or one with surrounding white space, provided
   * the generated id has neither; and a draft passing its own id back keeps it.
   */
  lemma DraftIdNotBlank(draft: QuizDraft, freshId: string)
    requires freshId != "" && Trim(freshId) == freshId
    ensures DraftId(draft, freshId) != "" && Trim(DraftId(draft, freshId)) == DraftId(draft, freshId)
    ensures draft.id.Some? && draft.id.value != "" && Trim(draft.id.value) == draft.id.value ==>
      DraftId(draft, freshId) == draft.id.value
  {
    if draft.id.Some? && Trim(draft.id.value) != "" {
      TrimIdempotent(draft.id.value);
    }
  }

  /** The quiz `createQuiz` builds. */
  function NewCustomQuiz(draft: QuizDraft, userId: Option<string>, freshId: string, now: int): Quiz {
    var d := draft.def;
    Quiz(DraftId(draft, freshId),
      d.(creatorId := OrElse(d.creatorId, userId),
         communityLikes := Some(d.communityLikes.GetOr(0)),
         tags := Some(d.tags.GetOr([]))),
      Custom, now, now)
  }

  /** `[quiz, ...previous.filter((item) => item.id !== quiz.id)]`. */
  function PrependReplacing(qs: seq<Quiz>, q: Quiz): (r: seq<Quiz>)
    ensures 1 <= |r| <= |qs| + 1 && r[0] == q
    ensures forall x :: x in r <==> x == q || (x in qs && x.id != q.id)
  {
    [q] + WithoutQuiz(qs, q.id)
  }

  predicate UniqueQuizIds(qs: seq<Quiz>) {
    forall i, j :: 0 <= i < j < |qs| ==> qs[i].id != qs[j].id
  }

  lemma {:induction false} WithoutQuizUnique(qs: seq<Quiz>, id: string)
    requires UniqueQuizIds(qs)
    ensures UniqueQuizIds(WithoutQuiz(qs, id))
  {
    if qs != [] {
      WithoutQuizUnique(qs[1..], id);
      var rest := WithoutQuiz(qs[1..], id);
      forall j | 0 <= j < |rest| ensures rest[j].id != qs[0].id {
        assert rest[j] in qs[1..];
        var k :| 0 <= k < |qs[1..]| && qs[1..][k] == rest[j];
        assert qs[k + 1] == rest[j];
      }
    }
  }

  /** Creating keeps custom ids distinct, and the created quiz is the one found under its id. */
  lemma PrependReplacingUnique(qs: seq<Quiz>, q: Quiz)
    requires UniqueQuizIds(qs)
    ensures UniqueQuizIds(PrependReplacing(qs, q))
    ensures FindQuiz(PrependReplacing(qs, q), q.id) == Some(q)
  {
    WithoutQuizUnique(qs, q.id);
    var r := PrependReplacing(qs, q);
    forall j | 1 <= j < |r| ensures r[j].id != q.id {
      assert r[j] in WithoutQuiz(qs, q.id);
    }
  }

  /** Deleting a quiz just created leaves the list as deleting it would have before. */
  lemma {:induction false} DeleteAfterCreate(qs: seq<Quiz>, q: Quiz)
    ensures WithoutQuiz(PrependReplacing(qs, q), q.id) == WithoutQuiz(qs, q.id)
  {
    var r := PrependReplacing(qs, q);
    assert r[1..] == WithoutQuiz(qs, q.id);
    WithoutQuizTwice(qs, q.id);
  }

  lemma {:induction false} WithoutQuizTwice(qs: seq<Quiz>, id: string)
    ensures WithoutQuiz(WithoutQuiz(qs, id), id) == WithoutQuiz(qs, id)
  {
    if qs != [] {
      WithoutQuizTwice(qs[1..], id);
      if qs[0].id != id {
        var r := [qs[0]] + WithoutQuiz(qs[1..], id);
        assert r[1..] == WithoutQuiz(qs[1..], id);
      }
    }
  }

  /** `{ ...quiz, ...update, tags: update.tags ?? quiz.tags, updatedAt: now }`. */
  function ApplyPatch(q: Quiz, p: QuizPatch, now: int): Quiz {
    var d := q.def;
    Quiz(p.id.GetOr(q.id),
      QuizDefinition(
        p.title.GetOr(d.title), p.description.GetOr(d.description),
        p.duration.GetOr(d.duration), p.level.GetOr(d.level), p.difficulty.GetOr(d.difficulty),
        p.focusArea.GetOr(d.focusArea), p.recommendedFor.GetOr(d.recommendedFor),
        p.accessCode.GetOr(d.accessCode), p.joinLink.GetOr(d.joinLink), p.creatorId.GetOr(d.creatorId),
        p.communityLikes.GetOr(d.communityLikes), p.coverImage.GetOr(d.coverImage),
        OrElse(p.tags, d.tags), p.category.GetOr(d.category), p.questions.GetOr(d.questions)),
      q.origin, q.createdAt, now)
  }

  /**
   * An empty update only touches `updatedAt`; applying an update twice is applying it once;
   * a key present with `undefined` clears its field, while undefined `tags` keep the old tags.
   */
  lemma ApplyPatchLaws(q: Quiz, p: QuizPatch, now: int)
    ensures ApplyPatch(q, EmptyPatch, now) == q.(updatedAt := now)
    ensures ApplyPatch(ApplyPatch(q, p, now), p, now) == ApplyPatch(q, p, now)
    ensures ApplyPatch(q, p, now).origin == q.origin && ApplyPatch(q, p, now).createdAt == q.createdAt
    ensures p.category == Some(None) ==> ApplyPatch(q, p, now).def.category.None?
    ensures p.coverImage == Some(None) ==> ApplyPatch(q, p, now).def.coverImage.None?
    ensures p.difficulty == Some(None) ==> ApplyPatch(q, p, now).def.difficulty.None?
    ensures p.level == Some(None) ==> ApplyPatch(q, p, now).def.level.None?
    ensures p.duration == Some(None) ==> ApplyPatch(q, p, now).def.duration.None?
    ensures p.focusArea == Some(None) ==> ApplyPatch(q, p, now).def.focusArea.None?
    ensures p.recommendedFor == Some(None) ==> ApplyPatch(q, p, now).def.recommendedFor.None?
    ensures p.tags.None? ==> ApplyPatch(q, p, now).def.tags == q.def.tags
  {
  }

  /**
   * The update the editor page passes to `updateQuiz`: the builder's submitted object,
   * whose keys are the id, title, description, cover image, category, tags, difficulty,
   * level, duration, focus area, audience and questions, blank ones as `undefined`.
   */
  function FormPatch(draft: QuizDraft): (p: QuizPatch)
    ensures p.accessCode.None? && p.joinLink.None? && p.creatorId.None? && p.communityLikes.None?
  {
    var d := draft.def;
    QuizPatch(draft.id, Some(d.title), Some(d.description), Some(d.duration), Some(d.level), Some(d.difficulty),
      Some(d.focusArea), Some(d.recommendedFor), None, None, None, None, Some(d.coverImage), d.tags,
      Some(d.category), Some(d.questions))
  }

  /**
   * Saving the editor form: every field the form sends is taken from it, a blank one
   * clearing the old value; the owner, likes, access code and link stay; undefined tags keep
   * the old tags.
   */
  lemma EditWithForm(q: Quiz, draft: QuizDraft, now: int)
    ensures var r := ApplyPatch(q, FormPatch(draft), now);
      r.id == draft.id.GetOr(q.id) && r.origin == q.origin && r.createdAt == q.createdAt && r.updatedAt == now &&
      r.def.title == draft.def.title && r.def.description == draft.def.description &&
      r.def.duration == draft.def.duration && r.def.level == draft.def.level &&
      r.def.difficulty == draft.def.difficulty && r.def.focusArea == draft.def.focusArea &&
      r.def.recommendedFor == draft.def.recommendedFor && r.def.coverImage == draft.def.coverImage &&
      r.def.category == draft.def.category && r.def.questions == draft.def.questions &&
      r.def.tags == OrElse(draft.def.tags, q.def.tags) &&
      r.def.creatorId == q.def.creatorId && r.def.communityLikes == q.def.communityLikes &&
      r.def.accessCode == q.def.accessCode && r.def.joinLink == q.def.joinLink
  {
  }

  /**
   * The editor page saving a built-in quiz, as written: the quiz is duplicated under
   * `freshId`, then the copy is updated with the form's object, whose `id` is the edited
   * quiz's. The new custom list is returned.
   */
  function SaveCopyAsWritten(customs: seq<Quiz>, source: Quiz, form: QuizDefinition, userId: Option<string>,
                             freshId: string, now: int): seq<Quiz>
  {
    PatchAll([Duplicate(source, userId, freshId, now)] + customs, freshId, FormPatch(QuizDraft(Some(source.id), form)), now)
  }

  /**
   * As written, the copy is renamed to the built-in quiz's id, so the page's redirect to the
   * fresh id finds nothing while two catalogue entries share the built-in id.
   */
  lemma SaveCopyRenames(customs: seq<Quiz>, source: Quiz, form: QuizDefinition, userId: Option<string>,
                        freshId: string, now: int)
    requires freshId != source.id && forall i :: 0 <= i < |customs| ==> customs[i].id != freshId
    ensures var r := SaveCopyAsWritten(customs, source, form, userId, freshId, now);
      r[0].id == source.id && FindQuiz(r, freshId).None?
  {
    var r := SaveCopyAsWritten(customs, source, form, userId, freshId, now);
    assert forall i :: 1 <= i < |r| ==> r[i] == customs[i - 1];
  }

  /** The save as intended: the copy keeps its fresh id and takes the form's content. */
  function SaveCopy(customs: seq<Quiz>, source: Quiz, form: QuizDefinition, userId: Option<string>,
                    freshId: string, now: int): seq<Quiz>
  {
    PatchAll([Duplicate(source, userId, freshId, now)] + customs, freshId, FormPatch(QuizDraft(None, form)), now)
  }

  /**
   * As intended, the redirect finds the copy under the fresh id; it carries the form's fields,
   * the copy's owner and zero likes, and the other custom quizzes are untouched.
   */
  lemma SaveCopyKeepsId(customs: seq<Quiz>, source: Quiz, form: QuizDefinition, userId: Option<string>,
                        freshId: string, now: int)
    requires forall i :: 0 <= i < |customs| ==> customs[i].id != freshId
    ensures var r := SaveCopy(customs, source, form, userId, freshId, now);
      && |r| == |customs| + 1 && r[1..] == customs
      && FindQuiz(r, freshId) == Some(r[0])
      && r[0].id == freshId && r[0].origin == Custom && r[0].createdAt == now
      && r[0].def.title == form.title && r[0].def.questions == form.questions && r[0].def.category == form.category
      && r[0].def.creatorId == (if userId.Some? then userId else source.def.creatorId)
      && r[0].def.communityLikes == Some(0)
  {
    var r := SaveCopy(customs, source, form, userId, freshId, now);
    assert forall i :: 1 <= i < |r| ==> r[i] == customs[i - 1];
    assert r[1..] == customs;
  }

  /** `previous.map(...)`: every quiz with the id is patched, the others are kept. */
  function PatchAll(qs: seq<Quiz>, quizId: string, p: QuizPatch, now: int): (r: seq<Quiz>)
    ensures |r| == |qs|
    ensures forall i :: 0 <= i < |qs| ==> r[i] == if qs[i].id == quizId then ApplyPatch(qs[i], p, now) else qs[i]
  {
    seq(|qs|, i requires 0 <= i < |qs| => if qs[i].id == quizId then ApplyPatch(qs[i], p, now) else qs[i])
  }

  /**
   * Updating a quiz leaves every other quiz as it was, keeps the list's ids when the update
   * does not rename, keeps each updated quiz's origin and creation time, and stamps it `now`.
   */
  lemma PatchAllEffect(qs: seq<Quiz>, quizId: string, p: QuizPatch, now: int)
    ensures forall i :: 0 <= i < |qs| && qs[i].id != quizId ==> PatchAll(qs, quizId, p, now)[i] == qs[i]
    ensures p.id.None? || p.id == Some(quizId) ==> QuizIds(PatchAll(qs, quizId, p, now)) == QuizIds(qs)
    ensures forall i :: 0 <= i < |qs| && qs[i].id == quizId ==>
      PatchAll(qs, quizId, p, now)[i].origin == qs[i].origin &&
      PatchAll(qs, quizId, p, now)[i].createdAt == qs[i].createdAt &&
      PatchAll(qs, quizId, p, now)[i].updatedAt == now
    ensures UniqueQuizIds(qs) && (p.id.None? || p.id == Some(quizId)) ==> UniqueQuizIds(PatchAll(qs, quizId, p, now))
  {
    var r := PatchAll(qs, quizId, p, now);
    if p.id.None? || p.id == Some(quizId) {
      assert forall i :: 0 <= i < |qs| ==> r[i].id == qs[i].id;
      assert QuizIds(r) == QuizIds(qs);
    }
  }

  /** The index of the last quiz with id `quizId`. */
  function LastQuizIndex(qs: seq<Quiz>, quizId: string): (r: Option<nat>)
    ensures r.None? <==> forall i :: 0 <= i < |qs| ==> qs[i].id != quizId
    ensures r.Some? ==> r.value < |qs| && qs[r.value].id == quizId && forall j :: r.value < j < |qs| ==> qs[j].id != quizId
  {
    if qs == [] then None
    else if qs[|qs| - 1].id == quizId then Some(|qs| - 1)
    else
      var r := LastQuizIndex(qs[..|qs| - 1], quizId);
      assert forall i :: 0 <= i < |qs| - 1 ==> qs[..|qs| - 1][i] == qs[i];
      r
  }

  /**
   * The value `updatedQuiz` holds after the map: it is overwritten at every match, so it
   * is the patched last quiz with the id, and it is the entry of the patched list there.
   */
  function LastPatched(qs: seq<Quiz>, quizId: string, p: QuizPatch, now: int): (r: Option<Quiz>)
    ensures r.None? <==> forall i :: 0 <= i < |qs| ==> qs[i].id != quizId
    ensures r.Some? ==> LastQuizIndex(qs, quizId).Some?
    ensures r.Some? ==> r.value == ApplyPatch(qs[LastQuizIndex(qs, quizId).value], p, now)
    ensures r.Some? ==> r.value == PatchAll(qs, quizId, p, now)[LastQuizIndex(qs, quizId).value]
  {
    match LastQuizIndex(qs, quizId)
    case None => None
    case Some(i) => Some(ApplyPatch(qs[i], p, now))
  }

  /** The copy `duplicateQuiz` makes. */
  function Duplicate(source: Quiz, userId: Option<string>, freshId: string, now: int): (q: Quiz)
    ensures q.def.questions == source.def.questions && q.def.description == source.def.description
    ensures q.def.title == source.def.title + " (copie)"
    ensures q.id == freshId && q.origin == Custom && q.createdAt == now && q.updatedAt == now
    ensures q.def.creatorId == (if userId.Some? then userId else source.def.creatorId)
    ensures q.def.communityLikes == Some(0)
    ensures q.def.(title := source.def.title, creatorId := source.def.creatorId,
                   communityLikes := source.def.communityLikes) == source.def
  {
    Quiz(freshId,
      source.def.(title := source.def.title + " (copie)",
                  creatorId := OrElse(userId, source.def.creatorId),
                  communityLikes := Some(0)),
      Custom, now, now)
  }

  /** Every `useState` value of the provider, for stating what a method leaves alone. */
  datatype ProviderState = ProviderState(
    customQuizzes: seq<Quiz>,
    currentQuizId: string,
    currentQuestionIndex: int,
    questionOrder: seq<string>,
    responses: Record<Response>,
    hasStarted: bool,
    shareSettings: Record<ShareConfig>,
    questionDurations: Record<int>,
    sessionId: Option<string>,
    sessionStartedAt: Option<int>,
    sessionCompletedAt: Option<int>,
    sessionDurationMs: Option<int>,
    attemptHistory: seq<Attempt>)

  /** The records are JavaScript objects, so no key occurs twice. */
  predicate ValidState(st: ProviderState) {
    UniqueKeys(st.responses) && UniqueKeys(st.shareSettings) && UniqueKeys(st.questionDurations)
  }

  /** `recordQuestionDuration`: a negative duration is ignored. */
  function WithDuration(st: ProviderState, questionId: string, seconds: int): (r: ProviderState)
    ensures r.responses == st.responses && r.shareSettings == st.shareSettings
    ensures r.sessionStartedAt == st.sessionStartedAt && r.sessionCompletedAt == st.sessionCompletedAt
    ensures r.attemptHistory == st.attemptHistory && r.sessionId == st.sessionId
    ensures r.questionDurations == if seconds < 0 then st.questionDurations else Put(st.questionDurations, questionId, seconds)
  {
    if seconds < 0 then st else st.(questionDurations := Put(st.questionDurations, questionId, seconds))
  }

  /**
   * `finalizeAttempt`: the session is closed and the attempt heads the history. `score`
   * and `durations` are the values the callback closed over.
   */
  function Finalized(st: ProviderState, quiz: Quiz, allResponses: Record<Response>, score: int,
                     durations: Record<int>, now: int, freshAttemptId: string): (r: ProviderState)
    ensures r.responses == st.responses && r.shareSettings == st.shareSettings
    ensures r.questionDurations == st.questionDurations && r.sessionStartedAt == st.sessionStartedAt
    ensures r.sessionCompletedAt == Some(now)
    ensures r.attemptHistory == NextHistory(st.attemptHistory,
      MakeAttempt(quiz, allResponses, score, FillDurations(durations, quiz.def.questions, allResponses),
        st.sessionStartedAt, st.sessionId, st.attemptHistory, now, freshAttemptId))
  {
    st.(sessionCompletedAt := Some(now),
        sessionDurationMs := Some(now - st.sessionStartedAt.GetOr(now)),
        attemptHistory := NextHistory(st.attemptHistory,
          MakeAttempt(quiz, allResponses, score, FillDurations(durations, quiz.def.questions, allResponses),
            st.sessionStartedAt, st.sessionId, st.attemptHistory, now, freshAttemptId)))
  }

  /** The `setResponses` updater of `submitAnswer`: the response is stored, and a completed quiz finalised. */
  function Stored(st: ProviderState, quiz: Quiz, questionId: string, response: Response, score: int,
                  durations: Record<int>, now: int, freshAttemptId: string): (r: ProviderState)
    ensures r.responses == Put(st.responses, questionId, response) && r.shareSettings == st.shareSettings
    ensures r.questionDurations == st.questionDurations && r.sessionStartedAt == st.sessionStartedAt
    ensures var next := Put(st.responses, questionId, response);
      |next| == |quiz.def.questions| ==>
        r.sessionCompletedAt == Some(now) &&
        r.attemptHistory == NextHistory(st.attemptHistory,
          MakeAttempt(quiz, next, score, FillDurations(durations, quiz.def.questions, next),
            st.sessionStartedAt, st.sessionId, st.attemptHistory, now, freshAttemptId))
    ensures |Put(st.responses, questionId, response)| != |quiz.def.questions| ==>
      r.sessionCompletedAt == st.sessionCompletedAt && r.attemptHistory == st.attemptHistory
  {
    var next := Put(st.responses, questionId, response);
    if |next| == |quiz.def.questions|
    then Finalized(st.(responses := next), quiz, next, score, durations, now, freshAttemptId)
    else st.(responses := next)
  }

  /** The completed-quiz test of `submitAnswer`: as many responses as the quiz has questions. */
  predicate CompletesQuiz(st: ProviderState, quiz: Quiz, questionId: string, response: Response) {
    |Put(st.responses, questionId, response)| == |quiz.def.questions|
  }

  /** The time taken, when given, recorded clamped at zero. */
  function Timed(st: ProviderState, questionId: string, timeTaken: Option<int>): (r: ProviderState)
    ensures r.responses == st.responses && r.shareSettings == st.shareSettings && r.sessionId == st.sessionId
    ensures r.sessionStartedAt == st.sessionStartedAt && r.sessionCompletedAt == st.sessionCompletedAt
    ensures r.attemptHistory == st.attemptHistory
    ensures r.questionDurations ==
      if timeTaken.Some? && timeTaken.value >= 0 then Put(st.questionDurations, questionId, timeTaken.value)
      else if timeTaken.Some? then Put(st.questionDurations, questionId, 0)
      else st.questionDurations
  {
    if timeTaken.Some? then WithDuration(st, questionId, Max(0, timeTaken.value)) else st
  }

  /**
   * `submitAnswer` storing `response` for question `questionId` of `quiz`: the time taken
   * is recorded, the response is stored, a completed quiz is finalised with `score` and
   * the durations of the render before this answer, and a session without a (truthy)
   * start time gets one.
   */
  function SubmittedScoring(st: ProviderState, quiz: Quiz, questionId: string, response: Response,
                            timeTaken: Option<int>, now: int, freshAttemptId: string, score: int): (r: ProviderState)
    ensures r.responses == Put(st.responses, questionId, response) && r.shareSettings == st.shareSettings
    ensures r.questionDurations ==
      if timeTaken.Some? && timeTaken.value >= 0 then Put(st.questionDurations, questionId, timeTaken.value)
      else if timeTaken.Some? then Put(st.questionDurations, questionId, 0)
      else st.questionDurations
    ensures var next := Put(st.responses, questionId, response);
      CompletesQuiz(st, quiz, questionId, response) ==>
        r.sessionCompletedAt == Some(now) &&
        r.attemptHistory == NextHistory(st.attemptHistory,
          MakeAttempt(quiz, next, score, FillDurations(st.questionDurations, quiz.def.questions, next),
            st.sessionStartedAt, st.sessionId, st.attemptHistory, now, freshAttemptId))
    ensures !CompletesQuiz(st, quiz, questionId, response) ==>
      r.sessionCompletedAt == st.sessionCompletedAt && r.attemptHistory == st.attemptHistory
  {
    var timed := Timed(st, questionId, timeTaken);
    var finished := Stored(timed, quiz, questionId, response, score, st.questionDurations, now, freshAttemptId);
    if st.sessionStartedAt.None? || st.sessionStartedAt == Some(0) then finished.(sessionStartedAt := Some(now))
    else finished
  }

  /** `submitAnswer` as written: the attempt is scored with the responses from before this answer. */
  function SubmittedAsWritten(st: ProviderState, quiz: Quiz, questionId: string, response: Response,
                              timeTaken: Option<int>, now: int, freshAttemptId: string): ProviderState
  {
    SubmittedScoring(st, quiz, questionId, response, timeTaken, now, freshAttemptId, EarnedTotal(st.responses))
  }

  /** `submitAnswer` as intended: the attempt is scored with every response, this answer included. */
  function Submitted(st: ProviderState, quiz: Quiz, questionId: string, response: Response,
                     timeTaken: Option<int>, now: int, freshAttemptId: string): ProviderState
  {
    SubmittedScoring(st, quiz, questionId, response, timeTaken, now, freshAttemptId,
      EarnedTotal(Put(st.responses, questionId, response)))
  }

  /** Submitting is recording the duration, then storing the response, then starting the clock. */
  lemma SubmittedStored(st: ProviderState, quiz: Quiz, questionId: string, response: Response,
                        timeTaken: Option<int>, now: int, freshAttemptId: string)
    requires ValidState(st)
    ensures var timed := Timed(st, questionId, timeTaken);
      var stored := Stored(timed, quiz, questionId, response, EarnedTotal(Put(st.responses, questionId, response)),
                           st.questionDurations, now, freshAttemptId);
      var r := if st.sessionStartedAt.None? || st.sessionStartedAt == Some(0) then stored.(sessionStartedAt := Some(now)) else stored;
      Submitted(st, quiz, questionId, response, timeTaken, now, freshAttemptId) == r && ValidState(r)
  {
    var score := EarnedTotal(Put(st.responses, questionId, response));
    assert Submitted(st, quiz, questionId, response, timeTaken, now, freshAttemptId) ==
      SubmittedScoring(st, quiz, questionId, response, timeTaken, now, freshAttemptId, score);
    SubmittedScoringStored(st, quiz, questionId, response, timeTaken, now, freshAttemptId, score);
    SubmittedScoringValid(st, quiz, questionId, response, timeTaken, now, freshAttemptId, score);
  }

  lemma SubmittedScoringStored(st: ProviderState, quiz: Quiz, questionId: string, response: Response,
                               timeTaken: Option<int>, now: int, freshAttemptId: string, score: int)
    ensures var timed := Timed(st, questionId, timeTaken);
      var stored := Stored(timed, quiz, questionId, response, score, st.questionDurations, now, freshAttemptId);
      SubmittedScoring(st, quiz, questionId, response, timeTaken, now, freshAttemptId, score) ==
        if st.sessionStartedAt.None? || st.sessionStartedAt == Some(0) then stored.(sessionStartedAt := Some(now)) else stored
  {
  }

  /** Submitting keeps every record free of repeated keys. */
  lemma SubmittedValid(st: ProviderState, quiz: Quiz, questionId: string, response: Response,
                       timeTaken: Option<int>, now: int, freshAttemptId: string)
    requires ValidState(st)
    ensures ValidState(Submitted(st, quiz, questionId, response, timeTaken, now, freshAttemptId))
  {
    var score := EarnedTotal(Put(st.responses, questionId, response));
    SubmittedScoringValid(st, quiz, questionId, response, timeTaken, now, freshAttemptId, score);
    assert Submitted(st, quiz, questionId, response, timeTaken, now, freshAttemptId) ==
      SubmittedScoring(st, quiz, questionId, response, timeTaken, now, freshAttemptId, score);
  }

  lemma SubmittedScoringValid(st: ProviderState, quiz: Quiz, questionId: string, response: Response,
                              timeTaken: Option<int>, now: int, freshAttemptId: string, score: int)
    requires ValidState(st)
    ensures ValidState(SubmittedScoring(st, quiz, questionId, response, timeTaken, now, freshAttemptId, score))
  {
  }

  /**
   * The response is stored under the question id, every other response is kept, and the
   * score moves by the difference between the new and the replaced points.
   */
  lemma SubmittedResponses(st: ProviderState, quiz: Quiz, questionId: string, response: Response,
                           timeTaken: Option<int>, now: int, freshAttemptId: string)
    requires ValidState(st)
    ensures var r := Submitted(st, quiz, questionId, response, timeTaken, now, freshAttemptId);
      && Get(r.responses, questionId) == Some(response)
      && (forall k :: k != questionId ==> Get(r.responses, k) == Get(st.responses, k))
      && EarnedTotal(r.responses) == EarnedTotal(st.responses)
           - (if Get(st.responses, questionId).Some? then Get(st.responses, questionId).value.earnedPoints else 0)
           + response.earnedPoints
  {
    EarnedTotalPut(st.responses, questionId, response);
  }

  /** A time taken is stored, clamped at zero; without one the durations are unchanged. */
  lemma SubmittedDurations(st: ProviderState, quiz: Quiz, questionId: string, response: Response,
                           timeTaken: Option<int>, now: int, freshAttemptId: string)
    ensures var r := Submitted(st, quiz, questionId, response, timeTaken, now, freshAttemptId);
      && (timeTaken.Some? ==> Get(r.questionDurations, questionId) == Some(Max(0, timeTaken.value)))
      && (forall k :: k != questionId ==> Get(r.questionDurations, k) == Get(st.questionDurations, k))
      && (timeTaken.None? ==> r.questionDurations == st.questionDurations)
  {
  }

  /**
   * The answer that completes the quiz closes the session and puts the attempt at the head
   * of the history, scored with every stored response; any other answer leaves both alone.
   */
  lemma SubmittedFinalizes(st: ProviderState, quiz: Quiz, questionId: string, response: Response,
                           timeTaken: Option<int>, now: int, freshAttemptId: string)
    ensures var r := Submitted(st, quiz, questionId, response, timeTaken, now, freshAttemptId);
      && (CompletesQuiz(st, quiz, questionId, response) ==>
            && r.sessionCompletedAt == Some(now)
            && r.attemptHistory[0].quizId == quiz.id
            && r.attemptHistory[0].score == EarnedTotal(r.responses)
            && r.attemptHistory[0].totalQuestions == |quiz.def.questions|
            && r.attemptHistory[0].id == st.sessionId.GetOr(freshAttemptId)
            && r.attemptHistory[0].durationMs == now - st.sessionStartedAt.GetOr(now)
            && |r.attemptHistory[0].correctQuestionIds| + |r.attemptHistory[0].incorrectQuestionIds| == |quiz.def.questions|)
      && (!CompletesQuiz(st, quiz, questionId, response) ==>
            r.sessionCompletedAt == st.sessionCompletedAt && r.attemptHistory == st.attemptHistory)
  {
    CorrectIncorrectPartition(Values(Put(st.responses, questionId, response)));
  }

  /**
   * As written, the score the attempt records lags behind: finishing a one-question quiz
   * records a score of 0 whatever the answer earns.
   */
  lemma SubmittedScoreIsStale(st: ProviderState, quiz: Quiz, questionId: string, response: Response,
                              timeTaken: Option<int>, now: int, freshAttemptId: string)
    requires st.responses == [] && |quiz.def.questions| == 1
    ensures var r := SubmittedAsWritten(st, quiz, questionId, response, timeTaken, now, freshAttemptId);
      r.attemptHistory[0].score == 0 && EarnedTotal(r.responses) == response.earnedPoints
  {
    assert Put(st.responses, questionId, response) == [(questionId, response)];
  }

  /**
   * As intended, the recorded score is the total of every response: with one question it is
   * what that answer earned, and in general it adds the new points to the earlier ones.
   */
  lemma SubmittedScoreCounted(st: ProviderState, quiz: Quiz, questionId: string, response: Response,
                              timeTaken: Option<int>, now: int, freshAttemptId: string)
    requires ValidState(st) && CompletesQuiz(st, quiz, questionId, response)
    ensures var r := Submitted(st, quiz, questionId, response, timeTaken, now, freshAttemptId);
      r.attemptHistory[0].score == EarnedTotal(st.responses)
        - (if Get(st.responses, questionId).Some? then Get(st.responses, questionId).value.earnedPoints else 0)
        + response.earnedPoints
  {
    EarnedTotalPut(st.responses, questionId, response);
  }

  class QuizProvider {
    /** `STATIC_QUIZZES`; the application passes `StaticQuizzes()`. */
    const statics: seq<Quiz>
    /** The account store the provider calls back into. */
    const user: UserContext.UserStore

    var customQuizzes: seq<Quiz>
    var currentQuizId: string
    var currentQuestionIndex: int
    var questionOrder: seq<string>
    var responses: Record<Response>
    var hasStarted: bool
    var shareSettings: Record<ShareConfig>
    var questionDurations: Record<int>
    var sessionId: Option<string>
    var sessionStartedAt: Option<int>
    var sessionCompletedAt: Option<int>
    /** `sessionDurationSeconds` times 1000. */
    var sessionDurationMs: Option<int>
    var attemptHistory: seq<Attempt>

    function State(): ProviderState
      reads this
    {
      ProviderState(customQuizzes, currentQuizId, currentQuestionIndex, questionOrder, responses, hasStarted,
        shareSettings, questionDurations, sessionId, sessionStartedAt, sessionCompletedAt, sessionDurationMs,
        attemptHistory)
    }

    predicate Valid()
      reads this, user
    {
      ValidState(State()) && user.Valid()
    }

    constructor(statics: seq<Quiz>, user: UserContext.UserStore)
      requires user.Valid()
      ensures this.statics == statics && this.user == user
      ensures State() == ProviderState([], if statics == [] then "" else statics[0].id, 0, [], [], false, [], [],
        None, None, None, None, [])
      ensures Valid()
    {
      this.statics := statics;
      this.user := user;
      customQuizzes, currentQuizId, currentQuestionIndex, questionOrder := [], if statics == [] then "" else statics[0].id, 0, [];
      responses, hasStarted, shareSettings, questionDurations := [], false, [], [];
      sessionId, sessionStartedAt, sessionCompletedAt, sessionDurationMs, attemptHistory := None, None, None, None, [];
    }

    /**
     * React applies the setters a handler calls together, on the next render; `Commit`
     * is that step, setting every field from `st`.
     */
    method Commit(st: ProviderState)
      modifies this
      ensures State() == st
    {
      CommitQuiz(st);
      CommitSession(st);
    }

    method CommitQuiz(st: ProviderState)
      modifies this`customQuizzes, this`currentQuizId, this`currentQuestionIndex, this`questionOrder,
        this`responses, this`hasStarted
      ensures customQuizzes == st.customQuizzes && currentQuizId == st.currentQuizId
      ensures currentQuestionIndex == st.currentQuestionIndex && questionOrder == st.questionOrder
      ensures responses == st.responses && hasStarted == st.hasStarted
    {
      customQuizzes, currentQuizId, currentQuestionIndex := st.customQuizzes, st.currentQuizId, st.currentQuestionIndex;
      questionOrder, responses, hasStarted := st.questionOrder, st.responses, st.hasStarted;
    }

    method CommitSession(st: ProviderState)
      modifies this`shareSettings, this`questionDurations, this`sessionId, this`sessionStartedAt,
        this`sessionCompletedAt, this`sessionDurationMs, this`attemptHistory
      ensures shareSettings == st.shareSettings && questionDurations == st.questionDurations
      ensures sessionId == st.sessionId && sessionStartedAt == st.sessionStartedAt
      ensures sessionCompletedAt == st.sessionCompletedAt && sessionDurationMs == st.sessionDurationMs
      ensures attemptHistory == st.attemptHistory
    {
      shareSettings, questionDurations, sessionId := st.shareSettings, st.questionDurations, st.sessionId;
      sessionStartedAt, sessionCompletedAt := st.sessionStartedAt, st.sessionCompletedAt;
      sessionDurationMs, attemptHistory := st.sessionDurationMs, st.attemptHistory;
    }
    /** `quizzes`. */
    function Quizzes(): seq<Quiz>
      reads this`customQuizzes
    {
      Catalogue(statics, customQuizzes)
    }

    /** `currentQuiz`: the quiz with the current id, else the first; missing only for an empty catalogue. */
    function CurrentQuiz(): (q: Option<Quiz>)
      reads this`customQuizzes, this`currentQuizId
      ensures q.None? <==> Quizzes() == []
      ensures q.Some? ==> q.value in Quizzes()
      ensures FindQuiz(Quizzes(), currentQuizId).Some? ==> q == FindQuiz(Quizzes(), currentQuizId)
    {
      var found := FindQuiz(Quizzes(), currentQuizId);
      if found.Some? then found else if Quizzes() == [] then None else Some(Quizzes()[0])
    }

    /** `currentQuestion`. */
    function CurrentQuestion(): (q: Option<Question>)
      reads this`customQuizzes, this`currentQuizId, this`questionOrder, this`currentQuestionIndex
      ensures q.Some? ==> CurrentQuiz().Some? && q.value in CurrentQuiz().value.def.questions
      ensures CurrentQuiz().Some? && CurrentQuiz().value.def.questions != [] ==> q.Some?
    {
      match CurrentQuiz()
      case None => None
      case Some(quiz) =>
        var qs := quiz.def.questions;
        var order := if |questionOrder| == |qs| then questionOrder else QuestionIds(qs);
        var found := if 0 <= currentQuestionIndex < |order| then FindQuestion(qs, order[currentQuestionIndex]) else None;
        if found.Some? then found else if qs == [] then None else Some(qs[0])
    }

    function TotalQuestions(): nat
      reads this`customQuizzes, this`currentQuizId
    {
      if CurrentQuiz().Some? then |CurrentQuiz().value.def.questions| else 0
    }

    function TotalAvailablePoints(): int
      reads this`customQuizzes, this`currentQuizId
    {
      if CurrentQuiz().Some? then TotalPoints(CurrentQuiz().value.def.questions) else 0
    }

    function Score(): int
      reads this`responses
    {
      EarnedTotal(responses)
    }

    predicate IsQuizComplete()
      reads this`customQuizzes, this`currentQuizId, this`hasStarted, this`responses
    {
      hasStarted && TotalQuestions() > 0 && |responses| == TotalQuestions()
    }

    predicate HasOngoingSession()
      reads this`customQuizzes, this`currentQuizId, this`hasStarted, this`responses
    {
      hasStarted && !IsQuizComplete()
    }

    /** The quiz and question `submitAnswer` works on, when both are known. */
    function Target(questionId: string): Option<(Quiz, Question)>
      reads this`customQuizzes, this`currentQuizId
    {
      match FindQuiz(Quizzes(), currentQuizId)
      case None => None
      case Some(quiz) =>
        match FindQuestion(quiz.def.questions, questionId)
        case None => None
        case Some(question) => Some((quiz, question))
    }

    /** `user?.id`. */
    function UserId(): Option<string>
      reads user
    {
      match user.User()
      case None => None
      case Some(u) => Some(u.id)
    }

    method StartQuiz(quizId: string, newSessionId: string, now: int) returns (ok: bool)
      requires Valid()
      modifies this
      ensures Valid()
      ensures ok <==> FindQuiz(Quizzes(), quizId).Some?
      ensures !ok ==> State() == old(State())
      ensures ok ==> State() == old(State()).(
        currentQuizId := quizId, currentQuestionIndex := 0,
        questionOrder := QuestionIds(FindQuiz(Quizzes(), quizId).value.def.questions),
        responses := [], hasStarted := true, questionDurations := [], sessionId := Some(newSessionId),
        sessionStartedAt := Some(now), sessionCompletedAt := None, sessionDurationMs := None)
      ensures ok ==> CurrentQuiz() == FindQuiz(Quizzes(), quizId) && Score() == 0
      ensures ok && TotalQuestions() > 0 ==> !IsQuizComplete() && HasOngoingSession()
    {
      var quiz := FindQuiz(Quizzes(), quizId);
      if quiz.None? {
        return false;
      }
      Commit(State().(
        currentQuizId := quizId, currentQuestionIndex := 0, questionOrder := QuestionIds(quiz.value.def.questions),
        responses := [], hasStarted := true, questionDurations := [], sessionId := Some(newSessionId),
        sessionStartedAt := Some(now), sessionCompletedAt := None, sessionDurationMs := None));
      return true;
    }

    method GoToNextQuestion()
      modifies this
      ensures State() == old(State()).(currentQuestionIndex := NextIndex(old(currentQuestionIndex), old(TotalQuestions())))
    {
      currentQuestionIndex := NextIndex(currentQuestionIndex, TotalQuestions());
    }

    method RecordQuestionDuration(questionId: string, durationSeconds: int)
      requires Valid()
      modifies this
      ensures Valid()
      ensures State() == WithDuration(old(State()), questionId, durationSeconds)
    {
      if durationSeconds < 0 {
        return;
      }
      questionDurations := Put(questionDurations, questionId, durationSeconds);
    }

    /** Fills `durations` question by question, as the `forEach` does. */
    static method FillDurationsLoop(d: Record<int>, qs: seq<Question>, allResponses: Record<Response>) returns (durations: Record<int>)
      ensures durations == FillDurations(d, qs, allResponses)
    {
      durations := d;
      for i := 0 to |qs|
        invariant durations == FillDurations(d, qs[..i], allResponses)
      {
        assert qs[..i + 1][..i] == qs[..i];
        var question := qs[i];
        if Get(durations, question.id).Some? {
          continue;
        }
        var limit := TimedOutDuration(question, allResponses);
        if limit.Some? {
          durations := Put(durations, question.id, limit.value);
        }
      }
      assert qs[..|qs|] == qs;
    }

    /** The attempt record `finalizeAttempt` builds, with the durations filled in by the loop. */
    static method BuildAttempt(quiz: Quiz, allResponses: Record<Response>, score: int, durations0: Record<int>,
                               sessionStartedAt: Option<int>, sessionId: Option<string>, history: seq<Attempt>,
                               now: int, freshAttemptId: string) returns (attempt: Attempt)
      ensures attempt == MakeAttempt(quiz, allResponses, score, FillDurations(durations0, quiz.def.questions, allResponses),
        sessionStartedAt, sessionId, history, now, freshAttemptId)
    {
      var durations := FillDurationsLoop(durations0, quiz.def.questions, allResponses);
      attempt := MakeAttempt(quiz, allResponses, score, durations, sessionStartedAt, sessionId, history, now, freshAttemptId);
    }

    /** `finalizeAttempt`, given the score and durations the callback closed over. */
    method FinalizeAttempt(quiz: Quiz, allResponses: Record<Response>, score: int, durations0: Record<int>,
                           now: int, freshAttemptId: string)
      requires user.Valid()
      modifies this, user
      ensures user.Valid()
      ensures State() == Finalized(old(State()), quiz, allResponses, score, durations0, now, freshAttemptId)
      ensures user.state == UserContext.AfterCompletion(old(user.state), quiz.id, score, |quiz.def.questions|, now)
      ensures user.isAuthDialogOpen == old(user.isAuthDialogOpen)
    {
      CloseSession(quiz, allResponses, score, durations0, now, freshAttemptId);
      user.RecordQuizCompletion(quiz.id, score, |quiz.def.questions|, now);
    }

    /** The provider's own part of `finalizeAttempt`. */
    method CloseSession(quiz: Quiz, allResponses: Record<Response>, score: int, durations0: Record<int>,
                        now: int, freshAttemptId: string)
      modifies this
      ensures State() == Finalized(old(State()), quiz, allResponses, score, durations0, now, freshAttemptId)
    {
      var attempt := BuildAttempt(quiz, allResponses, score, durations0, sessionStartedAt, sessionId, attemptHistory,
        now, freshAttemptId);
      Commit(State().(sessionCompletedAt := Some(now), sessionDurationMs := Some(now - sessionStartedAt.GetOr(now)),
        attemptHistory := NextHistory(attemptHistory, attempt)));
    }

    /**
     * `submitAnswer`: grades the answer, stores it under the question id and, once every
     * question has a response, finalises the attempt with the score and durations from
     * before this answer.
     */
    method SubmitAnswer(questionId: string, payload: AnswerPayload, now: int, freshAttemptId: string)
      returns (r: Option<Response>)
      requires Valid()
      modifies this, user
      ensures Valid()
      ensures old(Target(questionId)).None? ==>
        r.None? && State() == old(State()) && user.state == old(user.state)
      ensures old(Target(questionId)).Some? ==>
        var quiz, question := old(Target(questionId)).value.0, old(Target(questionId)).value.1;
        var response := Grade(question, questionId, payload, now);
        && r == Some(response)
        && State() == Submitted(old(State()), quiz, questionId, response, payload.timeTakenSeconds, now, freshAttemptId)
        && user.state == (if CompletesQuiz(old(State()), quiz, questionId, response)
          then UserContext.AfterCompletion(old(user.state), quiz.id, EarnedTotal(Put(old(responses), questionId, response)), |quiz.def.questions|, now)
          else old(user.state))
      ensures user.isAuthDialogOpen == old(user.isAuthDialogOpen)
    {
      var target := Target(questionId);
      if target.None? {
        return None;
      }
      var quiz, question := target.value.0, target.value.1;
      var response := Grade(question, questionId, payload, now);
      RecordAnswer(quiz, questionId, response, payload.timeTakenSeconds, now, freshAttemptId);
      return Some(response);
    }

    /** `submitAnswer` once the answer is graded. */
    method RecordAnswer(quiz: Quiz, questionId: string, response: Response, timeTaken: Option<int>,
                        now: int, freshAttemptId: string)
      requires Valid()
      modifies this, user
      ensures Valid()
      ensures State() == Submitted(old(State()), quiz, questionId, response, timeTaken, now, freshAttemptId)
      ensures user.state == if CompletesQuiz(old(State()), quiz, questionId, response)
        then UserContext.AfterCompletion(old(user.state), quiz.id, EarnedTotal(Put(old(responses), questionId, response)), |quiz.def.questions|, now)
        else old(user.state)
      ensures user.isAuthDialogOpen == old(user.isAuthDialogOpen)
    {
      ghost var st0 := State();
      var score, staleDurations := EarnedTotal(Put(responses, questionId, response)), questionDurations;
      if timeTaken.Some? {
        RecordQuestionDuration(questionId, Max(0, timeTaken.value));
      }
      assert State() == Timed(st0, questionId, timeTaken);
      AnswerAndStartClock(quiz, questionId, response, score, staleDurations, now, freshAttemptId);
      SubmittedStored(st0, quiz, questionId, response, timeTaken, now, freshAttemptId);
    }

    method AnswerAndStartClock(quiz: Quiz, questionId: string, response: Response, score: int, durations: Record<int>,
                               now: int, freshAttemptId: string)
      requires user.Valid()
      modifies this, user
      ensures user.Valid()
      ensures var stored := Stored(old(State()), quiz, questionId, response, score, durations, now, freshAttemptId);
        State() == if old(sessionStartedAt).None? || old(sessionStartedAt) == Some(0) then stored.(sessionStartedAt := Some(now)) else stored
      ensures user.state == if |Put(old(responses), questionId, response)| == |quiz.def.questions|
        then UserContext.AfterCompletion(old(user.state), quiz.id, score, |quiz.def.questions|, now)
        else old(user.state)
      ensures user.isAuthDialogOpen == old(user.isAuthDialogOpen)
    {
      var staleStartedAt := sessionStartedAt;
      StoreResponse(quiz, questionId, response, score, durations, now, freshAttemptId);
      ghost var stored := State();
      if staleStartedAt.None? || staleStartedAt == Some(0) {
        sessionStartedAt := Some(now);
        assert State() == stored.(sessionStartedAt := Some(now));
      }
    }

    /** The `setResponses` updater of `submitAnswer`, which finalises a completed quiz. */
    method StoreResponse(quiz: Quiz, questionId: string, response: Response, score: int, durations: Record<int>,
                         now: int, freshAttemptId: string)
      requires user.Valid()
      modifies this, user
      ensures user.Valid()
      ensures State() == Stored(old(State()), quiz, questionId, response, score, durations, now, freshAttemptId)
      ensures user.state == if |Put(old(responses), questionId, response)| == |quiz.def.questions|
        then UserContext.AfterCompletion(old(user.state), quiz.id, score, |quiz.def.questions|, now)
        else old(user.state)
      ensures user.isAuthDialogOpen == old(user.isAuthDialogOpen)
    {
      var next := Put(responses, questionId, response);
      responses := next;
      if |next| == |quiz.def.questions| {
        FinalizeAttempt(quiz, next, score, durations, now, freshAttemptId);
      }
    }

    method ResetQuiz()
      requires Valid()
      modifies this
      ensures Valid()
      ensures State() == old(State()).(
        responses := [], currentQuestionIndex := 0, hasStarted := false, questionOrder := [],
        questionDurations := [], sessionId := None, sessionStartedAt := None, sessionCompletedAt := None,
        sessionDurationMs := None)
      ensures !IsQuizComplete() && !HasOngoingSession() && Score() == 0
    {
      Commit(State().(
        responses := [], currentQuestionIndex := 0, hasStarted := false, questionOrder := [],
        questionDurations := [], sessionId := None, sessionStartedAt := None, sessionCompletedAt := None,
        sessionDurationMs := None));
    }
    /** The question-order effect, run when the current quiz changes. */
    method SyncQuestionOrder()
      modifies this
      ensures CurrentQuiz().None? ==> State() == old(State())
      ensures CurrentQuiz().Some? ==>
        State() == old(State()).(questionOrder := SyncedOrder(old(questionOrder), QuestionIds(CurrentQuiz().value.def.questions)))
    {
      var quiz := CurrentQuiz();
      if quiz.None? {
        return;
      }
      questionOrder := SyncedOrder(questionOrder, QuestionIds(quiz.value.def.questions));
    }

    /** The first `forEach` of the share-settings effect, on the copy `next`. */
    static method AddMissingLoop(previous: Record<ShareConfig>, ids: seq<string>)
      returns (next: Record<ShareConfig>, changed: bool)
      ensures next == AddMissing(previous, ids)
      ensures !changed ==> next == previous
    {
      next := previous;
      changed := false;
      for i := 0 to |ids|
        invariant next == AddMissing(previous, ids[..i])
        invariant !changed ==> next == previous
      {
        assert ids[..i + 1][..i] == ids[..i];
        assert ids[..i + 1][i] == ids[i];
        if Get(next, ids[i]).None? {
          next := Put(next, ids[i], PrivateShare);
          changed := true;
        }
      }
      assert ids[..|ids|] == ids;
    }

    /** The second `forEach`, over the keys of the copy taken before any deletion. */
    static method DropStaleLoop(added: Record<ShareConfig>, ids: seq<string>)
      returns (next: Record<ShareConfig>, changed: bool)
      ensures next == DropStale(added, Keys(added), ids)
      ensures !changed ==> next == added
    {
      next := added;
      changed := false;
      var keys := Keys(added);
      DropStaleStep(added, keys, 0, ids);
      for j := 0 to |keys|
        invariant next == DropStale(added, keys[..j], ids)
        invariant !changed ==> forall i :: 0 <= i < j ==> keys[i] in ids
      {
        DropStaleStep(added, keys, j, ids);
        if keys[j] !in ids {
          next := Remove(next, keys[j]);
          changed := true;
        }
      }
      DropStaleStep(added, keys, |keys|, ids);
      if !changed {
        DropStaleKept(added, keys, ids);
      }
    }

    /** The share-settings effect: both loops work on a copy, committed only if something changed. */
    method ReconcileShareSettings()
      requires Valid()
      modifies this
      ensures Valid()
      ensures State() == old(State()).(shareSettings := Reconciled(old(shareSettings), QuizIds(statics + old(customQuizzes))))
    {
      var ids := QuizIds(statics + customQuizzes);
      var previous := shareSettings;
      var added, changedAdding := AddMissingLoop(previous, ids);
      var next, changedDropping := DropStaleLoop(added, ids);
      ReconciledSpec(previous, ids);
      shareSettings := if changedAdding || changedDropping then next else previous;
    }

    method SetQuizVisibility(quizId: string, isPublic: bool, freshToken: string)
      requires Valid()
      modifies this
      ensures Valid()
      ensures State() == old(State()).(shareSettings := WithVisibility(old(shareSettings), quizId, isPublic, freshToken))
    {
      shareSettings := WithVisibility(shareSettings, quizId, isPublic, freshToken);
    }

    /** `getShareLink`; `origin` is `window.location.origin` or `https://quizzyquizz.app`. */
    method GetShareLink(quizId: string, origin: string, freshToken: string) returns (link: Option<string>)
      requires Valid()
      modifies this
      ensures Valid()
      ensures link.Some? <==> Get(old(shareSettings), quizId).Some? && Get(old(shareSettings), quizId).value.isPublic
      ensures link.None? ==> State() == old(State())
      ensures link.Some? ==>
        var token := Get(old(shareSettings), quizId).value.shareToken.GetOr(freshToken);
        link == Some(ShareLink(origin, quizId, token)) &&
        Get(shareSettings, quizId) == Some(ShareConfig(true, Some(token))) &&
        forall k :: k != quizId ==> Get(shareSettings, k) == Get(old(shareSettings), k)
      ensures State() == old(State()).(shareSettings := shareSettings)
    {
      var config := Get(shareSettings, quizId);
      if config.None? || !config.value.isPublic {
        return None;
      }
      var token := config.value.shareToken.GetOr(freshToken);
      if config.value.shareToken.None? || config.value.shareToken == Some("") {
        shareSettings := Put(shareSettings, quizId, ShareConfig(true, Some(token)));
      }
      return Some(ShareLink(origin, quizId, token));
    }

    method CreateQuiz(draft: QuizDraft, freshId: string, now: int) returns (quiz: Quiz)
      requires Valid()
      modifies this, user
      ensures Valid()
      ensures quiz == NewCustomQuiz(draft, old(UserId()), freshId, now)
      ensures State() == old(State()).(customQuizzes := PrependReplacing(old(customQuizzes), quiz))
      ensures user.state == UserContext.AfterCreated(old(user.state), quiz.id)
      ensures user.isAuthDialogOpen == old(user.isAuthDialogOpen)
    {
      quiz := NewCustomQuiz(draft, UserId(), freshId, now);
      customQuizzes := PrependReplacing(customQuizzes, quiz);
      user.RecordQuizCreated(quiz.id);
    }

    method UpdateQuiz(quizId: string, patch: QuizPatch, now: int) returns (updated: Option<Quiz>)
      requires Valid()
      modifies this
      ensures Valid()
      ensures updated == LastPatched(old(customQuizzes), quizId, patch, now)
      ensures State() == old(State()).(customQuizzes := PatchAll(old(customQuizzes), quizId, patch, now))
    {
      updated := LastPatched(customQuizzes, quizId, patch, now);
      customQuizzes := PatchAll(customQuizzes, quizId, patch, now);
    }

    method DeleteQuiz(quizId: string)
      requires Valid()
      modifies this
      ensures Valid()
      ensures State() == old(State()).(customQuizzes := WithoutQuiz(old(customQuizzes), quizId))
    {
      customQuizzes := WithoutQuiz(customQuizzes, quizId);
    }

    method DuplicateQuiz(quizId: string, freshId: string, now: int) returns (copy: Option<Quiz>)
      requires Valid()
      modifies this
      ensures Valid()
      ensures FindQuiz(old(Quizzes()), quizId).None? ==> copy.None? && State() == old(State())
      ensures FindQuiz(old(Quizzes()), quizId).Some? ==>
        copy == Some(Duplicate(FindQuiz(old(Quizzes()), quizId).value, UserId(), freshId, now)) &&
        State() == old(State()).(customQuizzes := [copy.value] + old(customQuizzes))
    {
      var source := FindQuiz(Quizzes(), quizId);
      if source.None? {
        return None;
      }
      var duplicated := Duplicate(source.value, UserId(), freshId, now);
      customQuizzes := [duplicated] + customQuizzes;
      return Some(duplicated);
    }
  }
}
