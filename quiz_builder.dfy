/**
 * The quiz editor of the studio (components/studio/QuizBuilderForm.tsx): the blank
 * entities it creates, the handlers that rewrite its list of questions, the
 * first-failing-check validator and the normalisation applied on submit.
 * Fresh ids (`generateId`) are parameters.
 */
module QuizBuilder {
  import opened Wrappers
  import opened Strings
  import opened QuizTypes
  import opened Tags
  import QuizContext

  // ---------------------------------------------------------------------------
  // Blank entities.

  function BlankOption(id: string, isCorrect: bool): AnswerOption {
    AnswerOption(id, "", isCorrect, None)
  }

  /** `[createBlankOption(true), createBlankOption(false)]`. */
  function BlankPair(firstId: string, secondId: string): (r: seq<AnswerOption>)
    ensures |r| == 2 && r[0].isCorrect && !r[1].isCorrect
    ensures r[0].text == "" && r[1].text == ""
    ensures CorrectCount(r) == 1
  {
    [BlankOption(firstId, true), BlankOption(secondId, false)]
  }

  /** `createBlankQuestion()`: a one-point single-choice question with a 60-second limit. */
  function BlankQuestion(id: string, firstOptionId: string, secondOptionId: string): Question {
    Question(id, "", Single, BlankPair(firstOptionId, secondOptionId), "", Some(1), Some(60), None, None)
  }

  function BlankMedia(id: string): MediaResource {
    MediaResource(id, Image, "", None)
  }

  /** The options after switching a question to type `t`. */
  function AdaptOptionsForType(t: QuestionType, current: seq<AnswerOption>, firstId: string, secondId: string): (r: seq<AnswerOption>)
    ensures t == TrueFalse ==> |r| == 2 && r[0].isCorrect && !r[1].isCorrect && r[0].text == "Vrai" && r[1].text == "Faux"
    ensures t == Open ==> r == []
    ensures (t == Single || t == Multiple) && current == [] ==> r == BlankPair(firstId, secondId)
    ensures (t == Single || t == Multiple) && current != [] ==> r == current
  {
    if t == TrueFalse then [AnswerOption(firstId, "Vrai", true, None), AnswerOption(secondId, "Faux", false, None)]
    else if t == Open then []
    else if |current| == 0 then BlankPair(firstId, secondId)
    else current
  }

  /**
   * Every type but "open" gets a non-empty list, and adapting never adds a second
   * correct option; a true/false question gets exactly one.
   */
  lemma AdaptOptionsShape(t: QuestionType, current: seq<AnswerOption>, firstId: string, secondId: string)
    ensures t != Open <==> AdaptOptionsForType(t, current, firstId, secondId) != []
    ensures CorrectCount(current) <= 1 ==> CorrectCount(AdaptOptionsForType(t, current, firstId, secondId)) <= 1
    ensures t == TrueFalse ==> CorrectCount(AdaptOptionsForType(t, current, firstId, secondId)) == 1
  {
    var r := AdaptOptionsForType(t, current, firstId, secondId);
    if t == TrueFalse {
      assert r[1..][1..] == [];
    }
  }

  // ---------------------------------------------------------------------------
  // Edits of one option list.

  predicate DistinctOptionIds(options: seq<AnswerOption>) {
    forall i, j :: 0 <= i < j < |options| ==> options[i].id != options[j].id
  }

  /** Some option has id `optionId`. */
  predicate HasOptionId(options: seq<AnswerOption>, optionId: string) {
    exists i | 0 <= i < |options| :: options[i].id == optionId
  }

  /** `Partial<Option>` as the editor sends it. */
  datatype OptionUpdate = OptionUpdate(text: Option<string>, isCorrect: Option<bool>)

  /** `{ ...option, ...update }`: each field the update carries replaces the option's. */
  function ApplyOptionUpdate(o: AnswerOption, u: OptionUpdate): (r: AnswerOption)
    ensures r.id == o.id && r.media == o.media
    ensures u.text.Some? ==> r.text == u.text.value
    ensures u.text.None? ==> r.text == o.text
    ensures u.isCorrect.Some? ==> r.isCorrect == u.isCorrect.value
    ensures u.isCorrect.None? ==> r.isCorrect == o.isCorrect
  {
    o.(text := u.text.GetOr(o.text), isCorrect := u.isCorrect.GetOr(o.isCorrect))
  }

  /**
   * Editing an option keeps every option id, so distinct ids stay distinct; an edit aimed at
   * an id nobody has changes nothing, and repeating an edit changes nothing more.
   */
  lemma UpdateOptionsEffect(options: seq<AnswerOption>, optionId: string, u: OptionUpdate)
    ensures forall i :: 0 <= i < |options| ==> UpdateOptions(options, optionId, u)[i].id == options[i].id
    ensures DistinctOptionIds(options) ==> DistinctOptionIds(UpdateOptions(options, optionId, u))
    ensures !HasOptionId(options, optionId) ==> UpdateOptions(options, optionId, u) == options
    ensures UpdateOptions(UpdateOptions(options, optionId, u), optionId, u) == UpdateOptions(options, optionId, u)
  {
    var r := UpdateOptions(options, optionId, u);
    if !HasOptionId(options, optionId) {
      assert forall i :: 0 <= i < |options| ==> r[i] == options[i];
    }
  }

  /** The options with the update applied to those whose id is `optionId`. */
  function UpdateOptions(options: seq<AnswerOption>, optionId: string, u: OptionUpdate): (r: seq<AnswerOption>)
    ensures |r| == |options|
    ensures forall i :: 0 <= i < |options| && options[i].id != optionId ==> r[i] == options[i]
    ensures forall i :: 0 <= i < |options| && options[i].id == optionId ==> r[i] == ApplyOptionUpdate(options[i], u)
  {
    seq(|options|, i requires 0 <= i < |options| => if options[i].id == optionId then ApplyOptionUpdate(options[i], u) else options[i])
  }

  /** `options.filter((option) => option.id !== optionId)`. */
  function WithoutOption(options: seq<AnswerOption>, optionId: string): (r: seq<AnswerOption>)
    ensures forall o :: o in r <==> o in options && o.id != optionId
    ensures |r| <= |options|
    ensures CorrectCount(r) <= CorrectCount(options)
  {
    if options == [] then []
    else
      var rest := WithoutOption(options[1..], optionId);
      if options[0].id == optionId then rest else [options[0]] + rest
  }

  /** The option list after `handleDeleteOption`: never empty. */
  function DeleteOption(options: seq<AnswerOption>, optionId: string, firstId: string, secondId: string): (r: seq<AnswerOption>)
    ensures r != []
    ensures WithoutOption(options, optionId) != [] ==> r == WithoutOption(options, optionId)
    ensures WithoutOption(options, optionId) == [] ==> r == BlankPair(firstId, secondId)
  {
    var updated := WithoutOption(options, optionId);
    if |updated| > 0 then updated else BlankPair(firstId, secondId)
  }

  /** Deleting an option never creates a second correct one. */
  lemma DeleteOptionKeepsSingleAnswer(options: seq<AnswerOption>, optionId: string, firstId: string, secondId: string)
    requires CorrectCount(options) <= 1
    ensures CorrectCount(DeleteOption(options, optionId, firstId, secondId)) <= 1
  {
  }

  /** Removing the only option gives two blank options, the first one correct. */
  lemma DeleteLastOption(o: AnswerOption, firstId: string, secondId: string)
    ensures DeleteOption([o], o.id, firstId, secondId) == BlankPair(firstId, secondId)
  {
    assert WithoutOption([o], o.id) == [] by {
      assert [o][1..] == [];
    }
  }

  /** The "multiple" toggle: only the clicked option's flag flips. */
  function FlipOption(options: seq<AnswerOption>, optionId: string): (r: seq<AnswerOption>)
    ensures |r| == |options|
    ensures forall i :: 0 <= i < |options| ==> r[i].id == options[i].id && r[i].text == options[i].text && r[i].media == options[i].media
    ensures forall i :: 0 <= i < |options| ==> r[i].isCorrect == (if options[i].id == optionId then !options[i].isCorrect else options[i].isCorrect)
  {
    if options == [] then []
    else
      var o := options[0];
      [if o.id == optionId then o.(isCorrect := !o.isCorrect) else o] + FlipOption(options[1..], optionId)
  }

  /** The single-answer toggle: exactly the clicked option is correct. */
  function MarkOnly(options: seq<AnswerOption>, optionId: string): (r: seq<AnswerOption>)
    ensures |r| == |options|
    ensures forall i :: 0 <= i < |options| ==> r[i].id == options[i].id && r[i].text == options[i].text && r[i].media == options[i].media
    ensures forall i :: 0 <= i < |options| ==> (r[i].isCorrect <==> options[i].id == optionId)
  {
    if options == [] then []
    else [options[0].(isCorrect := options[0].id == optionId)] + MarkOnly(options[1..], optionId)
  }

  /** Flipping the same option twice restores the list. */
  lemma FlipOptionTwice(options: seq<AnswerOption>, optionId: string)
    ensures FlipOption(FlipOption(options, optionId), optionId) == options
  {
    var r := FlipOption(FlipOption(options, optionId), optionId);
    assert forall i :: 0 <= i < |options| ==> r[i] == options[i];
  }

  /**
   * With distinct option ids, the single-answer toggle leaves exactly one correct
   * option when the id is present, and none when it is not.
   */
  lemma {:induction false} MarkOnlyCount(options: seq<AnswerOption>, optionId: string)
    requires DistinctOptionIds(options)
    ensures CorrectCount(MarkOnly(options, optionId)) == if HasOptionId(options, optionId) then 1 else 0
  {
    if options != [] {
      var rest := options[1..];
      assert DistinctOptionIds(rest) by {
        forall i, j | 0 <= i < j < |rest| ensures rest[i].id != rest[j].id {
          assert rest[i] == options[i + 1] && rest[j] == options[j + 1];
        }
      }
      MarkOnlyCount(rest, optionId);
      assert MarkOnly(options, optionId)[1..] == MarkOnly(rest, optionId);
      assert HasOptionId(options, optionId) <==> options[0].id == optionId || HasOptionId(rest, optionId) by {
        if HasOptionId(options, optionId) && options[0].id != optionId {
          var i :| 0 <= i < |options| && options[i].id == optionId;
          assert rest[i - 1] == options[i];
        }
        if HasOptionId(rest, optionId) {
          var i :| 0 <= i < |rest| && rest[i].id == optionId;
          assert options[i + 1] == rest[i];
        }
      }
      if options[0].id == optionId {
        assert !HasOptionId(rest, optionId) by {
          forall i | 0 <= i < |rest| ensures rest[i].id != optionId {
            assert rest[i] == options[i + 1];
          }
        }
      }
    }
  }

  /** With repeated option ids the single-answer toggle can leave two correct options. */
  lemma MarkOnlyRepeatedIds()
    ensures CorrectCount(MarkOnly([BlankOption("a", false), BlankOption("a", false)], "a")) == 2
  {
    var r := MarkOnly([BlankOption("a", false), BlankOption("a", false)], "a");
    assert r[1..][1..] == [];
  }

  // ---------------------------------------------------------------------------
  // Edits of one question.

  /** `Partial<Question>` as the editor sends it. */
  datatype QuestionUpdate = QuestionUpdate(
    prompt: Option<string>,
    qtype: Option<QuestionType>,
    options: Option<seq<AnswerOption>>,
    explanation: Option<string>,
    points: Option<int>,
    timeLimit: Option<int>,
    answer: Option<string>)

  /** `Partial<MediaResource>` as the editor sends it. */
  datatype MediaUpdate = MediaUpdate(kind: Option<MediaType>, url: Option<string>, caption: Option<string>)

  /** `{ ...item, ...update }`: each field the update carries replaces the resource's. */
  function ApplyMediaUpdate(m: MediaResource, u: MediaUpdate): (r: MediaResource)
    ensures r.id == m.id
    ensures u.kind.Some? ==> r.kind == u.kind.value
    ensures u.kind.None? ==> r.kind == m.kind
    ensures u.url.Some? ==> r.url == u.url.value
    ensures u.url.None? ==> r.url == m.url
    ensures u.caption.Some? ==> r.caption == u.caption
    ensures u.caption.None? ==> r.caption == m.caption
  {
    m.(kind := u.kind.GetOr(m.kind), url := u.url.GetOr(m.url), caption := QuizContext.OrElse(u.caption, m.caption))
  }

  function UpdateMediaList(media: seq<MediaResource>, mediaId: string, u: MediaUpdate): (r: seq<MediaResource>)
    ensures |r| == |media|
    ensures forall i :: 0 <= i < |media| && media[i].id != mediaId ==> r[i] == media[i]
    ensures forall i :: 0 <= i < |media| && media[i].id == mediaId ==> r[i] == ApplyMediaUpdate(media[i], u)
  {
    seq(|media|, i requires 0 <= i < |media| => if media[i].id == mediaId then ApplyMediaUpdate(media[i], u) else media[i])
  }

  /**
   * Editing a resource keeps every resource id; an edit aimed at an id nobody has changes
   * nothing, and repeating an edit changes nothing more.
   */
  lemma UpdateMediaListEffect(media: seq<MediaResource>, mediaId: string, u: MediaUpdate)
    ensures forall i :: 0 <= i < |media| ==> UpdateMediaList(media, mediaId, u)[i].id == media[i].id
    ensures (forall i :: 0 <= i < |media| ==> media[i].id != mediaId) ==> UpdateMediaList(media, mediaId, u) == media
    ensures UpdateMediaList(UpdateMediaList(media, mediaId, u), mediaId, u) == UpdateMediaList(media, mediaId, u)
  {
    var r := UpdateMediaList(media, mediaId, u);
    if forall i :: 0 <= i < |media| ==> media[i].id != mediaId {
      assert forall i :: 0 <= i < |media| ==> r[i] == media[i];
    }
  }

  function WithoutMedia(media: seq<MediaResource>, mediaId: string): (r: seq<MediaResource>)
    ensures forall m :: m in r <==> m in media && m.id != mediaId
  {
    if media == [] then []
    else
      var rest := WithoutMedia(media[1..], mediaId);
      if media[0].id == mediaId then rest else [media[0]] + rest
  }

  /** One handler's change to the question it targets, with the fresh ids it needs. */
  datatype QuestionEdit =
    | Update(u: QuestionUpdate, firstId: string, secondId: string)
    | AddOption(newOptionId: string)
    | EditOption(optionId: string, ou: OptionUpdate)
    | RemoveOption(optionId: string, firstId: string, secondId: string)
    | ToggleCorrect(optionId: string)
    | AddMedia(newMediaId: string)
    | EditMedia(mediaId: string, mu: MediaUpdate)
    | RemoveMedia(mediaId: string)

  /**
   * The question after `handleUpdateQuestion`: a type change re-adapts the current
   * options (an options field sent alongside is then ignored).
   */
  function UpdatedQuestion(q: Question, u: QuestionUpdate, firstId: string, secondId: string): (r: Question)
    ensures r.id == q.id && r.media == q.media
    ensures u.qtype.Some? ==> r.qtype == u.qtype.value && r.options == AdaptOptionsForType(u.qtype.value, q.options, firstId, secondId)
    ensures u.qtype.None? ==> r.qtype == q.qtype && r.options == u.options.GetOr(q.options)
    ensures u.prompt.Some? ==> r.prompt == u.prompt.value
    ensures u.prompt.None? ==> r.prompt == q.prompt
    ensures u.explanation.Some? ==> r.explanation == u.explanation.value
    ensures u.explanation.None? ==> r.explanation == q.explanation
    ensures r.points == (if u.points.Some? then u.points else q.points)
    ensures r.timeLimit == (if u.timeLimit.Some? then u.timeLimit else q.timeLimit)
    ensures r.answer == (if u.answer.Some? then u.answer else q.answer)
  {
    var nextType := u.qtype.GetOr(q.qtype);
    var nextOptions := if u.qtype.Some? then AdaptOptionsForType(u.qtype.value, q.options, firstId, secondId) else u.options.GetOr(q.options);
    q.(prompt := u.prompt.GetOr(q.prompt), qtype := nextType, options := nextOptions,
       explanation := u.explanation.GetOr(q.explanation),
       points := QuizContext.OrElse(u.points, q.points),
       timeLimit := QuizContext.OrElse(u.timeLimit, q.timeLimit),
       answer := QuizContext.OrElse(u.answer, q.answer))
  }

  /** An update that carries no field leaves the question as it was. */
  lemma UpdatedQuestionEmpty(q: Question, firstId: string, secondId: string)
    ensures UpdatedQuestion(q, QuestionUpdate(None, None, None, None, None, None, None), firstId, secondId) == q
  {
  }

  /** The question `prev.map` produces for the targeted entry. */
  function ApplyEdit(q: Question, e: QuestionEdit): (r: Question)
    ensures r.id == q.id
    ensures !e.Update? ==> r.qtype == q.qtype && r.prompt == q.prompt && r.answer == q.answer && r.points == q.points
    ensures e.AddOption? ==> r.options == q.options + [BlankOption(e.newOptionId, false)]
    ensures e.RemoveOption? ==> r.options != []
    ensures e.ToggleCorrect? ==> |r.options| == |q.options|
    ensures e.ToggleCorrect? && q.qtype != Multiple ==> forall i :: 0 <= i < |q.options| ==> (r.options[i].isCorrect <==> q.options[i].id == e.optionId)
    ensures e.AddMedia? ==> r.media == Some(q.media.GetOr([]) + [BlankMedia(e.newMediaId)])
    ensures e.RemoveMedia? ==> r.media.Some?
  {
    match e
    case Update(u, firstId, secondId) => UpdatedQuestion(q, u, firstId, secondId)
    case AddOption(newId) => q.(options := q.options + [BlankOption(newId, false)])
    case EditOption(optionId, ou) => q.(options := UpdateOptions(q.options, optionId, ou))
    case RemoveOption(optionId, firstId, secondId) => q.(options := DeleteOption(q.options, optionId, firstId, secondId))
    case ToggleCorrect(optionId) =>
      if q.qtype == Multiple then q.(options := FlipOption(q.options, optionId)) else q.(options := MarkOnly(q.options, optionId))
    case AddMedia(newId) => q.(media := Some(q.media.GetOr([]) + [BlankMedia(newId)]))
    case EditMedia(mediaId, mu) => q.(media := if q.media.Some? then Some(UpdateMediaList(q.media.value, mediaId, mu)) else None)
    case RemoveMedia(mediaId) => q.(media := Some(WithoutMedia(q.media.GetOr([]), mediaId)))
  }

  /** A question that is not "multiple" has at most one correct option. */
  predicate SingleAnswerShape(q: Question) {
    q.qtype != Multiple ==> CorrectCount(q.options) <= 1
  }

  /**
   * The option edits keep the single-answer shape (the update of an option's text
   * included); toggling with distinct option ids leaves exactly one correct option.
   */
  lemma ApplyEditKeepsSingleAnswer(q: Question, e: QuestionEdit)
    requires SingleAnswerShape(q)
    requires !e.Update?
    requires e.EditOption? ==> e.ou.isCorrect.None?
    requires e.ToggleCorrect? ==> DistinctOptionIds(q.options)
    ensures SingleAnswerShape(ApplyEdit(q, e))
    ensures e.ToggleCorrect? && q.qtype != Multiple && HasOptionId(q.options, e.optionId) ==> CorrectCount(ApplyEdit(q, e).options) == 1
  {
    match e
    case AddOption(newId) => CorrectCountAppendIncorrect(q.options, BlankOption(newId, false));
    case EditOption(optionId, ou) => CorrectCountSameFlags(q.options, UpdateOptions(q.options, optionId, ou));
    case RemoveOption(optionId, firstId, secondId) =>
      if q.qtype != Multiple {
        DeleteOptionKeepsSingleAnswer(q.options, optionId, firstId, secondId);
      }
    case ToggleCorrect(optionId) =>
      if q.qtype != Multiple {
        MarkOnlyCount(q.options, optionId);
      }
    case AddMedia(_) =>
    case EditMedia(_, _) =>
    case RemoveMedia(_) =>
  }

  lemma {:induction false} CorrectCountAppendIncorrect(options: seq<AnswerOption>, o: AnswerOption)
    requires !o.isCorrect
    ensures CorrectCount(options + [o]) == CorrectCount(options)
  {
    if options == [] {
      assert [o][1..] == [];
    } else {
      assert (options + [o])[1..] == options[1..] + [o];
      CorrectCountAppendIncorrect(options[1..], o);
    }
  }

  lemma {:induction false} CorrectCountSameFlags(a: seq<AnswerOption>, b: seq<AnswerOption>)
    requires |a| == |b| && forall i :: 0 <= i < |a| ==> a[i].isCorrect == b[i].isCorrect
    ensures CorrectCount(a) == CorrectCount(b)
  {
    if a != [] {
      CorrectCountSameFlags(a[1..], b[1..]);
    }
  }

  /** Switching a "multiple" question with two correct options to "single" keeps both. */
  lemma SwitchToSingleKeepsFlags()
    ensures !SingleAnswerShape(ApplyEdit(
      Question("q", "", Multiple, [BlankOption("a", true), BlankOption("b", true)], "", None, None, None, None),
      Update(QuestionUpdate(None, Some(Single), None, None, None, None, None), "c", "d")))
  {
    var options := [BlankOption("a", true), BlankOption("b", true)];
    assert options[1..][1..] == [];
  }

  // ---------------------------------------------------------------------------
  // Edits of the question list.

  /** `prev.map(...)`: the edit applies to every question whose id is `questionId`. */
  function EditMatching(qs: seq<Question>, questionId: string, e: QuestionEdit): (r: seq<Question>)
    ensures |r| == |qs|
    ensures forall i :: 0 <= i < |qs| && qs[i].id != questionId ==> r[i] == qs[i]
    ensures forall i :: 0 <= i < |qs| && qs[i].id == questionId ==> r[i] == ApplyEdit(qs[i], e)
    ensures QuestionIds(r) == QuestionIds(qs)
  {
    seq(|qs|, i requires 0 <= i < |qs| => if qs[i].id == questionId then ApplyEdit(qs[i], e) else qs[i])
  }

  /** An edit of a question that is not in the list changes nothing. */
  lemma EditAbsent(qs: seq<Question>, questionId: string, e: QuestionEdit)
    requires forall i :: 0 <= i < |qs| ==> qs[i].id != questionId
    ensures EditMatching(qs, questionId, e) == qs
  {
  }

  predicate DistinctQuestionIds(qs: seq<Question>) {
    forall i, j :: 0 <= i < j < |qs| ==> qs[i].id != qs[j].id
  }

  /** `prev.filter((question) => question.id !== questionId)`. */
  function WithoutQuestion(qs: seq<Question>, questionId: string): (r: seq<Question>)
    ensures forall q :: q in r <==> q in qs && q.id != questionId
    ensures |r| <= |qs|
  {
    if qs == [] then []
    else
      var rest := WithoutQuestion(qs[1..], questionId);
      if qs[0].id == questionId then rest else [qs[0]] + rest
  }

  /** With distinct ids, removing one question removes at most one entry. */
  lemma {:induction false} WithoutQuestionDistinct(qs: seq<Question>, questionId: string)
    requires DistinctQuestionIds(qs)
    ensures |WithoutQuestion(qs, questionId)| >= |qs| - 1
    ensures DistinctQuestionIds(WithoutQuestion(qs, questionId))
  {
    if qs != [] {
      var rest := qs[1..];
      assert DistinctQuestionIds(rest) by {
        forall i, j | 0 <= i < j < |rest| ensures rest[i].id != rest[j].id {
          assert rest[i] == qs[i + 1] && rest[j] == qs[j + 1];
        }
      }
      WithoutQuestionDistinct(rest, questionId);
      var r := WithoutQuestion(qs, questionId);
      if qs[0].id == questionId {
        assert WithoutQuestion(rest, questionId) == rest by {
          NoMatchKeepsAll(rest, questionId);
        }
      } else {
        var tail := WithoutQuestion(rest, questionId);
        assert r == [qs[0]] + tail;
        forall j | 0 <= j < |tail| ensures tail[j].id != qs[0].id {
          assert tail[j] in rest;
          var k :| 0 <= k < |rest| && rest[k] == tail[j];
          assert rest[k] == qs[k + 1];
        }
      }
    }
  }

  lemma {:induction false} NoMatchKeepsAll(qs: seq<Question>, questionId: string)
    requires forall i :: 0 <= i < |qs| ==> qs[i].id != questionId
    ensures WithoutQuestion(qs, questionId) == qs
  {
    if qs != [] {
      NoMatchKeepsAll(qs[1..], questionId);
    }
  }

  /** Two questions sharing an id are both removed, emptying a two-question list. */
  lemma WithoutQuestionRepeatedIds(q: Question)
    ensures WithoutQuestion([q, q], q.id) == []
  {
    assert [q, q][1..] == [q];
    assert [q][1..] == [];
  }

  // ---------------------------------------------------------------------------
  // Validation.

  /** The messages the editor shows. */
  datatype BuilderError =
    | MissingTitle | MissingDescription | NoQuestions | MissingPrompt
    | MissingOpenAnswer | TooFewOptions | NoCorrectOption | BlankOptionText
    | LastQuestion

  function Message(e: BuilderError): string {
    match e
    case MissingTitle => "Le titre du quiz est obligatoire."
    case MissingDescription => "Ajoutez une description pour contextualiser le quiz."
    case NoQuestions => "Ajoutez au moins une question."
    case MissingPrompt => "Chaque question doit avoir un intitulé."
    case MissingOpenAnswer => "Les questions à réponse libre doivent contenir une réponse attendue."
    case TooFewOptions => "Chaque question à choix doit comporter au moins deux options."
    case NoCorrectOption => "Sélectionnez au moins une réponse correcte."
    case BlankOptionText => "Toutes les options doivent contenir du texte."
    case LastQuestion => "Votre quiz doit contenir au moins une question."
  }

  /** `!s.trim()`: nothing but white space (see BlankIff). */
  predicate Blank(s: string) {
    AllSpace(s)
  }

  lemma BlankIff(s: string)
    ensures Blank(s) <==> Trim(s) == ""
  {
    TrimEmptyIff(s);
  }

  /** Trimming does not change blankness. */
  lemma BlankTrim(s: string)
    ensures Blank(Trim(s)) == Blank(s)
  {
    TrimEmptyIff(s);
    TrimEmptyIff(Trim(s));
    TrimIdempotent(s);
  }

  /** `options.some((option) => option.isCorrect)`. */
  predicate HasCorrectOption(options: seq<AnswerOption>) {
    exists i | 0 <= i < |options| :: options[i].isCorrect
  }

  /** `options.find((option) => !option.text.trim())` finds something. */
  predicate HasBlankOption(options: seq<AnswerOption>) {
    exists i | 0 <= i < |options| :: Blank(options[i].text)
  }

  /** The first check one question fails, in the order of the loop body. */
  function QuestionError(q: Question): (r: Option<BuilderError>)
    ensures r.Some? ==> r.value in {MissingPrompt, MissingOpenAnswer, TooFewOptions, NoCorrectOption, BlankOptionText}
  {
    if Blank(q.prompt) then Some(MissingPrompt)
    else if q.qtype == Open then (if Blank(q.answer.GetOr("")) then Some(MissingOpenAnswer) else None)
    else if |q.options| < 2 then Some(TooFewOptions)
    else if !HasCorrectOption(q.options) then Some(NoCorrectOption)
    else if HasBlankOption(q.options) then Some(BlankOptionText)
    else None
  }

  /** Everything the validator demands of one question. */
  predicate QuestionComplete(q: Question) {
    && !Blank(q.prompt)
    && (q.qtype == Open ==> !Blank(q.answer.GetOr("")))
    && (q.qtype != Open ==> |q.options| >= 2 && HasCorrectOption(q.options) && forall i :: 0 <= i < |q.options| ==> !Blank(q.options[i].text))
  }

  function FirstQuestionError(qs: seq<Question>): Option<BuilderError> {
    if qs == [] then None
    else if QuestionError(qs[0]).Some? then QuestionError(qs[0])
    else FirstQuestionError(qs[1..])
  }

  /** What `validateQuiz` returns; `None` is `null`. */
  function Validation(title: string, description: string, qs: seq<Question>): Option<BuilderError> {
    if Blank(title) then Some(MissingTitle)
    else if Blank(description) then Some(MissingDescription)
    else if |qs| == 0 then Some(NoQuestions)
    else FirstQuestionError(qs)
  }

  /** Everything the validator demands of a quiz. */
  predicate QuizComplete(title: string, description: string, qs: seq<Question>) {
    !Blank(title) && !Blank(description) && |qs| >= 1 && forall i :: 0 <= i < |qs| ==> QuestionComplete(qs[i])
  }

  /** One question passes the loop body exactly when it meets every demand. */
  lemma QuestionErrorNoneIff(q: Question)
    ensures QuestionError(q).None? <==> QuestionComplete(q)
  {
  }

  lemma {:induction false} FirstQuestionErrorNone(qs: seq<Question>)
    ensures FirstQuestionError(qs).None? <==> forall i :: 0 <= i < |qs| ==> QuestionError(qs[i]).None?
  {
    if qs != [] {
      FirstQuestionErrorNone(qs[1..]);
      assert forall i :: 1 <= i < |qs| ==> qs[i] == qs[1..][i - 1];
    }
  }

  /** The validator returns `null` exactly when every check passes. */
  lemma ValidationNoneIff(title: string, description: string, qs: seq<Question>)
    ensures Validation(title, description, qs).None? <==> QuizComplete(title, description, qs)
  {
    FirstQuestionErrorNone(qs);
    forall i | 0 <= i < |qs| ensures QuestionError(qs[i]).None? <==> QuestionComplete(qs[i]) {
      QuestionErrorNoneIff(qs[i]);
    }
  }

  /** A question error reported is that of the first question failing a check. */
  lemma {:induction false} FirstQuestionErrorIsFirst(qs: seq<Question>)
    requires FirstQuestionError(qs).Some?
    ensures exists i :: (0 <= i < |qs| && (forall j :: 0 <= j < i ==> QuestionError(qs[j]).None?) &&
      QuestionError(qs[i]) == FirstQuestionError(qs))
  {
    if QuestionError(qs[0]).None? {
      FirstQuestionErrorIsFirst(qs[1..]);
      var i :| 0 <= i < |qs[1..]| && (forall j :: 0 <= j < i ==> QuestionError(qs[1..][j]).None?) &&
        QuestionError(qs[1..][i]) == FirstQuestionError(qs[1..]);
      assert forall j :: 1 <= j < i + 1 ==> qs[j] == qs[1..][j - 1];
      assert qs[i + 1] == qs[1..][i];
    } else {
      assert QuestionError(qs[0]) == FirstQuestionError(qs);
    }
  }

  /** The checks, in source order: a reported error means the earlier checks passed. */
  lemma ValidationOrder(title: string, description: string, qs: seq<Question>)
    ensures Validation(title, description, qs) == Some(MissingTitle) <==> Blank(title)
    ensures Validation(title, description, qs) == Some(MissingDescription) <==> !Blank(title) && Blank(description)
    ensures Validation(title, description, qs) == Some(NoQuestions) <==> !Blank(title) && !Blank(description) && qs == []
    ensures Validation(title, description, qs).Some? && Validation(title, description, qs).value !in {MissingTitle, MissingDescription, NoQuestions} ==>
      exists i :: (0 <= i < |qs| && (forall j :: 0 <= j < i ==> QuestionComplete(qs[j])) &&
        QuestionError(qs[i]) == Validation(title, description, qs))
  {
    if !Blank(title) && !Blank(description) && qs != [] {
      FirstQuestionErrorNotQuizLevel(qs);
      if FirstQuestionError(qs).Some? {
        FirstQuestionErrorIsFirst(qs);
        var i :| 0 <= i < |qs| && (forall j :: 0 <= j < i ==> QuestionError(qs[j]).None?) &&
          QuestionError(qs[i]) == FirstQuestionError(qs);
        forall j | 0 <= j < i ensures QuestionComplete(qs[j]) {
          QuestionErrorNoneIff(qs[j]);
        }
      }
    }
  }

  lemma {:induction false} FirstQuestionErrorNotQuizLevel(qs: seq<Question>)
    ensures FirstQuestionError(qs).Some? ==> FirstQuestionError(qs).value !in {MissingTitle, MissingDescription, NoQuestions}
  {
    if qs != [] && QuestionError(qs[0]).None? {
      FirstQuestionErrorNotQuizLevel(qs[1..]);
    }
  }

  /** `validateQuiz`: the quiz-level checks, then a loop returning at the first failing question. */
  method ValidateQuiz(title: string, description: string, questions: seq<Question>) returns (e: Option<BuilderError>)
    ensures e == Validation(title, description, questions)
  {
    if Blank(title) {
      return Some(MissingTitle);
    }
    if Blank(description) {
      return Some(MissingDescription);
    }
    if |questions| == 0 {
      return Some(NoQuestions);
    }
    var i := 0;
    while i < |questions|
      invariant 0 <= i <= |questions|
      invariant FirstQuestionError(questions) == FirstQuestionError(questions[i..])
    {
      var q := questions[i];
      assert questions[i..][0] == q && questions[i..][1..] == questions[i + 1..];
      if Blank(q.prompt) {
        return Some(MissingPrompt);
      }
      if q.qtype == Open {
        if Blank(q.answer.GetOr("")) {
          return Some(MissingOpenAnswer);
        }
        i := i + 1;
        continue;
      }
      if |q.options| < 2 {
        return Some(TooFewOptions);
      }
      if !HasCorrectOption(q.options) {
        return Some(NoCorrectOption);
      }
      if HasBlankOption(q.options) {
        return Some(BlankOptionText);
      }
      i := i + 1;
    }
    return None;
  }

  // ---------------------------------------------------------------------------
  // Submission.

  /** `s.trim() || undefined`. */
  function NonBlankOr(s: string): (r: Option<string>)
    ensures r.None? <==> Blank(s)
    ensures r.Some? ==> r.value == Trim(s)
  {
    BlankIff(s);
    if Trim(s) == "" then None else Some(Trim(s))
  }

  function NormalizeMedia(m: MediaResource): MediaResource {
    m.(url := Trim(m.url), caption := if m.caption.Some? then NonBlankOr(m.caption.value) else None)
  }

  function TrimOptionTexts(options: seq<AnswerOption>): (r: seq<AnswerOption>)
    ensures |r| == |options|
    ensures forall i :: 0 <= i < |options| ==> r[i] == options[i].(text := Trim(options[i].text))
  {
    seq(|options|, i requires 0 <= i < |options| => options[i].(text := Trim(options[i].text)))
  }

  function NormalizeMediaList(ms: seq<MediaResource>): (r: seq<MediaResource>)
    ensures |r| == |ms| && forall i :: 0 <= i < |ms| ==> r[i] == NormalizeMedia(ms[i])
  {
    seq(|ms|, i requires 0 <= i < |ms| => NormalizeMedia(ms[i]))
  }

  /** The question as `handleSubmit` hands it on. */
  function NormalizeQuestion(q: Question): (r: Question)
    ensures r.id == q.id && r.prompt == q.prompt && r.qtype == q.qtype && r.points == q.points
    ensures q.qtype == Open ==> r.options == [] && r.answer == (if q.answer.Some? then Some(Trim(q.answer.value)) else None)
    ensures q.qtype != Open ==> r.answer == None && |r.options| == |q.options|
    ensures q.qtype != Open ==> forall i :: 0 <= i < |q.options| ==>
      (r.options[i].id == q.options[i].id && r.options[i].isCorrect == q.options[i].isCorrect && r.options[i].text == Trim(q.options[i].text))
  {
    q.(options := if q.qtype == Open then [] else TrimOptionTexts(q.options),
       answer := if q.qtype == Open then (if q.answer.Some? then Some(Trim(q.answer.value)) else None) else None,
       media := if q.media.Some? then Some(NormalizeMediaList(q.media.value)) else None)
  }

  /** Normalising twice is normalising once. */
  lemma NormalizeQuestionIdempotent(q: Question)
    ensures NormalizeQuestion(NormalizeQuestion(q)) == NormalizeQuestion(q)
  {
    var n := NormalizeQuestion(q);
    if q.qtype != Open {
      TrimOptionTextsIdempotent(q.options);
    } else if q.answer.Some? {
      TrimIdempotent(q.answer.value);
    }
    if q.media.Some? {
      NormalizeMediaListIdempotent(q.media.value);
    }
  }

  lemma TrimOptionTextsIdempotent(options: seq<AnswerOption>)
    ensures TrimOptionTexts(TrimOptionTexts(options)) == TrimOptionTexts(options)
  {
    var r := TrimOptionTexts(options);
    forall i | 0 <= i < |options| ensures TrimOptionTexts(r)[i] == r[i] {
      TrimIdempotent(options[i].text);
    }
  }

  lemma NormalizeMediaIdempotent(m: MediaResource)
    ensures NormalizeMedia(NormalizeMedia(m)) == NormalizeMedia(m)
  {
    TrimIdempotent(m.url);
    if m.caption.Some? {
      TrimIdempotent(m.caption.value);
    }
  }

  lemma NormalizeMediaListIdempotent(ms: seq<MediaResource>)
    ensures NormalizeMediaList(NormalizeMediaList(ms)) == NormalizeMediaList(ms)
  {
    forall i | 0 <= i < |ms| ensures NormalizeMedia(NormalizeMedia(ms[i])) == NormalizeMedia(ms[i]) {
      NormalizeMediaIdempotent(ms[i]);
    }
  }

  /** A question passes or fails validation the same way before and after normalisation. */
  lemma NormalizeQuestionError(q: Question)
    ensures QuestionError(NormalizeQuestion(q)) == QuestionError(q)
  {
    var n := NormalizeQuestion(q);
    if q.qtype == Open {
      if q.answer.Some? {
        BlankTrim(q.answer.value);
      }
    } else {
      NormalizeOptionChecks(q.options, n.options);
    }
  }

  /** Trimming the option texts keeps the option checks' verdicts. */
  lemma NormalizeOptionChecks(options: seq<AnswerOption>, trimmed: seq<AnswerOption>)
    requires |trimmed| == |options|
    requires forall i :: 0 <= i < |options| ==> trimmed[i].isCorrect == options[i].isCorrect && trimmed[i].text == Trim(options[i].text)
    ensures HasCorrectOption(trimmed) == HasCorrectOption(options)
    ensures HasBlankOption(trimmed) == HasBlankOption(options)
  {
    forall i | 0 <= i < |options| ensures Blank(trimmed[i].text) == Blank(options[i].text) {
      BlankTrim(options[i].text);
    }
    if HasCorrectOption(options) {
      var i :| 0 <= i < |options| && options[i].isCorrect;
      assert trimmed[i].isCorrect;
    }
    if HasCorrectOption(trimmed) {
      var i :| 0 <= i < |trimmed| && trimmed[i].isCorrect;
      assert options[i].isCorrect;
    }
    if HasBlankOption(options) {
      var i :| 0 <= i < |options| && Blank(options[i].text);
      assert Blank(trimmed[i].text);
    }
    if HasBlankOption(trimmed) {
      var i :| 0 <= i < |trimmed| && Blank(trimmed[i].text);
      assert Blank(options[i].text);
    }
  }

  function NormalizeQuestions(qs: seq<Question>): (r: seq<Question>)
    ensures |r| == |qs| && forall i :: 0 <= i < |qs| ==> r[i] == NormalizeQuestion(qs[i])
  {
    seq(|qs|, i requires 0 <= i < |qs| => NormalizeQuestion(qs[i]))
  }

  /** Normalising the questions keeps their ids and order, and a second pass changes nothing. */
  lemma NormalizeQuestionsEffect(qs: seq<Question>)
    ensures QuestionIds(NormalizeQuestions(qs)) == QuestionIds(qs)
    ensures NormalizeQuestions(NormalizeQuestions(qs)) == NormalizeQuestions(qs)
  {
    forall i | 0 <= i < |qs| ensures NormalizeQuestion(NormalizeQuestion(qs[i])) == NormalizeQuestion(qs[i]) {
      NormalizeQuestionIdempotent(qs[i]);
    }
  }

  /** The definition `handleSubmit` passes to `onSubmit`. */
  function Draft(initialId: Option<string>, title: string, description: string, coverImage: string, category: string,
                 tagsInput: string, difficulty: Option<Difficulty>, level: Option<int>, duration: Option<int>,
                 focusArea: string, recommendedFor: string, qs: seq<Question>): QuizContext.QuizDraft
  {
    QuizContext.QuizDraft(initialId, QuizDefinition(
      Trim(title), Trim(description), duration, level, difficulty,
      NonBlankOr(focusArea), NonBlankOr(recommendedFor), None, None, None, None,
      NonBlankOr(coverImage), Some(ParseTags(tagsInput)), NonBlankOr(category),
      NormalizeQuestions(qs)))
  }

  /**
   * The submitted definition passes validation exactly when the form did: trimming
   * the title, the description and the questions does not change the verdict.
   */
  lemma DraftValidation(initialId: Option<string>, title: string, description: string, coverImage: string, category: string,
                        tagsInput: string, difficulty: Option<Difficulty>, level: Option<int>, duration: Option<int>,
                        focusArea: string, recommendedFor: string, qs: seq<Question>)
    ensures var d := Draft(initialId, title, description, coverImage, category, tagsInput, difficulty, level, duration, focusArea, recommendedFor, qs).def;
      Validation(d.title, d.description, d.questions) == Validation(title, description, qs)
  {
    BlankTrim(title);
    BlankTrim(description);
    NormalizeFirstError(qs);
  }

  lemma {:induction false} NormalizeFirstError(qs: seq<Question>)
    ensures FirstQuestionError(NormalizeQuestions(qs)) == FirstQuestionError(qs)
  {
    if qs != [] {
      NormalizeQuestionError(qs[0]);
      assert NormalizeQuestions(qs)[1..] == NormalizeQuestions(qs[1..]);
      NormalizeFirstError(qs[1..]);
    }
  }

  // ---------------------------------------------------------------------------
  // The form.

  /** The editor's `useState` values and handlers. */
  class QuizBuilderForm {
    const initialId: Option<string>
    var title: string
    var description: string
    var coverImage: string
    var category: string
    var tagsInput: string
    var difficulty: Option<Difficulty>
    var level: Option<int>
    var duration: Option<int>
    var focusArea: string
    var recommendedFor: string
    var questions: seq<Question>
    var error: Option<string>
    var isSubmitting: bool

    /** The form opened on `initial`, or on an empty quiz with one blank question. */
    constructor (initial: Option<Quiz>, freshQuestionId: string, firstOptionId: string, secondOptionId: string)
      ensures initialId == if initial.Some? then Some(initial.value.id) else None
      ensures initial.None? ==> title == "" && description == "" && tagsInput == ""
      ensures initial.None? ==> coverImage == "" && category == "" && focusArea == "" && recommendedFor == ""
      ensures initial.None? ==> difficulty.None? && level.None? && duration.None?
      ensures initial.None? ==> questions == [BlankQuestion(freshQuestionId, firstOptionId, secondOptionId)]
      ensures initial.Some? ==> title == initial.value.def.title && description == initial.value.def.description
      ensures initial.Some? ==> questions == initial.value.def.questions
      ensures initial.Some? ==> tagsInput == (if initial.value.def.tags.Some? then Join(initial.value.def.tags.value, ", ") else "")
      ensures initial.Some? ==> difficulty == initial.value.def.difficulty && level == initial.value.def.level && duration == initial.value.def.duration
      ensures initial.Some? ==> coverImage == initial.value.def.coverImage.GetOr("") && category == initial.value.def.category.GetOr("")
      ensures initial.Some? ==> focusArea == initial.value.def.focusArea.GetOr("") && recommendedFor == initial.value.def.recommendedFor.GetOr("")
      ensures error.None? && !isSubmitting
    {
      if initial.Some? {
        var d := initial.value.def;
        initialId, title, description := Some(initial.value.id), d.title, d.description;
        coverImage, category := d.coverImage.GetOr(""), d.category.GetOr("");
        tagsInput := if d.tags.Some? then Join(d.tags.value, ", ") else "";
        difficulty, level, duration := d.difficulty, d.level, d.duration;
        focusArea, recommendedFor := d.focusArea.GetOr(""), d.recommendedFor.GetOr("");
        questions := d.questions;
      } else {
        initialId, title, description := None, "", "";
        coverImage, category, tagsInput := "", "", "";
        difficulty, level, duration := None, None, None;
        focusArea, recommendedFor := "", "";
        questions := [BlankQuestion(freshQuestionId, firstOptionId, secondOptionId)];
      }
      error, isSubmitting := None, false;
    }

    /** `totalPoints`: the sum of `points ?? 1` over the questions. */
    function TotalPoints(): int
      reads this
    {
      QuizTypes.TotalPoints(questions)
    }

    method AddQuestion(freshQuestionId: string, firstOptionId: string, secondOptionId: string)
      modifies this`questions
      ensures questions == old(questions) + [BlankQuestion(freshQuestionId, firstOptionId, secondOptionId)]
      ensures TotalPoints() == old(TotalPoints()) + 1
    {
      TotalPointsConcat(questions, [BlankQuestion(freshQuestionId, firstOptionId, secondOptionId)]);
      questions := questions + [BlankQuestion(freshQuestionId, firstOptionId, secondOptionId)];
    }

    /** The handlers that rewrite the question with id `questionId` and no other. */
    method EditQuestion(questionId: string, e: QuestionEdit)
      modifies this`questions
      ensures questions == EditMatching(old(questions), questionId, e)
    {
      questions := EditMatching(questions, questionId, e);
    }

    method UpdateQuestion(questionId: string, u: QuestionUpdate, firstId: string, secondId: string)
      modifies this`questions
      ensures questions == EditMatching(old(questions), questionId, Update(u, firstId, secondId))
    {
      EditQuestion(questionId, Update(u, firstId, secondId));
    }

    /** Refused, with an error, when only one question is left. */
    method DeleteQuestion(questionId: string)
      modifies this`questions, this`error
      ensures |old(questions)| == 1 ==> questions == old(questions) && error == Some(Message(LastQuestion))
      ensures |old(questions)| != 1 ==> questions == WithoutQuestion(old(questions), questionId) && error == old(error)
      ensures |old(questions)| >= 2 && DistinctQuestionIds(old(questions)) ==> |questions| >= 1 && DistinctQuestionIds(questions)
    {
      if |questions| == 1 {
        error := Some(Message(LastQuestion));
        return;
      }
      if DistinctQuestionIds(questions) {
        WithoutQuestionDistinct(questions, questionId);
      }
      questions := WithoutQuestion(questions, questionId);
    }

    method AddOption(questionId: string, newOptionId: string)
      modifies this`questions
      ensures questions == EditMatching(old(questions), questionId, QuestionEdit.AddOption(newOptionId))
    {
      EditQuestion(questionId, QuestionEdit.AddOption(newOptionId));
    }

    method UpdateOption(questionId: string, optionId: string, u: OptionUpdate)
      modifies this`questions
      ensures questions == EditMatching(old(questions), questionId, EditOption(optionId, u))
    {
      EditQuestion(questionId, EditOption(optionId, u));
    }

    method DeleteOption(questionId: string, optionId: string, firstId: string, secondId: string)
      modifies this`questions
      ensures questions == EditMatching(old(questions), questionId, RemoveOption(optionId, firstId, secondId))
    {
      EditQuestion(questionId, RemoveOption(optionId, firstId, secondId));
    }

    method ToggleCorrectOption(questionId: string, optionId: string)
      modifies this`questions
      ensures questions == EditMatching(old(questions), questionId, ToggleCorrect(optionId))
    {
      EditQuestion(questionId, ToggleCorrect(optionId));
    }

    method AddMedia(questionId: string, newMediaId: string)
      modifies this`questions
      ensures questions == EditMatching(old(questions), questionId, QuestionEdit.AddMedia(newMediaId))
    {
      EditQuestion(questionId, QuestionEdit.AddMedia(newMediaId));
    }

    method UpdateMedia(questionId: string, mediaId: string, u: MediaUpdate)
      modifies this`questions
      ensures questions == EditMatching(old(questions), questionId, EditMedia(mediaId, u))
    {
      EditQuestion(questionId, EditMedia(mediaId, u));
    }

    method DeleteMedia(questionId: string, mediaId: string)
      modifies this`questions
      ensures questions == EditMatching(old(questions), questionId, RemoveMedia(mediaId))
    {
      EditQuestion(questionId, RemoveMedia(mediaId));
    }

    /**
     * `handleSubmit`: the validation message, or the normalised definition that
     * `onSubmit` receives.
     */
    method Submit() returns (submitted: Option<QuizContext.QuizDraft>)
      modifies this`error, this`isSubmitting
      ensures submitted.None? <==> Validation(title, description, questions).Some?
      ensures submitted.None? ==> error == Some(Message(Validation(title, description, questions).value)) && isSubmitting == old(isSubmitting)
      ensures submitted.Some? ==> error.None? && !isSubmitting
      ensures submitted.Some? ==> submitted.value == Draft(initialId, title, description, coverImage, category, tagsInput, difficulty, level, duration,
                                focusArea, recommendedFor, questions)
    {
      error := None;
      var validationError := ValidateQuiz(title, description, questions);
      if validationError.Some? {
        error := Some(Message(validationError.value));
        return None;
      }
      isSubmitting := true;
      var draft := Draft(initialId, title, description, coverImage, category, tagsInput, difficulty, level, duration,
                         focusArea, recommendedFor, questions);
      isSubmitting := false;
      return Some(draft);
    }
  }
}
