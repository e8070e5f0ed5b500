/**
 * The question card of components/QuestionCard.tsx: the answer being prepared for one
 * question, its countdown and the payload handed to `submitAnswer`. The card is a class
 * whose fields are its `useState` values and its start-time ref; `submitAnswer` of the
 * quiz provider is passed in as a function, and `Date.now()` as `now`.
 */
module QuestionCard {
  import opened Wrappers
  import opened Strings
  import opened QuizTypes
  import opened Grading
  import opened Selection

  // ---------------------------------------------------------------------------
  // `formatTime`.

  /** JavaScript's `%`: the remainder takes the sign of the dividend. */
  function JsRem(a: int, b: int): int
    requires b > 0
  {
    if a >= 0 then a % b else -((-a) % b)
  }

  /** `"{s}s"` under a minute, otherwise `"{minutes}m {seconds, two digits}s"`. */
  function FormatTime(seconds: int): string {
    var minutes := seconds / 60;
    var remainingSeconds := JsRem(seconds, 60);
    if minutes <= 0 then IntStr(remainingSeconds) + "s"
    else IntStr(minutes) + "m " + PadStart(IntStr(remainingSeconds), 2, '0') + "s"
  }

  predicate AllDigits(s: string) {
    forall k :: 0 <= k < |s| ==> IsDigit(s[k])
  }

  /** Reads `"{s}s"` or `"{m}m {ss}s"` back as a number of seconds. */
  function ReadTime(t: string): Option<int> {
    if |t| == 0 || t[|t| - 1] != 's' then None
    else
      var b := t[..|t| - 1];
      if b != [] && AllDigits(b) then Some(DigitsValue(b))
      else if |b| >= 5 && b[|b| - 4] == 'm' && b[|b| - 3] == ' ' && AllDigits(b[..|b| - 4]) && AllDigits(b[|b| - 2..])
      then Some(60 * DigitsValue(b[..|b| - 4]) + DigitsValue(b[|b| - 2..]))
      else None
  }

  /** Under a minute the text is the number of seconds followed by `s`. */
  lemma FormatTimeShort(seconds: int)
    requires 0 <= seconds < 60
    ensures FormatTime(seconds) == NatStr(seconds) + "s"
  {
  }

  /** From a minute on, the seconds part always has exactly two digits. */
  lemma FormatTimeLong(seconds: int)
    requires seconds >= 60
    ensures FormatTime(seconds) == NatStr(seconds / 60) + "m " + PadStart(NatStr(seconds % 60), 2, '0') + "s"
    ensures |PadStart(NatStr(seconds % 60), 2, '0')| == 2
  {
    NatStrLength(seconds % 60, 2);
  }

  /** A number of digits followed by `s` reads back as that number. */
  lemma ReadTimeShort(d: string)
    requires d != [] && AllDigits(d)
    ensures ReadTime(d + "s") == Some(DigitsValue(d))
  {
    assert (d + "s")[..|d + "s"| - 1] == d;
  }

  /** Minutes, `m `, two digits and `s` read back as minutes and seconds. */
  lemma ReadTimeLong(m: string, p: string)
    requires m != [] && AllDigits(m) && |p| == 2 && AllDigits(p)
    ensures ReadTime(m + "m " + p + "s") == Some(60 * DigitsValue(m) + DigitsValue(p))
  {
    var t := m + "m " + p + "s";
    var b := m + "m " + p;
    assert t[..|t| - 1] == b;
    assert b[|b| - 4] == 'm';
    assert !AllDigits(b);
    assert b[..|b| - 4] == m;
    assert b[|b| - 2..] == p;
  }

  /** Every non-negative time reads back as itself. */
  lemma FormatTimeReadBack(seconds: int)
    requires seconds >= 0
    ensures ReadTime(FormatTime(seconds)) == Some(seconds)
  {
    if seconds < 60 {
      FormatTimeShort(seconds);
      NatStrRoundTrip(seconds);
      ReadTimeShort(NatStr(seconds));
    } else {
      FormatTimeLong(seconds);
      NatStrRoundTrip(seconds / 60);
      ZeroPadValue(seconds % 60, 2);
      ReadTimeLong(NatStr(seconds / 60), PadStart(NatStr(seconds % 60), 2, '0'));
    }
  }

  // ---------------------------------------------------------------------------
  // Pure helpers.

  /** `isSingleChoice`: a click replaces the selection for these types. */
  predicate IsSingleChoice(t: QuestionType) {
    t == Single || t == TrueFalse
  }

  const TimeUpMessage: string := "Time's up! Review the explanation and try again later."
  const CorrectMessage: string := "Great job! You nailed this one."
  const IncorrectMessage: string := "Not quite. Review the explanation and try again next time."

  /** `getFeedback`: a timed-out response always reads as time up. */
  function GetFeedback(r: Response): (m: string)
    ensures r.timedOut == Some(true) ==> m == TimeUpMessage
  {
    if r.timedOut == Some(true) then TimeUpMessage else if r.isCorrect then CorrectMessage else IncorrectMessage
  }

  /** The three messages differ, so the feedback tells time-up, right and wrong apart. */
  lemma GetFeedbackTellsApart(r: Response)
    ensures GetFeedback(r) == CorrectMessage <==> r.timedOut != Some(true) && r.isCorrect
    ensures GetFeedback(r) == IncorrectMessage <==> r.timedOut != Some(true) && !r.isCorrect
    ensures GetFeedback(r) == TimeUpMessage <==> r.timedOut == Some(true)
  {
    assert |CorrectMessage| < |TimeUpMessage| < |IncorrectMessage|;
  }

  /** `choiceOptions`: the options shown are the ones the answer is graded against. */
  function ChoiceOptions(q: Question): (options: seq<AnswerOption>)
    ensures options == GradingOptions(q)
  {
    if q.qtype == TrueFalse && |q.options| == 0 then TrueFalseFallback else q.options
  }

  /** A true/false question without options shows "true" and "false", and only "true" is correct. */
  lemma ChoiceOptionsFallback(q: Question)
    requires q.qtype == TrueFalse && q.options == []
    ensures |ChoiceOptions(q)| == 2
    ensures ChoiceOptions(q)[0].id == "true" && ChoiceOptions(q)[1].id == "false"
    ensures CorrectIds(ChoiceOptions(q)) == ["true"]
  {
    assert CorrectIds(TrueFalseFallback) == ["true"] by {
      var f := TrueFalseFallback;
      assert f[1..][1..] == [];
      assert CorrectIds(f[1..]) == [];
    }
  }

  /** A value JavaScript treats as true: a present, non-zero number. */
  predicate Truthy(v: Option<int>) {
    v.Some? && v.value != 0
  }

  // ---------------------------------------------------------------------------
  // The card.

  class Card {
    const question: Option<Question>
    var selectedOptionIds: seq<string>
    var openAnswer: string
    var feedback: Option<string>
    var remainingTime: Option<int>
    var startTimestamp: Option<int>

    /** The state after the reset effect, from the stored response if there is one. */
    constructor(question: Option<Question>, stored: Option<Response>, now: int)
      ensures this.question == question
      ensures selectedOptionIds == (if stored.Some? then stored.value.selectedOptionIds else [])
      ensures openAnswer == (if stored.Some? then stored.value.freeformText.GetOr("") else "")
      ensures feedback == (if stored.Some? then Some(GetFeedback(stored.value)) else None)
      ensures remainingTime == (if question.Some? then question.value.timeLimit else None)
      ensures startTimestamp == Some(now)
    {
      this.question := question;
      selectedOptionIds := if stored.Some? then stored.value.selectedOptionIds else [];
      openAnswer := if stored.Some? then stored.value.freeformText.GetOr("") else "";
      feedback := if stored.Some? then Some(GetFeedback(stored.value)) else None;
      remainingTime := if question.Some? then question.value.timeLimit else None;
      startTimestamp := Some(now);
    }

    /**
     * `computeElapsedSeconds`: the time used from the countdown when the question has a
     * limit, otherwise the rounded seconds since the start; never negative.
     */
    function ElapsedSeconds(now: int): (s: int)
      reads this
      ensures s >= 0
      ensures question.Some? && Truthy(question.value.timeLimit) && remainingTime.Some? ==>
        s == (if question.value.timeLimit.value - remainingTime.value >= 0
              then question.value.timeLimit.value - remainingTime.value else 0)
    {
      if question.Some? && Truthy(question.value.timeLimit) && remainingTime.Some? then
        var used := question.value.timeLimit.value - remainingTime.value;
        if used >= 0 then used else 0
      else if Truthy(startTimestamp) then
        var rounded := (now - startTimestamp.value + 500) / 1000;
        if rounded >= 0 then rounded else 0
      else 0
    }

    /** `handleSelection`: a single-choice click replaces the selection, otherwise toggles the id. */
    method HandleSelection(optionId: string)
      requires question.Some?
      modifies this`selectedOptionIds
      ensures IsSingleChoice(question.value.qtype) ==> selectedOptionIds == [optionId]
      ensures !IsSingleChoice(question.value.qtype) ==> selectedOptionIds == ToggleId(old(selectedOptionIds), optionId)
    {
      if IsSingleChoice(question.value.qtype) {
        selectedOptionIds := [optionId];
        return;
      }
      selectedOptionIds := ToggleId(selectedOptionIds, optionId);
    }

    /** What `handleSubmit` hands to `submitAnswer`, if anything. */
    function SubmitPayload(now: int): (p: Option<AnswerPayload>)
      reads this
      requires question.Some?
      ensures question.value.qtype == Open ==> (p.None? <==> Trim(openAnswer) == "")
      ensures question.value.qtype != Open ==> (p.None? <==> selectedOptionIds == [])
      ensures p.Some? ==> p.value.timedOut.None? && p.value.timeTakenSeconds == Some(ElapsedSeconds(now))
      ensures p.Some? && question.value.qtype == Open ==>
        p.value.freeformText == Some(Trim(openAnswer)) && p.value.selectedOptionIds.None?
      ensures p.Some? && question.value.qtype != Open ==>
        p.value.selectedOptionIds == Some(selectedOptionIds) && p.value.freeformText.None?
    {
      if question.value.qtype == Open then
        if Trim(openAnswer) == "" then None
        else Some(AnswerPayload(None, Some(Trim(openAnswer)), None, Some(ElapsedSeconds(now))))
      else if |selectedOptionIds| == 0 then None
      else Some(AnswerPayload(Some(selectedOptionIds), None, None, Some(ElapsedSeconds(now))))
    }

    /**
     * `handleSubmit`: a blank open answer or an empty selection sends nothing; otherwise the
     * payload is sent and, when a response comes back, its feedback is shown.
     */
    method HandleSubmit(now: int, submit: AnswerPayload -> Option<Response>) returns (sent: Option<AnswerPayload>)
      requires question.Some?
      modifies this`feedback
      ensures sent == old(SubmitPayload(now))
      ensures sent.None? || submit(sent.value).None? ==> feedback == old(feedback)
      ensures sent.Some? && submit(sent.value).Some? ==> feedback == Some(GetFeedback(submit(sent.value).value))
    {
      sent := SubmitPayload(now);
      if sent.None? {
        return;
      }
      var response := submit(sent.value);
      if response.None? {
        return;
      }
      feedback := Some(GetFeedback(response.value));
    }

    /** What `handleTimeExpired` hands to `submitAnswer`: the answer so far, marked as timed out. */
    function TimeoutPayload(now: int): (p: AnswerPayload)
      reads this
      requires question.Some?
      ensures p.timedOut == Some(true) && p.timeTakenSeconds == Some(ElapsedSeconds(now))
      ensures question.value.qtype == Open ==> p.selectedOptionIds == Some([]) && p.freeformText == Some(Trim(openAnswer))
      ensures question.value.qtype != Open ==> p.selectedOptionIds == Some(selectedOptionIds) && p.freeformText.None?
    {
      AnswerPayload(
        Some(if question.value.qtype == Open then [] else selectedOptionIds),
        if question.value.qtype == Open then Some(Trim(openAnswer)) else None,
        Some(true),
        Some(ElapsedSeconds(now)))
    }

    /** `handleTimeExpired`: unless already answered, the answer so far is sent as timed out. */
    method HandleTimeExpired(now: int, hasSubmitted: bool, submit: AnswerPayload -> Option<Response>)
      returns (sent: Option<AnswerPayload>)
      modifies this`feedback
      ensures question.None? || hasSubmitted ==> sent.None? && feedback == old(feedback)
      ensures question.Some? && !hasSubmitted ==> sent == Some(old(TimeoutPayload(now)))
      ensures sent.Some? && submit(sent.value).Some? ==> feedback == Some(TimeUpMessage)
      ensures sent.Some? && submit(sent.value).None? ==> feedback == old(feedback)
    {
      if question.None? || hasSubmitted {
        return None;
      }
      var payload := TimeoutPayload(now);
      sent := Some(payload);
      var response := submit(payload);
      if response.Some? {
        feedback := Some(TimeUpMessage);
      }
    }

    /**
     * The timer effect: with a time limit and no stored answer the countdown restarts from
     * the limit and the start time is taken again; otherwise nothing changes.
     */
    method StartTimer(now: int, hasSubmitted: bool)
      modifies this`remainingTime, this`startTimestamp
      ensures question.Some? && Truthy(question.value.timeLimit) && !hasSubmitted ==>
        remainingTime == question.value.timeLimit && startTimestamp == Some(now)
      ensures !(question.Some? && Truthy(question.value.timeLimit)) || hasSubmitted ==>
        remainingTime == old(remainingTime) && startTimestamp == old(startTimestamp)
    {
      if question.None? || !Truthy(question.value.timeLimit) || hasSubmitted {
        return;
      }
      remainingTime := question.value.timeLimit;
      startTimestamp := Some(now);
    }

    /**
     * `handleNext`: on the last question the card only reports that the quiz is over; otherwise
     * it clears the answer and feedback before moving on. The result is `isLastQuestion`.
     */
    method HandleNext(currentQuestionIndex: int, totalQuestions: int) returns (isLastQuestion: bool)
      modifies this`selectedOptionIds, this`openAnswer, this`feedback
      ensures isLastQuestion <==> currentQuestionIndex == totalQuestions - 1
      ensures isLastQuestion ==>
        selectedOptionIds == old(selectedOptionIds) && openAnswer == old(openAnswer) && feedback == old(feedback)
      ensures !isLastQuestion ==> selectedOptionIds == [] && openAnswer == "" && feedback.None?
    {
      isLastQuestion := currentQuestionIndex == totalQuestions - 1;
      if isLastQuestion {
        return;
      }
      selectedOptionIds := [];
      openAnswer := "";
      feedback := None;
    }

    /**
     * One second of the countdown: the time goes down by one, and the question times out
     * when the previous value was at most 1.
     */
    method Tick(now: int, hasSubmitted: bool, submit: AnswerPayload -> Option<Response>)
      returns (sent: Option<AnswerPayload>)
      modifies this`feedback, this`remainingTime
      ensures old(remainingTime).None? ==> remainingTime == old(remainingTime) && sent.None? && feedback == old(feedback)
      ensures old(remainingTime).Some? && old(remainingTime).value > 1 ==>
        remainingTime == Some(old(remainingTime).value - 1) && sent.None? && feedback == old(feedback)
      ensures old(remainingTime).Some? && old(remainingTime).value <= 1 ==>
        && remainingTime == Some(0)
        && (question.Some? && !hasSubmitted ==> sent == Some(old(TimeoutPayload(now))))
        && (question.None? || hasSubmitted ==> sent.None?)
        && (sent.Some? && submit(sent.value).Some? ==> feedback == Some(TimeUpMessage))
        && (sent.None? || submit(sent.value).None? ==> feedback == old(feedback))
    {
      if remainingTime.None? {
        return None;
      }
      if remainingTime.value <= 1 {
        sent := HandleTimeExpired(now, hasSubmitted, submit);
        remainingTime := Some(0);
        return;
      }
      remainingTime := Some(remainingTime.value - 1);
      sent := None;
    }
  }
}
