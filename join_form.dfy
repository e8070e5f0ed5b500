/**
 * Joining a live session (components/ParticipantJoinForm.tsx): a PIN code or a shared
 * link is matched against the built-in quizzes, and the participant is sent to the
 * session page of the first quiz that matches. The form is a class whose fields are its
 * `useState` values; `router.push` becomes the route the submit returns.
 */
module JoinForm {
  import opened Wrappers
  import opened Strings
  import opened QuizTypes
  import opened QuizData
  import opened LiveSession

  /** `code.replace(/\s+/g, "").toLowerCase()`. */
  function NormalizeCode(code: string): (r: string)
    ensures forall k :: 0 <= k < |r| ==> !IsSpace(r[k])
  {
    LowerNoSpace(RemoveSpaces(code));
    Lower(RemoveSpaces(code))
  }

  /** `link.trim().toLowerCase()`. */
  function NormalizeLink(link: string): string {
    Lower(Trim(link))
  }

  lemma LowerNoSpace(s: string)
    requires forall k :: 0 <= k < |s| ==> !IsSpace(s[k])
    ensures forall k :: 0 <= k < |Lower(s)| ==> !IsSpace(Lower(s)[k])
  {
  }

  /** A quiz's PIN code; every built-in quiz has one. */
  function AccessCode(q: StaticQuiz): string {
    q.def.accessCode.GetOr("")
  }

  /** A quiz's shared link; every built-in quiz has one. */
  function JoinLink(q: StaticQuiz): string {
    q.def.joinLink.GetOr("")
  }

  /** The code matches case-insensitively, or the link is the quiz's link or ends with `/` and its id. */
  predicate Matches(q: StaticQuiz, normalizedCode: string, normalizedLink: string) {
    || (Lower(AccessCode(q)) == normalizedCode && |normalizedCode| > 0)
    || (|normalizedLink| > 0 && (Lower(JoinLink(q)) == normalizedLink || EndsWith(normalizedLink, "/" + Lower(q.id))))
  }

  /** `quizzes.find(...)`: the first quiz that matches. */
  function FindJoin(quizzes: seq<StaticQuiz>, normalizedCode: string, normalizedLink: string): (r: Option<StaticQuiz>)
    ensures r.None? <==> forall k :: 0 <= k < |quizzes| ==> !Matches(quizzes[k], normalizedCode, normalizedLink)
    ensures r.Some? ==> exists k :: 0 <= k < |quizzes| && quizzes[k] == r.value && Matches(r.value, normalizedCode, normalizedLink) &&
                                    forall j :: 0 <= j < k ==> !Matches(quizzes[j], normalizedCode, normalizedLink)
  {
    if quizzes == [] then None
    else if Matches(quizzes[0], normalizedCode, normalizedLink) then Some(quizzes[0])
    else
      var r := FindJoin(quizzes[1..], normalizedCode, normalizedLink);
      assert forall k :: 1 <= k < |quizzes| ==> quizzes[k] == quizzes[1..][k - 1];
      r
  }

  const SessionRoute: string := "/participate/session?quiz="

  const NotFoundMessage: string := "Aucun quiz correspondant trouvé. Vérifiez le code PIN ou le lien partagé."

  /** The session page of a quiz. */
  function JoinRoute(id: string): (route: string)
    ensures StartsWith(route, SessionRoute)
  {
    SessionRoute + id
  }

  /** The `quiz` parameter the session page reads back from a route. */
  function QuizParam(route: string): Option<string> {
    if StartsWith(route, SessionRoute) then Some(route[|SessionRoute|..]) else None
  }

  /** The session page reads back the id the form sent. */
  lemma JoinRouteReadBack(id: string)
    ensures QuizParam(JoinRoute(id)) == Some(id)
  {
    assert JoinRoute(id)[|SessionRoute|..] == id;
  }

  // ---------------------------------------------------------------------------
  // What the normalisation ignores.

  lemma {:induction false} RemoveSpacesEmpty(s: string)
    ensures RemoveSpaces(s) == [] <==> AllSpace(s)
  {
    if s != [] {
      RemoveSpacesEmpty(s[1..]);
      assert forall k :: 1 <= k < |s| ==> s[k] == s[1..][k - 1];
    }
  }

  lemma {:induction false} RemoveSpacesConcat(a: string, b: string)
    ensures RemoveSpaces(a + b) == RemoveSpaces(a) + RemoveSpaces(b)
  {
    if a == [] {
      assert a + b == b;
    } else {
      assert (a + b)[1..] == a[1..] + b;
      RemoveSpacesConcat(a[1..], b);
    }
  }

  lemma {:induction false} RemoveSpacesLower(s: string)
    ensures RemoveSpaces(Lower(s)) == Lower(RemoveSpaces(s))
  {
    if s != [] {
      var l := Lower(s);
      assert l[0] == LowerChar(s[0]) && l[1..] == Lower(s[1..]);
      assert IsSpace(l[0]) == IsSpace(s[0]);
      RemoveSpacesLower(s[1..]);
      if !IsSpace(s[0]) {
        LowerConcat([s[0]], RemoveSpaces(s[1..]));
        assert Lower([s[0]]) == [l[0]];
      }
    }
  }

  /** A code made only of white space normalises to nothing. */
  lemma NormalizeCodeBlank(code: string)
    ensures NormalizeCode(code) == [] <==> AllSpace(code)
  {
    RemoveSpacesEmpty(code);
  }

  /** White space anywhere in the code and the case of its letters do not matter. */
  lemma NormalizeCodeIgnores(a: string, c: char, b: string)
    requires IsSpace(c)
    ensures NormalizeCode(a + [c] + b) == NormalizeCode(a + b)
    ensures NormalizeCode(Lower(a)) == NormalizeCode(a)
  {
    RemoveSpacesConcat(a + [c], b);
    RemoveSpacesConcat(a, [c]);
    RemoveSpacesConcat(a, b);
    assert RemoveSpaces([c]) == [];
    assert RemoveSpaces(a) + [] == RemoveSpaces(a);
    RemoveSpacesLower(a);
    LowerIdempotent(RemoveSpaces(a));
  }

  /** A blank code and a blank link never join a quiz, whatever the quizzes are. */
  lemma BlankNeverJoins(quizzes: seq<StaticQuiz>, code: string, link: string)
    requires AllSpace(code) && AllSpace(link)
    ensures FindJoin(quizzes, NormalizeCode(code), NormalizeLink(link)).None?
  {
    NormalizeCodeBlank(code);
    TrimEmptyIff(link);
  }

  /** The quiz found is the first one that matches. */
  lemma {:induction false} FindJoinAt(quizzes: seq<StaticQuiz>, normalizedCode: string, normalizedLink: string, k: nat)
    requires k < |quizzes| && Matches(quizzes[k], normalizedCode, normalizedLink)
    requires forall j :: 0 <= j < k ==> !Matches(quizzes[j], normalizedCode, normalizedLink)
    ensures FindJoin(quizzes, normalizedCode, normalizedLink) == Some(quizzes[k])
  {
    if k > 0 {
      assert forall j :: 1 <= j < |quizzes| ==> quizzes[j] == quizzes[1..][j - 1];
      FindJoinAt(quizzes[1..], normalizedCode, normalizedLink, k - 1);
    }
  }

  /** Every quiz can be joined with its own PIN code when no earlier quiz matches it. */
  lemma OwnCodeJoins(quizzes: seq<StaticQuiz>, k: nat, link: string)
    requires k < |quizzes| && AccessCode(quizzes[k]) != []
    requires forall j :: 0 <= j < k ==> !Matches(quizzes[j], Lower(AccessCode(quizzes[k])), NormalizeLink(link))
    ensures FindJoin(quizzes, Lower(AccessCode(quizzes[k])), NormalizeLink(link)) == Some(quizzes[k])
  {
    FindJoinAt(quizzes, Lower(AccessCode(quizzes[k])), NormalizeLink(link), k);
  }

  /** A code of digits only is its own normal form. */
  lemma {:induction false} NormalizeDigits(code: string)
    requires forall k :: 0 <= k < |code| ==> IsDigit(code[k])
    ensures NormalizeCode(code) == code
  {
    if code != [] {
      NormalizeDigits(code[1..]);
    }
  }

  /** The ids, PIN codes and links of the built-in quizzes, whatever their questions. */
  lemma BuiltInHeaders(bank: seq<Question>)
    ensures var qs := QuizzesOver(bank);
      && qs[0].id == "fabric-foundations" && AccessCode(qs[0]) == "482913"
      && JoinLink(qs[0]) == "https://quizzyquizz.app/join/fabric-foundations"
      && qs[1].id == "fabric-practitioner" && AccessCode(qs[1]) == "735204"
      && JoinLink(qs[1]) == "https://quizzyquizz.app/join/fabric-practitioner"
      && qs[2].id == "fabric-expert" && AccessCode(qs[2]) == "951776"
      && JoinLink(qs[2]) == "https://quizzyquizz.app/join/fabric-expert"
  {
  }

  /** Lower-casing leaves a code of digits alone. */
  lemma LowerDigits(s: string)
    requires forall k :: 0 <= k < |s| ==> IsDigit(s[k])
    ensures Lower(s) == s
  {
  }

  /** A code that only the quiz at `k` and no earlier one has joins that quiz. */
  lemma CodeJoinsAt(qs: seq<StaticQuiz>, k: nat, code: string)
    requires k < |qs| && code != [] && Lower(AccessCode(qs[k])) == code
    requires forall j :: 0 <= j < k ==> Lower(AccessCode(qs[j])) != code
    ensures FindJoin(qs, code, "") == Some(qs[k])
  {
    FindJoinAt(qs, code, "", k);
  }

  /** A PIN code: a non-empty string of digits. */
  predicate DigitCode(s: string) {
    s != [] && forall k :: 0 <= k < |s| ==> IsDigit(s[k])
  }

  /** When the PIN codes are distinct codes of digits, each quiz is joined by its own code. */
  lemma DistinctCodesJoin(qs: seq<StaticQuiz>, k: nat)
    requires k < |qs|
    requires forall i :: 0 <= i < |qs| ==> DigitCode(AccessCode(qs[i]))
    requires forall i, j :: 0 <= i < j < |qs| ==> AccessCode(qs[i]) != AccessCode(qs[j])
    ensures FindJoin(qs, NormalizeCode(AccessCode(qs[k])), "") == Some(qs[k])
  {
    var code := AccessCode(qs[k]);
    NormalizeDigits(code);
    forall j | 0 <= j <= k ensures Lower(AccessCode(qs[j])) == AccessCode(qs[j]) {
      LowerDigits(AccessCode(qs[j]));
    }
    CodeJoinsAt(qs, k, code);
  }

  /**
   * The built-in PIN codes (`BuiltInHeaders`) are distinct codes of digits, so each one
   * joins its own quiz (`DistinctCodesJoin`).
   */
  lemma BuiltInCodes(qs: seq<StaticQuiz>)
    requires |qs| == 3 && AccessCode(qs[0]) == "482913" && AccessCode(qs[1]) == "735204" && AccessCode(qs[2]) == "951776"
    ensures forall i :: 0 <= i < |qs| ==> DigitCode(AccessCode(qs[i]))
    ensures forall i, j :: 0 <= i < j < |qs| ==> AccessCode(qs[i]) != AccessCode(qs[j])
  {
    assert DigitCode("482913") && DigitCode("735204") && DigitCode("951776");
  }

  // ---------------------------------------------------------------------------
  // The form.

  class Form {
    var code: string
    var link: string
    var error: Option<string>

    constructor()
      ensures code == "" && link == "" && error.None?
    {
      code := "";
      link := "";
      error := None;
    }

    /**
     * `handleSubmit`: the route of the first matching quiz's session page, or no route and
     * the "not found" message.
     */
    method HandleSubmit(quizzes: seq<StaticQuiz>) returns (route: Option<string>)
      modifies this`error
      ensures var m := FindJoin(quizzes, NormalizeCode(code), NormalizeLink(link));
        && (m.None? ==> route.None? && error == Some(NotFoundMessage))
        && (m.Some? ==> route == Some(JoinRoute(m.value.id)) && error.None?)
    {
      error := None;
      var matched := FindJoin(quizzes, NormalizeCode(code), NormalizeLink(link));
      if matched.None? {
        error := Some(NotFoundMessage);
        return None;
      }
      route := Some(JoinRoute(matched.value.id));
    }
  }

  /**
   * With distinct quiz ids, the session page opened by the route finds the very quiz the
   * form matched.
   */
  lemma JoinOpensSession(quizzes: seq<StaticQuiz>, code: string, link: string)
    requires forall i, j :: 0 <= i < j < |quizzes| ==> quizzes[i].id != quizzes[j].id
    requires FindJoin(quizzes, NormalizeCode(code), NormalizeLink(link)).Some?
    ensures var q := FindJoin(quizzes, NormalizeCode(code), NormalizeLink(link)).value;
      FindSessionQuiz(quizzes, QuizParam(JoinRoute(q.id))) == Some(q.def)
  {
    var q := FindJoin(quizzes, NormalizeCode(code), NormalizeLink(link)).value;
    JoinRouteReadBack(q.id);
    var r := FindSessionQuiz(quizzes, Some(q.id));
    var k :| 0 <= k < |quizzes| && quizzes[k] == q;
    assert r.Some?;
    var i :| 0 <= i < |quizzes| && quizzes[i].id == q.id && quizzes[i].def == r.value &&
      forall j :: 0 <= j < i ==> quizzes[j].id != q.id;
    assert i == k;
  }
}
