/**
 * The quiz studio page (app/studio/page.tsx): the search, category and tag filters over
 * the catalogue, and the tag and category lists offered by the filter menus, which are
 * drawn from the custom quizzes. `localeCompare` is modelled as code-point order.
 */
module Studio {
  import opened Wrappers
  import opened Strings
  import opened Sorting
  import opened QuizTypes

  /** The value of the category and tag menus that switches their filter off. */
  const AllValue: string := "all"

  // ---------------------------------------------------------------------------
  // `filteredQuizzes`.

  /** `` `${quiz.title} ${quiz.description} ${quiz.tags?.join(" ") ?? ""}` ``. */
  function SearchText(q: Quiz): string {
    q.def.title + " " + q.def.description + " " + Join(q.def.tags.GetOr([]), " ")
  }

  predicate MatchesSearch(q: Quiz, searchTerm: string) {
    Contains(Lower(SearchText(q)), Lower(searchTerm))
  }

  predicate MatchesCategory(q: Quiz, selectedCategory: string) {
    selectedCategory == AllValue || q.def.category == Some(selectedCategory)
  }

  function LowerAll(tags: seq<string>): (r: seq<string>)
    ensures |r| == |tags| && forall k :: 0 <= k < |tags| ==> r[k] == Lower(tags[k])
  {
    seq(|tags|, k requires 0 <= k < |tags| => Lower(tags[k]))
  }

  predicate MatchesTag(q: Quiz, selectedTag: string) {
    selectedTag == AllValue || (q.def.tags.Some? && Lower(selectedTag) in LowerAll(q.def.tags.value))
  }

  predicate Shown(q: Quiz, searchTerm: string, selectedCategory: string, selectedTag: string) {
    MatchesSearch(q, searchTerm) && MatchesCategory(q, selectedCategory) && MatchesTag(q, selectedTag)
  }

  /** `filteredQuizzes`: the quizzes that pass all three filters, in catalogue order. */
  function FilterQuizzes(quizzes: seq<Quiz>, searchTerm: string, selectedCategory: string, selectedTag: string): (r: seq<Quiz>)
    ensures |r| <= |quizzes|
    ensures forall q :: q in r <==> q in quizzes && Shown(q, searchTerm, selectedCategory, selectedTag)
  {
    if quizzes == [] then []
    else
      var rest := FilterQuizzes(quizzes[1..], searchTerm, selectedCategory, selectedTag);
      if Shown(quizzes[0], searchTerm, selectedCategory, selectedTag) then [quizzes[0]] + rest else rest
  }

  /** Catalogue order is kept: filtering a concatenation filters each part. */
  lemma {:induction false} FilterConcat(a: seq<Quiz>, b: seq<Quiz>, searchTerm: string, selectedCategory: string, selectedTag: string)
    ensures FilterQuizzes(a + b, searchTerm, selectedCategory, selectedTag) ==
            FilterQuizzes(a, searchTerm, selectedCategory, selectedTag) + FilterQuizzes(b, searchTerm, selectedCategory, selectedTag)
  {
    if a == [] {
      assert a + b == b;
    } else {
      assert (a + b)[1..] == a[1..] + b;
      FilterConcat(a[1..], b, searchTerm, selectedCategory, selectedTag);
    }
  }

  /** With an empty search and both menus on "all", every quiz is shown, in order. */
  lemma {:induction false} FilterDefaults(quizzes: seq<Quiz>)
    ensures FilterQuizzes(quizzes, "", AllValue, AllValue) == quizzes
  {
    if quizzes != [] {
      ContainsEmpty(Lower(SearchText(quizzes[0])));
      FilterDefaults(quizzes[1..]);
    }
  }

  /** Filtering the filtered list again changes nothing. */
  lemma {:induction false} FilterIdempotent(quizzes: seq<Quiz>, searchTerm: string, selectedCategory: string, selectedTag: string)
    ensures var r := FilterQuizzes(quizzes, searchTerm, selectedCategory, selectedTag);
      FilterQuizzes(r, searchTerm, selectedCategory, selectedTag) == r
  {
    if quizzes != [] {
      FilterIdempotent(quizzes[1..], searchTerm, selectedCategory, selectedTag);
      var rest := FilterQuizzes(quizzes[1..], searchTerm, selectedCategory, selectedTag);
      if Shown(quizzes[0], searchTerm, selectedCategory, selectedTag) {
        assert ([quizzes[0]] + rest)[1..] == rest;
      }
    }
  }

  /** A category other than "all" shows exactly the quizzes of that category. */
  lemma CategoryFilter(q: Quiz, selectedCategory: string)
    requires selectedCategory != AllValue
    ensures MatchesCategory(q, selectedCategory) <==> q.def.category == Some(selectedCategory)
  {
  }

  lemma {:induction false} ConcatContains(a: string, t: string, b: string)
    ensures Contains(a + t + b, t)
  {
    assert (a + t + b)[|a|..|a| + |t|] == t;
    assert OccursAt(a + t + b, t, |a|);
  }

  /** A quiz whose title contains the search term, ignoring case, is found by the search. */
  lemma SearchFindsTitle(q: Quiz, searchTerm: string, i: nat)
    requires OccursAt(Lower(q.def.title), Lower(searchTerm), i)
    ensures MatchesSearch(q, searchTerm)
  {
    var title, rest := q.def.title, " " + q.def.description + " " + Join(q.def.tags.GetOr([]), " ");
    var lt := Lower(title);
    var t := Lower(searchTerm);
    assert SearchText(q) == title + rest;
    LowerConcat(title, rest);
    assert lt == lt[..i] + t + lt[i + |t|..];
    ConcatContains(lt[..i], t, lt[i + |t|..] + Lower(rest));
    assert lt[..i] + t + (lt[i + |t|..] + Lower(rest)) == Lower(SearchText(q));
  }

  /** Each piece of a join lies between two strings. */
  lemma {:induction false} JoinPiece(parts: seq<string>, sep: string, k: nat) returns (before: string, after: string)
    requires k < |parts|
    ensures Join(parts, sep) == before + parts[k] + after
  {
    if |parts| == 1 {
      before, after := "", "";
    } else if k == 0 {
      before, after := "", sep + Join(parts[1..], sep);
    } else {
      var b, a := JoinPiece(parts[1..], sep, k - 1);
      before, after := parts[0] + sep + b, a;
    }
  }

  /** A quiz with a tag equal to the search term, ignoring case, is found by the search. */
  lemma SearchFindsTag(q: Quiz, searchTerm: string, k: nat)
    requires q.def.tags.Some? && k < |q.def.tags.value| && Lower(q.def.tags.value[k]) == Lower(searchTerm)
    ensures MatchesSearch(q, searchTerm)
  {
    var tags := q.def.tags.value;
    var before, after := JoinPiece(tags, " ", k);
    var pre := q.def.title + " " + q.def.description + " " + before;
    assert SearchText(q) == pre + tags[k] + after;
    LowerConcat(pre + tags[k], after);
    LowerConcat(pre, tags[k]);
    ConcatContains(Lower(pre), Lower(tags[k]), Lower(after));
  }

  /** A tag other than "all" shows the quizzes that carry it, whatever its case. */
  lemma TagFilter(q: Quiz, selectedTag: string, k: nat)
    requires selectedTag != AllValue && q.def.tags.Some? && k < |q.def.tags.value|
    requires Lower(q.def.tags.value[k]) == Lower(selectedTag)
    ensures MatchesTag(q, selectedTag)
  {
    assert LowerAll(q.def.tags.value)[k] == Lower(selectedTag);
  }

  // ---------------------------------------------------------------------------
  // The tag and category menus.

  /** The elements of `s`, each once: what a `Set` built from `s` holds (the menus sort it afterwards). */
  function Distinct(s: seq<string>): (r: seq<string>)
    ensures forall x :: x in r <==> x in s
    ensures forall x :: multiset(r)[x] <= 1
  {
    if s == [] then []
    else
      var d := Distinct(s[..|s| - 1]);
      assert s == s[..|s| - 1] + [s[|s| - 1]];
      if s[|s| - 1] in d then d else d + [s[|s| - 1]]
  }

  /** Every custom quiz's tags, in order. */
  function AllTags(quizzes: seq<Quiz>): (r: seq<string>)
    ensures forall t :: t in r <==> exists k :: 0 <= k < |quizzes| && quizzes[k].def.tags.Some? && t in quizzes[k].def.tags.value
  {
    if quizzes == [] then []
    else
      var rest := AllTags(quizzes[1..]);
      assert forall k :: 1 <= k < |quizzes| ==> quizzes[k] == quizzes[1..][k - 1];
      quizzes[0].def.tags.GetOr([]) + rest
  }

  /** Every custom quiz's category, where it has a non-empty one, in order. */
  function AllCategories(quizzes: seq<Quiz>): (r: seq<string>)
    ensures forall c :: c in r <==> exists k :: 0 <= k < |quizzes| && quizzes[k].def.category == Some(c) && c != ""
  {
    if quizzes == [] then []
    else
      var rest := AllCategories(quizzes[1..]);
      assert forall k :: 1 <= k < |quizzes| ==> quizzes[k] == quizzes[1..][k - 1];
      var c := quizzes[0].def.category;
      if c.Some? && c.value != "" then [c.value] + rest else rest
  }

  /** `tags`: the distinct tags of the custom quizzes, sorted. */
  function StudioTags(customQuizzes: seq<Quiz>): seq<string> {
    SortStrings(Distinct(AllTags(customQuizzes)))
  }

  /** `categories`: the distinct non-empty categories of the custom quizzes, sorted. */
  function StudioCategories(customQuizzes: seq<Quiz>): seq<string> {
    SortStrings(Distinct(AllCategories(customQuizzes)))
  }

  lemma TwoCopies(r: seq<string>, i: nat, j: nat)
    requires i < j < |r| && r[i] == r[j]
    ensures multiset(r)[r[i]] >= 2
  {
    assert r == r[..j] + [r[j]] + r[j + 1..];
    assert r[i] in r[..j];
  }

  /** Sorting a list without repeats gives a strictly ascending list of the same strings. */
  lemma SortedDistinct(s: seq<string>)
    requires forall x :: multiset(s)[x] <= 1
    ensures forall x :: x in SortStrings(s) <==> x in s
    ensures forall i, j :: 0 <= i < j < |SortStrings(s)| ==> StrLt(SortStrings(s)[i], SortStrings(s)[j])
  {
    var r := SortStrings(s);
    SortStringsSorted(s);
    StrLtIsTotalOrder();
    forall x ensures x in r <==> x in s {
      assert x in r <==> x in multiset(r);
    }
    forall i, j | 0 <= i < j < |r| ensures StrLt(r[i], r[j]) {
      if r[i] == r[j] {
        TwoCopies(r, i, j);
        assert false;
      }
    }
  }

  /** The tag menu lists each tag of a custom quiz once, in ascending order, and nothing else. */
  lemma StudioTagsSpec(customQuizzes: seq<Quiz>)
    ensures var r := StudioTags(customQuizzes);
      && (forall t :: t in r <==> exists k :: 0 <= k < |customQuizzes| && customQuizzes[k].def.tags.Some? && t in customQuizzes[k].def.tags.value)
      && (forall i, j :: 0 <= i < j < |r| ==> StrLt(r[i], r[j]))
  {
    SortedDistinct(Distinct(AllTags(customQuizzes)));
  }

  /** The category menu lists each non-empty category of a custom quiz once, in ascending order. */
  lemma StudioCategoriesSpec(customQuizzes: seq<Quiz>)
    ensures var r := StudioCategories(customQuizzes);
      && (forall c :: c in r <==> exists k :: 0 <= k < |customQuizzes| && customQuizzes[k].def.category == Some(c) && c != "")
      && (forall i, j :: 0 <= i < j < |r| ==> StrLt(r[i], r[j]))
  {
    SortedDistinct(Distinct(AllCategories(customQuizzes)));
  }
}
