/**
 * Toggling an id in a list of ids: the question card and the live session page do it
 * with the selected options of a "multiple" question, the account store with liked
 * quizzes and followed creators.
 */
module Selection {

  /** `prev.filter((id) => id !== optionId)`. */
  function WithoutId(s: seq<string>, id: string): (r: seq<string>)
    ensures forall x :: x in r <==> x in s && x != id
    ensures |r| <= |s|
  {
    if s == [] then [] else if s[0] == id then WithoutId(s[1..], id) else [s[0]] + WithoutId(s[1..], id)
  }

  /** An id absent from the list is not removed from anything. */
  lemma {:induction false} WithoutAbsent(s: seq<string>, id: string)
    requires id !in s
    ensures WithoutId(s, id) == s
  {
    if s != [] {
      WithoutAbsent(s[1..], id);
    }
  }

  /** Removes `id` when present, appends it when absent: membership of `id` flips, nothing else changes. */
  function ToggleId(prev: seq<string>, id: string): (r: seq<string>)
    ensures id in r <==> id !in prev
    ensures forall x :: x != id ==> (x in r <==> x in prev)
  {
    if id in prev then WithoutId(prev, id) else prev + [id]
  }

  /** Toggling an absent id twice restores the selection. */
  lemma ToggleIdTwice(prev: seq<string>, id: string)
    requires id !in prev
    ensures ToggleId(ToggleId(prev, id), id) == prev
  {
    WithoutAbsent(prev, id);
    WithoutAppend(prev, id);
  }

  lemma {:induction false} WithoutAppend(s: seq<string>, id: string)
    ensures WithoutId(s + [id], id) == WithoutId(s, id)
  {
    if s == [] {
      assert [] + [id] == [id];
      assert [id][1..] == [];
    } else {
      assert (s + [id])[1..] == s[1..] + [id];
      WithoutAppend(s[1..], id);
    }
  }
}
