/**
 * `parseTags` of components/studio/QuizBuilderForm.tsx: the comma-separated tag field
 * of the quiz editor, split on commas, trimmed, with empty pieces dropped.
 */
module Tags {
  import opened Strings

  /** `input.split(",").map((tag) => tag.trim())`. */
  function TrimAll(parts: seq<string>): (r: seq<string>)
    ensures |r| == |parts| && forall i :: 0 <= i < |parts| ==> r[i] == Trim(parts[i])
  {
    if parts == [] then [] else [Trim(parts[0])] + TrimAll(parts[1..])
  }

  /** Every trimmed piece is its own trimmed form, so trimming the pieces again changes nothing. */
  lemma TrimAllTrimmed(parts: seq<string>)
    ensures forall i :: 0 <= i < |parts| ==> Trim(TrimAll(parts)[i]) == TrimAll(parts)[i]
    ensures TrimAll(TrimAll(parts)) == TrimAll(parts)
  {
    forall i | 0 <= i < |parts| ensures Trim(TrimAll(parts)[i]) == TrimAll(parts)[i] {
      TrimIdempotent(parts[i]);
    }
  }

  /** `.filter(Boolean)` on strings: the empty ones dropped. */
  function NonEmpty(parts: seq<string>): (r: seq<string>)
    ensures |r| <= |parts|
    ensures forall i :: 0 <= i < |r| ==> r[i] != ""
  {
    if parts == [] then []
    else if parts[0] == "" then NonEmpty(parts[1..])
    else [parts[0]] + NonEmpty(parts[1..])
  }

  lemma {:induction false} NonEmptyMembers(parts: seq<string>, t: string)
    ensures t in NonEmpty(parts) <==> t in parts && t != ""
  {
    if parts != [] {
      NonEmptyMembers(parts[1..], t);
      assert t in parts <==> t == parts[0] || t in parts[1..];
    }
  }

  /** A tag as `parseTags` returns them: trimmed and free of commas. */
  predicate CleanTag(t: string) {
    Trim(t) == t && ',' !in t
  }

  lemma {:induction false} NonEmptyClean(parts: seq<string>)
    requires forall i :: 0 <= i < |parts| ==> CleanTag(parts[i])
    ensures forall i :: 0 <= i < |NonEmpty(parts)| ==> CleanTag(NonEmpty(parts)[i])
  {
    if parts != [] {
      NonEmptyClean(parts[1..]);
      assert forall i :: 1 <= i < |parts| ==> parts[i] == parts[1..][i - 1];
    }
  }

  /** `parseTags`: the comma-separated pieces, trimmed, empty ones dropped. */
  function ParseTags(input: string): seq<string>
  {
    NonEmpty(TrimAll(Split(input, {','})))
  }

  /** Every tag is non-empty, trimmed and free of commas. */
  lemma ParseTagsClean(input: string)
    ensures forall i :: 0 <= i < |ParseTags(input)| ==> ParseTags(input)[i] != "" && CleanTag(ParseTags(input)[i])
  {
    var trimmed := TrimAll(Split(input, {','}));
    forall k | 0 <= k < |trimmed| ensures CleanTag(trimmed[k]) {
      PieceClean(input, k);
    }
    NonEmptyClean(trimmed);
  }

  /** A trimmed piece of a comma split is a clean tag. */
  lemma PieceClean(input: string, k: nat)
    requires k < |Split(input, {','})|
    ensures CleanTag(Trim(Split(input, {','})[k]))
  {
    var p := Split(input, {','})[k];
    SplitAvoids(input, {','});
    assert ',' !in p by {
      forall j | 0 <= j < |p| ensures p[j] != ',' {
        assert Split(input, {','})[k][j] !in {','};
      }
    }
    TrimIdempotent(p);
    TrimKeepsAbsent(p, ',');
  }

  /** A tag is exactly a non-empty trimmed piece of the comma split. */
  lemma ParseTagsMembers(input: string, t: string)
    ensures t in ParseTags(input) <==> t != "" && exists k :: 0 <= k < |Split(input, {','})| && Trim(Split(input, {','})[k]) == t
  {
    var pieces := Split(input, {','});
    var trimmed := TrimAll(pieces);
    assert ParseTags(input) == NonEmpty(trimmed);
    NonEmptyMembers(trimmed, t);
    if exists k :: 0 <= k < |pieces| && Trim(pieces[k]) == t {
      var k :| 0 <= k < |pieces| && Trim(pieces[k]) == t;
      assert trimmed[k] == t;
    }
    if t in trimmed {
      var k :| 0 <= k < |trimmed| && trimmed[k] == t;
      assert 0 <= k < |Split(input, {','})| && Trim(Split(input, {','})[k]) == t;
    }
  }

  lemma TrimKeepsAbsent(s: string, c: char)
    requires c !in s
    ensures c !in Trim(s)
  {
    var r := Trim(s);
    TrimSlice(s);
    forall k | 0 <= k < |r| ensures r[k] != c {
      assert r[k] == s[TrimOffset(s) + k];
    }
  }

  lemma {:induction false} TrimAllConcat(a: seq<string>, b: seq<string>)
    ensures TrimAll(a + b) == TrimAll(a) + TrimAll(b)
  {
  }

  lemma {:induction false} NonEmptyConcat(a: seq<string>, b: seq<string>)
    ensures NonEmpty(a + b) == NonEmpty(a) + NonEmpty(b)
    decreases |a|
  {
    if a == [] {
      assert a + b == b;
    } else {
      assert (a + b)[1..] == a[1..] + b;
      NonEmptyConcat(a[1..], b);
    }
  }

  /** `", "`-joined tags are the `","`-joined tags with a space before all but the first. */
  function Spaced(tags: seq<string>): (r: seq<string>)
    ensures |r| == |tags|
    ensures tags != [] ==> r[0] == tags[0]
    ensures forall i :: 1 <= i < |tags| ==> r[i] == " " + tags[i]
  {
    if |tags| <= 1 then tags else [tags[0]] + seq(|tags| - 1, k requires 0 <= k < |tags| - 1 => " " + tags[k + 1])
  }

  lemma {:induction false} JoinSpaced(tags: seq<string>)
    ensures Join(tags, ", ") == Join(Spaced(tags), ",")
  {
    if |tags| >= 2 {
      var rest := tags[1..];
      JoinSpaced(rest);
      var sr := Spaced(rest);
      var s := Spaced(tags);
      assert s[1..] == Spaced(rest)[0 := " " + rest[0]] by {
        assert |s[1..]| == |rest|;
      }
      assert Join(s, ",") == tags[0] + "," + Join(s[1..], ",");
      JoinFirstSpaced(rest);
    }
  }

  /** Putting a space in front of the first piece puts it in front of the join. */
  lemma JoinFirstSpaced(tags: seq<string>)
    requires tags != []
    ensures Join(Spaced(tags)[0 := " " + tags[0]], ",") == " " + Join(Spaced(tags), ",")
  {
    var s := Spaced(tags);
    var t := s[0 := " " + tags[0]];
    if |tags| >= 2 {
      assert t[1..] == s[1..];
      assert Join(t, ",") == (" " + tags[0]) + "," + Join(t[1..], ",");
      assert Join(s, ",") == tags[0] + "," + Join(s[1..], ",");
    }
  }

  /** A space in front of a trimmed, non-empty string is trimmed away. */
  lemma TrimSpaced(t: string)
    requires t != "" && Trim(t) == t
    ensures Trim(" " + t) == t
  {
    TrimSpec(t);
    var u := " " + t;
    assert u[1..] == t;
    assert TrimStart(u) == TrimStart(t);
    assert TrimStart(t) == t;
    TrimFixed(t);
  }

  /**
   * The editor shows existing tags as `tags.join(", ")`; parsing that text gives
   * the tags back when they are trimmed, non-empty and free of commas.
   */
  lemma ParseTagsJoin(tags: seq<string>)
    requires forall i :: 0 <= i < |tags| ==> tags[i] != "" && CleanTag(tags[i])
    ensures ParseTags(Join(tags, ", ")) == tags
  {
    if tags == [] {
      ParseTagsEmpty();
    } else {
      var s := Spaced(tags);
      JoinSpaced(tags);
      SpacedCommaFree(tags);
      SplitJoin(s, ',');
      TrimAllSpaced(tags);
      NonEmptyKeeps(tags);
    }
  }

  lemma ParseTagsEmpty()
    ensures ParseTags("") == []
  {
    assert Split("", {','}) == [""];
    assert Trim("") == "";
  }

  lemma SpacedCommaFree(tags: seq<string>)
    requires forall i :: 0 <= i < |tags| ==> ',' !in tags[i]
    ensures forall k :: 0 <= k < |Spaced(tags)| ==> ',' !in Spaced(tags)[k]
  {
    var s := Spaced(tags);
    forall k | 0 <= k < |s| ensures ',' !in s[k] {
      if k > 0 {
        assert s[k] == " " + tags[k];
      }
    }
  }

  lemma TrimAllSpaced(tags: seq<string>)
    requires forall i :: 0 <= i < |tags| ==> tags[i] != "" && CleanTag(tags[i])
    ensures TrimAll(Spaced(tags)) == tags
  {
    var s := Spaced(tags);
    forall k | 0 <= k < |s| ensures Trim(s[k]) == tags[k] {
      if k > 0 {
        TrimSpaced(tags[k]);
      }
    }
  }

  lemma {:induction false} NonEmptyKeeps(parts: seq<string>)
    requires forall i :: 0 <= i < |parts| ==> parts[i] != ""
    ensures NonEmpty(parts) == parts
  {
    if parts != [] {
      NonEmptyKeeps(parts[1..]);
    }
  }

  /**
   * Trimming and dropping empty pieces work piece by piece, left to right: the
   * tags of two runs of pieces are the tags of the first followed by those of the second.
   */
  lemma TagsConcat(a: seq<string>, b: seq<string>)
    ensures NonEmpty(TrimAll(a + b)) == NonEmpty(TrimAll(a)) + NonEmpty(TrimAll(b))
  {
    TrimAllConcat(a, b);
    NonEmptyConcat(TrimAll(a), TrimAll(b));
  }
}
