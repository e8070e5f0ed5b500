/**
 * The JavaScript string operations the application relies on, written out:
 * `trim`, `toLowerCase`/`toUpperCase` (ASCII letters only), `split`, `join`,
 * `includes`, `endsWith`, `padStart` and the decimal rendering of integers.
 */
module Strings {

  /** The characters `String.prototype.trim` removes and the regular-expression class `\s` matches. */
  predicate IsSpace(c: char) {
    || c == ' ' || c == '\t' || c == '\n' || c == '\U{000B}' || c == '\U{000C}' || c == '\r'
    || c == '\U{00A0}' || c == '\U{1680}' || ('\U{2000}' <= c <= '\U{200A}')
    || c == '\U{2028}' || c == '\U{2029}' || c == '\U{202F}' || c == '\U{205F}'
    || c == '\U{3000}' || c == '\U{FEFF}'
  }

  /** Every character of `s` is white space (so `s.trim()` is empty and falsy). */
  predicate AllSpace(s: string) {
    forall k :: 0 <= k < |s| ==> IsSpace(s[k])
  }

  /** `s.trimStart()`: a suffix of `s`; `TrimStartSpec` says which one. */
  function TrimStart(s: string): (r: string)
    ensures |r| <= |s|
    decreases |s|
  {
    if s != [] && IsSpace(s[0]) then TrimStart(s[1..]) else s
  }

  /** What `trimStart` drops is white space, and what it keeps starts with none. */
  lemma {:induction false} TrimStartSpec(s: string)
    ensures TrimStart(s) == s[|s| - |TrimStart(s)|..]
    ensures forall k :: 0 <= k < |s| - |TrimStart(s)| ==> IsSpace(s[k])
    ensures TrimStart(s) != [] ==> !IsSpace(TrimStart(s)[0])
    decreases |s|
  {
    if s != [] && IsSpace(s[0]) {
      TrimStartSpec(s[1..]);
      assert forall k :: 1 <= k < |s| ==> s[k] == s[1..][k - 1];
    }
  }

  /** `s.trimEnd()`: a prefix of `s`; `TrimEndSpec` says which one. */
  function TrimEnd(s: string): (r: string)
    ensures |r| <= |s|
    decreases |s|
  {
    if s != [] && IsSpace(s[|s| - 1]) then TrimEnd(s[..|s| - 1]) else s
  }

  /** What `trimEnd` drops is white space, and what it keeps ends with none. */
  lemma {:induction false} TrimEndSpec(s: string)
    ensures TrimEnd(s) == s[..|TrimEnd(s)|]
    ensures forall k :: |TrimEnd(s)| <= k < |s| ==> IsSpace(s[k])
    ensures TrimEnd(s) != [] ==> !IsSpace(TrimEnd(s)[|TrimEnd(s)| - 1])
    decreases |s|
  {
    if s != [] && IsSpace(s[|s| - 1]) {
      TrimEndSpec(s[..|s| - 1]);
    }
  }

  /** Number of white-space characters `trim` drops at the front. */
  function TrimOffset(s: string): (i: nat)
    ensures i <= |s|
  {
    |s| - |TrimStart(s)|
  }

  /** `s.trim()`: a middle slice of `s`; `TrimSpec` says which one. */
  function Trim(s: string): (r: string)
    ensures TrimOffset(s) + |r| <= |s|
  {
    TrimEnd(TrimStart(s))
  }

  /** `trim` drops exactly the white space at both ends. */
  lemma TrimSpec(s: string)
    ensures Trim(s) == s[TrimOffset(s)..TrimOffset(s) + |Trim(s)|]
    ensures forall k :: 0 <= k < TrimOffset(s) ==> IsSpace(s[k])
    ensures forall k :: TrimOffset(s) + |Trim(s)| <= k < |s| ==> IsSpace(s[k])
    ensures Trim(s) != [] ==> !IsSpace(Trim(s)[0]) && !IsSpace(Trim(s)[|Trim(s)| - 1])
  {
    TrimSlice(s);
    TrimStartSpec(s);
    TrimDropsBack(s);
    TrimKeepsEnds(s);
  }

  lemma TrimSlice(s: string)
    ensures Trim(s) == s[TrimOffset(s)..TrimOffset(s) + |Trim(s)|]
  {
    TrimStartSpec(s);
    TrimEndSpec(TrimStart(s));
  }

  lemma TrimDropsBack(s: string)
    ensures forall k :: TrimOffset(s) + |Trim(s)| <= k < |s| ==> IsSpace(s[k])
  {
    var t := TrimStart(s);
    TrimStartSpec(s);
    TrimEndSpec(t);
    forall k | TrimOffset(s) + |Trim(s)| <= k < |s| ensures IsSpace(s[k]) {
      assert s[k] == t[k - TrimOffset(s)];
    }
  }

  lemma TrimKeepsEnds(s: string)
    ensures Trim(s) != [] ==> !IsSpace(Trim(s)[0]) && !IsSpace(Trim(s)[|Trim(s)| - 1])
  {
    var t := TrimStart(s);
    TrimStartSpec(s);
    TrimEndSpec(t);
    if Trim(s) != [] {
      assert Trim(s)[0] == t[0];
    }
  }

  /** A string with no white space at either end is its own trimmed form. */
  lemma TrimFixed(s: string)
    requires s != [] ==> !IsSpace(s[0]) && !IsSpace(s[|s| - 1])
    ensures Trim(s) == s
  {
  }

  /** A string is blank (its trimmed form is falsy) exactly when it is all white space. */
  lemma TrimEmptyIff(s: string)
    ensures Trim(s) == [] <==> AllSpace(s)
  {
    TrimSpec(s);
  }

  /** Trimming twice is trimming once. */
  lemma TrimIdempotent(s: string)
    ensures Trim(Trim(s)) == Trim(s)
  {
    TrimSpec(s);
    TrimFixed(Trim(s));
  }

  lemma {:induction false} TrimStartPad(w: string, s: string)
    requires AllSpace(w)
    ensures TrimStart(w + s) == TrimStart(s)
    decreases |w|
  {
    if w != [] {
      assert (w + s)[1..] == w[1..] + s;
      TrimStartPad(w[1..], s);
    } else {
      assert w + s == s;
    }
  }

  lemma {:induction false} TrimStartAppend(s: string, w: string)
    ensures TrimStart(s + w) == if AllSpace(s) then TrimStart(w) else TrimStart(s) + w
    decreases |s|
  {
    if s == [] {
      assert s + w == w;
    } else {
      assert (s + w)[0] == s[0] && (s + w)[1..] == s[1..] + w;
      if IsSpace(s[0]) {
        TrimStartAppend(s[1..], w);
        assert AllSpace(s) <==> AllSpace(s[1..]) by {
          if AllSpace(s[1..]) {
            forall k | 0 <= k < |s| ensures IsSpace(s[k]) {
              if k > 0 {
                assert s[k] == s[1..][k - 1];
              }
            }
          }
        }
      }
    }
  }

  lemma {:induction false} TrimEndPad(s: string, w: string)
    requires AllSpace(w)
    ensures TrimEnd(s + w) == TrimEnd(s)
    decreases |w|
  {
    if w != [] {
      assert (s + w)[..|s + w| - 1] == s + w[..|w| - 1];
      TrimEndPad(s, w[..|w| - 1]);
    } else {
      assert s + w == s;
    }
  }

  /** White space added around a string does not change its trimmed form. */
  lemma TrimPadded(w1: string, s: string, w2: string)
    requires AllSpace(w1) && AllSpace(w2)
    ensures Trim(w1 + s + w2) == Trim(s)
  {
    assert w1 + s + w2 == w1 + (s + w2);
    TrimStartPad(w1, s + w2);
    TrimStartAppend(s, w2);
    if AllSpace(s) {
      TrimStartAppend(s, []);
      assert s + [] == s;
      TrimStartPad(w2, []);
      assert w2 + [] == w2;
    } else {
      TrimEndPad(TrimStart(s), w2);
    }
  }

  function LowerChar(c: char): char {
    if 'A' <= c <= 'Z' then (c as int + 32) as char else c
  }

  function UpperChar(c: char): char {
    if 'a' <= c <= 'z' then (c as int - 32) as char else c
  }

  /** `toLowerCase`/`toLocaleLowerCase`, on ASCII letters. */
  function Lower(s: string): (r: string)
    ensures |r| == |s|
    ensures forall i :: 0 <= i < |s| ==> r[i] == LowerChar(s[i])
  {
    seq(|s|, i requires 0 <= i < |s| => LowerChar(s[i]))
  }

  /** `toUpperCase`, on ASCII letters. */
  function Upper(s: string): (r: string)
    ensures |r| == |s|
    ensures forall i :: 0 <= i < |s| ==> r[i] == UpperChar(s[i])
  {
    seq(|s|, i requires 0 <= i < |s| => UpperChar(s[i]))
  }

  lemma LowerConcat(a: string, b: string)
    ensures Lower(a + b) == Lower(a) + Lower(b)
  {
  }

  lemma LowerIdempotent(s: string)
    ensures Lower(Lower(s)) == Lower(s)
  {
  }

  lemma {:induction false} TrimStartLower(s: string)
    ensures TrimStart(Lower(s)) == Lower(TrimStart(s))
    decreases |s|
  {
    if s != [] {
      assert Lower(s)[1..] == Lower(s[1..]);
      TrimStartLower(s[1..]);
    }
  }

  lemma {:induction false} TrimEndLower(s: string)
    ensures TrimEnd(Lower(s)) == Lower(TrimEnd(s))
    decreases |s|
  {
    if s != [] {
      assert Lower(s)[..|s| - 1] == Lower(s[..|s| - 1]);
      TrimEndLower(s[..|s| - 1]);
    }
  }

  /** Trimming and lower-casing commute: lower-casing neither makes nor removes white space. */
  lemma TrimLower(s: string)
    ensures Trim(Lower(s)) == Lower(Trim(s))
  {
    TrimStartLower(s);
    TrimEndLower(TrimStart(s));
  }

  /**
   * Lower-casing leaves no upper-case letter, keeps every other character, and loses nothing
   * but case: upper-casing the result is upper-casing the input.
   */
  lemma LowerSpec(s: string)
    ensures |Lower(s)| == |s|
    ensures forall i :: 0 <= i < |s| ==> !('A' <= Lower(s)[i] <= 'Z')
    ensures forall i :: 0 <= i < |s| && !('A' <= s[i] <= 'Z') ==> Lower(s)[i] == s[i]
    ensures Upper(Lower(s)) == Upper(s)
  {
  }

  /** Upper-casing leaves no lower-case letter, keeps every other character, and loses nothing but case. */
  lemma UpperSpec(s: string)
    ensures |Upper(s)| == |s|
    ensures forall i :: 0 <= i < |s| ==> !('a' <= Upper(s)[i] <= 'z')
    ensures forall i :: 0 <= i < |s| && !('a' <= s[i] <= 'z') ==> Upper(s)[i] == s[i]
    ensures Lower(Upper(s)) == Lower(s)
  {
  }

  /** `s.replace(/\s+/g, "")`: every white-space character removed. */
  function RemoveSpaces(s: string): (r: string)
    ensures forall k :: 0 <= k < |r| ==> !IsSpace(r[k])
    ensures |r| <= |s|
    ensures forall c :: c in r <==> c in s && !IsSpace(c)
    ensures (forall k :: 0 <= k < |s| ==> !IsSpace(s[k])) ==> r == s
  {
    if s == [] then []
    else if IsSpace(s[0]) then RemoveSpaces(s[1..])
    else [s[0]] + RemoveSpaces(s[1..])
  }

  /** Index of the first separator in `s`, or `|s|` when there is none. */
  function FirstIndexIn(s: string, seps: set<char>): (i: nat)
    ensures i <= |s|
    ensures forall k :: 0 <= k < i ==> s[k] !in seps
    ensures i < |s| ==> s[i] in seps
  {
    if s == [] || s[0] in seps then 0 else 1 + FirstIndexIn(s[1..], seps)
  }

  /**
   * `s.split(sep)` for a one-character separator, and `s.split(/[...]/)` for a character class:
   * the maximal separator-free pieces, always at least one.
   */
  function Split(s: string, seps: set<char>): (parts: seq<string>)
    ensures |parts| >= 1
    decreases |s|
  {
    var i := FirstIndexIn(s, seps);
    if i == |s| then [s] else [s[..i]] + Split(s[i + 1..], seps)
  }

  /** No piece of a split holds a separator. */
  lemma {:induction false} SplitAvoids(s: string, seps: set<char>)
    ensures forall k, j :: 0 <= k < |Split(s, seps)| && 0 <= j < |Split(s, seps)[k]| ==> Split(s, seps)[k][j] !in seps
    decreases |s|
  {
    var i := FirstIndexIn(s, seps);
    if i < |s| {
      SplitAvoids(s[i + 1..], seps);
      var parts := Split(s, seps);
      assert parts == [s[..i]] + Split(s[i + 1..], seps);
      forall k, j | 0 <= k < |parts| && 0 <= j < |parts[k]| ensures parts[k][j] !in seps {
        if k > 0 {
          assert parts[k] == Split(s[i + 1..], seps)[k - 1];
        }
      }
    }
  }

  /** `parts.join(sep)`. */
  function Join(parts: seq<string>, sep: string): string
  {
    if |parts| == 0 then ""
    else if |parts| == 1 then parts[0]
    else parts[0] + sep + Join(parts[1..], sep)
  }

  /** Joining the pieces of a split with the separator gives the string back. */
  lemma {:induction false} JoinSplit(s: string, c: char)
    ensures Join(Split(s, {c}), [c]) == s
    decreases |s|
  {
    var i := FirstIndexIn(s, {c});
    var parts := Split(s, {c});
    if i < |s| {
      var rest := s[i + 1..];
      assert parts == [s[..i]] + Split(rest, {c});
      assert parts[1..] == Split(rest, {c});
      JoinSplit(rest, c);
      assert Join(parts, [c]) == s[..i] + [c] + Join(parts[1..], [c]);
      assert s == s[..i] + [c] + rest;
    } else {
      assert parts == [s];
    }
  }

  /** Splitting a join of separator-free pieces gives the pieces back. */
  lemma {:induction false} SplitJoin(parts: seq<string>, c: char)
    requires |parts| >= 1
    requires forall k :: 0 <= k < |parts| ==> c !in parts[k]
    ensures Split(Join(parts, [c]), {c}) == parts
  {
    if |parts| == 1 {
      SplitWithout(parts[0], c);
    } else {
      SplitJoin(parts[1..], c);
      SplitStep(parts[0], Join(parts[1..], [c]), c);
      assert Join(parts, [c]) == parts[0] + [c] + Join(parts[1..], [c]);
      assert parts == [parts[0]] + parts[1..];
    }
  }

  lemma SplitWithout(p: string, c: char)
    requires c !in p
    ensures Split(p, {c}) == [p]
  {
    assert FirstIndexIn(p, {c}) == |p|;
  }

  /** The first piece of a split ends at the first separator. */
  lemma SplitStep(p: string, rest: string, c: char)
    requires c !in p
    ensures Split(p + [c] + rest, {c}) == [p] + Split(rest, {c})
  {
    var s := p + [c] + rest;
    assert s == p + ([c] + rest);
    FirstIndexSkips(p, [c] + rest, c);
    assert s[..|p|] == p;
    assert s[|p| + 1..] == rest;
  }

  lemma {:induction false} FirstIndexSkips(p: string, tail: string, c: char)
    requires c !in p
    requires tail != [] && tail[0] == c
    ensures FirstIndexIn(p + tail, {c}) == |p|
    decreases |p|
  {
    if p != [] {
      assert (p + tail)[1..] == p[1..] + tail;
      FirstIndexSkips(p[1..], tail, c);
    }
  }

  predicate OccursAt(s: string, t: string, i: nat) {
    i + |t| <= |s| && s[i..i + |t|] == t
  }

  /** `value.replace(/c/g, t)` for a one-character pattern. */
  function ReplaceChar(s: string, c: char, t: string): string {
    if s == [] then [] else (if s[0] == c then t else [s[0]]) + ReplaceChar(s[1..], c, t)
  }

  /** Replacing a character that does not occur changes nothing, and the result holds only kept characters and pieces of `t`. */
  lemma {:induction false} ReplaceCharMembers(s: string, c: char, t: string)
    ensures c !in s ==> ReplaceChar(s, c, t) == s
    ensures c !in t ==> c !in ReplaceChar(s, c, t)
    ensures forall x :: x in ReplaceChar(s, c, t) ==> (x in s && x != c) || x in t
  {
    if s != [] {
      ReplaceCharMembers(s[1..], c, t);
      var head := if s[0] == c then t else [s[0]];
      var rest := ReplaceChar(s[1..], c, t);
      assert ReplaceChar(s, c, t) == head + rest;
      forall x | x in head + rest
        ensures (x in s && x != c) || x in t
      {
        if x in rest {
          assert x in s[1..] ==> x in s;
        }
      }
      if c !in s {
        assert s == [s[0]] + s[1..];
      }
    }
  }

  /** A single character is replaced by `t` exactly when it is `c`; with ReplaceCharConcat this fixes the result. */
  lemma ReplaceCharOne(x: char, c: char, t: string)
    ensures ReplaceChar([x], c, t) == if x == c then t else [x]
  {
    assert [x][1..] == [];
  }

  lemma {:induction false} ReplaceCharConcat(a: string, b: string, c: char, t: string)
    ensures ReplaceChar(a + b, c, t) == ReplaceChar(a, c, t) + ReplaceChar(b, c, t)
  {
    if a != [] {
      var head := if a[0] == c then t else [a[0]];
      assert (a + b)[0] == a[0];
      assert (a + b)[1..] == a[1..] + b;
      ReplaceCharConcat(a[1..], b, c, t);
      assert ReplaceChar(a, c, t) == head + ReplaceChar(a[1..], c, t);
      assert ReplaceChar(a + b, c, t) == head + (ReplaceChar(a[1..], c, t) + ReplaceChar(b, c, t));
    } else {
      assert a + b == b;
    }
  }

  /** `s.includes(t)`. */
  predicate Contains(s: string, t: string) {
    exists i | 0 <= i <= |s| :: OccursAt(s, t, i)
  }

  /** `s.startsWith(t)`. */
  predicate StartsWith(s: string, t: string) {
    |t| <= |s| && s[..|t|] == t
  }

  /** `s.endsWith(t)`. */
  predicate EndsWith(s: string, t: string) {
    |t| <= |s| && s[|s| - |t|..] == t
  }

  lemma ContainsEmpty(s: string)
    ensures Contains(s, "")
  {
    assert OccursAt(s, "", 0);
  }

  function DigitChar(d: nat): char
    requires d < 10
  {
    ('0' as int + d) as char
  }

  predicate IsDigit(c: char) {
    '0' <= c <= '9'
  }

  function DigitValue(c: char): (d: nat)
    requires IsDigit(c)
    ensures d < 10
  {
    (c as int) - ('0' as int)
  }

  /** `n.toString()` for a non-negative integer. */
  function NatStr(n: nat): (r: string)
    ensures |r| >= 1
    ensures forall k :: 0 <= k < |r| ==> IsDigit(r[k])
  {
    if n < 10 then [DigitChar(n)] else NatStr(n / 10) + [DigitChar(n % 10)]
  }

  /** `i.toString()` for an integer (JavaScript prints a leading minus sign). */
  function IntStr(i: int): string {
    if i < 0 then "-" + NatStr(-i) else NatStr(i)
  }

  /** The value of a string of decimal digits: the inverse of NatStr. */
  function DigitsValue(s: string): nat
    requires forall k :: 0 <= k < |s| ==> IsDigit(s[k])
  {
    if s == [] then 0 else 10 * DigitsValue(s[..|s| - 1]) + DigitValue(s[|s| - 1])
  }

  lemma {:induction false} NatStrRoundTrip(n: nat)
    ensures DigitsValue(NatStr(n)) == n
  {
    if n >= 10 {
      NatStrRoundTrip(n / 10);
      var s := NatStr(n);
      assert s[..|s| - 1] == NatStr(n / 10);
    }
  }

  function Pow10(k: nat): nat {
    if k == 0 then 1 else 10 * Pow10(k - 1)
  }

  /** A number below 10^k is written with at most k digits. */
  lemma {:induction false} NatStrLength(n: nat, k: nat)
    requires k >= 1 && n < Pow10(k)
    ensures |NatStr(n)| <= k
  {
    if n >= 10 {
      NatStrLength(n / 10, k - 1);
    }
  }

  function Repeat(c: char, n: nat): (r: string)
    ensures |r| == n && forall k :: 0 <= k < n ==> r[k] == c
  {
    seq(n, _ => c)
  }

  /** `s.padStart(width, fill)` for a one-character fill. */
  function PadStart(s: string, width: nat, fill: char): (r: string)
    ensures |r| == if |s| >= width then |s| else width
    ensures EndsWith(r, s)
    ensures forall k :: 0 <= k < |r| - |s| ==> r[k] == fill
  {
    if |s| >= width then s else Repeat(fill, width - |s|) + s
  }

  /** Leading zeros do not change the value of a string of digits. */
  lemma {:induction false} LeadingZeros(z: nat, s: string)
    requires forall k :: 0 <= k < |s| ==> IsDigit(s[k])
    ensures forall k :: 0 <= k < |Repeat('0', z) + s| ==> IsDigit((Repeat('0', z) + s)[k])
    ensures DigitsValue(Repeat('0', z) + s) == DigitsValue(s)
    decreases |s|, z
  {
    var p := Repeat('0', z) + s;
    if s == [] {
      if z > 0 {
        assert p[..|p| - 1] == Repeat('0', z - 1) + s;
        LeadingZeros(z - 1, s);
      }
    } else {
      assert p[..|p| - 1] == Repeat('0', z) + s[..|s| - 1];
      LeadingZeros(z, s[..|s| - 1]);
    }
  }

  /** Zero-padding a number's digits keeps the number. */
  lemma ZeroPadValue(n: nat, width: nat)
    ensures forall k :: 0 <= k < |PadStart(NatStr(n), width, '0')| ==> IsDigit(PadStart(NatStr(n), width, '0')[k])
    ensures DigitsValue(PadStart(NatStr(n), width, '0')) == n
  {
    NatStrRoundTrip(n);
    var s := NatStr(n);
    if |s| < width {
      LeadingZeros(width - |s|, s);
    }
  }

  /** A `slice` index resolved against length `n`: negative counts from the end, then clamped to [0, n]. */
  function SliceIndex(i: int, n: nat): (k: nat)
    ensures k <= n
    ensures 0 <= i <= n ==> k == i
    ensures i > n ==> k == n
    ensures i < 0 ==> k == if n + i < 0 then 0 else n + i
  {
    if i < 0 then (if n + i < 0 then 0 else n + i) else if i > n then n else i
  }

  /** `s.slice(start, end)` on an array or a string. */
  function Slice<T>(s: seq<T>, start: int, end: int): (r: seq<T>)
    ensures |r| <= |s|
    ensures SliceIndex(start, |s|) < SliceIndex(end, |s|) ==> r == s[SliceIndex(start, |s|)..SliceIndex(end, |s|)]
    ensures SliceIndex(end, |s|) <= SliceIndex(start, |s|) ==> r == []
  {
    var lo := SliceIndex(start, |s|);
    var hi := SliceIndex(end, |s|);
    if hi <= lo then [] else s[lo..hi]
  }

  /** `s.slice(0, k)` for `k >= 0` is the prefix of length `min(k, |s|)`. */
  lemma SlicePrefix<T>(s: seq<T>, k: int)
    requires k >= 0
    ensures var r := Slice(s, 0, k); |r| == (if k < |s| then k else |s|) && r == s[..|r|]
  {
  }

  /** Adjacent slices join up: `s.slice(a, b) + s.slice(b, c) == s.slice(a, c)`. */
  lemma SliceConcat<T>(s: seq<T>, a: int, b: int, c: int)
    requires 0 <= a <= b <= c
    ensures Slice(s, a, b) + Slice(s, b, c) == Slice(s, a, c)
  {
    var lo, mid, hi := SliceIndex(a, |s|), SliceIndex(b, |s|), SliceIndex(c, |s|);
    if lo < mid && mid < hi {
      assert s[lo..mid] + s[mid..hi] == s[lo..hi];
    }
  }

  /** Cutting anywhere and putting the halves together gives back the whole sequence. */
  lemma SliceSplit<T>(s: seq<T>, k: int)
    ensures Slice(s, 0, k) + Slice(s, k, |s|) == s
  {
    var m := SliceIndex(k, |s|);
    assert s[..m] + s[m..] == s;
  }
}
