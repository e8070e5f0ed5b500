/**
 * A JavaScript object used as a dictionary (`Record<string, V>`), with the order
 * `Object.keys` and `Object.values` report: insertion order. An entry is a
 * (key, value) pair; `{ ...previous, [key]: value }` replaces the value of an
 * existing key in place and appends a new key at the end.
 */
module Records {
  import opened Wrappers

  type Record<V> = seq<(string, V)>

  /** `Object.keys(r)`. */
  function Keys<V>(r: Record<V>): (ks: seq<string>)
    ensures |ks| == |r|
    ensures forall i :: 0 <= i < |r| ==> ks[i] == r[i].0
  {
    seq(|r|, i requires 0 <= i < |r| => r[i].0)
  }

  /** `Object.values(r)`. */
  function Values<V>(r: Record<V>): (vs: seq<V>)
    ensures |vs| == |r|
    ensures forall i :: 0 <= i < |r| ==> vs[i] == r[i].1
  {
    seq(|r|, i requires 0 <= i < |r| => r[i].1)
  }

  /** Every key occurs once, as in any JavaScript object. */
  predicate UniqueKeys<V>(r: Record<V>) {
    forall i, j :: 0 <= i < j < |r| ==> r[i].0 != r[j].0
  }

  predicate HasKey<V>(r: Record<V>, k: string) {
    exists i | 0 <= i < |r| :: r[i].0 == k
  }

  /** `r[k]`, `undefined` when the key is missing. */
  function Get<V>(r: Record<V>, k: string): (v: Option<V>)
    ensures v.Some? <==> HasKey(r, k)
    ensures v.Some? ==> exists i | 0 <= i < |r| :: r[i] == (k, v.value)
  {
    if r == [] then None
    else if r[0].0 == k then Some(r[0].1)
    else
      var v := Get(r[1..], k);
      assert v.Some? ==> exists i | 0 <= i < |r| :: r[i] == (k, v.value) by {
        if v.Some? {
          var i :| 0 <= i < |r[1..]| && r[1..][i] == (k, v.value);
          assert r[i + 1] == (k, v.value);
        }
      }
      assert HasKey(r, k) ==> HasKey(r[1..], k) by {
        if HasKey(r, k) {
          var i :| 0 <= i < |r| && r[i].0 == k;
          assert r[1..][i - 1].0 == k;
        }
      }
      v
  }

  lemma HasKeyCons<V>(r: Record<V>)
    requires r != []
    ensures forall k' :: HasKey(r, k') <==> k' == r[0].0 || HasKey(r[1..], k')
  {
    forall k' ensures HasKey(r, k') <==> k' == r[0].0 || HasKey(r[1..], k') {
      if HasKey(r[1..], k') {
        var i :| 0 <= i < |r[1..]| && r[1..][i].0 == k';
        assert r[i + 1].0 == k';
      }
      if HasKey(r, k') && k' != r[0].0 {
        var i :| 0 <= i < |r| && r[i].0 == k';
        assert r[1..][i - 1].0 == k';
      }
    }
  }

  lemma HeadKeyNotInTail<V>(r: Record<V>)
    requires r != [] && UniqueKeys(r)
    ensures !HasKey(r[1..], r[0].0)
  {
    forall j | 0 <= j < |r[1..]| ensures r[1..][j].0 != r[0].0 {
      assert r[1..][j] == r[j + 1];
    }
  }

  lemma ConsUnique<V>(x: (string, V), t: Record<V>)
    requires UniqueKeys(t) && !HasKey(t, x.0)
    ensures UniqueKeys([x] + t)
  {
    forall i, j | 0 <= i < j < |[x] + t| ensures ([x] + t)[i].0 != ([x] + t)[j].0 {
      assert ([x] + t)[j] == t[j - 1];
      if i > 0 {
        assert ([x] + t)[i] == t[i - 1];
      }
    }
  }

  lemma TailUnique<V>(r: Record<V>)
    requires r != [] && UniqueKeys(r)
    ensures UniqueKeys(r[1..])
  {
    forall i, j | 0 <= i < j < |r| - 1 ensures r[1..][i].0 != r[1..][j].0 {
      assert r[1..][i] == r[i + 1] && r[1..][j] == r[j + 1];
    }
  }

  /** What `{ ...r, [k]: v }` is: `r` with `k` mapped to `v`, in place or appended. */
  ghost predicate IsPut<V>(r: Record<V>, k: string, v: V, r': Record<V>) {
    && Get(r', k) == Some(v)
    && (forall k' :: k' != k ==> Get(r', k') == Get(r, k'))
    && (HasKey(r, k) ==> |r'| == |r|)
    && (!HasKey(r, k) ==> r' == r + [(k, v)])
    && (UniqueKeys(r) ==> UniqueKeys(r'))
    && (forall k' :: HasKey(r', k') <==> HasKey(r, k') || k' == k)
  }

  lemma PutHead<V>(r: Record<V>, k: string, v: V)
    requires r != [] && r[0].0 == k
    ensures IsPut(r, k, v, [(k, v)] + r[1..])
  {
    var s := [(k, v)] + r[1..];
    assert s[1..] == r[1..];
    HasKeyCons(r);
    HasKeyCons(s);
    assert UniqueKeys(r) ==> UniqueKeys(s) by {
      if UniqueKeys(r) {
        TailUnique(r);
        HeadKeyNotInTail(r);
        ConsUnique((k, v), r[1..]);
      }
    }
  }

  lemma PutCons<V>(r: Record<V>, k: string, v: V, tail: Record<V>)
    requires r != [] && r[0].0 != k
    requires IsPut(r[1..], k, v, tail)
    ensures IsPut(r, k, v, [r[0]] + tail)
  {
    var s := [r[0]] + tail;
    assert s[1..] == tail;
    HasKeyCons(r);
    HasKeyCons(s);
    assert !HasKey(r, k) ==> s == r + [(k, v)] by {
      if !HasKey(r, k) {
        assert r == [r[0]] + r[1..];
      }
    }
    assert UniqueKeys(r) ==> UniqueKeys(s) by {
      if UniqueKeys(r) {
        TailUnique(r);
        HeadKeyNotInTail(r);
        ConsUnique(r[0], tail);
      }
    }
  }

  /** `{ ...r, [k]: v }`. */
  function Put<V>(r: Record<V>, k: string, v: V): (r': Record<V>)
    ensures Get(r', k) == Some(v)
    ensures forall k' :: k' != k ==> Get(r', k') == Get(r, k')
    ensures HasKey(r, k) ==> |r'| == |r|
    ensures !HasKey(r, k) ==> r' == r + [(k, v)]
    ensures UniqueKeys(r) ==> UniqueKeys(r')
    ensures forall k' :: HasKey(r', k') <==> HasKey(r, k') || k' == k
  {
    if r == [] then [(k, v)]
    else if r[0].0 == k then
      PutHead(r, k, v);
      [(k, v)] + r[1..]
    else
      var tail := Put(r[1..], k, v);
      assert IsPut(r[1..], k, v, tail);
      PutCons(r, k, v, tail);
      [r[0]] + tail
  }

  /** `delete r[k]` on a copy. */
  function Remove<V>(r: Record<V>, k: string): (r': Record<V>)
    ensures Get(r', k) == None
    ensures forall k' :: k' != k ==> Get(r', k') == Get(r, k')
    ensures UniqueKeys(r) ==> UniqueKeys(r')
    ensures forall k' :: HasKey(r', k') <==> HasKey(r, k') && k' != k
    ensures |r'| <= |r|
  {
    if r == [] then []
    else
      var tail := Remove(r[1..], k);
      HasKeyCons(r);
      if r[0].0 == k then tail
      else
        HasKeyCons([r[0]] + tail);
        assert ([r[0]] + tail)[1..] == tail;
        assert UniqueKeys(r) ==> UniqueKeys([r[0]] + tail) by {
          if UniqueKeys(r) {
            HeadKeyNotInTail(r);
            ConsUnique(r[0], tail);
          }
        }
        [r[0]] + tail
  }

  /** The set of keys. */
  function KeySet<V>(r: Record<V>): (ks: set<string>)
    ensures forall k :: k in ks <==> HasKey(r, k)
  {
    set i | 0 <= i < |r| :: r[i].0
  }

  /** `Object.keys` lists exactly the present keys, and `Object.values` lines up with it. */
  lemma KeysSpec<V>(r: Record<V>)
    ensures forall k :: k in Keys(r) <==> HasKey(r, k)
    ensures |Values(r)| == |Keys(r)|
    ensures UniqueKeys(r) ==> forall i :: 0 <= i < |r| ==> Get(r, Keys(r)[i]) == Some(Values(r)[i])
  {
    forall k ensures k in Keys(r) <==> HasKey(r, k) {
      if HasKey(r, k) {
        var i :| 0 <= i < |r| && r[i].0 == k;
        assert Keys(r)[i] == k;
      }
    }
    if UniqueKeys(r) {
      forall i | 0 <= i < |r| ensures Get(r, Keys(r)[i]) == Some(Values(r)[i]) {
        assert HasKey(r, r[i].0);
        var v := Get(r, r[i].0);
        var j :| 0 <= j < |r| && r[j] == (r[i].0, v.value);
        assert j == i;
      }
    }
  }

  lemma KeysCons<V>(x: (string, V), t: Record<V>)
    ensures Keys([x] + t) == [x.0] + Keys(t)
  {
  }

  /** `{ ...r, [k]: v }` keeps the key order: an existing key stays where it is, a new one goes last. */
  lemma {:induction false} KeysPut<V>(r: Record<V>, k: string, v: V)
    ensures Keys(Put(r, k, v)) == if HasKey(r, k) then Keys(r) else Keys(r) + [k]
    decreases |r|, 1
  {
    if r == [] {
      assert Put(r, k, v) == [(k, v)];
    } else if r[0].0 == k {
      KeysPutHead(r, k, v);
    } else {
      KeysPutTail(r, k, v);
    }
  }

  lemma KeysPutHead<V>(r: Record<V>, k: string, v: V)
    requires r != [] && r[0].0 == k
    ensures HasKey(r, k) && Keys(Put(r, k, v)) == Keys(r)
  {
    assert Put(r, k, v) == [(k, v)] + r[1..];
    KeysCons((k, v), r[1..]);
    KeysCons(r[0], r[1..]);
    assert r == [r[0]] + r[1..];
  }

  lemma {:induction false} KeysPutTail<V>(r: Record<V>, k: string, v: V)
    requires r != [] && r[0].0 != k
    ensures Keys(Put(r, k, v)) == if HasKey(r, k) then Keys(r) else Keys(r) + [k]
    decreases |r|, 0
  {
    var tail := Put(r[1..], k, v);
    assert Put(r, k, v) == [r[0]] + tail;
    KeysPut(r[1..], k, v);
    HasKeyCons(r);
    var has := HasKey(r[1..], k);
    assert HasKey(r, k) == has;
    KeysConsStep(r, tail, k, has);
  }

  lemma KeysConsStep<V>(r: Record<V>, tail: Record<V>, k: string, has: bool)
    requires r != []
    requires Keys(tail) == if has then Keys(r[1..]) else Keys(r[1..]) + [k]
    ensures Keys([r[0]] + tail) == if has then Keys(r) else Keys(r) + [k]
  {
    assert [r[0]] + r[1..] == r;
    KeysCons(r[0], tail);
    KeysCons(r[0], r[1..]);
    if !has {
      assert [r[0].0] + (Keys(r[1..]) + [k]) == ([r[0].0] + Keys(r[1..])) + [k];
    }
  }

  /** With unique keys (as in any object) the key set has one element per entry. */
  lemma {:induction false} KeySetSize<V>(r: Record<V>)
    requires UniqueKeys(r)
    ensures |KeySet(r)| == |r|
  {
    if r != [] {
      HasKeyCons(r);
      HeadKeyNotInTail(r);
      TailUnique(r);
      KeySetSize(r[1..]);
      assert KeySet(r) == {r[0].0} + KeySet(r[1..]);
    }
  }
}
