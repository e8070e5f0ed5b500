/** Optional values: a TypeScript `T | undefined` (or `T | null`) is an `Option<T>`. */
module Wrappers {

  datatype Option<+T> = None | Some(value: T) {

    /** The `??` operator: the value when present, otherwise `default`. */
    function GetOr(default: T): T {
      match this
      case Some(v) => v
      case None => default
    }
  }

  /** `list.find(p)`: the first element satisfying `p`, or none when no element does. */
  function Find<T>(s: seq<T>, p: T -> bool): (r: Option<T>)
    ensures r.Some? <==> exists i | 0 <= i < |s| :: p(s[i])
    ensures r.Some? ==> exists i | 0 <= i < |s| :: s[i] == r.value && p(s[i]) && forall j :: 0 <= j < i ==> !p(s[j])
  {
    if s == [] then None
    else if p(s[0]) then Some(s[0])
    else
      var r := Find(s[1..], p);
      assert (exists i | 0 <= i < |s| :: p(s[i])) ==> exists i | 0 <= i < |s[1..]| :: p(s[1..][i]) by {
        if exists i | 0 <= i < |s| :: p(s[i]) {
          var i :| 0 <= i < |s| && p(s[i]);
          assert p(s[1..][i - 1]);
        }
      }
      assert r.Some? ==> exists i | 0 <= i < |s| :: s[i] == r.value && p(s[i]) && forall j :: 0 <= j < i ==> !p(s[j]) by {
        if r.Some? {
          var i :| 0 <= i < |s[1..]| && s[1..][i] == r.value && p(s[1..][i]) && forall j :: 0 <= j < i ==> !p(s[1..][j]);
          assert s[i + 1] == r.value;
          forall j | 0 <= j < i + 1 ensures !p(s[j]) {
            if j > 0 {
              assert s[j] == s[1..][j - 1];
            }
          }
        }
      }
      r
  }
}
