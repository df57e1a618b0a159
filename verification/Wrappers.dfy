/** Small value types and sequence facts shared by the models. */
module Wrappers {

  datatype Option<+T> = None | Some(value: T)

  /** The elements of a sequence that satisfy a predicate, in order. */
  function Filter<T(!new)>(keep: T -> bool, s: seq<T>): (r: seq<T>)
    ensures forall x :: x in r <==> x in s && keep(x)
    ensures |r| <= |s|
  {
    if s == [] then [] else (if keep(s[0]) then [s[0]] else []) + Filter(keep, s[1..])
  }

  lemma {:induction false} FilterConcat<T(!new)>(keep: T -> bool, a: seq<T>, b: seq<T>)
    ensures Filter(keep, a + b) == Filter(keep, a) + Filter(keep, b)
  {
    if a == [] {
      assert a + b == b;
    } else {
      assert (a + b)[1..] == a[1..] + b;
      FilterConcat(keep, a[1..], b);
    }
  }

  lemma {:induction false} FilterAll<T(!new)>(keep: T -> bool, s: seq<T>)
    requires forall x :: x in s ==> keep(x)
    ensures Filter(keep, s) == s
  {
    if s != [] {
      FilterAll(keep, s[1..]);
    }
  }

  /** A filter keeps two elements exactly when two places satisfy the predicate. */
  lemma {:induction false} FilterKeepsTwo<T(!new)>(keep: T -> bool, s: seq<T>)
    ensures |Filter(keep, s)| > 1 <==> exists i, j :: 0 <= i < j < |s| && keep(s[i]) && keep(s[j])
    ensures |Filter(keep, s)| == 0 <==> forall i :: 0 <= i < |s| ==> !keep(s[i])
  {
    if s != [] {
      FilterKeepsTwo(keep, s[1..]);
      var rest := Filter(keep, s[1..]);
      if keep(s[0]) && rest != [] {
        assert rest[0] in rest;
        var j :| 0 <= j < |s[1..]| && s[1..][j] == rest[0];
        assert keep(s[0]) && keep(s[j + 1]);
      }
      if i, j :| 0 <= i < j < |s| && keep(s[i]) && keep(s[j]) {
        assert s[1..][j - 1] == s[j];
        if i > 0 { assert s[1..][i - 1] == s[i]; }
      }
    }
  }

  ghost predicate Distinct<T>(s: seq<T>) {
    forall i, j :: 0 <= i < j < |s| ==> s[i] != s[j]
  }
}
