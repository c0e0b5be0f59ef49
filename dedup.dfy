/**
 * `[...new Set(values)]`: the values, each kept once, in the order in which each first
 * occurs.
 */
module Dedup {

  predicate NoDuplicates<T(==)>(s: seq<T>)
  {
    forall i, j :: 0 <= i < j < |s| ==> s[i] != s[j]
  }

  /** The values of `s` without repetitions, each where it first occurs. */
  function Distinct<T(==,!new)>(s: seq<T>): (r: seq<T>)
    ensures forall x :: x in r <==> x in s
    ensures NoDuplicates(r)
    ensures |r| <= |s|
  {
    if |s| == 0 then []
    else
      var d := Distinct(s[..|s| - 1]);
      var x := s[|s| - 1];
      if x in d then d else d + [x]
  }

  /** The position of the first occurrence of `x` in `s`. */
  function FirstIndex<T(==)>(s: seq<T>, x: T): (k: nat)
    requires x in s
    ensures k < |s| && s[k] == x
    ensures forall i :: 0 <= i < k ==> s[i] != x
  {
    if s[0] == x then 0 else 1 + FirstIndex(s[1..], x)
  }

  /** A value's first occurrence does not move when more values are appended. */
  lemma FirstIndexOfPrefix<T>(s: seq<T>, m: nat, x: T)
    requires m <= |s| && x in s[..m]
    ensures FirstIndex(s, x) == FirstIndex(s[..m], x)
  {
    var a, b := FirstIndex(s, x), FirstIndex(s[..m], x);
    assert s[b] == x;
    assert a <= b;
    assert s[..m][a] == x;
  }

  /** The values of `Distinct(s)` are listed in the order of their first occurrences in `s`. */
  lemma {:induction false} DistinctKeepsFirstOccurrenceOrder<T(!new)>(s: seq<T>, i: nat, j: nat)
    requires i < j < |Distinct(s)|
    ensures FirstIndex(s, Distinct(s)[i]) < FirstIndex(s, Distinct(s)[j])
  {
    var init := s[..|s| - 1];
    var x := s[|s| - 1];
    var d := Distinct(init);
    var di, dj := Distinct(s)[i], Distinct(s)[j];
    if x in d {
      assert Distinct(s) == d;
      DistinctKeepsFirstOccurrenceOrder(init, i, j);
      FirstIndexOfPrefix(s, |s| - 1, di);
      FirstIndexOfPrefix(s, |s| - 1, dj);
    } else {
      assert Distinct(s) == d + [x];
      if j < |d| {
        DistinctKeepsFirstOccurrenceOrder(init, i, j);
        FirstIndexOfPrefix(s, |s| - 1, di);
        FirstIndexOfPrefix(s, |s| - 1, dj);
      } else {
        assert dj == x && x !in init;
        assert FirstIndex(s, x) == |s| - 1;
        FirstIndexOfPrefix(s, |s| - 1, di);
      }
    }
  }
}
