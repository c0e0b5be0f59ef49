/**
 * `xs.filter(keep)` described by what it returns: the elements of `xs` that pass `keep`,
 * every occurrence of them, in their original order, and nothing else.
 */
module Filtering {
  import opened Dedup

  /** `r` is `s` with some elements left out and the others in their original order. */
  predicate IsSubsequence<T(==)>(r: seq<T>, s: seq<T>)
    decreases |s|
  {
    if |r| == 0 then true
    else if |s| == 0 then false
    else (r[|r| - 1] == s[|s| - 1] && IsSubsequence(r[..|r| - 1], s[..|s| - 1]))
         || IsSubsequence(r, s[..|s| - 1])
  }

  /**
   * `r` is `s.filter(keep)`: a subsequence of `s` that holds each value passing `keep` as
   * often as `s` does and no other value.
   */
  ghost predicate IsFilterOf<T(!new)>(r: seq<T>, s: seq<T>, keep: T -> bool)
  {
    && IsSubsequence(r, s)
    && forall x :: multiset(r)[x] == if keep(x) then multiset(s)[x] else 0
  }

  /** Filtering one more element appends it exactly when it passes. */
  lemma FilterStep<T(!new)>(r: seq<T>, s: seq<T>, keep: T -> bool)
    requires |s| > 0 && IsFilterOf(r, s[..|s| - 1], keep)
    ensures IsFilterOf(if keep(s[|s| - 1]) then r + [s[|s| - 1]] else r, s, keep)
  {
    var init, z := s[..|s| - 1], s[|s| - 1];
    assert s == init + [z];
    if keep(z) {
      var r' := r + [z];
      assert r'[..|r'| - 1] == r;
    }
  }

  /** A subsequence holds no value more often than the sequence it is taken from. */
  lemma {:induction false} SubsequenceCounts<T>(r: seq<T>, s: seq<T>, x: T)
    requires IsSubsequence(r, s)
    ensures multiset(r)[x] <= multiset(s)[x]
    decreases |s|
  {
    if |r| > 0 {
      var init, z := s[..|s| - 1], s[|s| - 1];
      assert s == init + [z];
      if r[|r| - 1] == z && IsSubsequence(r[..|r| - 1], init) {
        SubsequenceCounts(r[..|r| - 1], init, x);
        assert r == r[..|r| - 1] + [z];
      } else {
        SubsequenceCounts(r, init, x);
      }
    }
  }

  /** When the last element passes, the filter ends with it, after the filter of the others. */
  lemma EndsWithKept<T(!new)>(r: seq<T>, s: seq<T>, keep: T -> bool)
    requires |s| > 0 && IsFilterOf(r, s, keep) && keep(s[|s| - 1])
    ensures |r| > 0 && r[|r| - 1] == s[|s| - 1]
    ensures IsFilterOf(r[..|r| - 1], s[..|s| - 1], keep)
  {
    var init, z := s[..|s| - 1], s[|s| - 1];
    assert s == init + [z];
    assert multiset(r)[z] == multiset(init)[z] + 1;
    assert |r| > 0;
    if !(r[|r| - 1] == z && IsSubsequence(r[..|r| - 1], init)) {
      SubsequenceCounts(r, init, z);
      assert false;
    }
    assert r == r[..|r| - 1] + [z];
  }

  /** When the last element fails, the filter is the filter of the others. */
  lemma DropsUnkept<T(!new)>(r: seq<T>, s: seq<T>, keep: T -> bool)
    requires |s| > 0 && IsFilterOf(r, s, keep) && !keep(s[|s| - 1])
    ensures IsFilterOf(r, s[..|s| - 1], keep)
  {
    var init, z := s[..|s| - 1], s[|s| - 1];
    assert s == init + [z];
    assert multiset(r)[z] == 0;
    if |r| > 0 {
      assert r[|r| - 1] in multiset(r);
    }
  }

  /** The contract fixes the result: two filters of the same sequence by the same test are equal. */
  lemma {:induction false} FilterIsUnique<T(!new)>(r1: seq<T>, r2: seq<T>, s: seq<T>, keep: T -> bool)
    requires IsFilterOf(r1, s, keep) && IsFilterOf(r2, s, keep)
    ensures r1 == r2
    decreases |s|
  {
    if |s| > 0 {
      var init := s[..|s| - 1];
      if keep(s[|s| - 1]) {
        EndsWithKept(r1, s, keep);
        EndsWithKept(r2, s, keep);
        FilterIsUnique(r1[..|r1| - 1], r2[..|r2| - 1], init, keep);
        assert r1 == r1[..|r1| - 1] + [s[|s| - 1]];
        assert r2 == r2[..|r2| - 1] + [s[|s| - 1]];
      } else {
        DropsUnkept(r1, s, keep);
        DropsUnkept(r2, s, keep);
        FilterIsUnique(r1, r2, init, keep);
      }
    }
  }

  /**
   * Filtering keeps the order of first occurrences: a value that first occurs before
   * another in the result also first occurs before it in the input.
   */
  lemma {:induction false} FilterKeepsFirstOccurrenceOrder<T(!new)>(r: seq<T>, s: seq<T>, keep: T -> bool, x: T, y: T)
    requires IsFilterOf(r, s, keep) && x in r && y in r
    requires FirstIndex(r, x) < FirstIndex(r, y)
    ensures x in s && y in s && FirstIndex(s, x) < FirstIndex(s, y)
    decreases |s|
  {
    assert multiset(r)[x] > 0 && multiset(r)[y] > 0;
    assert x in s && y in s;
    var init, z := s[..|s| - 1], s[|s| - 1];
    assert s == init + [z];
    if keep(z) {
      EndsWithKept(r, s, keep);
      var r' := r[..|r| - 1];
      assert r == r' + [z];
      if x in r' && y in r' {
        FirstIndexOfPrefix(r, |r'|, x);
        FirstIndexOfPrefix(r, |r'|, y);
        FilterKeepsFirstOccurrenceOrder(r', init, keep, x, y);
        FirstIndexOfPrefix(s, |init|, x);
        FirstIndexOfPrefix(s, |init|, y);
      } else if x in r' {
        assert y == z && multiset(r')[y] == 0 && y !in init;
        assert multiset(r')[x] > 0 && x in init;
        FirstIndexOfPrefix(s, |init|, x);
      } else {
        assert false;
      }
    } else {
      DropsUnkept(r, s, keep);
      FilterKeepsFirstOccurrenceOrder(r, init, keep, x, y);
      assert multiset(init)[x] > 0 && multiset(init)[y] > 0;
      FirstIndexOfPrefix(s, |init|, x);
      FirstIndexOfPrefix(s, |init|, y);
    }
  }

  /** A value at two positions occurs at least twice. */
  lemma TwoOccurrences<T>(s: seq<T>, i: nat, j: nat)
    requires i < j < |s| && s[i] == s[j]
    ensures multiset(s)[s[i]] >= 2
  {
    assert s == s[..j] + [s[j]] + s[j + 1..];
    assert s[i] == s[..j][i];
  }

  /** A sequence without duplicates holds each value at most once. */
  lemma {:induction false} NoDuplicatesCountsOnce<T>(s: seq<T>, x: T)
    ensures NoDuplicates(s) ==> multiset(s)[x] <= 1
  {
    if |s| > 0 && NoDuplicates(s) {
      var init, z := s[..|s| - 1], s[|s| - 1];
      assert s == init + [z];
      assert NoDuplicates(init);
      NoDuplicatesCountsOnce(init, x);
      if z == x {
        assert x !in init;
      }
    }
  }

  /** A value held twice is a duplicate. */
  lemma RepeatedValueIsDuplicate<T>(s: seq<T>, x: T)
    requires multiset(s)[x] >= 2
    ensures !NoDuplicates(s)
  {
    NoDuplicatesCountsOnce(s, x);
  }
}
