/**
 * The XMAS cipher check of Day9/main.go: a number is valid when two different
 * values among the preceding `preamble` numbers add up to it; the weakness is a
 * contiguous run of at least two numbers adding up to the first invalid one.
 */
module Xmas {

  /** Two elements with different values add up to `sum`. */
  predicate SumOfTwo(s: seq<int>, sum: int) {
    exists i, j :: 0 <= i < |s| && 0 <= j < |s| && s[i] != s[j] && s[i] + s[j] == sum
  }

  /** `isSumOfTwoNumbersInSlice`. */
  method IsSumOfTwo(s: seq<int>, sum: int) returns (b: bool)
    ensures b <==> SumOfTwo(s, sum)
  {
    for i := 0 to |s|
      invariant forall i', j :: 0 <= i' < i && 0 <= j < |s| ==> !(s[i'] != s[j] && s[i'] + s[j] == sum)
    {
      for j := 0 to |s|
        invariant forall j' :: 0 <= j' < j ==> !(s[i] != s[j'] && s[i] + s[j'] == sum)
      {
        if s[i] != s[j] && s[i] + s[j] == sum {
          return true;
        }
      }
    }
    return false;
  }

  /** Equal values never pair up, even at two positions. */
  lemma PairExamples()
    ensures !SumOfTwo([5, 5], 10)
    ensures SumOfTwo([4, 6], 10)
  {
    var s: seq<int> := [4, 6];
    assert s[0] != s[1] && s[0] + s[1] == 10;
  }

  /** Position i is checked and fails: its value is no sum of two of the `preamble` numbers before it. */
  predicate InvalidAt(s: seq<int>, preamble: nat, i: int) {
    preamble <= i < |s| && !SumOfTwo(s[i - preamble..i], s[i])
  }

  /** `findFirstInvalidNumber`: the value at the least invalid position, or (0, false). */
  method FindFirstInvalidNumber(s: seq<int>, preamble: nat) returns (value: int, found: bool)
    ensures found ==> exists i :: (InvalidAt(s, preamble, i) && value == s[i] &&
      forall k :: preamble <= k < i ==> !InvalidAt(s, preamble, k))
    ensures !found ==> value == 0 && forall k :: preamble <= k < |s| ==> !InvalidAt(s, preamble, k)
    ensures preamble >= |s| ==> !found
  {
    var i := preamble;
    while i < |s|
      invariant preamble <= i
      invariant forall k :: preamble <= k < i ==> !InvalidAt(s, preamble, k)
      decreases |s| - i
    {
      var ok := IsSumOfTwo(s[i - preamble..i], s[i]);
      if !ok {
        return s[i], true;
      }
      i := i + 1;
    }
    return 0, false;
  }

  function Sum(s: seq<int>): int {
    if s == [] then 0 else Sum(s[..|s| - 1]) + s[|s| - 1]
  }

  /**
   * The run s[i..m) is where the search from i stops with a hit: it has at
   * least two elements, adds up to `sum`, and every shorter run from i of at
   * least two elements stays below `sum` (so the search did not break earlier).
   */
  predicate Hits(s: seq<int>, sum: int, i: int, m: int) {
    0 <= i && i + 2 <= m <= |s| && Sum(s[i..m]) == sum &&
    forall m' :: i + 2 <= m' < m ==> Sum(s[i..m']) < sum
  }

  ghost predicate NoHitFrom(s: seq<int>, sum: int, i: int) {
    forall m :: !Hits(s, sum, i, m)
  }

  /** The hit of the least start position that has one. */
  ghost predicate FirstHit(s: seq<int>, sum: int, i: int, m: int) {
    Hits(s, sum, i, m) && forall k :: 0 <= k < i ==> NoHitFrom(s, sum, k)
  }

  lemma FirstHitUnique(s: seq<int>, sum: int, i: int, m: int, i': int, m': int)
    requires FirstHit(s, sum, i, m) && FirstHit(s, sum, i', m')
    ensures i == i' && m == m'
  {
    HitIsNotNoHit(s, sum, i, m);
    HitIsNotNoHit(s, sum, i', m');
  }

  lemma HitIsNotNoHit(s: seq<int>, sum: int, i: int, m: int)
    requires Hits(s, sum, i, m)
    ensures !NoHitFrom(s, sum, i)
  {
  }

  /**
   * The search loops of `findContiguousListThatAddTo`: for each start i the
   * total begins at s[i] and adds s[i+1], s[i+2], ..., stopping at a hit or
   * once the total exceeds `sum`. Returns the bounds of the run it summed.
   */
  method FindRun(s: seq<int>, sum: int) returns (i: nat, m: nat, found: bool)
    ensures found ==> FirstHit(s, sum, i, m)
    ensures !found ==> forall k :: 0 <= k < |s| ==> NoHitFrom(s, sum, k)
  {
    i := 0;
    while i < |s|
      invariant i <= |s|
      invariant forall k :: 0 <= k < i ==> NoHitFrom(s, sum, k)
      decreases |s| - i
    {
      var total := s[i];
      m := i + 1;
      assert s[i..m] == [s[i]];
      ghost var overshoot := false;
      while m < |s|
        invariant i + 1 <= m <= |s|
        invariant total == Sum(s[i..m])
        invariant forall m' :: i + 2 <= m' <= m ==> Sum(s[i..m']) < sum
        invariant !overshoot
        decreases |s| - m
      {
        assert s[i..m + 1][..m - i] == s[i..m];
        total := total + s[m];
        m := m + 1;
        if total == sum {
          return i, m, true;
        }
        if total > sum {
          NoHitAfterOvershoot(s, sum, i, m);
          overshoot := true;
          break;
        }
      }
      if !overshoot {
        NoHitInPrefix(s, sum, i, m);
      }
      i := i + 1;
    }
    return 0, 0, false;
  }

  lemma NoHitAfterOvershoot(s: seq<int>, sum: int, i: nat, m: nat)
    requires i + 2 <= m <= |s| && Sum(s[i..m]) > sum
    requires forall m' :: i + 2 <= m' < m ==> Sum(s[i..m']) < sum
    ensures NoHitFrom(s, sum, i)
  {
    forall m'
      ensures !Hits(s, sum, i, m')
    {
      if m' > m && m' <= |s| {
        assert !(Sum(s[i..m]) < sum);
      }
    }
  }

  lemma NoHitInPrefix(s: seq<int>, sum: int, i: nat, m: nat)
    requires i + 1 <= m == |s|
    requires forall m' :: i + 2 <= m' <= m ==> Sum(s[i..m']) < sum
    ensures NoHitFrom(s, sum, i)
  {
  }

  /**
   * `findContiguousListThatAddTo` as written: on a hit over s[i..m) it returns
   * s[i..m-1], one element short of the run that added up to `sum`.
   */
  method FindContiguousListThatAddTo(s: seq<int>, sum: int) returns (run: seq<int>, found: bool)
    ensures found ==> exists i, m :: FirstHit(s, sum, i, m) && run == s[i..m - 1]
    ensures !found ==> run == [] && forall k :: 0 <= k < |s| ==> NoHitFrom(s, sum, k)
  {
    var i, m, hit := FindRun(s, sum);
    if hit {
      return s[i..m - 1], true;
    }
    return [], false;
  }

  /** On [1, 2, 3] with sum 3 the run summed is [1, 2], and the slice returned is [1], which adds up to 1. */
  lemma ShortRunExample(run: seq<int>, i: int, m: int)
    requires FirstHit([1, 2, 3], 3, i, m) && run == [1, 2, 3][i..m - 1]
    ensures run == [1] && Sum(run) != 3
  {
    var s: seq<int> := [1, 2, 3];
    assert s[0..2] == [1, 2];
    assert [1, 2][..1] == [1] && [1][..0] == [];
    assert Sum(s[0..2]) == 3;
    assert FirstHit(s, 3, 0, 2);
    FirstHitUnique(s, 3, i, m, 0, 2);
  }

  /** The same search returning the whole run it summed: at least two elements adding up to `sum`. */
  method FindContiguousRun(s: seq<int>, sum: int) returns (run: seq<int>, found: bool)
    ensures found ==> |run| >= 2 && Sum(run) == sum && exists i, m :: FirstHit(s, sum, i, m) && run == s[i..m]
    ensures !found ==> run == [] && forall k :: 0 <= k < |s| ==> NoHitFrom(s, sum, k)
  {
    var i, m, hit := FindRun(s, sum);
    if hit {
      return s[i..m], true;
    }
    return [], false;
  }
}
