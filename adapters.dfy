/**
 * The joltage adapters of Day10/main.go: the 1-jolt and 3-jolt hops of the
 * chain starting at the outlet (0), and the number of adapter arrangements,
 * counted backwards over the sorted ratings with a map from rating to count.
 */
module Adapters {

  /** The rating before position k; the outlet, 0, before the first. */
  function Previous(r: seq<int>, k: nat): int
    requires k < |r|
  {
    if k == 0 then 0 else r[k - 1]
  }

  /** How many of the first n positions rise by exactly h over the one before. */
  function HopCount(r: seq<int>, n: nat, h: int): (c: nat)
    requires n <= |r|
    ensures c <= n
  {
    if n == 0 then 0
    else HopCount(r, n - 1, h) + (if r[n - 1] == Previous(r, n - 1) + h then 1 else 0)
  }

  /** No position rises by more than 3 over the one before. */
  predicate HopsWithinThree(r: seq<int>) {
    forall k :: 0 <= k < |r| ==> r[k] <= Previous(r, k) + 3
  }

  /** A position counts as a 1-hop or a 3-hop, never both. */
  lemma {:induction false} OneAndThreeHopsBounded(r: seq<int>, n: nat)
    requires n <= |r|
    ensures HopCount(r, n, 1) + HopCount(r, n, 3) <= n
  {
    if n > 0 {
      OneAndThreeHopsBounded(r, n - 1);
    }
  }

  /**
   * `countIncreasesInAdapterSequence`: on success the counts of 1-hops and
   * 3-hops; any hop over 3 gives (0, 0, false). Hops of 0 or 2 and decreases are
   * accepted and counted in neither.
   */
  method CountIncreases(ratings: seq<int>) returns (oneHops: nat, threeHops: nat, ok: bool)
    ensures ok <==> HopsWithinThree(ratings)
    ensures ok ==> oneHops == HopCount(ratings, |ratings|, 1) && threeHops == HopCount(ratings, |ratings|, 3)
    ensures ok ==> oneHops + threeHops <= |ratings|
    ensures !ok ==> oneHops == 0 && threeHops == 0
  {
    var lastRating := 0;
    oneHops, threeHops := 0, 0;
    for k := 0 to |ratings|
      invariant lastRating == (if k == 0 then 0 else ratings[k - 1])
      invariant forall j :: 0 <= j < k ==> ratings[j] <= Previous(ratings, j) + 3
      invariant oneHops == HopCount(ratings, k, 1) && threeHops == HopCount(ratings, k, 3)
    {
      var rating := ratings[k];
      if rating == lastRating + 1 {
        oneHops := oneHops + 1;
      } else if rating == lastRating + 3 {
        threeHops := threeHops + 1;
      } else if rating > lastRating + 3 {
        return 0, 0, false;
      }
      lastRating := rating;
    }
    OneAndThreeHopsBounded(ratings, |ratings|);
    ok := true;
  }

  lemma HopExample()
    ensures HopsWithinThree([1, 3, 4, 7, 10])
    ensures HopCount([1, 3, 4, 7, 10], 5, 1) == 2 && HopCount([1, 3, 4, 7, 10], 5, 3) == 2
  {
  }

  predicate StrictlyIncreasing(r: seq<int>) {
    forall i, j :: 0 <= i < j < |r| ==> r[i] < r[j]
  }

  /**
   * The number of chains from position k to the last position, each step going
   * to any later position whose rating is at most 3 above.
   */
  function Paths(r: seq<int>, k: nat): nat
    requires k < |r|
    decreases |r| - k, 1, 0
  {
    if k == |r| - 1 then 1 else ChainSum(r, k, k + 1, |r|)
  }

  /** The chains from k whose second position lies in lo..hi-1. */
  function ChainSum(r: seq<int>, k: nat, lo: nat, hi: nat): nat
    requires k < lo <= hi <= |r|
    decreases |r| - k, 0, hi - lo
  {
    if hi == lo then 0
    else ChainSum(r, k, lo, hi - 1) + (if r[hi - 1] - r[k] <= 3 then Paths(r, hi - 1) else 0)
  }

  /** In a strictly increasing sequence of integers the value grows at least as fast as the index. */
  lemma {:induction false} IncreasingSpread(r: seq<int>, i: nat, j: nat)
    requires StrictlyIncreasing(r) && i <= j < |r|
    ensures r[j] - r[i] >= j - i
  {
    if i < j {
      IncreasingSpread(r, i, j - 1);
    }
  }

  /** Positions beyond the next three are more than 3 higher, so they add no chains. */
  lemma {:induction false} WindowSuffices(r: seq<int>, k: nat, hi: nat)
    requires StrictlyIncreasing(r) && k + 4 <= hi <= |r|
    ensures ChainSum(r, k, k + 1, hi) == ChainSum(r, k, k + 1, k + 4)
  {
    if hi > k + 4 {
      IncreasingSpread(r, k, hi - 1);
      WindowSuffices(r, k, hi - 1);
    }
  }

  function Get(m: map<int, int>, key: int): int {
    if key in m then m[key] else 0
  }

  /**
   * The inner loop of `countAdapterSequences`: the rating at `index` gains the
   * counts of the ratings at index+1..limit-1 that are at most 3 above it.
   */
  method AddFollowing(ratings: seq<int>, options: map<int, int>, index: nat, limit: nat) returns (updated: map<int, int>)
    requires index < limit <= |ratings| || index + 1 == limit <= |ratings|
    requires forall key :: key in options ==> key in ratings
    ensures forall key :: key in updated ==> key in ratings
    ensures forall key :: key != ratings[index] ==> (key in updated <==> key in options) && Get(updated, key) == Get(options, key)
    ensures index + 1 == limit ==> updated == options
    ensures StrictlyIncreasing(ratings) && (forall j :: index < j < limit ==> Get(options, ratings[j]) == Paths(ratings, j)) ==>
      Get(updated, ratings[index]) == Get(options, ratings[index]) + ChainSum(ratings, index, index + 1, limit)
  {
    var currentVal := ratings[index];
    updated := options;
    for j := index + 1 to limit
      invariant forall key :: key in updated ==> key in ratings
      invariant forall key :: key != currentVal ==> (key in updated <==> key in options) && Get(updated, key) == Get(options, key)
      invariant index + 1 == limit ==> updated == options
      invariant StrictlyIncreasing(ratings) && (forall j :: index < j < limit ==> Get(options, ratings[j]) == Paths(ratings, j)) ==>
        Get(updated, currentVal) == Get(options, currentVal) + ChainSum(ratings, index, index + 1, j)
    {
      var nextRating := ratings[j];
      if nextRating - currentVal <= 3 {
        if nextRating in updated {
          updated := updated[currentVal := Get(updated, currentVal) + updated[nextRating]];
        }
      }
    }
  }

  /**
   * `countAdapterSequences`. Go indexes the last rating, so the input must not
   * be empty. The count of a missing rating reads as 0, the map default.
   */
  method CountAdapterSequences(ratings: seq<int>) returns (count: int)
    requires |ratings| > 0
    ensures 0 !in ratings ==> count == 0
    ensures StrictlyIncreasing(ratings) ==>
      forall k :: 0 <= k < |ratings| && ratings[k] == 0 ==> count == Paths(ratings, k)
  {
    var n := |ratings|;
    var options: map<int, int> := map[ratings[n - 1] := 1];
    ghost var increasing := StrictlyIncreasing(ratings);
    for i := 0 to n
      invariant forall key :: key in options ==> key in ratings
      invariant increasing ==> forall k :: n - i <= k < n ==> Get(options, ratings[k]) == Paths(ratings, k)
      invariant increasing ==> forall k :: 0 <= k < n - 1 && k < n - i ==> ratings[k] !in options
      invariant i == 0 ==> options == map[ratings[n - 1] := 1]
    {
      var index := n - i - 1;
      var limit := index + 4;
      if limit > n {
        limit := n;
      }
      ghost var before := options;
      options := AddFollowing(ratings, options, index, limit);
      if increasing && i > 0 {
        NextStep(ratings, before, options, index, limit);
      }
    }
    count := Get(options, 0);
  }

  /** One outer step of `countAdapterSequences` on strictly increasing ratings. */
  lemma NextStep(r: seq<int>, before: map<int, int>, after: map<int, int>, index: nat, limit: nat)
    requires StrictlyIncreasing(r) && index + 1 < |r|
    requires limit == (if index + 4 > |r| then |r| else index + 4)
    requires forall k :: index < k < |r| ==> Get(before, r[k]) == Paths(r, k)
    requires forall k :: 0 <= k <= index ==> r[k] !in before
    requires forall key :: key != r[index] ==> (key in after <==> key in before) && Get(after, key) == Get(before, key)
    requires Get(after, r[index]) == Get(before, r[index]) + ChainSum(r, index, index + 1, limit)
    ensures forall k :: index <= k < |r| ==> Get(after, r[k]) == Paths(r, k)
    ensures forall k :: 0 <= k < index ==> r[k] !in after
  {
    WindowSufficesClamped(r, index, limit);
    forall k | index < k < |r|
      ensures Get(after, r[k]) == Paths(r, k)
    {
      assert r[index] < r[k];
    }
    forall k | 0 <= k < index
      ensures r[k] !in after
    {
      assert r[k] < r[index];
    }
  }

  /** The window of `countAdapterSequences`, clamped to the end of the ratings. */
  lemma WindowSufficesClamped(r: seq<int>, k: nat, limit: nat)
    requires StrictlyIncreasing(r) && k + 1 < |r|
    requires limit == (if k + 4 > |r| then |r| else k + 4)
    ensures Paths(r, k) == ChainSum(r, k, k + 1, limit)
  {
    if limit == k + 4 {
      WindowSuffices(r, k, |r|);
    }
  }

  lemma ChainExample()
    ensures Paths([0, 1, 2, 3], 0) == 4
  {
    assert Paths([0, 1, 2, 3], 3) == 1;
    assert Paths([0, 1, 2, 3], 2) == 1;
    assert Paths([0, 1, 2, 3], 1) == 2;
  }
}
