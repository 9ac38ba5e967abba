/**
 * The expense report of Day1/main.go: sort the numbers, then find two (or
 * three) of them adding up to a total. Indices may coincide: the same entry
 * can be picked more than once.
 */
module Report {

  predicate Sorted(s: seq<int>) {
    forall i, j :: 0 <= i < j < |s| ==> s[i] <= s[j]
  }

  /** One step of insertion: x placed before the first element at least as large. */
  function Insert(x: int, s: seq<int>): (r: seq<int>)
    ensures multiset(r) == multiset(s) + multiset{x}
    ensures |r| == |s| + 1
  {
    if s == [] then [x]
    else if x <= s[0] then [x] + s
    else
      assert s == [s[0]] + s[1..];
      [s[0]] + Insert(x, s[1..])
  }

  lemma {:induction false} InsertSorted(x: int, s: seq<int>)
    requires Sorted(s)
    ensures Sorted(Insert(x, s))
    ensures forall k :: 0 <= k < |Insert(x, s)| ==> Insert(x, s)[k] == x || Insert(x, s)[k] in s
  {
    if s == [] {
    } else if x <= s[0] {
      assert Insert(x, s) == [x] + s;
    } else {
      InsertSorted(x, s[1..]);
      var t := Insert(x, s[1..]);
      assert Insert(x, s) == [s[0]] + t;
      forall k | 0 <= k < |t|
        ensures s[0] <= t[k]
      {
        if t[k] != x {
          var m :| 0 <= m < |s[1..]| && s[1..][m] == t[k];
          assert s[m + 1] == t[k];
        }
      }
    }
  }

  /** A sorted permutation of s; the model of Go's `sort.Ints`, whose algorithm is not modelled. */
  function SortedOf(s: seq<int>): (r: seq<int>)
    ensures Sorted(r)
    ensures multiset(r) == multiset(s)
    ensures |r| == |s|
  {
    if s == [] then []
    else
      assert s == [s[0]] + s[1..];
      InsertSorted(s[0], SortedOf(s[1..]));
      Insert(s[0], SortedOf(s[1..]))
  }

  /** `sort.Ints(numbers)`: the array is sorted in place. */
  method SortInts(a: array<int>)
    modifies a
    ensures a[..] == SortedOf(old(a[..]))
  {
    var sorted := SortedOf(a[..]);
    forall i | 0 <= i < a.Length {
      a[i] := sorted[i];
    }
  }

  /** `getOffsetDirection`: -1 when a >= b, otherwise 1. */
  function OffsetDirection(a: int, b: int): (d: int)
    ensures d == -1 <==> a >= b
    ensures d == 1 <==> a < b
  {
    if a >= b then -1 else 1
  }

  /** Two entries, possibly the same one twice, add up to the total. */
  predicate HasPair(s: seq<int>, total: int) {
    exists i, k :: 0 <= i < |s| && 0 <= k < |s| && s[i] + s[k] == total
  }

  /** Three entries, possibly repeated, add up to the total. */
  predicate HasTriplet(s: seq<int>, total: int) {
    exists i, j, k :: 0 <= i < |s| && 0 <= j < |s| && 0 <= k < |s| && s[i] + s[j] + s[k] == total
  }

  /**
   * The search loops of `getPairWhichTotalsTo` on sorted numbers: each first
   * number is paired with the others from the top down, stopping once the sum
   * falls below the total. Complete: any pair of positions adding up to the
   * total is found.
   */
  method PairSearch(s: seq<int>, total: int) returns (first: int, second: int, found: bool)
    requires Sorted(s)
    ensures found <==> HasPair(s, total)
    ensures found ==> first + second == total && first in s && second in s
    ensures !found ==> first == 0 && second == 0
  {
    for f := 0 to |s|
      invariant forall i, k :: 0 <= i < f && 0 <= k < |s| ==> s[i] + s[k] != total
    {
      var topIndex := |s| - 1;
      while topIndex >= 0
        invariant -1 <= topIndex < |s|
        invariant forall k :: topIndex < k < |s| ==> s[f] + s[k] > total
        decreases topIndex
      {
        var second := s[topIndex];
        if s[f] + second == total {
          return s[f], second, true;
        }
        if s[f] + second < total {
          assert forall k :: 0 <= k <= topIndex ==> s[f] + s[k] <= s[f] + second;
          break;
        }
        topIndex := topIndex - 1;
      }
    }
    return 0, 0, false;
  }

  /**
   * The innermost loop of `getTripletWhichTotalsTo`: starting from the middle
   * position it walks up or down, in the direction `getOffsetDirection` gives,
   * looking for a third number completing `partial` to the total. It stops on a
   * hit, on overshooting in the walking direction, or at either end. Every
   * index it reads is in bounds, and it misses no completing position.
   */
  method MiddleSearch(s: seq<int>, partial: int, total: int) returns (third: int, found: bool)
    requires Sorted(s) && |s| > 0
    ensures found ==> partial + third == total && third in s
    ensures !found ==> forall k :: 0 <= k < |s| ==> partial + s[k] != total
  {
    var middleIndex: int := |s| / 2;
    third := s[middleIndex];
    var runningTotal := partial + third;
    var offsetDirection := OffsetDirection(runningTotal, total);
    ghost var start := middleIndex;
    ghost var entering := true;
    while true
      invariant 0 <= middleIndex < |s|
      invariant entering ==> middleIndex == start
      invariant offsetDirection == -1 && !entering ==> middleIndex <= start && forall k :: middleIndex < k < |s| ==> partial + s[k] > total
      invariant offsetDirection == 1 ==> start <= middleIndex && forall k :: 0 <= k < middleIndex ==> partial + s[k] < total
      invariant offsetDirection == -1 ==> partial + s[start] >= total
      invariant offsetDirection == 1 ==> partial + s[start] < total
      decreases if offsetDirection == 1 then |s| - middleIndex else middleIndex + 1
    {
      third := s[middleIndex];
      runningTotal := partial + third;
      if runningTotal == total {
        return third, true;
      }
      var checked := middleIndex;
      middleIndex := middleIndex + offsetDirection;
      if (offsetDirection == 1 && runningTotal > total) || (offsetDirection == -1 && runningTotal < total) ||
        middleIndex < 0 || middleIndex >= |s|
      {
        assert offsetDirection == 1 ==> forall k :: checked <= k < |s| ==> partial + s[k] >= runningTotal;
        assert offsetDirection == -1 ==> forall k :: 0 <= k <= checked ==> partial + s[k] <= runningTotal;
        break;
      }
      entering := false;
    }
    return 0, false;
  }

  /**
   * The search loops of `getTripletWhichTotalsTo` on sorted numbers. Complete:
   * any three positions adding up to the total are found.
   */
  method TripletSearch(s: seq<int>, total: int) returns (first: int, second: int, third: int, found: bool)
    requires Sorted(s)
    ensures found <==> HasTriplet(s, total)
    ensures found ==> first + second + third == total && first in s && second in s && third in s
    ensures !found ==> first == 0 && second == 0 && third == 0
  {
    for f := 0 to |s|
      invariant forall i, j, k :: 0 <= i < f && 0 <= j < |s| && 0 <= k < |s| ==> s[i] + s[j] + s[k] != total
    {
      var topIndex := |s| - 1;
      while topIndex >= 0
        invariant -1 <= topIndex < |s|
        invariant forall j, k :: topIndex < j < |s| && 0 <= k < |s| ==> s[f] + s[j] + s[k] != total
        decreases topIndex
      {
        var c, ok := MiddleSearch(s, s[f] + s[topIndex], total);
        if ok {
          return s[f], s[topIndex], c, true;
        }
        topIndex := topIndex - 1;
      }
    }
    return 0, 0, 0, false;
  }

  /** `getPairWhichTotalsTo`: sorts the caller's numbers in place, then searches them. */
  method GetPairWhichTotalsTo(numbers: array<int>, total: int) returns (first: int, second: int, found: bool)
    modifies numbers
    ensures Sorted(numbers[..]) && multiset(numbers[..]) == multiset(old(numbers[..]))
    ensures found <==> HasPair(numbers[..], total)
    ensures found ==> first + second == total && first in old(numbers[..]) && second in old(numbers[..])
    ensures !found ==> first == 0 && second == 0
  {
    SortInts(numbers);
    var s := numbers[..];
    first, second, found := PairSearch(s, total);
    if found {
      assert first in multiset(s) && second in multiset(s);
    }
  }

  /** `getTripletWhichTotalsTo`: sorts the caller's numbers in place, then searches them. */
  method GetTripletWhichTotalsTo(numbers: array<int>, total: int) returns (first: int, second: int, third: int, found: bool)
    modifies numbers
    ensures Sorted(numbers[..]) && multiset(numbers[..]) == multiset(old(numbers[..]))
    ensures found <==> HasTriplet(numbers[..], total)
    ensures found ==> (first + second + third == total && first in old(numbers[..]) &&
      second in old(numbers[..]) && third in old(numbers[..]))
    ensures !found ==> first == 0 && second == 0 && third == 0
  {
    SortInts(numbers);
    var s := numbers[..];
    first, second, third, found := TripletSearch(s, total);
    if found {
      assert first in multiset(s) && second in multiset(s) && third in multiset(s);
    }
  }
}
