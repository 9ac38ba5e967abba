/**
 * Day 2: password records `min-max letter: password` and the two ways of
 * checking the password against its policy.
 */
module Passwords {
  import opened Optional
  import Strconv

  datatype PasswordPolicy = PasswordPolicy(min: int, max: int, letter: string)

  datatype PasswordRecord = PasswordRecord(policy: PasswordPolicy, password: string)

  /** The number of characters of `password` that, as a one-character string, equal `letter`. */
  function Occurrences(password: string, letter: string): nat {
    if password == [] then 0
    else Occurrences(password[..|password| - 1], letter) + (if [password[|password| - 1]] == letter then 1 else 0)
  }

  /** The count is the multiplicity of the letter in the password, and 0 for a letter that is not one character. */
  lemma {:induction false} OccurrencesIsMultiplicity(password: string, letter: string)
    ensures |letter| == 1 ==> Occurrences(password, letter) == multiset(password)[letter[0]]
    ensures |letter| != 1 ==> Occurrences(password, letter) == 0
    ensures Occurrences(password, letter) <= |password|
  {
    if password != [] {
      var init := password[..|password| - 1];
      OccurrencesIsMultiplicity(init, letter);
      assert password == init + [password[|password| - 1]];
      assert multiset(password) == multiset(init) + multiset{password[|password| - 1]};
    }
  }

  predicate ValidForFirstMethod(r: PasswordRecord) {
    r.policy.min <= Occurrences(r.password, r.policy.letter) <= r.policy.max
  }

  /** `isValidForFirstMethod`: counts the letter in one pass and compares the count with min and max. */
  method IsValidForFirstMethod(r: PasswordRecord) returns (b: bool)
    ensures b <==> ValidForFirstMethod(r)
    ensures |r.policy.letter| == 1 ==> (b <==> r.policy.min <= multiset(r.password)[r.policy.letter[0]] <= r.policy.max)
  {
    var counter := 0;
    for k := 0 to |r.password|
      invariant counter == Occurrences(r.password[..k], r.policy.letter)
    {
      assert r.password[..k + 1][..k] == r.password[..k];
      if [r.password[k]] == r.policy.letter {
        counter := counter + 1;
      }
    }
    assert r.password[..|r.password|] == r.password;
    OccurrencesIsMultiplicity(r.password, r.policy.letter);
    b := counter >= r.policy.min && counter <= r.policy.max;
  }

  /**
   * The Go code indexes the password at `min - 1` and `max - 1` once its
   * length is at least `max`; every such index must then be in range.
   */
  predicate PositionsInRange(r: PasswordRecord) {
    |r.password| >= r.policy.max ==> 1 <= r.policy.min <= |r.password| && 1 <= r.policy.max
  }

  /** Whether the 1-based position `pos` of the password holds the policy letter. */
  predicate HoldsLetter(r: PasswordRecord, pos: int)
    requires 1 <= pos <= |r.password|
  {
    [r.password[pos - 1]] == r.policy.letter
  }

  /** `isValidForSecondMethod`. */
  function IsValidForSecondMethod(r: PasswordRecord): bool
    requires PositionsInRange(r)
  {
    if |r.password| < r.policy.max then false
    else
      var firstPositionMatch := HoldsLetter(r, r.policy.min);
      var secondPositionMatch := HoldsLetter(r, r.policy.max);
      (firstPositionMatch && !secondPositionMatch) || (!firstPositionMatch && secondPositionMatch)
  }

  /** Which of the two checks, of position min (0) and of position max (1), find the letter. */
  function MatchingChecks(r: PasswordRecord): set<int>
    requires 1 <= r.policy.min <= |r.password| && 1 <= r.policy.max <= |r.password|
  {
    set i | 0 <= i < 2 && HoldsLetter(r, CheckedPosition(r, i))
  }

  function CheckedPosition(r: PasswordRecord, i: int): int {
    if i == 0 then r.policy.min else r.policy.max
  }

  /**
   * A password is valid by the second method iff it is long enough and exactly
   * one of the two position checks finds the letter; when min and max are one
   * position, both checks agree and the password is never valid.
   */
  lemma SecondMethodExactlyOne(r: PasswordRecord)
    requires PositionsInRange(r)
    ensures |r.password| < r.policy.max ==> !IsValidForSecondMethod(r)
    ensures |r.password| >= r.policy.max ==> (IsValidForSecondMethod(r) <==> |MatchingChecks(r)| == 1)
    ensures r.policy.min == r.policy.max ==> !IsValidForSecondMethod(r)
  {
    if |r.password| >= r.policy.max {
      var lo, hi := r.policy.min, r.policy.max;
      var m := MatchingChecks(r);
      if HoldsLetter(r, lo) && HoldsLetter(r, hi) {
        assert m == {0, 1};
      } else if HoldsLetter(r, lo) {
        assert m == {0};
      } else if HoldsLetter(r, hi) {
        assert m == {1};
      } else {
        assert m == {};
      }
    }
  }

  /** The two positions play the same part: swapping min and max does not change the verdict of a long enough password. */
  lemma SecondMethodSymmetric(r: PasswordRecord)
    requires 1 <= r.policy.min <= |r.password| && 1 <= r.policy.max <= |r.password|
    ensures IsValidForSecondMethod(r) == IsValidForSecondMethod(r.(policy := r.policy.(min := r.policy.max, max := r.policy.min)))
  {
  }

  /**
   * `parsePasswordRecord` on the four regular-expression groups: min and max
   * must be integers, the letter and the password are taken as they are.
   */
  function ParsePasswordRecord(parts: seq<string>): (r: Option<PasswordRecord>)
    requires |parts| >= 4
    ensures r.None? <==> Strconv.Atoi(parts[0]).None? || Strconv.Atoi(parts[1]).None?
    ensures r.Some? ==> r.value.policy.min == Strconv.Atoi(parts[0]).value && r.value.policy.max == Strconv.Atoi(parts[1]).value
    ensures r.Some? ==> r.value.policy.letter == parts[2] && r.value.password == parts[3]
  {
    match Strconv.Atoi(parts[0])
    case None => None
    case Some(min) =>
      match Strconv.Atoi(parts[1])
      case None => None
      case Some(max) => Some(PasswordRecord(PasswordPolicy(min, max, parts[2]), parts[3]))
  }

  /** The groups a record is written as. */
  function Parts(r: PasswordRecord): seq<string> {
    [Strconv.Itoa(r.policy.min), Strconv.Itoa(r.policy.max), r.policy.letter, r.password]
  }

  /** Parsing the groups of a written record gives the record back. */
  lemma ParseParts(r: PasswordRecord)
    ensures ParsePasswordRecord(Parts(r)) == Some(r)
  {
    Strconv.AtoiOfItoa(r.policy.min);
    Strconv.AtoiOfItoa(r.policy.max);
  }

  /** The `\d*` groups may be empty: such a record is rejected. */
  lemma EmptyBoundRejected(letter: string, password: string)
    ensures ParsePasswordRecord(["", "3", letter, password]).None?
    ensures ParsePasswordRecord(["1", "", letter, password]).None?
  {
  }

  /** The puzzle's first example: `1-3 a: abcde` is valid by both methods. */
  lemma FirstPolicyExample()
    ensures ValidForFirstMethod(PasswordRecord(PasswordPolicy(1, 3, "a"), "abcde"))
    ensures IsValidForSecondMethod(PasswordRecord(PasswordPolicy(1, 3, "a"), "abcde"))
  {
    OccurrencesIsMultiplicity("abcde", "a");
    assert multiset("abcde")['a'] == 1;
  }

  /** The puzzle's third example: `2-9 c: ccccccccc` is valid by the first method only. */
  lemma ThirdPolicyExample()
    ensures ValidForFirstMethod(PasswordRecord(PasswordPolicy(2, 9, "c"), "ccccccccc"))
    ensures !IsValidForSecondMethod(PasswordRecord(PasswordPolicy(2, 9, "c"), "ccccccccc"))
  {
    OccurrencesIsMultiplicity("ccccccccc", "c");
    assert multiset("ccccccccc")['c'] == 9;
  }
}
