/**
 * The parts of Go's `strconv` and `strings` packages that the solvers rely on:
 * `strconv.Atoi` on base-10 text, its inverse (decimal formatting) and
 * `strings.Split` on a one-character separator, stated generically so that the
 * same splitting also groups input lines at blank lines.
 */
module Strconv {
  import opened Optional

  predicate IsDigit(c: char) {
    '0' <= c <= '9'
  }

  predicate AllDigits(s: string) {
    forall i :: 0 <= i < |s| ==> IsDigit(s[i])
  }

  /** The value of a string of decimal digits, most significant first. */
  function DigitsValue(s: string): nat
    requires AllDigits(s)
  {
    if s == [] then 0 else DigitsValue(s[..|s| - 1]) * 10 + (s[|s| - 1] as int - '0' as int)
  }

  /**
   * `strconv.Atoi`: an optional '+' or '-' followed by at least one decimal digit.
   * Go also rejects values outside the 64-bit range; integers here are unbounded.
   */
  function Atoi(s: string): Option<int> {
    if |s| > 0 && (s[0] == '+' || s[0] == '-') then
      if |s| > 1 && AllDigits(s[1..]) then
        var v: int := DigitsValue(s[1..]);
        Some(if s[0] == '-' then -v else v)
      else None
    else if |s| > 0 && AllDigits(s) then Some(DigitsValue(s))
    else None
  }

  function DigitChar(d: nat): char
    requires d < 10
  {
    ('0' as int + d) as char
  }

  /** Decimal digits of a natural number, without leading zeros. */
  function NatDigits(n: nat): (s: string)
    ensures |s| > 0 && AllDigits(s)
  {
    if n < 10 then [DigitChar(n)] else NatDigits(n / 10) + [DigitChar(n % 10)]
  }

  /** `strconv.Itoa`: decimal formatting, with a '-' for negative values. */
  function Itoa(n: int): string {
    if n < 0 then "-" + NatDigits(-n) else NatDigits(n)
  }

  lemma {:induction false} DigitsValueOfNatDigits(n: nat)
    ensures DigitsValue(NatDigits(n)) == n
  {
    var s := NatDigits(n);
    if n >= 10 {
      DigitsValueOfNatDigits(n / 10);
      assert s[..|s| - 1] == NatDigits(n / 10);
    }
  }

  /** Atoi undoes Itoa: every integer survives a round trip through its decimal text. */
  lemma AtoiOfItoa(n: int)
    ensures Atoi(Itoa(n)) == Some(n)
  {
    if n < 0 {
      DigitsValueOfNatDigits(-n);
      assert Itoa(n)[1..] == NatDigits(-n);
    } else {
      DigitsValueOfNatDigits(n);
    }
  }

  /** Atoi accepts only a sign and digits, and never the empty string. */
  lemma AtoiSyntax(s: string)
    requires Atoi(s).Some?
    ensures |s| > 0
    ensures forall i :: 0 < i < |s| ==> IsDigit(s[i])
    ensures IsDigit(s[0]) || s[0] == '+' || s[0] == '-'
  {
  }

  function Count<T(==)>(xs: seq<T>, x: T): nat {
    if xs == [] then 0 else Count(xs[..|xs| - 1], x) + (if xs[|xs| - 1] == x then 1 else 0)
  }

  /**
   * `strings.Split(s, sep)` for a one-element separator: the maximal pieces
   * between separators, so n separators give n + 1 pieces, some possibly empty.
   * Applied to a sequence of lines with the empty line as separator, it is the
   * grouping of records at blank lines.
   */
  function Split<T(==)>(xs: seq<T>, sep: T): (pieces: seq<seq<T>>)
    ensures |pieces| == Count(xs, sep) + 1
    ensures forall i :: 0 <= i < |pieces| ==> sep !in pieces[i]
  {
    if xs == [] then [[]]
    else
      var init := Split(xs[..|xs| - 1], sep);
      if xs[|xs| - 1] == sep then init + [[]]
      else init[..|init| - 1] + [init[|init| - 1] + [xs[|xs| - 1]]]
  }

  /**
   * One more element of xs: a separator opens a new empty piece, anything else
   * extends the last piece, and the earlier pieces stay.
   */
  lemma SplitPrefixStep<T>(xs: seq<T>, sep: T, k: nat)
    requires k < |xs|
    ensures xs[k] == sep ==> Split(xs[..k + 1], sep) == Split(xs[..k], sep) + [[]]
    ensures xs[k] != sep ==> (
      var before, after := Split(xs[..k], sep), Split(xs[..k + 1], sep);
      |after| == |before| && after[..|before| - 1] == before[..|before| - 1] &&
      after[|before| - 1] == before[|before| - 1] + [xs[k]])
  {
    assert xs[..k + 1][..k] == xs[..k];
  }

  /** `strings.Join`: the pieces with one separator between neighbours. */
  function Join<T>(pieces: seq<seq<T>>, sep: T): seq<T>
    requires |pieces| > 0
  {
    if |pieces| == 1 then pieces[0] else Join(pieces[..|pieces| - 1], sep) + [sep] + pieces[|pieces| - 1]
  }

  lemma {:induction false} JoinAppendLast<T>(pieces: seq<seq<T>>, sep: T, x: T)
    requires |pieces| > 0
    ensures Join(pieces[..|pieces| - 1] + [pieces[|pieces| - 1] + [x]], sep) == Join(pieces, sep) + [x]
  {
    var ps := pieces[..|pieces| - 1] + [pieces[|pieces| - 1] + [x]];
    if |pieces| > 1 {
      assert ps[..|ps| - 1] == pieces[..|pieces| - 1];
    }
  }

  /** Splitting loses nothing: joining the pieces again gives back the input. */
  lemma {:induction false} JoinSplit<T>(xs: seq<T>, sep: T)
    ensures Join(Split(xs, sep), sep) == xs
  {
    if xs != [] {
      var init := Split(xs[..|xs| - 1], sep);
      JoinSplit(xs[..|xs| - 1], sep);
      if xs[|xs| - 1] == sep {
        var ps := init + [[]];
        assert ps[..|ps| - 1] == init;
      } else {
        JoinAppendLast(init, sep, xs[|xs| - 1]);
      }
      assert xs[..|xs| - 1] + [xs[|xs| - 1]] == xs;
    }
  }

  /** A sequence without the separator is a single piece. */
  lemma {:induction false} SplitNoSep<T>(xs: seq<T>, sep: T)
    requires sep !in xs
    ensures Split(xs, sep) == [xs]
  {
    if xs != [] {
      SplitNoSep(xs[..|xs| - 1], sep);
      assert xs[..|xs| - 1] + [xs[|xs| - 1]] == xs;
    }
  }

  /** A separator followed by a separator-free tail adds exactly that tail as the last piece. */
  lemma {:induction false} SplitAfterSep<T>(xs: seq<T>, sep: T, tail: seq<T>)
    requires sep !in tail
    ensures Split(xs + [sep] + tail, sep) == Split(xs, sep) + [tail]
    decreases |tail|
  {
    var ys := xs + [sep] + tail;
    if tail == [] {
      assert ys[..|ys| - 1] == xs;
    } else {
      var front := tail[..|tail| - 1];
      SplitAfterSep(xs, sep, front);
      assert ys[..|ys| - 1] == xs + [sep] + front;
      assert front + [tail[|tail| - 1]] == tail;
    }
  }

  /** Joining separator-free pieces loses nothing: splitting gives them back. */
  lemma {:induction false} SplitJoin<T>(pieces: seq<seq<T>>, sep: T)
    requires |pieces| > 0
    requires forall i :: 0 <= i < |pieces| ==> sep !in pieces[i]
    ensures Split(Join(pieces, sep), sep) == pieces
  {
    var n := |pieces|;
    if n == 1 {
      SplitNoSep(pieces[0], sep);
    } else {
      SplitJoin(pieces[..n - 1], sep);
      SplitAfterSep(Join(pieces[..n - 1], sep), sep, pieces[n - 1]);
      assert pieces[..n - 1] + [pieces[n - 1]] == pieces;
    }
  }
}
