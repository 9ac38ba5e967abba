/**
 * The boarding passes of Day5/main.go: a row code of F/B letters and a column
 * code of L/R letters, read as binary numbers (F and L are 0 bits), and the
 * seat id row * 8 + column.
 */
module Boarding {
  import opened Optional

  datatype BoardingPass = BoardingPass(rowCode: string, columnCode: string)

  /** The bits the letters of `value` stand for, most significant first; other characters are skipped. */
  function BitString(value: string, zeroBit: char, oneBit: char): (bits: string)
    ensures |bits| <= |value|
    ensures forall k :: 0 <= k < |bits| ==> bits[k] in "01"
  {
    if value == [] then ""
    else
      var front := BitString(value[..|value| - 1], zeroBit, oneBit);
      var letter := value[|value| - 1];
      if letter == zeroBit then front + "0"
      else if letter == oneBit then front + "1"
      else front
  }

  function Pow2(n: nat): (p: nat)
    ensures p >= 1
  {
    if n == 0 then 1 else 2 * Pow2(n - 1)
  }

  /** The number written by a string of binary digits, most significant first. */
  function BinaryValue(bits: string): nat {
    if bits == [] then 0
    else 2 * BinaryValue(bits[..|bits| - 1]) + (if bits[|bits| - 1] == '1' then 1 else 0)
  }

  lemma {:induction false} BinaryValueBound(bits: string)
    ensures BinaryValue(bits) < Pow2(|bits|)
  {
    if bits != [] {
      BinaryValueBound(bits[..|bits| - 1]);
    }
  }

  /** Binary numerals of one length are equal when their values are. */
  lemma {:induction false} BinaryValueInjective(a: string, b: string)
    requires |a| == |b|
    requires forall k :: 0 <= k < |a| ==> a[k] in "01"
    requires forall k :: 0 <= k < |b| ==> b[k] in "01"
    requires BinaryValue(a) == BinaryValue(b)
    ensures a == b
  {
    if a != [] {
      var n := |a| - 1;
      assert a[n] == b[n];
      BinaryValueInjective(a[..n], b[..n]);
      assert a == a[..n] + [a[n]] && b == b[..n] + [b[n]];
    }
  }

  /** `strconv.ParseInt(bits, 2, 64)`: an empty string, or a value beyond 64-bit signed range, is an error. */
  function ParseBinary(bits: string): Option<int> {
    if bits == [] || BinaryValue(bits) >= Pow2(63) then None else Some(BinaryValue(bits))
  }

  /** `turnBitStringToNumber`: collects the bit letters, then parses them; on error the number is 0. */
  method TurnBitStringToNumber(value: string, zeroBit: char, oneBit: char) returns (n: int, ok: bool)
    ensures ok <==> |BitString(value, zeroBit, oneBit)| > 0 && BinaryValue(BitString(value, zeroBit, oneBit)) < Pow2(63)
    ensures ok ==> n == BinaryValue(BitString(value, zeroBit, oneBit))
    ensures !ok ==> n == 0
  {
    var binaryString := "";
    for k := 0 to |value|
      invariant binaryString == BitString(value[..k], zeroBit, oneBit)
    {
      assert value[..k + 1][..k] == value[..k];
      if value[k] == zeroBit {
        binaryString := binaryString + "0";
      } else if value[k] == oneBit {
        binaryString := binaryString + "1";
      }
    }
    assert value[..|value|] == value;
    match ParseBinary(binaryString)
    case Some(v) => return v, true;
    case None => return 0, false;
  }

  /** What `getRowPosition` and `getColumnPosition` return: the number, or 0 on a parse error. */
  function Position(code: string, zeroBit: char, oneBit: char): nat {
    match ParseBinary(BitString(code, zeroBit, oneBit))
    case Some(v) => v
    case None => 0
  }

  /** A code of at most n letters gives a position below 2^n. */
  lemma PositionBound(code: string, zeroBit: char, oneBit: char, n: nat)
    requires |code| <= n <= 63
    ensures Position(code, zeroBit, oneBit) < Pow2(n)
  {
    var bits := BitString(code, zeroBit, oneBit);
    BinaryValueBound(bits);
    Pow2Monotone(|bits|, n);
  }

  lemma {:induction false} Pow2Monotone(a: nat, b: nat)
    requires a <= b
    ensures Pow2(a) <= Pow2(b)
  {
    if a < b {
      Pow2Monotone(a, b - 1);
    }
  }

  method GetRowPosition(pass: BoardingPass) returns (row: int)
    ensures row == Position(pass.rowCode, 'F', 'B')
  {
    var n, ok := TurnBitStringToNumber(pass.rowCode, 'F', 'B');
    row := if ok then n else 0;
  }

  method GetColumnPosition(pass: BoardingPass) returns (column: int)
    ensures column == Position(pass.columnCode, 'L', 'R')
  {
    var n, ok := TurnBitStringToNumber(pass.columnCode, 'L', 'R');
    column := if ok then n else 0;
  }

  function SeatId(pass: BoardingPass): int {
    Position(pass.rowCode, 'F', 'B') * 8 + Position(pass.columnCode, 'L', 'R')
  }

  /** `getSeatId`. */
  method GetSeatId(pass: BoardingPass) returns (id: int)
    ensures id == SeatId(pass)
  {
    var row := GetRowPosition(pass);
    var column := GetColumnPosition(pass);
    id := row * 8 + column;
  }

  /** The letters of "XXYX", with X as one and Y as zero, are the bits 1101. */
  lemma XxyxBits()
    ensures BitString("XXYX", 'Y', 'X') == "1101"
  {
    assert BitString("X", 'Y', 'X') == "1" by {
      assert "X"[..0] == "";
    }
    assert BitString("XX", 'Y', 'X') == "11" by {
      assert "XX"[..1] == "X";
    }
    assert BitString("XXY", 'Y', 'X') == "110" by {
      assert "XXY"[..2] == "XX";
    }
    assert "XXYX"[..3] == "XXY";
  }

  /** Binary 1101 is 13. */
  lemma ValueOf1101()
    ensures BinaryValue("1101") == 13
  {
    assert BinaryValue("1") == 1 by {
      assert "1"[..0] == "";
    }
    assert BinaryValue("11") == 3 by {
      assert "11"[..1] == "1";
    }
    assert BinaryValue("110") == 6 by {
      assert "110"[..2] == "11";
    }
    assert "1101"[..3] == "110";
  }

  lemma XxyxExample()
    ensures BinaryValue(BitString("XXYX", 'Y', 'X')) == 13
    ensures Position("XXYX", 'Y', 'X') == 13
  {
    XxyxBits();
    ValueOf1101();
    Pow2Monotone(4, 63);
  }

  /** The regular expression `^([F,B]{7})([L,R]{3})$`: the comma is inside both character classes. */
  predicate Format(line: string) {
    |line| == 10 &&
    (forall k :: 0 <= k < 7 ==> line[k] in "F,B") &&
    (forall k :: 7 <= k < 10 ==> line[k] in "L,R")
  }

  /**
   * Ten characters, seven from F, B or ',' then three from L, R or ',': the
   * puzzle's pass matches, a short line or a swapped half does not, and a line
   * of commas does.
   */
  lemma FormatExamples()
    ensures Format("FBFBBFFRLR")
    ensures !Format("FBFBBFFRL")
    ensures !Format("RLRFBFBBFF")
    ensures Format(",,,,,,,,,,")
  {
    assert "RLRFBFBBFF"[0] !in "F,B";
  }

  /** The pass a line of the accepted format describes. */
  function PassOf(line: string): BoardingPass
    requires |line| == 10
  {
    BoardingPass(line[..7], line[7..])
  }

  /** Every pass of the accepted format has a seat id in 0..1023. */
  lemma SeatIdRange(line: string)
    requires Format(line)
    ensures 0 <= SeatId(PassOf(line)) <= 1023
  {
    PositionBound(line[..7], 'F', 'B', 7);
    PositionBound(line[7..], 'L', 'R', 3);
  }

  /** A code made only of the two bit letters. */
  predicate Exact(code: string, zeroBit: char, oneBit: char) {
    forall k :: 0 <= k < |code| ==> code[k] == zeroBit || code[k] == oneBit
  }

  lemma {:induction false} ExactBits(code: string, zeroBit: char, oneBit: char)
    requires zeroBit != oneBit && Exact(code, zeroBit, oneBit)
    ensures |BitString(code, zeroBit, oneBit)| == |code|
    ensures forall k :: 0 <= k < |code| ==> (BitString(code, zeroBit, oneBit)[k] == '1' <==> code[k] == oneBit)
  {
    if code != [] {
      ExactBits(code[..|code| - 1], zeroBit, oneBit);
    }
  }

  /** Exact codes of one length with the same bits are the same code. */
  lemma ExactCodeInjective(a: string, b: string, zeroBit: char, oneBit: char)
    requires zeroBit != oneBit && Exact(a, zeroBit, oneBit) && Exact(b, zeroBit, oneBit) && |a| == |b|
    requires BitString(a, zeroBit, oneBit) == BitString(b, zeroBit, oneBit)
    ensures a == b
  {
    ExactBits(a, zeroBit, oneBit);
    ExactBits(b, zeroBit, oneBit);
    assert forall k :: 0 <= k < |a| ==> a[k] == b[k];
  }

  /** An exact code of n letters parses to the value of its bits, below 2^n. */
  lemma ExactPosition(code: string, zeroBit: char, oneBit: char)
    requires zeroBit != oneBit && Exact(code, zeroBit, oneBit) && 0 < |code| <= 7
    ensures Position(code, zeroBit, oneBit) == BinaryValue(BitString(code, zeroBit, oneBit))
  {
    ExactBits(code, zeroBit, oneBit);
    BinaryValueBound(BitString(code, zeroBit, oneBit));
    Pow2Monotone(|code|, 63);
  }

  lemma SplitSeatId(r1: int, c1: int, r2: int, c2: int)
    requires 0 <= c1 < 8 && 0 <= c2 < 8 && r1 * 8 + c1 == r2 * 8 + c2
    ensures r1 == r2 && c1 == c2
  {
  }

  /** For codes of exactly seven F/B and three L/R letters, distinct passes get distinct seat ids. */
  lemma SeatIdInjective(p: BoardingPass, q: BoardingPass)
    requires |p.rowCode| == |q.rowCode| == 7 && |p.columnCode| == |q.columnCode| == 3
    requires Exact(p.rowCode, 'F', 'B') && Exact(q.rowCode, 'F', 'B')
    requires Exact(p.columnCode, 'L', 'R') && Exact(q.columnCode, 'L', 'R')
    requires SeatId(p) == SeatId(q)
    ensures p == q
  {
    PositionBound(p.columnCode, 'L', 'R', 3);
    PositionBound(q.columnCode, 'L', 'R', 3);
    assert Pow2(3) == 8;
    SplitSeatId(Position(p.rowCode, 'F', 'B'), Position(p.columnCode, 'L', 'R'),
      Position(q.rowCode, 'F', 'B'), Position(q.columnCode, 'L', 'R'));
    ExactPosition(p.rowCode, 'F', 'B');
    ExactPosition(q.rowCode, 'F', 'B');
    ExactPosition(p.columnCode, 'L', 'R');
    ExactPosition(q.columnCode, 'L', 'R');
    ExactBits(p.rowCode, 'F', 'B');
    ExactBits(q.rowCode, 'F', 'B');
    ExactBits(p.columnCode, 'L', 'R');
    ExactBits(q.columnCode, 'L', 'R');
    BinaryValueInjective(BitString(p.rowCode, 'F', 'B'), BitString(q.rowCode, 'F', 'B'));
    BinaryValueInjective(BitString(p.columnCode, 'L', 'R'), BitString(q.columnCode, 'L', 'R'));
    ExactCodeInjective(p.rowCode, q.rowCode, 'F', 'B');
    ExactCodeInjective(p.columnCode, q.columnCode, 'L', 'R');
  }

  /** The passes of the lines of the accepted format, one per such line, in order; other lines are skipped. */
  function Accepted(lines: seq<string>): seq<BoardingPass> {
    if lines == [] then []
    else
      var last := lines[|lines| - 1];
      Accepted(lines[..|lines| - 1]) + (if Format(last) then [PassOf(last)] else [])
  }

  /** The pass is that of one of the lines, which is of the format. */
  ghost predicate FromLine(lines: seq<string>, p: BoardingPass) {
    exists i :: 0 <= i < |lines| && Format(lines[i]) && p == PassOf(lines[i])
  }

  /**
   * At most one pass per line; every pass comes from a line of the format, and
   * every such line's pass is among them.
   */
  lemma {:induction false} AcceptedLines(lines: seq<string>)
    ensures |Accepted(lines)| <= |lines|
    ensures forall k :: 0 <= k < |Accepted(lines)| ==> FromLine(lines, Accepted(lines)[k])
    ensures forall j :: 0 <= j < |lines| && Format(lines[j]) ==> PassOf(lines[j]) in Accepted(lines)
  {
    if lines != [] {
      var n := |lines| - 1;
      var init := lines[..n];
      AcceptedLines(init);
      var front, passes := Accepted(init), Accepted(lines);
      assert passes[..|front|] == front;
      forall k | 0 <= k < |passes|
        ensures FromLine(lines, passes[k])
      {
        if k < |front| {
          assert FromLine(init, front[k]);
          var i :| 0 <= i < |init| && Format(init[i]) && front[k] == PassOf(init[i]);
          assert lines[i] == init[i];
        } else {
          assert Format(lines[n]) && passes[k] == PassOf(lines[n]);
        }
      }
      forall j | 0 <= j < |lines| && Format(lines[j])
        ensures PassOf(lines[j]) in passes
      {
        if j < n {
          assert init[j] == lines[j];
          assert PassOf(lines[j]) in front;
        } else {
          assert passes[|passes| - 1] == PassOf(lines[n]);
        }
      }
    }
  }

  /** `loadBoardingPasses` over the lines of the input file: one pass per line of the format, in order. */
  method LoadBoardingPasses(lines: seq<string>) returns (passes: seq<BoardingPass>)
    ensures passes == Accepted(lines)
    ensures |passes| <= |lines|
    ensures forall k :: 0 <= k < |passes| ==> FromLine(lines, passes[k])
    ensures forall j :: 0 <= j < |lines| && Format(lines[j]) ==> PassOf(lines[j]) in passes
  {
    passes := [];
    for j := 0 to |lines|
      invariant passes == Accepted(lines[..j])
    {
      assert lines[..j + 1][..j] == lines[..j];
      if Format(lines[j]) {
        passes := passes + [PassOf(lines[j])];
      }
    }
    assert lines[..|lines|] == lines;
    AcceptedLines(lines);
  }

  /** Two equal lines of the format give the pass twice. */
  lemma RepeatedLineExample()
    ensures Accepted(["FBFBBFFRLR", "FBFBBFFRLR"]) == [PassOf("FBFBBFFRLR"), PassOf("FBFBBFFRLR")]
  {
    var line := "FBFBBFFRLR";
    assert Format(line);
    assert [line, line][..1] == [line];
  }

  /** One more pass adds its id to the ids of the passes before it. */
  lemma TakenStep(passes: seq<BoardingPass>, k: nat)
    requires k < |passes|
    ensures (set i | 0 <= i < k + 1 :: SeatId(passes[i])) == (set i | 0 <= i < k :: SeatId(passes[i])) + {SeatId(passes[k])}
  {
  }

  /** The shared loop of `main`: the set of taken ids and the highest of them, 0 when there are none. */
  method HighestSeatId(passes: seq<BoardingPass>) returns (highest: int, taken: set<int>)
    ensures taken == set k | 0 <= k < |passes| :: SeatId(passes[k])
    ensures highest >= 0 && forall id :: id in taken ==> id <= highest
    ensures highest == 0 || highest in taken
  {
    highest := 0;
    taken := {};
    for k := 0 to |passes|
      invariant taken == set i | 0 <= i < k :: SeatId(passes[i])
      invariant highest >= 0 && forall id :: id in taken ==> id <= highest
      invariant highest == 0 || highest in taken
    {
      var seatId := GetSeatId(passes[k]);
      TakenStep(passes, k);
      taken := taken + {seatId};
      if seatId > highest {
        highest := seatId;
      }
    }
  }

  /** A free id whose two neighbours are taken. */
  predicate Candidate(taken: set<int>, id: int) {
    id !in taken && id - 1 in taken && id + 1 in taken
  }

  /** The seat search of `main`: the largest candidate below `highest`, or 0 when there is none. */
  method FindMySeat(taken: set<int>, highest: int) returns (mySeatId: int)
    ensures mySeatId == 0 ==> forall id :: 0 < id < highest ==> !Candidate(taken, id)
    ensures mySeatId != 0 ==> (0 < mySeatId < highest && Candidate(taken, mySeatId) &&
      forall id :: mySeatId < id < highest ==> !Candidate(taken, id))
  {
    mySeatId := 0;
    var seatId := 0;
    while seatId < highest
      invariant 0 <= seatId && (seatId <= highest || seatId == 0)
      invariant mySeatId == 0 ==> forall id :: 0 < id < seatId ==> !Candidate(taken, id)
      invariant mySeatId != 0 ==> (0 < mySeatId < seatId && Candidate(taken, mySeatId) &&
        forall id :: mySeatId < id < seatId ==> !Candidate(taken, id))
      decreases highest - seatId
    {
      if seatId !in taken {
        var prevSeatTaken := seatId - 1 in taken;
        var nextSeatTaken := seatId + 1 in taken;
        if prevSeatTaken && nextSeatTaken {
          mySeatId := seatId;
        }
      }
      seatId := seatId + 1;
    }
  }
}
