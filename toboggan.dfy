/**
 * The toboggan slope of Day3/main.go: a map of tree positions that repeats to
 * the right, and a straight ride down it counting the trees hit.
 */
module Toboggan {

  datatype Coordinate = Coordinate(x: int, y: int)

  /** `slopeMap`: Go's map to `true` is the set of tree positions. */
  datatype SlopeMap = SlopeMap(width: int, height: int, trees: set<Coordinate>)

  /** The ride ends: the first step down already leaves the map, or every step goes down. */
  predicate Terminates(sm: SlopeMap, yMov: int) {
    yMov > 0 || sm.height <= yMov
  }

  /** The k-th position examined: x moves right by xMov, taken back once by the width when it reaches it. */
  function PositionAt(sm: SlopeMap, xMov: int, yMov: int, k: nat): Coordinate {
    if k == 0 then Coordinate(0, 0)
    else
      var p := PositionAt(sm, xMov, yMov, k - 1);
      Coordinate(if p.x + xMov >= sm.width then p.x + xMov - sm.width else p.x + xMov, p.y + yMov)
  }

  lemma {:induction false} RowOfPosition(sm: SlopeMap, xMov: int, yMov: int, k: nat)
    ensures PositionAt(sm, xMov, yMov, k).y == k * yMov
  {
    if k > 0 {
      RowOfPosition(sm, xMov, yMov, k - 1);
    }
  }

  /** With 0 <= xMov <= width the single subtraction keeps every column inside the map. */
  lemma {:induction false} ColumnInside(sm: SlopeMap, xMov: int, yMov: int, k: nat)
    requires 0 <= xMov <= sm.width && sm.width > 0
    ensures 0 <= PositionAt(sm, xMov, yMov, k).x < sm.width
  {
    if k > 0 {
      ColumnInside(sm, xMov, yMov, k - 1);
    }
  }

  /** A move wider than the map is not reduced modulo the width. */
  lemma WideMoveLeavesMap()
    ensures PositionAt(SlopeMap(2, 5, {}), 5, 1, 1).x == 3
  {
  }

  /** How many positions the ride examines. */
  function Examined(height: int, yMov: int): (n: nat)
    requires yMov > 0 || height <= yMov
    ensures n >= 1
    decreases if height > 0 then height else 0
  {
    if height <= yMov then 1 else 1 + Examined(height - yMov, yMov)
  }

  /**
   * For a downward ride over a non-empty map, ceil(height / yMov) positions are
   * examined: the least n with n * yMov reaching the height.
   */
  lemma {:induction false} ExaminedIsCeiling(height: int, yMov: int)
    requires yMov > 0 && height >= 1
    ensures (Examined(height, yMov) - 1) * yMov < height <= Examined(height, yMov) * yMov
    decreases height
  {
    if height > yMov {
      var n := Examined(height - yMov, yMov);
      ExaminedIsCeiling(height - yMov, yMov);
      assert (n + 1) * yMov == n * yMov + yMov;
      assert (n - 1) * yMov == n * yMov - yMov;
    }
  }

  /** How many of the first n positions hold a tree. */
  function TreesSeen(sm: SlopeMap, xMov: int, yMov: int, n: nat): (c: nat)
    ensures c <= n
  {
    if n == 0 then 0
    else TreesSeen(sm, xMov, yMov, n - 1) + (if PositionAt(sm, xMov, yMov, n - 1) in sm.trees then 1 else 0)
  }

  /**
   * `countEncounteredTreesForMovement`: the trees among the positions examined
   * before the row reaches the height. (0, 0) is examined even on an empty map;
   * a ride that never goes down does not end, so such a movement is excluded.
   */
  method CountEncounteredTrees(sm: SlopeMap, xMov: int, yMov: int) returns (encounteredTrees: nat)
    requires Terminates(sm, yMov)
    ensures encounteredTrees == TreesSeen(sm, xMov, yMov, Examined(sm.height, yMov))
    ensures encounteredTrees <= Examined(sm.height, yMov)
  {
    var xPos, yPos := 0, 0;
    encounteredTrees := 0;
    ghost var k: nat := 0;
    while true
      invariant Coordinate(xPos, yPos) == PositionAt(sm, xMov, yMov, k)
      invariant encounteredTrees == TreesSeen(sm, xMov, yMov, k)
      invariant k == 0 || yPos < sm.height
      invariant yMov > 0 || k == 0
      invariant (yMov > 0 || sm.height - yPos <= yMov) && k + Examined(sm.height - yPos, yMov) == Examined(sm.height, yMov)
      decreases sm.height - yPos
    {
      if Coordinate(xPos, yPos) in sm.trees {
        encounteredTrees := encounteredTrees + 1;
      }
      if xPos + xMov >= sm.width {
        xPos := xPos + xMov - sm.width;
      } else {
        xPos := xPos + xMov;
      }
      yPos := yPos + yMov;
      k := k + 1;
      if yPos >= sm.height {
        break;
      }
    }
  }

  /**
   * The tree set of `loadMap`, built from the lines of the input file: every
   * '#' at column x of line y is a tree, any other character is empty ground.
   * The height is the number of lines and the width the length of the last one.
   */
  method LoadMap(lines: seq<string>) returns (sm: SlopeMap)
    ensures forall c :: c in sm.trees <==> 0 <= c.y < |lines| && 0 <= c.x < |lines[c.y]| && lines[c.y][c.x] == '#'
    ensures sm.height == |lines|
    ensures sm.width == if lines == [] then 0 else |lines[|lines| - 1]|
  {
    var trees: set<Coordinate> := {};
    var mapWidth := 0;
    for yCoord := 0 to |lines|
      invariant forall c :: c in trees <==> 0 <= c.y < yCoord && 0 <= c.x < |lines[c.y]| && lines[c.y][c.x] == '#'
      invariant mapWidth == if yCoord == 0 then 0 else |lines[yCoord - 1]|
    {
      var line := lines[yCoord];
      mapWidth := |line|;
      for xCoord := 0 to |line|
        invariant forall c :: c in trees <==> ((0 <= c.y < yCoord && 0 <= c.x < |lines[c.y]| && lines[c.y][c.x] == '#') ||
          (c.y == yCoord && 0 <= c.x < xCoord && line[c.x] == '#'))
      {
        if line[xCoord] == '#' {
          trees := trees + {Coordinate(xCoord, yCoord)};
        }
      }
    }
    sm := SlopeMap(mapWidth, |lines|, trees);
  }
}
