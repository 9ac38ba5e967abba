/**
 * The ferry of Day12/main.go: a heading over North=0, East=1, South=2, West=3,
 * a position on the north-south and east-west axes, the instruction set
 * N/S/E/W/L/R/F, and the waypoint navigation of the second part.
 */
module Navigation {
  import opened Optional
  import Strconv

  const North: int := 0
  const East: int := 1
  const South: int := 2
  const West: int := 3

  datatype Position = Position(ns: int, ew: int)

  datatype Instruction = Instruction(action: char, value: int)

  /** What the ferry's fields hold between instructions. */
  datatype Pose = Pose(position: Position, direction: int)

  /**
   * Go's integer `/` for a positive divisor: the quotient is truncated toward
   * zero, so the remainder a - q·b has the sign of a and is smaller than b.
   */
  function TruncDiv(a: int, b: int): (q: int)
    requires b > 0
    ensures var r := a - q * b; (a >= 0 ==> 0 <= r < b) && (a < 0 ==> -b < r <= 0)
  {
    if a >= 0 then a / b else -((-a) / b)
  }

  /**
   * `ferry.rotate` on the direction: degrees/90 quarter turns, truncated, then
   * wrapped into 0..3 by one `% 4` above and one `4 +` below.
   */
  function Turned(direction: int, degrees: int): (d: int)
    ensures (d - (direction + TruncDiv(degrees, 90))) % 4 == 0
    ensures direction + TruncDiv(degrees, 90) >= -4 ==> 0 <= d <= 3
    ensures direction + TruncDiv(degrees, 90) < -4 ==> d < 0
  {
    var rotationVector := direction + TruncDiv(degrees, 90);
    if rotationVector > 3 then rotationVector % 4
    else if rotationVector < 0 then 4 + rotationVector
    else rotationVector
  }

  /** `moveForward`: along the heading; a heading outside 0..3 matches no case and does not move. */
  function Forward(p: Position, direction: int, distance: int): (q: Position)
    ensures direction == North ==> q == Position(p.ns + distance, p.ew)
    ensures direction == South ==> q == Position(p.ns - distance, p.ew)
    ensures direction == East ==> q == Position(p.ns, p.ew + distance)
    ensures direction == West ==> q == Position(p.ns, p.ew - distance)
    ensures !(0 <= direction <= 3) ==> q == p
  {
    if direction == North then p.(ns := p.ns + distance)
    else if direction == South then p.(ns := p.ns - distance)
    else if direction == East then p.(ew := p.ew + distance)
    else if direction == West then p.(ew := p.ew - distance)
    else p
  }

  /** The displacement N, S, E or W by `value` stands for; none for any other action. */
  function Offset(action: char, value: int): (o: Position)
    ensures action !in "NSEW" ==> o == Position(0, 0)
    ensures Abs(o.ns) + Abs(o.ew) == if action in "NSEW" then Abs(value) else 0
  {
    match action
    case 'N' => Position(value, 0)
    case 'S' => Position(-value, 0)
    case 'E' => Position(0, value)
    case 'W' => Position(0, -value)
    case _ => Position(0, 0)
  }

  function Translate(p: Position, o: Position): Position {
    Position(p.ns + o.ns, p.ew + o.ew)
  }

  /** The action letter of each heading, in the order of the direction constants. */
  const Headings: string := "NESW"

  /**
   * Moving forward is translating by the action letter of the heading; with a
   * heading outside 0..3 the ferry stays where it is.
   */
  lemma ForwardIsTranslation(p: Position, direction: int, distance: int)
    ensures 0 <= direction <= 3 ==> Forward(p, direction, distance) == Translate(p, Offset(Headings[direction], distance))
    ensures !(0 <= direction <= 3) ==> Forward(p, direction, distance) == p
  {
  }

  /** `executeInstruction`: R turns by +value, L by -value, F moves forward, N/S/E/W translate. */
  function Executed(s: Pose, i: Instruction): (t: Pose)
    ensures i.action in "NSEW" ==> t == Pose(Translate(s.position, Offset(i.action, i.value)), s.direction)
    ensures i.action == 'L' ==> t == Pose(s.position, Turned(s.direction, -i.value))
    ensures i.action == 'R' ==> t == Pose(s.position, Turned(s.direction, i.value))
    ensures i.action == 'F' ==> t == Pose(Forward(s.position, s.direction, i.value), s.direction)
    ensures i.action !in "NSEWLRF" ==> t == s
  {
    match i.action
    case 'N' => s.(position := s.position.(ns := s.position.ns + i.value))
    case 'S' => s.(position := s.position.(ns := s.position.ns - i.value))
    case 'E' => s.(position := s.position.(ew := s.position.ew + i.value))
    case 'W' => s.(position := s.position.(ew := s.position.ew - i.value))
    case 'L' => s.(direction := Turned(s.direction, -i.value))
    case 'R' => s.(direction := Turned(s.direction, i.value))
    case 'F' => s.(position := Forward(s.position, s.direction, i.value))
    case _ => s
  }

  /** The instructions applied in order. */
  function Sailed(s: Pose, program: seq<Instruction>): Pose {
    if program == [] then s else Executed(Sailed(s, program[..|program| - 1]), program[|program| - 1])
  }

  /** Sailing a program in two halves is sailing it in one go. */
  lemma {:induction false} SailedAppend(s: Pose, a: seq<Instruction>, b: seq<Instruction>)
    ensures Sailed(s, a + b) == Sailed(Sailed(s, a), b)
  {
    if b != [] {
      SailedAppend(s, a, b[..|b| - 1]);
      assert (a + b)[..|a + b| - 1] == a + b[..|b| - 1];
    } else {
      assert a + b == a;
    }
  }

  /** A program of translations only never changes the heading. */
  lemma {:induction false} TranslationsKeepHeading(s: Pose, program: seq<Instruction>)
    requires forall k :: 0 <= k < |program| ==> program[k].action in "NSEW"
    ensures Sailed(s, program).direction == s.direction
  {
    if program != [] {
      TranslationsKeepHeading(s, program[..|program| - 1]);
    }
  }

  lemma TurnExamples()
    ensures Executed(Pose(Position(0, 0), East), Instruction('R', 90)).direction == South
    ensures Executed(Pose(Position(0, 0), North), Instruction('L', 90)).direction == West
    ensures Turned(North, -450) == -1
  {
  }

  /** `moveToWaypoint`: the ferry moves multiplier times the waypoint offset. */
  function TowardWaypoint(p: Position, w: Position, multiplier: int): (q: Position)
    ensures q.ns - p.ns == w.ns * multiplier && q.ew - p.ew == w.ew * multiplier
  {
    Position(p.ns + w.ns * multiplier, p.ew + w.ew * multiplier)
  }

  /** Two moves toward the same waypoint add up: F x then F y is F (x + y), and F 0 stays. */
  lemma TowardWaypointCompose(p: Position, w: Position, x: int, y: int)
    ensures TowardWaypoint(TowardWaypoint(p, w, x), w, y) == TowardWaypoint(p, w, x + y)
    ensures TowardWaypoint(p, w, 0) == p
  {
    assert w.ns * x + w.ns * y == w.ns * (x + y);
    assert w.ew * x + w.ew * y == w.ew * (x + y);
  }

  lemma WaypointExample()
    ensures TowardWaypoint(Position(0, 0), Position(3, -5), 4) == Position(12, -20)
  {
  }

  /** The ferry and its waypoint during the second part. */
  datatype Course = Course(ferry: Position, waypoint: Position)

  /**
   * One instruction of the waypoint loop in `main`. N/S/E/W move the waypoint,
   * F moves the ferry toward it; L and R rotate the waypoint about the ferry
   * with floating-point trigonometry, which the model takes as the parameter
   * `rotate`, called with +value for L and -value for R.
   */
  function WaypointStep(c: Course, i: Instruction, rotate: (Position, int) -> Position): (d: Course)
    ensures i.action in "NSEW" ==> d == Course(c.ferry, Translate(c.waypoint, Offset(i.action, i.value)))
    ensures i.action == 'L' ==> d == Course(c.ferry, rotate(c.waypoint, i.value))
    ensures i.action == 'R' ==> d == Course(c.ferry, rotate(c.waypoint, -i.value))
    ensures i.action == 'F' ==> d == Course(TowardWaypoint(c.ferry, c.waypoint, i.value), c.waypoint)
    ensures i.action !in "NSEWLRF" ==> d == c
  {
    match i.action
    case 'N' => c.(waypoint := c.waypoint.(ns := c.waypoint.ns + i.value))
    case 'S' => c.(waypoint := c.waypoint.(ns := c.waypoint.ns - i.value))
    case 'E' => c.(waypoint := c.waypoint.(ew := c.waypoint.ew + i.value))
    case 'W' => c.(waypoint := c.waypoint.(ew := c.waypoint.ew - i.value))
    case 'L' => c.(waypoint := rotate(c.waypoint, i.value))
    case 'R' => c.(waypoint := rotate(c.waypoint, -i.value))
    case 'F' => c.(ferry := TowardWaypoint(c.ferry, c.waypoint, i.value))
    case _ => c
  }

  function WaypointSailed(c: Course, program: seq<Instruction>, rotate: (Position, int) -> Position): Course {
    if program == [] then c
    else WaypointStep(WaypointSailed(c, program[..|program| - 1], rotate), program[|program| - 1], rotate)
  }

  function Abs(n: int): nat {
    if n < 0 then -n else n
  }

  /** The Manhattan distance from the start, in integers. */
  function ManhattanDistance(p: Position): (d: nat)
    ensures d == 0 <==> p == Position(0, 0)
    ensures d >= Abs(p.ns) && d >= Abs(p.ew)
  {
    Abs(p.ns) + Abs(p.ew)
  }

  /**
   * `parseInstruction` on a non-empty line (Go indexes `data[0]` and panics on
   * ""): the first character must be an action letter and the rest an integer.
   */
  function ParseInstruction(data: string): (r: Option<Instruction>)
    requires |data| > 0
    ensures r.Some? <==> data[0] in "NSEWLRF" && Strconv.Atoi(data[1..]).Some?
    ensures r.Some? ==> r.value.action == data[0] && r.value.value == Strconv.Atoi(data[1..]).value
  {
    if data[0] in "NSEWLRF" then
      match Strconv.Atoi(data[1..])
      case Some(v) => Some(Instruction(data[0], v))
      case None => None
    else None
  }

  /** Parsing reads back any instruction written as its letter followed by its decimal value. */
  lemma ParseFormatted(i: Instruction)
    requires i.action in "NSEWLRF"
    ensures ParseInstruction(Format(i)) == Some(i)
  {
    Strconv.AtoiOfItoa(i.value);
    assert ([i.action] + Strconv.Itoa(i.value))[1..] == Strconv.Itoa(i.value);
  }

  /** The lines that parse, in order; the others are skipped. */
  function Loaded(lines: seq<string>): (r: seq<Instruction>)
    requires forall k :: 0 <= k < |lines| ==> |lines[k]| > 0
    ensures |r| <= |lines|
    ensures forall k :: 0 <= k < |r| ==> r[k].action in "NSEWLRF"
  {
    if lines == [] then []
    else
      var front := Loaded(lines[..|lines| - 1]);
      match ParseInstruction(lines[|lines| - 1])
      case Some(i) => front + [i]
      case None => front
  }

  function Format(i: Instruction): string {
    [i.action] + Strconv.Itoa(i.value)
  }

  /** A program written one instruction per line. */
  function Formatted(program: seq<Instruction>): (lines: seq<string>)
    ensures |lines| == |program|
    ensures forall k :: 0 <= k < |lines| ==> |lines[k]| > 0
  {
    if program == [] then [] else Formatted(program[..|program| - 1]) + [Format(program[|program| - 1])]
  }

  /** A program written one instruction per line loads back as itself. */
  lemma {:induction false} LoadFormatted(program: seq<Instruction>)
    requires forall k :: 0 <= k < |program| ==> program[k].action in "NSEWLRF"
    ensures Loaded(Formatted(program)) == program
  {
    if program != [] {
      var n := |program| - 1;
      var lines, front := Formatted(program), Formatted(program[..n]);
      LoadFormatted(program[..n]);
      assert lines == front + [Format(program[n])];
      assert lines[..n] == front;
      ParseFormatted(program[n]);
      assert Loaded(lines) == Loaded(front) + [program[n]];
      DropLast(program);
    }
  }

  lemma DropLast(program: seq<Instruction>)
    requires program != []
    ensures program[..|program| - 1] + [program[|program| - 1]] == program
  {
  }

  /** `loadInstructions` over the lines of the input file; a line must not be empty, as Go indexes its first byte. */
  method LoadInstructions(lines: seq<string>) returns (instructions: seq<Instruction>)
    requires forall k :: 0 <= k < |lines| ==> |lines[k]| > 0
    ensures instructions == Loaded(lines)
  {
    instructions := [];
    for k := 0 to |lines|
      invariant instructions == Loaded(lines[..k])
    {
      assert lines[..k + 1][..k] == lines[..k];
      var parsed := ParseInstruction(lines[k]);
      if parsed.Some? {
        instructions := instructions + [parsed.value];
      }
    }
    assert lines[..|lines|] == lines;
  }

  class Ferry {
    var program: seq<Instruction>
    var position: Position
    var direction: int

    function State(): Pose
      reads this
    {
      Pose(position, direction)
    }

    /** The ferry of `main`: at the origin, facing East. */
    constructor (program: seq<Instruction>)
      ensures this.program == program && State() == Pose(Position(0, 0), East)
    {
      this.program := program;
      position := Position(0, 0);
      direction := East;
    }

    method MoveForward(distance: int)
      modifies this`position
      ensures position == Forward(old(position), direction, distance)
    {
      if direction == North {
        position := position.(ns := position.ns + distance);
      } else if direction == South {
        position := position.(ns := position.ns - distance);
      } else if direction == East {
        position := position.(ew := position.ew + distance);
      } else if direction == West {
        position := position.(ew := position.ew - distance);
      }
    }

    method Rotate(degrees: int)
      modifies this`direction
      ensures direction == Turned(old(direction), degrees)
    {
      var turns := TruncDiv(degrees, 90);
      var rotationVector := direction + turns;
      if rotationVector > 3 {
        direction := rotationVector % 4;
      } else if rotationVector < 0 {
        direction := 4 + rotationVector;
      } else {
        direction := rotationVector;
      }
    }

    method ExecuteInstruction(i: Instruction)
      modifies this`position, this`direction
      ensures State() == Executed(old(State()), i)
    {
      match i.action
      case 'N' => position := position.(ns := position.ns + i.value);
      case 'S' => position := position.(ns := position.ns - i.value);
      case 'E' => position := position.(ew := position.ew + i.value);
      case 'W' => position := position.(ew := position.ew - i.value);
      case 'L' => Rotate(-i.value);
      case 'R' => Rotate(i.value);
      case 'F' => MoveForward(i.value);
      case _ =>
    }

    /** `setSail`: the whole program, in order. */
    method SetSail()
      modifies this`position, this`direction
      ensures State() == Sailed(old(State()), program)
    {
      for k := 0 to |program|
        invariant State() == Sailed(old(State()), program[..k])
      {
        ExecuteInstruction(program[k]);
        assert program[..k + 1][..k] == program[..k];
      }
      assert program[..|program|] == program;
    }

    method MoveToWaypoint(w: Position, multiplier: int)
      modifies this`position
      ensures position == TowardWaypoint(old(position), w, multiplier)
    {
      position := position.(ns := position.ns + w.ns * multiplier);
      position := position.(ew := position.ew + w.ew * multiplier);
    }

    /**
     * The second part of `main`: the ferry restarts at the origin with the
     * waypoint at 1 north, 10 east, and follows the program.
     */
    method SailByWaypoint(rotate: (Position, int) -> Position) returns (waypoint: Position)
      modifies this`position
      ensures Course(position, waypoint) == WaypointSailed(Course(Position(0, 0), Position(1, 10)), program, rotate)
    {
      position := Position(0, 0);
      waypoint := Position(1, 10);
      for k := 0 to |program|
        invariant Course(position, waypoint) == WaypointSailed(Course(Position(0, 0), Position(1, 10)), program[..k], rotate)
      {
        var instruction := program[k];
        assert program[..k + 1][..k] == program[..k];
        match instruction.action
        case 'N' => waypoint := waypoint.(ns := waypoint.ns + instruction.value);
        case 'S' => waypoint := waypoint.(ns := waypoint.ns - instruction.value);
        case 'E' => waypoint := waypoint.(ew := waypoint.ew + instruction.value);
        case 'W' => waypoint := waypoint.(ew := waypoint.ew - instruction.value);
        case 'L' => waypoint := rotate(waypoint, instruction.value);
        case 'R' => waypoint := rotate(waypoint, -instruction.value);
        case 'F' => MoveToWaypoint(waypoint, instruction.value);
        case _ =>
      }
      assert program[..|program|] == program;
    }
  }
}
