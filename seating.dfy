/**
 * The seat-occupancy cellular automaton of Day11/main.go.
 *
 * The seating map is a sparse map from coordinate to object; each object holds
 * a current state and a buffered next state. A step first computes every next
 * state from the current states only, then commits them all (`syncState`).
 * The rules are stated on the snapshot of current states (`Grid`), so a step is
 * a function of the old grid alone; the class methods visit the coordinates in
 * an arbitrary order (Go's map iteration order is randomised) and are proved
 * to produce exactly that function.
 */
module Seating {
  import opened Optional
  import Sets

  const TakenSeat: char := '#'
  const FreeSeat: char := 'L'

  datatype Coordinate = Coordinate(x: int, y: int)

  datatype Object = Object(currentState: char, nextState: char)

  /** The current state of every present coordinate; absent coordinates are off the map. */
  type Grid = map<Coordinate, char>

  predicate IsSeatState(s: char) {
    s == TakenSeat || s == FreeSeat
  }

  /** `object.isSeat`: anything that is neither '#' nor 'L' is floor. */
  predicate IsSeat(o: Object) {
    IsSeatState(o.currentState)
  }

  /** `object.isTakenSeat`. */
  predicate IsTakenSeat(o: Object) {
    o.currentState == TakenSeat
  }

  /** A taken seat is a seat; a seat that is not taken is free; the rest is floor. */
  lemma SeatKinds(o: Object)
    ensures IsTakenSeat(o) ==> IsSeat(o)
    ensures IsSeat(o) && !IsTakenSeat(o) <==> o.currentState == FreeSeat
    ensures !IsSeat(o) <==> o.currentState != TakenSeat && o.currentState != FreeSeat
  {
  }

  /** The two neighbour rules, each with the number of occupied neighbours that frees a seat. */
  datatype Rule = Adjacency | LineOfSight

  function Threshold(rule: Rule): nat {
    match rule
    case Adjacency => 4
    case LineOfSight => 5
  }

  /** The eight offsets listed by `countAdjacentSeatsTaken`. */
  const AdjacentOffsets: seq<(int, int)> := [(-1, -1), (0, -1), (1, -1), (-1, 0), (1, 0), (-1, 1), (0, 1), (1, 1)]

  /** The eight vectors listed by `countVisibleSeatsTaken`. */
  const SightVectors: seq<(int, int)> := [(0, 1), (1, 1), (1, 0), (1, -1), (0, -1), (-1, -1), (-1, 0), (-1, 1)]

  function Directions(rule: Rule): seq<(int, int)> {
    match rule
    case Adjacency => AdjacentOffsets
    case LineOfSight => SightVectors
  }

  function Shift(c: Coordinate, d: (int, int)): Coordinate {
    Coordinate(c.x + d.0, c.y + d.1)
  }

  /** The coordinate k steps from p along v. */
  function Along(p: Coordinate, v: (int, int), k: nat): Coordinate {
    Coordinate(p.x + k * v.0, p.y + k * v.1)
  }

  predicate TakenAt(g: Grid, p: Coordinate) {
    p in g && g[p] == TakenSeat
  }

  // ----- line of sight -----

  function Dot(p: Coordinate, v: (int, int)): int {
    p.x * v.0 + p.y * v.1
  }

  /** The present coordinates not behind p along v: a finite set that shrinks with every step. */
  ghost function Ahead(g: Grid, p: Coordinate, v: (int, int)): set<Coordinate> {
    set k | k in g && Dot(k, v) >= Dot(p, v)
  }

  lemma StepAlongRaisesDot(p: Coordinate, v: (int, int))
    requires v != (0, 0)
    ensures Dot(Shift(p, v), v) > Dot(p, v)
  {
    assert Dot(Shift(p, v), v) == Dot(p, v) + v.0 * v.0 + v.1 * v.1;
    assert v.0 * v.0 + v.1 * v.1 > 0 by {
      if v.0 != 0 {
        assert v.0 * v.0 > 0;
      } else {
        assert v.1 * v.1 > 0;
      }
    }
  }

  lemma AheadShrinks(g: Grid, p: Coordinate, v: (int, int))
    requires v != (0, 0) && p in g
    ensures Ahead(g, Shift(p, v), v) < Ahead(g, p, v)
  {
    StepAlongRaisesDot(p, v);
    assert p in Ahead(g, p, v) && p !in Ahead(g, Shift(p, v), v);
  }

  /**
   * Walking from p along v (p itself included): the state of the first seat met,
   * or None at the first absent coordinate; present floor is looked through.
   */
  function FirstSeatFrom(g: Grid, p: Coordinate, v: (int, int)): Option<char>
    requires v != (0, 0)
    decreases Ahead(g, p, v)
  {
    if p !in g then None
    else if IsSeatState(g[p]) then Some(g[p])
    else
      AheadShrinks(g, p, v);
      FirstSeatFrom(g, Shift(p, v), v)
  }

  /** `getVisibleObject`: the walk starts one step along the vector. */
  function VisibleSeat(g: Grid, c: Coordinate, v: (int, int)): Option<char>
    requires v != (0, 0)
  {
    FirstSeatFrom(g, Shift(c, v), v)
  }

  /** Whether the neighbour of c in direction d counts as taken under the rule. */
  predicate SeesTaken(rule: Rule, g: Grid, c: Coordinate, d: (int, int)) {
    match rule
    case Adjacency => TakenAt(g, Shift(c, d))
    case LineOfSight => d != (0, 0) && VisibleSeat(g, c, d) == Some(TakenSeat)
  }

  function CountTakenAlong(rule: Rule, g: Grid, c: Coordinate, dirs: seq<(int, int)>): (n: nat)
    ensures n <= |dirs|
  {
    if dirs == [] then 0
    else CountTakenAlong(rule, g, c, dirs[..|dirs| - 1]) + (if SeesTaken(rule, g, c, dirs[|dirs| - 1]) then 1 else 0)
  }

  /** `countAdjacentSeatsTaken` (Adjacency) and `countVisibleSeatsTaken` (LineOfSight). */
  function NeighbourCount(rule: Rule, g: Grid, c: Coordinate): (n: nat)
    ensures n <= 8
  {
    CountTakenAlong(rule, g, c, Directions(rule))
  }

  // ----- one step -----

  /** The next state of one present cell, computed from the snapshot g alone. */
  function NextState(g: Grid, c: Coordinate, rule: Rule): (s: char)
    requires c in g
    ensures !IsSeatState(g[c]) ==> s == g[c]
    ensures IsSeatState(s) <==> IsSeatState(g[c])
    ensures IsSeatState(g[c]) ==>
              (s == TakenSeat <==> NeighbourCount(rule, g, c) == 0 ||
                                   (g[c] == TakenSeat && NeighbourCount(rule, g, c) < Threshold(rule)))
  {
    var n := NeighbourCount(rule, g, c);
    if !IsSeatState(g[c]) then g[c]
    else if n == 0 then TakenSeat
    else if n >= Threshold(rule) then FreeSeat
    else g[c]
  }

  /** One whole step: every cell moves to its next state, all computed from the same snapshot. */
  function Step(g: Grid, rule: Rule): (g': Grid)
    ensures g'.Keys == g.Keys
    ensures forall c :: c in g && !IsSeatState(g[c]) ==> g'[c] == g[c]
    ensures forall c :: c in g ==> (IsSeatState(g'[c]) <==> IsSeatState(g[c]))
  {
    map c | c in g :: NextState(g, c, rule)
  }

  /** k whole steps from g. */
  function Steps(g: Grid, rule: Rule, k: nat): Grid {
    if k == 0 then g else Step(Steps(g, rule, k - 1), rule)
  }

  /** Once a step changes nothing, no number of further steps changes anything. */
  lemma {:induction false} StepsFromFixedPoint(g: Grid, rule: Rule, k: nat)
    requires Step(g, rule) == g
    ensures Steps(g, rule, k) == g
  {
    if k > 0 {
      StepsFromFixedPoint(g, rule, k - 1);
    }
  }

  /** Steps compose: k steps after j steps are j + k steps. */
  lemma {:induction false} StepsAdd(g: Grid, rule: Rule, j: nat, k: nat)
    ensures Steps(Steps(g, rule, j), rule, k) == Steps(g, rule, j + k)
  {
    if k > 0 {
      StepsAdd(g, rule, j, k - 1);
      assert Steps(g, rule, j + k) == Step(Steps(g, rule, j + k - 1), rule);
    }
  }

  ghost function TakenCells(g: Grid): set<Coordinate> {
    set c | c in g && g[c] == TakenSeat
  }

  // ----- lemmas -----

  lemma {:induction false} AlongNext(p: Coordinate, v: (int, int), k: nat)
    ensures Along(Shift(p, v), v, k) == Along(p, v, k + 1)
  {
    assert (k + 1) * v.0 == k * v.0 + v.0;
    assert (k + 1) * v.1 == k * v.1 + v.1;
  }

  /** The walk stops at step k: every earlier coordinate is present floor, and k is off the map or a seat. */
  ghost predicate StopsAt(g: Grid, p: Coordinate, v: (int, int), k: nat) {
    && (Along(p, v, k) !in g || IsSeatState(g[Along(p, v, k)]))
    && forall j: nat :: j < k ==> Along(p, v, j) in g && !IsSeatState(g[Along(p, v, j)])
  }

  /**
   * What FirstSeatFrom finds: for some k, the walk passes k present non-seat
   * cells and then reports the seat at step k, or nothing if step k is absent.
   */
  lemma {:induction false} FirstSeatFromWalk(g: Grid, p: Coordinate, v: (int, int))
    requires v != (0, 0)
    ensures exists k: nat :: StopsAt(g, p, v, k) &&
              FirstSeatFrom(g, p, v) == (if Along(p, v, k) in g then Some(g[Along(p, v, k)]) else None)
    decreases Ahead(g, p, v)
  {
    assert Along(p, v, 0) == p;
    if p !in g || IsSeatState(g[p]) {
      assert StopsAt(g, p, v, 0);
    } else {
      AheadShrinks(g, p, v);
      var q := Shift(p, v);
      FirstSeatFromWalk(g, q, v);
      var k: nat :| StopsAt(g, q, v, k) &&
                    FirstSeatFrom(g, q, v) == (if Along(q, v, k) in g then Some(g[Along(q, v, k)]) else None);
      AlongNext(p, v, k);
      forall j: nat | j < k + 1
        ensures Along(p, v, j) in g && !IsSeatState(g[Along(p, v, j)])
      {
        if j > 0 {
          AlongNext(p, v, j - 1);
        }
      }
      assert StopsAt(g, p, v, k + 1);
    }
  }

  /** A seat seen along a line of sight is a seat (never floor), so the rule only counts seats. */
  lemma VisibleIsSeat(g: Grid, c: Coordinate, v: (int, int))
    requires v != (0, 0) && VisibleSeat(g, c, v).Some?
    ensures IsSeatState(VisibleSeat(g, c, v).value)
    ensures VisibleSeat(g, c, v).value in g.Values
  {
    FirstSeatFromWalk(g, Shift(c, v), v);
  }

  /** For the adjacency rule an absent coordinate and a floor cell at that coordinate count the same. */
  lemma {:induction false} AdjacencyAbsentLikeFloor(g: Grid, c: Coordinate, dirs: seq<(int, int)>, p: Coordinate, floor: char)
    requires p !in g && !IsSeatState(floor)
    ensures CountTakenAlong(Adjacency, g[p := floor], c, dirs) == CountTakenAlong(Adjacency, g, c, dirs)
  {
    if dirs != [] {
      AdjacencyAbsentLikeFloor(g, c, dirs[..|dirs| - 1], p, floor);
    }
  }

  /**
   * For the line-of-sight rule they differ: a walk stops at an absent
   * coordinate but looks through a floor cell placed there.
   */
  lemma SightAbsentIsNotFloor()
    ensures VisibleSeat(map[Coordinate(0, 0) := FreeSeat, Coordinate(2, 0) := TakenSeat], Coordinate(0, 0), (1, 0)) == None
    ensures VisibleSeat(map[Coordinate(0, 0) := FreeSeat, Coordinate(1, 0) := '.', Coordinate(2, 0) := TakenSeat],
                        Coordinate(0, 0), (1, 0)) == Some(TakenSeat)
  {
    var g := map[Coordinate(0, 0) := FreeSeat, Coordinate(1, 0) := '.', Coordinate(2, 0) := TakenSeat];
    assert Shift(Coordinate(1, 0), (1, 0)) == Coordinate(2, 0);
    assert FirstSeatFrom(g, Coordinate(2, 0), (1, 0)) == Some(TakenSeat);
  }

  /** The occupied count never exceeds the number of cells. */
  lemma TakenCellsBound(g: Grid)
    ensures |TakenCells(g)| <= |g|
  {
    Sets.SubsetCardinality(TakenCells(g), g.Keys);
  }

  /** The snapshot of a map of objects: their current states. */
  function Current(objects: map<Coordinate, Object>): (g: Grid)
    ensures g.Keys == objects.Keys
  {
    map c | c in objects :: objects[c].currentState
  }

  /** Writing a next state leaves the snapshot alone: the step cannot read its own writes. */
  lemma CurrentIgnoresNextState(objects: map<Coordinate, Object>, p: Coordinate, s: char)
    requires p in objects
    ensures Current(objects[p := objects[p].(nextState := s)]) == Current(objects)
  {
    var m := objects[p := objects[p].(nextState := s)];
    assert forall c :: c in m ==> Current(m)[c] == Current(objects)[c];
  }

  // ----- the stateful seating map -----

  class SeatingMap {
    var objects: map<Coordinate, Object>

    /** The current states: what every rule reads. */
    function Snapshot(): Grid
      reads this
    {
      Current(objects)
    }

    /** `loadSeatingMap` on in-memory lines: character x of line y is stored at (x, y). */
    constructor Load(lines: seq<string>)
      ensures forall c :: c in objects <==> 0 <= c.y < |lines| && 0 <= c.x < |lines[c.y]|
      ensures forall c :: c in objects ==> objects[c] == Object(lines[c.y][c.x], 0 as char)
    {
      var loaded: map<Coordinate, Object> := map[];
      var y := 0;
      while y < |lines|
        invariant 0 <= y <= |lines|
        invariant forall c :: c in loaded <==> 0 <= c.y < y && 0 <= c.x < |lines[c.y]|
        invariant forall c :: c in loaded ==> loaded[c] == Object(lines[c.y][c.x], 0 as char)
      {
        var x := 0;
        while x < |lines[y]|
          invariant 0 <= x <= |lines[y]|
          invariant forall c :: c in loaded <==> (0 <= c.y < y && 0 <= c.x < |lines[c.y]|) || (c.y == y && 0 <= c.x < x)
          invariant forall c :: c in loaded ==> loaded[c] == Object(lines[c.y][c.x], 0 as char)
        {
          loaded := loaded[Coordinate(x, y) := Object(lines[y][x], 0 as char)];
          x := x + 1;
        }
        y := y + 1;
      }
      objects := loaded;
    }

    /** `countAdjacentSeatsTaken`: absent coordinates contribute nothing. */
    method CountAdjacentSeatsTaken(c: Coordinate) returns (n: nat)
      ensures n == NeighbourCount(Adjacency, Snapshot(), c)
      ensures n <= 8
    {
      var toCheck := AdjacentOffsets;
      n := 0;
      for i := 0 to |toCheck|
        invariant n == CountTakenAlong(Adjacency, Snapshot(), c, toCheck[..i])
      {
        var position := Shift(c, toCheck[i]);
        if position in objects && IsTakenSeat(objects[position]) {
          n := n + 1;
        }
        assert toCheck[..i + 1][..i] == toCheck[..i];
      }
      assert toCheck[..|toCheck|] == toCheck;
    }

    /** `getVisibleObject`: the first seat in sight along v, or None once the walk leaves the map. */
    method GetVisibleObject(c: Coordinate, v: (int, int)) returns (r: Option<Object>)
      requires v != (0, 0)
      ensures r.None? <==> VisibleSeat(Snapshot(), c, v).None?
      ensures r.Some? ==> r.value in objects.Values && IsSeat(r.value) &&
                          VisibleSeat(Snapshot(), c, v) == Some(r.value.currentState)
    {
      var currentPosition := Shift(c, v);
      while true
        invariant FirstSeatFrom(Snapshot(), currentPosition, v) == VisibleSeat(Snapshot(), c, v)
        decreases Ahead(Snapshot(), currentPosition, v)
      {
        if currentPosition in objects {
          var obj := objects[currentPosition];
          if IsSeat(obj) {
            return Some(obj);
          }
        } else {
          return None;
        }
        AheadShrinks(Snapshot(), currentPosition, v);
        currentPosition := Shift(currentPosition, v);
      }
    }

    /** `countVisibleSeatsTaken`. */
    method CountVisibleSeatsTaken(c: Coordinate) returns (n: nat)
      ensures n == NeighbourCount(LineOfSight, Snapshot(), c)
      ensures n <= 8
    {
      var vectors := SightVectors;
      n := 0;
      for i := 0 to |vectors|
        invariant n == CountTakenAlong(LineOfSight, Snapshot(), c, vectors[..i])
      {
        var obj := GetVisibleObject(c, vectors[i]);
        if obj.Some? && IsTakenSeat(obj.value) {
          n := n + 1;
        }
        assert vectors[..i + 1][..i] == vectors[..i];
      }
      assert vectors[..|vectors|] == vectors;
    }

    /** `syncState`: every cell's next state becomes its current state. */
    method SyncState()
      modifies this
      ensures objects.Keys == old(objects.Keys)
      ensures forall c :: c in objects ==> objects[c] == Object(old(objects[c]).nextState, old(objects[c]).nextState)
    {
      var todo := objects.Keys;
      while todo != {}
        invariant todo <= objects.Keys == old(objects.Keys)
        invariant forall c :: c in todo ==> objects[c] == old(objects[c])
        invariant forall c :: c in objects && c !in todo ==>
                    objects[c] == Object(old(objects[c]).nextState, old(objects[c]).nextState)
        decreases todo
      {
        var position :| position in todo;
        var obj := objects[position];
        objects := objects[position := obj.(currentState := obj.nextState)];
        todo := todo - {position};
      }
    }

    /** The switch of `runSimulation` / `runSimulationWithVectors` for one object. */
    method ComputeNextState(position: Coordinate, rule: Rule) returns (next: char)
      requires position in objects
      ensures next == NextState(Snapshot(), position, rule)
    {
      var obj := objects[position];
      next := obj.currentState;
      if IsSeat(obj) {
        var n;
        if rule == Adjacency {
          n := CountAdjacentSeatsTaken(position);
        } else {
          n := CountVisibleSeatsTaken(position);
        }
        if n == 0 {
          next := TakenSeat;
        } else if n >= Threshold(rule) {
          next := FreeSeat;
        }
      }
    }

    /**
     * One step under either rule: every next state is computed from the
     * current states, in whatever order the coordinates are visited, and then
     * all are committed.
     */
    method Simulate(rule: Rule) returns (changed: bool)
      modifies this
      ensures objects.Keys == old(objects.Keys)
      ensures Snapshot() == Step(old(Snapshot()), rule)
      ensures changed <==> Snapshot() != old(Snapshot())
      ensures !changed ==> Step(Snapshot(), rule) == Snapshot()
    {
      ghost var g0 := Snapshot();
      var todo := objects.Keys;
      changed := false;
      while todo != {}
        invariant todo <= objects.Keys == old(objects.Keys)
        invariant Snapshot() == g0
        invariant forall p :: p in objects && p !in todo ==> objects[p].nextState == NextState(g0, p, rule)
        invariant changed <==> exists p :: p in objects && p !in todo && NextState(g0, p, rule) != g0[p]
        decreases todo
      {
        var position :| position in todo;
        var obj := objects[position];
        var next := ComputeNextState(position, rule);
        CurrentIgnoresNextState(objects, position, next);
        objects := objects[position := obj.(nextState := next)];
        if obj.currentState != next {
          changed := true;
        }
        todo := todo - {position};
      }
      SyncState();
      assert Snapshot() == Step(g0, rule) by {
        assert forall c :: c in objects ==> Snapshot()[c] == NextState(g0, c, rule);
      }
    }

    /** `runSimulation`: one step under the adjacency rule (thresholds 0 and 4). */
    method RunSimulation() returns (changed: bool)
      modifies this
      ensures objects.Keys == old(objects.Keys)
      ensures Snapshot() == Step(old(Snapshot()), Adjacency)
      ensures changed <==> Snapshot() != old(Snapshot())
    {
      changed := Simulate(Adjacency);
    }

    /** `runSimulationWithVectors`: one step under the line-of-sight rule (thresholds 0 and 5). */
    method RunSimulationWithVectors() returns (changed: bool)
      modifies this
      ensures objects.Keys == old(objects.Keys)
      ensures Snapshot() == Step(old(Snapshot()), LineOfSight)
      ensures changed <==> Snapshot() != old(Snapshot())
    {
      changed := Simulate(LineOfSight);
    }

    /** `countTakenSeats`: the number of cells whose current state is '#'. */
    method CountTakenSeats() returns (n: nat)
      ensures n == |TakenCells(Snapshot())|
      ensures n <= |objects|
    {
      var todo := objects.Keys;
      ghost var counted: set<Coordinate> := {};
      n := 0;
      while todo != {}
        invariant todo <= objects.Keys
        invariant counted == set c | c in objects && c !in todo && objects[c].currentState == TakenSeat
        invariant n == |counted|
        decreases todo
      {
        var position :| position in todo;
        if IsTakenSeat(objects[position]) {
          counted := counted + {position};
          n := n + 1;
        }
        todo := todo - {position};
      }
      assert counted == TakenCells(Snapshot());
      TakenCellsBound(Snapshot());
    }

    /**
     * The driver loop of `main`, bounded by fuel: steps until a step reports no
     * change. The map is the loaded map after `steps` whole steps; when the loop
     * reports stability, it is a fixed point of the rule, otherwise the fuel ran out.
     */
    method RunUntilStable(rule: Rule, fuel: nat) returns (stable: bool, ghost steps: nat)
      modifies this
      ensures objects.Keys == old(objects.Keys)
      ensures steps <= fuel && Snapshot() == Steps(old(Snapshot()), rule, steps)
      ensures stable ==> Step(Snapshot(), rule) == Snapshot()
      ensures !stable ==> steps == fuel
    {
      ghost var g0 := Snapshot();
      stable := false;
      steps := 0;
      var remaining := fuel;
      while remaining > 0 && !stable
        invariant objects.Keys == old(objects.Keys)
        invariant steps == fuel - remaining
        invariant Snapshot() == Steps(g0, rule, steps)
        invariant stable ==> Step(Snapshot(), rule) == Snapshot()
      {
        var changed := Simulate(rule);
        stable := !changed;
        remaining := remaining - 1;
        steps := steps + 1;
      }
    }
  }
}
