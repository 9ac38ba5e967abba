/**
 * The acc/jmp/nop interpreter of Day8/mian.go: a program counter, an
 * accumulator and a per-instruction execution counter that detects the first
 * repeated instruction, and the search that repairs the program by flipping
 * one jmp/nop.
 */
module Handheld {
  import opened Optional
  import Strconv

  datatype Code = Accumulate | Jump | NoOperation

  datatype Instruction = Instruction(code: Code, argument: int, execCount: nat)

  /**
   * How `run` ends. Go's `run` can only return Success or InfiniteLoop; a jump
   * to a negative index makes `p.instructions[p.execIndex]` panic, which the
   * model reports as IndexOutOfRange.
   */
  datatype ExitCode = Success | InfiniteLoop | IndexOutOfRange

  /** The state `run` works on. */
  datatype Machine = Machine(accumulator: int, execIndex: int, instructions: seq<Instruction>)

  datatype Outcome = Outcome(exit: ExitCode, final: Machine)

  /** Number of instructions not yet executed: each uninterrupted loop iteration uses one up. */
  function UnexecutedCount(instructions: seq<Instruction>): (n: nat)
    ensures n <= |instructions|
  {
    if instructions == [] then 0
    else UnexecutedCount(instructions[..|instructions| - 1]) + (if instructions[|instructions| - 1].execCount == 0 then 1 else 0)
  }

  lemma {:induction false} UnexecutedCountMark(instructions: seq<Instruction>, i: nat)
    requires i < |instructions| && instructions[i].execCount == 0
    ensures UnexecutedCount(instructions[i := instructions[i].(execCount := 1)]) == UnexecutedCount(instructions) - 1
  {
    var last := |instructions| - 1;
    var marked := instructions[i := instructions[i].(execCount := 1)];
    if i < last {
      UnexecutedCountMark(instructions[..last], i);
      assert marked[..last] == instructions[..last][i := instructions[i].(execCount := 1)];
    } else {
      assert marked[..last] == instructions[..last];
    }
  }

  /** Same codes and arguments, whatever the counters say. */
  predicate SameProgram(a: seq<Instruction>, b: seq<Instruction>) {
    |a| == |b| && forall i :: 0 <= i < |a| ==> a[i].code == b[i].code && a[i].argument == b[i].argument
  }

  /** The effect of one instruction on the accumulator and the program counter. */
  function Execute(m: Machine, inst: Instruction): (m': Machine)
    ensures m'.instructions == m.instructions
    ensures inst.code == Accumulate ==> m'.accumulator == m.accumulator + inst.argument && m'.execIndex == m.execIndex + 1
    ensures inst.code == Jump ==> m'.accumulator == m.accumulator && m'.execIndex == m.execIndex + inst.argument
    ensures inst.code == NoOperation ==> m'.accumulator == m.accumulator && m'.execIndex == m.execIndex + 1
  {
    match inst.code
    case Accumulate => m.(accumulator := m.accumulator + inst.argument, execIndex := m.execIndex + 1)
    case Jump => m.(execIndex := m.execIndex + inst.argument)
    case NoOperation => m.(execIndex := m.execIndex + 1)
  }

  /**
   * `run`: stop with Success once the index is past the last instruction;
   * otherwise count the visit, stop with InfiniteLoop on a second visit
   * (before executing it), else execute and go on.
   */
  function RunFrom(m: Machine): Outcome
    decreases UnexecutedCount(m.instructions)
  {
    if m.execIndex >= |m.instructions| then Outcome(Success, m)
    else if m.execIndex < 0 then Outcome(IndexOutOfRange, m)
    else
      var inst := m.instructions[m.execIndex];
      var counted := m.instructions[m.execIndex := inst.(execCount := inst.execCount + 1)];
      if inst.execCount + 1 > 1 then Outcome(InfiniteLoop, m.(instructions := counted))
      else
        UnexecutedCountMark(m.instructions, m.execIndex);
        RunFrom(Execute(m.(instructions := counted), inst))
  }

  /**
   * The run keeps the codes and arguments, and its exit code says where it
   * stopped: Success iff past the last instruction, IndexOutOfRange iff before
   * the first, InfiniteLoop at an instruction now counted twice.
   */
  lemma {:induction false} RunFromOutcome(m: Machine)
    ensures var r := RunFrom(m);
      && SameProgram(r.final.instructions, m.instructions)
      && (r.exit == Success <==> r.final.execIndex >= |m.instructions|)
      && (r.exit == IndexOutOfRange <==> r.final.execIndex < 0)
      && (r.exit == InfiniteLoop ==> 0 <= r.final.execIndex < |m.instructions| &&
                                     r.final.instructions[r.final.execIndex].execCount > 1)
    decreases UnexecutedCount(m.instructions)
  {
    if 0 <= m.execIndex < |m.instructions| && m.instructions[m.execIndex].execCount == 0 {
      var inst := m.instructions[m.execIndex];
      var counted := m.instructions[m.execIndex := inst.(execCount := inst.execCount + 1)];
      var next := Execute(m.(instructions := counted), inst);
      UnexecutedCountMark(m.instructions, m.execIndex);
      RunFromOutcome(next);
      assert RunFrom(m) == RunFrom(next);
      assert SameProgram(counted, m.instructions);
    }
  }

  /** One uninterrupted iteration of `run`: count the visit, execute, and go on from there. */
  lemma RunFromStep(m: Machine)
    requires 0 <= m.execIndex < |m.instructions| && m.instructions[m.execIndex].execCount == 0
    ensures var inst := m.instructions[m.execIndex];
      RunFrom(m) == RunFrom(Execute(m.(instructions := m.instructions[m.execIndex := inst.(execCount := inst.execCount + 1)]), inst))
  {
  }

  /** Loop iterations `run` takes from m, the final one (the one that returns) included. */
  function Iterations(m: Machine): (k: nat)
    ensures k <= UnexecutedCount(m.instructions) + 1
    decreases UnexecutedCount(m.instructions)
  {
    if m.execIndex >= |m.instructions| || m.execIndex < 0 then 1
    else
      var inst := m.instructions[m.execIndex];
      var counted := m.instructions[m.execIndex := inst.(execCount := inst.execCount + 1)];
      if inst.execCount + 1 > 1 then 1
      else
        UnexecutedCountMark(m.instructions, m.execIndex);
        1 + Iterations(Execute(m.(instructions := counted), inst))
  }

  /** The instructions with every counter zeroed: what `reset` leaves. */
  function ResetCounts(instructions: seq<Instruction>): (r: seq<Instruction>)
    ensures SameProgram(r, instructions)
    ensures forall i :: 0 <= i < |r| ==> r[i].execCount == 0
  {
    seq(|instructions|, i requires 0 <= i < |instructions| => instructions[i].(execCount := 0))
  }

  function Initial(instructions: seq<Instruction>): Machine {
    Machine(0, 0, ResetCounts(instructions))
  }

  predicate AllUnexecuted(instructions: seq<Instruction>) {
    forall i :: 0 <= i < |instructions| ==> instructions[i].execCount == 0
  }

  lemma {:induction false} UnexecutedCountAll(instructions: seq<Instruction>)
    requires AllUnexecuted(instructions)
    ensures UnexecutedCount(instructions) == |instructions|
  {
    if instructions != [] {
      UnexecutedCountAll(instructions[..|instructions| - 1]);
    }
  }

  /** Started from a reset state, `run` ends after at most one iteration per instruction plus one. */
  lemma RunFromResetIsBounded(instructions: seq<Instruction>)
    ensures Iterations(Initial(instructions)) <= |instructions| + 1
  {
    UnexecutedCountAll(ResetCounts(instructions));
  }

  /** Counters only go fresh to 1 while the run goes on. */
  predicate CountsAtMostOnce(instructions: seq<Instruction>) {
    forall i :: 0 <= i < |instructions| ==> instructions[i].execCount <= 1
  }

  predicate AtMostOnceExceptRepeat(r: Outcome) {
    forall i :: 0 <= i < |r.final.instructions| ==>
      r.final.instructions[i].execCount <= (if r.exit == InfiniteLoop && i == r.final.execIndex then 2 else 1)
  }

  /**
   * From a state where no instruction has run twice, every instruction runs at
   * most once: only the repeated one, on InfiniteLoop, reaches a count of two.
   */
  lemma {:induction false} RunExecutesEachAtMostOnce(m: Machine)
    requires CountsAtMostOnce(m.instructions)
    ensures AtMostOnceExceptRepeat(RunFrom(m))
    decreases UnexecutedCount(m.instructions)
  {
    if 0 <= m.execIndex < |m.instructions| {
      var inst := m.instructions[m.execIndex];
      var counted := m.instructions[m.execIndex := inst.(execCount := inst.execCount + 1)];
      if inst.execCount == 0 {
        UnexecutedCountMark(m.instructions, m.execIndex);
        var next := Execute(m.(instructions := counted), inst);
        assert CountsAtMostOnce(next.instructions);
        assert RunFrom(m) == RunFrom(next);
        RunExecutesEachAtMostOnce(next);
      } else {
        var r := RunFrom(m);
        assert r == Outcome(InfiniteLoop, m.(instructions := counted));
        assert r.final.execIndex == m.execIndex;
      }
    }
  }

  /** Swap jmp and nop at index i; acc is left alone. */
  function Flip(instructions: seq<Instruction>, i: nat): (r: seq<Instruction>)
    requires i < |instructions|
    ensures |r| == |instructions|
    ensures forall j :: 0 <= j < |r| && j != i ==> r[j] == instructions[j]
    ensures r[i].argument == instructions[i].argument && r[i].execCount == instructions[i].execCount
    ensures instructions[i].code == Accumulate <==> r[i].code == Accumulate
    ensures instructions[i].code != Accumulate ==> r[i].code != instructions[i].code
  {
    var inst := instructions[i];
    match inst.code
    case Jump => instructions[i := inst.(code := NoOperation)]
    case NoOperation => instructions[i := inst.(code := Jump)]
    case Accumulate => instructions
  }

  /** Whether flipping instruction i (a jmp or nop) makes the program run to Success from a reset state. */
  predicate RepairedBy(instructions: seq<Instruction>, i: nat)
    requires i < |instructions|
  {
    instructions[i].code != Accumulate && RunFrom(Initial(Flip(instructions, i))).exit == Success
  }

  /**
   * The state a failed trial of instruction i leaves: the state the run of the
   * flipped program ends in, with instruction i's code put back.
   */
  function FailedTrial(instructions: seq<Instruction>, i: nat): (m: Machine)
    requires i < |instructions|
    ensures |m.instructions| == |instructions|
  {
    var start := Initial(Flip(instructions, i));
    RunFromOutcome(start);
    var f := RunFrom(start).final;
    f.(instructions := f.instructions[i := f.instructions[i].(code := instructions[i].code)])
  }

  /**
   * The state trial i of the repair loop leaves when it does not succeed: a
   * failed run for a jmp or nop, the reset state for an acc.
   */
  function TrialState(instructions: seq<Instruction>, i: nat): Machine
    requires i < |instructions|
  {
    if instructions[i].code == Accumulate then Initial(instructions) else FailedTrial(instructions, i)
  }

  /** A failed trial keeps the codes and arguments; the run it came from did not succeed. */
  lemma FailedTrialKeepsProgram(instructions: seq<Instruction>, i: nat)
    requires i < |instructions| && !RepairedBy(instructions, i)
    ensures SameProgram(FailedTrial(instructions, i).instructions, instructions)
  {
    var start := Initial(Flip(instructions, i));
    RunFromOutcome(start);
    var f := RunFrom(start).final;
    assert SameProgram(f.instructions, Flip(instructions, i));
  }

  /** Trials depend only on the codes and arguments, not on the execution counts. */
  lemma TrialStateOfSameProgram(a: seq<Instruction>, b: seq<Instruction>, i: nat)
    requires SameProgram(a, b) && i < |a|
    ensures Initial(a) == Initial(b) && Initial(Flip(a, i)) == Initial(Flip(b, i))
    ensures RepairedBy(a, i) == RepairedBy(b, i)
    ensures TrialState(a, i) == TrialState(b, i)
  {
    ResetCountsOfSameProgram(a, b);
    FlipOfSameProgram(a, b, i);
  }

  lemma ResetCountsOfSameProgram(a: seq<Instruction>, b: seq<Instruction>)
    requires SameProgram(a, b)
    ensures ResetCounts(a) == ResetCounts(b)
  {
  }

  /** Resetting then flipping is flipping then resetting. */
  lemma FlipAfterReset(a: seq<Instruction>, b: seq<Instruction>, i: nat)
    requires SameProgram(a, b) && i < |a|
    ensures Flip(ResetCounts(a), i) == ResetCounts(Flip(b, i))
  {
  }

  lemma FlipOfSameProgram(a: seq<Instruction>, b: seq<Instruction>, i: nat)
    requires SameProgram(a, b) && i < |a|
    ensures SameProgram(Flip(a, i), Flip(b, i))
    ensures ResetCounts(Flip(a, i)) == ResetCounts(Flip(b, i))
  {
  }

  /**
   * `parseInstruction` on the groups captured by `^(acc|jmp|nop)\s(\+|\-)(\d+)$`:
   * the argument is the value of the digits, negated iff the sign is "-".
   */
  function ParseInstruction(code: string, sign: string, digits: string): (r: Option<Instruction>)
    requires code == "acc" || code == "jmp" || code == "nop"
    ensures r.Some? <==> Strconv.Atoi(digits).Some?
    ensures r.Some? ==> r.value.execCount == 0 &&
                        r.value.argument == (if sign == "-" then -Strconv.Atoi(digits).value else Strconv.Atoi(digits).value)
    ensures r.Some? ==> (r.value.code == Accumulate <==> code == "acc") && (r.value.code == Jump <==> code == "jmp")
  {
    match Strconv.Atoi(digits)
    case None => None
    case Some(v) =>
      var c := if code == "acc" then Accumulate else if code == "jmp" then Jump else NoOperation;
      Some(Instruction(c, if sign == "-" then -v else v, 0))
  }

  lemma ParseInstructionExample()
    ensures ParseInstruction("jmp", "-", "4") == Some(Instruction(Jump, -4, 0))
    ensures ParseInstruction("acc", "+", "12") == Some(Instruction(Accumulate, 12, 0))
  {
    assert Strconv.Atoi("4") == Some(4);
    assert "12"[..1] == "1";
    assert Strconv.Atoi("12") == Some(12);
  }

  class Program {
    var accumulator: int
    var execIndex: int
    var instructions: seq<Instruction>

    function State(): Machine
      reads this
    {
      Machine(accumulator, execIndex, instructions)
    }

    constructor (instructions: seq<Instruction>)
      ensures State() == Machine(0, 0, instructions)
    {
      accumulator, execIndex := 0, 0;
      this.instructions := instructions;
    }

    /** `reset`: zero the accumulator, the index and every counter; codes and arguments stay. */
    method Reset()
      modifies this
      ensures State() == Initial(old(instructions))
    {
      execIndex := 0;
      accumulator := 0;
      for i := 0 to |instructions|
        invariant accumulator == 0 && execIndex == 0
        invariant |instructions| == |old(instructions)|
        invariant forall j :: 0 <= j < i ==> instructions[j] == old(instructions[j]).(execCount := 0)
        invariant forall j :: i <= j < |instructions| ==> instructions[j] == old(instructions[j])
      {
        instructions := instructions[i := instructions[i].(execCount := 0)];
      }
      assert instructions == ResetCounts(old(instructions));
    }

    /** `run`, proved to end in the state and with the exit code that Run predicts. */
    method Run() returns (exit: ExitCode)
      modifies this
      ensures Outcome(exit, State()) == RunFrom(old(State()))
    {
      ghost var target := RunFrom(State());
      while true
        invariant RunFrom(Machine(accumulator, execIndex, instructions)) == target
        decreases UnexecutedCount(instructions)
      {
        if execIndex >= |instructions| {
          return Success;
        }
        if execIndex < 0 {
          return IndexOutOfRange;
        }
        var currentInst := instructions[execIndex];
        ghost var before := Machine(accumulator, execIndex, instructions);
        instructions := instructions[execIndex := currentInst.(execCount := currentInst.execCount + 1)];
        if currentInst.execCount + 1 > 1 {
          return InfiniteLoop;
        }
        UnexecutedCountMark(before.instructions, execIndex);
        RunFromStep(before);
        var acc, next := accumulator, execIndex;
        match currentInst.code {
          case Accumulate =>
            acc, next := acc + currentInst.argument, next + 1;
          case Jump =>
            next := next + currentInst.argument;
          case NoOperation =>
            next := next + 1;
        }
        accumulator, execIndex := acc, next;
      }
    }

    /**
     * One trial of the repair loop, from a reset state: flip instruction i,
     * run, and undo the flip unless the run ended with Success.
     */
    method TryFlip(i: nat) returns (success: bool)
      requires i < |instructions| && instructions[i].code != Accumulate
      requires State() == Initial(instructions)
      modifies this
      ensures success == RepairedBy(old(instructions), i)
      ensures success ==> State() == RunFrom(Initial(Flip(old(instructions), i))).final
      ensures !success ==> State() == FailedTrial(old(instructions), i)
      ensures !success ==> SameProgram(instructions, old(instructions))
    {
      ghost var original := instructions;
      FlipAfterReset(original, original, i);
      var inst := instructions[i];
      if inst.code == Jump {
        instructions := instructions[i := inst.(code := NoOperation)];
      } else {
        instructions := instructions[i := inst.(code := Jump)];
      }
      assert State() == Initial(Flip(original, i));
      var exit := Run();
      RunFromOutcome(Initial(Flip(original, i)));
      success := exit == Success;
      if !success {
        instructions := instructions[i := instructions[i].(code := inst.code)];
        FailedTrialKeepsProgram(original, i);
      }
    }

    /**
     * The repair loop of `main`: for each instruction in order, reset, and
     * for a jmp or nop try the flip, stopping at the first Success.
     * Returns the index that was flipped for good, if any.
     */
    method Repair() returns (fixedAt: Option<nat>)
      modifies this
      ensures fixedAt.Some? ==>
                && fixedAt.value < |old(instructions)|
                && RepairedBy(old(instructions), fixedAt.value)
                && (forall j :: 0 <= j < fixedAt.value ==> !RepairedBy(old(instructions), j))
                && State() == RunFrom(Initial(Flip(old(instructions), fixedAt.value))).final
      ensures fixedAt.None? ==>
                && SameProgram(instructions, old(instructions))
                && (forall j :: 0 <= j < |old(instructions)| ==> !RepairedBy(old(instructions), j))
                && (|old(instructions)| == 0 ==> State() == old(State()))
                && (|old(instructions)| > 0 ==> State() == TrialState(old(instructions), |old(instructions)| - 1))
    {
      ghost var original := instructions;
      fixedAt := None;
      for i := 0 to |instructions|
        invariant SameProgram(instructions, original)
        invariant forall j :: 0 <= j < i ==> !RepairedBy(original, j)
        invariant i == 0 ==> State() == old(State())
        invariant i > 0 ==> State() == TrialState(original, i - 1)
      {
        Reset();
        TrialStateOfSameProgram(instructions, original, i);
        if instructions[i].code != Accumulate {
          var success := TryFlip(i);
          if success {
            return Some(i);
          }
        }
        assert !RepairedBy(original, i) && State() == TrialState(original, i);
      }
    }
  }
}
