/**
 * The root Computer.py: the machine the instructions of CPUInstructions.py
 * update in place, with a step counter, a program loaded through the root
 * assembler, and `run`, which treats the empty-inbox exception as the
 * normal end of a program.
 */
module LegacyComputer {
  import opened Wrappers
  import opened LegacyCpu
  import LegacyAssembler

  class Computer {
    var inbox: seq<int>                    // a list read from its end
    var outbox: seq<int>
    var programCounter: Option<int>
    var totalStepsExecuted: Option<int>
    var program: seq<Instr>
    var accumulator: Option<int>
    var memory: map<Arg, int>
    var breakPoints: map<int, bool>
    var programPath: Option<string>

    /** `Computer()`: empty boxes, program and memory; no counter, no step count, no path. */
    constructor ()
      ensures inbox == [] && outbox == [] && program == [] && memory == map[] && breakPoints == map[]
      ensures programCounter.None? && totalStepsExecuted.None? && accumulator.None? && programPath.None?
    {
      inbox := [];
      outbox := [];
      programCounter := None;
      totalStepsExecuted := None;
      program := [];
      accumulator := None;
      memory := map[];
      breakPoints := map[];
      programPath := None;
    }

    /** The fields an instruction works on, with the counter at `at`. */
    function Machine(at: int): Core
      reads this
    {
      Core(inbox, outbox, at, accumulator, memory)
    }

    /** The computer in the middle of a run. */
    function Snapshot(): Core
      reads this
      requires programCounter.Some?
    {
      Machine(programCounter.value)
    }

    /** An instruction can be executed: the counter and the step count are ints. */
    predicate Running()
      reads this
    {
      programCounter.Some? && totalStepsExecuted.Some?
    }

    /** What no instruction and no run changes: the program, its path and the break points. */
    twostate predicate Kept()
      reads this
    {
      program == old(program) && programPath == old(programPath) && breakPoints == old(breakPoints)
    }

    /**
     * `is_running()`: when it holds, the loop's next fetch is the instruction
     * at the counter; when it fails at a non-negative counter, a run from
     * here ends at once.
     */
    function IsRunning(): (r: bool)
      reads this
      ensures r ==> programCounter.Some? && programCounter.value >= 0 && Fetch(program, programCounter.value).Some?
      ensures !r && programCounter.Some? && programCounter.value >= 0 ==>
        forall n: int, fuel: nat :: Exec(program, Snapshot(), n, fuel) == Finished(Snapshot(), n)
    {
      programCounter.Some? && 0 <= programCounter.value < |program|
    }

    /**
     * `load_program(path)`, with the file's lines given: the assembled
     * program, the path and no break points; an assembler exception leaves
     * everything as it was.
     */
    method LoadProgram(path: string, lines: seq<string>) returns (r: Outcome<LegacyAssembler.AsmError>)
      modifies this
      ensures match LegacyAssembler.Assemble(lines)
        case Ok(p) => r == Pass && program == p && programPath == Some(path) && breakPoints == map[]
        case Err(e) =>
          r == Fail(e) && program == old(program) && programPath == old(programPath) && breakPoints == old(breakPoints)
      ensures inbox == old(inbox) && outbox == old(outbox) && accumulator == old(accumulator) && memory == old(memory)
      ensures programCounter == old(programCounter) && totalStepsExecuted == old(totalStepsExecuted)
    {
      var assembled := LegacyAssembler.AssembleProgram(lines);
      if assembled.Err? {
        return Fail(assembled.error);
      }
      program := assembled.value;
      programPath := Some(path);
      breakPoints := map[];
      return Pass;
    }

    /**
     * `instruction.execute(self)` for each instruction class of
     * CPUInstructions.py: the `assert*` checks, the update in place, one
     * more step.  An instruction that raises changes nothing.
     */
    method Execute(i: Instr) returns (r: Outcome<Fault>)
      requires Running()
      modifies this
      ensures Kept() && Running()
      ensures match Perform(i, old(Snapshot()))
        case Ok(d) => r == Pass && Snapshot() == d && totalStepsExecuted == Some(old(totalStepsExecuted.value) + 1)
        case Err(e) => r == Fail(e) && Snapshot() == old(Snapshot()) && totalStepsExecuted == old(totalStepsExecuted)
    {
      if i.IsJump() {
        r := ApplyJump(i);
      } else {
        r := ApplyData(i);
      }
      if r.Pass? {
        totalStepsExecuted := Some(totalStepsExecuted.value + 1);
      }
    }

    /** The three jump classes, without the step count. */
    method ApplyJump(i: Instr) returns (r: Outcome<Fault>)
      requires Running() && i.IsJump()
      modifies this
      ensures Kept() && Running() && totalStepsExecuted == old(totalStepsExecuted)
      ensures match Perform(i, old(Snapshot()))
        case Ok(d) => r == Pass && Snapshot() == d
        case Err(e) => r == Fail(e) && Snapshot() == old(Snapshot())
    {
      r := Pass;
      var pc := programCounter.value;
      match i {
      case Jump(d) =>
        if d.Word? {
          return Fail(TypeFault);
        }
        programCounter := Some(d.n);
      case JumpIfZero(d) =>
        r := CheckAccumulator(accumulator);
        if r.Fail? {
          return;
        }
        if accumulator.value == 0 {
          if d.Word? {
            return Fail(TypeFault);
          }
          programCounter := Some(d.n);
        } else {
          programCounter := Some(pc + 1);
        }
      case JumpIfNegative(d) =>
        r := CheckAccumulator(accumulator);
        if r.Fail? {
          return;
        }
        if accumulator.value < 0 {
          if d.Word? {
            return Fail(TypeFault);
          }
          programCounter := Some(d.n);
        } else {
          programCounter := Some(pc + 1);
        }
      }
    }

    /** The other nine classes, without the step count. */
    method ApplyData(i: Instr) returns (r: Outcome<Fault>)
      requires Running() && !i.IsJump()
      modifies this
      ensures Kept() && Running() && totalStepsExecuted == old(totalStepsExecuted)
      ensures match Perform(i, old(Snapshot()))
        case Ok(d) => r == Pass && Snapshot() == d
        case Err(e) => r == Fail(e) && Snapshot() == old(Snapshot())
    {
      r := Pass;
      var pc := programCounter.value;
      match i {
      case NoOp =>
        programCounter := Some(pc + 1);
      case MoveFromInbox =>
        r := CheckInbox(inbox);
        if r.Fail? {
          return;
        }
        accumulator := Some(inbox[|inbox| - 1]);
        inbox := inbox[..|inbox| - 1];
        programCounter := Some(pc + 1);
      case MoveToOutbox =>
        r := CheckAccumulator(accumulator);
        if r.Fail? {
          return;
        }
        outbox := outbox + [accumulator.value];
        accumulator := None;
        programCounter := Some(pc + 1);
      case CopyTo(t) =>
        r := CheckAccumulator(accumulator);
        if r.Fail? {
          return;
        }
        memory := memory[t := accumulator.value];
        programCounter := Some(pc + 1);
      case CopyFrom(t) =>
        r := CheckTile(memory, t);
        if r.Fail? {
          return;
        }
        accumulator := Some(memory[t]);
        programCounter := Some(pc + 1);
      case Add(t) =>
        r := CheckTile(memory, t);
        if r.Fail? {
          return;
        }
        if accumulator.None? {
          return Fail(TypeFault);
        }
        accumulator := Some(accumulator.value + memory[t]);
        programCounter := Some(pc + 1);
      case Subtract(t) =>
        r := CheckTile(memory, t);
        if r.Fail? {
          return;
        }
        if accumulator.None? {
          return Fail(TypeFault);
        }
        accumulator := Some(accumulator.value - memory[t]);
        programCounter := Some(pc + 1);
      case BumpUp(t) =>
        r := CheckTile(memory, t);
        if r.Fail? {
          return;
        }
        memory := memory[t := memory[t] + 1];
        accumulator := Some(memory[t]);
        programCounter := Some(pc + 1);
      case BumpDown(t) =>
        r := CheckTile(memory, t);
        if r.Fail? {
          return;
        }
        memory := memory[t := memory[t] - 1];
        accumulator := Some(memory[t]);
        programCounter := Some(pc + 1);
      }
    }

    /** One turn of `run`'s loop, seen from the run as a whole: the instruction at the counter, then the rest of the run. */
    method Turn(ghost here: Core, ghost count: int, ghost budget: nat) returns (r: Outcome<Fault>, ghost next: Core, ghost after: int)
      requires Running() && here == Snapshot() && count == totalStepsExecuted.value
      requires -|program| <= here.pc < |program| && budget > 0
      modifies this
      ensures Kept() && Running() && next == Snapshot() && after == totalStepsExecuted.value
      ensures r.Pass? ==> Exec(program, here, count, budget) == Exec(program, next, after, budget - 1)
      ensures r.Fail? ==> next == here && after == count && Exec(program, here, count, budget) == Crashed(r.error, here, count)
    {
      ExecTurn(program, here, count, budget);
      r := Execute(Fetch(program, programCounter.value).value);
      next := Snapshot();
      after := totalStepsExecuted.value;
    }

    /**
     * The computer as a run leaves it: after a normal end (the program ran
     * off its end or the inbox was found empty) the counter is cleared; after
     * another exception or at the bound, it stays on the instruction reached.
     */
    predicate RunLeft(h: Halt, r: RunEnd)
      reads this
    {
      && Machine(h.last.pc) == h.last
      && totalStepsExecuted == Some(h.steps)
      && match h
         case Finished(_, _) => r == Done && programCounter.None?
         case Crashed(e, t, _) =>
           if e == InboxIsEmpty then r == Done && programCounter.None?
           else r == Raised(e) && programCounter == Some(t.pc)
         case OutOfFuel(t, _) => r == Stopped && programCounter == Some(t.pc)
    }

    /** `run()`'s `while` loop and its `except InboxIsEmptyError`, from where the computer stands, for at most `fuel` executes. */
    method Loop(ghost start: Core, ghost count: int, fuel: nat) returns (r: RunEnd)
      requires Running() && start == Snapshot() && count == totalStepsExecuted.value
      modifies this
      ensures Kept() && RunLeft(Exec(program, start, count, fuel), r)
    {
      ghost var here := start;
      ghost var n := count;
      ghost var final := Exec(program, start, count, fuel);
      var budget := fuel;
      var outcome := Pass;
      while outcome.Pass? && budget > 0 && -|program| <= programCounter.value < |program|
        invariant Running() && here == Snapshot() && n == totalStepsExecuted.value
        invariant program == old(program) && programPath == old(programPath) && breakPoints == old(breakPoints)
        invariant outcome.Pass? ==> Exec(program, here, n, budget) == final
        invariant outcome.Fail? ==> final == Crashed(outcome.error, here, n)
        decreases budget
      {
        outcome, here, n := Turn(here, n, budget);
        budget := budget - 1;
      }
      if outcome.Pass? {
        ExecStops(program, here, n, budget);
      }
      if outcome.Fail? && outcome.error != InboxIsEmpty {
        return Raised(outcome.error);
      }
      if outcome.Pass? && programCounter.value < -|program| {
        return Raised(IndexFault);
      }
      if outcome.Pass? && programCounter.value < |program| {
        return Stopped;
      }
      programCounter := None;
      return Done;
    }

    /**
     * `run()`: the counter and the step count start at 0, the boxes, the
     * accumulator and the memory are kept, then the loop runs.
     */
    method Run(fuel: nat) returns (r: RunEnd)
      modifies this
      ensures Kept() && RunLeft(Exec(program, old(Machine(0)), 0, fuel), r)
    {
      programCounter := Some(0);
      totalStepsExecuted := Some(0);
      r := Loop(Snapshot(), 0, fuel);
    }
  }

  /**
   * A program the root assembler produced, run from a non-negative counter
   * (as `run` starts it), never indexes outside itself, and a `TypeError`
   * can only come from `add` or `subtract` on an empty accumulator.
   */
  lemma AssembledRunsNeverMisfetch(lines: seq<string>, c: Core, steps: int, fuel: nat)
    requires LegacyAssembler.Assemble(lines).Ok? && c.pc >= 0
    ensures var program := LegacyAssembler.Assemble(lines).value;
      var h := Exec(program, c, steps, fuel);
      && (h.Crashed? ==> h.fault != IndexFault && 0 <= h.last.pc < |program|)
      && (h.Crashed? && h.fault == TypeFault ==> h.last.acc.None? && (program[h.last.pc].Add? || program[h.last.pc].Subtract?))
  {
    LegacyAssembler.AssembledJumpsResolved(lines);
    ResolvedRunsNeverMisfetch(LegacyAssembler.Assemble(lines).value, c, steps, fuel);
  }
}
