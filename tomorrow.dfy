/**
 * tomorrowCPU.py, the earliest sketch of the machine: the same twelve
 * instructions as CPUInstructions.py without a step counter, a computer
 * whose counter is always an int, a `run_program` that lets every
 * exception escape, and a `main` that echoes six values.
 */
module Tomorrow {
  import opened Wrappers
  import opened LegacyCpu

  class Computer {
    var inbox: seq<int>                    // a list read from its end
    var outbox: seq<int>
    var programCounter: int
    var program: seq<Instr>
    var accumulator: Option<int>
    var memory: map<Arg, int>

    /** `Computer()`: empty boxes, program and memory, the counter at 0 and no accumulator. */
    constructor ()
      ensures inbox == [] && outbox == [] && programCounter == 0 && program == []
      ensures accumulator.None? && memory == map[]
    {
      inbox := [];
      outbox := [];
      programCounter := 0;
      program := [];
      accumulator := None;
      memory := map[];
    }

    /** The fields an instruction works on. */
    function Machine(): Core
      reads this
    {
      Core(inbox, outbox, programCounter, accumulator, memory)
    }

    /**
     * `instruction.execute(self)` for each instruction class of
     * tomorrowCPU.py: the `assert*` checks, then the update in place.  An
     * instruction that raises changes nothing, and nothing changes the program.
     */
    method Execute(i: Instr) returns (r: Outcome<Fault>)
      modifies this
      ensures program == old(program)
      ensures match Perform(i, old(Machine()))
        case Ok(d) => r == Pass && Machine() == d
        case Err(e) => r == Fail(e) && Machine() == old(Machine())
    {
      if i.IsJump() {
        r := ApplyJump(i);
      } else {
        r := ApplyData(i);
      }
    }

    /** The three jump classes. */
    method ApplyJump(i: Instr) returns (r: Outcome<Fault>)
      requires i.IsJump()
      modifies this
      ensures program == old(program)
      ensures match Perform(i, old(Machine()))
        case Ok(d) => r == Pass && Machine() == d
        case Err(e) => r == Fail(e) && Machine() == old(Machine())
    {
      r := Pass;
      match i {
      case Jump(d) =>
        if d.Word? {
          return Fail(TypeFault);
        }
        programCounter := d.n;
      case JumpIfZero(d) =>
        r := CheckAccumulator(accumulator);
        if r.Fail? {
          return;
        }
        if accumulator.value == 0 {
          if d.Word? {
            return Fail(TypeFault);
          }
          programCounter := d.n;
        } else {
          programCounter := programCounter + 1;
        }
      case JumpIfNegative(d) =>
        r := CheckAccumulator(accumulator);
        if r.Fail? {
          return;
        }
        if accumulator.value < 0 {
          if d.Word? {
            return Fail(TypeFault);
          }
          programCounter := d.n;
        } else {
          programCounter := programCounter + 1;
        }
      }
    }

    /** The other nine classes. */
    method ApplyData(i: Instr) returns (r: Outcome<Fault>)
      requires !i.IsJump()
      modifies this
      ensures program == old(program)
      ensures match Perform(i, old(Machine()))
        case Ok(d) => r == Pass && Machine() == d
        case Err(e) => r == Fail(e) && Machine() == old(Machine())
    {
      r := Pass;
      match i {
      case NoOp =>
        programCounter := programCounter + 1;
      case MoveFromInbox =>
        r := CheckInbox(inbox);
        if r.Fail? {
          return;
        }
        accumulator := Some(inbox[|inbox| - 1]);
        inbox := inbox[..|inbox| - 1];
        programCounter := programCounter + 1;
      case MoveToOutbox =>
        r := CheckAccumulator(accumulator);
        if r.Fail? {
          return;
        }
        outbox := outbox + [accumulator.value];
        accumulator := None;
        programCounter := programCounter + 1;
      case CopyTo(t) =>
        r := CheckAccumulator(accumulator);
        if r.Fail? {
          return;
        }
        memory := memory[t := accumulator.value];
        programCounter := programCounter + 1;
      case CopyFrom(t) =>
        r := CheckTile(memory, t);
        if r.Fail? {
          return;
        }
        accumulator := Some(memory[t]);
        programCounter := programCounter + 1;
      case Add(t) =>
        r := CheckTile(memory, t);
        if r.Fail? {
          return;
        }
        if accumulator.None? {
          return Fail(TypeFault);
        }
        accumulator := Some(accumulator.value + memory[t]);
        programCounter := programCounter + 1;
      case Subtract(t) =>
        r := CheckTile(memory, t);
        if r.Fail? {
          return;
        }
        if accumulator.None? {
          return Fail(TypeFault);
        }
        accumulator := Some(accumulator.value - memory[t]);
        programCounter := programCounter + 1;
      case BumpUp(t) =>
        r := CheckTile(memory, t);
        if r.Fail? {
          return;
        }
        memory := memory[t := memory[t] + 1];
        accumulator := Some(memory[t]);
        programCounter := programCounter + 1;
      case BumpDown(t) =>
        r := CheckTile(memory, t);
        if r.Fail? {
          return;
        }
        memory := memory[t := memory[t] - 1];
        accumulator := Some(memory[t]);
        programCounter := programCounter + 1;
      }
    }

    /**
     * The computer as `run_program` leaves it: the machine where the run
     * stopped, and whether it returned, raised, or reached the bound.
     */
    predicate RunLeft(h: Halt, r: RunEnd)
      reads this
    {
      && Machine() == h.last
      && r == match h
              case Finished(_, _) => Done
              case Crashed(e, _, _) => Raised(e)
              case OutOfFuel(_, _) => Stopped
    }

    /**
     * `run_program()`: from counter 0, execute the instruction at the
     * counter while it is below the program's length, for at most `fuel`
     * executes; every exception, the empty inbox included, escapes.
     */
    method RunProgram(fuel: nat) returns (r: RunEnd)
      modifies this
      ensures program == old(program)
      ensures RunLeft(Exec(program, old(Machine()).(pc := 0), 0, fuel), r)
    {
      programCounter := 0;
      ghost var final := Exec(program, Machine(), 0, fuel);
      ghost var n := 0;
      var budget := fuel;
      var outcome := Pass;
      while outcome.Pass? && budget > 0 && -|program| <= programCounter < |program|
        invariant program == old(program)
        invariant outcome.Pass? ==> Exec(program, Machine(), n, budget) == final
        invariant outcome.Fail? ==> final == Crashed(outcome.error, Machine(), n)
        decreases budget
      {
        ghost var here := Machine();
        ExecTurn(program, here, n, budget);
        outcome := Execute(Fetch(program, programCounter).value);
        if outcome.Pass? {
          n := n + 1;
        }
        budget := budget - 1;
      }
      if outcome.Fail? {
        return Raised(outcome.error);
      }
      ExecStops(program, Machine(), n, budget);
      if programCounter < -|program| {
        return Raised(IndexFault);
      }
      if programCounter < |program| {
        return Stopped;
      }
      return Done;
    }
  }

  /**
   * `main()`, without its printing: the echo program on the inbox
   * [1, 2, 3, 4, 5, 6]; the run ends by the empty-inbox exception, which
   * `main` catches, and the outbox holds the values in reverse.  The six
   * values take nineteen executes, the last one the failing read.
   */
  method EchoMain(fuel: nat) returns (outbox: seq<int>, r: RunEnd)
    requires fuel >= 19
    ensures r == Raised(InboxIsEmpty)
    ensures outbox == [6, 5, 4, 3, 2, 1]
  {
    var computer := new Computer();
    computer.inbox := [1, 2, 3, 4, 5, 6];
    computer.program := EchoProgram;
    ghost var start := computer.Machine().(pc := 0);
    EchoReversesInbox(start, 0, fuel);
    ReverseReverses(start.inbox);
    r := computer.RunProgram(fuel);
    outbox := computer.outbox;
  }
}
