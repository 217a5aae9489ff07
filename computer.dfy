/**
 * hrmulator/Computer.py: the computer that holds the accumulator, the inbox
 * and outbox, the memory and the loaded program, and `run`, its
 * fetch-execute loop.  The class carries out each instruction's `execute` in
 * place; `Exec` is the run as a function of a snapshot, and `Run` is proved
 * to do what it says.  A run that never reads an empty inbox never ends, so
 * the loop is given a bound on the number of instructions it may execute.
 */
module Computer {
  import opened Wrappers
  import opened Memory
  import opened Instructions
  import Assembler

  /** How a run from a given state ends. */
  datatype Halt =
    | Finished(last: State)                   // the counter left the program, or `move_from_inbox` found it empty
    | Crashed(error: ExecError, last: State)  // any other exception, raised by the instruction at `last.pc`
    | OutOfFuel(last: State)                  // the bound on executed instructions was reached

  /** `run`'s `while` loop from `s`, executing at most `fuel` instructions. */
  function Exec(s: State, fuel: nat): Halt
    requires s.pc >= 0
    decreases fuel, 1
  {
    if s.pc >= |s.program| then Finished(s)
    else if fuel == 0 then OutOfFuel(s)
    else
      var outcome := Step(s.program[s.pc], s);
      assert outcome.Ok? ==> outcome.value.pc >= 0 by {
        if outcome.Ok? {
          StepKeepsPcNonNegative(s.program[s.pc], s);
        }
      }
      Resume(s, outcome, fuel)
  }

  /**
   * The `try` around one `execute`: a completed instruction hands the run on,
   * an empty inbox ends it normally, any other exception escapes.
   */
  function Resume(s: State, outcome: Result<State, ExecError>, fuel: nat): Halt
    requires fuel > 0 && (outcome.Ok? ==> outcome.value.pc >= 0)
    decreases fuel, 0
  {
    match outcome
    case Ok(t) => Exec(t, fuel - 1)
    case Err(e) => if e == InboxIsEmpty then Finished(s) else Crashed(e, s)
  }

  /** What `run` sets before its loop: the first step, and no step counted yet. */
  function Start(s: State): State
  {
    s.(pc := 0, steps := 0)
  }

  /** One turn of `run`'s loop: a completed step goes on from the next state; an exception ends the run. */
  lemma ExecOnce(s: State, fuel: nat)
    requires 0 <= s.pc < |s.program| && fuel > 0
    ensures var step := Step(s.program[s.pc], s);
      && (step.Ok? ==> step.value.pc >= 0 && Exec(s, fuel) == Exec(step.value, fuel - 1))
      && (step == Err(InboxIsEmpty) ==> Exec(s, fuel) == Finished(s))
      && (step.Err? && step.error != InboxIsEmpty ==> Exec(s, fuel) == Crashed(step.error, s))
  {
    var step := Step(s.program[s.pc], s);
    if step.Ok? {
      StepKeepsPcNonNegative(s.program[s.pc], s);
    }
  }

  /** With the counter outside the program or no bound left, the run ends where it stands. */
  lemma ExecStops(s: State, fuel: nat)
    requires s.pc >= 0 && !(0 <= s.pc < |s.program| && fuel > 0)
    ensures Exec(s, fuel) == if s.pc >= |s.program| then Finished(s) else OutOfFuel(s)
  {
  }

  /** A run whose first instruction completes is the run from the state it produced, one step later and one instruction shorter. */
  lemma Continues(s: State, t: State, fuel: nat)
    requires 0 <= s.pc < |s.program| && Step(s.program[s.pc], s) == Ok(t) && fuel > 0
    ensures t.pc >= 0 && t.steps == s.steps + 1
    ensures Exec(s, fuel) == Exec(t, fuel - 1)
  {
    ExecOnce(s, fuel);
    StepBookkeeping(s.program[s.pc], s);
  }

  /** A run whose first instruction raises ends there: normally for an empty inbox, with the exception otherwise. */
  lemma Raises(s: State, fuel: nat)
    requires 0 <= s.pc < |s.program| && Step(s.program[s.pc], s).Err? && fuel > 0
    ensures var e := Step(s.program[s.pc], s).error;
      Exec(s, fuel) == if e == InboxIsEmpty then Finished(s) else Crashed(e, s)
  {
  }

  /** Inside the program, a run that has ended had some bound left. */
  lemma NeedsFuel(s: State, fuel: nat)
    requires 0 <= s.pc < |s.program| && !Exec(s, fuel).OutOfFuel?
    ensures fuel > 0
  {
  }

  /**
   * Every run from `s` given a bound above `n` ends normally after `n`
   * counted steps, with the inbox empty and `out` in the outbox.
   */
  ghost predicate EndsWith(s: State, n: nat, out: seq<Value>)
  {
    s.pc >= 0 &&
    forall fuel: nat :: fuel > n ==>
      var h := Exec(s, fuel);
      h.Finished? && h.last.outbox == Some(out) && h.last.inbox == Some([]) && h.last.steps == s.steps + n
  }

  /** A completed instruction comes before whatever the state it produced goes on to output. */
  lemma EndsWithStep(s: State, t: State, n: nat, out: seq<Value>)
    requires 0 <= s.pc < |s.program| && Step(s.program[s.pc], s) == Ok(t) && EndsWith(t, n, out)
    ensures EndsWith(s, n + 1, out)
  {
    StepBookkeeping(s.program[s.pc], s);
    forall fuel: nat | fuel > n + 1
      ensures var h := Exec(s, fuel);
        h.Finished? && h.last.outbox == Some(out) && h.last.inbox == Some([]) && h.last.steps == s.steps + (n + 1)
    {
      ExecOnce(s, fuel);
    }
  }

  /**
   * `t` can come after `s` in a run: the program, the jump table and the
   * labels stay, the step count does not go down, the outbox only grows at
   * its end and the inbox only loses values from its front.
   */
  predicate Follows(s: State, t: State)
  {
    && t.program == s.program && t.jumpTable == s.jumpTable && t.labels == s.labels
    && t.steps >= s.steps
    && t.outbox.Some? == s.outbox.Some?
    && (s.outbox.Some? ==> s.outbox.value <= t.outbox.value)
    && t.inbox.Some? == s.inbox.Some?
    && (s.inbox.Some? ==>
          |t.inbox.value| <= |s.inbox.value| && t.inbox.value == s.inbox.value[|s.inbox.value| - |t.inbox.value|..])
  }

  /** A completed instruction is one step that can follow. */
  lemma StepFollows(ins: Instruction, s: State)
    requires Step(ins, s).Ok?
    ensures Follows(s, Step(ins, s).value) && Step(ins, s).value.steps == s.steps + 1
  {
    StepBookkeeping(ins, s);
    if ins.MoveFromInbox? {
      MoveFromInboxTakesFront(s);
    } else if ins.MoveToOutbox? {
      MoveToOutboxAppends(s);
    }
  }

  lemma FollowsTransitive(r: State, s: State, t: State)
    requires Follows(r, s) && Follows(s, t)
    ensures Follows(r, t)
  {
    if r.inbox.Some? {
      var a, b, c := r.inbox.value, s.inbox.value, t.inbox.value;
      assert c == b[|b| - |c|..] && b == a[|a| - |b|..];
      assert c == a[|a| - |c|..];
    }
  }

  /**
   * Whatever the bound, a run ends in a state that follows its start, with
   * the counter never below zero and at most one step counted per unit of fuel.
   */
  lemma {:induction false} ExecFollows(s: State, fuel: nat)
    requires s.pc >= 0
    ensures var t := Exec(s, fuel).last;
      Follows(s, t) && t.pc >= 0 && t.steps <= s.steps + fuel
    decreases fuel
  {
    if !(0 <= s.pc < |s.program| && fuel > 0) {
      ExecStops(s, fuel);
    } else if Step(s.program[s.pc], s).Err? {
      Raises(s, fuel);
    } else {
      var t := Step(s.program[s.pc], s).value;
      Continues(s, t, fuel);
      StepFollows(s.program[s.pc], s);
      ExecFollows(t, fuel - 1);
      FollowsTransitive(s, t, Exec(s, fuel).last);
    }
  }

  /**
   * How a run stops: a normal end is the counter leaving the program or a
   * `move_from_inbox` with nothing to read; any other end is the exception
   * the instruction at the last counter raises.
   */
  lemma {:induction false} ExecEnds(s: State, fuel: nat)
    requires s.pc >= 0
    ensures var h := Exec(s, fuel);
      var t := h.last;
      && (h.Finished? ==>
            t.pc >= |t.program| ||
            (0 <= t.pc < |t.program| && t.program[t.pc] == MoveFromInbox && (t.inbox.None? || t.inbox.value == [])))
      && (h.Crashed? ==>
            0 <= t.pc < |t.program| && h.error != InboxIsEmpty && Step(t.program[t.pc], t) == Err(h.error))
      && (h.OutOfFuel? ==> 0 <= t.pc < |t.program|)
    decreases fuel
  {
    if !(0 <= s.pc < |s.program| && fuel > 0) {
      ExecStops(s, fuel);
    } else if Step(s.program[s.pc], s).Err? {
      Raises(s, fuel);
      OnlyInboxReadEndsRun(s.program[s.pc], s);
    } else {
      var t := Step(s.program[s.pc], s).value;
      Continues(s, t, fuel);
      ExecEnds(t, fuel - 1);
    }
  }

  /** A run that has ended ends the same way with any larger bound. */
  lemma {:induction false} ExecFuelMonotone(s: State, fuel: nat, more: nat)
    requires s.pc >= 0 && fuel <= more && !Exec(s, fuel).OutOfFuel?
    ensures Exec(s, more) == Exec(s, fuel)
    decreases more - fuel
  {
    if fuel < more {
      OneMoreFuel(s, fuel);
      ExecFuelMonotone(s, fuel + 1, more);
    }
  }

  /** A run that has ended ends the same way with one more instruction allowed. */
  lemma {:induction false} OneMoreFuel(s: State, fuel: nat)
    requires s.pc >= 0 && !Exec(s, fuel).OutOfFuel?
    ensures Exec(s, fuel + 1) == Exec(s, fuel)
    decreases fuel
  {
    if 0 <= s.pc < |s.program| && Step(s.program[s.pc], s).Ok? {
      var t := Step(s.program[s.pc], s).value;
      NeedsFuel(s, fuel);
      Continues(s, t, fuel);
      OneMoreFuel(t, fuel - 1);
      Continues(s, t, fuel + 1);
    } else {
      EndedRunStaysEnded(s, fuel, fuel + 1);
    }
  }

  /** A run whose first instruction does not complete ends the same way with any larger bound. */
  lemma EndedRunStaysEnded(s: State, fuel: nat, more: nat)
    requires s.pc >= 0 && fuel <= more && !Exec(s, fuel).OutOfFuel?
    requires !(0 <= s.pc < |s.program| && Step(s.program[s.pc], s).Ok?)
    ensures Exec(s, more) == Exec(s, fuel)
  {
    if 0 <= s.pc < |s.program| {
      NeedsFuel(s, fuel);
      Raises(s, fuel);
      Raises(s, more);
    } else {
      ExecStops(s, fuel);
      ExecStops(s, more);
    }
  }

  /**
   * The step count counts completed instructions: a run that ends after
   * `n` counted steps is in its last state after exactly `n` instructions,
   * and one fewer leaves it still running.
   */
  lemma {:induction false} StepsCountInstructions(s: State, fuel: nat, n: int)
    requires s.pc >= 0 && !Exec(s, fuel).OutOfFuel?
    requires n == Exec(s, fuel).last.steps - s.steps
    ensures 0 <= n <= fuel
    ensures Exec(s, n).last == Exec(s, fuel).last
    ensures n > 0 ==> Exec(s, n - 1).OutOfFuel?
    decreases fuel
  {
    if 0 <= s.pc < |s.program| && Step(s.program[s.pc], s).Ok? {
      var t := Step(s.program[s.pc], s).value;
      NeedsFuel(s, fuel);
      Continues(s, t, fuel);
      StepsCountInstructions(t, fuel - 1, n - 1);
      CountsOneMore(s, t, fuel, n);
    } else {
      EndsWhereItStands(s, fuel);
    }
  }

  /** A run whose first instruction does not complete ends in its first state, whatever the bound. */
  lemma EndsWhereItStands(s: State, fuel: nat)
    requires s.pc >= 0 && !Exec(s, fuel).OutOfFuel?
    requires !(0 <= s.pc < |s.program| && Step(s.program[s.pc], s).Ok?)
    ensures Exec(s, fuel).last == s && Exec(s, 0).last == s
  {
  }

  /** The step-count argument for one completed instruction, with the rest of the run counted from `t`. */
  lemma CountsOneMore(s: State, t: State, fuel: nat, n: int)
    requires 0 <= s.pc < |s.program| && Step(s.program[s.pc], s) == Ok(t) && fuel > 0 && t.pc >= 0
    requires 1 <= n <= fuel && Exec(t, n - 1).last == Exec(t, fuel - 1).last
    requires n > 1 ==> Exec(t, n - 2).OutOfFuel?
    ensures Exec(s, n).last == Exec(s, fuel).last && Exec(s, n - 1).OutOfFuel?
  {
    ExecOnce(s, fuel);
    ExecOnce(s, n);
    if n > 1 {
      ExecOnce(s, n - 1);
    }
  }

  /**
   * With no inbox or an empty one, a program that starts by reading the inbox
   * ends at once: no step is counted and nothing else changes.
   */
  lemma EmptyInboxEndsAtOnce(s: State, fuel: nat)
    requires |s.program| > 0 && s.program[0] == MoveFromInbox
    requires s.inbox.None? || s.inbox.value == []
    requires fuel > 0
    ensures Exec(Start(s), fuel) == Finished(Start(s))
  {
    ExecOnce(Start(s), fuel);
  }

  /** What `run` reports: a normal end, the exception that escaped it, or the bound reached. */
  datatype RunEnd = Done | Raised(error: ExecError) | Stopped

  class Computer {
    var pc: Option<int>                    // program_counter
    var steps: Option<int>                 // total_steps_executed
    var acc: Option<Value>                 // accumulator
    var memory: Memory
    var programPath: Option<string>
    var program: Option<seq<Instruction>>
    var jumpTable: Option<map<string, int>>
    var inbox: Option<seq<Value>>          // a deque read from its front
    var outbox: Option<seq<Value>>

    /** `Computer()`: everything absent except an empty memory. */
    constructor ()
      ensures pc.None? && steps.None? && acc.None? && programPath.None?
      ensures program.None? && jumpTable.None? && inbox.None? && outbox.None?
      ensures fresh(memory) && memory.tiles == map[] && memory.labelMap == map[]
    {
      pc := None;
      steps := None;
      acc := None;
      memory := new Memory(map[]);
      programPath := None;
      program := None;
      jumpTable := None;
      inbox := None;
      outbox := None;
    }

    /** The computer as one instruction sees it, with counter `at` and `count` steps executed. */
    function Machine(at: int, count: int): State
      reads this, memory
      requires program.Some?
    {
      State(at, count, acc, inbox, outbox, memory.tiles, memory.labelMap, program.value, jumpTable)
    }

    /** The computer in the middle of a run. */
    function Snapshot(): State
      reads this, memory
      requires pc.Some? && steps.Some? && program.Some?
    {
      Machine(pc.value, steps.value)
    }

    /** `set_inbox(inbox)`: a copy of the values, read from the front. */
    method SetInbox(values: seq<Value>)
      modifies this
      ensures inbox == Some(values)
      ensures pc == old(pc) && steps == old(steps) && acc == old(acc) && memory == old(memory)
      ensures programPath == old(programPath) && program == old(program) && jumpTable == old(jumpTable)
      ensures outbox == old(outbox)
    {
      inbox := Some(values);
    }

    /**
     * `load_program(program_text=text)`: the assembler's program and jump
     * table, with the path "inline"; an assembler error leaves everything as it was.
     */
    method LoadProgramText(text: string) returns (r: Outcome<Assembler.AsmError>)
      modifies this
      ensures match Assembler.Assemble(Assembler.SplitLines(text))
        case Ok(a) =>
          r == Pass && program == Some(a.program) && jumpTable == Some(a.jumpTable) && programPath == Some("inline")
        case Err(e) =>
          r == Fail(e) && program == old(program) && jumpTable == old(jumpTable) && programPath == old(programPath)
      ensures pc == old(pc) && steps == old(steps) && acc == old(acc) && memory == old(memory)
      ensures inbox == old(inbox) && outbox == old(outbox)
    {
      var assembled := Assembler.AssembleProgramText(text);
      if assembled.Err? {
        return Fail(assembled.error);
      }
      program := Some(assembled.value.program);
      jumpTable := Some(assembled.value.jumpTable);
      programPath := Some("inline");
      return Pass;
    }

    /** A step can be taken: the counter, the step count and the program are present. */
    predicate Running()
      reads this
    {
      pc.Some? && steps.Some? && program.Some?
    }

    /** What no instruction changes: the memory object, the program, its jump table and its path. */
    twostate predicate Kept()
      reads this
    {
      memory == old(memory) && program == old(program) && jumpTable == old(jumpTable) && programPath == old(programPath)
    }

    /** `NoOp.execute`: only the bookkeeping. */
    method ExecuteNoOp() returns (r: Outcome<ExecError>)
      requires Running()
      modifies this, memory
      ensures Kept()
      ensures r == Pass && Running() && Step(NoOp, old(Snapshot())) == Ok(Snapshot())
    {
      pc := Some(pc.value + 1);
      steps := Some(steps.value + 1);
      return Pass;
    }

    /** `MoveFromInbox.execute`: an absent or empty inbox raises InboxIsEmptyError; otherwise `popleft`. */
    method ExecuteMoveFromInbox() returns (r: Outcome<ExecError>)
      requires Running()
      modifies this, memory
      ensures Kept()
      ensures match Step(MoveFromInbox, old(Snapshot()))
        case Ok(t) => r == Pass && Running() && Snapshot() == t
        case Err(e) => r == Fail(e) && pc == old(pc) && steps == old(steps) && Snapshot() == old(Snapshot())
    {
      if inbox.None? || inbox.value == [] {
        return Fail(InboxIsEmpty);
      }
      acc := Some(inbox.value[0]);
      inbox := Some(inbox.value[1..]);
      pc := Some(pc.value + 1);
      steps := Some(steps.value + 1);
      return Pass;
    }

    /** `MoveToOutbox.execute`: append the accumulator, then empty it; an absent outbox has no `append`. */
    method ExecuteMoveToOutbox() returns (r: Outcome<ExecError>)
      requires Running()
      modifies this, memory
      ensures Kept()
      ensures match Step(MoveToOutbox, old(Snapshot()))
        case Ok(t) => r == Pass && Running() && Snapshot() == t
        case Err(e) => r == Fail(e) && pc == old(pc) && steps == old(steps) && Snapshot() == old(Snapshot())
    {
      if acc.None? {
        return Fail(AccumulatorIsEmpty);
      }
      if outbox.None? {
        return Fail(TypeFault);
      }
      outbox := Some(outbox.value + [acc.value]);
      acc := None;
      pc := Some(pc.value + 1);
      steps := Some(steps.value + 1);
      return Pass;
    }

    /** `CopyFrom.execute`: the accumulator takes what `memory.get` reads. */
    method ExecuteCopyFrom(tile: Key, indirect: bool) returns (r: Outcome<ExecError>)
      requires Running()
      modifies this, memory
      ensures Kept()
      ensures match Step(Instruction.CopyFrom(tile, indirect), old(Snapshot()))
        case Ok(t) => r == Pass && Running() && Snapshot() == t
        case Err(e) => r == Fail(e) && pc == old(pc) && steps == old(steps) && Snapshot() == old(Snapshot())
    {
      var v := Get(memory.tiles, memory.labelMap, tile, indirect);
      if v.Err? {
        return Fail(MemoryFault(v.error));
      }
      acc := Some(v.value);
      pc := Some(pc.value + 1);
      steps := Some(steps.value + 1);
      return Pass;
    }

    /** `CopyTo.execute`: `memory.set` of the accumulator. */
    method ExecuteCopyTo(tile: Key, indirect: bool) returns (r: Outcome<ExecError>)
      requires Running()
      modifies this, memory
      ensures Kept()
      ensures match Step(Instruction.CopyTo(tile, indirect), old(Snapshot()))
        case Ok(t) => r == Pass && Running() && Snapshot() == t
        case Err(e) => r == Fail(e) && pc == old(pc) && steps == old(steps) && Snapshot() == old(Snapshot())
    {
      if acc.None? {
        return Fail(AccumulatorIsEmpty);
      }
      var written := memory.Set(tile, acc.value, indirect);
      if written.Fail? {
        return Fail(MemoryFault(written.error));
      }
      pc := Some(pc.value + 1);
      steps := Some(steps.value + 1);
      return Pass;
    }

    /** `Add.execute`: two numbers are added into the accumulator. */
    method ExecuteAdd(tile: Key, indirect: bool) returns (r: Outcome<ExecError>)
      requires Running()
      modifies this, memory
      ensures Kept()
      ensures match Step(Instruction.Add(tile, indirect), old(Snapshot()))
        case Ok(t) => r == Pass && Running() && Snapshot() == t
        case Err(e) => r == Fail(e) && pc == old(pc) && steps == old(steps) && Snapshot() == old(Snapshot())
    {
      if acc.None? {
        return Fail(AccumulatorIsEmpty);
      }
      var v := Get(memory.tiles, memory.labelMap, tile, indirect);
      if v.Err? {
        return Fail(MemoryFault(v.error));
      }
      if v.value.Char? || acc.value.Char? {
        return Fail(IncompatibleTypes);
      }
      acc := Some(Int(acc.value.i + v.value.i));
      pc := Some(pc.value + 1);
      steps := Some(steps.value + 1);
      return Pass;
    }

    /** `Subtract.execute`: numbers subtract, letters subtract their code points, a mix is refused. */
    method ExecuteSubtract(tile: Key, indirect: bool) returns (r: Outcome<ExecError>)
      requires Running()
      modifies this, memory
      ensures Kept()
      ensures match Step(Instruction.Subtract(tile, indirect), old(Snapshot()))
        case Ok(t) => r == Pass && Running() && Snapshot() == t
        case Err(e) => r == Fail(e) && pc == old(pc) && steps == old(steps) && Snapshot() == old(Snapshot())
    {
      if acc.None? {
        return Fail(AccumulatorIsEmpty);
      }
      var v := Get(memory.tiles, memory.labelMap, tile, indirect);
      if v.Err? {
        return Fail(MemoryFault(v.error));
      }
      if v.value.Char? != acc.value.Char? {
        return Fail(IncompatibleTypes);
      }
      if v.value.Char? {
        acc := Some(Int(acc.value.c as int - v.value.c as int));
      } else {
        acc := Some(Int(acc.value.i - v.value.i));
      }
      pc := Some(pc.value + 1);
      steps := Some(steps.value + 1);
      return Pass;
    }

    /** `BumpUp.execute`: read, add one, write back along the same path, copy into the accumulator. */
    method ExecuteBumpUp(tile: Key, indirect: bool) returns (r: Outcome<ExecError>)
      requires Running()
      modifies this, memory
      ensures Kept()
      ensures match Step(Instruction.BumpUp(tile, indirect), old(Snapshot()))
        case Ok(t) => r == Pass && Running() && Snapshot() == t
        case Err(e) => r == Fail(e) && pc == old(pc) && steps == old(steps) && Snapshot() == old(Snapshot())
    {
      var v := Get(memory.tiles, memory.labelMap, tile, indirect);
      if v.Err? {
        return Fail(MemoryFault(v.error));
      }
      if v.value.Char? {
        return Fail(IncompatibleTypes);
      }
      var bumped := Int(v.value.i + 1);
      WriteBackReachesReadTile(memory.tiles, memory.labelMap, tile, indirect);
      var _ := memory.Set(tile, bumped, indirect);
      acc := Some(bumped);
      pc := Some(pc.value + 1);
      steps := Some(steps.value + 1);
      return Pass;
    }

    /** `BumpDown.execute`: read, subtract one, write back along the same path, copy into the accumulator. */
    method ExecuteBumpDown(tile: Key, indirect: bool) returns (r: Outcome<ExecError>)
      requires Running()
      modifies this, memory
      ensures Kept()
      ensures match Step(Instruction.BumpDown(tile, indirect), old(Snapshot()))
        case Ok(t) => r == Pass && Running() && Snapshot() == t
        case Err(e) => r == Fail(e) && pc == old(pc) && steps == old(steps) && Snapshot() == old(Snapshot())
    {
      var v := Get(memory.tiles, memory.labelMap, tile, indirect);
      if v.Err? {
        return Fail(MemoryFault(v.error));
      }
      if v.value.Char? {
        return Fail(IncompatibleTypes);
      }
      var bumped := Int(v.value.i - 1);
      WriteBackReachesReadTile(memory.tiles, memory.labelMap, tile, indirect);
      var _ := memory.Set(tile, bumped, indirect);
      acc := Some(bumped);
      pc := Some(pc.value + 1);
      steps := Some(steps.value + 1);
      return Pass;
    }

    /** `Jump.execute`: the counter moves to the looked-up destination. */
    method ExecuteJump(destination: Key) returns (r: Outcome<ExecError>)
      requires Running()
      modifies this, memory
      ensures Kept()
      ensures match Step(Instruction.Jump(destination), old(Snapshot()))
        case Ok(t) => r == Pass && Running() && Snapshot() == t
        case Err(e) => r == Fail(e) && pc == old(pc) && steps == old(steps) && Snapshot() == old(Snapshot())
    {
      var step := LookupDestination(Snapshot(), destination);
      if step.Err? {
        return Fail(step.error);
      }
      pc := Some(step.value);
      steps := Some(steps.value + 1);
      return Pass;
    }

    /** `JumpIfZero.execute`: jump when the accumulator equals 0, otherwise go on. */
    method ExecuteJumpIfZero(destination: Key) returns (r: Outcome<ExecError>)
      requires Running()
      modifies this, memory
      ensures Kept()
      ensures match Step(Instruction.JumpIfZero(destination), old(Snapshot()))
        case Ok(t) => r == Pass && Running() && Snapshot() == t
        case Err(e) => r == Fail(e) && pc == old(pc) && steps == old(steps) && Snapshot() == old(Snapshot())
    {
      if acc.None? {
        return Fail(AccumulatorIsEmpty);
      }
      if acc.value == Int(0) {
        var step := LookupDestination(Snapshot(), destination);
        if step.Err? {
          return Fail(step.error);
        }
        pc := Some(step.value);
      } else {
        pc := Some(pc.value + 1);
      }
      steps := Some(steps.value + 1);
      return Pass;
    }

    /** `JumpIfNegative.execute`: jump when the accumulator is below 0; a letter cannot be compared with 0. */
    method ExecuteJumpIfNegative(destination: Key) returns (r: Outcome<ExecError>)
      requires Running()
      modifies this, memory
      ensures Kept()
      ensures match Step(Instruction.JumpIfNegative(destination), old(Snapshot()))
        case Ok(t) => r == Pass && Running() && Snapshot() == t
        case Err(e) => r == Fail(e) && pc == old(pc) && steps == old(steps) && Snapshot() == old(Snapshot())
    {
      if acc.None? {
        return Fail(AccumulatorIsEmpty);
      }
      if acc.value.Char? {
        return Fail(TypeFault);
      }
      if acc.value.i < 0 {
        var step := LookupDestination(Snapshot(), destination);
        if step.Err? {
          return Fail(step.error);
        }
        pc := Some(step.value);
      } else {
        pc := Some(pc.value + 1);
      }
      steps := Some(steps.value + 1);
      return Pass;
    }

    /**
     * `self.program[self.program_counter].execute(self)`: the instruction's
     * effect on the registers, the boxes and the memory, exactly as `Step`
     * describes it; an instruction that raises changes nothing.
     */
    method Execute() returns (r: Outcome<ExecError>)
      requires Running() && 0 <= pc.value < |program.value|
      modifies this, memory
      ensures Kept()
      ensures match Step(old(program.value[pc.value]), old(Snapshot()))
        case Ok(t) => r == Pass && Running() && Snapshot() == t
        case Err(e) => r == Fail(e) && pc == old(pc) && steps == old(steps) && Snapshot() == old(Snapshot())
    {
      match program.value[pc.value]
      case NoOp => r := ExecuteNoOp();
      case MoveFromInbox => r := ExecuteMoveFromInbox();
      case MoveToOutbox => r := ExecuteMoveToOutbox();
      case CopyFrom(tile, indirect) => r := ExecuteCopyFrom(tile, indirect);
      case CopyTo(tile, indirect) => r := ExecuteCopyTo(tile, indirect);
      case Add(tile, indirect) => r := ExecuteAdd(tile, indirect);
      case Subtract(tile, indirect) => r := ExecuteSubtract(tile, indirect);
      case BumpUp(tile, indirect) => r := ExecuteBumpUp(tile, indirect);
      case BumpDown(tile, indirect) => r := ExecuteBumpDown(tile, indirect);
      case Jump(destination) => r := ExecuteJump(destination);
      case JumpIfZero(destination) => r := ExecuteJumpIfZero(destination);
      case JumpIfNegative(destination) => r := ExecuteJumpIfNegative(destination);
    }

    /** One turn of `run`'s loop, seen from the run as a whole: what is left of it after the instruction at the counter. */
    method Turn(ghost here: State, ghost budget: nat) returns (r: Outcome<ExecError>, ghost next: State)
      requires Running() && here == Snapshot() && 0 <= here.pc < |here.program| && budget > 0
      modifies this, memory
      ensures Kept() && Running() && next == Snapshot() && next.pc >= 0
      ensures r.Pass? ==> Exec(here, budget) == Exec(next, budget - 1)
      ensures r.Fail? ==> next == here
      ensures r == Fail(InboxIsEmpty) ==> Exec(here, budget) == Finished(here)
      ensures r.Fail? && r.error != InboxIsEmpty ==> Exec(here, budget) == Crashed(r.error, here)
    {
      ExecOnce(here, budget);
      r := Execute();
      next := Snapshot();
    }

    /**
     * `run()`'s `while` loop from where the computer stands, executing at most
     * `fuel` instructions: an empty inbox is the normal end and then clears
     * the counter; any other exception escapes with the counter left at the
     * failing step.
     */
    method Loop(ghost start: State, fuel: nat) returns (r: RunEnd)
      requires Running() && start == Snapshot() && start.pc >= 0
      modifies this, memory
      ensures Kept()
      ensures match Exec(start, fuel)
        case Finished(t) => r == Done && pc.None? && steps == Some(t.steps) && Machine(t.pc, t.steps) == t
        case Crashed(e, t) => r == Raised(e) && Running() && Snapshot() == t
        case OutOfFuel(t) => r == Stopped && Running() && Snapshot() == t
    {
      ghost var here := start;
      ghost var final := Exec(start, fuel);
      var budget := fuel;
      var outcome := Pass;
      while outcome.Pass? && budget > 0 && pc.value < |program.value|
        invariant Running() && here == Snapshot() && here.pc >= 0
        invariant memory == old(memory) && program == old(program) && jumpTable == old(jumpTable)
        invariant programPath == old(programPath)
        invariant outcome.Pass? ==> Exec(here, budget) == final
        invariant outcome == Fail(InboxIsEmpty) ==> final == Finished(here)
        invariant outcome.Fail? && outcome.error != InboxIsEmpty ==> final == Crashed(outcome.error, here)
        decreases budget
      {
        outcome, here := Turn(here, budget);
        budget := budget - 1;
      }
      if outcome.Pass? {
        ExecStops(here, budget);
      }
      if outcome.Fail? && outcome.error != InboxIsEmpty {
        return Raised(outcome.error);
      }
      if outcome.Pass? && pc.value < |program.value| {
        assert final == OutOfFuel(here);
        return Stopped;
      }
      assert final == Finished(here);
      pc := None;
      return Done;
    }

    /**
     * `run()`: start at step 0 with no step counted and run the loop.  The
     * outbox and the memory are not reset; with no program loaded the first
     * fetch fails.
     */
    method Run(fuel: nat) returns (r: RunEnd)
      modifies this, memory
      ensures memory == old(memory) && program == old(program) && jumpTable == old(jumpTable)
      ensures programPath == old(programPath)
      ensures old(program).None? ==>
        r == Raised(TypeFault) && pc == Some(0) && steps == Some(0) && unchanged(memory)
        && acc == old(acc) && inbox == old(inbox) && outbox == old(outbox)
      ensures old(program).Some? ==>
        match Exec(Start(old(Machine(0, 0))), fuel)
        case Finished(t) => r == Done && pc.None? && steps == Some(t.steps) && Machine(t.pc, t.steps) == t
        case Crashed(e, t) => r == Raised(e) && pc.Some? && steps.Some? && Snapshot() == t
        case OutOfFuel(t) => r == Stopped && pc.Some? && steps.Some? && Snapshot() == t
    {
      pc := Some(0);
      steps := Some(0);
      if program.None? {
        return Raised(TypeFault);
      }
      r := Loop(Start(old(Machine(0, 0))), fuel);
    }
  }
}
