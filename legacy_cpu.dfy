/**
 * The first iteration of the machine, at the root of the repository: the
 * twelve instruction classes of CPUInstructions.py (copied, without the step
 * counter, in tomorrowCPU.py), the three `assert*` checks of the root
 * Computer.py, and the fetch-execute loop both root machines run.
 *
 * This iteration has no type checks: values are ints, the inbox is a list
 * read from its end (`list.pop()`), and jumps are not range-checked.
 */
module LegacyCpu {
  import opened Wrappers

  /**
   * A tile index or a jump destination as the root assembler builds it: an
   * int, or an upper-case name `int()` could not convert.  Tiles are keys of
   * the memory dict as they are, so `Num(3)` and `Word("A")` are two tiles.
   */
  datatype Arg = Num(n: int) | Word(w: string)

  datatype Instr =
    | NoOp
    | MoveFromInbox
    | MoveToOutbox
    | CopyTo(tile: Arg)
    | CopyFrom(tile: Arg)
    | Add(tile: Arg)
    | Subtract(tile: Arg)
    | Jump(dest: Arg)
    | JumpIfZero(dest: Arg)
    | JumpIfNegative(dest: Arg)
    | BumpUp(tile: Arg)
    | BumpDown(tile: Arg)
  {
    predicate IsJump() { Jump? || JumpIfZero? || JumpIfNegative? }

    /** The instructions that go through `assertMemoryTileIsNotEmpty`. */
    predicate ReadsTile() { CopyFrom? || Add? || Subtract? || BumpUp? || BumpDown? }

    /** The instructions that go through `assertAccumulatorIsNotEmpty`. */
    predicate NeedsAccumulator() { MoveToOutbox? || CopyTo? || JumpIfZero? || JumpIfNegative? }
  }

  /**
   * The three `ComputerError`s, Python's `TypeError` (`None + 1`, or a jump
   * to a name the assembler did not resolve) and the `IndexError` of
   * `program[pc]`.
   */
  datatype Fault = InboxIsEmpty | AccumulatorIsEmpty | MemoryTileIsEmpty | TypeFault | IndexFault

  /**
   * The fields an `execute` reads and writes.  The memory dict holds no
   * `None`: the only store, `copy_to`, checks the accumulator first.
   */
  datatype Core = Core(inbox: seq<int>, outbox: seq<int>, pc: int, acc: Option<int>, memory: map<Arg, int>)

  // ------------------------------------------------------------- the checks

  /** `assertInboxIsNotEmpty`. */
  function CheckInbox(inbox: seq<int>): (r: Outcome<Fault>)
    ensures r.Pass? <==> |inbox| > 0
    ensures r.Fail? ==> r.error == InboxIsEmpty
  {
    if |inbox| == 0 then Fail(InboxIsEmpty) else Pass
  }

  /** `assertAccumulatorIsNotEmpty`. */
  function CheckAccumulator(acc: Option<int>): (r: Outcome<Fault>)
    ensures r.Pass? <==> acc.Some?
    ensures r.Fail? ==> r.error == AccumulatorIsEmpty
  {
    if acc.None? then Fail(AccumulatorIsEmpty) else Pass
  }

  /** `assertMemoryTileIsNotEmpty`: a tile that is absent (or `None`) is empty. */
  function CheckTile(memory: map<Arg, int>, tile: Arg): (r: Outcome<Fault>)
    ensures r.Pass? <==> tile in memory
    ensures r.Fail? ==> r.error == MemoryTileIsEmpty
  {
    if tile !in memory then Fail(MemoryTileIsEmpty) else Pass
  }

  // ---------------------------------------------------------- one instruction

  /** Setting the program counter to a destination; an unresolved name is no int. */
  function Goto(dest: Arg, c: Core): Result<Core, Fault>
  {
    if dest.Num? then Ok(c.(pc := dest.n)) else Err(TypeFault)
  }

  /**
   * `execute` of each instruction class, without the step counter: the
   * checks first, then the update.  A failed check changes nothing.
   */
  function Perform(i: Instr, c: Core): (r: Result<Core, Fault>)
    ensures r.Ok? && !i.IsJump() ==> r.value.pc == c.pc + 1
    ensures r.Ok? && i.IsJump() ==> r.value.pc == c.pc + 1 || (i.dest.Num? && r.value.pc == i.dest.n)
    ensures r.Ok? && !i.MoveFromInbox? ==> r.value.inbox == c.inbox
    ensures r.Ok? && !i.MoveToOutbox? ==> r.value.outbox == c.outbox
    ensures r.Ok? && !(i.CopyTo? || i.BumpUp? || i.BumpDown?) ==> r.value.memory == c.memory
    ensures r.Err? ==> r.error != IndexFault
  {
    match i
    case NoOp => Ok(c.(pc := c.pc + 1))
    case MoveFromInbox =>
      if |c.inbox| == 0 then Err(InboxIsEmpty)
      else Ok(c.(inbox := c.inbox[..|c.inbox| - 1], acc := Some(c.inbox[|c.inbox| - 1]), pc := c.pc + 1))
    case MoveToOutbox =>
      if c.acc.None? then Err(AccumulatorIsEmpty)
      else Ok(c.(outbox := c.outbox + [c.acc.value], acc := None, pc := c.pc + 1))
    case CopyTo(t) =>
      if c.acc.None? then Err(AccumulatorIsEmpty)
      else Ok(c.(memory := c.memory[t := c.acc.value], pc := c.pc + 1))
    case CopyFrom(t) =>
      if t !in c.memory then Err(MemoryTileIsEmpty)
      else Ok(c.(acc := Some(c.memory[t]), pc := c.pc + 1))
    case Add(t) =>
      if t !in c.memory then Err(MemoryTileIsEmpty)
      else if c.acc.None? then Err(TypeFault)
      else Ok(c.(acc := Some(c.acc.value + c.memory[t]), pc := c.pc + 1))
    case Subtract(t) =>
      if t !in c.memory then Err(MemoryTileIsEmpty)
      else if c.acc.None? then Err(TypeFault)
      else Ok(c.(acc := Some(c.acc.value - c.memory[t]), pc := c.pc + 1))
    case Jump(d) => Goto(d, c)
    case JumpIfZero(d) =>
      if c.acc.None? then Err(AccumulatorIsEmpty)
      else if c.acc.value == 0 then Goto(d, c)
      else Ok(c.(pc := c.pc + 1))
    case JumpIfNegative(d) =>
      if c.acc.None? then Err(AccumulatorIsEmpty)
      else if c.acc.value < 0 then Goto(d, c)
      else Ok(c.(pc := c.pc + 1))
    case BumpUp(t) =>
      if t !in c.memory then Err(MemoryTileIsEmpty)
      else Ok(c.(memory := c.memory[t := c.memory[t] + 1], acc := Some(c.memory[t] + 1), pc := c.pc + 1))
    case BumpDown(t) =>
      if t !in c.memory then Err(MemoryTileIsEmpty)
      else Ok(c.(memory := c.memory[t := c.memory[t] - 1], acc := Some(c.memory[t] - 1), pc := c.pc + 1))
  }

  /**
   * Which check stops an instruction: the inbox only for `move_from_inbox`,
   * the accumulator for the four instructions that assert it, the tile for
   * the five that read one; past the checks, only `None` in arithmetic and a
   * taken jump to a name fail.
   */
  lemma PerformFaults(i: Instr, c: Core)
    ensures Perform(i, c) == Err(InboxIsEmpty) <==> i.MoveFromInbox? && c.inbox == []
    ensures Perform(i, c) == Err(AccumulatorIsEmpty) <==> i.NeedsAccumulator() && c.acc.None?
    ensures Perform(i, c) == Err(MemoryTileIsEmpty) <==> i.ReadsTile() && i.tile !in c.memory
    ensures Perform(i, c) == Err(TypeFault) <==>
      || ((i.Add? || i.Subtract?) && i.tile in c.memory && c.acc.None?)
      || (i.Jump? && i.dest.Word?)
      || (i.JumpIfZero? && c.acc == Some(0) && i.dest.Word?)
      || (i.JumpIfNegative? && c.acc.Some? && c.acc.value < 0 && i.dest.Word?)
  {
  }

  /** `move_from_inbox` takes the LAST element of the inbox into the accumulator. */
  lemma MoveFromInboxTakesLast(c: Core, rest: seq<int>, x: int)
    requires c.inbox == rest + [x]
    ensures Perform(MoveFromInbox, c) == Ok(c.(inbox := rest, acc := Some(x), pc := c.pc + 1))
  {
    assert c.inbox[..|c.inbox| - 1] == rest;
  }

  /** `bump_up`/`bump_down` move the tile by one and leave the accumulator equal to the new tile value. */
  lemma BumpKeepsAccumulatorEqualToTile(i: Instr, c: Core)
    requires (i.BumpUp? || i.BumpDown?) && Perform(i, c).Ok?
    ensures var d := Perform(i, c).value;
      && i.tile in c.memory && i.tile in d.memory
      && d.memory[i.tile] == c.memory[i.tile] + (if i.BumpUp? then 1 else -1)
      && d.acc == Some(d.memory[i.tile])
      && (forall t :: t != i.tile ==> (t in d.memory <==> t in c.memory))
      && (forall t :: t != i.tile && t in c.memory ==> d.memory[t] == c.memory[t])
  {
  }

  // ---------------------------------------------------------------- the loop

  /** `program[pc]` with Python's indexing: negative positions count from the end; anything else is an `IndexError`. */
  function Fetch(program: seq<Instr>, pc: int): (r: Option<Instr>)
    ensures r.Some? <==> -|program| <= pc < |program|
    ensures 0 <= pc < |program| ==> r == Some(program[pc])
  {
    if 0 <= pc < |program| then Some(program[pc])
    else if -|program| <= pc < 0 then Some(program[|program| + pc])
    else None
  }

  /** How a run of the loop ends: with the machine as it was then and the step count. */
  datatype Halt =
    | Finished(last: Core, steps: int)                // `pc < len(program)` no longer holds
    | Crashed(fault: Fault, last: Core, steps: int)   // an exception left the loop
    | OutOfFuel(last: Core, steps: int)               // the bound of the model was reached

  /**
   * `while pc < len(program): program[pc].execute(...)`, from machine `c`
   * having counted `steps` executes, for at most `fuel` executes.  Every
   * successful execute counts one step; an exception ends the loop with the
   * machine as the failed instruction found it.
   */
  function Exec(program: seq<Instr>, c: Core, steps: int, fuel: nat): (h: Halt)
    ensures steps <= h.steps <= steps + fuel
    decreases fuel, 1
  {
    if c.pc >= |program| then Finished(c, steps)
    else if c.pc < -|program| then Crashed(IndexFault, c, steps)
    else if fuel == 0 then OutOfFuel(c, steps)
    else Resume(program, c, Perform(Fetch(program, c.pc).value, c), steps, fuel)
  }

  /**
   * How a call of the run method ends for its caller: it returns, an
   * exception escapes it, or the bound of the model is reached first.
   */
  datatype RunEnd = Done | Raised(error: Fault) | Stopped

  /** What follows one execute: the next turn, or the exception leaving the loop. */
  function Resume(program: seq<Instr>, c: Core, outcome: Result<Core, Fault>, steps: int, fuel: nat): (h: Halt)
    requires fuel > 0
    ensures steps <= h.steps <= steps + fuel
    decreases fuel, 0
  {
    match outcome
    case Ok(d) => Exec(program, d, steps + 1, fuel - 1)
    case Err(e) => Crashed(e, c, steps)
  }

  /** A run with no turn left to take ends where it stands. */
  lemma ExecStops(program: seq<Instr>, c: Core, steps: int, fuel: nat)
    requires !(-|program| <= c.pc < |program| && fuel > 0)
    ensures Exec(program, c, steps, fuel) ==
      if c.pc >= |program| then Finished(c, steps)
      else if c.pc < -|program| then Crashed(IndexFault, c, steps)
      else OutOfFuel(c, steps)
  {
  }

  /** One turn of the loop: the fetched instruction's execute, then the rest of the run. */
  lemma ExecTurn(program: seq<Instr>, c: Core, steps: int, fuel: nat)
    requires -|program| <= c.pc < |program| && fuel > 0
    ensures Exec(program, c, steps, fuel) ==
      match Perform(Fetch(program, c.pc).value, c)
      case Ok(d) => Exec(program, d, steps + 1, fuel - 1)
      case Err(e) => Crashed(e, c, steps)
  {
  }

  /** A successful turn hands the rest of the run to the next machine. */
  lemma Continues(program: seq<Instr>, c: Core, d: Core, steps: int, fuel: nat)
    requires -|program| <= c.pc < |program| && fuel > 0
    requires Perform(Fetch(program, c.pc).value, c) == Ok(d)
    ensures Exec(program, c, steps, fuel) == Exec(program, d, steps + 1, fuel - 1)
  {
    ExecTurn(program, c, steps, fuel);
  }

  /** Every jump names a non-negative int, as the root assembler leaves them. */
  predicate ResolvedJumps(program: seq<Instr>)
  {
    forall k :: 0 <= k < |program| && program[k].IsJump() ==> program[k].dest.Num? && program[k].dest.n >= 0
  }

  /** On such a program, a successful execute from a fetched position leaves the counter non-negative. */
  lemma ResolvedStepStaysNonNegative(program: seq<Instr>, c: Core, d: Core)
    requires ResolvedJumps(program) && 0 <= c.pc < |program|
    requires Perform(program[c.pc], c) == Ok(d)
    ensures d.pc >= 0
  {
    var i := program[c.pc];
    if i.IsJump() {
      assert i.dest.Num? && i.dest.n >= 0;
    }
  }

  /**
   * A run of an assembled program from a non-negative counter never indexes
   * outside the program, and a `TypeError` can only come from arithmetic on
   * an empty accumulator.
   */
  lemma {:induction false} ResolvedRunsNeverMisfetch(program: seq<Instr>, c: Core, steps: int, fuel: nat)
    requires ResolvedJumps(program) && c.pc >= 0
    ensures var h := Exec(program, c, steps, fuel);
      && h.last.pc >= 0
      && (h.Crashed? ==> h.fault != IndexFault && h.last.pc < |program|)
      && (h.Crashed? && h.fault == TypeFault ==> h.last.acc.None? && (program[h.last.pc].Add? || program[h.last.pc].Subtract?))
    decreases fuel
  {
    if c.pc < |program| && fuel > 0 {
      var i := program[c.pc];
      ExecTurn(program, c, steps, fuel);
      match Perform(i, c)
      case Ok(d) =>
        ResolvedStepStaysNonNegative(program, c, d);
        ResolvedRunsNeverMisfetch(program, d, steps + 1, fuel - 1);
      case Err(e) =>
        PerformFaults(i, c);
        if i.IsJump() {
          assert i.dest.Num?;
        }
    } else {
      ExecStops(program, c, steps, fuel);
    }
  }

  /** More fuel does not change a run that ended before the fuel ran out. */
  lemma {:induction false} ExecMoreFuel(program: seq<Instr>, c: Core, steps: int, fuel: nat, more: nat)
    requires fuel <= more && !Exec(program, c, steps, fuel).OutOfFuel?
    ensures Exec(program, c, steps, more) == Exec(program, c, steps, fuel)
    decreases fuel
  {
    if -|program| <= c.pc < |program| {
      assert fuel > 0;
      ExecTurn(program, c, steps, fuel);
      ExecTurn(program, c, steps, more);
      match Perform(Fetch(program, c.pc).value, c)
      case Ok(d) => ExecMoreFuel(program, d, steps + 1, fuel - 1, more - 1);
      case Err(_) =>
    } else {
      ExecStops(program, c, steps, fuel);
      ExecStops(program, c, steps, more);
    }
  }

  // ------------------------------------------------------------- the echo

  /** The program of tomorrowCPU.py's `main`: read, write, jump back to the start. */
  const EchoProgram: seq<Instr> := [MoveFromInbox, MoveToOutbox, Jump(Num(0))]

  /** The reversal of a sequence. */
  function Reverse(xs: seq<int>): (r: seq<int>)
    ensures |r| == |xs|
  {
    if xs == [] then [] else [xs[|xs| - 1]] + Reverse(xs[..|xs| - 1])
  }

  lemma ReverseReverses(xs: seq<int>)
    ensures forall k :: 0 <= k < |xs| ==> Reverse(xs)[k] == xs[|xs| - 1 - k]
  {
    if xs != [] {
      ReverseReverses(xs[..|xs| - 1]);
    }
  }

  /** One round of the echo: the last inbox element goes to the outbox, three steps, back at the start. */
  lemma EchoRound(c: Core, rest: seq<int>, x: int, steps: int, fuel: nat)
    requires c.pc == 0 && c.inbox == rest + [x] && fuel >= 3
    ensures Exec(EchoProgram, c, steps, fuel) ==
      Exec(EchoProgram, c.(inbox := rest, outbox := c.outbox + [x], acc := None), steps + 3, fuel - 3)
  {
    var p := EchoProgram;
    var c1 := c.(inbox := rest, acc := Some(x), pc := 1);
    var c2 := c1.(outbox := c.outbox + [x], acc := None, pc := 2);
    var c3 := c2.(pc := 0);
    MoveFromInboxTakesLast(c, rest, x);
    Continues(p, c, c1, steps, fuel);
    Continues(p, c1, c2, steps + 1, fuel - 1);
    Continues(p, c2, c3, steps + 2, fuel - 2);
  }

  /**
   * The echo program copies the inbox to the outbox in reverse (the inbox is
   * read from its end), three steps per value, and ends by the empty-inbox
   * exception at the start of the program.
   */
  lemma {:induction false} EchoReversesInbox(c: Core, steps: int, fuel: nat)
    requires c.pc == 0 && fuel > 3 * |c.inbox|
    ensures Exec(EchoProgram, c, steps, fuel) ==
      Crashed(InboxIsEmpty,
              c.(inbox := [], outbox := c.outbox + Reverse(c.inbox), acc := if c.inbox == [] then c.acc else None),
              steps + 3 * |c.inbox|)
    decreases |c.inbox|
  {
    if c.inbox == [] {
      ExecTurn(EchoProgram, c, steps, fuel);
    } else {
      var rest, x := c.inbox[..|c.inbox| - 1], c.inbox[|c.inbox| - 1];
      assert c.inbox == rest + [x];
      EchoRound(c, rest, x, steps, fuel);
      var d := c.(inbox := rest, outbox := c.outbox + [x], acc := None);
      EchoReversesInbox(d, steps + 3, fuel - 3);
      assert d.outbox + Reverse(rest) == c.outbox + Reverse(c.inbox);
    }
  }
}
