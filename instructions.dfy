/**
 * hrmulator/Instructions.py: the twelve instructions and what one `execute`
 * does to the computer.  The single step is stated here as a function from a
 * machine snapshot to the next snapshot or the exception raised; the computer
 * in module Computer carries it out in place and is proved against `Step`.
 */
module Instructions {
  import opened Wrappers
  import opened Memory
  import PyBuiltins
  import TypeTools

  datatype Instruction =
    | NoOp
    | MoveFromInbox
    | MoveToOutbox
    | CopyFrom(tile: Key, indirect: bool)
    | CopyTo(tile: Key, indirect: bool)
    | Add(tile: Key, indirect: bool)
    | Subtract(tile: Key, indirect: bool)
    | BumpUp(tile: Key, indirect: bool)
    | BumpDown(tile: Key, indirect: bool)
    | Jump(destination: Key)
    | JumpIfZero(destination: Key)
    | JumpIfNegative(destination: Key)
  {
    predicate IsJump() { Jump? || JumpIfZero? || JumpIfNegative? }
  }

  /** `INSTRUCTION_CATALOG` by the classes' `symbol`s, in catalog order. */
  const Catalog: seq<string> := [
    "no_op", "move_from_inbox", "move_to_outbox",
    "copy_from", "copy_to", "add", "subtract", "bump_up", "bump_down",
    "jump_to", "jump_if_zero_to", "jump_if_negative_to"]

  /** The position of an instruction's class in `INSTRUCTION_CATALOG`. */
  function Opcode(ins: Instruction): (k: nat)
    ensures k < |Catalog|
    ensures k < 3 <==> ins.NoOp? || ins.MoveFromInbox? || ins.MoveToOutbox?
    ensures k >= 9 <==> ins.IsJump()
  {
    match ins
    case NoOp => 0
    case MoveFromInbox => 1
    case MoveToOutbox => 2
    case CopyFrom(_, _) => 3
    case CopyTo(_, _) => 4
    case Add(_, _) => 5
    case Subtract(_, _) => 6
    case BumpUp(_, _) => 7
    case BumpDown(_, _) => 8
    case Jump(_) => 9
    case JumpIfZero(_) => 10
    case JumpIfNegative(_) => 11
  }

  /** The class variable `symbol` of an instruction's class. */
  function Symbol(ins: Instruction): string
  {
    Catalog[Opcode(ins)]
  }

  /** `has_argument` of the catalog's class number `k`: true for the tile instructions and the jumps. */
  predicate HasArgument(k: nat)
    requires k < |Catalog|
  {
    k >= 3
  }

  /** Instantiating a no-argument class: `class_()`. */
  function Nullary(k: nat): (ins: Instruction)
    requires k < |Catalog| && !HasArgument(k)
    ensures Opcode(ins) == k
  {
    if k == 0 then NoOp
    else if k == 1 then MoveFromInbox
    else MoveToOutbox
  }

  /**
   * Instantiating an argument-taking class: `class_(arg)`, or
   * `class_(arg, indirect=True)`, which Jump's `__init__` refuses with a TypeError (None here).
   */
  function WithArgument(k: nat, arg: Key, indirect: bool): (r: Option<Instruction>)
    requires k < |Catalog| && HasArgument(k)
    ensures r.None? <==> indirect && k >= 9
    ensures r.Some? ==> Opcode(r.value) == k
    ensures r.Some? && !r.value.IsJump() ==> r.value.tile == arg && r.value.indirect == indirect
    ensures r.Some? && r.value.IsJump() ==> r.value.destination == arg
  {
    if k == 3 then Some(CopyFrom(arg, indirect))
    else if k == 4 then Some(CopyTo(arg, indirect))
    else if k == 5 then Some(Add(arg, indirect))
    else if k == 6 then Some(Subtract(arg, indirect))
    else if k == 7 then Some(BumpUp(arg, indirect))
    else if k == 8 then Some(BumpDown(arg, indirect))
    else if indirect then None
    else if k == 9 then Some(Jump(arg))
    else if k == 10 then Some(JumpIfZero(arg))
    else Some(JumpIfNegative(arg))
  }

  /** The twelve symbols are distinct, so the assembler's symbol-to-class table loses no class. */
  lemma CatalogSymbolsDistinct()
    ensures |Catalog| == 12
    ensures forall i, j :: 0 <= i < j < |Catalog| ==> Catalog[i] != Catalog[j]
  {
  }

  /** Every instruction is rebuilt from its class number and argument, so symbols identify classes. */
  lemma SymbolIdentifiesClass(ins: Instruction)
    ensures !HasArgument(Opcode(ins)) ==> Nullary(Opcode(ins)) == ins
    ensures HasArgument(Opcode(ins)) && !ins.IsJump() ==> WithArgument(Opcode(ins), ins.tile, ins.indirect) == Some(ins)
    ensures ins.IsJump() ==> HasArgument(Opcode(ins)) && WithArgument(Opcode(ins), ins.destination, false) == Some(ins)
  {
  }

  /** What the instructions see of the computer while `run` drives them. */
  datatype State = State(
    pc: int,                          // program_counter
    steps: int,                         // total_steps_executed
    acc: Option<Value>,                 // accumulator
    inbox: Option<seq<Value>>,          // a deque read from its front, or None
    outbox: Option<seq<Value>>,         // a list appended to, or None
    tiles: map<int, Value>,             // memory.tiles
    labels: map<string, int>,           // memory.label_map
    program: seq<Instruction>,
    jumpTable: Option<map<string, int>>)

  datatype ExecError =
    | InboxIsEmpty
    | AccumulatorIsEmpty
    | IncompatibleTypes
    | NoSuchJumpDestination(destination: Key)
    | MemoryFault(error: MemError)   // what the memory raised
    | TypeFault                      // a Python TypeError or AttributeError

  /** A machine value as the Python object `is_char` inspects. */
  function AsPy(v: Value): PyBuiltins.PyValue
  {
    match v
    case Int(i) => PyBuiltins.PyInt(i)
    case Char(c) => PyBuiltins.PyStr([c])
  }

  /** `is_char` on a machine value picks out exactly the characters. */
  lemma IsCharOfValue(v: Value)
    ensures TypeTools.IsChar(AsPy(v)) <==> v.Char?
    ensures TypeTools.IsIntOrChar(AsPy(v))
  {
  }

  /** `_assertAccumulatorIsNotEmpty`, giving the accumulator's value. */
  function Accumulator(s: State): (r: Result<Value, ExecError>)
    ensures r.Ok? <==> s.acc.Some?
    ensures r.Ok? ==> r.value == s.acc.value
    ensures r.Err? ==> r.error == AccumulatorIsEmpty
  {
    if s.acc.None? then Err(AccumulatorIsEmpty) else Ok(s.acc.value)
  }

  /** `memory.get(tile, indirect=...)` on the state's memory. */
  function Read(s: State, tile: Key, indirect: bool): Result<Value, ExecError>
  {
    match Get(s.tiles, s.labels, tile, indirect)
    case Ok(v) => Ok(v)
    case Err(e) => Err(MemoryFault(e))
  }

  /** The tiles after `memory.set(tile, v, indirect=...)`. */
  function Write(s: State, tile: Key, v: Value, indirect: bool): Result<map<int, Value>, ExecError>
  {
    match SetTarget(s.tiles, s.labels, tile, indirect)
    case Ok(index) => Ok(s.tiles[index := v])
    case Err(e) => Err(MemoryFault(e))
  }

  /** `_lookup_destination`: a label goes through the jump table, and the step must lie inside the program. */
  function LookupDestination(s: State, destination: Key): (r: Result<int, ExecError>)
    ensures r.Ok? ==> 0 <= r.value < |s.program|
  {
    var found: Result<Key, ExecError> :=
      if s.jumpTable.None? then Err(TypeFault)
      else if destination.Name? && destination.name in s.jumpTable.value then Ok(Index(s.jumpTable.value[destination.name]))
      else Ok(destination);
    match found
    case Err(e) => Err(e)
    case Ok(Name(n)) => Err(NoSuchJumpDestination(Name(n)))
    case Ok(Index(step)) =>
      if 0 <= step < |s.program| then Ok(step) else Err(NoSuchJumpDestination(Index(step)))
  }

  /** The bookkeeping every non-jump does last: the next step, one more step counted. */
  function Advance(s: State): State
  {
    s.(pc := s.pc + 1, steps := s.steps + 1)
  }

  /** `bump_up` (by +1) and `bump_down` (by -1): read, refuse a letter, write back along the same path. */
  function Bump(s: State, tile: Key, indirect: bool, delta: int): Result<State, ExecError>
  {
    var v :- Read(s, tile, indirect);
    if v.Char? then Err(IncompatibleTypes)
    else
      var bumped := Int(v.i + delta);
      var tiles :- Write(s, tile, bumped, indirect);
      Ok(Advance(s.(tiles := tiles, acc := Some(bumped))))
  }

  /** A conditional jump that is taken looks the destination up; one that is not goes on to the next step. */
  function Branch(s: State, taken: bool, destination: Key): Result<State, ExecError>
  {
    if taken then
      var step :- LookupDestination(s, destination);
      Ok(s.(pc := step, steps := s.steps + 1))
    else
      Ok(Advance(s))
  }

  /** One `execute`: the next state, or the exception it raises. */
  function Step(ins: Instruction, s: State): Result<State, ExecError>
  {
    match ins
    case NoOp => Ok(Advance(s))
    case MoveFromInbox =>
      if s.inbox.None? || s.inbox.value == [] then Err(InboxIsEmpty)
      else Ok(Advance(s.(acc := Some(s.inbox.value[0]), inbox := Some(s.inbox.value[1..]))))
    case MoveToOutbox =>
      var a :- Accumulator(s);
      if s.outbox.None? then Err(TypeFault)
      else Ok(Advance(s.(outbox := Some(s.outbox.value + [a]), acc := None)))
    case CopyFrom(tile, indirect) =>
      var v :- Read(s, tile, indirect);
      Ok(Advance(s.(acc := Some(v))))
    case CopyTo(tile, indirect) =>
      var a :- Accumulator(s);
      var tiles :- Write(s, tile, a, indirect);
      Ok(Advance(s.(tiles := tiles)))
    case Add(tile, indirect) =>
      var a :- Accumulator(s);
      var v :- Read(s, tile, indirect);
      if v.Char? || a.Char? then Err(IncompatibleTypes)
      else Ok(Advance(s.(acc := Some(Int(a.i + v.i)))))
    case Subtract(tile, indirect) =>
      var a :- Accumulator(s);
      var v :- Read(s, tile, indirect);
      if v.Char? != a.Char? then Err(IncompatibleTypes)
      else if v.Char? then Ok(Advance(s.(acc := Some(Int(a.c as int - v.c as int)))))
      else Ok(Advance(s.(acc := Some(Int(a.i - v.i)))))
    case BumpUp(tile, indirect) => Bump(s, tile, indirect, 1)
    case BumpDown(tile, indirect) => Bump(s, tile, indirect, -1)
    case Jump(destination) =>
      var step :- LookupDestination(s, destination);
      Ok(s.(pc := step, steps := s.steps + 1))
    case JumpIfZero(destination) =>
      var a :- Accumulator(s);
      Branch(s, a == Int(0), destination)
    case JumpIfNegative(destination) =>
      var a :- Accumulator(s);
      if a.Char? then Err(TypeFault) else Branch(s, a.i < 0, destination)
  }

  /**
   * Each successful step counts exactly one step and leaves the program, the
   * jump table and the labels alone; a non-jump moves to the next step, a jump
   * lands inside the program.
   */
  lemma StepBookkeeping(ins: Instruction, s: State)
    requires Step(ins, s).Ok?
    ensures var t := Step(ins, s).value;
      && t.steps == s.steps + 1
      && t.program == s.program && t.jumpTable == s.jumpTable && t.labels == s.labels
      && (!ins.IsJump() ==> t.pc == s.pc + 1)
      && (ins.IsJump() ==> t.pc == s.pc + 1 || 0 <= t.pc < |s.program|)
  {
  }

  /** Only a jump moves anywhere but one step on, so `run`'s counter never goes below zero. */
  lemma StepKeepsPcNonNegative(ins: Instruction, s: State)
    requires s.pc >= 0 && Step(ins, s).Ok?
    ensures Step(ins, s).value.pc >= 0
  {
    StepBookkeeping(ins, s);
  }

  /** `move_from_inbox`: FIFO; an absent or empty inbox is the InboxIsEmptyError that ends a run. */
  lemma MoveFromInboxTakesFront(s: State)
    ensures Step(MoveFromInbox, s).Err? <==> s.inbox.None? || s.inbox.value == []
    ensures Step(MoveFromInbox, s).Err? ==> Step(MoveFromInbox, s).error == InboxIsEmpty
    ensures Step(MoveFromInbox, s).Ok? ==>
      var t := Step(MoveFromInbox, s).value;
      && [t.acc.value] + t.inbox.value == s.inbox.value
      && t.outbox == s.outbox && t.tiles == s.tiles
  {
  }

  /** Only `move_from_inbox` raises InboxIsEmptyError, and only when there is nothing to read. */
  lemma OnlyInboxReadEndsRun(ins: Instruction, s: State)
    ensures Step(ins, s) == Err(InboxIsEmpty) <==>
      ins == MoveFromInbox && (s.inbox.None? || s.inbox.value == [])
  {
    match ins
    case MoveFromInbox =>
    case CopyFrom(tile, indirect) =>
    case CopyTo(tile, indirect) =>
    case Add(tile, indirect) =>
    case Subtract(tile, indirect) =>
    case BumpUp(tile, indirect) =>
    case BumpDown(tile, indirect) =>
    case Jump(destination) =>
    case JumpIfZero(destination) =>
    case JumpIfNegative(destination) =>
    case NoOp =>
    case MoveToOutbox =>
  }

  /** `move_to_outbox`: the accumulator goes to the end of the outbox and the accumulator is emptied. */
  lemma MoveToOutboxAppends(s: State)
    ensures s.acc.None? ==> Step(MoveToOutbox, s) == Err(AccumulatorIsEmpty)
    ensures s.acc.Some? && s.outbox.None? ==> Step(MoveToOutbox, s) == Err(TypeFault)
    ensures Step(MoveToOutbox, s).Ok? <==> s.acc.Some? && s.outbox.Some?
    ensures Step(MoveToOutbox, s).Ok? ==>
      var t := Step(MoveToOutbox, s).value;
      && t.outbox.value == s.outbox.value + [s.acc.value]
      && t.acc.None? && t.inbox == s.inbox && t.tiles == s.tiles
  {
  }

  /** `copy_from` puts what the memory read gives into the accumulator and writes nothing. */
  lemma CopyFromReads(s: State, tile: Key, indirect: bool)
    ensures Step(CopyFrom(tile, indirect), s).Ok? <==> Get(s.tiles, s.labels, tile, indirect).Ok?
    ensures Step(CopyFrom(tile, indirect), s).Ok? ==>
      var t := Step(CopyFrom(tile, indirect), s).value;
      t.acc == Some(Get(s.tiles, s.labels, tile, indirect).value) && t.tiles == s.tiles
    ensures Get(s.tiles, s.labels, tile, indirect).Err? ==>
      Step(CopyFrom(tile, indirect), s) == Err(MemoryFault(Get(s.tiles, s.labels, tile, indirect).error))
  {
  }

  /** `copy_to` needs an accumulator, which it keeps; after a direct store the tile reads back as the accumulator. */
  lemma CopyToStores(s: State, tile: Key, indirect: bool)
    ensures s.acc.None? ==> Step(CopyTo(tile, indirect), s) == Err(AccumulatorIsEmpty)
    ensures Step(CopyTo(tile, indirect), s).Ok? <==> s.acc.Some? && SetTarget(s.tiles, s.labels, tile, indirect).Ok?
    ensures Step(CopyTo(tile, indirect), s).Ok? ==>
      var t := Step(CopyTo(tile, indirect), s).value;
      && t.acc == s.acc
      && t.tiles == s.tiles[SetTarget(s.tiles, s.labels, tile, indirect).value := s.acc.value]
      && (!indirect ==> GetItem(t.tiles, s.labels, tile) == Ok(s.acc.value))
  {
  }

  /** `add`: both operands must be numbers, and the accumulator becomes their sum. */
  lemma AddSums(s: State, tile: Key, indirect: bool)
    ensures Step(Add(tile, indirect), s).Ok? <==>
      && s.acc.Some? && s.acc.value.Int?
      && Get(s.tiles, s.labels, tile, indirect).Ok? && Get(s.tiles, s.labels, tile, indirect).value.Int?
    ensures Step(Add(tile, indirect), s).Ok? ==>
      Step(Add(tile, indirect), s).value.acc == Some(Int(s.acc.value.i + Get(s.tiles, s.labels, tile, indirect).value.i))
    ensures s.acc.Some? && Get(s.tiles, s.labels, tile, indirect).Ok? ==>
      (s.acc.value.Char? || Get(s.tiles, s.labels, tile, indirect).value.Char? ==>
        Step(Add(tile, indirect), s) == Err(IncompatibleTypes))
  {
  }

  /** `subtract`: operands of the same kind; two letters give the difference of their code points. */
  lemma SubtractDifferences(s: State, tile: Key, indirect: bool)
    requires s.acc.Some? && Get(s.tiles, s.labels, tile, indirect).Ok?
    ensures var a, v := s.acc.value, Get(s.tiles, s.labels, tile, indirect).value;
      && (Step(Subtract(tile, indirect), s).Ok? <==> a.Char? == v.Char?)
      && (a.Int? && v.Int? ==> Step(Subtract(tile, indirect), s).value.acc == Some(Int(a.i - v.i)))
      && (a.Char? && v.Char? ==> Step(Subtract(tile, indirect), s).value.acc == Some(Int(a.c as int - v.c as int)))
  {
  }

  /** The write-back of a bump cannot fail once the read succeeded: `set` reaches the very tile `get` read. */
  lemma WriteBackReachesReadTile(tiles: map<int, Value>, labels: map<string, int>, tile: Key, indirect: bool)
    requires Get(tiles, labels, tile, indirect).Ok?
    ensures SetTarget(tiles, labels, tile, indirect).Ok?
    ensures SetTarget(tiles, labels, tile, indirect).value in tiles
    ensures tiles[SetTarget(tiles, labels, tile, indirect).value] == Get(tiles, labels, tile, indirect).value
  {
    var index := ResolveKey(labels, tile).value;
    assert GetItem(tiles, labels, Index(index)) == GetItem(tiles, labels, tile);
  }

  /**
   * `bump_up`/`bump_down`: a numeric tile is changed by one on the tile the
   * read reached, and the accumulator holds the new value; a letter is refused.
   */
  lemma BumpWritesBack(s: State, tile: Key, indirect: bool, up: bool)
    requires Get(s.tiles, s.labels, tile, indirect).Ok?
    ensures var ins := if up then BumpUp(tile, indirect) else BumpDown(tile, indirect);
      var v := Get(s.tiles, s.labels, tile, indirect).value;
      && (Step(ins, s).Ok? <==> v.Int?)
      && (v.Char? ==> Step(ins, s) == Err(IncompatibleTypes))
      && (v.Int? ==>
            var t := Step(ins, s).value;
            var target := SetTarget(s.tiles, s.labels, tile, indirect).value;
            var bumped := Int(v.i + if up then 1 else -1);
            && s.tiles[target] == v
            && t.tiles == s.tiles[target := bumped]
            && t.acc == Some(bumped)
            && (!indirect ==> GetItem(t.tiles, s.labels, tile) == Ok(bumped)))
  {
    WriteBackReachesReadTile(s.tiles, s.labels, tile, indirect);
  }

  /**
   * `_lookup_destination`: a label is looked up in the jump table at execute
   * time; an unknown label, or a step outside the program, is a
   * NoSuchJumpDestinationError naming what was looked for.
   */
  lemma LookupDestinationCases(s: State, destination: Key)
    requires s.jumpTable.Some?
    ensures destination.Name? && destination.name !in s.jumpTable.value ==>
      LookupDestination(s, destination) == Err(NoSuchJumpDestination(destination))
    ensures destination.Name? && destination.name in s.jumpTable.value ==>
      var step := s.jumpTable.value[destination.name];
      LookupDestination(s, destination) ==
        if 0 <= step < |s.program| then Ok(step) else Err(NoSuchJumpDestination(Index(step)))
    ensures destination.Index? ==>
      LookupDestination(s, destination) ==
        if 0 <= destination.i < |s.program| then Ok(destination.i) else Err(NoSuchJumpDestination(destination))
  {
  }

  /**
   * The conditional jumps need an accumulator; they look the destination up
   * only when taken (zero / negative), so a bad destination is harmless otherwise.
   */
  lemma ConditionalJumps(s: State, destination: Key)
    ensures s.acc.None? ==> Step(JumpIfZero(destination), s) == Err(AccumulatorIsEmpty)
    ensures s.acc.None? ==> Step(JumpIfNegative(destination), s) == Err(AccumulatorIsEmpty)
    ensures s.acc.Some? && s.acc.value != Int(0) ==> Step(JumpIfZero(destination), s) == Ok(Advance(s))
    ensures s.acc == Some(Int(0)) ==>
      Step(JumpIfZero(destination), s) == Step(Jump(destination), s)
    ensures s.acc.Some? && s.acc.value.Char? ==> Step(JumpIfNegative(destination), s) == Err(TypeFault)
    ensures s.acc.Some? && s.acc.value.Int? && s.acc.value.i >= 0 ==>
      Step(JumpIfNegative(destination), s) == Ok(Advance(s))
    ensures s.acc.Some? && s.acc.value.Int? && s.acc.value.i < 0 ==>
      Step(JumpIfNegative(destination), s) == Step(Jump(destination), s)
  {
  }
}
