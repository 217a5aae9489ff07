/**
 * The maximization room of hrmulator/tests/test_integration_003.py: read two
 * values into tiles A and B, output the larger, repeat until the inbox runs
 * dry.  `RoomAssembles` shows that the assembler turns the test's text into
 * `Room`; the room is then proved for every inbox of numbers with an even
 * count, and for the inbox of the test.
 */
module MaximizationRoom {
  import opened Wrappers
  import opened Memory
  import opened Instructions
  import opened Computer
  import A = Assembler
  import PyBuiltins

  /** The assembled program: `START` is step 0, `A_GREATER_THAN_B` step 8, `FINISH` step 9. */
  const Room: seq<Instruction> := [
    MoveFromInbox,
    CopyTo(Name("A"), false),
    MoveFromInbox,
    CopyTo(Name("B"), false),
    Subtract(Name("A"), false),
    JumpIfNegative(Name("A_GREATER_THAN_B")),
    CopyFrom(Name("B"), false),
    Jump(Name("FINISH")),
    CopyFrom(Name("A"), false),
    MoveToOutbox,
    Jump(Name("START"))
  ]

  const RoomJumps: map<string, int> := map["START" := 0, "A_GREATER_THAN_B" := 8, "FINISH" := 9]

  /** A line of the test's text holding an instruction word, indented by four spaces. */
  function Indented(word: string): string
  {
    "    " + word
  }

  /** An indented instruction word, a space and its argument. */
  function IndentedWith(word: string, arg: string): string
  {
    "    " + word + " " + arg
  }

  /** A label line: the name followed by a colon. */
  function Labelled(name: string): string
  {
    name + ":"
  }

  /** The lines of the test's `program_text`, from the empty one after the opening quotes to the empty one before the closing quotes. */
  const RoomLines: seq<string> := [
    "",
    Labelled("START"),
    Indented("move_from_inbox"),
    IndentedWith("copy_to", "A"),
    Indented("move_from_inbox"),
    IndentedWith("copy_to", "B"),
    IndentedWith("subtract", "A"),
    IndentedWith("jump_if_negative_to", "A_GREATER_THAN_B"),
    "",
    IndentedWith("copy_from", "B"),
    IndentedWith("jump_to", "FINISH"),
    "",
    Labelled("A_GREATER_THAN_B"),
    IndentedWith("copy_from", "A"),
    Labelled("FINISH"),
    Indented("move_to_outbox"),
    IndentedWith("jump_to", "START"),
    ""]

  /** `program_text` itself: those lines, each ended by a newline but the last. */
  const RoomText: string := A.JoinLines(RoomLines)

  /** What the assembler's loop makes of each line: a skip, a label, or the next instruction of `Room`. */
  const RoomEffects: seq<A.LineEffect> := [
    A.Skip,
    A.Mark("START"),
    A.Emit(Room[0]),
    A.Emit(Room[1]),
    A.Emit(Room[2]),
    A.Emit(Room[3]),
    A.Emit(Room[4]),
    A.Emit(Room[5]),
    A.Skip,
    A.Emit(Room[6]),
    A.Emit(Room[7]),
    A.Skip,
    A.Mark("A_GREATER_THAN_B"),
    A.Emit(Room[8]),
    A.Mark("FINISH"),
    A.Emit(Room[9]),
    A.Emit(Room[10]),
    A.Skip]

  /** `text.split("\n")` of the test's text gives its eighteen lines. */
  lemma RoomTextLines()
    ensures A.SplitLines(RoomText) == RoomLines
  {
    assert forall i :: 0 <= i < |RoomLines| ==> '\n' !in RoomLines[i];
    A.SplitJoinLines(RoomLines);
  }

  /** A label line records its name. */
  lemma LabelLine(lineNumber: nat, name: string)
    requires name != [] && A.AllWord(name)
    ensures A.ReadLine(lineNumber, Labelled(name)) == A.Mark(name)
  {
    A.ReadLabelLine(lineNumber, name);
  }

  /** An indented symbol without argument emits its class. */
  lemma BareLine(lineNumber: nat, k: nat)
    requires k < 3
    ensures A.ReadLine(lineNumber, Indented(Catalog[k])) == A.Emit(Nullary(k))
  {
    assert A.AllSpace("    ");
    A.ReadBareLine(lineNumber, "    ", k);
  }

  /** An indented symbol with a label argument emits its class on that name. */
  lemma LabelArgumentLine(lineNumber: nat, k: nat, a: string, ins: Instruction)
    requires 3 <= k < |Catalog| && a != [] && A.AllWord(a) && !PyBuiltins.IsDigitGroups(a)
    requires WithArgument(k, Name(a), false) == Some(ins)
    ensures A.ReadLine(lineNumber, IndentedWith(Catalog[k], a)) == A.Emit(ins)
  {
    assert A.AllSpace("    ");
    A.ReadArgumentLine(lineNumber, "    ", k, a);
    A.ArgumentKeyOfWord(a);
  }

  /** The one-letter tile names and the three jump labels are words that are not numbers. */
  lemma RoomNames(a: string)
    requires a in ["A", "B", "START", "FINISH", "A_GREATER_THAN_B"]
    ensures a != [] && A.AllWord(a) && !PyBuiltins.IsDigitGroups(a)
  {
    assert !PyBuiltins.IsDigit(a[0]);
  }

  /** Lines 1, 9, 12 and 18 are blank and skipped. */
  lemma RoomBlankLines(i: nat)
    requires i == 0 || i == 8 || i == 11 || i == 17
    ensures A.ReadLine(i + 1, RoomLines[i]) == RoomEffects[i]
  {
    assert RoomLines[i] == [];
    A.ReadBlankLine(i + 1);
  }

  /** Lines 2, 13 and 15 record `START`, `A_GREATER_THAN_B` and `FINISH`. */
  lemma RoomLabelLines(i: nat)
    requires i == 1 || i == 12 || i == 14
    ensures A.ReadLine(i + 1, RoomLines[i]) == RoomEffects[i]
  {
    var name := if i == 1 then "START" else if i == 12 then "A_GREATER_THAN_B" else "FINISH";
    RoomNames(name);
    assert RoomLines[i] == Labelled(name) && RoomEffects[i] == A.Mark(name);
    LabelLine(i + 1, name);
  }

  /** Lines 3, 5 and 16 emit the two `move_from_inbox` and the `move_to_outbox` of `Room`. */
  lemma RoomBareLines(i: nat)
    requires i == 2 || i == 4 || i == 15
    ensures A.ReadLine(i + 1, RoomLines[i]) == RoomEffects[i]
  {
    var k := if i == 15 then 2 else 1;
    var j := if i == 2 then 0 else if i == 4 then 2 else 9;
    assert RoomLines[i] == Indented(Catalog[k]) && RoomEffects[i] == A.Emit(Room[j]) && Room[j] == Nullary(k);
    BareLine(i + 1, k);
  }

  /** The eight lines with an argument emit the instruction of `Room` on that tile or label name. */
  lemma RoomArgumentLines(i: nat)
    requires i == 3 || i == 5 || i == 6 || i == 7 || i == 9 || i == 10 || i == 13 || i == 16
    ensures A.ReadLine(i + 1, RoomLines[i]) == RoomEffects[i]
  {
    var k := if i == 3 || i == 5 then 4 else if i == 6 then 6 else if i == 7 then 11 else if i == 9 || i == 13 then 3 else 9;
    var a := if i == 3 || i == 6 || i == 13 then "A" else if i == 5 || i == 9 then "B"
             else if i == 7 then "A_GREATER_THAN_B" else if i == 10 then "FINISH" else "START";
    var j := if i == 3 then 1 else if i == 5 then 3 else if i == 6 then 4 else if i == 7 then 5
             else if i == 9 then 6 else if i == 10 then 7 else if i == 13 then 8 else 10;
    RoomNames(a);
    assert RoomLines[i] == IndentedWith(Catalog[k], a) && RoomEffects[i] == A.Emit(Room[j]);
    LabelArgumentLine(i + 1, k, a, Room[j]);
  }

  /** The loop reads the eighteen lines as `RoomEffects`. */
  lemma RoomEffectsRead()
    ensures A.Effects(RoomLines) == RoomEffects
  {
    var es := A.Effects(RoomLines);
    forall i | i == 0 || i == 8 || i == 11 || i == 17 ensures es[i] == RoomEffects[i] {
      RoomBlankLines(i);
    }
    forall i | i == 1 || i == 12 || i == 14 ensures es[i] == RoomEffects[i] {
      RoomLabelLines(i);
    }
    forall i | i == 2 || i == 4 || i == 15 ensures es[i] == RoomEffects[i] {
      RoomBareLines(i);
    }
    forall i | i == 3 || i == 5 || i == 6 || i == 7 || i == 9 || i == 10 || i == 13 || i == 16
      ensures es[i] == RoomEffects[i]
    {
      RoomArgumentLines(i);
    }
  }

  /** One more turn of the loop over the room's lines that appends the next instruction of `Room`. */
  lemma EmitTurn(es: seq<A.LineEffect>, i: nat, j: nat, table: map<string, int>)
    requires i < |es| && j < |Room| && es[i] == A.Emit(Room[j])
    requires A.Perform(es[..i]) == Ok(A.Assembly(Room[..j], table))
    ensures A.Perform(es[..i + 1]) == Ok(A.Assembly(Room[..j + 1], table))
  {
    A.PerformTurn(es, i, Room[..j], table);
    assert Room[..j] + [Room[j]] == Room[..j + 1];
  }

  /** One more turn that skips its line or records a label at the current step. */
  lemma MarkTurn(es: seq<A.LineEffect>, i: nat, j: nat, table: map<string, int>)
    requires i < |es| && j <= |Room| && (es[i].Skip? || es[i].Mark?)
    requires A.Perform(es[..i]) == Ok(A.Assembly(Room[..j], table))
    ensures A.Perform(es[..i + 1]) == Ok(A.Assembly(Room[..j], if es[i].Mark? then table[es[i].name := j] else table))
  {
    A.PerformTurn(es, i, Room[..j], table);
  }

  /** Two turns that each append the next instruction. */
  lemma EmitTwo(es: seq<A.LineEffect>, i: nat, j: nat, table: map<string, int>)
    requires i + 1 < |es| && j + 1 < |Room| && es[i] == A.Emit(Room[j]) && es[i + 1] == A.Emit(Room[j + 1])
    requires A.Perform(es[..i]) == Ok(A.Assembly(Room[..j], table))
    ensures A.Perform(es[..i + 2]) == Ok(A.Assembly(Room[..j + 2], table))
  {
    EmitTurn(es, i, j, table);
    EmitTurn(es, i + 1, j + 1, table);
  }

  /** Lines 1 to 4: `START` bound to step 0 and the first two instructions. */
  lemma RoomAssemblyA(es: seq<A.LineEffect>)
    requires es == RoomEffects
    ensures A.Perform(es[..4]) == Ok(A.Assembly(Room[..2], map["START" := 0]))
  {
    assert es[0] == A.Skip && es[1] == A.Mark("START") && es[2] == A.Emit(Room[0]) && es[3] == A.Emit(Room[1]);
    assert es[..0] == [] && Room[..0] == [];
    MarkTurn(es, 0, 0, map[]);
    MarkTurn(es, 1, 0, map[]);
    EmitTwo(es, 2, 0, map["START" := 0]);
  }

  /** Lines 5 to 8: the second read, the comparison and its jump. */
  lemma RoomAssemblyB(es: seq<A.LineEffect>)
    requires es == RoomEffects && A.Perform(es[..4]) == Ok(A.Assembly(Room[..2], map["START" := 0]))
    ensures A.Perform(es[..8]) == Ok(A.Assembly(Room[..6], map["START" := 0]))
  {
    assert es[4] == A.Emit(Room[2]) && es[5] == A.Emit(Room[3]) && es[6] == A.Emit(Room[4]) && es[7] == A.Emit(Room[5]);
    EmitTwo(es, 4, 2, map["START" := 0]);
    EmitTwo(es, 6, 4, map["START" := 0]);
  }

  /** Lines 9 to 13: a blank line, the fetch of B, its jump, a blank line, and `A_GREATER_THAN_B` bound to step 8. */
  lemma RoomAssemblyC(es: seq<A.LineEffect>)
    requires es == RoomEffects && A.Perform(es[..8]) == Ok(A.Assembly(Room[..6], map["START" := 0]))
    ensures A.Perform(es[..13]) == Ok(A.Assembly(Room[..8], map["START" := 0, "A_GREATER_THAN_B" := 8]))
  {
    assert es[8] == A.Skip && es[9] == A.Emit(Room[6]) && es[10] == A.Emit(Room[7]);
    assert es[11] == A.Skip && es[12] == A.Mark("A_GREATER_THAN_B");
    var t := map["START" := 0];
    MarkTurn(es, 8, 6, t);
    EmitTwo(es, 9, 6, t);
    MarkTurn(es, 11, 8, t);
    MarkTurn(es, 12, 8, t);
  }

  /** Lines 14 to 18: the fetch of A, `FINISH` bound to step 9, the output and the jump back. */
  lemma RoomAssemblyD(es: seq<A.LineEffect>)
    requires es == RoomEffects
    requires A.Perform(es[..13]) == Ok(A.Assembly(Room[..8], map["START" := 0, "A_GREATER_THAN_B" := 8]))
    ensures A.Perform(es) == Ok(A.Assembly(Room, RoomJumps))
  {
    assert es[13] == A.Emit(Room[8]) && es[14] == A.Mark("FINISH");
    assert es[15] == A.Emit(Room[9]) && es[16] == A.Emit(Room[10]) && es[17] == A.Skip;
    var t := map["START" := 0, "A_GREATER_THAN_B" := 8];
    EmitTurn(es, 13, 8, t);
    MarkTurn(es, 14, 9, t);
    assert t["FINISH" := 9] == RoomJumps;
    EmitTwo(es, 15, 9, RoomJumps);
    MarkTurn(es, 17, 11, RoomJumps);
    assert es[..18] == es && Room[..11] == Room;
  }

  /** `assemble_program_text` turns the test's text into `Room` with the jump table `RoomJumps`. */
  lemma RoomAssembles()
    ensures A.Assemble(A.SplitLines(RoomText)) == Ok(A.Assembly(Room, RoomJumps))
  {
    RoomTextLines();
    RoomLinesAssemble(A.SplitLines(RoomText));
  }

  /** The loop over the eighteen lines ends with `Room` and `RoomJumps`. */
  lemma RoomLinesAssemble(lines: seq<string>)
    requires lines == RoomLines
    ensures A.Assemble(lines) == Ok(A.Assembly(Room, RoomJumps))
  {
    RoomEffectsRead();
    RoomPerform(A.Effects(lines));
  }

  /** The turns of the loop over `RoomEffects` build `Room` and bind its three labels. */
  lemma RoomPerform(es: seq<A.LineEffect>)
    requires es == RoomEffects
    ensures A.Perform(es) == Ok(A.Assembly(Room, RoomJumps))
  {
    RoomAssemblyA(es);
    RoomAssemblyB(es);
    RoomAssemblyC(es);
    RoomAssemblyD(es);
  }

  /** `Memory(labels={"A": 0, "B": 1})`. */
  const RoomLabels: map<string, int> := map["A" := 0, "B" := 1]

  /** The machine at `START`, with the room loaded. */
  predicate AtStart(s: State)
  {
    s.pc == 0 && Loaded(s)
  }

  /** Every value is a number and they come in pairs. */
  predicate Pairs(xs: seq<Value>)
  {
    |xs| % 2 == 0 && forall i :: 0 <= i < |xs| ==> xs[i].Int?
  }

  /** The larger of each pair, in order. */
  function Maxima(xs: seq<Value>): seq<Value>
    requires Pairs(xs)
    decreases |xs|
  {
    if xs == [] then [] else [if xs[1].i < xs[0].i then xs[0] else xs[1]] + Maxima(xs[2..])
  }

  /** What remains after the first pair is still pairs of numbers. */
  lemma PairsTail(xs: seq<Value>)
    requires Pairs(xs) && xs != []
    ensures Pairs(xs[2..])
  {
    assert forall i :: 0 <= i < |xs| - 2 ==> xs[2..][i] == xs[i + 2];
  }

  /** The `k`-th value of `Maxima` comes from the `k`-th pair. */
  lemma {:induction false} MaximaAt(xs: seq<Value>, k: nat)
    requires Pairs(xs) && k < |xs| / 2
    ensures |Maxima(xs)| == |xs| / 2
    ensures var a, b := xs[2 * k], xs[2 * k + 1];
      Maxima(xs)[k] == if b.i < a.i then a else b
    decreases |xs|
  {
    PairsTail(xs);
    if k > 0 {
      MaximaAt(xs[2..], k - 1);
      assert xs[2..][2 * (k - 1)] == xs[2 * k] && xs[2..][2 * (k - 1) + 1] == xs[2 * k + 1];
    } else if |xs| > 2 {
      MaximaAt(xs[2..], 0);
    }
  }

  /** `Maxima` holds one value per pair: one of the pair, and no smaller than either. */
  lemma MaximaSpec(xs: seq<Value>)
    requires Pairs(xs)
    ensures var r := Maxima(xs);
      && |r| == |xs| / 2
      && (forall k :: 0 <= k < |r| ==> r[k].Int? && r[k].i >= xs[2 * k].i && r[k].i >= xs[2 * k + 1].i)
      && (forall k :: 0 <= k < |r| ==> r[k] == xs[2 * k] || r[k] == xs[2 * k + 1])
  {
    if xs == [] {
    } else {
      MaximaAt(xs, 0);
    }
    forall k | 0 <= k < |Maxima(xs)|
      ensures Maxima(xs)[k].Int? && Maxima(xs)[k].i >= xs[2 * k].i && Maxima(xs)[k].i >= xs[2 * k + 1].i
      ensures Maxima(xs)[k] == xs[2 * k] || Maxima(xs)[k] == xs[2 * k + 1]
    {
      MaximaAt(xs, k);
    }
  }

  /** Instructions one pair takes: nine when the first value is larger, ten otherwise. */
  function PairCost(a: int, b: int): nat
  {
    if b < a then 9 else 10
  }

  /** Instructions all pairs take. */
  function Cost(xs: seq<Value>): nat
    requires Pairs(xs)
    decreases |xs|
  {
    if xs == [] then 0 else PairCost(xs[0].i, xs[1].i) + Cost(xs[2..])
  }

  /** The state back at `START` after one pair: both tiles written, the larger value output. */
  function AfterPair(s: State, a: int, b: int, rest: seq<Value>): State
    requires s.outbox.Some?
  {
    s.(steps := s.steps + PairCost(a, b), acc := None, inbox := Some(rest),
       outbox := Some(s.outbox.value + [Int(if b < a then a else b)]),
       tiles := s.tiles[0 := Int(a)][1 := Int(b)])
  }

  /** The room loaded with its labels bound and both boxes present, at any step. */
  predicate Loaded(s: State)
  {
    && s.program == Room && s.inbox.Some? && s.outbox.Some?
    && s.jumpTable.Some? && "START" in s.jumpTable.value && s.jumpTable.value["START"] == 0
    && "A_GREATER_THAN_B" in s.jumpTable.value && s.jumpTable.value["A_GREATER_THAN_B"] == 8
    && "FINISH" in s.jumpTable.value && s.jumpTable.value["FINISH"] == 9
    && "A" in s.labels && s.labels["A"] == 0 && "B" in s.labels && s.labels["B"] == 1
  }

  /** Steps 0 and 1: the first value is read and stored in A. */
  lemma ReadFirst(s: State, a: int, rest: seq<Value>, n: nat, out: seq<Value>)
    requires Loaded(s) && s.pc == 0 && s.inbox.value == [Int(a)] + rest
    requires EndsWith(s.(pc := 2, steps := s.steps + 2, acc := Some(Int(a)), inbox := Some(rest), tiles := s.tiles[0 := Int(a)]), n, out)
    ensures EndsWith(s, n + 2, out)
  {
    var s1 := s.(pc := 1, steps := s.steps + 1, acc := Some(Int(a)), inbox := Some(rest));
    var s2 := s1.(pc := 2, steps := s.steps + 2, tiles := s.tiles[0 := Int(a)]);
    assert s.inbox.value[0] == Int(a) && s.inbox.value[1..] == rest;
    assert Step(Room[0], s) == Ok(s1);
    assert Step(Room[1], s1) == Ok(s2);
    EndsWithStep(s1, s2, n, out);
    EndsWithStep(s, s1, n + 1, out);
  }

  /** Steps 2 and 3: the second value is read and stored in B. */
  lemma ReadSecond(s: State, b: int, rest: seq<Value>, n: nat, out: seq<Value>)
    requires Loaded(s) && s.pc == 2 && s.inbox.value == [Int(b)] + rest
    requires EndsWith(s.(pc := 4, steps := s.steps + 2, acc := Some(Int(b)), inbox := Some(rest), tiles := s.tiles[1 := Int(b)]), n, out)
    ensures EndsWith(s, n + 2, out)
  {
    var s3 := s.(pc := 3, steps := s.steps + 1, acc := Some(Int(b)), inbox := Some(rest));
    var s4 := s3.(pc := 4, steps := s.steps + 2, tiles := s.tiles[1 := Int(b)]);
    assert s.inbox.value[0] == Int(b) && s.inbox.value[1..] == rest;
    assert Step(Room[2], s) == Ok(s3);
    assert Step(Room[3], s3) == Ok(s4);
    EndsWithStep(s3, s4, n, out);
    EndsWithStep(s, s3, n + 1, out);
  }

  /** Steps 4 and 5: `b - a` is compared with zero; a negative difference jumps to `A_GREATER_THAN_B`. */
  lemma Compare(s: State, a: int, b: int, n: nat, out: seq<Value>)
    requires Loaded(s) && s.pc == 4 && s.acc == Some(Int(b)) && 0 in s.tiles && s.tiles[0] == Int(a)
    requires EndsWith(s.(pc := if b < a then 8 else 6, steps := s.steps + 2, acc := Some(Int(b - a))), n, out)
    ensures EndsWith(s, n + 2, out)
  {
    var s5 := s.(pc := 5, steps := s.steps + 1, acc := Some(Int(b - a)));
    var s6 := s5.(pc := if b < a then 8 else 6, steps := s.steps + 2);
    assert Step(Room[4], s) == Ok(s5);
    assert Step(Room[5], s5) == Ok(s6);
    EndsWithStep(s5, s6, n, out);
    EndsWithStep(s, s5, n + 1, out);
  }

  /** Steps 6 and 7: B is fetched and the counter jumps to `FINISH`. */
  lemma FetchB(s: State, b: int, n: nat, out: seq<Value>)
    requires Loaded(s) && s.pc == 6 && 1 in s.tiles && s.tiles[1] == Int(b)
    requires EndsWith(s.(pc := 9, steps := s.steps + 2, acc := Some(Int(b))), n, out)
    ensures EndsWith(s, n + 2, out)
  {
    var s7 := s.(pc := 7, steps := s.steps + 1, acc := Some(Int(b)));
    var s9 := s7.(pc := 9, steps := s.steps + 2);
    assert Step(Room[6], s) == Ok(s7);
    assert Step(Room[7], s7) == Ok(s9);
    EndsWithStep(s7, s9, n, out);
    EndsWithStep(s, s7, n + 1, out);
  }

  /** Step 8: A is fetched. */
  lemma FetchA(s: State, a: int, n: nat, out: seq<Value>)
    requires Loaded(s) && s.pc == 8 && 0 in s.tiles && s.tiles[0] == Int(a)
    requires EndsWith(s.(pc := 9, steps := s.steps + 1, acc := Some(Int(a))), n, out)
    ensures EndsWith(s, n + 1, out)
  {
    var s9 := s.(pc := 9, steps := s.steps + 1, acc := Some(Int(a)));
    assert Step(Room[8], s) == Ok(s9);
    EndsWithStep(s, s9, n, out);
  }

  /** Steps 9 and 10: the accumulator goes to the outbox and the counter jumps back to `START`. */
  lemma OutputAndRepeat(s: State, m: Value, n: nat, out: seq<Value>)
    requires Loaded(s) && s.pc == 9 && s.acc == Some(m)
    requires EndsWith(s.(pc := 0, steps := s.steps + 2, acc := None, outbox := Some(s.outbox.value + [m])), n, out)
    ensures EndsWith(s, n + 2, out)
  {
    var s10 := s.(pc := 10, steps := s.steps + 1, acc := None, outbox := Some(s.outbox.value + [m]));
    var s0 := s10.(pc := 0, steps := s.steps + 2);
    assert Step(Room[9], s) == Ok(s10);
    assert Step(Room[10], s10) == Ok(s0);
    EndsWithStep(s10, s0, n, out);
    EndsWithStep(s, s10, n + 1, out);
  }

  /** Steps 4 to 10: the larger of A and B is output and the counter is back at `START`. */
  lemma OutputLarger(s: State, a: int, b: int, n: nat, out: seq<Value>)
    requires Loaded(s) && s.pc == 4 && s.acc == Some(Int(b))
    requires 0 in s.tiles && s.tiles[0] == Int(a) && 1 in s.tiles && s.tiles[1] == Int(b)
    requires EndsWith(s.(pc := 0, steps := s.steps + PairCost(a, b) - 4, acc := None,
                         outbox := Some(s.outbox.value + [Int(if b < a then a else b)])), n, out)
    ensures EndsWith(s, n + PairCost(a, b) - 4, out)
  {
    var m := Int(if b < a then a else b);
    var s6 := s.(pc := if b < a then 8 else 6, steps := s.steps + 2, acc := Some(Int(b - a)));
    var s9 := s6.(pc := 9, steps := s.steps + PairCost(a, b) - 6, acc := Some(m));
    OutputAndRepeat(s9, m, n, out);
    if b < a {
      FetchA(s6, a, n + 2, out);
    } else {
      FetchB(s6, b, n + 2, out);
    }
    Compare(s, a, b, n + PairCost(a, b) - 6, out);
  }

  /** The room loaded, after a pair, is back at `START`. */
  lemma BackAtStart(s: State, a: int, b: int, rest: seq<Value>)
    requires AtStart(s)
    ensures AtStart(AfterPair(s, a, b, rest))
  {
  }

  /** One pair: back at `START` with the larger value output and the pair's instructions counted. */
  lemma OnePair(s: State, a: int, b: int, rest: seq<Value>, n: nat, out: seq<Value>)
    requires AtStart(s) && s.inbox.value == [Int(a), Int(b)] + rest
    requires EndsWith(AfterPair(s, a, b, rest), n, out)
    ensures EndsWith(s, n + PairCost(a, b), out)
  {
    var s2 := s.(pc := 2, steps := s.steps + 2, acc := Some(Int(a)), inbox := Some([Int(b)] + rest), tiles := s.tiles[0 := Int(a)]);
    var s4 := s2.(pc := 4, steps := s.steps + 4, acc := Some(Int(b)), inbox := Some(rest), tiles := s.tiles[0 := Int(a)][1 := Int(b)]);
    assert AfterPair(s, a, b, rest) == s4.(pc := 0, steps := s4.steps + PairCost(a, b) - 4, acc := None,
                                           outbox := Some(s4.outbox.value + [Int(if b < a then a else b)]));
    OutputLarger(s4, a, b, n, out);
    ReadSecond(s2, b, rest, n + PairCost(a, b) - 4, out);
    assert s.inbox.value == [Int(a)] + ([Int(b)] + rest);
    ReadFirst(s, a, [Int(b)] + rest, n + PairCost(a, b) - 2, out);
  }

  /** At `START` with nothing left to read, the run ends normally where it stands. */
  lemma RoomEnds(s: State)
    requires AtStart(s) && s.inbox.value == []
    ensures EndsWith(s, 0, s.outbox.value)
  {
    forall fuel: nat | fuel > 0
      ensures Exec(s, fuel) == Finished(s)
    {
      ExecOnce(s, fuel);
      assert Step(Room[0], s) == Err(InboxIsEmpty);
    }
  }

  /**
   * The room outputs the larger value of each pair, in order, and ends
   * normally when the inbox runs dry, after exactly `Cost(xs)` instructions.
   */
  lemma {:induction false} RoomOutputsMaxima(s: State, xs: seq<Value>)
    requires AtStart(s) && s.inbox.value == xs && Pairs(xs)
    ensures EndsWith(s, Cost(xs), s.outbox.value + Maxima(xs))
    decreases |xs|
  {
    if xs == [] {
      RoomEnds(s);
      assert s.outbox.value + Maxima(xs) == s.outbox.value;
    } else {
      var a, b, rest := xs[0].i, xs[1].i, xs[2..];
      assert xs == [Int(a), Int(b)] + rest;
      PairsTail(xs);
      var t := AfterPair(s, a, b, rest);
      BackAtStart(s, a, b, rest);
      RoomOutputsMaxima(t, rest);
      assert t.outbox.value + Maxima(rest) == s.outbox.value + Maxima(xs);
      OnePair(s, a, b, rest, Cost(rest), s.outbox.value + Maxima(xs));
    }
  }

  /** The test's inbox. */
  const TestInbox: seq<Value> := [Int(3), Int(8), Int(-9), Int(-3), Int(2), Int(2), Int(4), Int(-9)]

  /**
   * The machine after the test's setup, with `outbox` as given: `Computer()`,
   * then `memory = Memory(labels={"A": 0, "B": 1})`, `set_inbox`, and
   * `load_program(program_text=...)`, whose assembly `RoomAssembles` computes.
   */
  function TestSetup(outbox: Option<seq<Value>>): State
  {
    State(0, 0, None, Some(TestInbox), outbox, map[], RoomLabels, Room, Some(RoomJumps))
  }

  /**
   * test_maximization_room, given the empty outbox list it expects to fill:
   * the program assembled from the test's text, run on the inbox
   * 3, 8, -9, -3, 2, 2, 4, -9, ends normally with the outbox 8, -3, 2, 4
   * after 39 counted steps, whatever the bound once it is at least 40.
   */
  lemma MaximizationRoomTest(fuel: nat)
    requires fuel >= 40
    ensures var r := A.Assemble(A.SplitLines(RoomText));
      && r.Ok?
      && var s := State(0, 0, None, Some(TestInbox), Some([]), map[], RoomLabels, r.value.program, Some(r.value.jumpTable));
      && var h := Exec(Start(s), fuel);
      && h.Finished? && h.last.outbox == Some([Int(8), Int(-3), Int(2), Int(4)]) && h.last.steps == 39
  {
    RoomAssembles();
    RoomRunsTestInbox(fuel);
  }

  /** The run of the test on the assembled room, with an empty outbox list. */
  lemma RoomRunsTestInbox(fuel: nat)
    requires fuel >= 40
    ensures var h := Exec(Start(TestSetup(Some([]))), fuel);
      h.Finished? && h.last.outbox == Some([Int(8), Int(-3), Int(2), Int(4)]) && h.last.steps == 39
  {
    var inbox := TestInbox;
    var s := TestSetup(Some([]));
    assert Start(s) == s;
    assert Pairs(inbox);
    assert Cost(inbox) == 39;
    assert Maxima(inbox[6..]) == [Int(4)];
    assert Maxima(inbox[4..]) == [Int(2), Int(4)];
    assert Maxima(inbox[2..]) == [Int(-3), Int(2), Int(4)];
    assert Maxima(inbox) == [Int(8), Int(-3), Int(2), Int(4)];
    RoomOutputsMaxima(s, inbox);
    assert s.outbox.value + Maxima(inbox) == [Int(8), Int(-3), Int(2), Int(4)];
  }

  /**
   * The test as written never sets `outbox`, which `Computer()` leaves `None`:
   * the first pair is read and compared, and the first `move_to_outbox`
   * (step 9, after eight counted instructions) raises instead of outputting 8.
   */
  lemma MaximizationRoomTestAsWritten(fuel: nat)
    requires fuel >= 9
    ensures var h := Exec(Start(TestSetup(None)), fuel);
      h.Crashed? && h.error == TypeFault && h.last.pc == 9 && h.last.steps == 8 && h.last.outbox.None?
  {
    var s0 := TestSetup(None);
    assert Start(s0) == s0;
    var s4 := s0.(pc := 4, steps := 4, acc := Some(Int(8)), inbox := Some(TestInbox[2..]),
                  tiles := map[0 := Int(3)][1 := Int(8)]);
    var s9 := s4.(pc := 9, steps := 8, acc := Some(Int(8)));
    AsWrittenReads(s0, fuel);
    AsWrittenCompares(s4, fuel - 4);
    assert Step(Room[9], s9) == Err(TypeFault);
    Raises(s9, fuel - 8);
  }

  /** Steps 0 to 3 of the test as written: 3 and 8 are read onto A and B. */
  lemma AsWrittenReads(s: State, fuel: nat)
    requires s == TestSetup(None) && fuel >= 4
    ensures Exec(s, fuel) == Exec(s.(pc := 4, steps := 4, acc := Some(Int(8)), inbox := Some(TestInbox[2..]),
                                     tiles := map[0 := Int(3)][1 := Int(8)]), fuel - 4)
  {
    var s2 := s.(pc := 2, steps := 2, acc := Some(Int(3)), inbox := Some(TestInbox[1..]), tiles := map[0 := Int(3)]);
    AsWrittenReadA(s, fuel);
    AsWrittenReadB(s2, fuel - 2);
    assert TestInbox[1..][1..] == TestInbox[2..];
  }

  /** Steps 0 and 1: the first value, 3, is read and stored on tile A. */
  lemma AsWrittenReadA(s: State, fuel: nat)
    requires s == TestSetup(None) && fuel >= 2
    ensures Exec(s, fuel) == Exec(s.(pc := 2, steps := 2, acc := Some(Int(3)), inbox := Some(TestInbox[1..]),
                                     tiles := map[0 := Int(3)]), fuel - 2)
  {
    var s1 := s.(pc := 1, steps := 1, acc := Some(Int(3)), inbox := Some(TestInbox[1..]));
    var s2 := s1.(pc := 2, steps := 2, tiles := map[0 := Int(3)]);
    RoomStep(s, s1, fuel);
    RoomStep(s1, s2, fuel - 1);
  }

  /** Steps 2 and 3: the next value, 8, is read and stored on tile B. */
  lemma AsWrittenReadB(s: State, fuel: nat)
    requires s.program == Room && s.pc == 2 && s.labels == RoomLabels && s.tiles == map[0 := Int(3)] && fuel >= 2
    requires s.inbox == Some(TestInbox[1..])
    ensures Exec(s, fuel) == Exec(s.(pc := 4, steps := s.steps + 2, acc := Some(Int(8)), inbox := Some(TestInbox[1..][1..]),
                                     tiles := map[0 := Int(3)][1 := Int(8)]), fuel - 2)
  {
    var s3 := s.(pc := 3, steps := s.steps + 1, acc := Some(Int(8)), inbox := Some(TestInbox[1..][1..]));
    var s4 := s3.(pc := 4, steps := s.steps + 2, tiles := map[0 := Int(3)][1 := Int(8)]);
    RoomStep(s, s3, fuel);
    RoomStep(s3, s4, fuel - 1);
  }

  /** Steps 4 to 7 of the test as written: 8 - 3 is not negative, so B is fetched and the run jumps to `FINISH`. */
  lemma AsWrittenCompares(s: State, fuel: nat)
    requires s.program == Room && s.pc == 4 && s.acc == Some(Int(8)) && fuel >= 4
    requires s.tiles == map[0 := Int(3)][1 := Int(8)] && s.labels == RoomLabels && s.jumpTable == Some(RoomJumps)
    ensures Exec(s, fuel) == Exec(s.(pc := 9, steps := s.steps + 4, acc := Some(Int(8))), fuel - 4)
  {
    var s5 := s.(pc := 5, steps := s.steps + 1, acc := Some(Int(5)));
    var s6 := s5.(pc := 6, steps := s.steps + 2);
    var s7 := s6.(pc := 7, steps := s.steps + 3, acc := Some(Int(8)));
    var s9 := s7.(pc := 9, steps := s.steps + 4);
    RoomStep(s, s5, fuel);
    RoomStep(s5, s6, fuel - 1);
    RoomStep(s6, s7, fuel - 2);
    RoomStep(s7, s9, fuel - 3);
  }

  /** One completed instruction of the room, as the run sees it. */
  lemma RoomStep(s: State, t: State, fuel: nat)
    requires s.program == Room && 0 <= s.pc < |Room| && Step(Room[s.pc], s) == Ok(t) && fuel > 0
    ensures Exec(s, fuel) == Exec(t, fuel - 1)
  {
    Continues(s, t, fuel);
  }
}
