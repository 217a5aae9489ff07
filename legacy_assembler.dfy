/**
 * The root Assembler.py: a first loop over the lines of a program file that
 * records labels and builds instructions, then a fix-up loop that binds each
 * symbolic jump to the step its label recorded.  The file is given as the
 * list of lines `for line in infile` yields, each with its line break.
 *
 * The symbol table is the twelve tokens of CPUInstructions.py, which are the
 * symbols of the package's catalog; lookup is by exact, case-sensitive match.
 */
module LegacyAssembler {
  import opened Wrappers
  import opened PyBuiltins
  import I = Instructions
  import A = Assembler
  import opened LegacyCpu

  /** The exceptions `assemble_program` lets escape. */
  datatype AsmError =
    | UnknownOpcode(op: string)    // the KeyError of `symbolCatalog[...]`
    | MissingArgument(op: string)  // the TypeError of `int(None)`
    | UnknownLabel(name: string)   // the ValueError of `int(target)` in the fix-up

  // --------------------------------------------------------------- patterns

  /** The three character classes of the patterns: `[A-Z_]`, `[a-zA-Z_]`, `[0-9]`. */
  datatype CharClass = Upper | Letter | Digit

  predicate InClass(k: CharClass, c: char)
  {
    match k
    case Upper => ('A' <= c <= 'Z') || c == '_'
    case Letter => ('A' <= c <= 'Z') || ('a' <= c <= 'z') || c == '_'
    case Digit => IsDigit(c)
  }

  /** The length of the longest prefix of `s` in class `k`: what a greedy `[...]+` takes. */
  function ClassRun(k: CharClass, s: string): (n: nat)
    ensures n <= |s|
    ensures n < |s| ==> !InClass(k, s[n])
  {
    if s == [] || !InClass(k, s[0]) then 0 else 1 + ClassRun(k, s[1..])
  }

  /** The run is made of characters of the class. */
  lemma {:induction false} ClassRunSpec(k: CharClass, s: string)
    ensures forall j :: 0 <= j < ClassRun(k, s) ==> InClass(k, s[j])
  {
    if s != [] && InClass(k, s[0]) {
      ClassRunSpec(k, s[1..]);
      forall j | 0 <= j < ClassRun(k, s)
        ensures InClass(k, s[j])
      {
        if j > 0 { assert s[j] == s[1..][j - 1]; }
      }
    }
  }

  /** A run of the class followed by a character outside it (or nothing) is the whole run. */
  lemma {:induction false} ClassRunOf(k: CharClass, w: string, rest: string)
    requires forall j :: 0 <= j < |w| ==> InClass(k, w[j])
    requires rest == [] || !InClass(k, rest[0])
    ensures ClassRun(k, w + rest) == |w|
  {
    if w != [] {
      assert (w + rest)[1..] == w[1..] + rest;
      ClassRunOf(k, w[1..], rest);
    }
  }

  /** How the loop reads one line: a label, a statement, or neither (skipped). */
  datatype Line = Other | Label(name: string) | Statement(op: string, arg: Option<string>)

  /**
   * `re.match(label_re, line)`, else `re.match(statement_re, line)`.  Both
   * only need a prefix of the line to match, and everything after the
   * statement's opcode is optional, so any line whose first non-space
   * character is a letter or `_` is a statement.
   */
  function Classify(line: string): Line
  {
    var u := ClassRun(Upper, line);
    if 0 < u < |line| && line[u] == ':' then Label(line[..u])
    else
      var rest := line[A.SpaceRun(line)..];
      var w := ClassRun(Letter, rest);
      if w == 0 then Other else Statement(rest[..w], Argument(rest[w..]))
  }

  /**
   * Group 2 of `statement_re`, from what follows the opcode: whitespace, an
   * optional `[`, then a run of digits or of `[A-Z_]`.  The brackets are
   * dropped, so they mean nothing.
   */
  function Argument(s: string): Option<string>
  {
    var j := A.SpaceRun(s);
    if j == 0 then None else Operand(s[j..])
  }

  /** The operand after the whitespace: an optional `[`, then the longest run of digits, else of `[A-Z_]`. */
  function Operand(t: string): Option<string>
  {
    var t := if t != [] && t[0] == '[' then t[1..] else t;
    var d := ClassRun(Digit, t);
    var u := ClassRun(Upper, t);
    if d > 0 then Some(t[..d])
    else if u > 0 then Some(t[..u])
    else None
  }

  // ---------------------------------------------------------- instructions

  /** `int(arg)` where it succeeds (a run of digits), else the name as written. */
  function ArgValue(a: string): (r: Arg)
    ensures r.Num? ==> r.n >= 0
    ensures r.Num? <==> a != [] && forall j :: 0 <= j < |a| ==> IsDigit(a[j])
    ensures r.Word? ==> r.w == a
    ensures r.Num? ==> ParseInt(a) == Some(r.n)
  {
    assert (forall j :: 0 <= j < |a| ==> IsDigit(a[j])) ==> ClassRun(Digit, a) == |a| by {
      if forall j :: 0 <= j < |a| ==> IsDigit(a[j]) {
        ClassRunOf(Digit, a, []);
        assert a + [] == a;
      }
    }
    if a != [] && ClassRun(Digit, a) == |a| then
      assert forall j :: 0 <= j < |a| ==> IsDigit(a[j]) by {
        ClassRunSpec(Digit, a);
      }
      DigitsParse(a);
      Num(DigitsValue(a))
    else Word(a)
  }

  /**
   * On what the statement pattern captures (a run of digits or of `[A-Z_]`),
   * `ArgValue` is the `try: int(arg) except ValueError: pass` of the loop:
   * the int `int()` reads, or the argument unchanged when it raises.
   */
  /** A run of digits is what `int()` reads it as. */
  lemma DigitsParse(a: string)
    requires a != [] && forall j :: 0 <= j < |a| ==> IsDigit(a[j])
    ensures ParseInt(a) == Some(DigitsValue(a))
  {
    StripUnchanged(a);
    assert IsDigitGroups(a);
  }

  lemma ArgValueIsIntOf(a: string)
    requires a != [] && ((forall j :: 0 <= j < |a| ==> IsDigit(a[j])) || (forall j :: 0 <= j < |a| ==> InClass(Upper, a[j])))
    ensures ArgValue(a) == match ParseInt(a) case Some(n) => Num(n) case None => Word(a)
  {
    assert !IsSpace(a[0]) && !IsSpace(a[|a| - 1]) by {
      assert IsDigit(a[0]) || InClass(Upper, a[0]);
      assert IsDigit(a[|a| - 1]) || InClass(Upper, a[|a| - 1]);
    }
    StripUnchanged(a);
    if forall j :: 0 <= j < |a| ==> IsDigit(a[j]) {
      assert IsDigitGroups(a);
    } else {
      assert !IsDigit(a[0]) by {
        assert InClass(Upper, a[0]);
      }
    }
  }

  /** The argument-taking class at catalog position `k`, built on its argument. */
  function WithArg(k: nat, a: Arg): (ins: Instr)
    requires 3 <= k < 12
    ensures ins.IsJump() <==> k >= 9
    ensures ins.IsJump() ==> ins.dest == a
    ensures !ins.IsJump() ==> !ins.NoOp? && !ins.MoveFromInbox? && !ins.MoveToOutbox? && ins.tile == a
  {
    if k == 3 then CopyFrom(a)
    else if k == 4 then CopyTo(a)
    else if k == 5 then Add(a)
    else if k == 6 then Subtract(a)
    else if k == 7 then BumpUp(a)
    else if k == 8 then BumpDown(a)
    else if k == 9 then Jump(a)
    else if k == 10 then JumpIfZero(a)
    else JumpIfNegative(a)
  }

  /** `klass = symbolCatalog[op]`, then `klass(int-if-possible(arg))` or `klass()`. */
  function Instantiate(op: string, arg: Option<string>): (r: Result<Instr, AsmError>)
    ensures r.Err? <==> op !in I.Catalog || (op in I.Catalog[3..] && arg.None?)
    ensures r.Ok? && r.value.IsJump() ==> arg.Some? && r.value.dest == ArgValue(arg.value)
  {
    match A.LookupSymbol(op, 0)
    case None => Err(UnknownOpcode(op))
    case Some(k) =>
      assert op in I.Catalog[3..] <==> k >= 3 by {
        I.CatalogSymbolsDistinct();
        if k >= 3 { assert I.Catalog[3..][k - 3] == op; }
      }
      if !I.HasArgument(k) then Ok(if k == 0 then NoOp else if k == 1 then MoveFromInbox else MoveToOutbox)
      else if arg.None? then Err(MissingArgument(op))
      else Ok(WithArg(k, ArgValue(arg.value)))
  }

  // ------------------------------------------------------------- first loop

  /** What the first loop has built: `program` and `jump_table` (`step` is the program's length). */
  datatype Pass1 = Pass1(program: seq<Instr>, jumpTable: map<string, int>)

  /** One turn of the first loop: a label records the current step, a statement appends one instruction. */
  function Absorb(a: Pass1, line: string): Result<Pass1, AsmError>
  {
    match Classify(line)
    case Other => Ok(a)
    case Label(name) => Ok(a.(jumpTable := a.jumpTable[name := |a.program|]))
    case Statement(op, arg) =>
      (match Instantiate(op, arg)
       case Ok(ins) => Ok(a.(program := a.program + [ins]))
       case Err(e) => Err(e))
  }

  /** The first loop over `lines`, stopping at the first exception. */
  function Scan(lines: seq<string>): Result<Pass1, AsmError>
  {
    if lines == [] then Ok(Pass1([], map[]))
    else
      var a :- Scan(lines[..|lines| - 1]);
      Absorb(a, lines[|lines| - 1])
  }

  // ------------------------------------------------------------ fix-up loop

  /** The fix-up of one instruction: a jump to a name takes the name's step; any other target goes through `int()`. */
  function Resolve(ins: Instr, jumpTable: map<string, int>): Result<Instr, AsmError>
  {
    if ins.IsJump() && ins.dest.Word? then
      if ins.dest.w in jumpTable then Ok(ins.(dest := Num(jumpTable[ins.dest.w])))
      else Err(UnknownLabel(ins.dest.w))
    else Ok(ins)
  }

  /** The fix-up loop over the program, stopping at the first exception. */
  function ResolveAll(program: seq<Instr>, jumpTable: map<string, int>): Result<seq<Instr>, AsmError>
  {
    if program == [] then Ok([])
    else
      var done :- ResolveAll(program[..|program| - 1], jumpTable);
      var last :- Resolve(program[|program| - 1], jumpTable);
      Ok(done + [last])
  }

  /** `assemble_program`: both loops; the fix-up runs only once every line has been read. */
  function Assemble(lines: seq<string>): Result<seq<Instr>, AsmError>
  {
    var a :- Scan(lines);
    ResolveAll(a.program, a.jumpTable)
  }

  // ----------------------------------------------------------- loop helpers

  lemma ScanPrefix(lines: seq<string>, i: nat)
    requires i < |lines|
    ensures Scan(lines[..i + 1]) ==
      match Scan(lines[..i])
      case Ok(a) => Absorb(a, lines[i])
      case Err(e) => Err(e)
  {
    assert lines[..i + 1][..i] == lines[..i];
  }

  /** Once the first loop has raised, later lines change nothing. */
  lemma {:induction false} ScanKeepsError(lines: seq<string>, i: nat)
    requires i <= |lines| && Scan(lines[..i]).Err?
    ensures Scan(lines) == Scan(lines[..i])
    decreases |lines| - i
  {
    if i < |lines| {
      ScanPrefix(lines, i);
      ScanKeepsError(lines, i + 1);
    } else {
      assert lines[..i] == lines;
    }
  }

  lemma ResolvePrefix(program: seq<Instr>, jumpTable: map<string, int>, i: nat)
    requires i < |program|
    ensures ResolveAll(program[..i + 1], jumpTable) ==
      match ResolveAll(program[..i], jumpTable)
      case Ok(done) =>
        (match Resolve(program[i], jumpTable)
         case Ok(ins) => Ok(done + [ins])
         case Err(e) => Err(e))
      case Err(e) => Err(e)
  {
    assert program[..i + 1][..i] == program[..i];
  }

  /** Once the fix-up loop has raised, later instructions change nothing. */
  lemma {:induction false} ResolveKeepsError(program: seq<Instr>, jumpTable: map<string, int>, i: nat)
    requires i <= |program| && ResolveAll(program[..i], jumpTable).Err?
    ensures ResolveAll(program, jumpTable) == ResolveAll(program[..i], jumpTable)
    decreases |program| - i
  {
    if i < |program| {
      ResolvePrefix(program, jumpTable, i);
      ResolveKeepsError(program, jumpTable, i + 1);
    } else {
      assert program[..i] == program;
    }
  }

  // ----------------------------------------------------------------- method

  /** The first loop of `assemble_program`: record labels and build instructions, line by line. */
  method ScanLines(lines: seq<string>) returns (r: Result<Pass1, AsmError>)
    ensures r == Scan(lines)
  {
    var program: seq<Instr> := [];
    var jumpTable: map<string, int> := map[];
    var step := 0;
    for i := 0 to |lines|
      invariant step == |program|
      invariant Scan(lines[..i]) == Ok(Pass1(program, jumpTable))
    {
      ScanPrefix(lines, i);
      match Classify(lines[i])
      case Label(name) =>
        jumpTable := jumpTable[name := step];
      case Statement(op, arg) =>
        match Instantiate(op, arg) {
          case Err(e) =>
            ScanKeepsError(lines, i + 1);
            return Err(e);
          case Ok(ins) =>
            program := program + [ins];
            step := step + 1;
        }
      case Other =>
    }
    assert lines[..|lines|] == lines;
    return Ok(Pass1(program, jumpTable));
  }

  /** The fix-up loop of `assemble_program`: rewrite each jump of `program` in place. */
  method FixUp(program: seq<Instr>, jumpTable: map<string, int>) returns (r: Result<seq<Instr>, AsmError>)
    ensures r == ResolveAll(program, jumpTable)
  {
    var fixed := program;
    for i := 0 to |fixed|
      invariant |fixed| == |program|
      invariant fixed[i..] == program[i..]
      invariant ResolveAll(program[..i], jumpTable) == Ok(fixed[..i])
    {
      assert fixed[i] == program[i];
      ResolvePrefix(program, jumpTable, i);
      if fixed[i].IsJump() {
        match Resolve(fixed[i], jumpTable)
        case Err(e) =>
          ResolveKeepsError(program, jumpTable, i + 1);
          return Err(e);
        case Ok(ins) =>
          fixed := fixed[i := ins];
      }
      assert fixed[..i + 1] == fixed[..i] + [fixed[i]];
    }
    assert program[..|program|] == program && fixed[..|fixed|] == fixed;
    return Ok(fixed);
  }

  /** `assemble_program`, with the file already read into `lines`: the line loop, then the fix-up loop. */
  method AssembleProgram(lines: seq<string>) returns (r: Result<seq<Instr>, AsmError>)
    ensures r == Assemble(lines)
  {
    var scanned := ScanLines(lines);
    if scanned.Err? {
      return Err(scanned.error);
    }
    r := FixUp(scanned.value.program, scanned.value.jumpTable);
  }

  // -------------------------------------------------------------- properties

  /**
   * The fix-up loop succeeds exactly when every instruction's fix-up does,
   * and then keeps the length and fixes each instruction where it stands.
   */
  lemma {:induction false} ResolveAllSpec(program: seq<Instr>, jumpTable: map<string, int>)
    ensures ResolveAll(program, jumpTable).Ok? <==> forall k :: 0 <= k < |program| ==> Resolve(program[k], jumpTable).Ok?
    ensures ResolveAll(program, jumpTable).Ok? ==>
      var fixed := ResolveAll(program, jumpTable).value;
      |fixed| == |program| && forall k :: 0 <= k < |program| ==> Resolve(program[k], jumpTable) == Ok(fixed[k])
  {
    if program != [] {
      var init := program[..|program| - 1];
      ResolveAllSpec(init, jumpTable);
      assert forall k :: 0 <= k < |init| ==> init[k] == program[k];
    }
  }

  /** The number of lines the first loop reads as statements. */
  function StatementLines(lines: seq<string>): nat
  {
    if lines == [] then 0
    else StatementLines(lines[..|lines| - 1]) + if Classify(lines[|lines| - 1]).Statement? then 1 else 0
  }

  /** Every jump that already names a number names a non-negative one: the pattern admits no sign. */
  predicate NumbersNonNegative(program: seq<Instr>)
  {
    forall k :: 0 <= k < |program| && program[k].IsJump() && program[k].dest.Num? ==> program[k].dest.n >= 0
  }

  /** The table's steps lie in `[0, len(program)]`. */
  predicate StepsWithin(a: Pass1)
  {
    forall name :: name in a.jumpTable ==> 0 <= a.jumpTable[name] <= |a.program|
  }

  /** One turn of the first loop keeps both invariants and builds one instruction exactly for a statement. */
  lemma AbsorbShape(a: Pass1, line: string)
    requires Absorb(a, line).Ok? && NumbersNonNegative(a.program) && StepsWithin(a)
    ensures |Absorb(a, line).value.program| == |a.program| + if Classify(line).Statement? then 1 else 0
    ensures NumbersNonNegative(Absorb(a, line).value.program) && StepsWithin(Absorb(a, line).value)
  {
    var b := Absorb(a, line).value;
    if Classify(line).Statement? {
      assert b.program == a.program + [b.program[|a.program|]];
      assert forall k :: 0 <= k < |a.program| ==> b.program[k] == a.program[k];
    }
  }

  /**
   * After the first loop: one instruction per statement line, numeric jump
   * targets non-negative, and every label's step in `[0, len(program)]`.
   */
  lemma {:induction false} ScanShape(lines: seq<string>)
    requires Scan(lines).Ok?
    ensures |Scan(lines).value.program| == StatementLines(lines)
    ensures NumbersNonNegative(Scan(lines).value.program)
    ensures StepsWithin(Scan(lines).value)
  {
    if lines != [] {
      var last := |lines| - 1;
      var init := lines[..last];
      assert lines[..last + 1] == lines;
      ScanPrefix(lines, last);
      ScanShape(init);
      AbsorbShape(Scan(init).value, lines[last]);
    }
  }

  /**
   * A label's step is the number of statements before its LAST label line;
   * a name no line labels is not in the table.
   */
  lemma {:induction false} LabelStep(lines: seq<string>, k: nat, name: string)
    requires Scan(lines).Ok? && k < |lines| && Classify(lines[k]) == Label(name)
    requires forall j :: k < j < |lines| ==> Classify(lines[j]) != Label(name)
    ensures name in Scan(lines).value.jumpTable
    ensures Scan(lines).value.jumpTable[name] == StatementLines(lines[..k])
  {
    var last := |lines| - 1;
    var init := lines[..last];
    assert lines[..last + 1] == lines;
    ScanPrefix(lines, last);
    if k == last {
      ScanShape(init);
    } else {
      assert init[k] == lines[k] && init[..k] == lines[..k];
      LabelStep(init, k, name);
    }
  }

  /** Reading a line adds to the table at most the name it labels. */
  lemma AbsorbTable(a: Pass1, line: string, name: string)
    requires Absorb(a, line).Ok?
    ensures name in Absorb(a, line).value.jumpTable <==> name in a.jumpTable || Classify(line) == Label(name)
  {
  }

  /** One more line adds to the table at most the name it labels. */
  lemma LabelTableGrows(lines: seq<string>, i: nat, name: string)
    requires i < |lines| && Scan(lines[..i + 1]).Ok?
    ensures Scan(lines[..i]).Ok?
    ensures name in Scan(lines[..i + 1]).value.jumpTable <==>
      name in Scan(lines[..i]).value.jumpTable || Classify(lines[i]) == Label(name)
  {
    ScanPrefix(lines, i);
    AbsorbTable(Scan(lines[..i]).value, lines[i], name);
  }

  /** A name in the table is labelled by some line. */
  lemma {:induction false} TableNamesAreLabelled(lines: seq<string>, name: string) returns (k: nat)
    requires Scan(lines).Ok? && name in Scan(lines).value.jumpTable
    ensures k < |lines| && Classify(lines[k]) == Label(name)
  {
    var last := |lines| - 1;
    assert lines[..last + 1] == lines;
    LabelTableGrows(lines, last, name);
    if Classify(lines[last]) == Label(name) {
      k := last;
    } else {
      k := TableNamesAreLabelled(lines[..last], name);
      assert lines[..last][k] == lines[k];
    }
  }

  /** A name some line labels is in the table. */
  lemma {:induction false} LabelledNamesAreInTable(lines: seq<string>, name: string, k: nat)
    requires Scan(lines).Ok? && k < |lines| && Classify(lines[k]) == Label(name)
    ensures name in Scan(lines).value.jumpTable
    decreases |lines|, 1
  {
    var last := |lines| - 1;
    assert lines[..last + 1] == lines;
    LabelTableGrows(lines, last, name);
    if k < last {
      LabelledInPrefix(lines, name, k);
    }
  }

  /** The same, for the lines before the last. */
  lemma {:induction false} LabelledInPrefix(lines: seq<string>, name: string, k: nat)
    requires k < |lines| - 1 && Scan(lines[..|lines| - 1]).Ok? && Classify(lines[k]) == Label(name)
    ensures name in Scan(lines[..|lines| - 1]).value.jumpTable
    decreases |lines|, 0
  {
    var init := lines[..|lines| - 1];
    assert init[k] == lines[k];
    LabelledNamesAreInTable(init, name, k);
  }

  /** The table holds exactly the names some line labels. */
  lemma LabelsComeFromLines(lines: seq<string>, name: string)
    requires Scan(lines).Ok?
    ensures name in Scan(lines).value.jumpTable <==> exists k :: 0 <= k < |lines| && Classify(lines[k]) == Label(name)
  {
    if name in Scan(lines).value.jumpTable {
      var k := TableNamesAreLabelled(lines, name);
    }
    if exists k :: 0 <= k < |lines| && Classify(lines[k]) == Label(name) {
      var k :| 0 <= k < |lines| && Classify(lines[k]) == Label(name);
      LabelledNamesAreInTable(lines, name, k);
    }
  }

  /**
   * An assembled program has one instruction per statement line, and its
   * every jump is bound to a non-negative step: a named label's step (at
   * most the program's length) or the number written.
   */
  lemma AssembledJumpsResolved(lines: seq<string>)
    requires Assemble(lines).Ok?
    ensures |Assemble(lines).value| == StatementLines(lines)
    ensures ResolvedJumps(Assemble(lines).value)
  {
    var a := Scan(lines).value;
    var p := Assemble(lines).value;
    ScanShape(lines);
    ResolveAllSpec(a.program, a.jumpTable);
    forall k | 0 <= k < |p| && p[k].IsJump()
      ensures p[k].dest.Num? && p[k].dest.n >= 0
    {
      assert Resolve(a.program[k], a.jumpTable) == Ok(p[k]);
    }
  }

  /**
   * An exception of the first loop wins: every line before it is read, and
   * neither later lines nor the fix-up are reached.
   */
  lemma FirstLoopErrorWins(lines: seq<string>, i: nat)
    requires i < |lines| && Scan(lines[..i]).Ok? && Absorb(Scan(lines[..i]).value, lines[i]).Err?
    ensures Assemble(lines) == Err(Absorb(Scan(lines[..i]).value, lines[i]).error)
  {
    ScanPrefix(lines, i);
    ScanKeepsError(lines, i + 1);
  }

  /** A jump to a name that no line labels fails the fix-up, once every line has been read. */
  lemma UnlabelledJumpFails(lines: seq<string>, k: nat)
    requires Scan(lines).Ok?
    requires var p := Scan(lines).value.program;
      k < |p| && p[k].IsJump() && p[k].dest.Word?
    requires forall j :: 0 <= j < |lines| ==> Classify(lines[j]) != Label(Scan(lines).value.program[k].dest.w)
    ensures Assemble(lines).Err? && Assemble(lines).error.UnknownLabel?
  {
    var a := Scan(lines).value;
    LabelsComeFromLines(lines, a.program[k].dest.w);
    ResolveAllSpec(a.program, a.jumpTable);
    ResolveErrorIsUnknownLabel(a.program, a.jumpTable);
  }

  /** The fix-up loop raises nothing but `UnknownLabel`. */
  lemma {:induction false} ResolveErrorIsUnknownLabel(program: seq<Instr>, jumpTable: map<string, int>)
    ensures ResolveAll(program, jumpTable).Err? ==> ResolveAll(program, jumpTable).error.UnknownLabel?
  {
    if program != [] {
      ResolveErrorIsUnknownLabel(program[..|program| - 1], jumpTable);
    }
  }

  // --------------------------------------------------------------- examples

  /** An upper-case name directly followed by `:` is a label line, whatever follows. */
  lemma LabelLine(name: string, after: string)
    requires |name| > 0 && (forall j :: 0 <= j < |name| ==> InClass(Upper, name[j]))
    requires |after| > 0 && after[0] == ':'
    ensures Classify(name + after) == Label(name)
  {
    ClassRunOf(Upper, name, after);
    assert (name + after)[|name|] == ':';
    assert (name + after)[..|name|] == name;
  }

  /** Indentation, then an opcode of letters: a statement whose argument is read from what follows the opcode. */
  lemma StatementLine(indent: string, op: string, after: string)
    requires A.AllSpace(indent)
    requires |op| > 0 && (forall j :: 0 <= j < |op| ==> InClass(Letter, op[j]))
    requires indent != [] || !InClass(Upper, op[0])
    requires after == [] || !InClass(Letter, after[0])
    ensures Classify(indent + op + after) == Statement(op, Argument(after))
  {
    var line := indent + op + after;
    assert line == indent + (op + after);
    assert !IsSpace((op + after)[0]);
    A.SpaceRunOfSpace(indent, op + after);
    assert line[|indent|..] == op + after;
    ClassRunOf(Letter, op, after);
    assert (op + after)[..|op|] == op && (op + after)[|op|..] == after;
    assert !InClass(Upper, line[0]);
  }

  /** A run of digits is the operand, whatever follows that is not a digit. */
  lemma DigitOperand(a: string, after: string)
    requires |a| > 0 && forall j :: 0 <= j < |a| ==> IsDigit(a[j])
    requires after == [] || !IsDigit(after[0])
    ensures Operand(a + after) == Some(a)
  {
    ClassRunOf(Digit, a, after);
    assert (a + after)[..|a|] == a;
  }

  /** A run of `[A-Z_]` is the operand, whatever follows that is not in the class. */
  lemma NameOperand(a: string, after: string)
    requires |a| > 0 && forall j :: 0 <= j < |a| ==> InClass(Upper, a[j])
    requires after == [] || !InClass(Upper, after[0])
    ensures Operand(a + after) == Some(a)
  {
    assert !InClass(Digit, (a + after)[0]);
    ClassRunOf(Upper, a, after);
    assert (a + after)[..|a|] == a;
  }

  /** A `[` before the operand is dropped. */
  lemma BracketedOperand(t: string)
    requires t == [] || t[0] != '['
    ensures Operand("[" + t) == Operand(t)
  {
    assert ("[" + t)[1..] == t;
  }

  /** Whitespace, then a run of digits or upper-case characters, is the argument; a `[` before it is dropped. */
  lemma ArgumentAfterSpace(space: string, lead: string, a: string, after: string)
    requires A.AllSpace(space) && |space| > 0
    requires lead == space || lead == space + "["
    requires |a| > 0 && ((forall j :: 0 <= j < |a| ==> IsDigit(a[j])) || (forall j :: 0 <= j < |a| ==> InClass(Upper, a[j])))
    requires after == [] || (!IsDigit(after[0]) && !InClass(Upper, after[0]))
    ensures Argument(lead + a + after) == Some(a)
  {
    var t := if lead == space then a + after else "[" + (a + after);
    assert lead + a + after == space + t;
    assert !IsSpace(t[0]);
    A.SpaceRunOfSpace(space, t);
    assert (space + t)[|space|..] == t;
    if forall j :: 0 <= j < |a| ==> IsDigit(a[j]) {
      DigitOperand(a, after);
    } else {
      NameOperand(a, after);
    }
    assert (a + after)[0] != '[';
    BracketedOperand(a + after);
  }

  /** An opcode of letters, whitespace, then an argument run (after an optional `[`): a statement with that argument. */
  lemma ArgumentLine(op: string, space: string, lead: string, a: string, after: string)
    requires |op| > 0 && 'a' <= op[0] <= 'z' && (forall j :: 0 <= j < |op| ==> InClass(Letter, op[j]))
    requires A.AllSpace(space) && |space| > 0
    requires lead == space || lead == space + "["
    requires |a| > 0 && ((forall j :: 0 <= j < |a| ==> IsDigit(a[j])) || (forall j :: 0 <= j < |a| ==> InClass(Upper, a[j])))
    requires after == [] || (!IsDigit(after[0]) && !InClass(Upper, after[0]))
    ensures Classify(op + (lead + a + after)) == Statement(op, Some(a))
  {
    var rest := lead + a + after;
    assert rest[0] == space[0];
    assert op + rest == [] + op + rest;
    StatementLine([], op, rest);
    ArgumentAfterSpace(space, lead, a, after);
  }

  /** Brackets around an argument are dropped: `op [7]` and `op 7` read alike, with no indirection. */
  lemma BracketsAreIgnored(op: string, space: string, a: string, after: string)
    requires |op| > 0 && 'a' <= op[0] <= 'z' && (forall j :: 0 <= j < |op| ==> InClass(Letter, op[j]))
    requires A.AllSpace(space) && |space| > 0
    requires |a| > 0 && forall j :: 0 <= j < |a| ==> IsDigit(a[j])
    requires after == [] || (!IsDigit(after[0]) && !InClass(Upper, after[0]))
    ensures Classify(op + (space + "[" + a + after)) == Statement(op, Some(a))
    ensures Classify(op + (space + a + after)) == Statement(op, Some(a))
  {
    ArgumentLine(op, space, space + "[", a, after);
    ArgumentLine(op, space, space, a, after);
  }

  /** The opcode lookup is case-sensitive: every symbol is lower case, so a word starting upper case is a KeyError. */
  lemma UpperCaseOpcodeIsUnknown(op: string, arg: Option<string>)
    requires |op| > 0 && 'A' <= op[0] <= 'Z'
    ensures Instantiate(op, arg) == Err(UnknownOpcode(op))
  {
    CatalogSymbolsAreLowerWords();
  }

  /** A label must be upper case: a lower-case word before `:` is read as a statement without argument. */
  lemma LowerCaseLabelIsStatement(name: string, after: string)
    requires |name| > 0 && 'a' <= name[0] <= 'z' && (forall j :: 0 <= j < |name| ==> InClass(Letter, name[j]))
    requires |after| > 0 && after[0] == ':'
    ensures Classify(name + after) == Statement(name, None)
  {
    assert name + after == [] + name + after;
    StatementLine([], name, after);
  }

  /** A line starting with `#` matches neither pattern. */
  lemma CommentLineIsOther(line: string)
    requires |line| > 0 && line[0] == '#'
    ensures Classify(line) == Other
  {
    assert !IsSpace(line[0]);
  }

  /** The first loop skips a comment line: what it built before is what it has after. */
  lemma CommentLinesAreSkipped(lines: seq<string>, line: string)
    requires |line| > 0 && line[0] == '#'
    ensures Scan(lines + [line]) == Scan(lines)
  {
    var all := lines + [line];
    CommentLineIsOther(line);
    ScanPrefix(all, |lines|);
    assert all[..|lines|] == lines;
    assert all[..|lines| + 1] == all;
  }

  /** A catalog symbol builds its own class: on no argument when it takes none, else on its argument, which it requires. */
  lemma InstantiateSymbol(k: nat, arg: Option<string>)
    requires k < |I.Catalog|
    ensures !I.HasArgument(k) ==> Instantiate(I.Catalog[k], arg) == Ok(if k == 0 then NoOp else if k == 1 then MoveFromInbox else MoveToOutbox)
    ensures I.HasArgument(k) && arg.None? ==> Instantiate(I.Catalog[k], arg) == Err(MissingArgument(I.Catalog[k]))
    ensures I.HasArgument(k) && arg.Some? ==> Instantiate(I.Catalog[k], arg) == Ok(WithArg(k, ArgValue(arg.value)))
  {
    A.LookupSymbolFinds(k, 0);
  }

  /** Every catalog symbol is a word of `[a-zA-Z_]` starting with a lower-case letter. */
  lemma CatalogSymbolsAreLowerWords()
    ensures forall k :: 0 <= k < |I.Catalog| ==>
      |I.Catalog[k]| > 0 && 'a' <= I.Catalog[k][0] <= 'z' &&
      forall j :: 0 <= j < |I.Catalog[k]| ==> InClass(Letter, I.Catalog[k][j])
  {
  }

  /** An indented catalog symbol is a statement naming that symbol. */
  lemma SymbolLine(indent: string, k: nat, after: string)
    requires k < |I.Catalog| && A.AllSpace(indent)
    requires after == [] || !InClass(Letter, after[0])
    ensures Classify(indent + I.Catalog[k] + after) == Statement(I.Catalog[k], Argument(after))
  {
    CatalogSymbolsAreLowerWords();
    StatementLine(indent, I.Catalog[k], after);
  }
}
