# hrmulator in Dafny

A model of hrmulator, an emulator of the accumulator machine of the puzzle
game *Human Resource Machine*. A program is a list of twelve kinds of
instruction that move values between an inbox, an accumulator, numbered
memory tiles ("the floor") and an outbox. The emulator assembles program
text into instructions and runs it with a fetch-execute loop. A run ends
normally when the program asks for the next inbox value and there is none.

The repository holds two iterations of the machine, and both are modelled.

**The `hrmulator` package**

- `TypeTools`: the value-kind predicates and `int_if_possible`.
- `Utilities`: their older copy.
- `Memory`: a sparse tile store with labels and indirect addressing. `class Memory` holds the two dicts and updates them in place.
- `Instructions`: the single step of each instruction, a function from a machine snapshot to the next snapshot or the exception raised.
- `Assembler`: the line-oriented assembler. `Assemble` is its meaning, a left fold over the lines. `AssembleProgram` is its loop.
- `Computer`: `class Computer`, whose `Execute*` methods carry out each instruction in place and whose `Run` is the fetch-execute loop. `Exec` is the run as a function, and the methods are proved against `Step` and `Exec`.
- `MaximizationRoom`: the program of the package's fourth integration test, proved to output the larger value of every pair for every inbox of number pairs.

**The root iteration**

- `LegacyCpu`: what the twelve instructions of `CPUInstructions.py` (and their copy in `tomorrowCPU.py`) do, the three `assert*` checks and the run loop, stated on values.
- `LegacyComputer`: the root `Computer.py` as a class.
- `LegacyAssembler`: the root `Assembler.py`, with its eager jump fix-up.
- `Tomorrow`: `tomorrowCPU.py`'s computer and its `main`.

**Shared modules**

- `PyBuiltins`: the Python built-ins the code relies on: dynamic values, `str.strip`, `int()` and `str()`.
- `Wrappers`: `Option`, `Result` and `Outcome`.

Python exceptions are error values. The four assembler errors carry their
1-based line number. Python's `TypeError`/`AttributeError` crashes are a
single `TypeFault`.

A run that never reads an empty inbox never ends. Every run loop therefore
takes a bound on the number of instructions it may execute, and reports
`Stopped` (or `OutOfFuel`) when the bound is reached first.

### Behaviour of the code worth knowing

The model follows the code in each of these cases.

- **Comment stripping.** The pattern `(.*)#.*` (hrmulator/Assembler.py:46) is greedy, so a line's comment starts at its LAST `#`. `Assembler.StripCommentKeepsEarlierHash` states the consequence: in `code # note # more` the text `code # note` is kept.
- **`run` and the outbox.** `run` (hrmulator/Computer.py:69-77) resets the counter and the step count but never touches the outbox, and `Computer()` leaves it `None` (hrmulator/Computer.py:30). `Computer.Computer.Run` keeps the outbox, and `MoveToOutbox` on an absent outbox is a `TypeFault`.
- **No type guards in memory.** `get`, `__setitem__` and `set` (hrmulator/Memory.py:68-80) store whatever value they are given, and a character used for indirection is looked up as a label. An unknown label is the dict's `KeyError`, `UnknownLabel` here.
- **Inbox order.** The package reads the front of the inbox (`popleft`, hrmulator/Instructions.py:100). The root iteration reads its end (`list.pop()`, CPUInstructions.py:58 and tomorrowCPU.py:52), and `LegacyCpu` models that: `EchoReversesInbox` and `Tomorrow.EchoMain` show the echo program reversing its inbox.
- **Loop condition.** Every run loop tests only `pc < len(program)` (hrmulator/Computer.py:73, Computer.py:57, tomorrowCPU.py:20). In the package, jump destinations are range-checked (hrmulator/Instructions.py:243-250), so the counter is never negative. In the root iteration, a negative counter indexes from the end of the program (`LegacyCpu.Fetch`).
- **Root assembler catalog.** The root `Assembler.py` imports a catalog from a module that is not part of this model. It is modelled with the `token`s of `CPUInstructions.py`, which are exactly the package catalog's symbols.

## Model

Rows whose third column begins "proof step" are intermediate lemmas and methods that a headline member is built from. The other rows carry the model's promises.

| member | source | states |
|---|---|---|
| PyBuiltins.TrimLeftSpec | hrmulator/Assembler.py:100 | the left half of `strip()` removes exactly the leading whitespace: the result is a suffix that starts with no space, and all that was dropped is space |
| PyBuiltins.TrimRightSpec | hrmulator/Assembler.py:100 | the right half of `strip()` removes exactly the trailing whitespace: the result is a prefix that ends with no space |
| PyBuiltins.StripUnchanged | hrmulator/Assembler.py:100 | a line that neither starts nor ends with whitespace is left as it is by `strip()` |
| PyBuiltins.ParseShowInt | hrmulator/TypeTools.py:66-70 | `int(str(n)) == n` for every int `n`, negative ones included |
| PyBuiltins.IntOf | hrmulator/Utilities.py:13-17 | Python's `int(v)` raises `TypeError` exactly for `None`; on a string it succeeds exactly when the string is an integer literal |
| TypeTools.IntIfPossible | hrmulator/TypeTools.py:59-71 | `int_if_possible` returns an int or the value itself; a non-string always comes back unchanged; a string that `int()` reads becomes exactly that int, and a changed result is always such an int |
| TypeTools.IsCharIsOneLetterString | hrmulator/TypeTools.py:49-51 | `is_char(v)` holds exactly when `v` is a string of one character |
| TypeTools.IntIfPossibleOfShownInt | hrmulator/TypeTools.py:25-26 | the string `str()` writes for any int converts back to that int, which `is_int_or_char` accepts (the doctest's `'52'`, generalised) |
| TypeTools.IntIfPossibleIdempotent | hrmulator/TypeTools.py:66-71 | converting twice is converting once: an int result is kept and an unconvertible value comes back identical |
| TypeTools.PredicateExamples | hrmulator/TypeTools.py:7-24 | the doctests and `test_is_char`/`test_is_int_or_char`: `'A'` is a character, `42` and `"Hello, World!"` are not; `True` and `'52'` are not int-or-char |
| TypeTools.ConversionExamples | hrmulator/tests/test_TypeTools.py:19-27 | `'52'` converts to an int-or-char, `'5'` to 5; 5, `True` and 51.2 come back unchanged |
| TypeTools.UnconvertibleExamples | hrmulator/TypeTools.py:37-40 | `'5hello'`, `'5h'` and `'51.2'` are not integer literals and come back unchanged |
| TypeTools.NoIntInside | hrmulator/TypeTools.py:66-70 | a string with a character that is neither a digit nor `_` after its first is no integer literal, so `int()` raises `ValueError` |
| Utilities.IntIfPossible | hrmulator/Utilities.py:13-17 | the older `int_if_possible` returns `int(value)` whenever that succeeds, for any value; it returns the value when `int()` raises `ValueError`; the `TypeError` of `int(None)` escapes |
| Utilities.AgreesWithTypeToolsOnStringsAndInts | hrmulator/Utilities.py:13-17 | on strings and exact ints the two `int_if_possible`s agree |
| Utilities.ConvertsNonStrings | hrmulator/Utilities.py:13-17 | where the two versions differ: this one turns `True` into 1 and truncates a float toward zero, where TypeTools returns them unchanged; `None` raises |
| Utilities.IsCharExamples | hrmulator/tests/test_Utilities.py:8-15 | `is_char` of `'A'`, 42 and `"Hello, World!"`; `is_int_or_char` accepts an int and rejects a bool (Utilities.py:5-10 is the same expression as TypeTools') |
| Memory.ResolveKey | hrmulator/Memory.py:51-57 | `resolve_key` succeeds exactly for an int or a bound label; otherwise it is the `KeyError` naming the key |
| Memory.GetItem | hrmulator/Memory.py:62-66 | `m[key]` succeeds exactly when the key resolves to a tile that holds a value, and gives that value; an empty tile is `MemoryTileIsEmptyError` naming the key |
| Memory.Memory.constructor | hrmulator/Memory.py:40-44 | a memory with the given labels and no tile written |
| Memory.Memory.Create | hrmulator/Memory.py:40-49 | `Memory(labels, values)`: copies the labels and stores each initial value through label resolution; it fails exactly when `StoreAll` does, with its error |
| Memory.Memory.LabelTile | hrmulator/Memory.py:59-60 | `label_tile` binds the name to the index the key resolves to, replacing any earlier binding; an unresolvable key changes nothing; tiles never change |
| Memory.Memory.SetItem | hrmulator/Memory.py:74-75 | `m[key] = v` writes exactly the resolved tile and leaves the labels; an unresolvable key changes nothing |
| Memory.Memory.Set | hrmulator/Memory.py:77-81 | `set(key, v, indirect)` writes exactly the tile `SetTarget` names; a failure changes nothing |
| Memory.Memory.DelItem | hrmulator/Memory.py:83-84 | `del m[key]` removes exactly the resolved tile; deleting an empty tile is a `KeyError` and changes nothing |
| Memory.ResolveKeyCases | hrmulator/Memory.py:51-57 | an int is its own index, a bound label gives its target, an unbound name fails; the digit string `"5"` is only a label |
| Memory.ReadAfterWrite | hrmulator/Memory.py:74-75 | after `m[k] = v`, every key resolving to the same index (the index or any label bound to it) reads `v`; every other read is as before |
| Memory.LabelAliasesTile | hrmulator/Memory.py:59-60 | after `label_tile(k, name)` the name reads the tile `k` reads, and other labels keep their targets |
| Memory.IndirectGetIsTwoReads | hrmulator/Memory.py:68-72 | `get(k, indirect=True)` is `m[m[k]]`: an int value is an index, and a character works only when it is a bound label |
| Memory.IndirectGetEmpty | hrmulator/Memory.py:68-72 | a read of an empty tile fails with the same error, direct or indirect |
| Memory.IndirectSetWritesPointee | hrmulator/Memory.py:77-81 | `set(k, v, indirect=True)` writes the tile whose index tile `k` holds; tile `k` keeps its value unless it points at itself; an empty tile `k` fails |
| Memory.DirectSetIsSetItem | hrmulator/Memory.py:74-81 | a direct `set` writes the tile `m[key] = v` writes |
| Memory.DeleteEmptiesTile | hrmulator/Memory.py:83-84 | after `del m[k]` the tile reads as empty again |
| Memory.StoreAllSucceeds | hrmulator/Memory.py:46-49 | the constructor's loop succeeds exactly when every initial key resolves |
| Memory.StoreAllLastWins | hrmulator/Memory.py:46-49 | storing one more pair writes that pair's tile last, over whatever the earlier pairs wrote |
| Memory.ConstructWithLabelsAndValues | hrmulator/tests/test_Memory.py:49-53 | two labels on tile 0 and a value stored through one: both labels and index 0 read 74 |
| Instructions.Opcode | hrmulator/Instructions.py:295-308 | each instruction's position in `INSTRUCTION_CATALOG`: the first three take no argument, the last three are the jumps |
| Instructions.Nullary | hrmulator/Instructions.py:69-113 | `class_()` for a no-argument class builds an instruction of that class |
| Instructions.WithArgument | hrmulator/Instructions.py:119-121 | `class_(arg)` / `class_(arg, indirect=True)`: a tile instruction keeps its argument and flag; a jump refuses `indirect` (line 238) |
| Instructions.CatalogSymbolsDistinct | hrmulator/Instructions.py:295-308 | the catalog has twelve pairwise distinct symbols, so the assembler's symbol table loses no class |
| Instructions.SymbolIdentifiesClass | hrmulator/Instructions.py:295-308 | every instruction is rebuilt from its class number and argument |
| Instructions.IsCharOfValue | hrmulator/TypeTools.py:49-56 | `is_char` on a machine value holds exactly for the characters, and every machine value is int-or-char |
| Instructions.Accumulator | hrmulator/Instructions.py:64-66 | `_assertAccumulatorIsNotEmpty` passes exactly when the accumulator holds a value, and gives it; otherwise `AccumulatorIsEmptyError` |
| Instructions.LookupDestination | hrmulator/Instructions.py:241-252 | a destination that looks up successfully lies inside the program |
| Instructions.StepBookkeeping | hrmulator/Instructions.py:78-292 | a successful step counts exactly one step and keeps the program, jump table and labels; a non-jump moves to `pc + 1`; a jump goes to `pc + 1` or into the program |
| Instructions.StepKeepsPcNonNegative | hrmulator/Instructions.py:220-292 | a successful step from a non-negative counter leaves it non-negative |
| Instructions.MoveFromInboxTakesFront | hrmulator/Instructions.py:97-102 | `move_from_inbox` fails with `InboxIsEmptyError` exactly on an absent or empty inbox; otherwise the accumulator is the old front and the inbox its rest |
| Instructions.OnlyInboxReadEndsRun | hrmulator/Instructions.py:97-98 | only `move_from_inbox` raises `InboxIsEmptyError`, and only when there is nothing to read |
| Instructions.MoveToOutboxAppends | hrmulator/Instructions.py:108-113 | `move_to_outbox` needs an accumulator and an outbox; it appends the accumulator and empties it |
| Instructions.CopyFromReads | hrmulator/Instructions.py:136-139 | `copy_from` succeeds exactly when the memory read does, puts its value in the accumulator and writes no tile |
| Instructions.CopyToStores | hrmulator/Instructions.py:145-149 | `copy_to` needs an accumulator, which it keeps, and succeeds exactly when `set` finds its tile; the tile then holds the accumulator |
| Instructions.AddSums | hrmulator/Instructions.py:155-162 | `add` succeeds exactly for two numbers and sums them; a character operand is `IncompatibleTypesError` |
| Instructions.SubtractDifferences | hrmulator/Instructions.py:168-179 | `subtract` succeeds exactly for operands of one kind; numbers give their difference, characters the difference of their code points |
| Instructions.WriteBackReachesReadTile | hrmulator/Instructions.py:190-217 | after a successful read, a bump's write-back reaches the very tile the read found |
| Instructions.BumpWritesBack | hrmulator/Instructions.py:190-217 | `bump_up`/`bump_down` refuse a character; they change a number by one on the tile the read reached, and the accumulator holds the new value |
| Instructions.LookupDestinationCases | hrmulator/Instructions.py:241-252 | a label goes through the jump table at execute time; an unknown label, or a step outside `[0, len(program))`, is `NoSuchJumpDestinationError` naming what was looked for |
| Instructions.ConditionalJumps | hrmulator/Instructions.py:259-292 | conditional jumps need an accumulator; they jump exactly when it is 0 (or negative), otherwise go to `pc + 1`; a character cannot be compared with 0 |
| Assembler.SplitLines | hrmulator/Assembler.py:69-72 | `text.split("\n")` yields at least one line |
| Assembler.SplitLinesNoNewline | hrmulator/Assembler.py:71 | no line of a split holds a newline |
| Assembler.JoinSplitLines | hrmulator/Assembler.py:71 | joining the pieces of a split gives back the text |
| Assembler.SplitLinesCons | hrmulator/Assembler.py:71 | proof step: a character other than a newline joins the first line of what follows it |
| Assembler.SplitLinesPrefix | hrmulator/Assembler.py:71 | proof step: a newline-free piece in front of a text joins its first line |
| Assembler.SplitJoinLines | hrmulator/Assembler.py:71 | splitting the join of newline-free lines gives the lines back |
| Assembler.LastHash | hrmulator/Assembler.py:46 | a position found is a `#` of the line |
| Assembler.LastHashSpec | hrmulator/Assembler.py:46 | a `#` is found exactly when the line has one, and none follows it |
| Assembler.StripCommentSpec | hrmulator/Assembler.py:95-97 | a line without `#` is kept whole; otherwise the cut is at a `#` with none after it |
| Assembler.StripCommentSingleHash | hrmulator/Assembler.py:95-97 | with a single `#`, the comment is exactly the text from it on |
| Assembler.StripCommentKeepsEarlierHash | hrmulator/Assembler.py:46 | the greedy pattern cuts at the last `#`: in `code#note#more`, `code#note` is kept |
| Assembler.WordRun | hrmulator/Assembler.py:49-54 | the greedy `\w+` ends before a non-word character |
| Assembler.WordRunSpec | hrmulator/Assembler.py:49-54 | that run consists of word characters |
| Assembler.SpaceRun | hrmulator/Assembler.py:50-51 | the greedy `\s+` ends before a non-space character |
| Assembler.SpaceRunSpec | hrmulator/Assembler.py:50-51 | that run consists of whitespace |
| Assembler.WordRunOfWord | hrmulator/Assembler.py:49-54 | proof step: a word followed by a non-word character is the whole `\w+` match |
| Assembler.SpaceRunOfSpace | hrmulator/Assembler.py:50-51 | proof step: whitespace followed by a non-space is the whole `\s+` match |
| Assembler.ParseLabel | hrmulator/Assembler.py:106-109 | `(\w+):` matches exactly when the line starts with a word and `:`; the rest of the line is ignored |
| Assembler.ParseBare | hrmulator/Assembler.py:116-123 | `(\w+)$` matches exactly when the whole line is one word |
| Assembler.ParseWithArgument | hrmulator/Assembler.py:114-121 | word, whitespace, word reads as an instruction with a direct argument |
| Assembler.ParseIndirect | hrmulator/Assembler.py:115-121 | word, whitespace, `[word]` reads as an instruction with an indirect argument |
| Assembler.ParseWordThen | hrmulator/Assembler.py:114-123 | proof step: a word followed by whitespace is read as an instruction word and its operand, not as a label |
| Assembler.OperandIndirect | hrmulator/Assembler.py:115-121 | after the word, whitespace and `[word]` give the argument with `indirect` set |
| Assembler.BracketedWord | hrmulator/Assembler.py:51 | `[word]` matches `\[(\w+)\]` around that word |
| Assembler.BracketedShape | hrmulator/Assembler.py:51 | whatever matches `\[(\w+)\]` is a non-empty word in brackets |
| Assembler.OperandShape | hrmulator/Assembler.py:114-121 | an argument taken by the patterns is whitespace then the (possibly bracketed) word, with nothing after it |
| Assembler.ParseOp | hrmulator/Assembler.py:114-123 | an instruction line is its leading word followed by its operand |
| Assembler.ParseOperandShape | hrmulator/Assembler.py:114-121 | an instruction line with an argument is word, whitespace and the argument, exactly |
| Assembler.Lower | hrmulator/Assembler.py:126 | `lower()` keeps the length, changes exactly the upper-case letters and turns each into its lower-case letter (code point + 32) |
| Assembler.LowerIgnoresCase | hrmulator/Assembler.py:126 | two words of one length have the same `lower()` exactly when they differ only in the case of their ASCII letters |
| Assembler.LowerOfNoUpper | hrmulator/Assembler.py:126 | `lower()` leaves a word without upper-case letters as it is |
| Assembler.ArgumentKey | hrmulator/Assembler.py:134-139 | an argument that `int()` does not convert stays the name as written |
| Assembler.ArgumentKeyOfWord | hrmulator/Assembler.py:134-139 | a word argument becomes a number exactly when it is digits (with single underscores), and then its value; a label such as `START` stays a name |
| Assembler.LookupSymbol | hrmulator/Assembler.py:61 | the symbol table finds the class whose symbol is the word, or none has it |
| Assembler.LookupSymbolFinds | hrmulator/Assembler.py:61 | the table finds every catalog symbol at its own class |
| Assembler.Instantiate | hrmulator/Assembler.py:126-151 | a built instruction's symbol is the lower-cased word of the line |
| Assembler.InstantiateUnknown | hrmulator/Assembler.py:126-128 | a word whose lower-case form is no symbol is `UnknownInstructionError` with the line number and the word as written |
| Assembler.InstantiateKnown | hrmulator/Assembler.py:130-151 | for a catalog symbol: no argument where one is needed is `ArgumentRequiredError` with the line; an unexpected one is `UnexpectedArgumentError` with the argument; `[arg]` on a jump is refused; otherwise the class on its converted argument and flag |
| Assembler.CatalogSymbolIsLowerWord | hrmulator/Instructions.py:295-308 | every catalog symbol is a non-empty word of `\w` with no upper-case letter and no `#` |
| Assembler.InstantiateIgnoresCase | hrmulator/Assembler.py:126-130 | a word that equals a catalog symbol up to ASCII case lower-cases to that symbol and instantiates exactly as the symbol does |
| Assembler.InstantiateArgumentIgnoresCase | hrmulator/Assembler.py:126-139 | such a word with an argument, for a class that takes one, builds that class on the converted argument |
| Assembler.UpperCaseSymbol | hrmulator/Assembler.py:126-130 | `MOVE_FROM_INBOX` builds `MoveFromInbox`: the package's lookup ignores case |
| Assembler.MixedCaseJump | hrmulator/Assembler.py:126-139 | `Jump_To` with a name builds a jump to that name |
| Assembler.InstantiateSymbol | hrmulator/Assembler.py:126-151 | a catalog symbol as written, given an argument exactly when its class takes one, builds its class (on the converted argument) |
| Assembler.InstantiateNamesLine | hrmulator/Assembler.py:126-151 | every instantiation error except the jump's `TypeError` names the line |
| Assembler.ReadLineKinds | hrmulator/Assembler.py:94-155 | a blank line is skipped, a label line records a label, an instruction line emits or fails, anything else is `SyntaxError`; every error but the jump's names its line |
| Assembler.NonWordLineIsSyntaxError | hrmulator/Assembler.py:154-155 | a non-blank line that does not start with a word character is `SyntaxError` with its number and cleaned text |
| Assembler.CleanIndented | hrmulator/Assembler.py:93-99 | an indented text without `#` and without surrounding whitespace is cleaned down to that text |
| Assembler.WordShape | hrmulator/Assembler.py:93-99 | proof step: a word holds no `#` and neither starts nor ends with whitespace |
| Assembler.ReadBlankLine | hrmulator/Assembler.py:100-102 | an empty line is skipped |
| Assembler.ReadLabelLine | hrmulator/Assembler.py:104-108 | `word:` records the label `word` |
| Assembler.ReadBareLine | hrmulator/Assembler.py:93-151 | an indented catalog symbol of a class without argument emits that class |
| Assembler.ReadArgumentLine | hrmulator/Assembler.py:93-151 | an indented catalog symbol, a space and a word emit the symbol's class on the converted word, not indirect |
| Assembler.ReadOpLine | hrmulator/Assembler.py:110-151 | a line that parses as an instruction and instantiates is emitted as that instruction |
| Assembler.ArgumentText | hrmulator/Assembler.py:110-123 | proof step: `word arg` parses as the instruction word with argument `arg`, and is left as it is by the cleaning |
| Assembler.Effects | hrmulator/Assembler.py:90-92 | one effect per line, in order |
| Assembler.EffectsPrefix | hrmulator/Assembler.py:90-92 | proof step: a prefix of the lines is read as the whole text reads it (line numbers count from 1) |
| Assembler.EffectsSnoc | hrmulator/Assembler.py:90-92 | proof step: one more line adds its effect, read with the next line number |
| Assembler.EffectsInit | hrmulator/Assembler.py:90-92 | proof step: without its last line a text emits one instruction fewer exactly when that line emits, and fails on no line if the whole text fails on none |
| Assembler.PerformPrefix | hrmulator/Assembler.py:91-155 | proof step: one more effect is one more turn of the loop |
| Assembler.PerformKeepsError | hrmulator/Assembler.py:128-155 | once the loop has raised, later lines change nothing |
| Assembler.PerformFirstError | hrmulator/Assembler.py:128-155 | a rejected turn after successful ones is the loop's error |
| Assembler.PerformTurn | hrmulator/Assembler.py:102-155 | proof step: after successful turns: a skipped line keeps the assembly, a label records the current step, an instruction is appended, a rejection is the result |
| Assembler.Turn | hrmulator/Assembler.py:92-155 | proof step: the loop body for one line: it either continues with the assembly the fold gives for the lines so far (with `step` equal to the program length) or stops with exactly the error of `_assemble_program` |
| Assembler.AssembleProgram | hrmulator/Assembler.py:74-157 | the line loop returns exactly `Assemble(lines)` |
| Assembler.AssembleProgramText | hrmulator/Assembler.py:69-72 | `assemble_program_text` is `Assemble` of the text split at newlines |
| Assembler.PerformShape | hrmulator/Assembler.py:89-153 | a completed loop has one instruction per emitting line, no rejected line, and every label's step in `[0, len(program)]` |
| Assembler.EmittedLines | hrmulator/Assembler.py:102-153 | when no line fails, the emitting lines are exactly the instruction lines |
| Assembler.AssembleShape | hrmulator/Assembler.py:89-153 | a successful assembly has one instruction per instruction line and every label's step in `[0, len(program)]` |
| Assembler.AssembleSnoc | hrmulator/Assembler.py:91-155 | proof step: assembling one more line is one more turn on the assembly so far |
| Assembler.AssembleBlankLine | hrmulator/Assembler.py:95-103 | a blank, whitespace-only or comment-only line changes nothing |
| Assembler.AssembleLabelLine | hrmulator/Assembler.py:106-109 | a label line records the number of instructions so far, replacing an earlier position of that label, and emits nothing |
| Assembler.AssembleInstructionLine | hrmulator/Assembler.py:125-153 | an instruction line appends exactly its instruction and keeps the labels |
| Assembler.PerformErrorAt | hrmulator/Assembler.py:128-155 | a failed loop's error is the effect of its first failing turn, and every turn before it succeeded |
| Assembler.AssembleErrorLine | hrmulator/Assembler.py:90-155 | an error carries the number of the first failing line, and every earlier line assembles |
| Assembler.FirstErrorWins | hrmulator/Assembler.py:128-155 | the first failing line decides the result, whatever follows it |
| Computer.ExecOnce | hrmulator/Computer.py:72-76 | one turn of `run`: a completed step goes on from the state it produced; an empty inbox ends the run normally; any other exception ends it with that exception |
| Computer.ExecStops | hrmulator/Computer.py:73 | with the counter past the program, the run has finished where it stands |
| Computer.Continues | hrmulator/Computer.py:73-74 | proof step: a completed first instruction counts one step and hands the run to the next state |
| Computer.Raises | hrmulator/Computer.py:72-76 | a raising first instruction ends the run in its first state: normally for an empty inbox, with the exception otherwise |
| Computer.NeedsFuel | hrmulator/Computer.py:73-74 | proof step: inside the program, a run that ended had a bound left |
| Computer.EndsWithStep | hrmulator/Computer.py:73-74 | proof step: a completed instruction comes before whatever the next state goes on to output |
| Computer.StepFollows | hrmulator/Instructions.py:78-292 | a completed step keeps program, table and labels, counts one step, only appends to the outbox and only takes from the front of the inbox |
| Computer.FollowsTransitive | hrmulator/Computer.py:73-74 | proof step: those guarantees compose over several steps |
| Computer.ExecFollows | hrmulator/Computer.py:69-77 | whatever the bound, a run ends in a state that follows its start, with the counter non-negative and at most one step counted per instruction |
| Computer.ExecEnds | hrmulator/Computer.py:72-76 | a normal end is the counter leaving the program or `move_from_inbox` with nothing to read; any other end is the exception the instruction at the last counter raises |
| Computer.ExecFuelMonotone | hrmulator/Computer.py:73 | a run that has ended ends the same way with any larger bound |
| Computer.OneMoreFuel | hrmulator/Computer.py:73 | proof step: the same for one more instruction |
| Computer.EndedRunStaysEnded | hrmulator/Computer.py:73 | a run whose first instruction does not complete ends the same way with any larger bound |
| Computer.StepsCountInstructions | hrmulator/Computer.py:71-75 | `total_steps_executed` counts completed instructions: the last state is reached after exactly that many, one fewer leaves the run going; the final failing read is not counted |
| Computer.EndsWhereItStands | hrmulator/Computer.py:72-76 | a run whose first instruction does not complete ends in its first state |
| Computer.CountsOneMore | hrmulator/Computer.py:71-75 | proof step: the step-count argument for one more completed instruction |
| Computer.EmptyInboxEndsAtOnce | hrmulator/Computer.py:69-77 | with no inbox or an empty one, a program starting with `move_from_inbox` ends normally at once, with zero steps and nothing changed |
| Computer.Computer.constructor | hrmulator/Computer.py:21-30 | everything absent except an empty memory |
| Computer.Computer.SetInbox | hrmulator/Computer.py:32-33 | the inbox holds the given values, read from the front; nothing else changes |
| Computer.Computer.LoadProgramText | hrmulator/Computer.py:35-39 | the assembler's program and jump table exactly, with path `'inline'`; an assembler error leaves everything as it was |
| Computer.Computer.ExecuteNoOp | hrmulator/Instructions.py:78-80 | `NoOp.execute` in place is `Step(NoOp)` |
| Computer.Computer.ExecuteMoveFromInbox | hrmulator/Instructions.py:97-102 | in place, exactly `Step`; an exception changes nothing |
| Computer.Computer.ExecuteMoveToOutbox | hrmulator/Instructions.py:108-113 | in place, exactly `Step`; an exception changes nothing |
| Computer.Computer.ExecuteCopyFrom | hrmulator/Instructions.py:136-139 | in place, exactly `Step`; an exception changes nothing |
| Computer.Computer.ExecuteCopyTo | hrmulator/Instructions.py:145-149 | in place, exactly `Step`; an exception changes nothing |
| Computer.Computer.ExecuteAdd | hrmulator/Instructions.py:155-162 | in place, exactly `Step`; an exception changes nothing |
| Computer.Computer.ExecuteSubtract | hrmulator/Instructions.py:168-179 | in place, exactly `Step`; an exception changes nothing |
| Computer.Computer.ExecuteBumpUp | hrmulator/Instructions.py:190-198 | in place, exactly `Step`; an exception changes nothing |
| Computer.Computer.ExecuteBumpDown | hrmulator/Instructions.py:209-217 | in place, exactly `Step`; an exception changes nothing |
| Computer.Computer.ExecuteJump | hrmulator/Instructions.py:254-256 | in place, exactly `Step`; an exception changes nothing |
| Computer.Computer.ExecuteJumpIfZero | hrmulator/Instructions.py:266-272 | in place, exactly `Step`; an exception changes nothing |
| Computer.Computer.ExecuteJumpIfNegative | hrmulator/Instructions.py:286-292 | in place, exactly `Step`; an exception changes nothing |
| Computer.Computer.Execute | hrmulator/Computer.py:74 | `program[pc].execute(self)` is `Step` of the fetched instruction, carried out in place; a raising instruction leaves counter, step count, registers, boxes and memory as they were |
| Computer.Computer.Turn | hrmulator/Computer.py:73-76 | proof step: one loop turn as seen by the whole run: what is left of `Exec` after the instruction at the counter |
| Computer.Computer.Loop | hrmulator/Computer.py:72-77 | proof step: the loop ends as `Exec` says: a normal end clears the counter; another exception leaves the computer at the failing step; the bound leaves it where it stands |
| Computer.Computer.Run | hrmulator/Computer.py:69-77 | `run` starts at step 0 with no steps counted, keeps outbox and memory, and ends as `Exec` from there; with no program the first fetch raises |
| MaximizationRoom.RoomTextLines | hrmulator/Assembler.py:69-71 | proof step: `text.split("\n")` of the test's text gives its eighteen lines, blank first and last line included |
| MaximizationRoom.RoomBlankLines | hrmulator/tests/test_integration_003.py:6-23 | proof step: lines 1, 9, 12 and 18 of the text are blank and skipped |
| MaximizationRoom.RoomLabelLines | hrmulator/tests/test_integration_003.py:7-20 | proof step: lines 2, 13 and 15 record the labels `START`, `A_GREATER_THAN_B` and `FINISH` |
| MaximizationRoom.RoomBareLines | hrmulator/tests/test_integration_003.py:8-21 | proof step: lines 3, 5 and 16 emit the two `move_from_inbox` and the `move_to_outbox` of `Room` |
| MaximizationRoom.RoomArgumentLines | hrmulator/tests/test_integration_003.py:9-22 | proof step: the eight lines with an argument emit the instruction of `Room` on that tile or label name, not indirect |
| MaximizationRoom.RoomEffectsRead | hrmulator/tests/test_integration_003.py:6-23 | proof step: the assembler's loop reads the eighteen lines as three labels, eleven instructions and four skipped lines |
| MaximizationRoom.RoomAssembles | hrmulator/tests/test_integration_003.py:6-23 | `assemble_program_text` of the test's text is `Room` with `START` at 0, `A_GREATER_THAN_B` at 8 and `FINISH` at 9 |
| MaximizationRoom.RoomLinesAssemble | hrmulator/Assembler.py:88-157 | proof step: the assembler's loop over the eighteen lines returns `Room` and `RoomJumps` |
| MaximizationRoom.RoomPerform | hrmulator/Assembler.py:88-157 | proof step: the loop's turns over the room's line effects append the eleven instructions in order and bind the three labels to steps 0, 8 and 9 |
| MaximizationRoom.PairsTail | hrmulator/tests/test_integration_003.py:6-33 | proof step: the values after a pair of numbers are still pairs of numbers |
| MaximizationRoom.MaximaAt | hrmulator/tests/test_integration_003.py:6-33 | the k-th output comes from the k-th pair and is its larger value |
| MaximizationRoom.MaximaSpec | hrmulator/tests/test_integration_003.py:6-33 | one output per pair, one of the pair and no smaller than either |
| MaximizationRoom.ReadFirst | hrmulator/tests/test_integration_003.py:8-11 | proof step: steps 0 and 1 read the first value and store it on tile A |
| MaximizationRoom.ReadSecond | hrmulator/tests/test_integration_003.py:11-12 | proof step: steps 2 and 3 read the second value and store it on tile B |
| MaximizationRoom.Compare | hrmulator/tests/test_integration_003.py:13-14 | proof step: steps 4 and 5 compute `b - a` and jump to `A_GREATER_THAN_B` when it is negative |
| MaximizationRoom.FetchB | hrmulator/tests/test_integration_003.py:15-16 | proof step: steps 6 and 7 fetch B and jump to `FINISH` |
| MaximizationRoom.FetchA | hrmulator/tests/test_integration_003.py:17-18 | proof step: step 8 fetches A |
| MaximizationRoom.OutputAndRepeat | hrmulator/tests/test_integration_003.py:19-21 | proof step: steps 9 and 10 output the accumulator and jump back to `START` |
| MaximizationRoom.OutputLarger | hrmulator/tests/test_integration_003.py:13-21 | proof step: steps 4 to 10 output the larger of A and B and return to `START` |
| MaximizationRoom.BackAtStart | hrmulator/tests/test_integration_003.py:6-33 | proof step: after a pair the room is back at `START` with its labels and boxes |
| MaximizationRoom.OnePair | hrmulator/tests/test_integration_003.py:6-33 | proof step: one pair: back at `START`, the larger value output, nine or ten instructions counted |
| MaximizationRoom.RoomEnds | hrmulator/Computer.py:72-77 | at `START` with nothing left to read, the run ends normally where it stands |
| MaximizationRoom.RoomOutputsMaxima | hrmulator/tests/test_integration_003.py:6-33 | for every inbox of number pairs the room outputs the larger value of each pair, in order, and ends normally after exactly `Cost` instructions |
| MaximizationRoom.MaximizationRoomTest | hrmulator/tests/test_integration_003.py:27-33 | the test's text assembles, and its program and jump table, run with labels A and B on tiles 0 and 1, inbox 3, 8, -9, -3, 2, 2, 4, -9 and an empty outbox list, end normally with outbox 8, -3, 2, 4 after 39 steps, for any bound of at least 40 |
| MaximizationRoom.RoomRunsTestInbox | hrmulator/tests/test_integration_003.py:28-33 | proof step: the same run of `Room`, from the state the test sets up with an empty outbox list |
| MaximizationRoom.MaximizationRoomTestAsWritten | hrmulator/tests/test_integration_003.py:27-33 | as written the test leaves the outbox `None`: the run reads 3 and 8, compares them, and crashes with `TypeFault` at the first `move_to_outbox` (step 9) after 8 counted instructions |
| MaximizationRoom.AsWrittenReads | hrmulator/tests/test_integration_003.py:8-11 | proof step: its first four instructions put 3 on A and 8 on B |
| MaximizationRoom.AsWrittenReadA | hrmulator/tests/test_integration_003.py:8-9 | proof step: steps 0 and 1 of that run put 3 on A |
| MaximizationRoom.AsWrittenReadB | hrmulator/tests/test_integration_003.py:10-11 | proof step: steps 2 and 3 put 8 on B |
| MaximizationRoom.AsWrittenCompares | hrmulator/tests/test_integration_003.py:12-16 | proof step: the next four compute 8 - 3, do not take the negative jump, fetch B and jump to `FINISH` |
| LegacyCpu.CheckInbox | Computer.py:93-95 | `assertInboxIsNotEmpty` passes exactly on a non-empty inbox; otherwise `InboxIsEmptyError` |
| LegacyCpu.CheckAccumulator | Computer.py:97-99 | `assertAccumulatorIsNotEmpty` passes exactly when the accumulator holds a value |
| LegacyCpu.CheckTile | Computer.py:101-103 | `assertMemoryTileIsNotEmpty` passes exactly when the tile holds a value |
| LegacyCpu.Perform | CPUInstructions.py:40-190 | a successful `execute`: a non-jump moves to `pc + 1`, a jump to `pc + 1` or its number; only `move_from_inbox` changes the inbox, only `move_to_outbox` the outbox, only `copy_to` and the bumps the memory; no instruction raises `IndexError` |
| LegacyCpu.PerformFaults | CPUInstructions.py:56-188 | which check stops which instruction, both ways: the inbox for `move_from_inbox`; the accumulator for the four that assert it; the tile for the five that read one; `TypeError` only from `None` in arithmetic or a taken jump to a name |
| LegacyCpu.MoveFromInboxTakesLast | CPUInstructions.py:56-60 | `move_from_inbox` takes the LAST inbox element into the accumulator |
| LegacyCpu.BumpKeepsAccumulatorEqualToTile | CPUInstructions.py:170-190 | the bumps change the tile by one, the accumulator equals the new value, and no other tile changes |
| LegacyCpu.Fetch | Computer.py:57-58 | `program[pc]` succeeds exactly for `-len(program) <= pc < len(program)`, and is the instruction at a non-negative `pc` |
| LegacyCpu.Exec | Computer.py:57-58 | the loop counts at most one step per instruction executed |
| LegacyCpu.Resume | Computer.py:57-58 | proof step: the same bound after one execute |
| LegacyCpu.ExecStops | Computer.py:57 | with no turn left, the run has finished (counter past the end), crashed on `IndexError` (counter below `-len(program)`), or reached the bound |
| LegacyCpu.ExecTurn | Computer.py:57-58 | proof step: one turn is the fetched instruction's `execute`, then the rest of the run |
| LegacyCpu.Continues | Computer.py:57-58 | proof step: a successful turn hands the rest of the run to the next machine |
| LegacyCpu.ResolvedStepStaysNonNegative | CPUInstructions.py:134-160 | with every jump bound to a non-negative number, a step leaves the counter non-negative |
| LegacyCpu.ResolvedRunsNeverMisfetch | Computer.py:57-58 | such a program run from a non-negative counter never indexes outside itself, and a `TypeError` comes only from `add`/`subtract` on an empty accumulator |
| LegacyCpu.ExecMoreFuel | Computer.py:57 | a run that ended ends the same way with any larger bound |
| LegacyCpu.ReverseReverses | tomorrowCPU.py:177-193 | the reversal puts the last element first |
| LegacyCpu.EchoRound | tomorrowCPU.py:180-184 | proof step: one round of the echo program moves the last inbox value to the outbox in three steps and returns to step 0 |
| LegacyCpu.EchoReversesInbox | tomorrowCPU.py:177-193 | the echo program copies any inbox to the outbox in reverse, three steps per value, and ends with the empty-inbox exception at step 0 |
| LegacyComputer.Computer.constructor | Computer.py:23-32 | `Computer()`: empty boxes, program, memory and break points; no counter, step count, accumulator or path |
| LegacyComputer.Computer.IsRunning | Computer.py:89-91 | when `is_running()` holds, the next fetch succeeds; when it fails at a non-negative counter, a run from there ends at once |
| LegacyComputer.Computer.LoadProgram | Computer.py:34-38 | the assembled program and the path, with the break points cleared; an assembler exception changes nothing |
| LegacyComputer.Computer.Execute | CPUInstructions.py:40-190 | each `execute` in place is `Perform` plus exactly one more step; a raising instruction changes nothing |
| LegacyComputer.Computer.ApplyJump | CPUInstructions.py:134-160 | the three jumps in place are `Perform` |
| LegacyComputer.Computer.ApplyData | CPUInstructions.py:40-190 | the other nine classes in place are `Perform` |
| LegacyComputer.Computer.Turn | Computer.py:57-58 | proof step: one loop turn as seen by the whole run |
| LegacyComputer.Computer.Loop | Computer.py:56-61 | proof step: the loop ends as `Exec` says; the empty-inbox exception is a normal end and clears the counter |
| LegacyComputer.Computer.Run | Computer.py:53-61 | `run` starts at 0 with no steps counted and keeps boxes, accumulator and memory; it ends as `Exec` from there |
| LegacyComputer.AssembledRunsNeverMisfetch | Assembler.py:42-52 | a program the root assembler produced never indexes outside itself when run, and crashes with `TypeError` only in `add`/`subtract` on an empty accumulator |
| LegacyAssembler.ClassRun | Assembler.py:11-13 | a greedy `[...]+` ends before a character outside the class |
| LegacyAssembler.ClassRunSpec | Assembler.py:11-13 | that run consists of characters of the class |
| LegacyAssembler.ClassRunOf | Assembler.py:11-13 | proof step: a run followed by a character outside the class is the whole match |
| LegacyAssembler.ArgValue | Assembler.py:32-35 | `int(arg)` succeeds exactly on a non-empty all-digit argument, and its number is the one Python's `int()` reads, never negative; otherwise the name stays as written |
| LegacyAssembler.ArgValueIsIntOf | Assembler.py:32-35 | on every argument the pattern captures (digits, or `[A-Z_]` letters) the conversion is Python's `int()`: its number when `int()` reads one, the name when `int()` raises `ValueError` |
| LegacyAssembler.WithArg | Assembler.py:36 | `klass(arg)`: a jump's destination or a tile instruction's tile is the argument |
| LegacyAssembler.Instantiate | Assembler.py:29-38 | building fails exactly for an unknown opcode (`KeyError`) or a missing argument; a jump's destination is the converted argument |
| LegacyAssembler.InstantiateSymbol | Assembler.py:29-38 | each catalog token builds its own class: without argument when it takes none, otherwise on the converted argument, which it requires |
| LegacyAssembler.UpperCaseOpcodeIsUnknown | Assembler.py:29 | the lookup is case-sensitive: an opcode starting upper case is a `KeyError` |
| LegacyAssembler.ScanPrefix | Assembler.py:19-40 | proof step: one more line is one more turn of the first loop |
| LegacyAssembler.ScanKeepsError | Assembler.py:19-40 | proof step: once the first loop has raised, later lines change nothing |
| LegacyAssembler.ResolvePrefix | Assembler.py:43-50 | proof step: one more instruction is one more turn of the fix-up loop |
| LegacyAssembler.ResolveKeepsError | Assembler.py:43-50 | proof step: once the fix-up has raised, later instructions change nothing |
| LegacyAssembler.ScanLines | Assembler.py:15-40 | the first loop returns exactly `Scan(lines)` |
| LegacyAssembler.FixUp | Assembler.py:42-50 | the fix-up loop returns exactly `ResolveAll(program, jump_table)` |
| LegacyAssembler.AssembleProgram | Assembler.py:10-52 | `assemble_program` returns exactly `Assemble(lines)` |
| LegacyAssembler.ResolveAllSpec | Assembler.py:42-50 | the fix-up succeeds exactly when each instruction's does, keeps the length and fixes each instruction where it stands |
| LegacyAssembler.AbsorbShape | Assembler.py:21-40 | proof step: one line adds an instruction exactly when it is a statement, and keeps non-negative jump numbers and table steps within the program |
| LegacyAssembler.ScanShape | Assembler.py:17-40 | after the first loop: one instruction per statement line, jump numbers non-negative, every label's step in `[0, len(program)]` |
| LegacyAssembler.LabelStep | Assembler.py:21-24 | a label's step is the number of statements before its LAST label line |
| LegacyAssembler.AbsorbTable | Assembler.py:21-24 | proof step: reading a line adds to the table at most the name it labels |
| LegacyAssembler.LabelTableGrows | Assembler.py:21-24 | the same, for one more line of the loop |
| LegacyAssembler.TableNamesAreLabelled | Assembler.py:21-24 | proof step: every name in the table is labelled by some line |
| LegacyAssembler.LabelledNamesAreInTable | Assembler.py:21-24 | proof step: every name some line labels is in the table |
| LegacyAssembler.LabelledInPrefix | Assembler.py:21-24 | proof step: the same, for the lines before the last |
| LegacyAssembler.LabelsComeFromLines | Assembler.py:21-24 | the table holds exactly the names the lines label |
| LegacyAssembler.AssembledJumpsResolved | Assembler.py:42-52 | an assembled program has one instruction per statement line, and every jump is bound to a non-negative number |
| LegacyAssembler.FirstLoopErrorWins | Assembler.py:19-43 | an exception of the first loop is the result; later lines and the fix-up are not reached |
| LegacyAssembler.UnlabelledJumpFails | Assembler.py:46-49 | a jump to a name no line labels fails the fix-up, once every line has been read |
| LegacyAssembler.ResolveErrorIsUnknownLabel | Assembler.py:46-49 | the fix-up raises nothing but the failed `int()` of an unknown label |
| LegacyAssembler.LabelLine | Assembler.py:21-24 | an upper-case name directly followed by `:` is a label line, whatever follows |
| LegacyAssembler.StatementLine | Assembler.py:12-27 | indentation, then an opcode of letters, is a statement whose argument comes from what follows the opcode |
| LegacyAssembler.DigitOperand | Assembler.py:13 | a run of digits is the argument, whatever non-digit follows |
| LegacyAssembler.NameOperand | Assembler.py:13 | a run of `[A-Z_]` is the argument, whatever follows outside the class |
| LegacyAssembler.BracketedOperand | Assembler.py:13 | a `[` before the argument is dropped |
| LegacyAssembler.ArgumentAfterSpace | Assembler.py:13 | whitespace, then a run of digits or of `[A-Z_]`, is the argument, with or without a `[` before it |
| LegacyAssembler.ArgumentLine | Assembler.py:12-31 | an opcode, whitespace and an argument run make a statement with that argument |
| LegacyAssembler.BracketsAreIgnored | Assembler.py:13-36 | `op [7]` and `op 7` read alike: brackets carry no indirection |
| LegacyAssembler.LowerCaseLabelIsStatement | Assembler.py:11-14 | a lower-case word before `:` is not a label; it is read as a statement without argument |
| LegacyAssembler.CommentLineIsOther | Assembler.py:11-14 | a line starting with `#` matches neither pattern |
| LegacyAssembler.CommentLinesAreSkipped | Assembler.py:19-28 | the first loop skips such a line: nothing changes |
| LegacyAssembler.CatalogSymbolsAreLowerWords | CPUInstructions.py:6-19 | every token is a word of `[a-zA-Z_]` starting lower case |
| LegacyAssembler.SymbolLine | Assembler.py:12-27 | an indented catalog token is a statement naming that token |
| Tomorrow.Computer.constructor | tomorrowCPU.py:10-16 | empty boxes, program and memory, the counter at 0, no accumulator |
| Tomorrow.Computer.Execute | tomorrowCPU.py:38-173 | each `execute` in place is `Perform`; a raising instruction changes nothing; the program never changes |
| Tomorrow.Computer.ApplyJump | tomorrowCPU.py:126-145 | the three jumps in place are `Perform` |
| Tomorrow.Computer.ApplyData | tomorrowCPU.py:42-173 | the other nine classes in place are `Perform` |
| Tomorrow.Computer.RunProgram | tomorrowCPU.py:18-21 | `run_program` starts at 0 and ends as `Exec` says; every exception, the empty inbox included, escapes |
| Tomorrow.EchoMain | tomorrowCPU.py:177-193 | `main`'s echo program on inbox 1..6 ends with the empty-inbox exception and the outbox 6, 5, 4, 3, 2, 1 |

## Left out

- Printing and presentation: `__str__`, `colored_str`, `print_program`, `print_run_program` and `dump_program`, with colorama and termcolor.
- File reading: `assemble_program_file` and the `open()` of the root `Assembler.py` are I/O. Both assemblers take the lines as a list. `load_program(program_path=...)` is left out for the same reason. `Computer.Computer.LoadProgramText` models the text path.
- hrmulator/Debugger.py is not part of this model. It is an interactive terminal loop and calls helpers that do not exist.
- Non-termination: every run loop takes a bound on the number of instructions. A program that never reads an empty inbox is only described up to that bound, by the `OutOfFuel`/`Stopped` outcome.
- Python's `int()` is modelled for ASCII digits, with whitespace, a sign and single underscores. Unicode digits are left out. `\w`, `\s` and `lower()` are modelled over ASCII; Unicode letters and digits are left out.
- Dynamic-type crashes are one `TypeFault`, not distinct `TypeError`/`AttributeError` values. Examples are `None.append`, `'A' < 0`, and comparing an unresolved jump name with the counter.
- LegacyCpu.Perform: a taken jump to a name is a `TypeFault` at the jump, with the counter and step count unchanged. In Python the jump first stores the name in the counter (and counts a step), and the `TypeError` comes from the next loop test. Only hand-built programs of tomorrowCPU.py can hold such a jump: the root assembler binds or rejects every name.
- LegacyComputer.Computer: values are ints only, as every value the root assembler and `main` put in the machine is an int. `break_points` is only cleared, since nothing in the modelled code reads it.
- Memory.Value: only ints and one-character strings are values here. The Python code stores whatever it is given, so bools, floats, longer strings or `None` in the inbox, in `Memory(values=...)` or on a tile are not modelled, nor what `add`, `subtract`, `bump_up`, `bump_down` and the jumps' comparisons do with them.
- MaximizationRoomTest: it supplies the empty outbox list that test_integration_003.py never sets. `MaximizationRoomTestAsWritten` states what the test as written does: the first `move_to_outbox` raises.
- Utilities.IntIfPossible: a float is an integer numerator and a power-of-ten denominator, and `int()` truncates it toward zero. Other float behaviour (infinities, NaN, rounding of the literal) is left out.
- Expectations of the repository's tests that its code contradicts are not modelled:
  - `None` for an empty tile in test_Memory.py;
  - the `list(None)` of test_Computer.py;
  - the outboxes of integration tests 000 to 002, whose `[A]` arguments the current assembler makes indirect;
  - the outbox 8, -3, 2, 4 of integration test 003, which never gives the computer an outbox list (`MaximizationRoomTestAsWritten`).
