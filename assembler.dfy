/**
 * hrmulator/Assembler.py: program text to `(program, jump_table)`.  Each line
 * loses its comment and surrounding whitespace, and is then a label (which
 * records the number of instructions emitted so far), an instruction with an
 * optional direct or `[indirect]` argument, or an error carrying its 1-based
 * line number.  `Assemble` is the meaning of the line loop, a fold over the
 * lines; `AssembleProgram` is the loop itself.
 */
module Assembler {
  import opened Wrappers
  import opened PyBuiltins
  import opened Memory
  import opened Instructions

  /** The four AssemblerError subclasses, plus the TypeError Jump's `__init__` raises for an `[argument]` (no line number). */
  datatype AsmError =
    | ArgumentRequired(lineNumber: nat, text: string)
    | UnexpectedArgument(lineNumber: nat, text: string)
    | UnknownInstruction(lineNumber: nat, text: string)
    | SyntaxError(lineNumber: nat, text: string)
    | IndirectJump  // the TypeError of a jump given an [argument]

  /** What `_assemble_program` returns: the instructions, and each label's step number. */
  datatype Assembly = Assembly(program: seq<Instruction>, jumpTable: map<string, int>)

  // ---------------------------------------------------------------- lines

  /** `text.split("\n")`. */
  function SplitLines(text: string): (lines: seq<string>)
    ensures |lines| >= 1
  {
    if text == [] then [[]]
    else
      var rest := SplitLines(text[1..]);
      if text[0] == '\n' then [[]] + rest
      else [[text[0]] + rest[0]] + rest[1..]
  }

  /** No piece of a split holds a newline. */
  lemma {:induction false} SplitLinesNoNewline(text: string)
    ensures forall i :: 0 <= i < |SplitLines(text)| ==> '\n' !in SplitLines(text)[i]
  {
    if text != [] {
      SplitLinesNoNewline(text[1..]);
      var rest := SplitLines(text[1..]);
      if text[0] != '\n' {
        assert '\n' !in [text[0]] + rest[0];
      }
    }
  }

  /** `"\n".join(lines)`. */
  function JoinLines(lines: seq<string>): string
    requires |lines| >= 1
  {
    if |lines| == 1 then lines[0] else lines[0] + "\n" + JoinLines(lines[1..])
  }

  /** Joining the pieces of a split gives back the text. */
  lemma {:induction false} JoinSplitLines(text: string)
    ensures JoinLines(SplitLines(text)) == text
  {
    if text != [] {
      var rest := SplitLines(text[1..]);
      JoinSplitLines(text[1..]);
      if text[0] != '\n' && |rest| > 1 {
        assert rest == [rest[0]] + rest[1..];
        assert JoinLines(rest) == rest[0] + "\n" + JoinLines(rest[1..]);
        assert SplitLines(text)[1..] == rest[1..];
      }
    }
  }

  /** A character other than a newline joins the first line of what follows it. */
  lemma SplitLinesCons(c: char, t: string)
    requires c != '\n'
    ensures SplitLines([c] + t) == [[c] + SplitLines(t)[0]] + SplitLines(t)[1..]
  {
    assert ([c] + t)[1..] == t;
  }

  /** Splitting a text that starts with a newline-free piece puts that piece in front of the first line. */
  lemma {:induction false} SplitLinesPrefix(w: string, t: string)
    requires '\n' !in w
    ensures SplitLines(w + t) == [w + SplitLines(t)[0]] + SplitLines(t)[1..]
  {
    var s := SplitLines(t);
    if w != [] {
      assert w + t == [w[0]] + (w[1..] + t);
      assert w[0] in w;
      SplitLinesCons(w[0], w[1..] + t);
      SplitLinesPrefix(w[1..], t);
      assert [w[0]] + (w[1..] + s[0]) == w + s[0];
    } else {
      assert w + t == t && w + s[0] == s[0];
      assert s == [s[0]] + s[1..];
    }
  }

  /** Splitting the join of newline-free lines gives the lines back. */
  lemma {:induction false} SplitJoinLines(lines: seq<string>)
    requires |lines| >= 1
    requires forall i :: 0 <= i < |lines| ==> '\n' !in lines[i]
    ensures SplitLines(JoinLines(lines)) == lines
  {
    if |lines| == 1 {
      SplitLinesPrefix(lines[0], []);
      assert lines[0] + [] == lines[0];
      assert SplitLines([]) == [[]];
    } else {
      SplitJoinLines(lines[1..]);
      var t := "\n" + JoinLines(lines[1..]);
      assert t[1..] == JoinLines(lines[1..]);
      assert lines[0] + "\n" + JoinLines(lines[1..]) == lines[0] + t;
      SplitLinesPrefix(lines[0], t);
      var s := SplitLines(t);
      assert s == [[]] + SplitLines(t[1..]);
      assert s[0] == [] && s[1..] == lines[1..];
      assert lines[0] + s[0] == lines[0];
      assert JoinLines(lines) == lines[0] + t;
      assert lines == [lines[0]] + lines[1..];
    }
  }

  // --------------------------------------------------------------- comments

  /** Where the last '#' of a line is, if any. */
  function LastHash(line: string): (k: Option<nat>)
    ensures k.Some? ==> k.value < |line| && line[k.value] == '#'
  {
    if line == [] then None
    else if line[|line| - 1] == '#' then Some(|line| - 1)
    else LastHash(line[..|line| - 1])
  }

  /** `LastHash` finds a '#' exactly when there is one, and none follows it. */
  lemma {:induction false} LastHashSpec(line: string)
    ensures LastHash(line).None? <==> '#' !in line
    ensures LastHash(line).Some? ==> '#' !in line[LastHash(line).value + 1..]
  {
    if line != [] && line[|line| - 1] != '#' {
      var front := line[..|line| - 1];
      LastHashSpec(front);
      assert line == front + [line[|line| - 1]];
      if LastHash(front).Some? {
        var k := LastHash(front).value;
        assert line[k + 1..] == front[k + 1..] + [line[|line| - 1]];
      }
    }
  }

  /**
   * The match of `(.*)#.*` keeps group 1: the greedy `.*` backtracks only as
   * far as the LAST '#', so everything before it is kept, earlier '#'s included.
   */
  function StripComment(line: string): string
  {
    match LastHash(line)
    case None => line
    case Some(k) => line[..k]
  }

  /** A line without '#' is kept whole; otherwise the cut is at a '#' with none after it. */
  lemma StripCommentSpec(line: string)
    ensures var r := StripComment(line);
      && ('#' !in line ==> r == line)
      && ('#' in line ==> |r| < |line| && line[|r|] == '#' && r == line[..|r|] && '#' !in line[|r| + 1..])
  {
    LastHashSpec(line);
  }

  /** With at most one '#', the comment is exactly the text from the '#' on. */
  lemma StripCommentSingleHash(line: string, k: nat)
    requires k < |line| && line[k] == '#'
    requires forall j :: 0 <= j < |line| && j != k ==> line[j] != '#'
    ensures StripComment(line) == line[..k]
  {
    StripCommentSpec(line);
    var r := StripComment(line);
    assert line[k] in line;
    assert line[|r|] == '#';
  }

  /** A '#' inside the comment itself moves the cut: text between the first and last '#' is kept. */
  lemma StripCommentKeepsEarlierHash(code: string, note: string, more: string)
    requires '#' !in code && '#' !in note && '#' !in more
    ensures StripComment(code + "#" + note + "#" + more) == code + "#" + note
  {
    var line := code + "#" + note + "#" + more;
    var k := |code| + 1 + |note|;
    assert line[k] == '#';
    forall j | 0 <= j < |line| && j > k
      ensures line[j] != '#'
    {
      assert line[j] == more[j - k - 1];
    }
    StripCommentSpec(line);
    var r := StripComment(line);
    assert line[k] in line;
    assert line[..k] == code + "#" + note;
  }

  /** The text of a line that the patterns see: comment removed, then `strip()`ped. */
  function CleanLine(line: string): string
  {
    Strip(StripComment(line))
  }

  // --------------------------------------------------------------- patterns

  /** `\w`, over ASCII. */
  predicate IsWordChar(c: char)
  {
    ('a' <= c <= 'z') || ('A' <= c <= 'Z') || ('0' <= c <= '9') || c == '_'
  }

  predicate AllWord(s: string)
  {
    forall i :: 0 <= i < |s| ==> IsWordChar(s[i])
  }

  predicate AllSpace(s: string)
  {
    forall i :: 0 <= i < |s| ==> IsSpace(s[i])
  }

  /** The length of the longest `\w*` prefix. */
  function WordRun(s: string): (n: nat)
    ensures n <= |s|
    ensures n < |s| ==> !IsWordChar(s[n])
  {
    if s == [] || !IsWordChar(s[0]) then 0 else 1 + WordRun(s[1..])
  }

  /** The run is made of word characters. */
  lemma {:induction false} WordRunSpec(s: string)
    ensures AllWord(s[..WordRun(s)])
  {
    if s != [] && IsWordChar(s[0]) {
      WordRunSpec(s[1..]);
      var n := WordRun(s);
      assert s[..n] == [s[0]] + s[1..][..n - 1];
    }
  }

  /** The length of the longest `\s*` prefix. */
  function SpaceRun(s: string): (n: nat)
    ensures n <= |s|
    ensures n < |s| ==> !IsSpace(s[n])
  {
    if s == [] || !IsSpace(s[0]) then 0 else 1 + SpaceRun(s[1..])
  }

  /** The run is made of whitespace. */
  lemma {:induction false} SpaceRunSpec(s: string)
    ensures AllSpace(s[..SpaceRun(s)])
  {
    if s != [] && IsSpace(s[0]) {
      SpaceRunSpec(s[1..]);
      var n := SpaceRun(s);
      assert s[..n] == [s[0]] + s[1..][..n - 1];
    }
  }

  /** A word followed by a non-word character (or nothing) is the whole word run. */
  lemma {:induction false} WordRunOfWord(w: string, rest: string)
    requires AllWord(w)
    requires rest == [] || !IsWordChar(rest[0])
    ensures WordRun(w + rest) == |w|
  {
    if w != [] {
      assert (w + rest)[1..] == w[1..] + rest;
      WordRunOfWord(w[1..], rest);
    }
  }

  /** Whitespace followed by a non-space character (or nothing) is the whole space run. */
  lemma {:induction false} SpaceRunOfSpace(w: string, rest: string)
    requires AllSpace(w)
    requires rest == [] || !IsSpace(rest[0])
    ensures SpaceRun(w + rest) == |w|
  {
    if w != [] {
      assert (w + rest)[1..] == w[1..] + rest;
      SpaceRunOfSpace(w[1..], rest);
    }
  }

  /** What a cleaned line is, by the first pattern of the loop that matches it. */
  datatype Statement =
    | Blank                                                // `not line`
    | LabelDef(name: string)                               // label_re
    | Op(word: string, arg: Option<string>, indirect: bool) // instruction_with_arg_re, indirect_tile_instruction_re, instruction_re
    | Malformed                                            // none of them

  /**
   * `re.match` of the patterns, in the loop's order.  `\w` and `\s` share no
   * character, so every `+` in them takes the longest run.
   */
  function Parse(t: string): Statement
  {
    var n := WordRun(t);
    if t == [] then Blank
    else if n == 0 then Malformed
    else if n < |t| && t[n] == ':' then LabelDef(t[..n])
    else ParseOperand(t[..n], t[n..])
  }

  /** What follows the leading word of an instruction line: nothing, whitespace and a word, or whitespace and `[word]`. */
  function ParseOperand(word: string, rest: string): Statement
  {
    if rest == [] then Op(word, None, false)
    else
      var tail := rest[SpaceRun(rest)..];
      if SpaceRun(rest) == 0 || tail == [] then Malformed
      else if WordRun(tail) == |tail| then Op(word, Some(tail), false)
      else if Bracketed(tail) then Op(word, Some(tail[1..|tail| - 1]), true)
      else Malformed
  }

  /** `\[(\w+)\]` filling the whole of `s`. */
  predicate Bracketed(s: string)
  {
    |s| >= 3 && s[0] == '[' && s[|s| - 1] == ']' && WordRun(s[1..]) == |s| - 2
  }

  /** `(\w+):` matches at the start exactly when a word is followed by ':'; the rest of the line is ignored. */
  lemma ParseLabel(t: string, w: string)
    requires t != []
    ensures Parse(t) == LabelDef(w) <==> 0 < |w| < |t| && t[..|w|] == w && t[|w|] == ':' && AllWord(w)
  {
    WordRunSpec(t);
    if 0 < |w| < |t| && t[..|w|] == w && t[|w|] == ':' && AllWord(w) {
      assert t == w + t[|w|..];
      WordRunOfWord(w, t[|w|..]);
    }
  }

  /** `(\w+)$`: the whole line is one word. */
  lemma ParseBare(t: string, w: string)
    ensures Parse(t) == Op(w, None, false) <==> t == w && w != [] && AllWord(w)
  {
    WordRunSpec(t);
    if t == w && w != [] && AllWord(w) {
      WordRunOfWord(w, []);
      assert w + [] == w;
    }
  }

  /** `(\w+)\s+(\w+)$` matches a word, whitespace and a word making up the line. */
  lemma ParseWithArgument(w: string, space: string, a: string)
    requires w != [] && AllWord(w) && space != [] && AllSpace(space) && a != [] && AllWord(a)
    ensures Parse(w + space + a) == Op(w, Some(a), false)
  {
    var t := w + space + a;
    assert t == w + (space + a);
    assert !IsWordChar((space + a)[0]) by { assert IsSpace(space[0]); }
    WordRunOfWord(w, space + a);
    assert t[|w|..] == space + a && t[..|w|] == w;
    assert !IsSpace(a[0]) by { assert IsWordChar(a[0]); }
    SpaceRunOfSpace(space, a);
    assert (space + a)[|space|..] == a;
    WordRunOfWord(a, []);
    assert a + [] == a;
  }

  /** `(\w+)\s+\[(\w+)\]$` matches a word, whitespace and a bracketed word making up the line. */
  lemma ParseIndirect(w: string, space: string, a: string)
    requires w != [] && AllWord(w) && space != [] && AllSpace(space) && a != [] && AllWord(a)
    ensures Parse(w + space + "[" + a + "]") == Op(w, Some(a), true)
  {
    var rest := space + "[" + a + "]";
    assert w + space + "[" + a + "]" == w + rest;
    assert rest[0] == space[0];
    ParseWordThen(w, rest);
    OperandIndirect(w, space, a);
  }

  /** A word followed by a character that is neither a word character nor `:` is an instruction word. */
  lemma ParseWordThen(w: string, rest: string)
    requires w != [] && AllWord(w) && rest != [] && IsSpace(rest[0])
    ensures Parse(w + rest) == ParseOperand(w, rest)
  {
    assert !IsWordChar(rest[0]);
    WordRunOfWord(w, rest);
    assert (w + rest)[|w|..] == rest && (w + rest)[..|w|] == w;
  }

  lemma OperandIndirect(w: string, space: string, a: string)
    requires space != [] && AllSpace(space) && a != [] && AllWord(a)
    ensures ParseOperand(w, space + "[" + a + "]") == Op(w, Some(a), true)
  {
    var tail := "[" + a + "]";
    var rest := space + tail;
    BracketedWord(a);
    SpaceRunOfSpace(space, tail);
    assert rest[SpaceRun(rest)..] == tail;
    assert space + "[" + a + "]" == rest;
    assert WordRun(tail) != |tail|;
    assert ParseOperand(w, rest) == Op(w, Some(tail[1..|tail| - 1]), true);
  }

  /** `[word]` is bracketed around that word, and starts with no word character. */
  lemma BracketedWord(a: string)
    requires a != [] && AllWord(a)
    ensures var tail := "[" + a + "]";
      Bracketed(tail) && tail[1..|tail| - 1] == a && WordRun(tail) == 0 && !IsSpace(tail[0])
  {
    var tail := "[" + a + "]";
    assert tail[1..] == a + "]";
    WordRunOfWord(a, "]");
    assert tail[1..|tail| - 1] == a;
  }

  lemma BracketedShape(s: string)
    requires Bracketed(s)
    ensures s == "[" + s[1..|s| - 1] + "]" && s[1..|s| - 1] != [] && AllWord(s[1..|s| - 1])
  {
    WordRunSpec(s[1..]);
    assert s[1..][..|s| - 2] == s[1..|s| - 1];
  }

  /** What follows the leading word of an instruction with an argument: whitespace, then the (possibly bracketed) argument. */
  lemma OperandShape(word: string, rest: string)
    requires ParseOperand(word, rest).Op? && ParseOperand(word, rest).arg.Some?
    ensures var p := ParseOperand(word, rest);
      var tail := if p.indirect then "[" + p.arg.value + "]" else p.arg.value;
      && p.word == word
      && |tail| < |rest| && rest == rest[..|rest| - |tail|] + tail
      && AllSpace(rest[..|rest| - |tail|])
      && p.arg.value != [] && AllWord(p.arg.value)
  {
    var m := SpaceRun(rest);
    SpaceRunSpec(rest);
    var tail := rest[m..];
    WordRunSpec(tail);
    assert rest == rest[..m] + tail;
    if ParseOperand(word, rest).indirect {
      BracketedShape(tail);
    }
  }

  /** An instruction line is its leading word run followed by an operand. */
  lemma ParseOp(t: string)
    requires Parse(t).Op?
    ensures 0 < WordRun(t) <= |t|
    ensures Parse(t) == ParseOperand(t[..WordRun(t)], t[WordRun(t)..])
  {
  }

  /** Conversely, an instruction line with an argument is a word, whitespace and the (possibly bracketed) argument. */
  lemma ParseOperandShape(t: string)
    requires Parse(t).Op? && Parse(t).arg.Some?
    ensures var p := Parse(t);
      var tail := if p.indirect then "[" + p.arg.value + "]" else p.arg.value;
      && |p.word| + |tail| < |t|
      && t == p.word + t[|p.word|..|t| - |tail|] + tail
      && p.word != [] && AllWord(p.word) && AllSpace(t[|p.word|..|t| - |tail|])
      && p.arg.value != [] && AllWord(p.arg.value)
  {
    var p := Parse(t);
    ParseOp(t);
    var n := WordRun(t);
    WordRunSpec(t);
    OperandShape(t[..n], t[n..]);
    var tail := if p.indirect then "[" + p.arg.value + "]" else p.arg.value;
    SplitAround(t, n, |tail|);
  }

  /** A sequence whose suffix from `n` is a gap and a tail of length `k` is the prefix, the gap and the tail. */
  lemma SplitAround(t: string, n: nat, k: nat)
    requires n + k <= |t|
    ensures t == t[..n] + t[n..|t| - k] + t[|t| - k..]
    ensures t[n..][..|t| - n - k] == t[n..|t| - k] && t[n..][|t| - n - k..] == t[|t| - k..]
  {
  }

  // ---------------------------------------------------------------- building

  /** `str.lower()` of an ASCII word. */
  function Lower(s: string): (r: string)
    ensures |r| == |s|
    ensures forall i :: 0 <= i < |s| ==> ('A' <= s[i] <= 'Z' <==> r[i] != s[i])
    ensures forall i :: 0 <= i < |s| && 'A' <= s[i] <= 'Z' ==> r[i] as int == s[i] as int + 32
  {
    if s == [] then []
    else [LowerChar(s[0])] + Lower(s[1..])
  }

  /** `lower()` of one character: an upper-case ASCII letter becomes its lower-case form. */
  function LowerChar(c: char): char
  {
    if 'A' <= c <= 'Z' then (c as int + 32) as char else c
  }

  /** Each character of `Lower(s)` is the lower-case form of the character of `s` there. */
  lemma LowerAt(s: string, i: nat)
    requires i < |s|
    ensures Lower(s)[i] == LowerChar(s[i])
  {
  }

  /** Two characters have the same lower-case form exactly when they are the same letter. */
  lemma SameLetterLowerChar(c: char, d: char)
    ensures SameLetter(c, d) <==> LowerChar(c) == LowerChar(d)
  {
  }

  /** Two characters that are the same ASCII letter in either case, or simply equal. */
  predicate SameLetter(c: char, d: char)
  {
    || c == d
    || ('A' <= c <= 'Z' && d as int == c as int + 32)
    || ('A' <= d <= 'Z' && c as int == d as int + 32)
  }

  /** Two words that differ only in the case of their ASCII letters. */
  predicate SameIgnoringCase(a: string, b: string)
  {
    |a| == |b| && forall i :: 0 <= i < |a| ==> SameLetter(a[i], b[i])
  }

  /** No character of `s` is an upper-case ASCII letter. */
  predicate NoUpper(s: string)
  {
    forall i :: 0 <= i < |s| ==> !('A' <= s[i] <= 'Z')
  }

  /** `a.lower() == b.lower()` exactly when the words differ only in case. */
  lemma LowerIgnoresCase(a: string, b: string)
    requires |a| == |b|
    ensures Lower(a) == Lower(b) <==> SameIgnoringCase(a, b)
  {
    forall i | 0 <= i < |a|
      ensures Lower(a)[i] == Lower(b)[i] <==> SameLetter(a[i], b[i])
    {
      LowerAt(a, i);
      LowerAt(b, i);
      SameLetterLowerChar(a[i], b[i]);
    }
    if SameIgnoringCase(a, b) {
      assert forall i :: 0 <= i < |a| ==> Lower(a)[i] == Lower(b)[i];
    }
  }

  /** Lower-casing leaves a word without upper-case letters as it is. */
  lemma LowerOfNoUpper(s: string)
    requires NoUpper(s)
    ensures Lower(s) == s
  {
  }

  /** The argument after `int(arg)` was tried: a step or tile number when it converts, otherwise a name. */
  function ArgumentKey(arg: string): (k: Key)
    ensures k.Name? ==> k.name == arg
  {
    match ParseInt(arg)
    case Some(n) => Index(n)
    case None => Name(arg)
  }

  /** A word argument becomes a number exactly when it is digit groups; `jump_to START` keeps its label. */
  lemma ArgumentKeyOfWord(arg: string)
    requires arg != [] && AllWord(arg)
    ensures ArgumentKey(arg).Index? <==> IsDigitGroups(arg)
    ensures IsDigitGroups(arg) ==> ArgumentKey(arg) == Index(DigitsValue(arg))
  {
    assert IsWordChar(arg[0]) && IsWordChar(arg[|arg| - 1]);
    StripUnchanged(arg);
  }

  /**
   * `symbol_catalog[symbol]`, the table `Assembler.__init__` builds from the
   * catalog: the class number whose symbol is `symbol`, searching from `k` on.
   */
  function LookupSymbol(symbol: string, k: nat): (r: Option<nat>)
    requires k <= |Catalog|
    ensures r.Some? ==> k <= r.value < |Catalog| && Catalog[r.value] == symbol
    ensures r.None? ==> forall j :: k <= j < |Catalog| ==> Catalog[j] != symbol
    decreases |Catalog| - k
  {
    if k == |Catalog| then None
    else if Catalog[k] == symbol then Some(k)
    else LookupSymbol(symbol, k + 1)
  }

  /**
   * The body of the loop for a line that matched an instruction pattern:
   * lower-case lookup of the symbol, then the argument checks.
   */
  function Instantiate(lineNumber: nat, line: string, word: string, arg: Option<string>, indirect: bool): (r: Result<Instruction, AsmError>)
    ensures r.Ok? ==> Symbol(r.value) == Lower(word)
  {
    match LookupSymbol(Lower(word), 0)
    case None => Err(UnknownInstruction(lineNumber, word))
    case Some(k) =>
      if HasArgument(k) then
        if arg.None? then Err(ArgumentRequired(lineNumber, line))
        else
          match WithArgument(k, ArgumentKey(arg.value), indirect)
          case None => Err(IndirectJump)
          case Some(ins) => Ok(ins)
      else if arg.Some? then Err(UnexpectedArgument(lineNumber, arg.value))
      else Ok(Nullary(k))
  }

  /** What one line does to the assembly: nothing, a label, one more instruction, or an error. */
  datatype LineEffect = Skip | Mark(name: string) | Emit(ins: Instruction) | Reject(error: AsmError)

  /**
   * The loop body's reading of the line numbered `lineNumber`: clean it, match
   * the patterns, build the instruction.  An error names this line.
   */
  function ReadLine(lineNumber: nat, line: string): LineEffect
  {
    var t := CleanLine(line);
    match Parse(t)
    case Blank => Skip
    case LabelDef(name) => Mark(name)
    case Op(word, arg, indirect) =>
      (match Instantiate(lineNumber, t, word, arg, indirect)
       case Ok(ins) => Emit(ins)
       case Err(error) => Reject(error))
    case Malformed => Reject(SyntaxError(lineNumber, t))
  }

  /**
   * A blank line is skipped, a label line marks, an instruction line emits or
   * fails, a malformed line fails; every error but the jump's TypeError names its line.
   */
  lemma ReadLineKinds(lineNumber: nat, line: string)
    ensures var e, s := ReadLine(lineNumber, line), Parse(CleanLine(line));
      && (e.Skip? <==> s.Blank?)
      && (e.Mark? <==> s.LabelDef?)
      && (e.Mark? ==> e.name == s.name)
      && (e.Emit? ==> s.Op?)
      && (s.Malformed? ==> e == Reject(SyntaxError(lineNumber, CleanLine(line))))
      && (e.Reject? && !e.error.IndirectJump? ==> e.error.lineNumber == lineNumber)
  {
    var t := CleanLine(line);
    match Parse(t)
    case Op(word, arg, indirect) =>
      InstantiateNamesLine(lineNumber, t, word, arg, indirect);
    case _ =>
  }

  /** Every error of instantiation but the jump's TypeError names the line. */
  lemma InstantiateNamesLine(lineNumber: nat, line: string, word: string, arg: Option<string>, indirect: bool)
    ensures var r := Instantiate(lineNumber, line, word, arg, indirect);
      r.Err? && !r.error.IndirectJump? ==> r.error.lineNumber == lineNumber
  {
  }

  /** One turn of the loop on what was assembled before: a label records the current step. */
  function AssembleLine(a: Assembly, e: LineEffect): Result<Assembly, AsmError>
  {
    match e
    case Skip => Ok(a)
    case Mark(name) => Ok(a.(jumpTable := a.jumpTable[name := |a.program|]))
    case Emit(ins) => Ok(a.(program := a.program + [ins]))
    case Reject(error) => Err(error)
  }

  /** What each line does, in order; `lines[i]` is line number `i + 1`. */
  function Effects(lines: seq<string>): (es: seq<LineEffect>)
    ensures |es| == |lines|
  {
    seq(|lines|, i requires 0 <= i < |lines| => ReadLine(i + 1, lines[i]))
  }

  /** The turns of the loop, one per effect, stopping at the first error. */
  function Perform(es: seq<LineEffect>): Result<Assembly, AsmError>
  {
    if es == [] then Ok(Assembly([], map[]))
    else
      var a :- Perform(es[..|es| - 1]);
      AssembleLine(a, es[|es| - 1])
  }

  /** `_assemble_program(lines)`: the program and the jump table, or the first error. */
  function Assemble(lines: seq<string>): Result<Assembly, AsmError>
  {
    Perform(Effects(lines))
  }

  /** Reading a prefix of the lines reads them as the whole text does. */
  lemma EffectsPrefix(lines: seq<string>, i: nat)
    requires i <= |lines|
    ensures Effects(lines[..i]) == Effects(lines)[..i]
  {
  }

  /** One more line adds its effect at the end. */
  lemma EffectsSnoc(lines: seq<string>, line: string)
    ensures Effects(lines + [line]) == Effects(lines) + [ReadLine(|lines| + 1, line)]
  {
    EffectsPrefix(lines + [line], |lines|);
    assert (lines + [line])[..|lines|] == lines;
  }

  /** Performing one more effect of a prefix is one more turn of the loop. */
  lemma PerformPrefix(es: seq<LineEffect>, i: nat)
    requires i < |es|
    ensures Perform(es[..i + 1]) ==
      match Perform(es[..i])
      case Ok(a) => AssembleLine(a, es[i])
      case Err(e) => Err(e)
  {
    assert es[..i + 1][..i] == es[..i];
  }

  /** The first error ends the loop: once a prefix fails, the whole fails with that error. */
  lemma {:induction false} PerformKeepsError(es: seq<LineEffect>, i: nat)
    requires i <= |es| && Perform(es[..i]).Err?
    ensures Perform(es) == Perform(es[..i])
    decreases |es| - i
  {
    if i < |es| {
      PerformPrefix(es, i);
      PerformKeepsError(es, i + 1);
    } else {
      assert es[..i] == es;
    }
  }

  /** A rejected turn after successful ones is the loop's error. */
  lemma PerformFirstError(es: seq<LineEffect>, i: nat)
    requires i < |es| && Perform(es[..i]).Ok? && es[i].Reject?
    ensures Perform(es) == Err(es[i].error)
  {
    PerformPrefix(es, i);
    PerformKeepsError(es, i + 1);
  }

  /**
   * One turn of the loop after `i` successful ones: a skipped line keeps the
   * assembly, a label records the current step, an instruction is appended,
   * and a rejection is the result of the whole loop.
   */
  lemma PerformTurn(es: seq<LineEffect>, i: nat, program: seq<Instruction>, jumpTable: map<string, int>)
    requires i < |es| && Perform(es[..i]) == Ok(Assembly(program, jumpTable))
    ensures es[i].Skip? ==> Perform(es[..i + 1]) == Ok(Assembly(program, jumpTable))
    ensures es[i].Mark? ==> Perform(es[..i + 1]) == Ok(Assembly(program, jumpTable[es[i].name := |program|]))
    ensures es[i].Emit? ==> Perform(es[..i + 1]) == Ok(Assembly(program + [es[i].ins], jumpTable))
    ensures es[i].Reject? ==> Perform(es) == Err(es[i].error)
  {
    PerformPrefix(es, i);
    if es[i].Reject? {
      PerformFirstError(es, i);
    }
  }

  /**
   * The body of the line loop for line number `lineNumber` (`lines[lineNumber - 1]`):
   * read it, then record its label, append its instruction, or stop with its error.
   */
  method Turn(lines: seq<string>, lineNumber: nat, program: seq<Instruction>, jumpTable: map<string, int>, step: nat)
    returns (stop: Option<AsmError>, program': seq<Instruction>, jumpTable': map<string, int>, step': nat)
    requires 0 < lineNumber <= |lines| && step == |program|
    requires Perform(Effects(lines)[..lineNumber - 1]) == Ok(Assembly(program, jumpTable))
    ensures stop.None? ==> step' == |program'| && Perform(Effects(lines)[..lineNumber]) == Ok(Assembly(program', jumpTable'))
    ensures stop.Some? ==> Assemble(lines) == Err(stop.value)
  {
    ghost var es := Effects(lines);
    var effect := ReadLine(lineNumber, lines[lineNumber - 1]);
    assert es[lineNumber - 1] == effect;
    PerformTurn(es, lineNumber - 1, program, jumpTable);
    stop, program', jumpTable', step' := None, program, jumpTable, step;
    match effect
    case Skip =>
    case Mark(name) =>
      jumpTable' := jumpTable[name := step];
    case Emit(ins) =>
      program' := program + [ins];
      step' := step + 1;
    case Reject(error) =>
      stop := Some(error);
  }

  /**
   * `_assemble_program`: the line loop, with `step` kept beside `program`,
   * stopping at the first error.
   */
  method AssembleProgram(lines: seq<string>) returns (r: Result<Assembly, AsmError>)
    ensures r == Assemble(lines)
  {
    var program: seq<Instruction> := [];
    var jumpTable: map<string, int> := map[];
    var step := 0;
    var lineNumber := 0;
    for i := 0 to |lines|
      invariant lineNumber == i && step == |program|
      invariant Perform(Effects(lines)[..i]) == Ok(Assembly(program, jumpTable))
    {
      lineNumber := lineNumber + 1;
      var stop;
      stop, program, jumpTable, step := Turn(lines, lineNumber, program, jumpTable, step);
      if stop.Some? {
        return Err(stop.value);
      }
    }
    assert Effects(lines)[..|lines|] == Effects(lines);
    return Ok(Assembly(program, jumpTable));
  }

  /** `assemble_program_text(text)`: split at newlines, then assemble. */
  method AssembleProgramText(text: string) returns (r: Result<Assembly, AsmError>)
    ensures r == Assemble(SplitLines(text))
  {
    r := AssembleProgram(SplitLines(text));
  }

  // -------------------------------------------------------------- properties

  /** How many of the effects emit an instruction. */
  function Emitted(es: seq<LineEffect>): nat
  {
    if es == [] then 0 else Emitted(es[..|es| - 1]) + if es[|es| - 1].Emit? then 1 else 0
  }

  /** The number of lines that are instructions once cleaned. */
  function InstructionLines(lines: seq<string>): nat
  {
    if lines == [] then 0
    else InstructionLines(lines[..|lines| - 1]) + if Parse(CleanLine(lines[|lines| - 1])).Op? then 1 else 0
  }

  /**
   * Whenever the loop completes, `step` is the number of instructions emitted,
   * no effect was an error, and every label names a step in `[0, len(program)]`.
   */
  lemma {:induction false} PerformShape(es: seq<LineEffect>)
    requires Perform(es).Ok?
    ensures |Perform(es).value.program| == Emitted(es)
    ensures forall i :: 0 <= i < |es| ==> !es[i].Reject?
    ensures forall name :: name in Perform(es).value.jumpTable ==>
      0 <= Perform(es).value.jumpTable[name] <= |Perform(es).value.program|
  {
    if es != [] {
      var prefix := es[..|es| - 1];
      PerformShape(prefix);
      assert forall i :: 0 <= i < |prefix| ==> es[i] == prefix[i];
    }
  }

  /** On a text whose every line assembles, the emitting lines are exactly the instruction lines. */
  lemma {:induction false} EmittedLines(lines: seq<string>)
    requires forall i :: 0 <= i < |lines| ==> !Effects(lines)[i].Reject?
    ensures Emitted(Effects(lines)) == InstructionLines(lines)
  {
    if lines != [] {
      var last := |lines| - 1;
      EffectsInit(lines);
      EmittedLines(lines[..last]);
      EmitsExactlyOps(last + 1, lines[last]);
    }
  }

  /**
   * Reading all lines is reading all but the last, then the last: the count of
   * emitted instructions grows by one exactly when the last line emits, and no
   * line of the shorter text fails if none of the whole text does.
   */
  lemma EffectsInit(lines: seq<string>)
    requires lines != []
    ensures var init, line := lines[..|lines| - 1], lines[|lines| - 1];
      && Emitted(Effects(lines)) == Emitted(Effects(init)) + (if ReadLine(|lines|, line).Emit? then 1 else 0)
      && ((forall i :: 0 <= i < |lines| ==> !Effects(lines)[i].Reject?) ==>
            !ReadLine(|lines|, line).Reject? && forall i :: 0 <= i < |init| ==> !Effects(init)[i].Reject?)
  {
    var last := |lines| - 1;
    var init, line := lines[..last], lines[last];
    var es := Effects(lines);
    assert es[..last] == Effects(init) && es[last] == ReadLine(last + 1, line) by {
      assert lines == init + [line];
      EffectsSnoc(init, line);
    }
    assert forall i :: 0 <= i < last ==> Effects(init)[i] == es[i];
  }

  /** A line that does not fail emits an instruction exactly when it is an instruction line once cleaned. */
  lemma EmitsExactlyOps(lineNumber: nat, line: string)
    requires !ReadLine(lineNumber, line).Reject?
    ensures ReadLine(lineNumber, line).Emit? <==> Parse(CleanLine(line)).Op?
  {
    ReadLineKinds(lineNumber, line);
  }

  /**
   * A successful assembly has one instruction per instruction line, and every
   * label names a step in `[0, len(program)]` (the end, for a label after the last instruction).
   */
  lemma AssembleShape(lines: seq<string>)
    requires Assemble(lines).Ok?
    ensures |Assemble(lines).value.program| == InstructionLines(lines)
    ensures forall name :: name in Assemble(lines).value.jumpTable ==>
      0 <= Assemble(lines).value.jumpTable[name] <= |Assemble(lines).value.program|
  {
    PerformShape(Effects(lines));
    EmittedLines(lines);
  }

  /** Assembling one more line is one more turn of the loop on the assembly so far. */
  lemma AssembleSnoc(lines: seq<string>, line: string)
    ensures Assemble(lines + [line]) ==
      match Assemble(lines)
      case Ok(a) => AssembleLine(a, ReadLine(|lines| + 1, line))
      case Err(e) => Err(e)
  {
    var es := Effects(lines) + [ReadLine(|lines| + 1, line)];
    EffectsSnoc(lines, line);
    PerformPrefix(es, |lines|);
    assert es[..|lines|] == Effects(lines) && es[..|lines| + 1] == es;
  }

  /** A blank, whitespace-only or comment-only line changes nothing. */
  lemma AssembleBlankLine(lines: seq<string>, line: string)
    requires CleanLine(line) == []
    ensures Assemble(lines + [line]) == Assemble(lines)
  {
    AssembleSnoc(lines, line);
    ReadLineKinds(|lines| + 1, line);
  }

  /** A label line records the count of instructions so far, replacing any earlier position of that label. */
  lemma AssembleLabelLine(lines: seq<string>, line: string, name: string)
    requires Assemble(lines).Ok? && Parse(CleanLine(line)) == LabelDef(name)
    ensures var a := Assemble(lines).value;
      Assemble(lines + [line]) == Ok(Assembly(a.program, a.jumpTable[name := |a.program|]))
  {
    AssembleSnoc(lines, line);
    ReadLineKinds(|lines| + 1, line);
  }

  /** An instruction line appends exactly the instruction it names and leaves the labels. */
  lemma AssembleInstructionLine(lines: seq<string>, line: string)
    requires Assemble(lines).Ok? && Parse(CleanLine(line)).Op?
    ensures var a := Assemble(lines).value;
      var p := Parse(CleanLine(line));
      var ins := Instantiate(|lines| + 1, CleanLine(line), p.word, p.arg, p.indirect);
      && (ins.Ok? ==> Assemble(lines + [line]) == Ok(Assembly(a.program + [ins.value], a.jumpTable)))
      && (ins.Err? ==> Assemble(lines + [line]) == Err(ins.error))
  {
    AssembleSnoc(lines, line);
  }

  /** The error of a failed loop is the effect of the first failing turn, and every turn before it succeeded. */
  lemma {:induction false} PerformErrorAt(es: seq<LineEffect>) returns (i: nat)
    requires Perform(es).Err?
    ensures i < |es| && Perform(es[..i]).Ok? && es[i] == Reject(Perform(es).error)
  {
    var last := |es| - 1;
    PerformPrefix(es, last);
    assert es[..last + 1] == es;
    if Perform(es[..last]).Err? {
      i := PerformErrorAt(es[..last]);
      assert es[..last][..i] == es[..i];
    } else {
      i := last;
    }
  }

  /** An error carries the number of the first line that fails, and every line before it assembles. */
  lemma AssembleErrorLine(lines: seq<string>)
    requires Assemble(lines).Err? && !Assemble(lines).error.IndirectJump?
    ensures var n := Assemble(lines).error.lineNumber;
      && 1 <= n <= |lines|
      && Assemble(lines[..n - 1]).Ok?
      && ReadLine(n, lines[n - 1]) == Reject(Assemble(lines).error)
  {
    var i := PerformErrorAt(Effects(lines));
    EffectsPrefix(lines, i);
    assert Effects(lines)[i] == ReadLine(i + 1, lines[i]);
    ReadLineKinds(i + 1, lines[i]);
  }

  /** Conversely, the first line that fails decides the result, whatever follows it. */
  lemma FirstErrorWins(lines: seq<string>, i: nat)
    requires i < |lines| && Assemble(lines[..i]).Ok? && ReadLine(i + 1, lines[i]).Reject?
    ensures Assemble(lines) == Err(ReadLine(i + 1, lines[i]).error)
  {
    var es := Effects(lines);
    EffectsPrefix(lines, i);
    assert es[i] == ReadLine(i + 1, lines[i]);
    PerformFirstError(es, i);
  }

  /** The table finds every catalog symbol at its own class number. */
  lemma {:induction false} LookupSymbolFinds(k: nat, j: nat)
    requires j <= k < |Catalog|
    ensures LookupSymbol(Catalog[k], j) == Some(k)
    decreases k - j
  {
    if j < k {
      CatalogSymbolsDistinct();
      assert Catalog[j] != Catalog[k];
      LookupSymbolFinds(k, j + 1);
    }
  }

  /** A word whose lower-case form is no catalog symbol is an UnknownInstructionError naming the word as written. */
  lemma InstantiateUnknown(lineNumber: nat, line: string, word: string, arg: Option<string>, indirect: bool)
    requires Lower(word) !in Catalog
    ensures Instantiate(lineNumber, line, word, arg, indirect) == Err(UnknownInstruction(lineNumber, word))
  {
  }

  /**
   * For the symbol of class number `k`: a missing argument gives the cleaned
   * line, an unexpected argument gives the argument, `[argument]` on a jump is
   * refused, and a tile instruction takes its argument with the indirect flag.
   */
  lemma InstantiateKnown(lineNumber: nat, line: string, word: string, arg: Option<string>, indirect: bool, k: nat)
    requires k < |Catalog| && Catalog[k] == Lower(word)
    ensures var r := Instantiate(lineNumber, line, word, arg, indirect);
      && (HasArgument(k) && arg.None? ==> r == Err(ArgumentRequired(lineNumber, line)))
      && (!HasArgument(k) && arg.Some? ==> r == Err(UnexpectedArgument(lineNumber, arg.value)))
      && (!HasArgument(k) && arg.None? ==> r == Ok(Nullary(k)))
      && (k >= 9 && arg.Some? && indirect ==> r == Err(IndirectJump))
      && (k >= 9 && arg.Some? && !indirect ==> r.Ok? && r.value.IsJump() && r.value.destination == ArgumentKey(arg.value))
      && (3 <= k < 9 && arg.Some? ==>
            r.Ok? && Opcode(r.value) == k && r.value.tile == ArgumentKey(arg.value) && r.value.indirect == indirect)
  {
    LookupSymbolFinds(k, 0);
  }

  /** Every catalog symbol is a non-empty word with no upper-case letter and no '#'. */
  lemma CatalogSymbolIsLowerWord(k: nat)
    requires k < |Catalog|
    ensures Catalog[k] != [] && AllWord(Catalog[k]) && NoUpper(Catalog[k]) && '#' !in Catalog[k]
  {
    var w := Catalog[k];
    assert w != [] && forall j :: 0 <= j < |w| ==> IsSnakeChar(w[j]) by {
      if k < 3 {
        assert w in ["no_op", "move_from_inbox", "move_to_outbox"];
      } else if k < 6 {
        assert w in ["copy_from", "copy_to", "add"];
      } else if k < 9 {
        assert w in ["subtract", "bump_up", "bump_down"];
      } else {
        assert w in ["jump_to", "jump_if_zero_to", "jump_if_negative_to"];
      }
    }
    SnakeWord(w);
  }

  /** A lower-case letter or an underscore. */
  predicate IsSnakeChar(c: char)
  {
    'a' <= c <= 'z' || c == '_'
  }

  /** A word of lower-case letters and underscores is a `\w+` word without upper case or '#'. */
  lemma SnakeWord(w: string)
    requires forall j :: 0 <= j < |w| ==> IsSnakeChar(w[j])
    ensures AllWord(w) && NoUpper(w) && '#' !in w
  {
    assert forall j :: 0 <= j < |w| ==> w[j] != '#';
  }

  /** A word holds no '#' and neither starts nor ends with whitespace. */
  lemma WordShape(w: string)
    requires w != [] && AllWord(w)
    ensures '#' !in w && !IsSpace(w[0]) && !IsSpace(w[|w| - 1])
  {
    assert IsWordChar(w[0]) && IsWordChar(w[|w| - 1]);
    forall j | 0 <= j < |w| ensures w[j] != '#' { assert IsWordChar(w[j]); }
  }

  /**
   * The lookup is case-insensitive: a word that is a catalog symbol up to the
   * case of its letters builds exactly what the symbol itself builds.
   */
  lemma InstantiateIgnoresCase(lineNumber: nat, line: string, word: string, arg: Option<string>, indirect: bool, k: nat)
    requires k < |Catalog| && SameIgnoringCase(word, Catalog[k])
    ensures Lower(word) == Catalog[k]
    ensures Instantiate(lineNumber, line, word, arg, indirect) == Instantiate(lineNumber, line, Catalog[k], arg, indirect)
  {
    CatalogSymbolIsLowerWord(k);
    LowerOfNoUpper(Catalog[k]);
    LowerIgnoresCase(word, Catalog[k]);
  }

  /** `MOVE_FROM_INBOX` is read as `move_from_inbox`. */
  lemma UpperCaseSymbol(lineNumber: nat, line: string, word: string)
    requires word == "MOVE_FROM_INBOX"
    ensures Instantiate(lineNumber, line, word, None, false) == Ok(MoveFromInbox)
  {
    UpperCaseInbox(word);
    InstantiateIgnoresCase(lineNumber, line, word, None, false, 1);
    InstantiateSymbol(lineNumber, line, 1, None);
  }

  /** `MOVE_FROM_INBOX` is the symbol `move_from_inbox` in upper case. */
  lemma UpperCaseInbox(word: string)
    requires word == "MOVE_FROM_INBOX"
    ensures SameIgnoringCase(word, Catalog[1])
  {
    var c := Catalog[1];
    assert c == "move_from_inbox";
    forall i | 0 <= i < |word| ensures SameLetter(word[i], c[i]) {
      assert 'A' <= word[i] <= 'Z' || word[i] == '_';
    }
  }

  /** A symbol that takes an argument, written in any case with a direct argument, builds its class on that argument. */
  lemma InstantiateArgumentIgnoresCase(lineNumber: nat, line: string, word: string, arg: string, k: nat)
    requires k < |Catalog| && HasArgument(k) && SameIgnoringCase(word, Catalog[k])
    ensures Instantiate(lineNumber, line, word, Some(arg), false) == Ok(WithArgument(k, ArgumentKey(arg), false).value)
  {
    InstantiateIgnoresCase(lineNumber, line, word, Some(arg), false, k);
    InstantiateSymbol(lineNumber, line, k, Some(arg));
  }

  /** `Jump_To` with a label argument (`START`, say) is read as `jump_to` with that label. */
  lemma MixedCaseJump(lineNumber: nat, line: string, word: string, arg: string)
    requires word == "Jump_To" && arg != [] && AllWord(arg) && !IsDigitGroups(arg)
    ensures Instantiate(lineNumber, line, word, Some(arg), false) == Ok(Jump(Name(arg)))
  {
    assert SameIgnoringCase(word, Catalog[9]) by {
      assert Catalog[9] == "jump_to";
    }
    InstantiateArgumentIgnoresCase(lineNumber, line, word, arg, 9);
    ArgumentKeyOfWord(arg);
  }

  // ----------------------------------------------------- reading whole lines

  /** Leading whitespace before a text that neither starts nor ends with whitespace, and no '#': cleaning gives the text. */
  lemma CleanIndented(indent: string, t: string)
    requires AllSpace(indent) && '#' !in indent && '#' !in t
    requires t != [] && !IsSpace(t[0]) && !IsSpace(t[|t| - 1])
    ensures CleanLine(indent + t) == t
  {
    var line := indent + t;
    assert '#' !in line by {
      forall j | 0 <= j < |line|
        ensures line[j] != '#'
      {
        if j < |indent| { assert line[j] == indent[j]; } else { assert line[j] == t[j - |indent|]; }
      }
    }
    StripCommentSpec(line);
    TrimLeftSpec(line);
    var r := TrimLeft(line);
    assert line[|indent|..] == t;
    assert |r| == |t|;
    assert r == t;
    StripUnchanged(t);
  }

  /** An empty line is skipped. */
  lemma ReadBlankLine(lineNumber: nat)
    ensures ReadLine(lineNumber, "") == Skip
  {
    ReadLineKinds(lineNumber, "");
  }

  /** A word followed by ':' marks that word. */
  lemma ReadLabelLine(lineNumber: nat, w: string)
    requires w != [] && AllWord(w)
    ensures ReadLine(lineNumber, w + ":") == Mark(w)
  {
    var t := w + ":";
    WordShape(w);
    assert '#' !in t && t[0] == w[0] && t[|t| - 1] == ':';
    CleanIndented([], t);
    assert [] + t == t;
    ParseLabel(t, w);
    assert t[..|w|] == w;
    ReadLineKinds(lineNumber, t);
  }

  /** An indented catalog symbol that takes no argument emits its instruction. */
  lemma ReadBareLine(lineNumber: nat, indent: string, k: nat)
    requires k < |Catalog| && !HasArgument(k) && AllSpace(indent) && '#' !in indent
    ensures ReadLine(lineNumber, indent + Catalog[k]) == Emit(Nullary(k))
  {
    var w := Catalog[k];
    CatalogSymbolIsLowerWord(k);
    WordShape(w);
    CleanIndented(indent, w);
    ParseBare(w, w);
    InstantiateSymbol(lineNumber, w, k, None);
    ReadOpLine(lineNumber, indent + w, w, None);
  }

  /** An indented catalog symbol, one space and a word argument emits the instruction on that argument. */
  lemma ReadArgumentLine(lineNumber: nat, indent: string, k: nat, a: string)
    requires k < |Catalog| && HasArgument(k) && AllSpace(indent) && '#' !in indent
    requires a != [] && AllWord(a)
    ensures ReadLine(lineNumber, indent + Catalog[k] + " " + a) == Emit(WithArgument(k, ArgumentKey(a), false).value)
  {
    var w := Catalog[k];
    CatalogSymbolIsLowerWord(k);
    var t := ArgumentText(w, a);
    assert indent + w + " " + a == indent + t;
    CleanIndented(indent, t);
    InstantiateSymbol(lineNumber, t, k, Some(a));
    ReadOpLine(lineNumber, indent + t, w, Some(a));
  }

  /** A line that cleans to an instruction pattern emits what instantiation builds from it. */
  lemma ReadOpLine(lineNumber: nat, line: string, w: string, arg: Option<string>)
    requires Parse(CleanLine(line)) == Op(w, arg, false)
    requires Instantiate(lineNumber, CleanLine(line), w, arg, false).Ok?
    ensures ReadLine(lineNumber, line) == Emit(Instantiate(lineNumber, CleanLine(line), w, arg, false).value)
  {
  }

  /** A catalog symbol as written, with a direct argument where its class takes one, builds that class. */
  lemma InstantiateSymbol(lineNumber: nat, line: string, k: nat, arg: Option<string>)
    requires k < |Catalog| && (HasArgument(k) <==> arg.Some?)
    ensures HasArgument(k) ==> Instantiate(lineNumber, line, Catalog[k], arg, false) == Ok(WithArgument(k, ArgumentKey(arg.value), false).value)
    ensures !HasArgument(k) ==> Instantiate(lineNumber, line, Catalog[k], arg, false) == Ok(Nullary(k))
  {
    CatalogSymbolIsLowerWord(k);
    LowerOfNoUpper(Catalog[k]);
    LookupSymbolFinds(k, 0);
  }

  /** A word, one space and a word parse as an instruction with a direct argument, and clean to themselves. */
  lemma ArgumentText(w: string, a: string) returns (t: string)
    requires w != [] && AllWord(w) && a != [] && AllWord(a)
    ensures t == w + " " + a && Parse(t) == Op(w, Some(a), false)
    ensures '#' !in t && !IsSpace(t[0]) && !IsSpace(t[|t| - 1])
  {
    t := w + " " + a;
    WordShape(w);
    WordShape(a);
    assert t[0] == w[0] && t[|t| - 1] == a[|a| - 1];
    assert t == w + (" " + a) && '#' !in " " + a;
    assert AllSpace(" ");
    ParseWithArgument(w, " ", a);
  }

  /** A line that is not a label and does not start with a word is a syntax error. */
  lemma NonWordLineIsSyntaxError(lineNumber: nat, line: string)
    requires CleanLine(line) != [] && !IsWordChar(CleanLine(line)[0])
    ensures ReadLine(lineNumber, line) == Reject(SyntaxError(lineNumber, CleanLine(line)))
  {
    ReadLineKinds(lineNumber, line);
  }
}
