/**
 * The assembler's parser: it reads an assembly program line by line, skips
 * blank lines and comment lines, holds the current instruction, and splits
 * it into the fields the encoder needs. The file is given as the sequence of
 * its lines; the parser walks it with a cursor.
 */
module Parser {
  import opened Wrappers
  import opened Strings

  /** `char::is_whitespace`: the characters with the Unicode White_Space property. */
  predicate IsWhitespace(c: char) {
    ('\t' <= c <= '\r') || c == ' ' || c == '\U{0085}' || c == '\U{00A0}' || c == '\U{1680}' ||
    ('\U{2000}' <= c <= '\U{200A}') || c == '\U{2028}' || c == '\U{2029}' || c == '\U{202F}' ||
    c == '\U{205F}' || c == '\U{3000}'
  }

  /** A line `advance` passes over: blank (all whitespace, or empty) or a comment starting with `//`. */
  predicate Skippable(line: string) {
    (forall i :: 0 <= i < |line| ==> IsWhitespace(line[i])) || StartsWith(line, "//")
  }

  /** The three instruction forms. */
  datatype InstructionType = A | C | L

  /** `(Xxx)`: a label declaration. */
  predicate IsLabelLine(line: string) {
    StartsWith(line, "(") && EndsWith(line, ")")
  }

  /** A line `instruction_type` can classify; on any other line it panics. */
  predicate Classifiable(line: string) {
    StartsWith(line, "@") || IsLabelLine(line) || ';' in line
  }

  /**
   * `instruction_type`: A for `@xxx`, L for `(xxx)`, C for a line holding `;`,
   * tested in that order; no instruction, no type.
   */
  function InstructionTypeOf(current: Option<string>): (t: Option<InstructionType>)
    requires current.Some? ==> Classifiable(current.value)
    ensures t.None? <==> current.None?
    ensures t == Some(A) <==> current.Some? && StartsWith(current.value, "@")
    ensures t == Some(L) <==> current.Some? && !StartsWith(current.value, "@") && IsLabelLine(current.value)
    ensures t == Some(C) ==> ';' in current.value
  {
    match current
    case None => None
    case Some(line) =>
      if StartsWith(line, "@") then Some(A)
      else if IsLabelLine(line) then Some(L)
      else Some(C)
  }

  /** The type of a line that holds an instruction. */
  function TypeOf(line: string): InstructionType
    requires Classifiable(line)
  {
    InstructionTypeOf(Some(line)).value
  }

  /**
   * `symbol`: the operand of an A-instruction with every `@` dropped, the name
   * of a label with every parenthesis dropped, nothing for a C-instruction.
   */
  function Symbol(line: string): (r: Option<string>)
    requires Classifiable(line)
    ensures r.None? <==> TypeOf(line) == C
    ensures TypeOf(line) == A ==> '@' !in r.value
    ensures TypeOf(line) == L ==> '(' !in r.value && ')' !in r.value
  {
    match TypeOf(line)
    case A => Some(Remove(line, {'@'}))
    case L => Some(Remove(line, {'(', ')'}))
    case C => None
  }

  /** The characters `dest`, `comp` and `jump` split on. */
  const SEPARATORS: set<char> := {'=', ';'}

  /** `dest`: the text before the first `=` of a C-instruction that has one. */
  function Dest(line: string): (r: Option<string>)
    requires Classifiable(line)
    ensures r.Some? <==> TypeOf(line) == C && '=' in line
    ensures r.Some? ==> '=' !in r.value
  {
    if TypeOf(line) != C then None
    else if '=' in line then Some(Split(line, {'='})[0])
    else None
  }

  /**
   * `comp`: for `dest=comp;jump` the second field between `=` and `;`
   * separators, for `comp;jump` the text before the first `;`.
   */
  function Comp(line: string): (r: Option<string>)
    requires Classifiable(line)
    ensures r.Some? <==> TypeOf(line) == C
    ensures r.Some? ==> '=' !in r.value && ';' !in r.value
  {
    if TypeOf(line) != C then None
    else if ';' in line then
      if '=' in line then
        CountOfMember(line, SEPARATORS, ';');
        Some(Split(line, SEPARATORS)[1])
      else
        Some(Split(line, {';'})[0])
    else None
  }

  /**
   * `jump`: for `dest=comp;jump` the third field between `=` and `;`
   * separators, for `comp;jump` the text after the first `;`, up to a next one.
   */
  function Jump(line: string): (r: Option<string>)
    requires Classifiable(line)
    ensures r.Some? <==> TypeOf(line) == C
    ensures r.Some? ==> ';' !in r.value
  {
    if TypeOf(line) != C then None
    else if ';' in line then
      if '=' in line then
        CountOfPair(line, SEPARATORS, '=', ';');
        Some(Split(line, SEPARATORS)[2])
      else
        CountOfMember(line, {';'}, ';');
        Some(Split(line, {';'})[1])
    else None
  }

  /** A C-instruction's field text: it holds no separator. */
  predicate FieldText(f: string) {
    NoneOf(f, SEPARATORS)
  }

  /** `dest=comp;jump` is taken apart into exactly its three fields. */
  lemma {:induction false} FieldsOfAssignment(d: string, c: string, j: string)
    requires FieldText(d) && FieldText(c) && FieldText(j)
    requires d == [] || (d[0] != '@' && d[0] != '(')
    ensures var line := d + "=" + c + ";" + j;
      && Classifiable(line) && TypeOf(line) == C
      && Dest(line) == Some(d) && Comp(line) == Some(c) && Jump(line) == Some(j)
  {
    var line := d + "=" + c + ";" + j;
    assert line == d + ['='] + (c + [';'] + j);
    assert line[|d|] == '=' && line[|d| + 1 + |c|] == ';';
    assert Classifiable(line);
    assert !StartsWith(line, "@") && !StartsWith(line, "(") by {
      if d == [] { assert line[0] == '='; } else { assert line[0] == d[0]; }
    }
    SplitAfterField(d, '=', c + [';'] + j, {'='});
    SplitAfterField(d, '=', c + [';'] + j, SEPARATORS);
    SplitAfterField(c, ';', j, SEPARATORS);
    SplitField(j, SEPARATORS);
  }

  /** `comp;jump` is taken apart into its two fields, with no destination. */
  lemma {:induction false} FieldsOfJump(c: string, j: string)
    requires FieldText(c) && FieldText(j)
    requires c == [] || (c[0] != '@' && c[0] != '(')
    ensures var line := c + ";" + j;
      && Classifiable(line) && TypeOf(line) == C
      && Dest(line) == None && Comp(line) == Some(c) && Jump(line) == Some(j)
  {
    var line := c + ";" + j;
    assert line == c + [';'] + j;
    assert line[|c|] == ';';
    assert '=' !in line by {
      forall i | 0 <= i < |line| ensures line[i] != '=' {
        if i < |c| { assert line[i] == c[i]; }
        else if i > |c| { assert line[i] == j[i - |c| - 1]; }
      }
    }
    assert !StartsWith(line, "@") && !StartsWith(line, "(") by {
      if c == [] { assert line[0] == ';'; } else { assert line[0] == c[0]; }
    }
    SplitAfterField(c, ';', j, {';'});
    SplitField(j, {';'});
  }

  /** Conversely, a `comp;jump` line with one `;` and no `=` is its comp and jump fields rejoined. */
  lemma FieldsRejoin(line: string)
    requires Classifiable(line) && TypeOf(line) == C
    requires '=' !in line && CountOf(line, {';'}) == 1
    ensures Comp(line).value + ";" + Jump(line).value == line
  {
    var fields := Split(line, {';'});
    JoinSplit(line, ';');
    assert fields[1..] == [fields[1]];
  }

  /** An A-instruction gives back its operand. */
  lemma SymbolOfA(s: string)
    requires '@' !in s
    ensures Classifiable("@" + s) && TypeOf("@" + s) == A && Symbol("@" + s) == Some(s)
  {
    assert ("@" + s)[..1] == "@";
    RemoveAppend("@", s, {'@'});
    RemoveNone(s, {'@'});
  }

  /** A label declaration gives back its name. */
  lemma SymbolOfLabel(s: string)
    requires '(' !in s && ')' !in s
    ensures var line := "(" + s + ")";
      Classifiable(line) && TypeOf(line) == L && Symbol(line) == Some(s)
  {
    var line := "(" + s + ")";
    var parens := {'(', ')'};
    assert line[..1] == "(" && line[|line| - 1..] == ")";
    assert !StartsWith(line, "@") by { assert line[0] == '('; }
    assert IsLabelLine(line);
    assert Remove(")", parens) == "" && Remove("(", parens) == "";
    RemoveAppend("(" + s, ")", parens);
    RemoveAppend("(", s, parens);
    RemoveNone(s, parens);
    assert Remove(line, parens) == s;
  }

  /**
   * The index of the first line at or after `from` that holds an instruction,
   * or `|lines|` when only blank and comment lines remain.
   */
  function NextInstruction(lines: seq<string>, from: nat): (n: nat)
    requires from <= |lines|
    ensures from <= n <= |lines|
    ensures forall k :: from <= k < n ==> Skippable(lines[k])
    ensures n < |lines| ==> !Skippable(lines[n])
    decreases |lines| - from
  {
    if from == |lines| then from
    else if !Skippable(lines[from]) then from
    else NextInstruction(lines, from + 1)
  }

  /** A reader over the lines of a program, holding the instruction read last. */
  class Parser {
    const lines: seq<string>
    var cursor: nat
    var current: Option<string>

    predicate Valid()
      reads this
    {
      cursor <= |lines|
    }

    /** `Parser::new`: nothing read yet, no current instruction. */
    constructor(lines: seq<string>)
      ensures this.lines == lines && cursor == 0 && current == None
      ensures Valid()
    {
      this.lines := lines;
      cursor := 0;
      current := None;
    }

    /** `has_more_lines`: whether some line is still unread. */
    method HasMoreLines() returns (b: bool)
      requires Valid()
      ensures b <==> cursor < |lines|
    {
      b := cursor < |lines|;
    }

    /**
     * `advance`: reads lines until one holds an instruction and makes it
     * current; when only blank and comment lines remain it reads them all and
     * leaves no current instruction; with nothing left to read it changes nothing.
     */
    method Advance()
      requires Valid()
      modifies this
      ensures Valid()
      ensures old(cursor) == |lines| ==> cursor == old(cursor) && current == old(current)
      ensures old(cursor) < |lines| ==>
        var n := NextInstruction(lines, old(cursor));
        if n < |lines| then current == Some(lines[n]) && cursor == n + 1
        else current == None && cursor == |lines|
    {
      ghost var start := cursor;
      while cursor < |lines|
        invariant start <= cursor <= |lines|
        invariant forall k :: start <= k < cursor ==> Skippable(lines[k])
        invariant cursor == start ==> current == old(current)
        invariant cursor > start ==> current == None
        invariant NextInstruction(lines, start) == NextInstruction(lines, cursor)
        decreases |lines| - cursor
      {
        var line := lines[cursor];
        current := if Skippable(line) then None else Some(line);
        cursor := cursor + 1;
        if current.Some? {
          break;
        }
      }
    }
  }

  /** The lines of the parser's unit tests: an A-instruction, a comment, a blank line, a label, a C-instruction. */
  const SAMPLE: seq<string> := ["@123", "//this comment", " ", "(START)", "D;JGT"]

  /** Reading the sample: `@123`, then `(START)` past the comment and the blank line, then `D;JGT`, then the end. */
  lemma SampleReading()
    ensures NextInstruction(SAMPLE, 0) == 0 && NextInstruction(SAMPLE, 1) == 3 && NextInstruction(SAMPLE, 4) == 4
  {
    assert !Skippable(SAMPLE[0]) by { assert !IsWhitespace(SAMPLE[0][0]); }
    assert Skippable(SAMPLE[1]) by { assert SAMPLE[1][..2] == "//"; }
    assert Skippable(SAMPLE[2]);
    assert !Skippable(SAMPLE[3]) by { assert !IsWhitespace(SAMPLE[3][0]); }
    assert !Skippable(SAMPLE[4]) by { assert !IsWhitespace(SAMPLE[4][0]); }
  }

  /** The sample's instructions are an A-instruction, a label and a C-instruction. */
  lemma SampleTypes()
    ensures TypeOf("@123") == A && TypeOf("(START)") == L && TypeOf("D;JGT") == C
  {
    assert "@123"[..1] == "@";
    assert "(START)"[..1] == "(" && "(START)"[6..] == ")";
    assert "D;JGT"[1] == ';';
  }

  // The unit tests' C-instructions, one lemma each.

  lemma SampleAssignment()
    ensures Dest("D=D+1;JLE") == Some("D") && Comp("D=D+1;JLE") == Some("D+1") && Jump("D=D+1;JLE") == Some("JLE")
  {
    FieldsOfAssignment("D", "D+1", "JLE");
    assert "D" + "=" + "D+1" + ";" + "JLE" == "D=D+1;JLE";
  }

  lemma SampleDoubleDest()
    ensures Dest("DM=D|A;JLT") == Some("DM") && Comp("DM=D|A;JLT") == Some("D|A") && Jump("DM=D|A;JLT") == Some("JLT")
  {
    FieldsOfAssignment("DM", "D|A", "JLT");
    assert "DM" + "=" + "D|A" + ";" + "JLT" == "DM=D|A;JLT";
  }

  lemma SampleNoDest()
    ensures Dest("D&A;JMP") == None && Comp("D&A;JMP") == Some("D&A") && Jump("D&A;JMP") == Some("JMP")
  {
    FieldsOfJump("D&A", "JMP");
    assert "D&A" + ";" + "JMP" == "D&A;JMP";
  }
}
