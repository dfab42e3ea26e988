/**
 * The assembler's driver: the first pass binds every label to the address of
 * the instruction that follows it; the second pass turns each A- and
 * C-instruction into one line of 16 binary digits, giving every new variable
 * the next free RAM address from 16 on. Each pass is a loop over the parser
 * (`FirstPass`, `SecondPass`), proved equal to a fold over the program's
 * instructions (`Pass1`, `Pass2`) whose properties are proved as lemmas.
 */
module Assembler {
  import opened Wrappers
  import opened Strings
  import opened Parser
  import Code
  import ST = SymbolTable

  type Address = ST.Address

  // ---------------------------------------------------------------------
  // The program a file holds

  /** The lines the parser stops at, in order: every line that is neither blank nor a comment. */
  function Instructions(lines: seq<string>): (prog: seq<string>)
    ensures |prog| <= |lines|
  {
    if lines == [] then []
    else
      var init, last := lines[..|lines| - 1], lines[|lines| - 1];
      Instructions(init) + (if Skippable(last) then [] else [last])
  }

  /** Every line of `prog` can be classified: `instruction_type` never panics on it. */
  predicate ValidProgram(prog: seq<string>) {
    forall k :: 0 <= k < |prog| ==> Classifiable(prog[k])
  }

  /** Reading the file in two parts reads the instructions of each part. */
  lemma {:induction false} InstructionsAppend(a: seq<string>, b: seq<string>)
    ensures Instructions(a + b) == Instructions(a) + Instructions(b)
    decreases |b|
  {
    if b == [] {
      assert a + b == a;
    } else {
      var init := b[..|b| - 1];
      InstructionsAppend(a, init);
      assert (a + b)[..|a + b| - 1] == a + init;
    }
  }

  /** Lines the parser skips contribute no instruction. */
  lemma {:induction false} InstructionsSkipped(lines: seq<string>, start: nat, stop: nat)
    requires start <= stop <= |lines|
    requires forall k :: start <= k < stop ==> Skippable(lines[k])
    ensures Instructions(lines[..stop]) == Instructions(lines[..start])
    decreases stop
  {
    if start < stop {
      InstructionsSkipped(lines, start, stop - 1);
      assert lines[..stop][..stop - 1] == lines[..stop - 1];
    }
  }

  /** One `advance` from `from` brings exactly the next instruction into the prefix read so far. */
  lemma AdvanceReads(lines: seq<string>, from: nat)
    requires from < |lines|
    ensures var n := NextInstruction(lines, from);
      && (n < |lines| ==> Instructions(lines[..n + 1]) == Instructions(lines[..from]) + [lines[n]])
      && (n == |lines| ==> Instructions(lines) == Instructions(lines[..from]))
  {
    var n := NextInstruction(lines, from);
    InstructionsSkipped(lines, from, n);
    if n < |lines| {
      assert lines[..n + 1][..n] == lines[..n];
    } else {
      assert lines[..n] == lines;
    }
  }

  /** The instructions read so far are a prefix of all the file's instructions. */
  lemma InstructionsPrefix(lines: seq<string>, i: nat)
    requires i <= |lines|
    ensures var p := Instructions(lines[..i]);
      |p| <= |Instructions(lines)| && Instructions(lines)[..|p|] == p
  {
    InstructionsAppend(lines[..i], lines[i..]);
    assert lines[..i] + lines[i..] == lines;
  }

  // ---------------------------------------------------------------------
  // The first pass

  /** The number of A- and C-instructions: the ROM address of the next instruction. */
  function RowCount(prog: seq<string>): nat
    requires ValidProgram(prog)
  {
    if prog == [] then 0
    else RowCount(prog[..|prog| - 1]) + (if TypeOf(prog[|prog| - 1]) == L then 0 else 1)
  }

  /** Counting rows is additive over the program's parts; so a prefix never counts more than the whole. */
  lemma {:induction false} RowCountPrefix(prog: seq<string>, k: nat)
    requires ValidProgram(prog) && k <= |prog|
    ensures RowCount(prog[..k]) <= RowCount(prog)
    decreases |prog| - k
  {
    if k < |prog| {
      RowCountPrefix(prog[..|prog| - 1], k);
      assert prog[..|prog| - 1][..k] == prog[..k];
    } else {
      assert prog[..k] == prog;
    }
  }

  /** The name a label declaration binds. */
  function LabelName(line: string): string
    requires Classifiable(line) && TypeOf(line) == L
  {
    Symbol(line).value
  }

  /**
   * What `first_pass` leaves in the table: starting from `m`, each label bound
   * to the number of A- and C-instructions before it, a later declaration of
   * the same name overriding an earlier one.
   */
  function Pass1(prog: seq<string>, m: map<string, Address>): map<string, Address>
    requires ValidProgram(prog) && RowCount(prog) < 0x1_0000
  {
    if prog == [] then m
    else
      var init, last := prog[..|prog| - 1], prog[|prog| - 1];
      var t := Pass1(init, m);
      if TypeOf(last) == L then t[LabelName(last) := RowCount(init)] else t
  }

  /**
   * A label stands for the ROM address of the instruction after it: its last
   * declaration binds it to the number of A- and C-instructions before that.
   */
  lemma {:induction false} LabelAddress(prog: seq<string>, m: map<string, Address>, i: nat)
    requires ValidProgram(prog) && RowCount(prog) < 0x1_0000
    requires i < |prog| && TypeOf(prog[i]) == L
    requires forall j :: i < j < |prog| && TypeOf(prog[j]) == L ==> LabelName(prog[j]) != LabelName(prog[i])
    ensures LabelName(prog[i]) in Pass1(prog, m)
    ensures Pass1(prog, m)[LabelName(prog[i])] == RowCount(prog[..i])
    decreases |prog|
  {
    var init := prog[..|prog| - 1];
    if i < |prog| - 1 {
      RowCountPrefix(prog, |prog| - 1);
      LabelAddress(init, m, i);
      assert init[..i] == prog[..i];
    }
  }

  /** The first pass binds nothing but labels: every other name keeps the binding it had. */
  lemma {:induction false} Pass1KeepsOthers(prog: seq<string>, m: map<string, Address>, s: string)
    requires ValidProgram(prog) && RowCount(prog) < 0x1_0000
    requires forall j :: 0 <= j < |prog| && TypeOf(prog[j]) == L ==> LabelName(prog[j]) != s
    ensures s in Pass1(prog, m) <==> s in m
    ensures s in m ==> Pass1(prog, m)[s] == m[s]
    decreases |prog|
  {
    if prog != [] {
      RowCountPrefix(prog, |prog| - 1);
      Pass1KeepsOthers(prog[..|prog| - 1], m, s);
    }
  }

  // ---------------------------------------------------------------------
  // Numbers and words

  predicate IsDigit(c: char) {
    '0' <= c <= '9'
  }

  /** The number a string of decimal digits denotes. */
  function DecimalValue(ds: string): nat
    requires forall i :: 0 <= i < |ds| ==> IsDigit(ds[i])
  {
    if ds == [] then 0
    else
      assert IsDigit(ds[|ds| - 1]);
      10 * DecimalValue(ds[..|ds| - 1]) + (ds[|ds| - 1] as int - '0' as int)
  }

  /** The digits of an A-instruction literal, after the optional `+` sign. */
  function LiteralDigits(s: string): string {
    if |s| > 0 && s[0] == '+' then s[1..] else s
  }

  /** `s.parse::<u16>()` succeeds: an optional `+`, at least one digit, nothing else, at most 65535. */
  predicate IsU16Literal(s: string) {
    var ds := LiteralDigits(s);
    |ds| > 0 && (forall i :: 0 <= i < |ds| ==> IsDigit(ds[i])) && DecimalValue(ds) < 0x1_0000
  }

  /** The value `s.parse::<u16>()` gives. */
  function ParseU16(s: string): Address
    requires IsU16Literal(s)
  {
    DecimalValue(LiteralDigits(s))
  }

  /** The decimal numeral of `v`, without leading zeros. */
  function Decimal(v: nat): (ds: string)
    ensures |ds| > 0 && forall i :: 0 <= i < |ds| ==> IsDigit(ds[i])
  {
    if v < 10 then [DigitChar(v)]
    else Decimal(v / 10) + [DigitChar(v % 10)]
  }

  /** Reading a numeral gives its number back. */
  lemma {:induction false} DecimalRoundTrip(v: nat)
    ensures DecimalValue(Decimal(v)) == v
  {
    if v >= 10 {
      DecimalRoundTrip(v / 10);
      var ds := Decimal(v);
      assert ds[..|ds| - 1] == Decimal(v / 10);
    }
  }

  /** Every 16-bit number written in decimal is an A-instruction literal for itself. */
  lemma LiteralRoundTrip(v: Address)
    ensures IsU16Literal(Decimal(v)) && ParseU16(Decimal(v)) == v
  {
    DecimalRoundTrip(v);
  }

  /** `format_16bit_binary_string`: sixteen binary digits, most significant first, and a newline. */
  function Format16(v: Address): (w: string)
    ensures |w| == 17 && w[16] == '\n' && BinaryDigits(w[..16])
  {
    Binary(v, 16) + "\n"
  }

  /** The word holds its number exactly: reading back its digits gives `v`, so distinct addresses give distinct words. */
  lemma Format16RoundTrip(v: Address)
    ensures BinaryValue(Format16(v)[..16]) == v
  {
    assert Pow2(16) == 0x1_0000 by {
      assert Pow2(4) == 16;
      assert Pow2(8) == 256 by { assert Pow2(8) == 16 * Pow2(4); }
      assert Pow2(16) == 256 * Pow2(8) by {
        assert Pow2(16) == 16 * Pow2(12);
        assert Pow2(12) == 16 * Pow2(8);
      }
    }
    BinaryRoundTrip(v, 16);
    assert Format16(v)[..16] == Binary(v, 16);
  }

  /** The field text main passes to the encoder; an absent field is passed as the empty mnemonic. */
  function OrEmpty(field: Option<string>): string {
    if field.Some? then field.value else ""
  }

  /** The word of a C-instruction: `111`, then the comp, dest and jump bits. */
  function CWord(line: string): (w: string)
    requires Classifiable(line) && TypeOf(line) == C
    ensures |w| == 17 && w[..3] == "111" && w[16] == '\n'
  {
    "111" + Code.Comp(OrEmpty(Comp(line))) + Code.Dest(OrEmpty(Dest(line))) + Code.Jump(OrEmpty(Jump(line))) + "\n"
  }

  /** A C-word is sixteen binary digits and a newline. */
  lemma CWordBits(line: string)
    requires Classifiable(line) && TypeOf(line) == C
    ensures BinaryDigits(CWord(line)[..16])
  {
    var comp, dest, jump := OrEmpty(Comp(line)), OrEmpty(Dest(line)), OrEmpty(Jump(line));
    FieldDigits(comp, dest, jump);
    DigitsJoined("111", Code.Comp(comp), Code.Dest(dest), Code.Jump(jump));
    assert CWord(line)[..16] == "111" + Code.Comp(comp) + Code.Dest(dest) + Code.Jump(jump);
  }

  /** The three encoded fields, and the `111` prefix, are binary digits. */
  lemma FieldDigits(comp: string, dest: string, jump: string)
    ensures BinaryDigits("111") && BinaryDigits(Code.Comp(comp))
    ensures BinaryDigits(Code.Dest(dest)) && BinaryDigits(Code.Jump(jump))
  {
    PrefixDigits();
    JumpDigits(jump);
  }

  lemma PrefixDigits()
    ensures BinaryDigits("111")
  {
    assert "111"[0] == '1' && "111"[1] == '1' && "111"[2] == '1';
  }

  lemma JumpDigits(v: string)
    ensures BinaryDigits(Code.Jump(v))
  {
    Code.JumpCodes();
    var r := Code.Jump(v);
    if v in Code.JUMP_MNEMONICS {
      var k :| 0 <= k < |Code.JUMP_MNEMONICS| && Code.JUMP_MNEMONICS[k] == v;
      assert r == Binary(k + 1, 3);
    } else {
      Code.JumpFallback(v);
      assert r == "000";
      assert r[0] == '0' && r[1] == '0' && r[2] == '0';
    }
  }

  /** Strings of binary digits joined are binary digits. */
  lemma DigitsJoined(a: string, b: string, c: string, d: string)
    requires BinaryDigits(a) && BinaryDigits(b) && BinaryDigits(c) && BinaryDigits(d)
    ensures BinaryDigits(a + b + c + d)
  {
  }

  // ---------------------------------------------------------------------
  // The second pass

  /** What the second pass keeps from one instruction to the next: the table and the next free variable address. */
  datatype Pass2State = Pass2State(table: map<string, Address>, next: Address)

  /** The symbol of an A-instruction. */
  function OperandOf(line: string): string
    requires Classifiable(line) && TypeOf(line) == A
  {
    Symbol(line).value
  }

  /** An A-instruction whose operand is a name, not a 16-bit literal. */
  predicate NamesSymbol(line: string)
    requires Classifiable(line)
  {
    TypeOf(line) == A && !IsU16Literal(OperandOf(line))
  }

  /**
   * What one instruction of `second_pass` does to its state: a name that is
   * not yet bound is bound to the next free address, and the counter moves
   * on; any other instruction leaves both alone. Binding a variable at 65535
   * overflows the `u16` counter (a panic): no state.
   */
  function Step2(st: Pass2State, line: string): (r: Option<Pass2State>)
    requires Classifiable(line)
    ensures r.None? <==> NamesSymbol(line) && OperandOf(line) !in st.table && st.next == 0xFFFF
    ensures r.Some? ==> Extends(r.value.table, st.table)
    ensures r.Some? && NamesSymbol(line) ==> OperandOf(line) in r.value.table
    ensures r.Some? && NamesSymbol(line) && OperandOf(line) !in st.table ==>
      r.value.table.Keys == st.table.Keys + {OperandOf(line)} &&
      r.value.table[OperandOf(line)] == st.next && r.value.next == st.next + 1
    ensures !(NamesSymbol(line) && OperandOf(line) !in st.table) ==> r == Some(st)
  {
    if NamesSymbol(line) && OperandOf(line) !in st.table then
      if st.next < 0xFFFF then Some(Pass2State(st.table[OperandOf(line) := st.next], st.next + 1)) else None
    else Some(st)
  }

  /** The state `second_pass` ends in, from table `m`; no state if it panics. */
  function Pass2(prog: seq<string>, m: map<string, Address>): Option<Pass2State>
    requires ValidProgram(prog)
  {
    if prog == [] then Some(Pass2State(m, 16))
    else
      match Pass2(prog[..|prog| - 1], m)
      case None => None
      case Some(st) => Step2(st, prog[|prog| - 1])
  }

  /** A run that does not panic did not panic on any prefix either. */
  lemma {:induction false} Pass2Prefix(prog: seq<string>, m: map<string, Address>, k: nat)
    requires ValidProgram(prog) && k <= |prog| && Pass2(prog, m).Some?
    ensures Pass2(prog[..k], m).Some?
    decreases |prog| - k
  {
    if k < |prog| {
      Pass2Prefix(prog[..|prog| - 1], m, k);
      assert prog[..|prog| - 1][..k] == prog[..k];
    } else {
      assert prog[..k] == prog;
    }
  }

  /** `t` keeps every binding of `m`. */
  predicate Extends(t: map<string, Address>, m: map<string, Address>) {
    forall s :: s in m ==> s in t && t[s] == m[s]
  }

  /**
   * The variables of `prog` in the order of their first use: the names of
   * A-instructions that are neither literals nor bound in `m`, each once.
   */
  function FirstUses(prog: seq<string>, m: map<string, Address>): (vars: seq<string>)
    requires ValidProgram(prog)
    ensures forall k :: 0 <= k < |vars| ==> vars[k] !in m
    ensures forall j, k :: 0 <= j < k < |vars| ==> vars[j] != vars[k]
  {
    if prog == [] then []
    else
      var vars, last := FirstUses(prog[..|prog| - 1], m), prog[|prog| - 1];
      if NamesSymbol(last) && OperandOf(last) !in m && OperandOf(last) !in vars then vars + [OperandOf(last)]
      else vars
  }

  /**
   * Variable allocation: the second pass keeps every binding it starts with
   * and binds the k-th new variable, in order of first use, to 16 + k; the
   * counter ends just past the last one.
   */
  lemma {:induction false} Pass2Allocates(prog: seq<string>, m: map<string, Address>)
    requires ValidProgram(prog) && Pass2(prog, m).Some?
    ensures var st, vars := Pass2(prog, m).value, FirstUses(prog, m);
      && st.next == 16 + |vars|
      && Extends(st.table, m)
      && (forall k :: 0 <= k < |vars| ==> vars[k] in st.table && st.table[vars[k]] == 16 + k)
      && (forall s :: s in st.table <==> s in m || s in vars)
    decreases |prog|
  {
    if prog != [] {
      var init, last := prog[..|prog| - 1], prog[|prog| - 1];
      Pass2Allocates(init, m);
      var st0, vars0 := Pass2(init, m).value, FirstUses(init, m);
      if NamesSymbol(last) && OperandOf(last) !in st0.table {
        var sym := OperandOf(last);
        assert FirstUses(prog, m) == vars0 + [sym];
      }
    }
  }

  /** Every name an A-instruction of `prog` uses is bound in `t`. */
  predicate Binds(prog: seq<string>, t: map<string, Address>)
    requires ValidProgram(prog)
  {
    forall k :: 0 <= k < |prog| && NamesSymbol(prog[k]) ==> OperandOf(prog[k]) in t
  }

  /** The second pass only adds bindings. */
  lemma {:induction false} Pass2Extends(prog: seq<string>, m: map<string, Address>)
    requires ValidProgram(prog) && Pass2(prog, m).Some?
    ensures Extends(Pass2(prog, m).value.table, m)
    decreases |prog|
  {
    if prog != [] {
      var init := prog[..|prog| - 1];
      Pass2Extends(init, m);
    }
  }

  /** After the second pass every name the program uses is bound. */
  lemma {:induction false} Pass2Binds(prog: seq<string>, m: map<string, Address>)
    requires ValidProgram(prog) && Pass2(prog, m).Some?
    ensures Binds(prog, Pass2(prog, m).value.table)
    decreases |prog|
  {
    if prog != [] {
      var init, last := prog[..|prog| - 1], prog[|prog| - 1];
      assert init + [last] == prog;
      Pass2Binds(init, m);
      var st0 := Pass2(init, m).value;
      var t := Pass2(prog, m).value.table;
      BindsExtend(init, st0.table, t);
      BindsLast(init, last, t);
    }
  }

  /** Adding bindings keeps every name bound. */
  lemma BindsExtend(prog: seq<string>, t0: map<string, Address>, t: map<string, Address>)
    requires ValidProgram(prog) && Binds(prog, t0) && Extends(t, t0)
    ensures Binds(prog, t)
  {
    forall k | 0 <= k < |prog| && NamesSymbol(prog[k]) ensures OperandOf(prog[k]) in t {
      assert OperandOf(prog[k]) in t0;
    }
  }

  /** A table that binds the names of `init` and of `last` binds the names of `init + [last]`. */
  lemma BindsLast(init: seq<string>, last: string, t: map<string, Address>)
    requires ValidProgram(init) && Classifiable(last) && Binds(init, t)
    requires NamesSymbol(last) ==> OperandOf(last) in t
    ensures ValidProgram(init + [last]) && Binds(init + [last], t)
  {
    var prog := init + [last];
    forall k | 0 <= k < |prog| ensures Classifiable(prog[k]) {
      if k < |init| { assert prog[k] == init[k]; }
    }
    forall k | 0 <= k < |prog| && NamesSymbol(prog[k]) ensures OperandOf(prog[k]) in t {
      if k < |init| { assert prog[k] == init[k]; }
    }
  }

  /** The word an A- or C-instruction stands for, given the final symbol table `t`. */
  function Word(line: string, t: map<string, Address>): (w: string)
    requires Classifiable(line) && TypeOf(line) != L
    ensures |w| == 17
  {
    if TypeOf(line) == C then CWord(line)
    else
      var sym := OperandOf(line);
      Format16(if IsU16Literal(sym) then ParseU16(sym) else if sym in t then t[sym] else 0)
  }

  /** The reference translation: every A- and C-instruction, in order, as its word under table `t`. */
  function Encode(prog: seq<string>, t: map<string, Address>): (words: seq<string>)
    requires ValidProgram(prog)
    ensures |words| == RowCount(prog)
  {
    if prog == [] then []
    else
      var init, last := prog[..|prog| - 1], prog[|prog| - 1];
      Encode(init, t) + (if TypeOf(last) == L then [] else [Word(last, t)])
  }

  /** The translation does not depend on bindings the program does not use. */
  lemma {:induction false} EncodeStable(prog: seq<string>, t: map<string, Address>, u: map<string, Address>)
    requires ValidProgram(prog) && Binds(prog, t) && Extends(u, t)
    ensures Encode(prog, t) == Encode(prog, u)
    decreases |prog|
  {
    if prog != [] {
      var init := prog[..|prog| - 1];
      assert Binds(init, t) by {
        forall k | 0 <= k < |init| && NamesSymbol(init[k]) ensures OperandOf(init[k]) in t {
          assert init[k] == prog[k];
        }
      }
      EncodeStable(init, t, u);
    }
  }

  /** The translation of one more instruction. */
  lemma EncodeSnoc(p: seq<string>, x: string, t: map<string, Address>)
    requires ValidProgram(p + [x])
    ensures ValidProgram(p) && Classifiable(x)
    ensures Encode(p + [x], t) == Encode(p, t) + (if TypeOf(x) == L then [] else [Word(x, t)])
  {
    SplitLast(p, x);
  }

  /**
   * One more instruction in the second pass: it does not panic, and the words
   * written so far, followed by its word under the table it leaves, are the
   * translation of the instructions read.
   */
  lemma Pass2Round(prog: seq<string>, read: seq<string>, x: string, m: map<string, Address>, st: Pass2State)
    requires ValidProgram(prog) && Pass2(prog, m).Some?
    requires |read| < |prog| && prog[..|read| + 1] == read + [x]
    requires ValidProgram(read) && Pass2(read, m) == Some(st)
    ensures Classifiable(x) && Step2(st, x).Some? && ValidProgram(read + [x])
    ensures Pass2(read + [x], m) == Step2(st, x)
    ensures var t := Step2(st, x).value.table;
      Encode(read, st.table) + (if TypeOf(x) == L then [] else [Word(x, t)]) == Encode(read + [x], t)
  {
    Pass2Extend(prog, read, x, m, st);
    Pass2Binds(read, m);
    var t := Step2(st, x).value.table;
    EncodeStable(read, st.table, t);
    EncodeSnoc(read, x, t);
  }

  /** A program with one more line is valid exactly when its first part and the new line are. */
  lemma SplitLast(p: seq<string>, x: string)
    ensures ValidProgram(p + [x]) <==> ValidProgram(p) && Classifiable(x)
    ensures (p + [x])[..|p|] == p && (p + [x])[|p|] == x
  {
    var q := p + [x];
    assert q[..|p|] == p && q[|p|] == x;
    if ValidProgram(q) {
      forall k | 0 <= k < |p| ensures Classifiable(p[k]) {
        assert q[k] == p[k];
      }
    }
    if ValidProgram(p) && Classifiable(x) {
      forall k | 0 <= k < |q| ensures Classifiable(q[k]) {
        if k < |p| { assert q[k] == p[k]; }
      }
    }
  }

  /** The first pass over one more instruction. */
  lemma Pass1Snoc(p: seq<string>, x: string, m: map<string, Address>)
    requires ValidProgram(p + [x]) && RowCount(p + [x]) < 0x1_0000
    ensures ValidProgram(p) && RowCount(p + [x]) == RowCount(p) + (if TypeOf(x) == L then 0 else 1)
    ensures Pass1(p + [x], m) == if TypeOf(x) == L then Pass1(p, m)[LabelName(x) := RowCount(p)] else Pass1(p, m)
  {
    SplitLast(p, x);
  }

  /** The second pass over one more instruction. */
  lemma Pass2Snoc(p: seq<string>, x: string, m: map<string, Address>)
    requires ValidProgram(p + [x])
    ensures ValidProgram(p) && Classifiable(x)
    ensures Pass2(p + [x], m) == if Pass2(p, m).None? then None else Step2(Pass2(p, m).value, x)
  {
    SplitLast(p, x);
  }

  /** A run of the first pass taken one instruction further than a prefix of it. */
  lemma Pass1Extend(prog: seq<string>, read: seq<string>, x: string, m: map<string, Address>)
    requires ValidProgram(prog) && RowCount(prog) < 0x1_0000
    requires |read| < |prog| && prog[..|read| + 1] == read + [x]
    ensures Classifiable(x) && ValidProgram(read) && ValidProgram(read + [x]) && RowCount(read + [x]) < 0x1_0000
    ensures RowCount(read + [x]) == RowCount(read) + (if TypeOf(x) == L then 0 else 1)
    ensures Pass1(read + [x], m) == if TypeOf(x) == L then Pass1(read, m)[LabelName(x) := RowCount(read)] else Pass1(read, m)
  {
    var q := read + [x];
    forall k | 0 <= k < |q| ensures Classifiable(q[k]) {
      assert q[k] == prog[k];
    }
    RowCountPrefix(prog, |q|);
    Pass1Snoc(read, x, m);
  }

  /** A run of the second pass that does not panic, taken one instruction further than a prefix of it. */
  lemma Pass2Extend(prog: seq<string>, read: seq<string>, x: string, m: map<string, Address>, st: Pass2State)
    requires ValidProgram(prog) && Pass2(prog, m).Some?
    requires |read| < |prog| && prog[..|read| + 1] == read + [x]
    requires ValidProgram(read) && Pass2(read, m) == Some(st)
    ensures Classifiable(x) && ValidProgram(read + [x]) && Step2(st, x).Some?
    ensures Pass2(read + [x], m) == Step2(st, x)
  {
    var q := read + [x];
    forall k | 0 <= k < |q| ensures Classifiable(q[k]) {
      assert q[k] == prog[k];
    }
    Pass2Prefix(prog, m, |q|);
    Pass2Snoc(read, x, m);
  }

  /**
   * The instructions read once `advance` has moved the cursor from `from` to
   * `next`, setting the current instruction to `current`.
   */
  lemma ReadNext(lines: seq<string>, from: nat, read: seq<string>, next: nat, current: Option<string>)
    requires from < |lines| && read == Instructions(lines[..from])
    requires var n := NextInstruction(lines, from);
      if n < |lines| then current == Some(lines[n]) && next == n + 1
      else current == None && next == |lines|
    ensures current.None? ==> read == Instructions(lines[..next]) && next == |lines|
    ensures current.Some? ==>
      var prog, read' := Instructions(lines), read + [current.value];
      && read' == Instructions(lines[..next]) && |read| < |prog| && prog[..|read'|] == read'
  {
    var n := NextInstruction(lines, from);
    AdvanceReads(lines, from);
    if n < |lines| {
      var p := Instructions(lines[..n + 1]);
      InstructionsPrefix(lines, n + 1);
      assert p == read + [lines[n]];
    } else {
      assert lines[..|lines|] == lines;
    }
  }

  // ---------------------------------------------------------------------
  // The passes as loops over the parser

  /**
   * `first_pass`: reads the file once, counting A- and C-instructions and
   * binding each label to the count so far. The count is a `u16` whose
   * overflow panics, hence the bound on the number of instructions.
   */
  method FirstPass(lines: seq<string>, table: ST.SymbolTable)
    requires ValidProgram(Instructions(lines)) && RowCount(Instructions(lines)) < 0x1_0000
    modifies table
    ensures table.entries == Pass1(Instructions(lines), old(table.entries))
  {
    ghost var m, prog := table.entries, Instructions(lines);
    ghost var read: seq<string> := [];
    var parser := new Parser(lines);
    var rowNumber: Address := 0;
    var more := parser.HasMoreLines();
    while more
      invariant parser.lines == lines && parser.Valid()
      invariant more <==> parser.cursor < |lines|
      invariant read == Instructions(lines[..parser.cursor]) && ValidProgram(read)
      invariant rowNumber == RowCount(read) && table.entries == Pass1(read, m)
      decreases |lines| - parser.cursor
    {
      ghost var from := parser.cursor;
      parser.Advance();
      ReadNext(lines, from, read, parser.cursor, parser.current);
      if parser.current.Some? {
        Pass1Extend(prog, read, parser.current.value, m);
        read := read + [parser.current.value];
      }
      match InstructionTypeOf(parser.current) {
        case Some(L) =>
          table.AddEntry(Symbol(parser.current.value).value, rowNumber);
        case Some(_) =>
          rowNumber := rowNumber + 1;
        case None =>
      }
      more := parser.HasMoreLines();
    }
    assert lines[..parser.cursor] == lines;
  }

  /**
   * `second_pass`: reads the file again and writes one word per A- and
   * C-instruction. A literal operand is written as is; a bound name as its
   * address; an unbound name is bound to the next variable address, which is
   * written and then incremented (a `u16`: its overflow panics).
   */
  method SecondPass(lines: seq<string>, table: ST.SymbolTable) returns (words: seq<string>)
    requires ValidProgram(Instructions(lines)) && Pass2(Instructions(lines), table.entries).Some?
    modifies table
    ensures table.entries == Pass2(Instructions(lines), old(table.entries)).value.table
    ensures words == Encode(Instructions(lines), table.entries)
  {
    ghost var m, prog := table.entries, Instructions(lines);
    ghost var read: seq<string> := [];
    ghost var st := Pass2State(m, 16);
    var parser := new Parser(lines);
    var variableAddress: Address := 16;
    words := [];
    var more := parser.HasMoreLines();
    while more
      invariant parser.lines == lines && parser.Valid()
      invariant more <==> parser.cursor < |lines|
      invariant read == Instructions(lines[..parser.cursor])
      invariant ValidProgram(read) && Pass2(read, m) == Some(st)
      invariant table.entries == st.table && variableAddress == st.next && words == Encode(read, st.table)
      decreases |lines| - parser.cursor
    {
      ghost var from := parser.cursor;
      parser.Advance();
      ReadNext(lines, from, read, parser.cursor, parser.current);
      if parser.current.Some? {
        var line := parser.current.value;
        variableAddress, words := WriteInstruction(table, line, variableAddress, words, prog, m, read, st);
        read, st := read + [line], Step2(st, line).value;
      }
      more := parser.HasMoreLines();
    }
    assert lines[..parser.cursor] == lines;
  }

  /**
   * The body of `second_pass`'s loop for the current instruction: the word it
   * writes, under the table as the instruction leaves it, and the binding and
   * counter step a new variable takes.
   */
  method WriteInstruction(table: ST.SymbolTable, line: string, variableAddress: Address, words: seq<string>,
                          ghost prog: seq<string>, ghost m: map<string, Address>, ghost read: seq<string>, ghost st: Pass2State)
    returns (nextAddress: Address, written: seq<string>)
    requires ValidProgram(prog) && Pass2(prog, m).Some?
    requires |read| < |prog| && prog[..|read| + 1] == read + [line]
    requires ValidProgram(read) && Pass2(read, m) == Some(st)
    requires st == Pass2State(table.entries, variableAddress) && words == Encode(read, st.table)
    modifies table
    ensures Classifiable(line) && Step2(st, line).Some? && ValidProgram(read + [line]) && Pass2(read + [line], m) == Step2(st, line)
    ensures table.entries == Step2(st, line).value.table && nextAddress == Step2(st, line).value.next
    ensures written == Encode(read + [line], table.entries)
  {
    Pass2Round(prog, read, line, m, st);
    nextAddress, written := variableAddress, words;
    match TypeOf(line) {
      case A =>
        var symbol := Symbol(line).value;
        if IsU16Literal(symbol) {
          written := words + [Format16(ParseU16(symbol))];
        } else {
          var bound := table.Contains(symbol);
          if bound {
            var address := table.GetAddress(symbol);
            written := words + [Format16(address)];
          } else {
            table.AddEntry(symbol, variableAddress);
            written := words + [Format16(variableAddress)];
            nextAddress := variableAddress + 1;
          }
        }
      case C =>
        var destBits := Code.Dest(OrEmpty(Dest(line)));
        var compBits := Code.Comp(OrEmpty(Comp(line)));
        var jumpBits := Code.Jump(OrEmpty(Jump(line)));
        written := words + ["111" + compBits + destBits + jumpBits + "\n"];
      case L =>
    }
  }

  /**
   * `hack_assembler`: a new table of predefined symbols, the first pass, then
   * the second; the words of the `.hack` file are returned rather than written.
   */
  method Assemble(lines: seq<string>) returns (words: seq<string>)
    requires ValidProgram(Instructions(lines)) && RowCount(Instructions(lines)) < 0x1_0000
    requires Pass2(Instructions(lines), Pass1(Instructions(lines), ST.Predefined())).Some?
    ensures var prog := Instructions(lines);
      && words == Encode(prog, Pass2(prog, Pass1(prog, ST.Predefined())).value.table)
      && |words| == RowCount(prog)
  {
    var table := new ST.SymbolTable();
    FirstPass(lines, table);
    words := SecondPass(lines, table);
  }

  // ---------------------------------------------------------------------
  // The driver's unit tests

  /** A file whose every line holds an instruction reads as itself. */
  lemma {:induction false} InstructionsAll(lines: seq<string>)
    requires forall k :: 0 <= k < |lines| ==> !Skippable(lines[k])
    ensures Instructions(lines) == lines
  {
    if lines != [] {
      InstructionsAll(lines[..|lines| - 1]);
      assert !Skippable(lines[|lines| - 1]);
    }
  }

  /** A label declaration is an instruction line of type L naming its label. */
  lemma LabelLine(s: string)
    requires '(' !in s && ')' !in s
    ensures var line := "(" + s + ")";
      !Skippable(line) && Classifiable(line) && TypeOf(line) == L && LabelName(line) == s
  {
    SymbolOfLabel(s);
    var line := "(" + s + ")";
    assert line[0] == '(' && !IsWhitespace(line[0]);
  }

  /** An A-instruction is an instruction line of type A. */
  lemma AddressLine(s: string)
    requires '@' !in s
    ensures var line := "@" + s;
      !Skippable(line) && Classifiable(line) && TypeOf(line) == A && OperandOf(line) == s
  {
    SymbolOfA(s);
    var line := "@" + s;
    assert line[0] == '@' && !IsWhitespace(line[0]);
  }

  /** A C-instruction with all three fields is an instruction line of type C. */
  lemma AssignmentLine(d: string, c: string, j: string)
    requires FieldText(d) && FieldText(c) && FieldText(j) && d != [] && d[0] != '@' && d[0] != '(' && d[0] != '/'
    requires !IsWhitespace(d[0])
    ensures var line := d + "=" + c + ";" + j;
      !Skippable(line) && Classifiable(line) && TypeOf(line) == C
      && Dest(line) == Some(d) && Comp(line) == Some(c) && Jump(line) == Some(j)
  {
    FieldsOfAssignment(d, c, j);
    var line := d + "=" + c + ";" + j;
    assert line[0] == d[0];
  }

  /** The first pass over a label and an A-instruction. */
  lemma Pass1OfLabelA(a: string, b: string, m: map<string, Address>)
    requires Classifiable(a) && Classifiable(b) && TypeOf(a) == L && TypeOf(b) == A
    ensures ValidProgram([a, b]) && RowCount([a, b]) == 1 && Pass1([a, b], m) == m[LabelName(a) := 0]
  {
    SplitLast([], a); Pass1Snoc([], a, m);
    assert [] + [a] == [a];
    SplitLast([a], b); Pass1Snoc([a], b, m);
    assert [a] + [b] == [a, b];
  }

  /** ... followed by a label and a C-instruction. */
  lemma Pass1OfLabelAC(a: string, b: string, c: string, d: string, m: map<string, Address>)
    requires Classifiable(a) && Classifiable(b) && TypeOf(a) == L && TypeOf(b) == A
    requires Classifiable(c) && Classifiable(d) && TypeOf(c) == L && TypeOf(d) == C
    ensures ValidProgram([a, b, c, d]) && RowCount([a, b, c, d]) == 2
    ensures Pass1([a, b, c, d], m) == m[LabelName(a) := 0][LabelName(c) := 1]
  {
    Pass1OfLabelA(a, b, m);
    SplitLast([a, b], c); Pass1Snoc([a, b], c, m);
    assert [a, b] + [c] == [a, b, c];
    SplitLast([a, b, c], d); Pass1Snoc([a, b, c], d, m);
    assert [a, b, c] + [d] == [a, b, c, d];
  }

  /** ... followed by two labels, which share the address after the C-instruction. */
  lemma Pass1OfShape(a: string, b: string, c: string, d: string, e: string, f: string, m: map<string, Address>)
    requires Classifiable(a) && Classifiable(b) && TypeOf(a) == L && TypeOf(b) == A
    requires Classifiable(c) && Classifiable(d) && TypeOf(c) == L && TypeOf(d) == C
    requires Classifiable(e) && Classifiable(f) && TypeOf(e) == L && TypeOf(f) == L
    ensures ValidProgram([a, b, c, d, e, f]) && RowCount([a, b, c, d, e, f]) == 2
    ensures Pass1([a, b, c, d, e, f], m)
      == m[LabelName(a) := 0][LabelName(c) := 1][LabelName(e) := 2][LabelName(f) := 2]
  {
    Pass1OfLabelAC(a, b, c, d, m);
    SplitLast([a, b, c, d], e); Pass1Snoc([a, b, c, d], e, m);
    assert [a, b, c, d] + [e] == [a, b, c, d, e];
    SplitLast([a, b, c, d, e], f); Pass1Snoc([a, b, c, d, e], f, m);
    assert [a, b, c, d, e] + [f] == [a, b, c, d, e, f];
  }

  /** The lines of the first pass's unit test. */
  const LABELLED: seq<string> := ["(START)", "@40", "(LOOP)", "DM=A+1;JNE", "(STOP)", "(END)"]

  /**
   * `test_first_pass`: each label is bound to the number of A- and
   * C-instructions before it; two labels in a row share an address.
   */
  lemma FirstPassSample()
    ensures ValidProgram(LABELLED) && Instructions(LABELLED) == LABELLED && RowCount(LABELLED) == 2
    ensures var t := Pass1(LABELLED, ST.Predefined());
      && "START" in t && t["START"] == 0 && "LOOP" in t && t["LOOP"] == 1
      && "STOP" in t && t["STOP"] == 2 && "END" in t && t["END"] == 2
  {
    StartLine();
    LoopLine();
    StopLine();
    EndLine();
    LiteralLine();
    SampleCLine();
    FirstPassOfShape("(START)", "@40", "(LOOP)", "DM=A+1;JNE", "(STOP)", "(END)", ST.Predefined());
  }

  /** What `FirstPassSample` needs of its six lines, for any six lines of that shape with distinct labels. */
  lemma FirstPassOfShape(a: string, b: string, c: string, d: string, e: string, f: string, m: map<string, Address>)
    requires !Skippable(a) && !Skippable(b) && !Skippable(c) && !Skippable(d) && !Skippable(e) && !Skippable(f)
    requires Classifiable(a) && Classifiable(b) && TypeOf(a) == L && TypeOf(b) == A
    requires Classifiable(c) && Classifiable(d) && TypeOf(c) == L && TypeOf(d) == C
    requires Classifiable(e) && Classifiable(f) && TypeOf(e) == L && TypeOf(f) == L
    requires LabelName(a) != LabelName(c) && LabelName(a) != LabelName(e) && LabelName(a) != LabelName(f)
    requires LabelName(c) != LabelName(e) && LabelName(c) != LabelName(f) && LabelName(e) != LabelName(f)
    ensures var p := [a, b, c, d, e, f];
      && ValidProgram(p) && Instructions(p) == p && RowCount(p) == 2
      && var t := Pass1(p, m);
      && LabelName(a) in t && t[LabelName(a)] == 0 && LabelName(c) in t && t[LabelName(c)] == 1
      && LabelName(e) in t && t[LabelName(e)] == 2 && LabelName(f) in t && t[LabelName(f)] == 2
  {
    Pass1OfShape(a, b, c, d, e, f, m);
    LabelLookups(m, LabelName(a), LabelName(c), LabelName(e), LabelName(f));
    InstructionsOfSix(a, b, c, d, e, f);
  }

  /** Four label bindings with distinct names, the last two sharing an address, are each found. */
  lemma LabelLookups(m: map<string, Address>, w: string, x: string, y: string, z: string)
    requires w != x && w != y && w != z && x != y && x != z && y != z
    ensures var t := m[w := 0][x := 1][y := 2][z := 2];
      && w in t && t[w] == 0 && x in t && t[x] == 1 && y in t && t[y] == 2 && z in t && t[z] == 2
  {
  }

  /** Six lines that each hold an instruction read as themselves. */
  lemma InstructionsOfSix(a: string, b: string, c: string, d: string, e: string, f: string)
    requires !Skippable(a) && !Skippable(b) && !Skippable(c) && !Skippable(d) && !Skippable(e) && !Skippable(f)
    ensures Instructions([a, b, c, d, e, f]) == [a, b, c, d, e, f]
  {
    var p := [a, b, c, d, e, f];
    forall k | 0 <= k < |p| ensures !Skippable(p[k]) {
    }
    InstructionsAll(p);
  }

  lemma StartLine() ensures var l := "(START)"; !Skippable(l) && Classifiable(l) && TypeOf(l) == L && LabelName(l) == "START" {
    LabelLine("START");
    assert "(" + "START" + ")" == "(START)";
  }
  lemma LoopLine() ensures var l := "(LOOP)"; !Skippable(l) && Classifiable(l) && TypeOf(l) == L && LabelName(l) == "LOOP" {
    LabelLine("LOOP");
    assert "(" + "LOOP" + ")" == "(LOOP)";
  }
  lemma StopLine() ensures var l := "(STOP)"; !Skippable(l) && Classifiable(l) && TypeOf(l) == L && LabelName(l) == "STOP" {
    LabelLine("STOP");
    assert "(" + "STOP" + ")" == "(STOP)";
  }
  lemma EndLine() ensures var l := "(END)"; !Skippable(l) && Classifiable(l) && TypeOf(l) == L && LabelName(l) == "END" {
    LabelLine("END");
    assert "(" + "END" + ")" == "(END)";
  }
  lemma LiteralLine() ensures var l := "@40"; !Skippable(l) && Classifiable(l) && TypeOf(l) == A && OperandOf(l) == "40" {
    AddressLine("40");
    assert "@" + "40" == "@40";
  }
  lemma SampleCLine() ensures var l := "DM=A+1;JNE"; !Skippable(l) && Classifiable(l) && TypeOf(l) == C {
    SampleCLineFields();
  }
  lemma SampleCLineFields()
    ensures var l := "DM=A+1;JNE";
      && !Skippable(l) && Classifiable(l) && TypeOf(l) == C
      && Dest(l) == Some("DM") && Comp(l) == Some("A+1") && Jump(l) == Some("JNE")
  {
    AssignmentLine("DM", "A+1", "JNE");
    assert "DM" + "=" + "A+1" + ";" + "JNE" == "DM=A+1;JNE";
  }

  /** The lines of the assembler's end-to-end unit test. */
  const TWO_LINES: seq<string> := ["@40", "DM=A+1;JNE"]

  /**
   * `test_hack_assemble`: a literal A-instruction and a C-instruction with
   * all three fields become the two words the test expects, and the whole
   * program meets what `Assemble` needs of its input.
   */
  lemma AssembleSample()
    ensures ValidProgram(TWO_LINES) && Instructions(TWO_LINES) == TWO_LINES && RowCount(TWO_LINES) == 2
    ensures var m := Pass1(TWO_LINES, ST.Predefined());
      && Pass2(TWO_LINES, m).Some?
      && Encode(TWO_LINES, Pass2(TWO_LINES, m).value.table) == ["0000000000101000\n", "1110110111011101\n"]
  {
    LiteralLine();
    SampleCLine();
    LiteralWord();
    SampleCLineWord();
    AssembleOfShape("@40", "DM=A+1;JNE", ST.Predefined());
  }

  /** Any literal A-instruction followed by a C-instruction assembles to the literal's word and the C-word. */
  lemma AssembleOfShape(a: string, b: string, m: map<string, Address>)
    requires !Skippable(a) && !Skippable(b) && Classifiable(a) && Classifiable(b)
    requires TypeOf(a) == A && IsU16Literal(OperandOf(a)) && TypeOf(b) == C
    ensures var p := [a, b];
      && ValidProgram(p) && Instructions(p) == p && RowCount(p) == 2
      && Pass1(p, m) == m && Pass2(p, m) == Some(Pass2State(m, 16))
      && Encode(p, m) == [Format16(ParseU16(OperandOf(a))), CWord(b)]
  {
    var p := [a, b];
    PassesOfShape(a, b, m);
    forall k | 0 <= k < |p| ensures !Skippable(p[k]) {
    }
    InstructionsAll(p);
  }

  /** The two passes over a literal A-instruction and a C-instruction. */
  lemma PassesOfShape(a: string, b: string, m: map<string, Address>)
    requires Classifiable(a) && Classifiable(b)
    requires TypeOf(a) == A && IsU16Literal(OperandOf(a)) && TypeOf(b) == C
    ensures var p := [a, b];
      && ValidProgram(p) && RowCount(p) == 2
      && Pass1(p, m) == m && Pass2(p, m) == Some(Pass2State(m, 16))
      && Encode(p, m) == [Format16(ParseU16(OperandOf(a))), CWord(b)]
  {
    Pass1OfShapeAC(a, b, m);
    Pass2OfShapeAC(a, b, m);
    EncodeOfShapeAC(a, b, m);
  }

  lemma Pass1OfShapeAC(a: string, b: string, m: map<string, Address>)
    requires Classifiable(a) && Classifiable(b) && TypeOf(a) == A && TypeOf(b) == C
    ensures ValidProgram([a, b]) && RowCount([a, b]) == 2 && Pass1([a, b], m) == m
  {
    assert [] + [a] == [a];
    SplitLast([], a); Pass1Snoc([], a, m);
    assert [a] + [b] == [a, b];
    SplitLast([a], b); Pass1Snoc([a], b, m);
  }

  lemma Pass2OfShapeAC(a: string, b: string, m: map<string, Address>)
    requires Classifiable(a) && Classifiable(b)
    requires TypeOf(a) == A && IsU16Literal(OperandOf(a)) && TypeOf(b) == C
    requires ValidProgram([a, b])
    ensures Pass2([a, b], m) == Some(Pass2State(m, 16))
  {
    assert [] + [a] == [a];
    Pass2Snoc([], a, m);
    assert [a] + [b] == [a, b];
    Pass2Snoc([a], b, m);
  }

  lemma EncodeOfShapeAC(a: string, b: string, m: map<string, Address>)
    requires Classifiable(a) && Classifiable(b)
    requires TypeOf(a) == A && IsU16Literal(OperandOf(a)) && TypeOf(b) == C
    requires ValidProgram([a, b])
    ensures Encode([a, b], m) == [Format16(ParseU16(OperandOf(a))), CWord(b)]
  {
    assert [] + [a] == [a];
    EncodeSnoc([], a, m);
    assert [a] + [b] == [a, b];
    EncodeSnoc([a], b, m);
  }

  /** The word of `@40`. */
  lemma LiteralWord()
    ensures var l := "@40";
      && Classifiable(l) && TypeOf(l) == A && IsU16Literal(OperandOf(l))
      && Format16(ParseU16(OperandOf(l))) == "0000000000101000\n"
  {
    LiteralLine();
    FortyLiteral();
    FortyBits();
  }

  /** `"40"` parses to 40. */
  lemma FortyLiteral()
    ensures IsU16Literal("40") && ParseU16("40") == 40
  {
    LiteralRoundTrip(40);
    assert Decimal(40) == "40";
  }

  /** 40 in sixteen binary digits. */
  lemma FortyBits()
    ensures Format16(40) == "0000000000101000\n"
  {
    FortyDigits();
    TenZeros();
    assert "0000000000" + "101000" + "\n" == "0000000000101000\n";
  }

  /** The six low digits of 40, above ten digits of zero. */
  lemma FortyDigits()
    ensures Binary(40, 16) == Binary(0, 10) + "101000"
  {
    FortyLowDigits(10);
  }

  /** In any width of at least six, 40 ends in the digits `101000` with only zeros above them. */
  lemma FortyLowDigits(w: nat)
    ensures Binary(40, w + 6) == Binary(0, w) + "101000"
  {
    LowDigit(40, w + 5);
    LowDigit(20, w + 4);
    LowDigit(10, w + 3);
    LowDigit(5, w + 2);
    LowDigit(2, w + 1);
    LowDigit(1, w);
    AppendDigits(Binary(0, w));
  }

  /** The last digit of `v` is its parity. */
  lemma LowDigit(v: nat, w: nat)
    ensures Binary(v, w + 1) == Binary(v / 2, w) + (if v % 2 == 1 then "1" else "0")
  {
  }

  lemma AppendDigits(x: string)
    ensures x + "1" + "0" + "1" + "0" + "0" + "0" == x + "101000"
  {
  }

  lemma TenZeros()
    ensures Binary(0, 10) == "0000000000"
  {
    ZeroBits(10);
  }

  /** Zero has only zero digits. */
  lemma {:induction false} ZeroBits(n: nat)
    ensures forall i :: 0 <= i < n ==> Binary(0, n)[i] == '0'
  {
    if n > 0 {
      ZeroBits(n - 1);
    }
  }

  /** The word of `DM=A+1;JNE`: comp `0110111`, dest `011`, jump `101`. */
  lemma SampleCLineWord()
    ensures var l := "DM=A+1;JNE"; Classifiable(l) && TypeOf(l) == C && CWord(l) == "1110110111011101\n"
  {
    SampleCLineCodes();
    Code.CompTriple('A', '+', '1');
    DestDM();
    JumpJNE();
    SampleCLineDigits();
  }

  lemma DestDM()
    ensures Code.Dest("DM") == "011"
  {
  }

  lemma JumpJNE()
    ensures Code.Jump("JNE") == "101"
  {
  }

  lemma SampleCLineDigits()
    ensures "111" + "0110111" + "011" + "101" + "\n" == "1110110111011101\n"
  {
  }

  /** The word of `DM=A+1;JNE` in terms of the encodings of its three fields. */
  lemma SampleCLineCodes()
    ensures var l := "DM=A+1;JNE";
      && Classifiable(l) && TypeOf(l) == C
      && CWord(l) == "111" + Code.Comp("A+1") + Code.Dest("DM") + Code.Jump("JNE") + "\n"
  {
    SampleCLineFields();
  }

  /**
   * `test_second_pass` feeds the line `D=A`: an instruction that is neither
   * an A-instruction, a label nor a line holding `;`. `instruction_type`
   * panics on it, so no program holding it satisfies `ValidProgram`.
   */
  lemma AssignmentWithoutJump()
    ensures !Skippable("D=A") && !Classifiable("D=A")
    ensures forall p: seq<string> :: "D=A" in p ==> !ValidProgram(p)
  {
    assert "D=A"[0] == 'D' && "D=A"[1] == '=' && "D=A"[2] == 'A';
    assert !IsWhitespace("D=A"[0]);
  }
}
