/**
 * The assembler's symbol table: a dictionary from symbol names to 16-bit
 * addresses, created holding the Hack platform's predefined symbols and
 * updated in place by the two passes.
 */
module SymbolTable {
  import opened Strings

  /** A `u16`: every address the table holds fits in 16 bits. */
  type Address = x: int | 0 <= x < 0x1_0000

  /** The name of virtual register `i`: `R0` to `R15`. */
  function RegisterName(i: nat): (name: string)
    requires i < 16
    ensures |name| == 2 || |name| == 3
    ensures name[0] == 'R'
  {
    if i < 10 then ['R', DigitChar(i)] else ['R', '1', DigitChar(i - 10)]
  }

  /** The names the table starts with. */
  const PREDEFINED_NAMES: set<string> := {
    "R0", "R1", "R2", "R3", "R4", "R5", "R6", "R7", "R8", "R9", "R10", "R11", "R12", "R13", "R14", "R15",
    "SP", "LCL", "ARG", "THIS", "THAT", "SCREEN", "KBD" }

  /** The entries `SymbolTable::new` inserts, one insertion after another. */
  function Predefined(): map<string, Address> {
    map[]
      ["R0" := 0]["R1" := 1]["R2" := 2]["R3" := 3]["R4" := 4]["R5" := 5]["R6" := 6]["R7" := 7]
      ["R8" := 8]["R9" := 9]["R10" := 10]["R11" := 11]["R12" := 12]["R13" := 13]["R14" := 14]["R15" := 15]
      ["SP" := 0]["LCL" := 1]["ARG" := 2]["THIS" := 3]["THAT" := 4]["SCREEN" := 16384]["KBD" := 24576]
  }

  /** The virtual registers `R0` to `R15` stand for RAM addresses 0 to 15. */
  lemma PredefinedRegisters(i: nat)
    requires i < 16
    ensures RegisterName(i) in Predefined() && Predefined()[RegisterName(i)] == i
  {
    if i < 10 {
      LowRegisters(i);
    } else {
      HighRegisters(i);
    }
  }

  /** `R0` to `R9`. */
  lemma LowRegisters(i: nat)
    requires i < 10
    ensures RegisterName(i) in Predefined() && Predefined()[RegisterName(i)] == i
  {
    if i < 5 {
      FirstRegisters(i);
    } else {
      MiddleRegisters(i);
    }
  }

  /** `R0` to `R4`. */
  lemma FirstRegisters(i: nat)
    requires i < 5
    ensures RegisterName(i) in Predefined() && Predefined()[RegisterName(i)] == i
  {
    var m := Predefined();
    if i == 0 { assert RegisterName(i) == "R0"; }
    else if i == 1 { assert RegisterName(i) == "R1"; }
    else if i == 2 { assert RegisterName(i) == "R2"; }
    else if i == 3 { assert RegisterName(i) == "R3"; }
    else { assert RegisterName(i) == "R4"; }
  }

  /** `R5` to `R9`. */
  lemma MiddleRegisters(i: nat)
    requires 5 <= i < 10
    ensures RegisterName(i) in Predefined() && Predefined()[RegisterName(i)] == i
  {
    var m := Predefined();
    if i == 5 { assert RegisterName(i) == "R5"; }
    else if i == 6 { assert RegisterName(i) == "R6"; }
    else if i == 7 { assert RegisterName(i) == "R7"; }
    else if i == 8 { assert RegisterName(i) == "R8"; }
    else { assert RegisterName(i) == "R9"; }
  }

  /** `R10` to `R15`. */
  lemma HighRegisters(i: nat)
    requires 10 <= i < 16
    ensures RegisterName(i) in Predefined() && Predefined()[RegisterName(i)] == i
  {
    var m := Predefined();
    if i == 10 { assert RegisterName(i) == "R10"; }
    else if i == 11 { assert RegisterName(i) == "R11"; }
    else if i == 12 { assert RegisterName(i) == "R12"; }
    else if i == 13 { assert RegisterName(i) == "R13"; }
    else if i == 14 { assert RegisterName(i) == "R14"; }
    else { assert RegisterName(i) == "R15"; }
  }

  /** The VM pointers share R0 to R4, and the memory-mapped devices sit at 16384 and 24576. */
  lemma PredefinedPointers()
    ensures var m := Predefined();
      && m["SP"] == 0 && m["LCL"] == 1 && m["ARG"] == 2 && m["THIS"] == 3 && m["THAT"] == 4
      && m["SCREEN"] == 16384 && m["KBD"] == 24576
  {
  }

  /** A new table holds exactly the predefined names, and nothing else. */
  lemma PredefinedKeys()
    ensures forall s :: s in Predefined() <==> s in PREDEFINED_NAMES
  {
  }

  /** The entries of a symbol table, updated in place by `AddEntry`. */
  class SymbolTable {
    var entries: map<string, Address>

    /** `SymbolTable::new`: the table of predefined symbols. */
    constructor()
      ensures entries == Predefined()
    {
      var m: map<string, Address> := map[];
      m := m["R0" := 0];
      m := m["R1" := 1];
      m := m["R2" := 2];
      m := m["R3" := 3];
      m := m["R4" := 4];
      m := m["R5" := 5];
      m := m["R6" := 6];
      m := m["R7" := 7];
      m := m["R8" := 8];
      m := m["R9" := 9];
      m := m["R10" := 10];
      m := m["R11" := 11];
      m := m["R12" := 12];
      m := m["R13" := 13];
      m := m["R14" := 14];
      m := m["R15" := 15];
      m := m["SP" := 0];
      m := m["LCL" := 1];
      m := m["ARG" := 2];
      m := m["THIS" := 3];
      m := m["THAT" := 4];
      m := m["SCREEN" := 16384];
      m := m["KBD" := 24576];
      entries := m;
    }

    /** `add_entry`: binds `symbol` to `address`, replacing any earlier binding, predefined ones included. */
    method AddEntry(symbol: string, address: Address)
      modifies this
      ensures entries == old(entries)[symbol := address]
      ensures symbol in entries && entries[symbol] == address
      ensures forall s :: s != symbol ==> (s in entries <==> s in old(entries))
      ensures forall s :: s != symbol && s in old(entries) ==> entries[s] == old(entries)[s]
    {
      entries := entries[symbol := address];
    }

    /** `contains`: whether `symbol` is bound. */
    method Contains(symbol: string) returns (b: bool)
      ensures b <==> symbol in entries
    {
      b := symbol in entries;
    }

    /** `get_address`: the address `symbol` is bound to; the source unwraps, so the symbol must be bound. */
    method GetAddress(symbol: string) returns (address: Address)
      requires symbol in entries
      ensures address == entries[symbol]
    {
      address := entries[symbol];
    }
  }

  /** Adding the same binding twice leaves the table as adding it once does. */
  lemma AddEntryIdempotent(m: map<string, Address>, symbol: string, address: Address)
    ensures m[symbol := address][symbol := address] == m[symbol := address]
  {
  }

  /** A name outside the predefined set is unbound in a new table; `empty`, for one. */
  lemma FreshNameUnbound(s: string)
    requires s !in PREDEFINED_NAMES
    ensures s !in Predefined()
  {
    PredefinedKeys();
  }

  /** The unit test's table: after binding `sum` to 5 it is found at 5, and `empty` is still unbound. */
  lemma AddThenLookup()
    ensures var m := Predefined()["sum" := 5];
      "sum" in m && m["sum"] == 5 && "empty" !in m
  {
    FreshNameUnbound("empty");
  }
}
