/**
 * The instruction encoder of the Hack assembler (`Code::dest`, `Code::comp`,
 * `Code::jump`): total functions from the mnemonic text of one field of a
 * C-instruction to its bits. `dest` and `comp` look only at which characters
 * and character pairs occur in the mnemonic; `jump` is a table lookup.
 */
module Code {
  import opened Strings

  /** `Code::dest`: one bit per destination register, in the order A, D, M. */
  function Dest(v: string): (r: string)
    ensures |r| == 3 && BinaryDigits(r)
    ensures (r[0] == '1' <==> 'A' in v) && (r[1] == '1' <==> 'D' in v) && (r[2] == '1' <==> 'M' in v)
  {
    [Bit('A' in v), Bit('D' in v), Bit('M' in v)]
  }

  /** The registers a 3-bit destination field selects (the Hack dest table read backwards). */
  function DestRegisters(bits: string): set<char>
    requires |bits| == 3
  {
    (if bits[0] == '1' then {'A'} else {}) +
    (if bits[1] == '1' then {'D'} else {}) +
    (if bits[2] == '1' then {'M'} else {})
  }

  /** The dest field selects exactly the registers whose letters the mnemonic holds. */
  lemma DestSelects(v: string)
    ensures DestRegisters(Dest(v)) == set c | c in v && c in {'A', 'D', 'M'}
  {
    var want := set c | c in v && c in {'A', 'D', 'M'};
    forall c ensures c in DestRegisters(Dest(v)) <==> c in want {
    }
  }

  /** The order of the letters does not matter: two mnemonics naming the same registers encode alike. */
  lemma DestOrderIndependent(u: string, v: string)
    requires forall c :: c in {'A', 'D', 'M'} ==> (c in u <==> c in v)
    ensures Dest(u) == Dest(v)
  {
    assert 'A' in u <==> 'A' in v;
    assert 'D' in u <==> 'D' in v;
    assert 'M' in u <==> 'M' in v;
  }

  /** The dest table the unit tests pin down, and `null` as no destination. */
  lemma DestTable()
    ensures Dest("null") == "000" && Dest("") == "000"
    ensures Dest("M") == "001" && Dest("D") == "010" && Dest("DM") == "011"
    ensures Dest("A") == "100" && Dest("AM") == "101" && Dest("AD") == "110"
    ensures Dest("ADM") == "111" && Dest("MD") == "011" && Dest("AMD") == "111"
  {
  }

  // The token lists `Code::comp` scans for each ALU control bit.
  const NX_TOKENS: seq<string> := ["+1", "-A", "-M", "|"]
  const NY_TOKENS: seq<string> := ["+1", "-D", "|"]
  const NO_TOKENS: seq<string> := ["!", "-D", "-A", "-M", "+1", "|A", "|M"]

  /**
   * `tokens.iter().any(|t| guard || v.contains(t))`. For the no bit the source
   * tests `v.starts_with(t) || v.contains(t)`, which is `v.contains(t)`.
   */
  predicate AnyToken(v: string, tokens: seq<string>, guard: bool)
    decreases |tokens|
  {
    tokens != [] && (guard || Contains(v, tokens[0]) || AnyToken(v, tokens[1..], guard))
  }

  /**
   * `Code::comp`: the constants 0, 1 and -1 come from a table; every other
   * mnemonic gets the a bit and the six ALU control bits (zx, nx, zy, ny, f, no)
   * from which registers, operators and operator-register pairs occur in it.
   */
  function Comp(v: string): (r: string)
    ensures |r| == 7 && BinaryDigits(r)
  {
    if v == "0" then "0101010"
    else if v == "1" then "0111111"
    else if v == "-1" then "0111010"
    else
      var hasA, hasD, hasM := 'A' in v, 'D' in v, 'M' in v;
      [ Bit(hasM),
        Bit(!hasD),
        Bit(AnyToken(v, NX_TOKENS, !hasD)),
        Bit(!(hasA || hasM)),
        Bit(AnyToken(v, NY_TOKENS, !hasA && !hasM)),
        Bit('-' in v || '+' in v),
        Bit(AnyToken(v, NO_TOKENS, false)) ]
  }

  /** `Code::jump`: the seven jump mnemonics get 001 to 111; anything else, `null` and "" included, gets 000. */
  function Jump(v: string): (r: string)
    ensures |r| == 3
  {
    match v
    case "JGT" => "001"
    case "JEQ" => "010"
    case "JGE" => "011"
    case "JLT" => "100"
    case "JNE" => "101"
    case "JLE" => "110"
    case "JMP" => "111"
    case _ => "000"
  }

  /** The jump mnemonics in the order of their codes 001 to 111. */
  const JUMP_MNEMONICS: seq<string> := ["JGT", "JEQ", "JGE", "JLT", "JNE", "JLE", "JMP"]

  /** The k-th jump mnemonic is encoded as k in binary (counting from 1). */
  lemma JumpCodes()
    ensures forall k :: 0 <= k < |JUMP_MNEMONICS| ==> Jump(JUMP_MNEMONICS[k]) == Binary(k + 1, 3)
  {
    forall k | 0 <= k < |JUMP_MNEMONICS| ensures Jump(JUMP_MNEMONICS[k]) == Binary(k + 1, 3) {
      var b := Binary(k + 1, 3);
      assert b == Binary((k + 1) / 4, 1) + [Bit((k + 1) / 2 % 2 == 1)] + [Bit((k + 1) % 2 == 1)];
    }
  }

  /** Every string that is not one of the seven jump mnemonics falls back to 000, and only those do. */
  lemma JumpFallback(v: string)
    ensures Jump(v) == "000" <==> v !in JUMP_MNEMONICS
    ensures Jump("null") == "000" && Jump("") == "000"
  {
  }

  // The heuristic bits, with each `any` over a token list written out.

  lemma UnfoldNx(v: string, g: bool)
    ensures AnyToken(v, NX_TOKENS, g) <==>
      g || Contains(v, "+1") || Contains(v, "-A") || Contains(v, "-M") || Contains(v, "|")
  {
    assert NX_TOKENS[1..] == ["-A", "-M", "|"];
    assert NX_TOKENS[2..] == ["-M", "|"] == NX_TOKENS[1..][1..];
    assert NX_TOKENS[3..] == ["|"] == NX_TOKENS[2..][1..];
    assert NX_TOKENS[3..][1..] == [];
  }

  lemma UnfoldNy(v: string, g: bool)
    ensures AnyToken(v, NY_TOKENS, g) <==> g || Contains(v, "+1") || Contains(v, "-D") || Contains(v, "|")
  {
    assert NY_TOKENS[1..] == ["-D", "|"];
    assert NY_TOKENS[2..] == ["|"] == NY_TOKENS[1..][1..];
    assert NY_TOKENS[2..][1..] == [];
  }

  lemma UnfoldNo(v: string)
    ensures AnyToken(v, NO_TOKENS, false) <==>
      Contains(v, "!") || Contains(v, "-D") || Contains(v, "-A") || Contains(v, "-M") ||
      Contains(v, "+1") || Contains(v, "|A") || Contains(v, "|M")
  {
    assert NO_TOKENS[1..] == ["-D", "-A", "-M", "+1", "|A", "|M"];
    assert NO_TOKENS[2..] == ["-A", "-M", "+1", "|A", "|M"] == NO_TOKENS[1..][1..];
    assert NO_TOKENS[3..] == ["-M", "+1", "|A", "|M"] == NO_TOKENS[2..][1..];
    assert NO_TOKENS[4..] == ["+1", "|A", "|M"] == NO_TOKENS[3..][1..];
    assert NO_TOKENS[5..] == ["|A", "|M"] == NO_TOKENS[4..][1..];
    assert NO_TOKENS[6..] == ["|M"] == NO_TOKENS[5..][1..];
    assert NO_TOKENS[6..][1..] == [];
  }

  /** The bits `Comp` derives for a mnemonic other than the three constants, each as a plain condition. */
  lemma CompBits(v: string)
    requires v != "0" && v != "1" && v != "-1"
    ensures var hasA, hasD, hasM := 'A' in v, 'D' in v, 'M' in v;
      Comp(v) == [ Bit(hasM),
                   Bit(!hasD),
                   Bit(!hasD || Contains(v, "+1") || Contains(v, "-A") || Contains(v, "-M") || Contains(v, "|")),
                   Bit(!(hasA || hasM)),
                   Bit((!hasA && !hasM) || Contains(v, "+1") || Contains(v, "-D") || Contains(v, "|")),
                   Bit('-' in v || '+' in v),
                   Bit(Contains(v, "!") || Contains(v, "-D") || Contains(v, "-A") || Contains(v, "-M") ||
                       Contains(v, "+1") || Contains(v, "|A") || Contains(v, "|M")) ]
  {
    UnfoldNx(v, !('D' in v));
    UnfoldNy(v, !('A' in v) && !('M' in v));
    UnfoldNo(v);
  }

  /** `Contains` spelled out for a mnemonic of at most three characters and a token of one or two. */
  lemma ShortContains(v: string, t: string)
    requires |v| <= 3 && 1 <= |t| <= 2
    ensures Contains(v, t) <==>
      if |t| == 1 then t[0] in v
      else (|v| >= 2 && v[0] == t[0] && v[1] == t[1]) || (|v| == 3 && v[1] == t[0] && v[2] == t[1])
  {
    if |t| == 1 {
      ContainsChar(v, t[0]);
      assert [t[0]] == t;
    } else {
      if |v| >= 2 && v[0] == t[0] && v[1] == t[1] {
        assert v[0..2] == t;
        assert OccursAt(v, t, 0);
      }
      if |v| == 3 && v[1] == t[0] && v[2] == t[1] {
        assert v[1..3] == t;
        assert OccursAt(v, t, 1);
      }
      if Contains(v, t) {
        var i: nat :| i <= |v| && OccursAt(v, t, i);
        assert v[i] == t[0] && v[i + 1] == t[1] by {
          assert v[i..i + 2][0] == v[i] && v[i..i + 2][1] == v[i + 1];
        }
      }
    }
  }

  /** The tokens `Comp` scans for, decided on the characters of a short mnemonic. */
  lemma ShortTokens(v: string)
    requires |v| <= 3
    ensures Contains(v, "!") <==> '!' in v
    ensures Contains(v, "|") <==> '|' in v
    ensures Contains(v, "+1") <==> (|v| >= 2 && v[0] == '+' && v[1] == '1') || (|v| == 3 && v[1] == '+' && v[2] == '1')
    ensures Contains(v, "-A") <==> (|v| >= 2 && v[0] == '-' && v[1] == 'A') || (|v| == 3 && v[1] == '-' && v[2] == 'A')
    ensures Contains(v, "-D") <==> (|v| >= 2 && v[0] == '-' && v[1] == 'D') || (|v| == 3 && v[1] == '-' && v[2] == 'D')
    ensures Contains(v, "-M") <==> (|v| >= 2 && v[0] == '-' && v[1] == 'M') || (|v| == 3 && v[1] == '-' && v[2] == 'M')
    ensures Contains(v, "|A") <==> (|v| >= 2 && v[0] == '|' && v[1] == 'A') || (|v| == 3 && v[1] == '|' && v[2] == 'A')
    ensures Contains(v, "|M") <==> (|v| >= 2 && v[0] == '|' && v[1] == 'M') || (|v| == 3 && v[1] == '|' && v[2] == 'M')
  {
    ShortContains(v, "!"); ShortContains(v, "|"); ShortContains(v, "+1"); ShortContains(v, "-A");
    ShortContains(v, "-D"); ShortContains(v, "-M"); ShortContains(v, "|A"); ShortContains(v, "|M");
  }

  /** Characters `a` then `b` occur side by side in a mnemonic of at most three characters. */
  predicate Adjacent(v: string, a: char, b: char)
    requires |v| <= 3
  {
    (|v| >= 2 && v[0] == a && v[1] == b) || (|v| == 3 && v[1] == a && v[2] == b)
  }

  /** The bits of a short mnemonic other than the constants, decided on its characters alone. */
  lemma CompShort(v: string)
    requires |v| <= 3 && v != "0" && v != "1" && v != "-1"
    ensures var hasA, hasD, hasM := 'A' in v, 'D' in v, 'M' in v;
      Comp(v) == [ Bit(hasM),
                   Bit(!hasD),
                   Bit(!hasD || Adjacent(v, '+', '1') || Adjacent(v, '-', 'A') || Adjacent(v, '-', 'M') || '|' in v),
                   Bit(!(hasA || hasM)),
                   Bit((!hasA && !hasM) || Adjacent(v, '+', '1') || Adjacent(v, '-', 'D') || '|' in v),
                   Bit('-' in v || '+' in v),
                   Bit('!' in v || Adjacent(v, '-', 'D') || Adjacent(v, '-', 'A') || Adjacent(v, '-', 'M') ||
                       Adjacent(v, '+', '1') || Adjacent(v, '|', 'A') || Adjacent(v, '|', 'M')) ]
  {
    CompBits(v);
    ShortTokens(v);
  }


  /** `CompShort` for a one-character mnemonic, on the character itself. */
  lemma CompSingle(x: char)
    requires x != '0' && x != '1'
    ensures Comp([x]) ==
      [ Bit(x == 'M'), Bit(x != 'D'), Bit(x != 'D' || x == '|'), Bit(x != 'A' && x != 'M'),
        Bit((x != 'A' && x != 'M') || x == '|'), Bit(x == '-' || x == '+'), Bit(x == '!') ]
  {
    var v := [x];
    assert v != "0" && v != "1" && v != "-1";
    CompShort(v);
  }

  /** `CompShort` for a two-character mnemonic, on its characters. */
  lemma CompPair(x: char, y: char)
    requires [x, y] != "-1"
    ensures var hasA, hasD, hasM := x == 'A' || y == 'A', x == 'D' || y == 'D', x == 'M' || y == 'M';
      Comp([x, y]) ==
      [ Bit(hasM),
        Bit(!hasD),
        Bit(!hasD || (x == '+' && y == '1') || (x == '-' && (y == 'A' || y == 'M')) || x == '|' || y == '|'),
        Bit(!(hasA || hasM)),
        Bit((!hasA && !hasM) || (x == '+' && y == '1') || (x == '-' && y == 'D') || x == '|' || y == '|'),
        Bit(x == '-' || y == '-' || x == '+' || y == '+'),
        Bit(x == '!' || y == '!' || (x == '-' && (y == 'D' || y == 'A' || y == 'M')) ||
            (x == '+' && y == '1') || (x == '|' && (y == 'A' || y == 'M'))) ]
  {
    var v := [x, y];
    assert v != "0" && v != "1";
    CompShort(v);
    assert forall c :: c in v <==> c == x || c == y;
  }

  /** `CompShort` for a three-character mnemonic, on its characters. */
  lemma CompTriple(x: char, y: char, z: char)
    ensures var hasA, hasD, hasM := x == 'A' || y == 'A' || z == 'A', x == 'D' || y == 'D' || z == 'D', x == 'M' || y == 'M' || z == 'M';
      Comp([x, y, z]) ==
      [ Bit(hasM),
        Bit(!hasD),
        Bit(!hasD || (x == '+' && y == '1') || (y == '+' && z == '1') || (x == '-' && (y == 'A' || y == 'M')) ||
            (y == '-' && (z == 'A' || z == 'M')) || x == '|' || y == '|' || z == '|'),
        Bit(!(hasA || hasM)),
        Bit((!hasA && !hasM) || (x == '+' && y == '1') || (y == '+' && z == '1') || (x == '-' && y == 'D') ||
            (y == '-' && z == 'D') || x == '|' || y == '|' || z == '|'),
        Bit(x == '-' || y == '-' || z == '-' || x == '+' || y == '+' || z == '+'),
        Bit(x == '!' || y == '!' || z == '!' || (x == '-' && (y == 'D' || y == 'A' || y == 'M')) ||
            (y == '-' && (z == 'D' || z == 'A' || z == 'M')) || (x == '+' && y == '1') || (y == '+' && z == '1') ||
            (x == '|' && (y == 'A' || y == 'M')) || (y == '|' && (z == 'A' || z == 'M'))) ]
  {
    var v := [x, y, z];
    assert v != "0" && v != "1" && v != "-1";
    CompShort(v);
    assert forall c :: c in v <==> c == x || c == y || c == z;
  }

  /** Every `A` replaced by `M`: the a = 1 twin of an a = 0 mnemonic. */
  function SwapAM(s: string): (r: string)
    ensures |r| == |s|
  {
    seq(|s|, i requires 0 <= i < |s| => if s[i] == 'A' then 'M' else s[i])
  }

  /** For strings without `M`, swapping is injective, so containment is preserved both ways. */
  lemma ContainsSwap(v: string, t: string)
    requires 'M' !in v && 'M' !in t
    ensures Contains(SwapAM(v), SwapAM(t)) <==> Contains(v, t)
  {
    var w, u := SwapAM(v), SwapAM(t);
    forall i: nat ensures OccursAt(w, u, i) <==> OccursAt(v, t, i) {
      if i + |t| <= |v| {
        if v[i..i + |t|] == t {
          assert w[i..i + |t|] == u;
        } else {
          var k :| 0 <= k < |t| && v[i + k] != t[k];
          assert w[i..i + |t|][k] != u[k];
        }
      }
    }
  }

  /** What swapping does to the characters `Comp` looks for. */
  lemma SwapChars(v: string)
    requires 'A' in v && 'M' !in v
    ensures 'M' in SwapAM(v) && 'A' !in SwapAM(v)
    ensures forall c :: c != 'A' && c != 'M' ==> (c in SwapAM(v) <==> c in v)
  {
    var w := SwapAM(v);
    var i :| 0 <= i < |v| && v[i] == 'A';
    assert w[i] == 'M';
    forall c | c != 'A' && c != 'M' ensures c in w <==> c in v {
      if c in v {
        var j :| 0 <= j < |v| && v[j] == c;
        assert w[j] == c;
      }
    }
  }

  /** What swapping does to the tokens `Comp` looks for. */
  lemma SwapTokens(v: string)
    requires 'A' in v && 'M' !in v
    ensures var w := SwapAM(v);
      && (Contains(w, "+1") <==> Contains(v, "+1")) && (Contains(w, "|") <==> Contains(v, "|"))
      && (Contains(w, "!") <==> Contains(v, "!")) && (Contains(w, "-D") <==> Contains(v, "-D"))
      && (Contains(w, "-M") <==> Contains(v, "-A")) && (Contains(w, "|M") <==> Contains(v, "|A"))
      && !Contains(w, "-A") && !Contains(w, "|A") && !Contains(v, "-M") && !Contains(v, "|M")
  {
    var w := SwapAM(v);
    SwapChars(v);
    // The tokens without A or M are their own twins.
    assert SwapAM("+1") == "+1" && SwapAM("|") == "|" && SwapAM("!") == "!" && SwapAM("-D") == "-D";
    ContainsSwap(v, "+1"); ContainsSwap(v, "|"); ContainsSwap(v, "!"); ContainsSwap(v, "-D");
    // The tokens with A become the tokens with M.
    assert SwapAM("-A") == "-M" && SwapAM("|A") == "|M";
    ContainsSwap(v, "-A"); ContainsSwap(v, "|A");
    // Neither string holds the other register's tokens.
    if Contains(w, "-A") { ContainsChars(w, "-A", 1); }
    if Contains(w, "|A") { ContainsChars(w, "|A", 1); }
    if Contains(v, "-M") { ContainsChars(v, "-M", 1); }
    if Contains(v, "|M") { ContainsChars(v, "|M", 1); }
  }

  /** The seven bits of a mnemonic other than the constants, one by one. */
  lemma CompAt(v: string)
    requires v != "0" && v != "1" && v != "-1"
    ensures var hasA, hasD, hasM, r := 'A' in v, 'D' in v, 'M' in v, Comp(v);
      && r[0] == Bit(hasM) && r[1] == Bit(!hasD) && r[2] == Bit(AnyToken(v, NX_TOKENS, !hasD))
      && r[3] == Bit(!(hasA || hasM)) && r[4] == Bit(AnyToken(v, NY_TOKENS, !hasA && !hasM))
      && r[5] == Bit('-' in v || '+' in v) && r[6] == Bit(AnyToken(v, NO_TOKENS, false))
  {
  }

  /** Swapping sets the a bit and keeps the x-input bits zx and nx. */
  lemma CompSwapX(v: string)
    requires 'A' in v && 'M' !in v
    ensures Comp(v)[0] == '0' && Comp(SwapAM(v))[0] == '1'
    ensures Comp(SwapAM(v))[1] == Comp(v)[1] && Comp(SwapAM(v))[2] == Comp(v)[2]
  {
    var w := SwapAM(v);
    SwapChars(v);
    assert v != "0" && v != "1" && v != "-1";
    assert w != "0" && w != "1" && w != "-1";
    assert AnyToken(w, NX_TOKENS, !('D' in w)) == AnyToken(v, NX_TOKENS, !('D' in v)) by {
      UnfoldNx(v, !('D' in v)); UnfoldNx(w, !('D' in w)); SwapTokens(v);
    }
    CompAt(v);
    CompAt(w);
  }

  /** Swapping keeps the y-input bits zy and ny. */
  lemma CompSwapY(v: string)
    requires 'A' in v && 'M' !in v
    ensures Comp(SwapAM(v))[3] == Comp(v)[3] && Comp(SwapAM(v))[4] == Comp(v)[4]
  {
    var w := SwapAM(v);
    SwapChars(v);
    assert v != "0" && v != "1" && v != "-1";
    assert w != "0" && w != "1" && w != "-1";
    assert AnyToken(w, NY_TOKENS, false) == AnyToken(v, NY_TOKENS, false) by {
      UnfoldNy(v, false); UnfoldNy(w, false); SwapTokens(v);
    }
    CompAt(v);
    CompAt(w);
  }

  /** Swapping keeps the output bits f and no. */
  lemma CompSwapOut(v: string)
    requires 'A' in v && 'M' !in v
    ensures Comp(SwapAM(v))[5] == Comp(v)[5] && Comp(SwapAM(v))[6] == Comp(v)[6]
  {
    var w := SwapAM(v);
    SwapChars(v);
    assert v != "0" && v != "1" && v != "-1";
    assert w != "0" && w != "1" && w != "-1";
    assert AnyToken(w, NO_TOKENS, false) == AnyToken(v, NO_TOKENS, false) by {
      UnfoldNo(v); UnfoldNo(w); SwapTokens(v);
    }
    CompAt(v);
    CompAt(w);
  }

  /**
   * The a bit is the only bit the register choice moves: for any mnemonic that
   * names A but not M, its M twin encodes with a = 1 and the same six ALU bits.
   */
  lemma CompSwapAM(v: string)
    requires 'A' in v && 'M' !in v
    ensures Comp(v)[0] == '0' && Comp(SwapAM(v))[0] == '1'
    ensures Comp(SwapAM(v))[1] == Comp(v)[1] && Comp(SwapAM(v))[2] == Comp(v)[2]
    ensures Comp(SwapAM(v))[3] == Comp(v)[3] && Comp(SwapAM(v))[4] == Comp(v)[4]
    ensures Comp(SwapAM(v))[5] == Comp(v)[5] && Comp(SwapAM(v))[6] == Comp(v)[6]
  {
    CompSwapX(v);
    CompSwapY(v);
    CompSwapOut(v);
  }

  /**
   * The table code of `0` comes from no other mnemonic: without D the zx bit is
   * set and then the nx guard sets nx as well, which `0101010` has clear.
   */
  lemma CompZeroUnique(v: string)
    ensures Comp(v) == "0101010" <==> v == "0"
  {
    if v != "0" && v != "1" && v != "-1" {
      CompAt(v);
      if 'D' in v {
        assert Comp(v)[1] == '0';
      } else {
        assert Comp(v)[2] == '1';
      }
    }
  }

  /**
   * The table code of `-1` comes from no other mnemonic: without A and M the zy
   * bit is set and then the ny guard sets ny as well, which `0111010` has clear.
   */
  lemma CompMinusOneUnique(v: string)
    ensures Comp(v) == "0111010" <==> v == "-1"
  {
    if v != "0" && v != "1" && v != "-1" {
      CompAt(v);
      if 'A' in v || 'M' in v {
        assert Comp(v)[3] == '0';
      } else {
        assert Comp(v)[4] == '1';
      }
    }
  }

  /** The table code of `1` is not unique: the heuristic gives `+1` (and `!+`) the same seven bits. */
  lemma CompOneShared()
    ensures "+1" != "1" && Comp("+1") == Comp("1")
    ensures "!+" != "1" && Comp("!+") == Comp("1")
  {
    CompPair('+', '1');
    CompPair('!', '+');
  }

  // The 25 mnemonics besides the constants, grouped by ALU operation. Each
  // group is its own lemma because the cost of unfolding `Comp` on literal
  // mnemonics grows faster than linearly with the number in one proof context.

  /** The operand itself: `D`, `A`, `M`. */
  lemma CompRegisters()
    ensures Comp("D") == "0001100" && Comp("A") == "0110000" && Comp("M") == "1110000"
  {
    assert Comp("D") == "0001100" by { CompSingle('D'); }
    assert Comp("A") == "0110000" by { CompSingle('A'); }
    assert Comp("M") == "1110000" by { CompSingle('M'); }
  }

  /** Bitwise negation: `!D`, `!A`, `!M`. */
  lemma CompNots()
    ensures Comp("!D") == "0001101" && Comp("!A") == "0110001" && Comp("!M") == "1110001"
  {
    assert Comp("!D") == "0001101" by { CompPair('!', 'D'); }
    assert Comp("!A") == "0110001" by { CompPair('!', 'A'); }
    assert Comp("!M") == "1110001" by { CompPair('!', 'M'); }
  }

  /** Arithmetic negation: `-D`, `-A`, `-M`. */
  lemma CompNegations()
    ensures Comp("-D") == "0001111" && Comp("-A") == "0110011" && Comp("-M") == "1110011"
  {
    assert Comp("-D") == "0001111" by { CompPair('-', 'D'); }
    assert Comp("-A") == "0110011" by { CompPair('-', 'A'); }
    assert Comp("-M") == "1110011" by { CompPair('-', 'M'); }
  }

  /** Increment: `D+1`, `A+1`, `M+1`. */
  lemma CompIncrements()
    ensures Comp("D+1") == "0011111" && Comp("A+1") == "0110111" && Comp("M+1") == "1110111"
  {
    assert Comp("D+1") == "0011111" by { CompTriple('D', '+', '1'); }
    assert Comp("A+1") == "0110111" by { CompTriple('A', '+', '1'); }
    assert Comp("M+1") == "1110111" by { CompTriple('M', '+', '1'); }
  }

  /** Decrement: `D-1`, `A-1`, `M-1`. */
  lemma CompDecrements()
    ensures Comp("D-1") == "0001110" && Comp("A-1") == "0110010" && Comp("M-1") == "1110010"
  {
    assert Comp("D-1") == "0001110" by { CompTriple('D', '-', '1'); }
    assert Comp("A-1") == "0110010" by { CompTriple('A', '-', '1'); }
    assert Comp("M-1") == "1110010" by { CompTriple('M', '-', '1'); }
  }

  /** Sum: `D+A`, `D+M`. */
  lemma CompSums()
    ensures Comp("D+A") == "0000010" && Comp("D+M") == "1000010"
  {
    assert Comp("D+A") == "0000010" by { CompTriple('D', '+', 'A'); }
    assert Comp("D+M") == "1000010" by { CompTriple('D', '+', 'M'); }
  }

  /** Difference with D first: `D-A`, `D-M`. */
  lemma CompDifferences()
    ensures Comp("D-A") == "0010011" && Comp("D-M") == "1010011"
  {
    assert Comp("D-A") == "0010011" by { CompTriple('D', '-', 'A'); }
    assert Comp("D-M") == "1010011" by { CompTriple('D', '-', 'M'); }
  }

  /** Difference with D second: `A-D`, `M-D`. */
  lemma CompReverseDifferences()
    ensures Comp("A-D") == "0000111" && Comp("M-D") == "1000111"
  {
    assert Comp("A-D") == "0000111" by { CompTriple('A', '-', 'D'); }
    assert Comp("M-D") == "1000111" by { CompTriple('M', '-', 'D'); }
  }

  /** Bitwise and: `D&A`, `D&M`. */
  lemma CompAnds()
    ensures Comp("D&A") == "0000000" && Comp("D&M") == "1000000"
  {
    assert Comp("D&A") == "0000000" by { CompTriple('D', '&', 'A'); }
    assert Comp("D&M") == "1000000" by { CompTriple('D', '&', 'M'); }
  }

  /** Bitwise or: `D|A`, `D|M`. */
  lemma CompOrs()
    ensures Comp("D|A") == "0010101" && Comp("D|M") == "1010101"
  {
    assert Comp("D|A") == "0010101" by { CompTriple('D', '|', 'A'); }
    assert Comp("D|M") == "1010101" by { CompTriple('D', '|', 'M'); }
  }

  /**
   * The heuristic reproduces the whole Hack computation table (The Elements of
   * Computing Systems, chapter 4): each of the 28 comp mnemonics gets its a bit
   * and six control bits.
   */
  lemma CompMatchesHackTable()
    ensures Comp("0") == "0101010" && Comp("1") == "0111111" && Comp("-1") == "0111010"
    ensures Comp("D") == "0001100" && Comp("A") == "0110000" && Comp("!D") == "0001101"
    ensures Comp("!A") == "0110001" && Comp("-D") == "0001111" && Comp("-A") == "0110011"
    ensures Comp("D+1") == "0011111" && Comp("A+1") == "0110111" && Comp("D-1") == "0001110"
    ensures Comp("A-1") == "0110010" && Comp("D+A") == "0000010" && Comp("D-A") == "0010011"
    ensures Comp("A-D") == "0000111" && Comp("D&A") == "0000000" && Comp("D|A") == "0010101"
    ensures Comp("M") == "1110000" && Comp("!M") == "1110001" && Comp("-M") == "1110011"
    ensures Comp("M+1") == "1110111" && Comp("M-1") == "1110010" && Comp("D+M") == "1000010"
    ensures Comp("D-M") == "1010011" && Comp("M-D") == "1000111" && Comp("D&M") == "1000000"
    ensures Comp("D|M") == "1010101"
  {
    CompRegisters(); CompNots(); CompNegations(); CompIncrements(); CompDecrements();
    CompSums(); CompDifferences(); CompReverseDifferences(); CompAnds(); CompOrs();
  }
}
