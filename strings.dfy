/** The optional value Rust's `Option` carries. */
module Wrappers {

  datatype Option<+T> = None | Some(value: T)
}

/**
 * The `str` operations the assembler relies on (`starts_with`, `ends_with`,
 * `contains`, `split`, `chars().filter(..)`), and fixed-width binary digits,
 * stated on `string`, i.e. `seq<char>`.
 */
module Strings {

  /** The decimal digit character of `d`. */
  function DigitChar(d: nat): (c: char)
    requires d < 10
    ensures '0' <= c <= '9' && c as int - '0' as int == d
  {
    ('0' as int + d) as char
  }

  /** `s.starts_with(p)` */
  predicate StartsWith(s: string, p: string) {
    |p| <= |s| && s[..|p|] == p
  }

  /** `s.ends_with(p)` */
  predicate EndsWith(s: string, p: string) {
    |p| <= |s| && s[|s| - |p|..] == p
  }

  /** `t` occurs in `s` starting at index `i`. */
  predicate OccursAt(s: string, t: string, i: nat) {
    i + |t| <= |s| && s[i..i + |t|] == t
  }

  /** `s.contains(t)` for a string pattern `t`: `t` occurs at some index of `s`. */
  predicate Contains(s: string, t: string) {
    exists i: nat :: i <= |s| && OccursAt(s, t, i)
  }

  /** A one-character pattern is contained exactly when the character occurs. */
  lemma ContainsChar(s: string, c: char)
    ensures Contains(s, [c]) <==> c in s
  {
    if c in s {
      var j :| 0 <= j < |s| && s[j] == c;
      assert s[j..j + 1] == [c];
      assert OccursAt(s, [c], j);
    }
    if Contains(s, [c]) {
      var i: nat :| i <= |s| && OccursAt(s, [c], i);
      assert s[i] == s[i..i + 1][0];
    }
  }

  /** Every character of a contained pattern occurs in the string. */
  lemma ContainsChars(s: string, t: string, k: nat)
    requires Contains(s, t) && k < |t|
    ensures t[k] in s
  {
    var i: nat :| i <= |s| && OccursAt(s, t, i);
    assert s[i + k] == s[i..i + |t|][k];
  }

  /** No character of `s` is one of `cs`. */
  predicate NoneOf(s: string, cs: set<char>) {
    forall i :: 0 <= i < |s| ==> s[i] !in cs
  }

  /** The number of characters of `s` that are in `cs`. */
  function CountOf(s: string, cs: set<char>): nat
    decreases |s|
  {
    if s == [] then 0 else (if s[0] in cs then 1 else 0) + CountOf(s[1..], cs)
  }

  /** A string that holds a character of `cs` counts at least one. */
  lemma {:induction false} CountOfPositive(s: string, cs: set<char>, i: nat)
    requires i < |s| && s[i] in cs
    ensures CountOf(s, cs) >= 1
  {
    if i > 0 {
      CountOfPositive(s[1..], cs, i - 1);
    }
  }

  /** Two distinct positions that hold characters of `cs` count at least two. */
  lemma {:induction false} CountOfTwo(s: string, cs: set<char>, i: nat, j: nat)
    requires i < j < |s| && s[i] in cs && s[j] in cs
    ensures CountOf(s, cs) >= 2
  {
    if i > 0 {
      CountOfTwo(s[1..], cs, i - 1, j - 1);
    } else {
      CountOfPositive(s[1..], cs, j - 1);
    }
  }

  /** A separator that occurs is counted. */
  lemma CountOfMember(s: string, cs: set<char>, c: char)
    requires c in s && c in cs
    ensures CountOf(s, cs) >= 1
  {
    var i :| 0 <= i < |s| && s[i] == c;
    CountOfPositive(s, cs, i);
  }

  /** Two different separators that both occur are counted twice. */
  lemma CountOfPair(s: string, cs: set<char>, c: char, d: char)
    requires c != d && c in s && d in s && c in cs && d in cs
    ensures CountOf(s, cs) >= 2
  {
    var i :| 0 <= i < |s| && s[i] == c;
    var j :| 0 <= j < |s| && s[j] == d;
    if i < j { CountOfTwo(s, cs, i, j); } else { CountOfTwo(s, cs, j, i); }
  }

  /**
   * `s.split(|c| seps.contains(c))`: the fields between separator characters,
   * in order; there is always one more field than separators, and no field
   * holds a separator.
   */
  function Split(s: string, seps: set<char>): (fields: seq<string>)
    ensures |fields| == 1 + CountOf(s, seps)
    ensures forall k :: 0 <= k < |fields| ==> NoneOf(fields[k], seps)
    ensures forall k, c :: 0 <= k < |fields| && c in fields[k] ==> c in s
    decreases |s|
  {
    if s == [] then [""]
    else
      var rest := Split(s[1..], seps);
      assert forall c :: c in s[1..] ==> c in s;
      if s[0] in seps then [""] + rest
      else [[s[0]] + rest[0]] + rest[1..]
  }

  /** A string with no separator is a single field. */
  lemma {:induction false} SplitField(p: string, seps: set<char>)
    requires NoneOf(p, seps)
    ensures Split(p, seps) == [p]
  {
    if p != [] {
      SplitField(p[1..], seps);
      assert [p[0]] + p[1..] == p;
    }
  }

  /** A separator closes the field in front of it: splitting starts afresh after it. */
  lemma {:induction false} SplitAfterField(p: string, c: char, q: string, seps: set<char>)
    requires NoneOf(p, seps) && c in seps
    ensures Split(p + [c] + q, seps) == [p] + Split(q, seps)
  {
    if p == [] {
      assert p + [c] + q == [c] + q;
      assert ([c] + q)[1..] == q;
    } else {
      SplitAfterField(p[1..], c, q, seps);
      assert (p + [c] + q)[1..] == p[1..] + [c] + q;
      assert [p[0]] + p[1..] == p;
    }
  }

  /** The fields joined by `sep`: the inverse of splitting on `sep` alone. */
  function Join(fields: seq<string>, sep: char): string
    requires fields != []
    decreases |fields|
  {
    if |fields| == 1 then fields[0] else fields[0] + [sep] + Join(fields[1..], sep)
  }

  /** Splitting on one separator loses nothing: joining the fields gives the string back. */
  lemma {:induction false} JoinSplit(s: string, sep: char)
    ensures Join(Split(s, {sep}), sep) == s
    decreases |s|
  {
    if s != [] {
      JoinSplit(s[1..], sep);
      var rest := Split(s[1..], {sep});
      if s[0] == sep {
        assert Split(s, {sep})[1..] == rest;
        assert s == [sep] + s[1..];
      } else if |rest| == 1 {
        assert s == [s[0]] + s[1..];
      } else {
        var fields := Split(s, {sep});
        assert fields[1..] == rest[1..];
        assert s == [s[0]] + s[1..];
      }
    }
  }

  /** `s.chars().filter(|c| !drop.contains(c)).collect()`: `s` with every character of `drop` removed. */
  function Remove(s: string, drop: set<char>): (r: string)
    ensures |r| <= |s|
    ensures forall c :: c in r <==> c in s && c !in drop
    decreases |s|
  {
    if s == [] then ""
    else if s[0] in drop then Remove(s[1..], drop)
    else [s[0]] + Remove(s[1..], drop)
  }

  /** Removing characters distributes over concatenation, so it keeps the order of what stays. */
  lemma {:induction false} RemoveAppend(a: string, b: string, drop: set<char>)
    ensures Remove(a + b, drop) == Remove(a, drop) + Remove(b, drop)
    decreases |a|
  {
    if a != [] {
      RemoveAppend(a[1..], b, drop);
      assert (a + b)[1..] == a[1..] + b;
    } else {
      assert a + b == b;
    }
  }

  /** Removing characters that do not occur changes nothing. */
  lemma {:induction false} RemoveNone(s: string, drop: set<char>)
    requires NoneOf(s, drop)
    ensures Remove(s, drop) == s
    decreases |s|
  {
    if s != [] {
      RemoveNone(s[1..], drop);
      assert [s[0]] + s[1..] == s;
    }
  }

  /** The digit character of a bit. */
  function Bit(b: bool): char {
    if b then '1' else '0'
  }

  function Pow2(n: nat): (p: nat)
    ensures p >= 1
  {
    if n == 0 then 1 else 2 * Pow2(n - 1)
  }

  /** Every character is a binary digit. */
  predicate BinaryDigits(s: string) {
    forall i :: 0 <= i < |s| ==> s[i] == '0' || s[i] == '1'
  }

  /** The low `width` binary digits of `v`, most significant first (`{:0width$b}`). */
  function Binary(v: nat, width: nat): (r: string)
    ensures |r| == width && BinaryDigits(r)
  {
    if width == 0 then "" else Binary(v / 2, width - 1) + [Bit(v % 2 == 1)]
  }

  /** The number a string of binary digits denotes, most significant first. */
  function BinaryValue(bits: string): nat
    decreases |bits|
  {
    if bits == [] then 0
    else 2 * BinaryValue(bits[..|bits| - 1]) + (if bits[|bits| - 1] == '1' then 1 else 0)
  }

  /** Reading the digits back gives the value: `Binary` is exact for `v < 2^width`. */
  lemma {:induction false} BinaryRoundTrip(v: nat, width: nat)
    requires v < Pow2(width)
    ensures BinaryValue(Binary(v, width)) == v
  {
    if width > 0 {
      BinaryRoundTrip(v / 2, width - 1);
      var r := Binary(v, width);
      assert r[..|r| - 1] == Binary(v / 2, width - 1);
    }
  }
}
