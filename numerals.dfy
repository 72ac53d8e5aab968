/**
 * The value of a C binary integer literal (`0b` followed by digits), read
 * from its digit text, and how it decomposes into hexadecimal digits.
 */
module Numerals {

  function Pow2(n: nat): (p: nat)
    ensures p >= 1
  {
    if n == 0 then 1 else 2 * Pow2(n - 1)
  }

  /** The digits a binary literal may contain. */
  predicate IsBinary(s: string)
  {
    forall k :: 0 <= k < |s| ==> s[k] == '0' || s[k] == '1'
  }

  function Digit(c: char): nat
  {
    if c == '1' then 1 else 0
  }

  /** The value of the binary numeral `s`, most significant digit first. */
  function BinaryValue(s: string): nat
  {
    if s == [] then 0 else 2 * BinaryValue(s[..|s| - 1]) + Digit(s[|s| - 1])
  }

  lemma Twice(x: nat, p: nat)
    ensures x * (2 * p) == 2 * (x * p)
  {
  }

  /** Reading a numeral in two pieces: the left piece is shifted past the right one. */
  lemma {:induction false} BinaryValueAppend(a: string, b: string)
    ensures BinaryValue(a + b) == BinaryValue(a) * Pow2(|b|) + BinaryValue(b)
    decreases |b|
  {
    if b == [] {
      assert a + b == a;
    } else {
      var b', d := b[..|b| - 1], Digit(b[|b| - 1]);
      assert (a + b)[..|a + b| - 1] == a + b';
      assert (a + b)[|a + b| - 1] == b[|b| - 1];
      BinaryValueAppend(a, b');
      var x, y, p := BinaryValue(a), BinaryValue(b'), Pow2(|b'|);
      assert BinaryValue(a + b) == 2 * (x * p + y) + d;
      assert Pow2(|b|) == 2 * p;
      assert BinaryValue(b) == 2 * y + d;
      Twice(x, p);
    }
  }

  /** A group of four binary digits, read as one hexadecimal digit. */
  function Nibble(g: string): nat
    requires |g| == 4
  {
    8 * Digit(g[0]) + 4 * Digit(g[1]) + 2 * Digit(g[2]) + Digit(g[3])
  }

  lemma BinaryValueOfNibble(g: string)
    requires |g| == 4
    ensures BinaryValue(g) == Nibble(g)
  {
    assert BinaryValue(g[..0]) == 0;
    assert BinaryValue(g[..1]) == Digit(g[0]) by { assert g[..1][..0] == g[..0]; }
    assert BinaryValue(g[..2]) == 2 * Digit(g[0]) + Digit(g[1]) by { assert g[..2][..1] == g[..1]; }
    assert BinaryValue(g[..3]) == 4 * Digit(g[0]) + 2 * Digit(g[1]) + Digit(g[2]) by { assert g[..3][..2] == g[..2]; }
    assert g[..3] == g[..|g| - 1];
  }

  /** Appending a group of four binary digits appends one hexadecimal digit. */
  lemma AppendNibble(s: string, g: string)
    requires |g| == 4
    ensures BinaryValue(s + g) == 16 * BinaryValue(s) + Nibble(g)
  {
    BinaryValueAppend(s, g);
    BinaryValueOfNibble(g);
    assert Pow2(|g|) == 16;
  }

  /**
   * A 32-digit binary numeral written as the groups g0 … g7 of four digits
   * has the value of the hexadecimal numeral whose digits those groups spell.
   */
  lemma ReadsAsHex(g0: string, g1: string, g2: string, g3: string, g4: string, g5: string, g6: string, g7: string)
    requires |g0| == |g1| == |g2| == |g3| == |g4| == |g5| == |g6| == |g7| == 4
    ensures BinaryValue(g0 + g1 + g2 + g3 + g4 + g5 + g6 + g7)
         == ((((((Nibble(g0) * 16 + Nibble(g1)) * 16 + Nibble(g2)) * 16 + Nibble(g3)) * 16
              + Nibble(g4)) * 16 + Nibble(g5)) * 16 + Nibble(g6)) * 16 + Nibble(g7)
  {
    BinaryValueOfNibble(g0);
    AppendNibble(g0, g1);
    AppendNibble(g0 + g1, g2);
    AppendNibble(g0 + g1 + g2, g3);
    AppendNibble(g0 + g1 + g2 + g3, g4);
    AppendNibble(g0 + g1 + g2 + g3 + g4, g5);
    AppendNibble(g0 + g1 + g2 + g3 + g4 + g5, g6);
    AppendNibble(g0 + g1 + g2 + g3 + g4 + g5 + g6, g7);
  }
}
