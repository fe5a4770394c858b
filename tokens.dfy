/**
 * Token generation (RandomString, defined identically in internal/database/kv.go and
 * internal/database/memory.go): a value drawn uniformly below 2^32 from crypto/rand,
 * rendered with `%x`. The draw itself is an input of the model; what is modelled is
 * the rendering and what it guarantees.
 */
module Tokens {

  /** A value the random source can produce: `rand.Int(rand.Reader, 0x100000000)`. */
  newtype uint32 = x: int | 0 <= x < 0x1_0000_0000

  predicate IsLowerHexDigit(c: char) {
    '0' <= c <= '9' || 'a' <= c <= 'f'
  }

  function HexDigit(d: nat): (c: char)
    requires d < 16
    ensures IsLowerHexDigit(c)
  {
    if d < 10 then ('0' as int + d) as char else ('a' as int + d - 10) as char
  }

  function DigitValue(c: char): (d: nat)
    requires IsLowerHexDigit(c)
    ensures d < 16 && HexDigit(d) == c
  {
    if c <= '9' then c as int - '0' as int else c as int - 'a' as int + 10
  }

  /** `fmt.Sprintf("%x", n)` for a non-negative n: lowercase, no leading zeros, "0" for zero. */
  function Hex(n: nat): (s: string)
    ensures |s| >= 1
    ensures forall i :: 0 <= i < |s| ==> IsLowerHexDigit(s[i])
    ensures s[0] == '0' ==> n == 0
    decreases n
  {
    if n < 16 then [HexDigit(n)] else Hex(n / 16) + [HexDigit(n % 16)]
  }

  /** Reading a string of lowercase hex digits back as a number (the inverse of Hex). */
  function ParseHex(s: string): nat
    requires forall i :: 0 <= i < |s| ==> IsLowerHexDigit(s[i])
  {
    if s == [] then 0 else 16 * ParseHex(s[..|s| - 1]) + DigitValue(s[|s| - 1])
  }

  function Pow16(k: nat): (p: nat)
    ensures p >= 1
  {
    if k == 0 then 1 else 16 * Pow16(k - 1)
  }

  lemma {:induction false} HexRoundTrip(n: nat)
    ensures ParseHex(Hex(n)) == n
    decreases n
  {
    var s := Hex(n);
    if n >= 16 {
      HexRoundTrip(n / 16);
      assert s[..|s| - 1] == Hex(n / 16);
    }
  }

  lemma {:induction false} HexLengthBound(n: nat, k: nat)
    requires 1 <= k && n < Pow16(k)
    ensures |Hex(n)| <= k
    decreases n
  {
    if n >= 16 {
      assert k >= 2;
      assert n / 16 < Pow16(k - 1);
      HexLengthBound(n / 16, k - 1);
    }
  }

  /** `RandomString()` applied to the value the random source produced. */
  function RandomString(draw: uint32): (s: string)
    ensures 1 <= |s| <= 8
    ensures s != ""
    ensures forall i :: 0 <= i < |s| ==> IsLowerHexDigit(s[i])
  {
    assert Pow16(8) == 0x1_0000_0000;
    HexLengthBound(draw as nat, 8);
    Hex(draw as nat)
  }

  /** Distinct draws give distinct tokens. */
  lemma RandomStringInjective(a: uint32, b: uint32)
    requires RandomString(a) == RandomString(b)
    ensures a == b
  {
    HexRoundTrip(a as nat);
    HexRoundTrip(b as nat);
  }

  /**
   * The freshness assumption on the token oracle, and what it buys: a draw that the
   * oracle has not produced before renders to a token that no earlier draw rendered to.
   */
  lemma FreshDrawFreshToken(d: uint32, used: set<uint32>)
    requires d !in used
    ensures forall u :: u in used ==> RandomString(u) != RandomString(d)
  {
    forall u | u in used
      ensures RandomString(u) != RandomString(d)
    {
      if RandomString(u) == RandomString(d) {
        RandomStringInjective(u, d);
      }
    }
  }
}
