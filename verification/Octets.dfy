/** Octets and the big-endian integer fields of the wire formats. */
module Octets {

  type octet = x: int | 0 <= x < 256

  /** The field two octets hold. */
  function Word(hi: octet, lo: octet): (w: int)
    ensures 0 <= w < 0x1_0000
  {
    256 * hi + lo
  }

  /** The two octets of a 16-bit field. */
  function U16(v: int): (s: seq<octet>)
    requires 0 <= v < 0x1_0000
    ensures |s| == 2 && Word(s[0], s[1]) == v
  {
    assert v == 256 * (v / 256) + v % 256;
    var hi: octet, lo: octet :| 256 * hi + lo == v;
    [hi, lo]
  }

  lemma U16OfWord(hi: octet, lo: octet)
    ensures U16(Word(hi, lo)) == [hi, lo]
  {
  }

  /** The four-bit halves of an octet. */
  function Nibbles(o: octet): (n: (int, int))
    ensures 0 <= n.0 < 16 && 0 <= n.1 < 16 && 16 * n.0 + n.1 == o
  {
    assert o == 16 * (o / 16) + o % 16;
    var hi, lo :| 0 <= hi < 16 && 0 <= lo < 16 && 16 * hi + lo == o;
    (hi, lo)
  }

  /** One octet in two's complement. */
  function SignedByte(v: int): octet
    requires -128 <= v < 128
  {
    if v < 0 then v + 256 else v
  }

  function SignedOctet(o: octet): (v: int)
    ensures -128 <= v < 128 && SignedByte(v) == o
  {
    if o < 128 then o else o as int - 0x100
  }

  function Pow256(n: nat): (r: int)
    ensures r > 0
  {
    if n == 0 then 1 else 256 * Pow256(n - 1)
  }

  lemma Widths()
    ensures Pow256(1) == 0x100
    ensures Pow256(2) == 0x1_0000
    ensures Pow256(4) == 0x1_0000_0000
    ensures Pow256(6) == 0x1_0000_0000_0000
    ensures Pow256(8) == 0x1_0000_0000_0000_0000
  {
  }

  /** The field of n octets that holds v: v is masked to the width, so a negative v
      comes out in two's complement. */
  function Uint(v: int, n: nat): (s: seq<octet>)
    ensures |s| == n
    decreases n, v
  {
    if n == 0 then [] else Uint(v / 256, n - 1) + [v % 256]
  }

  function FromBE(s: seq<octet>): (v: int)
    ensures 0 <= v < Pow256(|s|)
  {
    if s == [] then 0 else 256 * FromBE(s[..|s| - 1]) + s[|s| - 1]
  }

  function FromSigned(s: seq<octet>): int {
    if 2 * FromBE(s) < Pow256(|s|) then FromBE(s) else FromBE(s) - Pow256(|s|)
  }

  predicate FitsUnsigned(v: int, n: nat) {
    0 <= v < Pow256(n)
  }

  predicate FitsSigned(v: int, n: nat) {
    -Pow256(n) <= 2 * v < Pow256(n)
  }

  lemma {:induction false} UintRoundTrip(v: int, n: nat)
    ensures FitsUnsigned(v, n) ==> FromBE(Uint(v, n)) == v
    ensures -Pow256(n) <= v < 0 ==> FromBE(Uint(v, n)) == v + Pow256(n)
    decreases n
  {
    if n != 0 {
      UintRoundTrip(v / 256, n - 1);
      assert Uint(v, n)[..n - 1] == Uint(v / 256, n - 1);
    }
  }

  lemma SignedRoundTrip(v: int, n: nat)
    requires FitsSigned(v, n)
    ensures FromSigned(Uint(v, n)) == v
  {
    UintRoundTrip(v, n);
  }

  lemma {:induction false} ReadBack(s: seq<octet>)
    ensures Uint(FromBE(s), |s|) == s
    ensures Uint(FromBE(s) - Pow256(|s|), |s|) == s
  {
    if s != [] {
      ReadBack(s[..|s| - 1]);
      assert s == s[..|s| - 1] + [s[|s| - 1]];
    }
  }

  lemma SignedReadBack(s: seq<octet>, n: nat)
    requires |s| == n
    ensures FitsSigned(FromSigned(s), n)
    ensures Uint(FromSigned(s), n) == s
  {
    ReadBack(s);
    SignedFits(FromBE(s), Pow256(n));
  }

  lemma SignedFits(u: int, p: int)
    requires 0 <= u < p
    ensures 2 * u < p ==> -p <= 2 * u < p
    ensures 2 * u >= p ==> -p <= 2 * (u - p) < p
  {
  }
}
