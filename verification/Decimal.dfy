/** Zero-padded decimal fields, as printf writes them and as the server reads them back. */
module Decimal {
  import opened Bytes

  const ZERO: byte := 48
  const NINE: byte := 57

  function Pow10(w: nat): (p: nat)
    ensures p >= 1
  {
    if w == 0 then 1 else 10 * Pow10(w - 1)
  }

  predicate IsDigit(c: byte) { ZERO <= c <= NINE }

  /** The low w decimal digits of n: "%0wu" for every n that has no more. */
  function Padded(n: nat, w: nat): (s: seq<byte>)
    ensures |s| == w
    ensures forall i :: 0 <= i < w ==> IsDigit(s[i])
  {
    if w == 0 then [] else Padded(n / 10, w - 1) + [ZERO + n % 10]
  }

  function Value(s: seq<byte>): nat
    requires forall i :: 0 <= i < |s| ==> IsDigit(s[i])
  {
    if s == [] then 0 else assert IsDigit(s[|s| - 1]); 10 * Value(s[..|s| - 1]) + (s[|s| - 1] as int - 48)
  }

  lemma {:induction false} PaddedValue(n: nat, w: nat)
    requires n < Pow10(w)
    ensures Value(Padded(n, w)) == n
    decreases w
  {
    if w > 0 {
      assert Padded(n, w)[..w - 1] == Padded(n / 10, w - 1);
      PaddedValue(n / 10, w - 1);
    }
  }

  predicate AllDigits(s: seq<byte>) {
    forall i :: 0 <= i < |s| ==> IsDigit(s[i])
  }

  lemma WrapStep(v: nat, d: nat)
    ensures (v % U32 * 10 + d) % U32 == (10 * v + d) % U32
  {
    var q, r := v / U32, v % U32;
    assert 10 * v + d == 10 * q * U32 + (r * 10 + d);
    ModuloDrops(10 * q, r * 10 + d);
  }

  lemma {:induction false} ModuloDrops(q: nat, x: nat)
    ensures (q * U32 + x) % U32 == x % U32
  {
    if q > 0 {
      ModuloDrops(q - 1, x);
      assert q * U32 + x == ((q - 1) * U32 + x) + U32;
    }
  }

  /** str_to_num: digit by digit in uint32 arithmetic, refusing any other character. */
  method StrToNum(str: seq<byte>) returns (ok: bool, num: nat)
    requires |str| > 0
    ensures ok <==> AllDigits(str)
    ensures ok ==> num == Value(str) % U32
  {
    num := 0;
    for i := 0 to |str|
      invariant AllDigits(str[..i])
      invariant num == Value(str[..i]) % U32
    {
      if !IsDigit(str[i]) {
        return false, num;
      }
      assert str[..i + 1][..i] == str[..i];
      WrapStep(Value(str[..i]), str[i] as int - 48);
      num := (num * 10 + (str[i] as int - 48)) % U32;
    }
    assert str[..|str|] == str;
    return true, num;
  }

  function DigitsLen(s: seq<byte>): (n: nat)
    ensures n <= |s| && AllDigits(s[..n]) && (n < |s| ==> !IsDigit(s[n]))
  {
    if s == [] || !IsDigit(s[0]) then 0 else 1 + DigitsLen(s[1..])
  }

  /** atoi on text that starts with a digit or has no number at all. */
  function Atoi(s: seq<byte>): nat {
    Value(s[..DigitsLen(s)])
  }

  lemma AtoiOfDigits(s: seq<byte>)
    requires AllDigits(s)
    ensures Atoi(s) == Value(s)
  {
    assert DigitsLen(s) == |s|;
    assert s[..|s|] == s;
  }

  lemma TenDigits()
    ensures Pow10(10) == 10_000_000_000
    ensures Pow10(12) == 1_000_000_000_000
  {
    assert Pow10(5) == 100_000;
    assert Pow10(10) == 10_000_000_000;
  }
}
