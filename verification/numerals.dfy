/**
 * Number parsing as the server performs it: `Integer.parseInt` for ride ids
 * and ratings, `Double.parseDouble` for fares (decimal notation only).
 */
module Numerals {
  import opened Wrappers

  const MinInt32: int := -0x8000_0000
  const MaxInt32: int := 0x7fff_ffff

  predicate IsDigit(c: char) {
    '0' <= c <= '9'
  }

  predicate AllDigits(s: string) {
    forall i :: 0 <= i < |s| ==> IsDigit(s[i])
  }

  /** The value of a string of decimal digits, most significant first. */
  function DigitsValue(s: string): nat
    requires AllDigits(s)
    decreases |s|
  {
    if |s| == 0 then 0
    else DigitsValue(s[..|s| - 1]) * 10 + (s[|s| - 1] as int - '0' as int)
  }

  /** The digit character for 0 <= d <= 9. */
  function DigitChar(d: nat): char
    requires d < 10
  {
    ('0' as int + d) as char
  }

  /** The decimal digits of `n`, without leading zeros. */
  function ShowNat(n: nat): (s: string)
    ensures |s| >= 1 && AllDigits(s)
    decreases n
  {
    if n < 10 then [DigitChar(n)] else ShowNat(n / 10) + [DigitChar(n % 10)]
  }

  /** `Integer.toString`. */
  function ShowInt(n: int): string {
    if n < 0 then "-" + ShowNat(-n) else ShowNat(n)
  }

  /** The text after an optional leading '+' or '-', and whether it was '-'. */
  function SplitSign(s: string): (bool, string) {
    if |s| > 0 && (s[0] == '-' || s[0] == '+') then (s[0] == '-', s[1..]) else (false, s)
  }

  function Signed(neg: bool, magnitude: nat): int {
    if neg then -(magnitude as int) else magnitude
  }

  /** The grammar `Integer.parseInt` accepts: an optional sign and at least one digit. */
  predicate IsIntegerNumeral(s: string) {
    var (_, body) := SplitSign(s);
    |body| > 0 && AllDigits(body)
  }

  /** `Integer.parseInt`: an optional sign followed by decimal digits whose value
      fits in 32 bits; anything else is a NumberFormatException, here None. */
  function ParseInt(s: string): (r: Option<int>)
    ensures r.Some? ==> MinInt32 <= r.value <= MaxInt32
    ensures r.Some? ==> IsIntegerNumeral(s)
    ensures r.Some? ==> r.value == Signed(SplitSign(s).0, DigitsValue(SplitSign(s).1))
    ensures IsIntegerNumeral(s) && MinInt32 <= Signed(SplitSign(s).0, DigitsValue(SplitSign(s).1)) <= MaxInt32 ==> r.Some?
    ensures r.None? && IsIntegerNumeral(s) ==>
      var (neg, body) := SplitSign(s);
      !(MinInt32 <= Signed(neg, DigitsValue(body)) <= MaxInt32)
  {
    var (neg, body) := SplitSign(s);
    if |body| == 0 || !AllDigits(body) then None
    else
      var v := Signed(neg, DigitsValue(body));
      if MinInt32 <= v <= MaxInt32 then Some(v) else None
  }

  lemma {:induction false} DigitsValueShowNat(n: nat)
    ensures DigitsValue(ShowNat(n)) == n
    decreases n
  {
    var s := ShowNat(n);
    if n >= 10 {
      DigitsValueShowNat(n / 10);
      assert s[..|s| - 1] == ShowNat(n / 10);
    }
  }

  /** Printing a 32-bit integer and parsing it back gives the same integer. */
  lemma ParseShowInt(n: int)
    requires MinInt32 <= n <= MaxInt32
    ensures ParseInt(ShowInt(n)) == Some(n)
  {
    if n < 0 {
      DigitsValueShowNat(-n);
      assert SplitSign(ShowInt(n)) == (true, ShowNat(-n));
    } else {
      DigitsValueShowNat(n);
      var s := ShowNat(n);
      assert IsDigit(s[0]);
      assert SplitSign(s) == (false, s);
    }
  }

  /** 10 raised to `k`. */
  function Pow10(k: nat): (p: nat)
    ensures p >= 1
  {
    if k == 0 then 1 else 10 * Pow10(k - 1)
  }

  /** Position of the first '.' in `s`, or |s| when there is none. */
  function DotIndex(s: string): (k: nat)
    ensures k <= |s|
    ensures forall i :: 0 <= i < k ==> s[i] != '.'
    ensures k < |s| ==> s[k] == '.'
  {
    if |s| == 0 || s[0] == '.' then 0 else 1 + DotIndex(s[1..])
  }

  /** The decimal numerals `Double.parseDouble` accepts and this model keeps:
      an optional sign, digits, an optional '.' and more digits, with at least
      one digit somewhere. */
  predicate IsDecimalNumeral(s: string) {
    var (_, body) := SplitSign(s);
    var k := DotIndex(body);
    var whole := body[..k];
    var frac := if k < |body| then body[k + 1..] else "";
    AllDigits(whole) && AllDigits(frac) && |whole| + |frac| > 0
  }

  /** `Double.parseDouble` on decimal numerals, computed exactly as a real. */
  function ParseFare(s: string): (r: Option<real>)
    ensures r.Some? <==> IsDecimalNumeral(s)
  {
    var (neg, body) := SplitSign(s);
    var k := DotIndex(body);
    var whole := body[..k];
    var frac := if k < |body| then body[k + 1..] else "";
    if AllDigits(whole) && AllDigits(frac) && |whole| + |frac| > 0 then
      var magnitude := DigitsValue(whole) as real + DigitsValue(frac) as real / Pow10(|frac|) as real;
      Some(if neg then -magnitude else magnitude)
    else None
  }

  /** A whole number written without a point parses to itself. */
  lemma ParseFareWhole(n: nat)
    ensures ParseFare(ShowNat(n)) == Some(n as real)
  {
    var s := ShowNat(n);
    assert IsDigit(s[0]);
    assert SplitSign(s) == (false, s);
    assert DotIndex(s) == |s|;
    assert s[..|s|] == s;
    DigitsValueShowNat(n);
  }
}
