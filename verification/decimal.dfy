/** Decimal text of unsigned integers: Go's `%d` verb (as used by `fmt.Sprintf`)
    and `strconv.ParseUint(s, 10, bitSize)`. */
module Decimal {
  import opened Wrappers

  predicate IsDigit(c: char) {
    '0' <= c <= '9'
  }

  predicate AllDigits(s: string) {
    forall i :: 0 <= i < |s| ==> IsDigit(s[i])
  }

  function DigitChar(d: nat): (c: char)
    requires d < 10
    ensures IsDigit(c) && c as int - '0' as int == d
  {
    ('0' as int + d) as char
  }

  function DigitValue(c: char): (d: nat)
    requires IsDigit(c)
    ensures d < 10 && DigitChar(d) == c
  {
    c as int - '0' as int
  }

  /** The number a string of decimal digits denotes, most significant digit first. */
  function ValueOf(s: string): nat
    requires AllDigits(s)
  {
    if |s| == 0 then 0 else ValueOf(s[..|s| - 1]) * 10 + DigitValue(s[|s| - 1])
  }

  function Pow2(b: nat): (p: nat)
    ensures p >= 1
  {
    if b == 0 then 1 else 2 * Pow2(b - 1)
  }

  /** `fmt.Sprintf("%d", n)` for an unsigned n: the shortest decimal numeral. */
  function DecimalString(n: nat): (s: string)
    ensures |s| >= 1 && AllDigits(s)
    ensures ValueOf(s) == n
    ensures s[0] == '0' ==> s == "0"
    decreases n
  {
    if n < 10 then [DigitChar(n)]
    else
      var prefix := DecimalString(n / 10);
      var s := prefix + [DigitChar(n % 10)];
      assert s[..|s| - 1] == prefix;
      s
  }

  /** `strconv.ParseUint(s, 10, bitSize)`: None stands for the returned error
      (syntax error or value out of range). With base 10 no sign, prefix or
      underscore is accepted; leading zeros are. */
  function ParseUint(s: string, bitSize: nat): (r: Option<nat>)
    ensures s == "" ==> r.None?
    ensures (exists i :: 0 <= i < |s| && !IsDigit(s[i])) ==> r.None?
    ensures r.Some? ==> |s| > 0 && AllDigits(s) && r.value < Pow2(bitSize)
    ensures r.Some? ==> r.value == ValueOf(s)
    ensures AllDigits(s) && |s| > 0 && ValueOf(s) >= Pow2(bitSize) ==> r.None?
    ensures |s| > 0 && AllDigits(s) && ValueOf(s) < Pow2(bitSize) ==> r == Some(ValueOf(s))
  {
    if |s| == 0 || !AllDigits(s) then None
    else if ValueOf(s) < Pow2(bitSize) then Some(ValueOf(s))
    else None
  }

  /** Formatting with `%d` and parsing back with ParseUint is the identity on
      every value that fits the bit size. */
  lemma ParseFormatRoundTrip(n: nat, bitSize: nat)
    requires n < Pow2(bitSize)
    ensures ParseUint(DecimalString(n), bitSize) == Some(n)
  {
  }

  /** Two values format to the same numeral only if they are equal. */
  lemma DecimalStringInjective(m: nat, n: nat)
    requires DecimalString(m) == DecimalString(n)
    ensures m == n
  {
    assert ValueOf(DecimalString(m)) == m;
  }

  /** Leading zeros do not change the parsed value: "007" and "7" name the same id. */
  lemma {:induction false} LeadingZeroValue(s: string)
    requires AllDigits(s)
    ensures AllDigits("0" + s) && ValueOf("0" + s) == ValueOf(s)
    decreases |s|
  {
    var z := "0" + s;
    assert AllDigits(z);
    if |s| > 0 {
      assert z[..|z| - 1] == "0" + s[..|s| - 1];
      LeadingZeroValue(s[..|s| - 1]);
    } else {
      assert z == "0";
      assert z[..0] == "";
    }
  }

  function Pow10(k: nat): (p: nat)
    ensures p >= 1
  {
    if k == 0 then 1 else 10 * Pow10(k - 1)
  }

  lemma {:induction false} Pow10Monotone(a: nat, b: nat)
    requires a <= b
    ensures Pow10(a) <= Pow10(b)
    decreases b - a
  {
    if a < b {
      Pow10Monotone(a, b - 1);
    }
  }

  /** `k` digits denote less than `10^k`. */
  lemma {:induction false} ValueBelow(s: string)
    requires AllDigits(s)
    ensures ValueOf(s) < Pow10(|s|)
    decreases |s|
  {
    if |s| > 0 {
      var init := s[..|s| - 1];
      ValueBelow(init);
      assert ValueOf(s) == ValueOf(init) * 10 + DigitValue(s[|s| - 1]);
      assert ValueOf(init) * 10 <= (Pow10(|init|) - 1) * 10;
    }
  }

  /** `k` digits without a leading zero denote at least `10^(k-1)`. */
  lemma {:induction false} ValueAtLeast(s: string)
    requires AllDigits(s) && |s| > 0 && s[0] != '0'
    ensures ValueOf(s) >= Pow10(|s| - 1)
    decreases |s|
  {
    if |s| > 1 {
      var init := s[..|s| - 1];
      assert init[0] == s[0];
      ValueAtLeast(init);
      assert ValueOf(s) >= ValueOf(init) * 10;
      assert ValueOf(init) * 10 >= Pow10(|init| - 1) * 10;
    } else {
      assert s == [s[0]] && s[..0] == "";
    }
  }

  /** The numeral of `n` has `k` digits when `10^(k-1) <= n < 10^k`. */
  lemma DecimalLength(n: nat, k: nat)
    requires k >= 1 && Pow10(k - 1) <= n < Pow10(k)
    ensures |DecimalString(n)| == k
  {
    var s := DecimalString(n);
    ValueBelow(s);
    if |s| < k {
      Pow10Monotone(|s|, k - 1);
    }
    if |s| > k {
      ValueAtLeast(s);
      Pow10Monotone(k, |s| - 1);
    }
  }
}
