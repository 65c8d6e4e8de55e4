/**
 * Layer names: the default `layer_%04d` name built from the construction
 * counter, and the fixed-size name buffer that `setName` copies into.
 */
module Naming {

  /** Characters `setName` keeps; the buffer's sixteenth byte is the terminator. */
  const NameCapacity: nat := 15

  /** The text every default name starts with. */
  const DefaultPrefix: string := "layer_"

  /** Width `%04d` pads to. */
  const CounterWidth: nat := 4

  predicate IsDigit(c: char) { '0' <= c <= '9' }

  predicate AllDigits(s: string) { forall i :: 0 <= i < |s| ==> IsDigit(s[i]) }

  function DigitChar(d: nat): (c: char)
    requires d < 10
    ensures IsDigit(c) && c as int - '0' as int == d
  {
    ('0' as int + d) as char
  }

  /** The decimal digits of `n`, most significant first, without leading zeros. */
  function Decimal(n: nat): (s: string)
    ensures |s| >= 1 && AllDigits(s)
    ensures n >= 10 ==> s[0] != '0'
  {
    if n < 10 then [DigitChar(n)] else Decimal(n / 10) + [DigitChar(n % 10)]
  }

  /** `s` left-padded with '0' up to `width` characters, as `%0<width>d` does. */
  function ZeroPadded(s: string, width: nat): (r: string)
    ensures |r| == if |s| < width then width else |s|
    ensures r[|r| - |s|..] == s
    ensures forall i :: 0 <= i < |r| - |s| ==> r[i] == '0'
  {
    if |s| < width then seq(width - |s|, _ => '0') + s else s
  }

  /** What `sprintf("%04d", n)` writes for a non-negative `n`. */
  function FormatCounter(n: nat): (s: string)
    ensures |s| >= CounterWidth && AllDigits(s)
  {
    ZeroPadded(Decimal(n), CounterWidth)
  }

  /** The name a layer constructed while the counter is `count` receives. */
  function DefaultName(count: nat): (name: string)
    ensures |name| >= |DefaultPrefix| + CounterWidth
    ensures name[..|DefaultPrefix|] == DefaultPrefix
    ensures AllDigits(name[|DefaultPrefix|..])
  {
    DefaultPrefix + FormatCounter(count)
  }

  /** The number a string of decimal digits denotes. */
  function DigitsValue(s: string): nat
    requires AllDigits(s)
  {
    if s == [] then 0
    else DigitsValue(s[..|s| - 1]) * 10 + (s[|s| - 1] as int - '0' as int)
  }

  lemma {:induction false} DecimalRoundTrip(n: nat)
    ensures DigitsValue(Decimal(n)) == n
  {
    if n >= 10 {
      var s := Decimal(n);
      assert s[..|s| - 1] == Decimal(n / 10);
      DecimalRoundTrip(n / 10);
    }
  }

  /** Leading zeros do not change the value of a digit string. */
  lemma {:induction false} LeadingZeros(k: nat, s: string)
    requires AllDigits(s)
    ensures AllDigits(seq(k, _ => '0') + s)
    ensures DigitsValue(seq(k, _ => '0') + s) == DigitsValue(s)
  {
    var z := seq(k, _ => '0');
    if s == [] {
      assert z + s == z;
      if k > 0 {
        assert z[..k - 1] == seq(k - 1, _ => '0');
        LeadingZeros(k - 1, []);
        assert seq(k - 1, _ => '0') + [] == seq(k - 1, _ => '0');
      }
    } else {
      assert (z + s)[..|z + s| - 1] == z + s[..|s| - 1];
      LeadingZeros(k, s[..|s| - 1]);
    }
  }

  /** `%04d` loses nothing: the counter can be read back from the digits. */
  lemma FormatCounterRoundTrip(n: nat)
    ensures DigitsValue(FormatCounter(n)) == n
  {
    var d := Decimal(n);
    DecimalRoundTrip(n);
    if |d| < CounterWidth {
      LeadingZeros(CounterWidth - |d|, d);
    }
  }

  /** A default name gives back the counter it was built from. */
  lemma DefaultNameRoundTrip(count: nat)
    ensures DigitsValue(DefaultName(count)[|DefaultPrefix|..]) == count
  {
    assert DefaultName(count)[|DefaultPrefix|..] == FormatCounter(count);
    FormatCounterRoundTrip(count);
  }

  /** Distinct counter values give distinct default names. */
  lemma DefaultNameInjective(a: nat, b: nat)
    ensures DefaultName(a) == DefaultName(b) <==> a == b
  {
    if DefaultName(a) == DefaultName(b) {
      DefaultNameRoundTrip(a);
      DefaultNameRoundTrip(b);
    }
  }

  function Pow10(k: nat): nat { if k == 0 then 1 else 10 * Pow10(k - 1) }

  /** A number below 10^k has at most k digits. */
  lemma {:induction false} DecimalLength(n: nat, k: nat)
    requires 1 <= k && n < Pow10(k)
    ensures |Decimal(n)| <= k
  {
    if n >= 10 {
      assert k >= 2;
      DecimalLength(n / 10, k - 1);
    }
  }

  /** Below 10000 the default name has exactly ten characters. */
  lemma DefaultNameLength(count: nat)
    requires count < 10000
    ensures |DefaultName(count)| == |DefaultPrefix| + CounterWidth
  {
    assert Pow10(4) == 10000;
    DecimalLength(count, 4);
  }

  /**
   * What remains in the name buffer after `strncpy(name, str, n)` and the
   * terminator: the characters of `str` before its first NUL, at most `n`.
   */
  function StoredName(str: string, n: nat): (r: string)
    ensures |r| <= n && r <= str && '\0' !in r
    ensures |r| == n || |r| == |str| || str[|r|] == '\0'
  {
    if n == 0 || str == [] || str[0] == '\0' then []
    else [str[0]] + StoredName(str[1..], n - 1)
  }

  /** What `setName` stores. */
  function SetNameResult(str: string): (r: string)
    ensures |r| <= NameCapacity && r <= str
    ensures '\0' !in str ==> r == str[..if |str| < NameCapacity then |str| else NameCapacity]
  {
    StoredName(str, NameCapacity)
  }

  /** The stored name is a fixed point: storing it again changes nothing. */
  lemma {:induction false} StoredNameIdempotent(str: string, n: nat)
    ensures StoredName(StoredName(str, n), n) == StoredName(str, n)
  {
    var r := StoredName(str, n);
    if r != [] {
      assert r[1..] == StoredName(str[1..], n - 1);
      StoredNameIdempotent(str[1..], n - 1);
    }
  }
}
