/** `utils.get_float_from_money`: a money token of the statement (`248 822,49`,
    `+21107,75`, `193,91`) read as a whole number of kopecks. Whitespace
    (thousands separators) is ignored and the decimal comma separates kopecks.
    With `signed`, a leading `+` marks money in and an unsigned token money
    out. The helper's body is not part of this model; this is the contract the
    extractor relies on, with money in integer minor units. */
module Money {
  import opened Wrappers
  import opened Patterns
  import opened Strings

  predicate AllDigits(s: string) {
    forall k :: 0 <= k < |s| ==> IsDigit(s[k])
  }

  function DigitValue(c: char): nat
    requires IsDigit(c)
  {
    c as int - '0' as int
  }

  function DigitChar(d: nat): (c: char)
    requires d < 10
    ensures IsDigit(c) && DigitValue(c) == d
  {
    ('0' as int + d) as char
  }

  /** The number a string of decimal digits denotes (0 for the empty string). */
  function DigitsValue(s: string): nat
    requires AllDigits(s)
  {
    if |s| == 0 then 0 else DigitsValue(s[..|s| - 1]) * 10 + DigitValue(s[|s| - 1])
  }

  /** The decimal digits of `n`, without leading zeros. */
  function NatToDigits(n: nat): (r: string)
    ensures |r| >= 1 && AllDigits(r)
  {
    if n < 10 then [DigitChar(n)] else NatToDigits(n / 10) + [DigitChar(n % 10)]
  }

  lemma {:induction false} DigitsRoundTrip(n: nat)
    ensures DigitsValue(NatToDigits(n)) == n
  {
    if n >= 10 {
      DigitsRoundTrip(n / 10);
      var r := NatToDigits(n);
      assert r[..|r| - 1] == NatToDigits(n / 10);
    }
  }

  /** The first position of `c` in `s`, if any. */
  function IndexOf(s: string, c: char): (r: Option<nat>)
    ensures r.Some? ==> r.value < |s| && s[r.value] == c && forall j :: 0 <= j < r.value ==> s[j] != c
    ensures r.None? ==> forall j :: 0 <= j < |s| ==> s[j] != c
  {
    if |s| == 0 then None
    else if s[0] == c then Some(0)
    else match IndexOf(s[1..], c)
      case None => None
      case Some(i) => Some(i + 1)
  }

  /** A token without whitespace or sign: whole units, optionally a comma and at most two
      digits of kopecks, at least one digit in all. */
  function ParseUnsigned(t: string): (r: Option<nat>)
  {
    match IndexOf(t, ',')
    case None =>
      if |t| > 0 && AllDigits(t) then Some(DigitsValue(t) * 100) else None
    case Some(i) => UnitsAndFraction(t[..i], t[i + 1..])
  }

  /** The units before the comma and the fraction after it: digits only, at most two of
      them after the comma, at least one in all. */
  function UnitsAndFraction(whole: string, frac: string): (r: Option<nat>)
  {
    if AllDigits(whole) && AllDigits(frac) && |frac| <= 2 && |whole| + |frac| > 0 then
      Some(DigitsValue(whole) * 100 + (if |frac| == 1 then DigitsValue(frac) * 10 else DigitsValue(frac)))
    else
      None
  }

  /** The token starts with `+` once whitespace is removed. */
  predicate HasPlus(s: string) {
    var t := RemoveSpaces(s);
    |t| > 0 && t[0] == '+'
  }

  /** A token already stripped of whitespace: an optional `+`, then the unsigned amount. */
  function ParseCompact(t: string, signed: bool): (r: Option<int>)
    ensures r.Some? && signed && !(|t| > 0 && t[0] == '+') ==> r.value <= 0
    ensures r.Some? && (!signed || (|t| > 0 && t[0] == '+')) ==> r.value >= 0
  {
    var plus := |t| > 0 && t[0] == '+';
    match ParseUnsigned(if plus then t[1..] else t)
    case None => None
    case Some(k) => Some(if signed && !plus then -(k as int) else k)
  }

  /** `get_float_from_money(s, signed)` in kopecks; `None` where Python's `float` fails. */
  function ParseMoney(s: string, signed: bool): (r: Option<int>)
    ensures r.Some? && signed && !HasPlus(s) ==> r.value <= 0
    ensures r.Some? && (!signed || HasPlus(s)) ==> r.value >= 0
  {
    ParseCompact(RemoveSpaces(s), signed)
  }

  /** The canonical statement rendering of `k` kopecks: units, a comma, two digits. */
  function FormatMoney(k: nat): string {
    NatToDigits(k / 100) + "," + [DigitChar(k % 100 / 10), DigitChar(k % 10)]
  }

  lemma TwoDigits(c1: nat, c0: nat)
    requires c1 < 10 && c0 < 10
    ensures DigitsValue([DigitChar(c1), DigitChar(c0)]) == c1 * 10 + c0
  {
    var cents := [DigitChar(c1), DigitChar(c0)];
    assert cents[..|cents| - 1] == [DigitChar(c1)];
    assert [DigitChar(c1)][..0] == [];
    assert DigitsValue([DigitChar(c1)]) == c1;
  }

  /** Digits hold no comma. */
  lemma NoCommaInDigits(s: string)
    requires AllDigits(s)
    ensures ',' !in s
  {
    forall j | 0 <= j < |s| ensures s[j] != ',' {
      assert IsDigit(s[j]);
    }
  }

  /** The first `c` of `s` is at `n` when `s[n]` is one and none comes before it. */
  lemma IndexOfIs(s: string, c: char, n: nat)
    requires n < |s| && s[n] == c && forall j :: 0 <= j < n ==> s[j] != c
    ensures IndexOf(s, c) == Some(n)
  {
  }

  /** Units, a comma and two digits of kopecks read as that many kopecks and start with a
      digit, not a `+`. */
  lemma UnitsAndCents(t: string, units: string, cents: string, k: nat)
    requires |units| > 0 && AllDigits(units) && |cents| == 2 && AllDigits(cents)
    requires t == units + [','] + cents
    requires k == DigitsValue(units) * 100 + DigitsValue(cents)
    ensures ParseUnsigned(t) == Some(k) && |t| > 0 && t[0] != '+'
  {
    var n := |units|;
    NoCommaInDigits(units);
    assert forall j :: 0 <= j < n ==> t[j] == units[j];
    assert IsDigit(t[0]);
    IndexOfIs(t, ',', n);
    assert t[..n] == units && t[n + 1..] == cents;
    assert ParseUnsigned(t) == UnitsAndFraction(units, cents);
  }

  /** A token that, without its whitespace, is units, a comma and two digits of kopecks
      reads, signed, as that many kopecks of money out. */
  lemma SignedUnitsAndCents(s: string, t: string, units: string, cents: string, k: nat)
    requires |units| > 0 && AllDigits(units) && |cents| == 2 && AllDigits(cents)
    requires t == units + [','] + cents && RemoveSpaces(s) == t
    requires k == DigitsValue(units) * 100 + DigitsValue(cents)
    ensures ParseMoney(s, true) == Some(-(k as int))
  {
    UnitsAndCents(t, units, cents, k);
    SignedOf(s, t, k);
  }

  /** A token that reads, once its whitespace is dropped, as `k` kopecks without a `+` reads,
      signed, as `k` kopecks of money out. */
  lemma SignedOf(s: string, t: string, k: nat)
    requires RemoveSpaces(s) == t && ParseUnsigned(t) == Some(k) && |t| > 0 && t[0] != '+'
    ensures ParseMoney(s, true) == Some(-(k as int))
  {
  }

  /** The last digit of the kopecks below a hundred is the last digit of the amount. */
  lemma LastDigit(k: nat)
    ensures k % 100 % 10 == k % 10
  {
    var h, r := k / 100, k % 100;
    var t, u := r / 10, r % 10;
    assert k == 10 * (10 * h + t) + u && 0 <= u < 10;
  }

  lemma ByHundreds(k: nat)
    ensures k == (k / 100) * 100 + (k % 100 / 10) * 10 + k % 10
  {
    LastDigit(k);
    assert k == (k / 100) * 100 + k % 100;
    assert k % 100 == (k % 100 / 10) * 10 + k % 100 % 10;
  }

  lemma ParseFormatUnsigned(k: nat)
    ensures ParseUnsigned(FormatMoney(k)) == Some(k)
  {
    var whole := NatToDigits(k / 100);
    var cents := [DigitChar(k % 100 / 10), DigitChar(k % 10)];
    assert FormatMoney(k) == whole + [','] + cents;
    DigitsRoundTrip(k / 100);
    TwoDigits(k % 100 / 10, k % 10);
    ByHundreds(k);
    UnitsAndCents(FormatMoney(k), whole, cents, k);
  }

  lemma NoSpacesInFormat(k: nat)
    ensures forall j :: 0 <= j < |FormatMoney(k)| ==> !IsSpace(FormatMoney(k)[j]) && FormatMoney(k)[j] != '+'
  {
    var whole := NatToDigits(k / 100);
    forall j | 0 <= j < |FormatMoney(k)|
      ensures !IsSpace(FormatMoney(k)[j]) && FormatMoney(k)[j] != '+'
    {
      if j < |whole| { assert FormatMoney(k)[j] == whole[j]; }
    }
  }

  /** Reading back a formatted amount: unsigned it is the amount, signed without `+` it is
      money out, signed with `+` money in. */
  lemma ParseFormatMoney(k: nat)
    ensures ParseMoney(FormatMoney(k), false) == Some(k)
    ensures ParseMoney(FormatMoney(k), true) == Some(-(k as int))
    ensures ParseMoney("+" + FormatMoney(k), true) == Some(k)
  {
    var f := FormatMoney(k);
    NoSpacesInFormat(k);
    RemoveSpacesNone(f);
    RemoveSpacesNone("+" + f);
    assert ("+" + f)[1..] == f;
    ParseFormatUnsigned(k);
  }

  /** A whitespace character anywhere in a token (a thousands separator, ordinary or
      no-break) does not change its value. */
  lemma SeparatorIgnored(a: string, c: char, b: string, signed: bool)
    requires IsSpace(c)
    ensures ParseMoney(a + [c] + b, signed) == ParseMoney(a + b, signed)
  {
    RemoveSpacesAppend(a + [c], b);
    RemoveSpacesAppend(a, [c]);
    RemoveSpacesAppend(a, b);
    assert [c][1..] == [];
    assert RemoveSpaces([c]) == "";
    assert RemoveSpaces(a + [c] + b) == RemoveSpaces(a + b);
  }
}
