/** The two searches `decompose_entry_to_dict` runs on the last field of an
    entry's second line: `(\d[\d\s]*?,\d\d)\s(\S*)$`, an amount in the
    operation's currency followed by the currency, and `(\S)$`, a bare
    currency mark. `$` is read as the end of the field: the fields these
    searches see are stripped, so they never end in a line break. */
module Tails {
  import opened Wrappers
  import opened Patterns
  import opened Strings
  import opened Money

  /** What `[\d\s]` matches. */
  predicate DigitOrSpace(c: char) {
    IsDigit(c) || IsSpace(c)
  }

  /** The money pattern matches `last` from `start` to the end, its `\s` sitting at `k`:
      a digit, digits and whitespace, a comma and two digits, whitespace, then no more
      whitespace up to the end. */
  predicate MoneyTailAt(last: string, start: nat, k: nat) {
    start + 4 <= k < |last| && IsDigit(last[start]) &&
    (forall j :: start < j < k - 3 ==> DigitOrSpace(last[j])) &&
    last[k - 3] == ',' && IsDigit(last[k - 2]) && IsDigit(last[k - 1]) &&
    IsSpace(last[k]) && (forall j :: k < j < |last| ==> !IsSpace(last[j]))
  }

  /** The last whitespace position before `n`. */
  function LastSpace(s: string, n: nat): (r: Option<nat>)
    requires n <= |s|
    ensures r.Some? ==> r.value < n && IsSpace(s[r.value]) &&
                        forall j :: r.value < j < n ==> !IsSpace(s[j])
    ensures r.None? ==> forall j :: 0 <= j < n ==> !IsSpace(s[j])
  {
    if n == 0 then None
    else if IsSpace(s[n - 1]) then Some(n - 1)
    else LastSpace(s, n - 1)
  }

  /** Where the run of `[\d\s]` characters that ends just before `c` begins. */
  function RunStart(s: string, c: nat): (r: nat)
    requires c <= |s|
    ensures r <= c
    ensures forall j :: r <= j < c ==> DigitOrSpace(s[j])
    ensures r > 0 ==> !DigitOrSpace(s[r - 1])
  {
    if c > 0 && DigitOrSpace(s[c - 1]) then RunStart(s, c - 1) else c
  }

  /** The first digit in `s[from..to]`. */
  function FirstDigit(s: string, from: nat, to: nat): (r: Option<nat>)
    requires from <= to <= |s|
    decreases (to as int) - (from as int)
    ensures r.Some? ==> from <= r.value < to && IsDigit(s[r.value]) &&
                        forall j :: from <= j < r.value ==> !IsDigit(s[j])
    ensures r.None? ==> forall j :: from <= j < to ==> !IsDigit(s[j])
  {
    if from == to then None
    else if IsDigit(s[from]) then Some(from)
    else FirstDigit(s, from + 1, to)
  }

  /** `re.search` of the money pattern: the leftmost start and the position of its `\s`. */
  function MoneyTailMatch(last: string): (r: Option<(nat, nat)>)
    ensures r.Some? ==> MoneyTailAt(last, r.value.0, r.value.1)
    ensures r.Some? ==> forall start: nat, k: nat :: MoneyTailAt(last, start, k) ==>
                          r.value.0 <= start && k == r.value.1
    ensures r.None? ==> forall start: nat, k: nat :: !MoneyTailAt(last, start, k)
  {
    match LastSpace(last, |last|)
    case None => None
    case Some(k) =>
      if k >= 4 && last[k - 3] == ',' && IsDigit(last[k - 2]) && IsDigit(last[k - 1]) then
        var c := k - 3;
        var run := RunStart(last, c);
        match FirstDigit(last, run, c)
        case Some(start) =>
          assert MoneyTailAt(last, start, k);
          Some((start, k))
        case None => None
      else None
  }

  /** Group 1 (the amount) and group 2 (the currency) of the money pattern, if it matches. */
  function MoneyTail(last: string): (r: Option<(string, string)>)
    ensures r.Some? <==> exists start: nat, k: nat :: MoneyTailAt(last, start, k)
    ensures r.Some? ==> exists start: nat, k: nat :: MoneyTailAt(last, start, k) &&
                          r.value == (last[start..k], last[k + 1..])
  {
    match MoneyTailMatch(last)
    case None => None
    case Some((start, k)) => Some((last[start..k], last[k + 1..]))
  }

  /** Group 1 of `(\S)$`: the last character, unless it is whitespace. */
  function CurrencyMark(last: string): (r: Option<string>)
    ensures r.Some? <==> |last| > 0 && !IsSpace(last[|last| - 1])
    ensures r.Some? ==> r.value == [last[|last| - 1]]
  {
    if |last| > 0 && !IsSpace(last[|last| - 1]) then Some([last[|last| - 1]]) else None
  }

  /** Digits and whitespace without the whitespace are digits, led by the first digit. */
  lemma {:induction false} RemoveSpacesDigits(s: string)
    requires forall j :: 0 <= j < |s| ==> DigitOrSpace(s[j])
    ensures AllDigits(RemoveSpaces(s))
    ensures |s| > 0 && IsDigit(s[0]) ==> |RemoveSpaces(s)| > 0 && RemoveSpaces(s)[0] == s[0]
  {
    if |s| > 0 {
      RemoveSpacesDigits(s[1..]);
    }
  }

  /** Digits and whitespace led by a digit, a comma and two digits read, signed, as minus the
      digits (whitespace dropped) and the two digits of kopecks. */
  lemma AmountOfPieces(s: string, whole: string, cents: string)
    requires |whole| > 0 && IsDigit(whole[0]) && forall j :: 0 <= j < |whole| ==> DigitOrSpace(whole[j])
    requires |cents| == 2 && AllDigits(cents)
    requires s == whole + [','] + cents
    ensures var units := RemoveSpaces(whole);
            AllDigits(units) &&
            ParseMoney(s, true) == Some(-((DigitsValue(units) * 100 + DigitsValue(cents)) as int))
  {
    RemoveSpacesDigits(whole);
    var units := RemoveSpaces(whole);
    CompactPieces(whole, cents);
    SignedUnitsAndCents(s, units + [','] + cents, units, cents, DigitsValue(units) * 100 + DigitsValue(cents));
  }

  /** Removing whitespace leaves the comma and the kopecks alone. */
  lemma CompactPieces(whole: string, cents: string)
    requires AllDigits(cents)
    ensures RemoveSpaces(whole + [','] + cents) == RemoveSpaces(whole) + [','] + cents
  {
    RemoveSpacesAppend(whole + [','], cents);
    RemoveSpacesAppend(whole, [',']);
    RemoveSpacesNone([',']);
    RemoveSpacesNone(cents);
  }

  /** A match of the money pattern captures digits and whitespace led by a digit, a comma
      and two digits. */
  lemma PiecesAt(last: string, start: nat, k: nat)
    requires MoneyTailAt(last, start, k)
    ensures var whole := last[start..k - 3];
            |whole| > 0 && IsDigit(whole[0]) && (forall j :: 0 <= j < |whole| ==> DigitOrSpace(whole[j])) &&
            AllDigits(last[k - 2..k]) && |last[k - 2..k]| == 2 &&
            last[start..k] == whole + [','] + last[k - 2..k]
  {
    var whole := last[start..k - 3];
    assert forall j :: 0 <= j < |whole| ==> whole[j] == last[start + j];
  }

  /** The amount a match of the money pattern captures reads, signed, as minus the whole
      units (whitespace dropped) and the two digits of kopecks. */
  lemma AmountAt(last: string, start: nat, k: nat)
    requires MoneyTailAt(last, start, k)
    ensures var units := RemoveSpaces(last[start..k - 3]);
            AllDigits(units) && AllDigits(last[k - 2..k]) &&
            ParseMoney(last[start..k], true) ==
              Some(-((DigitsValue(units) * 100 + DigitsValue(last[k - 2..k])) as int))
  {
    PiecesAt(last, start, k);
    AmountOfPieces(last[start..k], last[start..k - 3], last[k - 2..k]);
  }

  /** The amount the money pattern captures always parses, and never as money in: it starts
      with a digit, so it carries no `+`. Its value is minus the whole units (whitespace
      dropped) and the two digits of kopecks. */
  lemma MoneyTailAmount(last: string, start: nat, k: nat)
    requires MoneyTailMatch(last) == Some((start, k))
    ensures MoneyTail(last) == Some((last[start..k], last[k + 1..]))
    ensures var units := RemoveSpaces(last[start..k - 3]);
            AllDigits(units) && AllDigits(last[k - 2..k]) &&
            ParseMoney(last[start..k], true) ==
              Some(-((DigitsValue(units) * 100 + DigitsValue(last[k - 2..k])) as int))
  {
    MatchedTail(last, start, k);
    AmountAt(last, start, k);
  }

  /** Where the search matches, the two groups are the amount up to the `\s` and the rest. */
  lemma MatchedTail(last: string, start: nat, k: nat)
    requires MoneyTailMatch(last) == Some((start, k))
    ensures MoneyTailAt(last, start, k)
    ensures MoneyTail(last) == Some((last[start..k], last[k + 1..]))
  {
  }

  /** On a stripped non-empty field the bare-currency search always succeeds. */
  lemma FieldHasCurrencyMark(last: string)
    requires |last| > 0 && IsTrimmed(last)
    ensures CurrencyMark(last).Some?
  {
  }

  /** On a stripped field the captured currency is never empty. */
  lemma MoneyTailCurrency(last: string)
    requires IsTrimmed(last) && MoneyTail(last).Some?
    ensures |MoneyTail(last).value.1| > 0
  {
  }
}
