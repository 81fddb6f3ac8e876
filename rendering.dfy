/** The statement's own layout of a two-line entry, as the comments inside
    `decompose_entry_to_dict` show it (`09.08.2022\t21:46\t…` and
    `06.08.2022\t291231\tYANDEX.TAXI`): the first line holds the operation's
    date, time, category and amount; the second the processing date, the
    authorisation code, the description and the operation's currency, fields
    separated by tabs. The docstring's ` -> ` arrows only sketch that layout:
    taken literally they put date and time in one field, which the first-line
    reader rejects (`ArrowLayoutRejected`). `Render` writes a transaction in
    the tab layout and `DecomposeRender` proves that decomposition reads it
    back unchanged. */
module Rendering {
  import opened Wrappers
  import opened Errors
  import opened Patterns
  import opened Strings
  import opened Fields
  import opened Money
  import opened Dates
  import opened Tails
  import opened Records
  import opened Decomposition

  /** A field that also fits on one line and holds no whitespace run, at which the line
      would be cut. */
  predicate LineField(s: string) {
    IsField(s) && '\n' !in s && SingleSpaced(s)
  }

  /** A currency written after an amount: no whitespace at all. */
  predicate CurrencyCode(c: string) {
    |c| > 0 && forall j :: 0 <= j < |c| ==> !IsSpace(c[j])
  }

  /** A transaction the two-line layout can carry: valid dates, text fields that survive
      splitting and stripping, an operational amount only as money out and with its currency,
      a bare currency mark of one character only after a description, and a lone description
      that does not itself look like an amount and a currency. */
  predicate Renderable(t: Transaction) {
    ValidDateTime(t.operationDate) && ValidDate(t.processingDate) &&
    LineField(t.category) && LineField(t.authorisationCode) &&
    (t.description.Some? ==> LineField(t.description.value)) &&
    (t.valueOperationalCurrency.Some? ==>
       t.valueOperationalCurrency.value <= 0 && t.operationalCurrency.Some? &&
       CurrencyCode(t.operationalCurrency.value)) &&
    (t.valueOperationalCurrency.None? && t.operationalCurrency.Some? ==>
       t.description.Some? && |t.operationalCurrency.value| == 1 && !IsSpace(t.operationalCurrency.value[0])) &&
    (t.description.Some? && t.operationalCurrency.None? ==> MoneyTail(t.description.value).None?)
  }

  /** A signed amount of the first line: `+` for money in, bare for money out. */
  function AmountToken(v: int): string {
    if v > 0 then "+" + FormatMoney(v) else FormatMoney(-v)
  }

  /** The size of an amount, without its sign. */
  function Magnitude(v: int): nat {
    if v < 0 then -v else v
  }

  /** An amount in the operation's currency, written without a sign, followed by the currency. */
  function MoneyField(k: nat, currency: string): string {
    FormatMoney(k) + " " + currency
  }

  function FirstFields(t: Transaction): seq<string> {
    [FormatDate(t.operationDate.date), FormatTime(t.operationDate), t.category, AmountToken(t.valueAccountCurrency)]
  }

  function SecondFields(t: Transaction): seq<string> {
    [FormatDate(t.processingDate), t.authorisationCode] +
    (if t.description.Some? then [t.description.value] else []) +
    (if t.valueOperationalCurrency.Some? && t.operationalCurrency.Some? then
       [MoneyField(Magnitude(t.valueOperationalCurrency.value), t.operationalCurrency.value)]
     else if t.operationalCurrency.Some? then [t.operationalCurrency.value]
     else [])
  }

  /** The entry block for `t`. */
  function Render(t: Transaction): string {
    JoinFields(FirstFields(t)) + "\n" + JoinFields(SecondFields(t))
  }

  /** A character in none of the pieces and other than the separator is not in the join. */
  lemma {:induction false} NotInJoin(parts: seq<string>, sep: char, c: char)
    requires c != sep && forall k :: 0 <= k < |parts| ==> c !in parts[k]
    ensures c !in Join(parts, sep)
  {
    if |parts| > 1 {
      NotInJoin(parts[1..], sep, c);
    }
  }

  lemma FormatMoneyShape(k: nat)
    ensures var f := FormatMoney(k);
            |f| >= 4 && (forall j :: 0 <= j < |f| - 3 ==> IsDigit(f[j])) &&
            f[|f| - 3] == ',' && IsDigit(f[|f| - 2]) && IsDigit(f[|f| - 1])
  {
    var whole := NatToDigits(k / 100);
    var f := FormatMoney(k);
    forall j | 0 <= j < |f| - 3 ensures IsDigit(f[j]) {
      assert f[j] == whole[j];
    }
  }

  /** A formatted amount, whitespace and a currency: the money search captures exactly the
      amount and the currency. */
  lemma MoneyTailOfField(k: nat, currency: string)
    requires CurrencyCode(currency)
    ensures MoneyTail(FormatMoney(k) + " " + currency) == Some((FormatMoney(k), currency))
  {
    var f := FormatMoney(k);
    var s := f + " " + currency;
    var n := |f|;
    FormatMoneyShape(k);
    forall j | 0 < j < n - 3 ensures DigitOrSpace(s[j]) {
      assert s[j] == f[j];
    }
    forall j | n < j < |s| ensures !IsSpace(s[j]) {
      assert s[j] == currency[j - n - 1];
    }
    assert s[0] == f[0] && s[n - 3] == f[n - 3] && s[n - 2] == f[n - 2] && s[n - 1] == f[n - 1];
    assert MoneyTailAt(s, 0, n);
    assert s[0..n] == f && s[n + 1..] == currency;
  }

  lemma DateIsField(d: Date)
    ensures LineField(FormatDate(d))
  {
    FormattedDateShape(d);
    var f := FormatDate(d);
    assert f[0] == Pad(d.day, 2)[0] && f[9] == Pad(d.year, 4)[3];
    assert forall j :: 0 <= j < |f| ==> !IsSpace(f[j]) && f[j] != '\n' by {
      forall j | 0 <= j < |f| ensures !IsSpace(f[j]) && f[j] != '\n' {
        assert Matches(DateShape[j], f[j]);
      }
    }
  }

  lemma TimeIsField(t: DateTime)
    ensures LineField(FormatTime(t))
  {
    var time := FormatTime(t);
    var h := Pad(t.hour, 2);
    var m := Pad(t.minute, 2);
    assert time == h + ":" + m;
    forall j | 0 <= j < |time| ensures IsDigit(time[j]) || time[j] == ':' {
      if j < 2 { assert time[j] == h[j]; }
      else if j > 2 { assert time[j] == m[j - 3]; }
    }
  }

  lemma AmountIsField(v: int)
    ensures LineField(AmountToken(v))
  {
    var k := if v > 0 then v else -v;
    NoSpacesInFormat(k);
    FormatMoneyShape(k);
    var amount := AmountToken(v);
    var f := FormatMoney(k);
    if v > 0 {
      assert forall j :: 1 <= j < |amount| ==> amount[j] == f[j - 1];
    }
  }

  lemma MoneyFieldIsField(k: nat, c: string)
    requires CurrencyCode(c)
    ensures LineField(MoneyField(k, c))
  {
    var f := FormatMoney(k);
    NoSpacesInFormat(k);
    FormatMoneyShape(k);
    var m := MoneyField(k, c);
    assert forall j :: 0 <= j < |f| ==> m[j] == f[j];
    assert forall j :: |f| < j < |m| ==> m[j] == c[j - |f| - 1];
    assert m[|f|] == ' ';
  }

  lemma FormattedFields(t: Transaction)
    requires Renderable(t)
    ensures forall k :: 0 <= k < |FirstFields(t)| ==> LineField(FirstFields(t)[k])
    ensures forall k :: 0 <= k < |SecondFields(t)| ==> LineField(SecondFields(t)[k])
  {
    FirstFieldsAreFields(t);
    SecondFieldsAreFields(t);
  }

  lemma FirstFieldsAreFields(t: Transaction)
    requires Renderable(t)
    ensures forall k :: 0 <= k < |FirstFields(t)| ==> LineField(FirstFields(t)[k])
  {
    DateIsField(t.operationDate.date);
    TimeIsField(t.operationDate);
    AmountIsField(t.valueAccountCurrency);
  }

  lemma SecondFieldsAreFields(t: Transaction)
    requires Renderable(t)
    ensures forall k :: 0 <= k < |SecondFields(t)| ==> LineField(SecondFields(t)[k])
  {
    DateIsField(t.processingDate);
    var head := [FormatDate(t.processingDate), t.authorisationCode] +
                (if t.description.Some? then [t.description.value] else []);
    var rest := SecondFields(t)[|head|..];
    assert SecondFields(t) == head + rest;
    if t.valueOperationalCurrency.Some? {
      MoneyFieldIsField(Magnitude(t.valueOperationalCurrency.value), t.operationalCurrency.value);
    }
    assert forall k :: 0 <= k < |rest| ==> LineField(rest[k]);
  }

  /** The entry splits into its two lines, and each line into its fields. */
  lemma RenderedLines(t: Transaction)
    requires Renderable(t)
    ensures Lines(Render(t)) == [JoinFields(FirstFields(t)), JoinFields(SecondFields(t))]
    ensures SplitFields(JoinFields(FirstFields(t))) == FirstFields(t)
    ensures SplitFields(JoinFields(SecondFields(t))) == SecondFields(t)
  {
    var first := FirstFields(t);
    var second := SecondFields(t);
    FormattedFields(t);
    var line1 := JoinFields(first);
    var line2 := JoinFields(second);
    NotInJoin(first, '\t', '\n');
    NotInJoin(second, '\t', '\n');
    assert line1[0] == first[0][0] && line2[0] == second[0][0];
    TwoLines(line1, line2);
    SplitJoinFields(first);
    SplitJoinFields(second);
  }

  /** Two non-empty lines without line breaks, joined by one, split back into the two. */
  lemma TwoLines(line1: string, line2: string)
    requires line1 != "" && line2 != "" && '\n' !in line1 && '\n' !in line2
    ensures Lines(line1 + "\n" + line2) == [line1, line2]
  {
    assert Join([line1, line2], '\n') == line1 + "\n" + line2;
    SplitJoin([line1, line2], '\n');
  }

  lemma AmountTokenParses(v: int)
    ensures ParseMoney(AmountToken(v), true) == Some(v)
  {
    if v > 0 {
      MoneyInToken(v);
    } else {
      MoneyOutToken(v, -v);
    }
  }

  lemma MoneyInToken(v: int)
    requires v > 0
    ensures ParseMoney(AmountToken(v), true) == Some(v)
  {
    ParseFormatMoney(v);
  }

  lemma MoneyOutToken(v: int, k: nat)
    requires v == -(k as int)
    ensures ParseMoney(AmountToken(v), true) == Some(v)
  {
    assert AmountToken(v) == FormatMoney(k);
    ParseFormatMoney(k);
  }

  /** The first line reads back as the operation's date and time, category and amount. */
  lemma RenderedHead(t: Transaction)
    requires Renderable(t)
    ensures ReadHead(FirstFields(t)) == Ok(Head(t.operationDate, t.category, t.valueAccountCurrency))
  {
    var first := FirstFields(t);
    assert first[0] + " " + first[1] == FormatDateTime(t.operationDate);
    ParseFormatDateTime(t.operationDate);
    AmountTokenParses(t.valueAccountCurrency);
  }

  /** A last field on which the money search captures an amount that parses gives that
      amount and currency. */
  lemma TailReadsMoney(parts: seq<string>, amount: string, c: string, w: int)
    requires 3 <= |parts| <= 4
    requires MoneyTail(parts[|parts| - 1]) == Some((amount, c)) && ParseMoney(amount, true) == Some(w)
    ensures ReadTail(parts) == Ok(Tail(if |parts| == 4 then Some(parts[2]) else None, Some(w), Some(c)))
  {
  }

  lemma TailWithMoney(parts: seq<string>, d: Option<string>, v: Option<int>, c: Option<string>)
    requires 3 <= |parts| <= 4 && d == (if |parts| == 4 then Some(parts[2]) else None)
    requires v.Some? && v.value <= 0 && c.Some? && CurrencyCode(c.value)
    requires parts[|parts| - 1] == MoneyField(Magnitude(v.value), c.value)
    ensures ReadTail(parts) == Ok(Tail(d, v, c))
  {
    var k := Magnitude(v.value);
    MoneyTailOfField(k, c.value);
    ParseFormatMoney(k);
    TailReadsMoney(parts, FormatMoney(k), c.value, v.value);
  }

  lemma TailWithMark(parts: seq<string>)
    requires |parts| == 4 && |parts[3]| == 1 && !IsSpace(parts[3][0])
    ensures ReadTail(parts) == Ok(Tail(Some(parts[2]), None, Some(parts[3])))
  {
    assert MoneyTail(parts[3]).None?;
    assert parts[3] == [parts[3][0]];
  }

  lemma TailWithDescription(parts: seq<string>)
    requires |parts| == 3 && MoneyTail(parts[2]).None?
    ensures ReadTail(parts) == Ok(Tail(Some(parts[2]), None, None))
  {
  }

  /** The second line's last fields read back as the description and the operation's
      amount and currency. */
  lemma RenderedTail(t: Transaction)
    requires Renderable(t)
    ensures ReadTail(SecondFields(t)) == Ok(Tail(t.description, t.valueOperationalCurrency, t.operationalCurrency))
  {
    var second := SecondFields(t);
    var d, v, c := t.description, t.valueOperationalCurrency, t.operationalCurrency;
    if v.Some? {
      assert |second| == (if d.Some? then 4 else 3);
      assert d.Some? ==> second[2] == d.value;
      TailWithMoney(second, d, v, c);
    } else if c.Some? {
      assert |second| == 4 && second[2] == d.value && second[3] == c.value;
      TailWithMark(second);
    } else if d.Some? {
      assert |second| == 3 && second[2] == d.value;
      TailWithDescription(second);
    } else {
      assert |second| == 2;
    }
  }

  /** Decomposition reads back every transaction written in the statement's layout. */
  lemma DecomposeRender(t: Transaction)
    requires Renderable(t)
    ensures Decompose(Render(t)) == Ok(t)
  {
    RenderedLines(t);
    RenderedHead(t);
    RenderedTail(t);
    ParseFormatDate(t.processingDate);
  }

  /** The docstring's examples, with their arrows read as field separators, keep the date
      and the time in one field (`08.07.2021 18:27 -> Все для дома -> …`). A first line
      laid out that way is rejected for its date, whatever the second line holds: the
      date and the time are read from two fields joined by a space. */
  lemma ArrowLayoutRejected(fields: seq<string>, line2: string)
    requires |fields| >= 2 && ParseDateTime(fields[0]).Some?
    requires forall k :: 0 <= k < |fields| ==> LineField(fields[k])
    requires line2 != "" && '\n' !in line2
    ensures Decompose(JoinFields(fields) + "\n" + line2) == Err(MalformedDate)
  {
    var line1 := JoinFields(fields);
    SplitJoinFields(fields);
    NotInJoin(fields, '\t', '\n');
    JoinHead(fields, '\t');
    TwoLines(line1, line2);
    assert |fields[0] + " " + fields[1]| > 16;
  }
}
