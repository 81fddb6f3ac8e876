/** `SBER_DEBIT_2212.get_period_balance`: the control total of the statement.
    The source's pattern `ОСТАТОК НА.*?ОСТАТОК НА.*?ВСЕГО СПИСАНИЙ.*?ВСЕГО
    ПОПОЛНЕНИЙ.*?\n(.*?)\n` never crosses a line break with `.`, so it matches
    where one line holds the four headings in that order and is followed by a
    whole data line (one ending in a line break); the captured group is that
    data line, and the leftmost match is the first such line. The data line is
    cut at tabs; field 2 is the total of debits and field 3 the total of
    credits. */
module PeriodBalance {
  import opened Wrappers
  import opened Patterns
  import opened Strings
  import opened Money
  import opened Errors

  const Headings: seq<Pattern> :=
    [Literal("ОСТАТОК НА"), Literal("ОСТАТОК НА"), Literal("ВСЕГО СПИСАНИЙ"), Literal("ВСЕГО ПОПОЛНЕНИЙ")]

  /** The patterns `ps` occur in `s` one after another, without overlap, from `from` on. */
  ghost predicate InOrder(s: string, ps: seq<Pattern>, from: nat)
    decreases |ps|
  {
    |ps| == 0 || exists a: nat :: from <= a && PatAt(s, a, ps[0]) && InOrder(s, ps[1..], a + |ps[0]|)
  }

  lemma InOrderFromEarlier(s: string, ps: seq<Pattern>, x: nat, y: nat)
    requires x <= y && InOrder(s, ps, y)
    ensures InOrder(s, ps, x)
  {
  }

  /** Looks for `ps` in order, taking the first occurrence of each. */
  function FindInOrder(s: string, ps: seq<Pattern>, from: nat): bool
    decreases |ps|
  {
    if |ps| == 0 then true
    else match Find(s, ps[0], from)
      case None => false
      case Some(a) => FindInOrder(s, ps[1..], a + |ps[0]|)
  }

  /** Taking the first occurrence each time finds an in-order chain whenever there is one. */
  lemma {:induction false} FindInOrderCorrect(s: string, ps: seq<Pattern>, from: nat)
    decreases |ps|
    ensures FindInOrder(s, ps, from) <==> InOrder(s, ps, from)
  {
    if |ps| > 0 {
      match Find(s, ps[0], from)
      case None =>
      case Some(a) =>
        FindInOrderCorrect(s, ps[1..], a + |ps[0]|);
        if InOrder(s, ps, from) {
          var b: nat :| from <= b && PatAt(s, b, ps[0]) && InOrder(s, ps[1..], b + |ps[0]|);
          InOrderFromEarlier(s, ps[1..], a + |ps[0]|, b + |ps[0]|);
        }
    }
  }

  /** The line holds the four headings in order. */
  predicate IsHeading(line: string) {
    FindInOrder(line, Headings, 0)
  }

  /** A heading line is exactly one holding the four headings in order. */
  lemma HeadingInOrder(line: string)
    ensures IsHeading(line) <==> InOrder(line, Headings, 0)
  {
    FindInOrderCorrect(line, Headings, 0);
  }

  /** Line `i` is a heading line followed by a data line that ends in a line break. */
  ghost predicate HeadingAt(lines: seq<string>, i: int) {
    0 <= i && i + 2 < |lines| && IsHeading(lines[i])
  }

  /** The first heading line at or after `from`. */
  function FirstHeading(lines: seq<string>, from: nat): (r: Option<nat>)
    decreases |lines| - from
    ensures r.Some? ==> from <= r.value && HeadingAt(lines, r.value)
    ensures forall j :: from <= j && (r.None? || j < r.value) ==> !HeadingAt(lines, j)
  {
    if from + 2 >= |lines| then None
    else if IsHeading(lines[from]) then Some(from)
    else FirstHeading(lines, from + 1)
  }

  /** Line `i` is the first heading line. */
  ghost predicate FirstHeadingAt(lines: seq<string>, i: int) {
    HeadingAt(lines, i) && forall j :: 0 <= j < i ==> !HeadingAt(lines, j)
  }

  /** The search finds the first heading line. */
  lemma FirstHeadingFound(lines: seq<string>)
    ensures forall i :: FirstHeadingAt(lines, i) ==> FirstHeading(lines, 0) == Some(i)
  {
    forall i | FirstHeadingAt(lines, i) ensures FirstHeading(lines, 0) == Some(i) {
      var r := FirstHeading(lines, 0);
    }
  }

  /** The data line has field 2 reading as `debits` and field 3 as `credits`. */
  ghost predicate TotalsOf(line: string, debits: int, credits: int) {
    var parts := Split(line, '\t');
    |parts| >= 4 && ParseMoney(parts[2], false) == Some(debits) && ParseMoney(parts[3], false) == Some(credits)
  }

  /** Credits minus debits as a data line states them; `MissingField` exactly when the line
      has fewer than four tab-separated fields. */
  function NetOfTotals(line: string): (r: Result<int, Error>)
    ensures |Split(line, '\t')| < 4 <==> r == Err(MissingField)
    ensures r.Err? ==> r.error in {MissingField, MalformedAmount}
  {
    var parts := Split(line, '\t');
    if |parts| < 4 then Err(MissingField)
    else
      var credits :- OrError(ParseMoney(parts[3], false), MalformedAmount);
      var debits :- OrError(ParseMoney(parts[2], false), MalformedAmount);
      Ok(credits - debits)
  }

  /** A data line whose totals read gives credits minus debits. */
  lemma NetOfReadTotals(line: string, debits: int, credits: int)
    requires TotalsOf(line, debits, credits)
    ensures NetOfTotals(line) == Ok(credits - debits)
  {
  }

  /** A data line gives a balance only when both its totals read. */
  lemma NetOnlyOfTotals(line: string)
    requires NetOfTotals(line).Ok?
    ensures exists debits, credits :: TotalsOf(line, debits, credits)
  {
    var parts := Split(line, '\t');
    assert TotalsOf(line, ParseMoney(parts[2], false).value, ParseMoney(parts[3], false).value);
  }

  /** Total credits minus total debits from the data line after the first heading line;
      `ControlTotalNotFound` without such a line, `MissingField` when the data line has
      fewer than four tab-separated fields, `MalformedAmount` when a total does not read. */
  function GetPeriodBalance(text: string): (r: Result<int, Error>)
    ensures r.Err? ==> r.error in {ControlTotalNotFound, MissingField, MalformedAmount}
  {
    var lines := Split(text, '\n');
    match FirstHeading(lines, 0)
    case None => Err(ControlTotalNotFound)
    case Some(i) => NetOfTotals(lines[i + 1])
  }

  /** Some line is a heading line followed by a data line. */
  ghost predicate HasHeading(lines: seq<string>) {
    exists i :: HeadingAt(lines, i)
  }

  /** The control total is missing exactly when no line is a heading line followed by a
      data line. */
  lemma NoHeadingNoTotal(text: string)
    ensures GetPeriodBalance(text) == Err(ControlTotalNotFound) <==> !HasHeading(Split(text, '\n'))
  {
    var lines := Split(text, '\n');
    var first := FirstHeading(lines, 0);
    if first.Some? {
      assert HeadingAt(lines, first.value);
      var r := NetOfTotals(lines[first.value + 1]);
      assert r.Err? ==> r.error in {MissingField, MalformedAmount};
    } else {
      NoHeadingFound(lines);
    }
  }

  /** The search finds nothing exactly when there is no heading line. */
  lemma NoHeadingFound(lines: seq<string>)
    ensures FirstHeading(lines, 0).None? <==> !HasHeading(lines)
  {
    if FirstHeading(lines, 0).None? {
      assert forall i :: 0 <= i ==> !HeadingAt(lines, i);
    }
  }

  /** The balance is read from the line after the first heading line. */
  lemma BalanceAfterFirstHeading(text: string, i: int)
    requires FirstHeadingAt(Split(text, '\n'), i)
    ensures GetPeriodBalance(text) == NetOfTotals(Split(text, '\n')[i + 1])
  {
    FirstHeadingFound(Split(text, '\n'));
  }
}
