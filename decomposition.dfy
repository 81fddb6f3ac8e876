/** `SBER_DEBIT_2212.decompose_entry_to_dict`: one entry block turned into a
    transaction. `Decompose` is the specification, built from the readings of
    the first line (`ReadHead`), of the second line's last field (`ReadTail`)
    and of the optional third line (`ExtendDescription`);
    `DecomposeEntry` fills the dictionary key by key as the source does and is
    proved to return `Decompose`'s record as that dictionary. */
module Decomposition {
  import opened Wrappers
  import opened Errors
  import opened Patterns
  import opened Strings
  import opened Fields
  import opened Money
  import opened Dates
  import opened Tails
  import opened Records

  /** `list(filter(None, entry.split('\n')))`. */
  function Lines(entry: string): (lines: seq<string>)
    ensures forall k :: 0 <= k < |lines| ==> lines[k] != "" && '\n' !in lines[k]
  {
    SplitPieces(entry, '\n');
    RemoveEmpty(Split(entry, '\n'))
  }

  /** Non-empty lines written out with line breaks between them come back as the same lines. */
  lemma LinesOfJoin(lines: seq<string>)
    requires |lines| >= 1
    requires forall k :: 0 <= k < |lines| ==> lines[k] != "" && '\n' !in lines[k]
    ensures Lines(Join(lines, '\n')) == lines
  {
    SplitJoin(lines, '\n');
  }

  /** What the first line yields: the operation's date and time, its category and the
      signed amount in the account's currency. */
  datatype Head = Head(operationDate: DateTime, category: string, value: int)

  /** The first line's fields, with the failures in the order the source meets them. */
  function ReadHead(parts: seq<string>): (r: Result<Head, Error>)
    ensures r.Ok? <==>
              |parts| >= 4 && ParseDateTime(parts[0] + " " + parts[1]).Some? &&
              ParseMoney(parts[3], true).Some?
    ensures r.Ok? ==>
              r.value.operationDate == ParseDateTime(parts[0] + " " + parts[1]).value &&
              r.value.category == parts[2] && r.value.value == ParseMoney(parts[3], true).value
    ensures r.Err? ==> r.error in {MissingField, MalformedDate, MalformedAmount}
  {
    if |parts| < 2 then Err(MissingField)
    else match ParseDateTime(parts[0] + " " + parts[1])
      case None => Err(MalformedDate)
      case Some(moment) =>
        if |parts| < 3 then Err(MissingField)
        else if |parts| < 4 then Err(MissingField)
        else match ParseMoney(parts[3], true)
          case None => Err(MalformedAmount)
          case Some(value) => Ok(Head(moment, parts[2], value))
  }

  /** What the second line's remaining fields yield. */
  datatype Tail = Tail(description: Option<string>, value: Option<int>, currency: Option<string>)

  /** The operation's amount and currency a money tail captured. */
  function ReadAmount(description: Option<string>, amount: string, currency: string): (r: Result<Tail, Error>)
    ensures r.Ok? <==> ParseMoney(amount, true).Some?
    ensures r.Ok? ==> r.value == Tail(description, ParseMoney(amount, true), Some(currency))
    ensures r.Err? ==> r.error == MalformedAmount
  {
    match ParseMoney(amount, true)
    case None => Err(MalformedAmount)
    case Some(value) => Ok(Tail(description, Some(value), Some(currency)))
  }

  /** The second line's fields after the date and the authorisation code. With three fields
      a money tail in the last one leaves no description; with four the third field is always
      the description and the last one is a money tail or else a bare currency mark. */
  function ReadTail(parts: seq<string>): (r: Result<Tail, Error>)
    requires 2 <= |parts| <= 4
    ensures r.Err? ==> r.error in {MalformedAmount, UnexpectedCurrencyTail}
    ensures |parts| == 2 ==> r == Ok(Tail(None, None, None))
    ensures |parts| == 4 && MoneyTail(parts[3]).None? && CurrencyMark(parts[3]).Some? ==>
              r == Ok(Tail(Some(parts[2]), None, CurrencyMark(parts[3])))
  {
    var last := parts[|parts| - 1];
    if |parts| == 2 then Ok(Tail(None, None, None))
    else match MoneyTail(last)
      case Some((amount, currency)) =>
        ReadAmount(if |parts| == 4 then Some(parts[2]) else None, amount, currency)
      case None =>
        if |parts| == 3 then Ok(Tail(Some(parts[2]), None, None))
        else match CurrencyMark(last)
          case Some(mark) => Ok(Tail(Some(parts[2]), None, Some(mark)))
          case None => Err(UnexpectedCurrencyTail)
  }

  /** A third line extends the description by a space and its first field. */
  function ExtendDescription(description: Option<string>, parts: seq<string>): (r: Result<Option<string>, Error>)
    ensures r.Ok? <==> description.Some? && |parts| > 0
    ensures r.Ok? ==> r.value == Some(description.value + " " + parts[0])
    ensures description.None? ==> r == Err(MissingDescription)
    ensures description.Some? && |parts| == 0 ==> r == Err(MissingField)
  {
    if description.None? then Err(MissingDescription)
    else if |parts| == 0 then Err(MissingField)
    else Ok(Some(description.value + " " + parts[0]))
  }

  /** The transaction one entry block describes, or the first failure the source meets. */
  function Decompose(entry: string): (r: Result<Transaction, Error>)
    ensures r.Err? ==> r.error in {UnexpectedEntryShape, UnexpectedFieldCount, UnexpectedCurrencyTail,
                                   MalformedAmount, MalformedDate, MissingField, MissingDescription}
  {
    var lines := Lines(entry);
    if |lines| < 2 || |lines| > 3 then Err(UnexpectedEntryShape)
    else match ReadHead(SplitFields(lines[0]))
      case Err(e) => Err(e)
      case Ok(head) => ReadRest(head, lines)
  }

  /** Everything after the first line: the second line's fields, then the optional third line. */
  function ReadRest(head: Head, lines: seq<string>): (r: Result<Transaction, Error>)
    requires 2 <= |lines| <= 3
    ensures r.Err? ==> r.error != UnexpectedEntryShape
    ensures r.Err? ==> r.error in {UnexpectedFieldCount, UnexpectedCurrencyTail, MalformedAmount, MalformedDate,
                                   MissingField, MissingDescription}
    ensures r == Err(UnexpectedFieldCount) <==> |SplitFields(lines[1])| < 2 || |SplitFields(lines[1])| > 4
  {
    var parts := SplitFields(lines[1]);
    if |parts| < 2 || |parts| > 4 then Err(UnexpectedFieldCount)
    else match ParseDate(parts[0])
      case None => Err(MalformedDate)
      case Some(processingDate) =>
        match ReadTail(parts)
        case Err(e) => Err(e)
        case Ok(tail) =>
          match (if |lines| == 3 then ExtendDescription(tail.description, SplitFields(lines[2]))
                 else Ok(tail.description))
          case Err(e) => Err(e)
          case Ok(description) =>
            Ok(Transaction(head.operationDate, head.category, head.value, processingDate, parts[1],
                           description, tail.value, tail.currency))
  }

  /** A three-line entry whose second line carries only the date and the code has no
      description to extend: the source's `KeyError`. */
  lemma TwoFieldKeyError(entry: string)
    requires |Lines(entry)| == 3 && ReadHead(SplitFields(Lines(entry)[0])).Ok?
    requires |SplitFields(Lines(entry)[1])| == 2 && ParseDate(SplitFields(Lines(entry)[1])[0]).Some?
    ensures Decompose(entry) == Err(MissingDescription)
  {
    var lines := Lines(entry);
    assert ReadTail(SplitFields(lines[1])) == Ok(Tail(None, None, None));
  }

  /** A decomposed entry has two or three lines, a first line that reads, and the rest read
      after it. */
  lemma DecomposeOk(entry: string)
    requires Decompose(entry).Ok?
    ensures 2 <= |Lines(entry)| <= 3 && ReadHead(SplitFields(Lines(entry)[0])).Ok?
    ensures Decompose(entry) == ReadRest(ReadHead(SplitFields(Lines(entry)[0])).value, Lines(entry))
  {
  }

  /** What a successful read after the first line is made of: the head's three fields, the
      second line's date and authorisation code, and its tail, whose description a third
      line may extend. */
  lemma ReadRestOk(head: Head, lines: seq<string>)
    requires 2 <= |lines| <= 3 && ReadRest(head, lines).Ok?
    ensures var parts := SplitFields(lines[1]);
            2 <= |parts| <= 4 && ParseDate(parts[0]).Some? && ReadTail(parts).Ok?
    ensures var parts := SplitFields(lines[1]);
            var t := ReadRest(head, lines).value;
            var tail := ReadTail(parts).value;
            t.operationDate == head.operationDate && t.category == head.category &&
            t.valueAccountCurrency == head.value && ParseDate(parts[0]) == Some(t.processingDate) &&
            t.authorisationCode == parts[1] &&
            t.valueOperationalCurrency == tail.value && t.operationalCurrency == tail.currency &&
            (|lines| == 2 ==> t.description == tail.description)
  {
  }

  /** Only an entry with two or three non-empty lines is read; every other is rejected first. */
  lemma LineCount(entry: string)
    ensures Decompose(entry) == Err(UnexpectedEntryShape) <==> |Lines(entry)| < 2 || |Lines(entry)| > 3
  {
  }

  /** The fields every transaction has: the operation's date and time from the first two
      fields of the first line, the category from its third and the signed amount from its
      fourth; the processing date and the authorisation code from the first two of the two to
      four fields of the second line. */
  lemma FixedFields(entry: string)
    requires Decompose(entry).Ok?
    ensures var lines := Lines(entry);
            var t := Decompose(entry).value;
            var first := SplitFields(lines[0]);
            var second := SplitFields(lines[1]);
            |first| >= 4 && 2 <= |second| <= 4 &&
            ParseDateTime(first[0] + " " + first[1]) == Some(t.operationDate) &&
            t.category == first[2] &&
            ParseMoney(first[3], true) == Some(t.valueAccountCurrency) &&
            ParseDate(second[0]) == Some(t.processingDate) &&
            t.authorisationCode == second[1]
  {
    DecomposeOk(entry);
    var lines := Lines(entry);
    ReadRestOk(ReadHead(SplitFields(lines[0])).value, lines);
  }

  /** A second line is rejected exactly when the first line reads and it has other than two to
      four fields. */
  lemma FieldCount(entry: string)
    requires 2 <= |Lines(entry)| <= 3
    ensures var second := SplitFields(Lines(entry)[1]);
            Decompose(entry) == Err(UnexpectedFieldCount) <==>
              ReadHead(SplitFields(Lines(entry)[0])).Ok? && (|second| < 2 || |second| > 4)
  {
    var lines := Lines(entry);
    match ReadHead(SplitFields(lines[0]))
    case Err(e) =>
      assert Decompose(entry) == Err(e);
    case Ok(head) =>
      assert Decompose(entry) == ReadRest(head, lines);
  }

  /** The searches on the last field of the second line never fail on a field: a bare
      currency mark is always found, and a money tail's amount always parses. */
  lemma TailAlwaysReads(parts: seq<string>)
    requires 2 <= |parts| <= 4
    requires forall k :: 0 <= k < |parts| ==> IsField(parts[k])
    ensures ReadTail(parts).Ok?
  {
    var last := parts[|parts| - 1];
    FieldHasCurrencyMark(last);
    if MoneyTailMatch(last).Some? {
      var m := MoneyTailMatch(last).value;
      MoneyTailAmount(last, m.0, m.1);
    }
  }

  /** Hence an entry is never rejected for its currency tail. */
  lemma NoUnexpectedCurrencyTail(entry: string)
    ensures Decompose(entry) != Err(UnexpectedCurrencyTail)
  {
    var lines := Lines(entry);
    if 2 <= |lines| <= 3 {
      var second := SplitFields(lines[1]);
      if 2 <= |second| <= 4 {
        TailAlwaysReads(second);
      }
    }
  }

  /** A second line of three fields: a money tail in the third gives the amount and currency
      of the operation and no description; otherwise the third field is the description and
      there are no currency fields. */
  lemma ThreeFieldSecondLine(entry: string)
    requires Decompose(entry).Ok? && |Lines(entry)| == 2
    requires |SplitFields(Lines(entry)[1])| == 3
    ensures var t := Decompose(entry).value;
            var last := SplitFields(Lines(entry)[1])[2];
            match MoneyTail(last)
            case Some((amount, currency)) =>
              t.description.None? && t.valueOperationalCurrency == ParseMoney(amount, true) &&
              t.operationalCurrency == Some(currency)
            case None =>
              t.description == Some(last) && t.valueOperationalCurrency.None? && t.operationalCurrency.None?
  {
    DecomposeOk(entry);
    var lines := Lines(entry);
    ReadRestOk(ReadHead(SplitFields(lines[0])).value, lines);
  }

  /** A second line of four fields: the third is the description; a money tail in the fourth
      gives the amount and currency of the operation, otherwise its last character is the
      currency and there is no amount. */
  lemma FourFieldSecondLine(entry: string)
    requires Decompose(entry).Ok? && |Lines(entry)| == 2
    requires |SplitFields(Lines(entry)[1])| == 4
    ensures var t := Decompose(entry).value;
            var second := SplitFields(Lines(entry)[1]);
            var last := second[3];
            t.description == Some(second[2]) &&
            match MoneyTail(last)
            case Some((amount, currency)) =>
              t.valueOperationalCurrency == ParseMoney(amount, true) && t.operationalCurrency == Some(currency)
            case None =>
              t.valueOperationalCurrency.None? && t.operationalCurrency == Some([last[|last| - 1]])
  {
    DecomposeOk(entry);
    var lines := Lines(entry);
    ReadRestOk(ReadHead(SplitFields(lines[0])).value, lines);
  }

  /** A third line extends the second line's description by a space and its first field; when
      the second line gave no description, the entry is rejected. */
  lemma ThirdLine(entry: string)
    requires |Lines(entry)| == 3
    requires ReadHead(SplitFields(Lines(entry)[0])).Ok?
    requires var second := SplitFields(Lines(entry)[1]);
             2 <= |second| <= 4 && ParseDate(second[0]).Some? && ReadTail(second).Ok?
    ensures var tail := ReadTail(SplitFields(Lines(entry)[1])).value;
            var third := SplitFields(Lines(entry)[2]);
            (tail.description.None? ==> Decompose(entry) == Err(MissingDescription)) &&
            (tail.description.Some? && |third| == 0 ==> Decompose(entry) == Err(MissingField)) &&
            (tail.description.Some? && |third| > 0 ==>
               Decompose(entry).Ok? && Decompose(entry).value.description == Some(tail.description.value + " " + third[0]))
  {
  }

  /** The second line's reading never gives an amount in the operation's currency without
      the currency, nor one that is money in: the captured amount starts with a digit, so it
      carries no `+`. */
  lemma TailOperational(parts: seq<string>)
    requires 2 <= |parts| <= 4 && ReadTail(parts).Ok?
    ensures var tail := ReadTail(parts).value;
            tail.value.Some? ==> tail.currency.Some? && tail.value.value <= 0
  {
    var last := parts[|parts| - 1];
    if MoneyTailMatch(last).Some? {
      var m := MoneyTailMatch(last).value;
      MoneyTailAmount(last, m.0, m.1);
    }
  }

  /** Hence so does every decomposed entry. */
  lemma OperationalCurrency(entry: string)
    requires Decompose(entry).Ok?
    ensures var t := Decompose(entry).value;
            t.valueOperationalCurrency.Some? ==> t.operationalCurrency.Some? && t.valueOperationalCurrency.value <= 0
  {
    DecomposeOk(entry);
    var lines := Lines(entry);
    ReadRestOk(ReadHead(SplitFields(lines[0])).value, lines);
    TailOperational(SplitFields(lines[1]));
  }

  /** The produced dictionary only has keys `get_columns_info` lists, and always the balance
      column. */
  lemma KeysAreColumns(entry: string)
    requires Decompose(entry).Ok?
    ensures AsDict(Decompose(entry).value).Keys <= ColumnKeys()
    ensures BalanceColumn() in AsDict(Decompose(entry).value)
  {
  }

  /** The dictionary while the source fills it: one optional slot per key. */
  datatype Draft = Draft(
    operationDate: Option<DateTime>,
    category: Option<string>,
    valueAccountCurrency: Option<int>,
    processingDate: Option<Date>,
    authorisationCode: Option<string>,
    description: Option<string>,
    valueOperationalCurrency: Option<int>,
    operationalCurrency: Option<string>)

  const EmptyDraft := Draft(None, None, None, None, None, None, None, None)

  /** The source's procedure: the dictionary filled key by key, `line_parts` read afresh for
      each line, the description extended in place for a third line. */
  method DecomposeEntry(entry: string) returns (r: Result<Transaction, Error>)
    ensures r == Decompose(entry)
  {
    var lines := Split(entry, '\n');
    lines := RemoveEmpty(lines);
    if |lines| < 2 || |lines| > 3 {
      return Err(UnexpectedEntryShape);
    }
    var result := EmptyDraft;

    // the first line
    var lineParts := SplitFields(lines[0]);
    if |lineParts| < 2 {
      return Err(MissingField);
    }
    var operationDate := ParseDateTime(lineParts[0] + " " + lineParts[1]);
    if operationDate.None? {
      return Err(MalformedDate);
    }
    result := result.(operationDate := operationDate);
    if |lineParts| < 3 {
      return Err(MissingField);
    }
    result := result.(category := Some(lineParts[2]));
    if |lineParts| < 4 {
      return Err(MissingField);
    }
    var value := ParseMoney(lineParts[3], true);
    if value.None? {
      return Err(MalformedAmount);
    }
    result := result.(valueAccountCurrency := value);
    ghost var head := Head(operationDate.value, lineParts[2], value.value);
    assert Decompose(entry) == ReadRest(head, lines);
    r := FillRest(result, lines, head);
  }

  /** The rest of the source's procedure, from the second line on, with the first line's
      keys already filled. */
  method FillRest(result: Draft, lines: seq<string>, ghost head: Head) returns (r: Result<Transaction, Error>)
    requires 2 <= |lines| <= 3
    requires result == EmptyDraft.(operationDate := Some(head.operationDate), category := Some(head.category),
                                   valueAccountCurrency := Some(head.value))
    ensures r == ReadRest(head, lines)
  {
    var result := result;
    // the second line
    var lineParts := SplitFields(lines[1]);
    if |lineParts| < 2 || |lineParts| > 4 {
      return Err(UnexpectedFieldCount);
    }
    var processingDate := ParseDate(lineParts[0]);
    if processingDate.None? {
      return Err(MalformedDate);
    }
    result := result.(processingDate := processingDate);
    result := result.(authorisationCode := Some(lineParts[1]));

    var filled := FillTail(result, lineParts);
    if filled.Err? {
      return Err(filled.error);
    }
    result := filled.value;

    // the third line, if present
    if |lines| == 3 {
      lineParts := SplitFields(lines[2]);
      if result.description.None? {
        return Err(MissingDescription);
      }
      if |lineParts| == 0 {
        return Err(MissingField);
      }
      result := result.(description := Some(result.description.value + " " + lineParts[0]));
    }

    return Ok(Transaction(result.operationDate.value, result.category.value, result.valueAccountCurrency.value,
                          result.processingDate.value, result.authorisationCode.value, result.description,
                          result.valueOperationalCurrency, result.operationalCurrency));
  }

  /** A draft with the tail's three keys set. */
  function WithTail(result: Draft, tail: Tail): Draft {
    result.(description := tail.description, valueOperationalCurrency := tail.value,
            operationalCurrency := tail.currency)
  }

  /** The second line's keys after the date and the authorisation code, set as the source
      sets them: by the field count, then by whether the last field holds an amount and a
      currency or only a currency mark. */
  method FillTail(result: Draft, lineParts: seq<string>) returns (r: Result<Draft, Error>)
    requires 2 <= |lineParts| <= 4
    requires result.description.None? && result.valueOperationalCurrency.None? && result.operationalCurrency.None?
    ensures ReadTail(lineParts).Err? ==> r == Err(ReadTail(lineParts).error)
    ensures ReadTail(lineParts).Ok? ==> r == Ok(WithTail(result, ReadTail(lineParts).value))
  {
    var result := result;
    var last := lineParts[|lineParts| - 1];
    var lastPartAsMoney := MoneyTail(last);
    var lastPartAsCurrency := CurrencyMark(last);

    if |lineParts| == 3 {
      if lastPartAsMoney.Some? {
        var operational := ParseMoney(lastPartAsMoney.value.0, true);
        if operational.None? {
          return Err(MalformedAmount);
        }
        result := result.(valueOperationalCurrency := operational);
        result := result.(operationalCurrency := Some(lastPartAsMoney.value.1));
      } else {
        result := result.(description := Some(lineParts[2]));
      }
    }

    if |lineParts| == 4 {
      result := result.(description := Some(lineParts[2]));
      if lastPartAsMoney.Some? {
        var operational := ParseMoney(lastPartAsMoney.value.0, true);
        if operational.None? {
          return Err(MalformedAmount);
        }
        result := result.(valueOperationalCurrency := operational);
        result := result.(operationalCurrency := Some(lastPartAsMoney.value.1));
      } else if lastPartAsCurrency.Some? {
        result := result.(operationalCurrency := lastPartAsCurrency);
      } else {
        return Err(UnexpectedCurrencyTail);
      }
    }
    return Ok(result);
  }
}
