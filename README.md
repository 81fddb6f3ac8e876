# Sberbank debit-card statement extractor, modelled in Dafny

This project models the statement-specific part of Sberbank2Excel's extractor
for the "SBER_DEBIT_2212" layout. That is the plain-text rendering of a
Sberbank debit-card statement ("Выписка по счёту дебетовой карты"). The extractor:

- recognises the layout by its signature markers;
- reads the statement's control total (total credits minus total debits);
- cuts the text into one block per transaction;
- turns each block into a transaction record whose keys are the spreadsheet
  columns of the layout.

Money is kept in whole kopecks (integers) instead of Python floats. The two
helpers from `utils` whose bodies are not part of this model get contracts:

- `get_float_from_money`: whitespace is ignored, the decimal comma separates
  kopecks, and with `signed` a leading `+` is money in while a bare amount is
  money out;
- `split_Sberbank_line`: a line is cut at every tab and at every run of two
  or more whitespace characters (`\t|\s\s+`), each piece stripped, empty
  pieces dropped; a single space stays inside a field.

Python's `re` is modelled only as far as the extractor's patterns need it: fixed
sequences of literal, case-insensitive, `\d` and `\s` positions, searched for
left to right.

Modules, one per file:

- `Wrappers`, `Errors`: `Option`/`Result`, and one error kind per way the source
  raises (its own exceptions, or an `IndexError`, `KeyError` or `ValueError`
  escaping).
- `Patterns`: character classes, matching at a position, leftmost search,
  case folding.
- `Strings`: `str.split`, `str.join`, `str.strip`, whitespace removal and
  `filter(None, …)`.
- `Fields`: the line-splitting contract.
- `Money`: the money-parsing contract, and the statement's money format as its
  inverse.
- `Dates`: `strptime` with `%d.%m.%Y` and `%d.%m.%Y %H:%M`, and formatting as its
  inverse.
- `Signatures`: `check_specific_signatures`.
- `PeriodBalance`: `get_period_balance`.
- `Segmentation`: `split_text_on_entries`, as an explicit scanner that does what
  `re.findall` does with the entry pattern.
- `Tails`: the two searches on the last field of an entry's second line.
- `Records`: the transaction record, its dictionary form,
  `get_columns_info` and `get_column_name_for_balance_calculation`.
- `Decomposition`: `decompose_entry_to_dict`. It has two parts:
  - `Decompose`, the specification;
  - `DecomposeEntry`, a method that fills the dictionary key by key the way the
    source does, proved to return `Decompose`'s result.
- `Rendering`: the statement's two-line entry layout, as a reference inverse of
  decomposition. The layout is the tab-separated one in the comments at lines
  207-208 and 216-217 (`09.08.2022\t21:46\t…`, `06.08.2022\t291231\tYANDEX.TAXI`).
  The ` -> ` arrows in the docstring (lines 117-141) only sketch it: read
  literally, they put the date and the time in one field, and such a first line
  is rejected with a date error.

How the model reads the source, in the places where the reading matters:

- **`$` is read as the end of the field.** The pattern `(\S)$` captures only the
  *last* character of the last field. For a four-field second line ending in a
  multi-letter code this gives one letter (`USD` becomes `D`); that is what the
  code does, and `Decomposition.ReadTail`'s contract states it.
- **The currency-tail error cannot be reached.** Fields are stripped and
  non-empty, so the bare-currency search always succeeds, and
  `InputFileStructureError` at lines 235-237 is never raised. This is proved as
  `Decomposition.NoUnexpectedCurrencyTail`.
- **A three-line entry can fail with `KeyError`.** This happens when its second
  line carries no description (two fields, or three fields ending in an amount
  and a currency). The model keeps this failure as `MissingDescription`;
  `Decomposition.TwoFieldKeyError` proves the two-field case.
- **The authorisation-code check looks into the text, not the entry.** The
  lookahead sits after the second line's date. It is satisfied by what follows
  in the text, and the entry can end at that same position. So the code is
  proved present at its position in the text (`Segmentation.MatchInSpan`),
  not inside the returned slice.

## Model

| member | source | states |
|---|---|---|
| Patterns.Find | core/Sberbank2Excel/extractor_SBER_DEBIT_2212.py:17-23 | the result is the leftmost position at or after `from` where the pattern matches; `None` exactly when it matches nowhere there |
| Patterns.FindFromStart | core/Sberbank2Excel/extractor_SBER_DEBIT_2212.py:17-25 | a search from the start succeeds exactly when the text contains the pattern (the truth value the source tests) |
| Patterns.IgnoreCaseUnderFolding | core/Sberbank2Excel/extractor_SBER_DEBIT_2212.py:17-23 | a case-insensitive pattern matches the text exactly where it matches the case-folded text |
| Patterns.FindAny | core/Sberbank2Excel/extractor_SBER_DEBIT_2212.py:99-101 | the leftmost position where any of the alternatives matches, none earlier |
| Signatures.CheckSpecificSignatures | core/Sberbank2Excel/extractor_SBER_DEBIT_2212.py:15-26 | succeeds exactly when the text contains `сбербанк` and `Выписка по счёту дебетовой карты` and does not contain `ОСТАТОК ПО СЧЁТУ`, all ignoring case; otherwise fails with the layout error |
| Signatures.SignaturesIgnoreCase | core/Sberbank2Excel/extractor_SBER_DEBIT_2212.py:17-23 | the verdict is the same on the text and on its lower-case form |
| Strings.Split | core/Sberbank2Excel/extractor_SBER_DEBIT_2212.py:48 | `str.split(sep)` always gives at least one piece |
| Strings.SplitPieces | core/Sberbank2Excel/extractor_SBER_DEBIT_2212.py:48 | no piece of a split holds the separator |
| Strings.JoinSplit | core/Sberbank2Excel/extractor_SBER_DEBIT_2212.py:48 | joining the pieces with the separator gives the text back |
| Strings.SplitJoin | core/Sberbank2Excel/extractor_SBER_DEBIT_2212.py:154 | splitting pieces joined by the separator gives the same pieces when none holds it |
| Strings.RemoveEmpty | core/Sberbank2Excel/extractor_SBER_DEBIT_2212.py:155 | `filter(None, …)` keeps only non-empty pieces drawn from the input, and changes nothing when none is empty |
| Strings.RemoveEmptyAppend | core/Sberbank2Excel/extractor_SBER_DEBIT_2212.py:155 | dropping empty pieces distributes over concatenation, so every non-empty piece is kept, in its original order |
| Strings.RemoveEmptyOne | core/Sberbank2Excel/extractor_SBER_DEBIT_2212.py:155 | a single piece is dropped exactly when it is empty |
| Strings.Trim | core/Sberbank2Excel/extractor_SBER_DEBIT_2212.py:163 | the stripped text has no whitespace at either end, and a text already stripped is left unchanged |
| Strings.TrimDrawn | core/Sberbank2Excel/extractor_SBER_DEBIT_2212.py:163 | the stripped text is one contiguous slice of the input with only whitespace before and after it |
| Strings.TrimEmpty | core/Sberbank2Excel/extractor_SBER_DEBIT_2212.py:163 | the stripped text is empty exactly when the input is all whitespace |
| Strings.TrimKeepsOut | core/Sberbank2Excel/extractor_SBER_DEBIT_2212.py:163 | a character absent from the text (a tab) is absent from its stripped form |
| Fields.SplitFields | core/Sberbank2Excel/extractor_SBER_DEBIT_2212.py:163 | every field of a split line is non-empty, tab-free and stripped |
| Fields.SplitJoinFields | core/Sberbank2Excel/extractor_SBER_DEBIT_2212.py:163 | fields without whitespace runs, written with tabs between them, split back into the same fields |
| Fields.MarkCutsNone | core/Sberbank2Excel/extractor_SBER_DEBIT_2212.py:163 | a line without whitespace runs is cut only at its tabs |
| Fields.JoinSingleSpaced | core/Sberbank2Excel/extractor_SBER_DEBIT_2212.py:163 | stripped fields without whitespace runs, joined by tabs, give a line without whitespace runs |
| Fields.CutAtSpaceRun | core/Sberbank2Excel/extractor_SBER_DEBIT_2212.py:201-212 | two spaces cut a line as a tab does: a second line laid out as `11.08.2022\t214722  6,00 BYN` splits into the date, the code and the amount with its currency |
| Fields.FieldsOf | core/Sberbank2Excel/extractor_SBER_DEBIT_2212.py:163 | stripping and dropping empty pieces keeps at most as many pieces, each a non-empty, tab-free, stripped field |
| Money.ParseMoney | core/Sberbank2Excel/extractor_SBER_DEBIT_2212.py:172 | a signed amount without `+` is never positive; with `+`, or unsigned, it is never negative |
| Money.ParseCompact | core/Sberbank2Excel/extractor_SBER_DEBIT_2212.py:172 | on a whitespace-free token: signed without `+` never positive, with `+` or unsigned never negative |
| Money.IndexOf | core/Sberbank2Excel/extractor_SBER_DEBIT_2212.py:172 | the first position of the character, none earlier; `None` exactly when it does not occur |
| Money.UnitsAndCents | core/Sberbank2Excel/extractor_SBER_DEBIT_2212.py:211 | units, a comma and two digits read as units times a hundred plus the kopecks, and start with a digit |
| Money.SignedUnitsAndCents | core/Sberbank2Excel/extractor_SBER_DEBIT_2212.py:211 | a token that is, without its whitespace, units, a comma and two digits reads signed as minus that many kopecks |
| Money.SignedOf | core/Sberbank2Excel/extractor_SBER_DEBIT_2212.py:172 | a whitespace-free token without a leading `+` reads signed as minus its unsigned value |
| Money.ParseFormatMoney | core/Sberbank2Excel/extractor_SBER_DEBIT_2212.py:56-57 | a formatted amount reads back as itself unsigned, as money out when signed, and as money in when signed with `+` |
| Money.ParseFormatUnsigned | core/Sberbank2Excel/extractor_SBER_DEBIT_2212.py:56-57 | a formatted amount reads back unsigned as itself |
| Money.SeparatorIgnored | core/Sberbank2Excel/extractor_SBER_DEBIT_2212.py:56-57 | any whitespace character inside an amount (an ordinary or no-break thousands separator) does not change its value |
| Dates.ParseDate | core/Sberbank2Excel/extractor_SBER_DEBIT_2212.py:188 | every accepted date is a valid calendar date |
| Dates.ParseDateTime | core/Sberbank2Excel/extractor_SBER_DEBIT_2212.py:169 | every accepted date and time is valid (calendar date, hour below 24, minute below 60) |
| Dates.ParseFormatDate | core/Sberbank2Excel/extractor_SBER_DEBIT_2212.py:188 | a valid date written as `dd.mm.yyyy` parses back to itself |
| Dates.FormatParseDate | core/Sberbank2Excel/extractor_SBER_DEBIT_2212.py:188 | every text the date parser accepts is that date written out |
| Dates.ParseFormatDateTime | core/Sberbank2Excel/extractor_SBER_DEBIT_2212.py:169 | a valid date and time written as `dd.mm.yyyy hh:mm` parses back to itself |
| Dates.FormatParseDateTime | core/Sberbank2Excel/extractor_SBER_DEBIT_2212.py:167-169 | every accepted date-and-time text with a space separator is that moment written out |
| PeriodBalance.FindInOrderCorrect | core/Sberbank2Excel/extractor_SBER_DEBIT_2212.py:43 | the greedy scan for the four headings succeeds exactly when they occur in order without overlap |
| PeriodBalance.FirstHeading | core/Sberbank2Excel/extractor_SBER_DEBIT_2212.py:43 | the first heading line followed by a whole data line, none earlier; `None` when there is none |
| PeriodBalance.FirstHeadingFound | core/Sberbank2Excel/extractor_SBER_DEBIT_2212.py:43 | the search from the first line finds exactly the first qualifying heading line |
| PeriodBalance.NetOfTotals | core/Sberbank2Excel/extractor_SBER_DEBIT_2212.py:48-59 | the index error exactly when the data line has fewer than four tab-separated fields; any other failure is a read failure of a total |
| PeriodBalance.NetOfReadTotals | core/Sberbank2Excel/extractor_SBER_DEBIT_2212.py:48-59 | when field 2 reads as the debits and field 3 as the credits, the result is credits minus debits |
| PeriodBalance.NetOnlyOfTotals | core/Sberbank2Excel/extractor_SBER_DEBIT_2212.py:48-59 | a result is produced only when both totals read |
| PeriodBalance.GetPeriodBalance | core/Sberbank2Excel/extractor_SBER_DEBIT_2212.py:43-59 | fails only with the not-found, index or amount-read error |
| PeriodBalance.NoHeadingNoTotal | core/Sberbank2Excel/extractor_SBER_DEBIT_2212.py:43-47 | fails with the not-found error exactly when no line holds the four headings in order before a whole data line |
| PeriodBalance.BalanceAfterFirstHeading | core/Sberbank2Excel/extractor_SBER_DEBIT_2212.py:43-59 | the result is the net of the data line after the first such heading line |
| PeriodBalance.NoHeadingFound | core/Sberbank2Excel/extractor_SBER_DEBIT_2212.py:43 | the heading search finds nothing exactly when there is no heading line |
| PeriodBalance.HeadingInOrder | core/Sberbank2Excel/extractor_SBER_DEBIT_2212.py:43 | a line is a heading line exactly when it holds the four headings in order without overlap |
| Segmentation.NewLineFrom | core/Sberbank2Excel/extractor_SBER_DEBIT_2212.py:94 | the first line break at or after a position, or none |
| Segmentation.MatchAt | core/Sberbank2Excel/extractor_SBER_DEBIT_2212.py:93-101 | a match tried at a position ends at least 28 characters later and within the text |
| Segmentation.MatchAtSound | core/Sberbank2Excel/extractor_SBER_DEBIT_2212.py:93-101 | every end `MatchAt` returns is a match of the entry pattern at that position, ending at its first terminator |
| Segmentation.MatchAtComplete | core/Sberbank2Excel/extractor_SBER_DEBIT_2212.py:93-101 | whenever the entry pattern matches at a position, `MatchAt` returns that match's end |
| Segmentation.MatchThrough | core/Sberbank2Excel/extractor_SBER_DEBIT_2212.py:93-101 | a timestamp, the first line break after it, a second-line date, an authorisation code and the first terminator after it give exactly that end |
| Segmentation.MatchEnds | core/Sberbank2Excel/extractor_SBER_DEBIT_2212.py:92-103 | the table of match ends has one entry per position and each is `MatchAt` at that position |
| Segmentation.FindAll | core/Sberbank2Excel/extractor_SBER_DEBIT_2212.py:92-103 | `re.findall` over a table of match ends: every span is a match at its start, from the resume position on, and spans are in order without overlap |
| Segmentation.FindAllCovers | core/Sberbank2Excel/extractor_SBER_DEBIT_2212.py:92-103 | every position where the pattern matches lies inside some reported span: no entry is skipped |
| Segmentation.EntrySpans | core/Sberbank2Excel/extractor_SBER_DEBIT_2212.py:92-103 | every span is a match, non-empty, inside the text, in document order without overlap, and every match start is covered |
| Segmentation.SplitTextOnEntries | core/Sberbank2Excel/extractor_SBER_DEBIT_2212.py:92-107 | fails with the no-entries error exactly when the pattern matches nowhere; otherwise returns the text of each span in order |
| Segmentation.MatchInSpan | core/Sberbank2Excel/extractor_SBER_DEBIT_2212.py:93-101 | an entry starts with a timestamp; its second line starts with a date and one whitespace; the authorisation code (3+ digits, `-` or `0`) follows in the text; the entry stops just before the first terminator from there |
| Records.ColumnKeys | core/Sberbank2Excel/extractor_SBER_DEBIT_2212.py:256-263 | every column of `get_columns_info` has its key in the key set |
| Records.ColumnKeysListed | core/Sberbank2Excel/extractor_SBER_DEBIT_2212.py:256-263 | every key of the key set names a column |
| Records.ColumnKeysDistinct | core/Sberbank2Excel/extractor_SBER_DEBIT_2212.py:256-263 | the column keys are pairwise distinct |
| Records.AsDict | core/Sberbank2Excel/extractor_SBER_DEBIT_2212.py:161-242 | a record's dictionary has exactly the five fixed keys (operation date, category, balance column, processing date, authorisation code) plus each optional key exactly when its field is present; every key holds its field's value |
| Records.EveryColumnProduced | core/Sberbank2Excel/extractor_SBER_DEBIT_2212.py:251-255 | a record with all optional fields fills exactly the columns of `get_columns_info` |
| Records.BalanceColumn | core/Sberbank2Excel/extractor_SBER_DEBIT_2212.py:248-249 | the balance column is a column of the layout: the one headed "Сумма в валюте счёта", the amount in the account's currency |
| Tails.MoneyTailMatch | core/Sberbank2Excel/extractor_SBER_DEBIT_2212.py:193 | the money pattern's leftmost match: it matches there, any match starts no earlier and has the same whitespace position, and `None` when it matches nowhere |
| Tails.MoneyTail | core/Sberbank2Excel/extractor_SBER_DEBIT_2212.py:193 | groups 1 and 2 exist exactly when the pattern matches, and are the amount and the currency of a match |
| Tails.CurrencyMark | core/Sberbank2Excel/extractor_SBER_DEBIT_2212.py:197 | succeeds exactly when the field ends in a non-whitespace character, and captures that one character |
| Tails.MoneyTailAmount | core/Sberbank2Excel/extractor_SBER_DEBIT_2212.py:193-211 | at the leftmost match, the groups are the amount and the rest, and the amount always parses as minus its units and two digits of kopecks |
| Tails.MatchedTail | core/Sberbank2Excel/extractor_SBER_DEBIT_2212.py:193 | the leftmost match is a money tail there and gives groups 1 and 2 |
| Tails.AmountAt | core/Sberbank2Excel/extractor_SBER_DEBIT_2212.py:211 | the amount of a money tail at a position parses as minus its units and kopecks |
| Tails.FieldHasCurrencyMark | core/Sberbank2Excel/extractor_SBER_DEBIT_2212.py:197 | on a stripped non-empty field the bare-currency search succeeds |
| Tails.MoneyTailCurrency | core/Sberbank2Excel/extractor_SBER_DEBIT_2212.py:212 | on a stripped field the captured currency is non-empty |
| Decomposition.Lines | core/Sberbank2Excel/extractor_SBER_DEBIT_2212.py:154-155 | the entry's lines are non-empty and hold no line break; with `Strings.RemoveEmptyAppend` and `Strings.RemoveEmptyOne` they are exactly the non-empty pieces between line breaks, in order |
| Decomposition.LinesOfJoin | core/Sberbank2Excel/extractor_SBER_DEBIT_2212.py:154-155 | non-empty lines written out with line breaks between them come back as the same lines |
| Decomposition.Decompose | core/Sberbank2Excel/extractor_SBER_DEBIT_2212.py:154-246 | an entry fails only with the entry-shape, field-count, currency-tail, amount, date, index or key error |
| Decomposition.ReadHead | core/Sberbank2Excel/extractor_SBER_DEBIT_2212.py:163-172 | the first line reads exactly when it has at least four fields (further fields are ignored), its first two parse as a date and time and its fourth as a signed amount; category is field 2; failures are index, date or amount errors |
| Decomposition.ReadAmount | core/Sberbank2Excel/extractor_SBER_DEBIT_2212.py:211-212 | the captured amount, signed, and the captured currency; an amount error when it does not parse |
| Decomposition.ReadTail | core/Sberbank2Excel/extractor_SBER_DEBIT_2212.py:193-237 | the second line's tail fails only with an amount or currency-tail error; two fields give no description, amount or currency; four fields without a money tail give field 2 as the description and the last character of the last field as the currency |
| Decomposition.ExtendDescription | core/Sberbank2Excel/extractor_SBER_DEBIT_2212.py:240-242 | a third line appends a space and its first field to the description; no description is the key error, checked before the index error of an empty third line |
| Decomposition.ReadRest | core/Sberbank2Excel/extractor_SBER_DEBIT_2212.py:176-242 | after the first line only the field-count, currency-tail, amount, date, index or key error can occur (never the entry-shape error), and the field-count error occurs exactly when the second line has fewer than 2 or more than 4 fields |
| Decomposition.ReadRestOk | core/Sberbank2Excel/extractor_SBER_DEBIT_2212.py:176-242 | a read rest keeps the first line's values, has 2 to 4 second-line fields, the processing date is field 0 parsed, the code field 1, and the tail is read |
| Decomposition.DecomposeOk | core/Sberbank2Excel/extractor_SBER_DEBIT_2212.py:154-175 | a decomposed entry has 2 or 3 lines, a readable first line, and the rest read after it |
| Decomposition.LineCount | core/Sberbank2Excel/extractor_SBER_DEBIT_2212.py:154-159 | an entry is rejected for its shape exactly when it does not have 2 or 3 non-empty lines |
| Decomposition.FixedFields | core/Sberbank2Excel/extractor_SBER_DEBIT_2212.py:163-190 | in every record the operation moment is line-1 fields 0 and 1 parsed, the category field 2, the amount field 3 parsed signed, line 2 has 2–4 fields, the processing date is its field 0 parsed and the authorisation code its field 1 verbatim |
| Decomposition.FieldCount | core/Sberbank2Excel/extractor_SBER_DEBIT_2212.py:176-181 | the field-count error occurs exactly when the first line reads and the second has fewer than 2 or more than 4 fields |
| Decomposition.TailAlwaysReads | core/Sberbank2Excel/extractor_SBER_DEBIT_2212.py:193-237 | on fields the second line's tail always reads: a captured amount always parses and a bare currency mark is always found |
| Decomposition.NoUnexpectedCurrencyTail | core/Sberbank2Excel/extractor_SBER_DEBIT_2212.py:232-237 | no entry is ever rejected for its currency tail |
| Decomposition.ThreeFieldSecondLine | core/Sberbank2Excel/extractor_SBER_DEBIT_2212.py:199-219 | in a two-line entry whose second line has three fields, a money tail gives amount and currency and no description; otherwise field 2 is the description and there are no currency fields |
| Decomposition.FourFieldSecondLine | core/Sberbank2Excel/extractor_SBER_DEBIT_2212.py:222-237 | in a two-line entry whose second line has four fields, field 2 is the description; a money tail gives amount and currency, otherwise the currency is the last character and there is no amount |
| Decomposition.ThirdLine | core/Sberbank2Excel/extractor_SBER_DEBIT_2212.py:240-242 | a third line extends the description by a space and its first field; without a description the entry fails with the key error, and with an empty third line with the index error |
| Decomposition.TwoFieldKeyError | core/Sberbank2Excel/extractor_SBER_DEBIT_2212.py:176-242 | a three-line entry whose readable second line has only the date and the code fails with the key error |
| Decomposition.TailOperational | core/Sberbank2Excel/extractor_SBER_DEBIT_2212.py:199-233 | the tail never gives an operational amount without its currency, and the amount is never money in |
| Decomposition.OperationalCurrency | core/Sberbank2Excel/extractor_SBER_DEBIT_2212.py:199-233 | in every record `value_operational_currency` comes only with `operational_currency` and is not positive |
| Decomposition.KeysAreColumns | core/Sberbank2Excel/extractor_SBER_DEBIT_2212.py:248-263 | every produced key is a key of `get_columns_info`, and the balance column is always produced |
| Decomposition.DecomposeEntry | core/Sberbank2Excel/extractor_SBER_DEBIT_2212.py:154-175 | the key-by-key procedure returns exactly `Decompose`'s record or error |
| Decomposition.FillRest | core/Sberbank2Excel/extractor_SBER_DEBIT_2212.py:176-242 | filling the dictionary from the second and third lines gives exactly what the rest of the entry reads as |
| Decomposition.FillTail | core/Sberbank2Excel/extractor_SBER_DEBIT_2212.py:192-237 | filling from the second line's tail gives the tail's error, or the draft with the tail's description, amount and currency set |
| Rendering.RenderedLines | core/Sberbank2Excel/extractor_SBER_DEBIT_2212.py:154-163 | a rendered entry splits into its two lines and each line into its fields |
| Rendering.TwoLines | core/Sberbank2Excel/extractor_SBER_DEBIT_2212.py:154-155 | a two-line rendering splits back into exactly its two lines |
| Rendering.RenderedHead | core/Sberbank2Excel/extractor_SBER_DEBIT_2212.py:163-172 | a rendered first line reads back as the operation's moment, category and amount |
| Rendering.MoneyTailOfField | core/Sberbank2Excel/extractor_SBER_DEBIT_2212.py:193 | on a formatted amount, whitespace and a currency, the money pattern captures exactly the amount and the currency |
| Rendering.AmountTokenParses | core/Sberbank2Excel/extractor_SBER_DEBIT_2212.py:172 | an amount written as the statement writes it reads back signed as itself |
| Rendering.RenderedTail | core/Sberbank2Excel/extractor_SBER_DEBIT_2212.py:190-237 | a rendered second line reads back as the description, the operational amount and the currency |
| Rendering.TailReadsMoney | core/Sberbank2Excel/extractor_SBER_DEBIT_2212.py:199-228 | when the money pattern matches and its amount parses, the tail holds that amount and currency, and a description exactly for four fields |
| Rendering.TailWithMark | core/Sberbank2Excel/extractor_SBER_DEBIT_2212.py:222-233 | a four-field second line ending in one non-whitespace character gives that character as the currency and no amount |
| Rendering.TailWithDescription | core/Sberbank2Excel/extractor_SBER_DEBIT_2212.py:199-219 | a three-field second line without a money tail gives its field 2 as the description |
| Rendering.DecomposeRender | core/Sberbank2Excel/extractor_SBER_DEBIT_2212.py:163-217 | every transaction the two-line tab layout of the comments at lines 207-208 and 216-217 can carry, written in that layout, decomposes back to itself |
| Rendering.ArrowLayoutRejected | core/Sberbank2Excel/extractor_SBER_DEBIT_2212.py:163-169 | a first line laid out as the docstring's arrows suggest, with date and time together in field 0 (`08.07.2021 18:27 -> Все для дома -> …`, line 138), fails with a date error whatever the second line holds, since date and time are read from two fields |

## Left out

- The `__main__` block and `extractors_generic.debug_extractor` (lines 266-275): command-line and file plumbing.
- The `Extractor` base class and its orchestration (reading the file, calling these operations, summing entries against the control total): it is not part of this model. Only the balance column name it uses is modelled.
- The bodies of `utils.get_float_from_money` and `utils.split_Sberbank_line` are not part of this model. They are given as contracts:
  - money tokens have no exponent, no `-` and at most two digits of kopecks;
  - a line is cut at tabs and at runs of two or more whitespace characters (`\t|\s\s+`), as in the second line `11.08.2022\t214722  6,00 BYN` of lines 207-208.
- Money.ParseMoney: float rounding is not modelled; amounts are exact integers of kopecks.
- Dates.ParseDate: `strptime` also accepts single-digit day, month, hour and minute fields, and whitespace runs; the model accepts only the two-digit forms the statement prints.
- Patterns.IsDigit: `\d` in a `str` pattern also matches non-ASCII decimal digits; the model takes ASCII digits only.
- Patterns.Fold: case-insensitive matching folds Latin and Cyrillic capitals only, not every Unicode case pair.
- Tails.MoneyTail: `$` also matches before a final line break; the fields these searches see are stripped, so they never end in one.
- Rendering.DecomposeRender: the round trip covers two-line entries; a three-line entry's description is split across lines at a place the record does not keep. Text fields with a run of two or more whitespace characters are not renderable, since the line would be cut there.
- The exact Russian error-message texts: each failure is one error kind.
- The commented-out remainder field (lines 173-174): it is not produced.
- Records.AsDict: a Python `dict` remembers the order its keys were assigned in; a Dafny `map` has no order, so the model keeps the key set and the values but not the insertion order.
