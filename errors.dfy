/** The ways the statement extractor can fail. The source raises
    `InputFileStructureError`, `Bank2ExcelError`, or lets a Python
    `IndexError`, `KeyError` or `ValueError` escape; each such exit is one
    kind here. */
module Errors {

  datatype Error =
    | UnrecognizedLayout     // signature markers missing, or the forbidden one present
    | ControlTotalNotFound   // no balance/debits/credits header followed by a data line
    | NoEntriesFound         // the entry pattern matched nowhere
    | UnexpectedEntryShape   // an entry has other than 2 or 3 non-empty lines
    | UnexpectedFieldCount   // the second line has other than 2 to 4 fields
    | UnexpectedCurrencyTail // a four-field second line ends in neither money nor a symbol
    | MalformedAmount        // a money token does not parse (ValueError)
    | MalformedDate          // a date or time does not parse (ValueError from strptime)
    | MissingField           // a field index past the end (IndexError)
    | MissingDescription     // a third line with no description to extend (KeyError)
}
