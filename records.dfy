/** One transaction as `decompose_entry_to_dict` returns it, and the column
    layout `get_columns_info` promises for the spreadsheet. The source builds
    a Python `dict`; here it is a record whose optional keys are `Option`
    fields, and `AsDict` gives back the dictionary with exactly the keys
    that are present. */
module Records {
  import opened Wrappers
  import opened Dates

  /** A dictionary value: a timestamp, a date, text or an amount in kopecks. */
  datatype Value = Moment(moment: DateTime) | Day(day: Date) | Text(text: string) | Amount(kopecks: int)

  datatype Transaction = Transaction(
    operationDate: DateTime,
    category: string,
    valueAccountCurrency: int,
    processingDate: Date,
    authorisationCode: string,
    description: Option<string>,
    valueOperationalCurrency: Option<int>,
    operationalCurrency: Option<string>)

  /** The eight columns, in spreadsheet order, with their headings. */
  const ColumnsInfo: seq<(string, string)> := [
    ("operation_date", "Дата операции"),
    ("processing_date", "Дата обработки"),
    ("authorisation_code", "Код авторизации"),
    ("description", "Описание операции"),
    ("category", "Категория"),
    ("value_account_currency", "Сумма в валюте счёта"),
    ("value_operational_currency", "Сумма в валюте операции"),
    ("operational_currency", "Валюта операции")
  ]

  /** `get_column_name_for_balance_calculation`: the column summed against the control total. */
  function BalanceColumn(): (name: string)
    ensures name in ColumnKeys()
    ensures ColumnsInfo[5] == (name, "Сумма в валюте счёта")
  {
    "value_account_currency"
  }

  /** The keys of `ColumnsInfo`. */
  function ColumnKeys(): (keys: set<string>)
    ensures forall k :: 0 <= k < |ColumnsInfo| ==> ColumnsInfo[k].0 in keys
  {
    {"operation_date", "processing_date", "authorisation_code", "description", "category",
     "value_account_currency", "value_operational_currency", "operational_currency"}
  }

  /** Every key of `ColumnKeys` names a column of `ColumnsInfo`. */
  lemma ColumnKeysListed(key: string)
    requires key in ColumnKeys()
    ensures exists k :: 0 <= k < |ColumnsInfo| && ColumnsInfo[k].0 == key
  {
    if key == "operation_date" { assert ColumnsInfo[0].0 == key; }
    else if key == "processing_date" { assert ColumnsInfo[1].0 == key; }
    else if key == "authorisation_code" { assert ColumnsInfo[2].0 == key; }
    else if key == "description" { assert ColumnsInfo[3].0 == key; }
    else if key == "category" { assert ColumnsInfo[4].0 == key; }
    else if key == "value_account_currency" { assert ColumnsInfo[5].0 == key; }
    else if key == "value_operational_currency" { assert ColumnsInfo[6].0 == key; }
    else { assert ColumnsInfo[7].0 == key; }
  }

  /** The column keys are pairwise distinct, so `ColumnsInfo` is a well-formed ordered dictionary. */
  lemma ColumnKeysDistinct()
    ensures forall i, j :: 0 <= i < j < |ColumnsInfo| ==> ColumnsInfo[i].0 != ColumnsInfo[j].0
  {
  }

  /** The dictionary the source returns for `t`: the five keys every transaction has, and
      the optional keys that are present. */
  function AsDict(t: Transaction): (d: map<string, Value>)
    ensures d.Keys <= ColumnKeys()
    ensures d.Keys == {"operation_date", "category", BalanceColumn(), "processing_date", "authorisation_code"} +
                      (if t.description.Some? then {"description"} else {}) +
                      (if t.valueOperationalCurrency.Some? then {"value_operational_currency"} else {}) +
                      (if t.operationalCurrency.Some? then {"operational_currency"} else {})
    ensures d["operation_date"] == Moment(t.operationDate) && d["category"] == Text(t.category)
    ensures d[BalanceColumn()] == Amount(t.valueAccountCurrency)
    ensures d["processing_date"] == Day(t.processingDate) && d["authorisation_code"] == Text(t.authorisationCode)
    ensures "description" in d ==> d["description"] == Text(t.description.value)
    ensures "value_operational_currency" in d ==>
              d["value_operational_currency"] == Amount(t.valueOperationalCurrency.value)
    ensures "operational_currency" in d ==> d["operational_currency"] == Text(t.operationalCurrency.value)
  {
    var fixed := map[
      "operation_date" := Moment(t.operationDate),
      "category" := Text(t.category),
      "value_account_currency" := Amount(t.valueAccountCurrency),
      "processing_date" := Day(t.processingDate),
      "authorisation_code" := Text(t.authorisationCode)];
    var d1 := if t.description.Some? then fixed["description" := Text(t.description.value)] else fixed;
    var d2 := if t.valueOperationalCurrency.Some? then d1["value_operational_currency" := Amount(t.valueOperationalCurrency.value)] else d1;
    if t.operationalCurrency.Some? then d2["operational_currency" := Text(t.operationalCurrency.value)] else d2
  }

  /** Every column of `ColumnsInfo` is filled by some transaction, so no column is dead. */
  lemma EveryColumnProduced(t: Transaction)
    requires t.description.Some? && t.valueOperationalCurrency.Some? && t.operationalCurrency.Some?
    ensures AsDict(t).Keys == ColumnKeys()
  {
  }
}
