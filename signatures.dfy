/** `SBER_DEBIT_2212.check_specific_signatures`: the statement text must name the
    bank and the debit-card statement kind, and must not carry the heading of
    the account statement that shares this layout. All three searches ignore
    case. */
module Signatures {
  import opened Wrappers
  import opened Patterns
  import opened Errors

  const BankMarker: Pattern := IgnoreCase("сбербанк")
  const StatementMarker: Pattern := IgnoreCase("Выписка по счёту дебетовой карты")
  const AccountStatementMarker: Pattern := IgnoreCase("ОСТАТОК ПО СЧЁТУ")

  /** Accepts exactly the texts holding both required markers and not the forbidden one. */
  function CheckSpecificSignatures(text: string): (r: Result<(), Error>)
    ensures r.Ok? <==> Contains(text, BankMarker) && Contains(text, StatementMarker)
                       && !Contains(text, AccountStatementMarker)
    ensures r.Err? ==> r.error == UnrecognizedLayout
  {
    FindFromStart(text, BankMarker);
    FindFromStart(text, StatementMarker);
    FindFromStart(text, AccountStatementMarker);
    var bank := Find(text, BankMarker, 0);
    var kind := Find(text, StatementMarker, 0);
    var other := Find(text, AccountStatementMarker, 0);
    if bank.None? || kind.None? || other.Some? then Err(UnrecognizedLayout) else Ok(())
  }

  /** The check gives the same answer on the text and on its lower-case form. */
  lemma SignaturesIgnoreCase(text: string)
    ensures CheckSpecificSignatures(text) == CheckSpecificSignatures(FoldAll(text))
  {
    var folded := FoldAll(text);
    forall i: nat ensures PatAt(text, i, BankMarker) <==> PatAt(folded, i, BankMarker) {
      IgnoreCaseUnderFolding(text, i, "сбербанк");
    }
    forall i: nat ensures PatAt(text, i, StatementMarker) <==> PatAt(folded, i, StatementMarker) {
      IgnoreCaseUnderFolding(text, i, "Выписка по счёту дебетовой карты");
    }
    forall i: nat ensures PatAt(text, i, AccountStatementMarker) <==> PatAt(folded, i, AccountStatementMarker) {
      IgnoreCaseUnderFolding(text, i, "ОСТАТОК ПО СЧЁТУ");
    }
  }
}
