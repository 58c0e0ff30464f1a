/** From the accounts payload of the API to the total a question is answered with. */
module BalanceAnswer {
  import opened Common
  import opened GroundingText
  import opened Grounding
  import opened GroundingAnswers
  import opened AccountEvidence

  /** The answer a turn gives from an envelope that holds the mapped accounts. */
  function AnswerFromPayload(text: string, result: Data, now: int, before: seq<Item>, after: seq<Item>,
                             bytes: seq<Item> -> nat, fold: string -> string): Answer
    requires forall item :: item in before + after ==> item.source != ACCOUNTS_SOURCE
  {
    match CreateEnvelope(before + MappedAccounts(result, now) + after, None, bytes)
    case Envelope(items) =>
      NoRowLost(result, now, before, after, bytes, fold);
      KnownOfFound(RowAccounts(PickRows(result), fold));
      RenderAccountsAnswer(text, match Extracted(items, fold)
                                 case Some(e) => Some(Evidence(Known(e.accounts), e.omittedCount, e.partial))
                                 case None => None)
    case _ => NotOwned
  }

  // A total in an answer is the truncated sum over every bank and cash row the API
  // returned: not one row of the payload was unusable, and none was lost on the way.
  lemma TotalIsOfThePayload(text: string, result: Data, now: int, before: seq<Item>, after: seq<Item>,
                            bytes: seq<Item> -> nat, fold: string -> string)
    requires forall item :: item in before + after ==> item.source != ACCOUNTS_SOURCE
    ensures var a := AnswerFromPayload(text, result, now, before, after, bytes, fold);
            a.Figures? && a.verdict.Subtotal().Some? ==>
              && (forall row :: row in PickRows(result) ==> IsUsable(row))
              && a.verdict.Subtotal() == Some(Sum(Funds(RowAccounts(PickRows(result), fold))))
  {
    var rows := PickRows(result);
    if CreateEnvelope(before + MappedAccounts(result, now) + after, None, bytes).Envelope? {
      NoRowLost(result, now, before, after, bytes, fold);
      KnownOfFound(RowAccounts(rows, fold));
      if RowAccounts(rows, fold) != [] {
        SubtotalIsWhole(text, Evidence(RowAccounts(rows, fold), Unusable(rows), Unusable(rows) > 0));
        if Unusable(rows) == 0 { NoneUnusable(rows); }
      }
    }
  }

  lemma {:induction false} NoneUnusable(rows: seq<Data>)
    requires Unusable(rows) == 0
    ensures forall row :: row in rows ==> IsUsable(row)
  {
    if rows != [] {
      assert rows == rows[..|rows| - 1] + [rows[|rows| - 1]];
      NoneUnusable(rows[..|rows| - 1]);
    }
  }
}
