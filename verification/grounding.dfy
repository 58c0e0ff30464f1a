/**
 * The deterministic answer to a balance question from the account evidence. An answer
 * is kept as data: the accounts whose figures are printed, what is said of their sum,
 * and the notes of what is missing. A clarification carries names and never a figure.
 */
module Grounding {
  import opened Common
  import opened GroundingText

  const MAX_LISTED_ACCOUNTS: nat := 20

  datatype AccountKind = Bank | Cash | CreditCard | Unknown

  /** An account of the evidence; key is its folded name. */
  datatype Account = Account(name: string, key: string, kind: AccountKind, balanceCents: int)

  datatype Evidence = Evidence(accounts: seq<Account>, omittedCount: nat, partial: bool)

  function Filter<T(!new)>(xs: seq<T>, p: T -> bool): (ys: seq<T>)
    ensures forall y :: y in ys <==> y in xs && p(y)
    ensures |ys| <= |xs|
  {
    if xs == [] then [] else (if p(xs[0]) then [xs[0]] else []) + Filter(xs[1..], p)
  }

  predicate IsFunds(a: Account) { a.kind == Bank || a.kind == Cash }

  predicate IsCard(a: Account) { a.kind == CreditCard }

  predicate IsUnknown(a: Account) { a.kind == Unknown }

  function Funds(accounts: seq<Account>): seq<Account> { Filter(accounts, IsFunds) }

  function Cards(accounts: seq<Account>): seq<Account> { Filter(accounts, IsCard) }

  predicate AnyUnknown(accounts: seq<Account>) { exists a :: a in accounts && IsUnknown(a) }

  predicate AnyCard(accounts: seq<Account>) { exists a :: a in accounts && IsCard(a) }

  predicate AnyFunds(accounts: seq<Account>) { exists a :: a in accounts && IsFunds(a) }

  function Sum(accounts: seq<Account>): int {
    if accounts == [] then 0 else accounts[0].balanceCents + Sum(accounts[1..])
  }

  function Listed(accounts: seq<Account>): seq<Account> {
    if |accounts| <= MAX_LISTED_ACCOUNTS then accounts else accounts[..MAX_LISTED_ACCOUNTS]
  }

  // ----- matching by name

  predicate IsGenericCardWord(token: string) { token in GENERIC_CARD_QUERY_WORDS }

  predicate IsGenericBalanceWord(token: string) {
    token in GENERIC_CARD_QUERY_WORDS || token in EXTRA_GENERIC_BALANCE_WORDS
  }

  predicate IsGenericOnlyName(a: Account) {
    Tokens(a.key) != {} && forall token :: token in Tokens(a.key) ==> IsGenericBalanceWord(token)
  }

  /** Every significant token of the name is said; two-letter tokens count only when there are no others. */
  predicate Matches(said: set<string>, a: Account) {
    && !IsGenericOnlyName(a)
    && var long := set token | token in Tokens(a.key) && |token| > 2;
       var name := if long != {} then long else Tokens(a.key);
       name != {} && name <= said
  }

  function MatchByName(said: set<string>, accounts: seq<Account>): seq<Account> {
    Filter(accounts, (a: Account) => Matches(said, a))
  }

  predicate FullyNamed(said: set<string>, a: Account) { Tokens(a.key) <= said }

  /** The question says something specific that the account's name does not carry. */
  predicate HasUnmatchedQualifier(said: set<string>, a: Account) {
    exists token :: token in said && !IsGenericBalanceWord(token) && token !in Tokens(a.key)
  }

  predicate LessSpecific(a: Account, b: Account) {
    |Tokens(a.key)| < |Tokens(b.key)| && Tokens(a.key) <= Tokens(b.key)
  }

  datatype Selection = Selection(candidates: seq<Account>, narrowed: bool)

  function SelectMostSpecific(said: set<string>, matches: seq<Account>): Selection {
    var fully := Filter(matches, (a: Account) => FullyNamed(said, a));
    if |matches| <= 1 || fully == [] then Selection(matches, false)
    else
      var candidates := Filter(fully, (a: Account) => !exists b :: b in fully && LessSpecific(a, b));
      Selection(candidates, |candidates| < |matches|)
  }

  /** The one account of its kind a segment names, if there is exactly one. */
  function ResolveSingle(said: set<string>, pool: seq<Account>): Option<Account> {
    var matches := MatchByName(said, pool);
    var candidates := SelectMostSpecific(said, matches).candidates;
    if |candidates| == 1 && FullyNamed(said, candidates[0]) && !HasUnmatchedQualifier(said, candidates[0])
    then Some(candidates[0]) else None
  }

  // ----- answers

  datatype Reason =
    | UnsupportedSubtype | WhichOfBoth | NoCardEvidence | NoCardEvidenceAtAll | NoAccounts
    | CardNotFound | WhichCard | SameNameCards | AccountNotFound | WhichAccount | SameNameAccounts

  datatype LeftOut = UnknownKinds | CardsOutside | CardsExcluded

  datatype NoSum =
    | MayBeCard | UnknownWithCards | UnknownKept | PartialRead | CardDebtOnly
    | SomeUnknownWithCards | SomeUnknown | FundsAndDebt | NothingInScope

  /** What is said of the sum of the lines. */
  datatype Verdict =
    | Plain                                        // nothing
    | EachOnItsOwn                                 // figures apart, not summed
    | UnknownKindNoted                             // an unconfirmed kind is among the lines
    | FundsTotal(cents: int)                       // total available in accounts
    | ScopedTotal(cents: int, leftOut: LeftOut)    // total of the bank and cash accounts only
    | TotalOmitted                                 // the list is cut short, so no total
    | NotSummed(reason: NoSum)
  {
    function Subtotal(): Option<int> {
      match this
      case FundsTotal(cents) => Some(cents)
      case ScopedTotal(cents, _) => Some(cents)
      case _ => None
    }
  }

  /** Disclosures: how many there are when not all are shown, and whether the read was incomplete. */
  datatype Note = Note(of: Option<nat>, incomplete: bool)

  datatype Answer =
    | NotOwned
    | Clarify(reason: Reason, names: seq<string>, note: Note)
    | Figures(lines: seq<Account>, verdict: Verdict, note: Note, unknownOutOfScope: bool)

  function NoteOn(ev: Evidence, listed: nat, total: nat): Note {
    Note(if total > listed then Some(total) else None, ev.partial)
  }

  /** Names as a clarification lists them, cards marked. */
  function Labels(accounts: seq<Account>): seq<string> {
    if accounts == [] then []
    else [if IsCard(accounts[0]) then accounts[0].name + " (cart\U{e3}o)" else accounts[0].name] + Labels(accounts[1..])
  }

  function Ask(reason: Reason, among: seq<Account>, ev: Evidence): Answer {
    Clarify(reason, Labels(Listed(among)), NoteOn(ev, |Listed(among)|, |among|))
  }

  function Line(a: Account, poolSize: nat, ev: Evidence): Answer {
    Figures([a], Plain, NoteOn(ev, 1, poolSize), false)
  }

  function Lines(accounts: seq<Account>, verdict: Verdict, ev: Evidence): Answer {
    Figures(Listed(accounts), verdict, NoteOn(ev, |Listed(accounts)|, |accounts|), false)
  }

  // ----- a question that names accounts

  /** The reasons a named selection clarifies with, for accounts or for cards. */
  datatype Noun = Noun(notFound: Reason, which: Reason, sameName: Reason)

  const CARD_NOUN := Noun(CardNotFound, WhichCard, SameNameCards)
  const ACCOUNT_NOUN := Noun(AccountNotFound, WhichAccount, SameNameAccounts)

  /** Some name matched: one survivor answers alone, several only when each is named in full. */
  function SelectedAnswer(said: set<string>, sel: Selection, poolSize: nat, shown: seq<Account>, noun: Noun, ev: Evidence): Answer {
    if |sel.candidates| == 1 then
      if HasUnmatchedQualifier(said, sel.candidates[0]) || !FullyNamed(said, sel.candidates[0]) then
        Ask(noun.notFound, shown, ev)
      else
        Line(sel.candidates[0], poolSize, ev)
    else if |sel.candidates| > 1 && |set a | a in sel.candidates :: a.key| == 1 then
      Ask(noun.sameName, sel.candidates, ev)
    else if |sel.candidates| > 1 && !sel.narrowed then
      if forall a :: a in sel.candidates ==> FullyNamed(said, a) then Lines(sel.candidates, EachOnItsOwn, ev)
      else Ask(noun.which, sel.candidates, ev)
    else
      Ask(noun.which, shown, ev)
  }

  function NamedAnswer(said: set<string>, pool: seq<Account>, shown: seq<Account>, noun: Noun, ev: Evidence): Answer {
    SelectedAnswer(said, SelectMostSpecific(said, MatchByName(said, pool)), |pool|, shown, noun, ev)
  }

  // ----- card questions

  function MixedAnswer(text: string, ev: Evidence): Answer {
    match SplitMixed(text)
    case None => Ask(WhichOfBoth, ev.accounts, ev)
    case Some(segments) =>
      var funds := ResolveSingle(Tokens(segments.funds), Funds(ev.accounts));
      var card := ResolveSingle(Tokens(segments.card), Cards(ev.accounts));
      if funds.Some? && card.Some? then Lines([funds.value, card.value], EachOnItsOwn, ev)
      else Ask(WhichOfBoth, ev.accounts, ev)
  }

  function CardAnswer(said: set<string>, w: Wording, ev: Evidence): Answer {
    var cards := Cards(ev.accounts);
    if cards == [] then
      if ev.accounts == [] then Clarify(NoCardEvidenceAtAll, [], Note(None, false)) else Ask(NoCardEvidence, ev.accounts, ev)
    else if MatchByName(said, cards) != [] then NamedAnswer(said, cards, cards, CARD_NOUN, ev)
    else if exists token :: token in said && !IsGenericCardWord(token) then Ask(CardNotFound, cards, ev)
    else Lines(cards, if w.total then EachOnItsOwn else Plain, ev)
  }

  // ----- listings and totals

  /** Broad wording, or an unconfirmed kind under a loose funds scope, widens the listing to every account. */
  predicate UsesFullPool(w: Wording, ev: Evidence) {
    (w.broad && !w.explicit) || (w.FundsScoped() && AnyUnknown(ev.accounts) && !w.explicit)
  }

  function ScopedPool(w: Wording, ev: Evidence): seq<Account> {
    if UsesFullPool(w, ev) then ev.accounts else if w.FundsScoped() then Funds(ev.accounts) else ev.accounts
  }

  /** Only bank and cash accounts, at least one, from a complete read. */
  predicate HomogeneousFunds(pool: seq<Account>, ev: Evidence) {
    pool != [] && (forall a :: a in pool ==> IsFunds(a)) && !ev.partial
  }

  /** What is said of the sum of a scoped pool, once broad and excluded-card questions are decided. */
  function PoolVerdict(w: Wording, pool: seq<Account>, ev: Evidence): Verdict {
    if HomogeneousFunds(pool, ev) then
      if |pool| > MAX_LISTED_ACCOUNTS then TotalOmitted
      else if w.explicit && w.FundsScoped() then
        ScopedTotal(Sum(pool), if AnyUnknown(ev.accounts) then UnknownKinds
                               else if AnyCard(ev.accounts) then CardsOutside else CardsExcluded)
      else FundsTotal(Sum(pool))
    else if ev.partial then NotSummed(PartialRead)
    else if !AnyFunds(pool) && AnyCard(pool) && !AnyUnknown(pool) then NotSummed(CardDebtOnly)
    else if AnyUnknown(pool) then NotSummed(if AnyCard(pool) then SomeUnknownWithCards else SomeUnknown)
    else if AnyFunds(pool) && AnyCard(pool) then NotSummed(FundsAndDebt)
    else NotSummed(NothingInScope)
  }

  function Listing(w: Wording, ev: Evidence): Answer {
    var unknown := AnyUnknown(ev.accounts);
    var pool := ScopedPool(w, ev);
    var outOfScope := !UsesFullPool(w, ev) && w.FundsScoped() && unknown && w.explicit;
    if !w.total then
      Lines(pool, if unknown && UsesFullPool(w, ev) then UnknownKindNoted else Plain, ev).(unknownOutOfScope := outOfScope)
    else if w.withoutCard && unknown then
      Lines(pool, NotSummed(MayBeCard), ev).(unknownOutOfScope := outOfScope)
    else if unknown && (w.broad || (w.FundsScoped() && !w.explicit)) then
      Lines(ev.accounts, NotSummed(if AnyCard(ev.accounts) then UnknownWithCards else UnknownKept), ev)
    else
      Lines(pool, PoolVerdict(w, pool, ev), ev).(unknownOutOfScope := outOfScope)
  }

  /** Where a question that is not a card question looks for names. */
  function NamePool(w: Wording, ev: Evidence): seq<Account> {
    if w.FundsScoped() then Funds(ev.accounts) else ev.accounts
  }

  function AccountAnswer(said: set<string>, w: Wording, ev: Evidence): Answer {
    var pool := NamePool(w, ev);
    if MatchByName(said, pool) != [] then NamedAnswer(said, pool, ev.accounts, ACCOUNT_NOUN, ev)
    else if w.oneAccount then Ask(AccountNotFound, ev.accounts, ev)
    else if exists token :: token in said && !IsGenericBalanceWord(token) then Ask(AccountNotFound, ev.accounts, ev)
    else if ev.accounts == [] then Clarify(NoAccounts, [], Note(None, false))
    else if w.FundsScoped() && Funds(ev.accounts) == [] && !(w.total && AnyUnknown(ev.accounts)) then
      Ask(AccountNotFound, ev.accounts, ev)
    else Listing(w, ev)
  }

  /** The answer once the wording is read. */
  function Decide(w: Wording, text: string, said: set<string>, ev: Evidence): Answer {
    if !w.balance then NotOwned
    else if w.subtype then Ask(UnsupportedSubtype, ev.accounts, ev)
    else if w.CardQuestion() && w.funds then MixedAnswer(text, ev)
    else if w.CardQuestion() then CardAnswer(said, w, ev)
    else AccountAnswer(said, w, ev)
  }

  function RenderAccountsAnswer(text: string, evidence: Option<Evidence>): Answer {
    if evidence.None? then NotOwned else Decide(Read(text), text, Tokens(text), evidence.value)
  }
}
