/**
 * Questions that do not get what the comments of the source promise, each a plain
 * sentence, with what they get instead; and what the failing branch decides: nothing.
 */
module GroundingWitnesses {
  import opened Common
  import opened GroundingText
  import opened Grounding
  import opened GroundingNames
  import opened GroundingAnswers
  import opened GroundingSentences

  // ----- the exceto/excluindo arm

  /** The wording as it would be read without the arm. */
  function WithoutArm(w: Wording): Wording { if w.broad then w.(explicit := w.withoutCard) else w }

  // Removing the arm changes no answer to any question, whatever the evidence.
  lemma ArmDecidesNothing(text: string, ev: Evidence)
    ensures RenderAccountsAnswer(text, Some(ev)) == Decide(WithoutArm(Read(text)), text, Tokens(text), ev)
  {
    var w, said := Read(text), Tokens(text);
    ExclusionIsExplicit(text);
    if w.CardQuestion() {
      assert CardAnswer(said, w, ev) == CardAnswer(said, WithoutArm(w), ev);
    } else if w.broad {
      ExceptArmNeverDecides(text);
      assert WithoutArm(w) == w;
    }
  }

  // Where the arm is taken, the scope of bank and cash accounts that the comment promises
  // is never summed: a broad question that excepts cards by another word than "sem" is
  // answered as a question about cards, without any total.
  lemma ExceptedCardsGetNoTotal(text: string, ev: Evidence)
    requires Read(text).broad && Read(text).card && !Read(text).withoutCard
    ensures var a := RenderAccountsAnswer(text, Some(ev));
            && (a.Figures? ==> a.verdict.Subtotal() == None)
            && (a.Figures? && !Read(text).funds ==> forall l :: l in a.lines ==> IsCard(l))
  {
    var w, said, cards := Read(text), Tokens(text), Cards(ev.accounts);
    FiguresStayInScope(text, ev);
    if NamedAnswer(said, cards, cards, CARD_NOUN, ev).Figures? { NamedShape(said, cards, cards, CARD_NOUN, ev); }
  }

  // ----- given sentences

  lemma SaysOne(words: seq<string>, class_: set<string>, w: string)
    requires w in words && w in class_
    ensures Says(words, class_)
  {}

  lemma NoPhrases(words: seq<string>)
    ensures "quanto" !in words ==> !Contains(words, ["quanto", "tenho"]) && !Contains(words, ["quanto", "eu", "tenho"])
    ensures "tudo" !in words ==> !Contains(words, ["tudo", "junto"])
    ensures "sem" !in words ==> forall c :: c in CARD_WORDS ==> !Contains(words, ["sem", c])
  {
    if Contains(words, ["quanto", "tenho"]) { ContainsHead(words, ["quanto", "tenho"]); }
    if Contains(words, ["quanto", "eu", "tenho"]) { ContainsHead(words, ["quanto", "eu", "tenho"]); }
    if Contains(words, ["tudo", "junto"]) { ContainsHead(words, ["tudo", "junto"]); }
    forall c | c in CARD_WORDS && Contains(words, ["sem", c]) ensures "sem" in words { ContainsHead(words, ["sem", c]); }
  }

  const EXCEPT_CARD := ["saldo", "total", "de", "todas", "exceto", "cartao"]
  const WITHOUT_CARD := ["saldo", "total", "de", "todas", "sem", "cartao"]
  const BANKS_ONLY := ["saldo", "total", "das", "contas", "bancarias"]
  const ONLY_ACCOUNTS := ["saldo", "total", "so", "das", "contas"]

  ghost predicate Excludes(words: seq<string>) { exists c :: c in CARD_WORDS && Contains(words, ["sem", c]) }

  /** The wording of a sentence that holds no phrase but exclusions, from its words. */
  lemma Compose(words: seq<string>, w: Wording)
    requires "quanto" !in words && "tudo" !in words
    requires w.balance == Says(words, {"saldo", "saldos"}) && w.subtype == Says(words, SUBTYPE_WORDS)
    requires w.card == Says(words, CARD_WORDS) && w.withoutCard == Excludes(words)
    requires w.funds == Says(words, FUNDS_WORDS) && w.total == Says(words, TOTAL_SINGLES) && w.broad == Says(words, BROAD_WORDS)
    requires w.explicit == if w.broad then w.withoutCard || (Says(words, EXCEPT_WORDS) && w.card)
                           else Says(words, ONLY_WORDS + EXCEPT_WORDS + KIND_WORDS) || w.withoutCard
    requires w.oneAccount == ("conta" in words && "contas" !in words)
    ensures WordingOf(words) == w
  {
    NoPhrases(words);
  }

  lemma ExceptCardPlain()
    ensures AllPlain(EXCEPT_CARD) && "quanto" !in EXCEPT_CARD && "tudo" !in EXCEPT_CARD
  {}

  lemma ExceptCardSays()
    ensures Says(EXCEPT_CARD, {"saldo", "saldos"}) && Says(EXCEPT_CARD, TOTAL_SINGLES)
    ensures Says(EXCEPT_CARD, CARD_WORDS) && Says(EXCEPT_CARD, BROAD_WORDS)
    ensures Says(EXCEPT_CARD, EXCEPT_WORDS)
  {
    SaysOne(EXCEPT_CARD, {"saldo", "saldos"}, "saldo");
    SaysOne(EXCEPT_CARD, TOTAL_SINGLES, "total");
    SaysOne(EXCEPT_CARD, CARD_WORDS, "cartao");
    SaysOne(EXCEPT_CARD, BROAD_WORDS, "todas");
    SaysOne(EXCEPT_CARD, EXCEPT_WORDS, "exceto");
  }

  lemma ExceptCardDoesNotSay()
    ensures !Says(EXCEPT_CARD, FUNDS_WORDS) && !Says(EXCEPT_CARD, SUBTYPE_WORDS)
  {}

  lemma ExceptCardScope()
    ensures !Excludes(EXCEPT_CARD) && !("conta" in EXCEPT_CARD && "contas" !in EXCEPT_CARD)
  {
    assert "sem" !in EXCEPT_CARD;
    NoPhrases(EXCEPT_CARD);
  }

  lemma ReadExceptCard()
    ensures AllPlain(EXCEPT_CARD) && Read(Sentence(EXCEPT_CARD)) == Wording(true, false, true, false, false, true, true, true, false)
  {
    ExceptCardPlain();
    ExceptCardSays();
    ExceptCardDoesNotSay();
    ExceptCardScope();
    Compose(EXCEPT_CARD, Wording(true, false, true, false, false, true, true, true, false));
    ReadSentence(EXCEPT_CARD);
  }

  lemma WithoutCardPlain()
    ensures AllPlain(WITHOUT_CARD) && "quanto" !in WITHOUT_CARD && "tudo" !in WITHOUT_CARD
  {}

  lemma WithoutCardSays()
    ensures Says(WITHOUT_CARD, {"saldo", "saldos"}) && Says(WITHOUT_CARD, TOTAL_SINGLES)
    ensures Says(WITHOUT_CARD, CARD_WORDS) && Says(WITHOUT_CARD, BROAD_WORDS)
  {
    SaysOne(WITHOUT_CARD, {"saldo", "saldos"}, "saldo");
    SaysOne(WITHOUT_CARD, TOTAL_SINGLES, "total");
    SaysOne(WITHOUT_CARD, CARD_WORDS, "cartao");
    SaysOne(WITHOUT_CARD, BROAD_WORDS, "todas");
  }

  lemma WithoutCardDoesNotSay()
    ensures !Says(WITHOUT_CARD, FUNDS_WORDS) && !Says(WITHOUT_CARD, SUBTYPE_WORDS)
  {}

  lemma WithoutCardScope()
    ensures Excludes(WITHOUT_CARD) && !("conta" in WITHOUT_CARD && "contas" !in WITHOUT_CARD)
  {
    assert WITHOUT_CARD[4..6] == ["sem", "cartao"] && "cartao" in CARD_WORDS;
    ContainsAt(WITHOUT_CARD, ["sem", "cartao"], 4);
  }

  lemma ReadWithoutCard()
    ensures AllPlain(WITHOUT_CARD) && Read(Sentence(WITHOUT_CARD)) == Wording(true, false, true, true, false, true, true, true, false)
  {
    WithoutCardPlain();
    WithoutCardSays();
    WithoutCardDoesNotSay();
    WithoutCardScope();
    Compose(WITHOUT_CARD, Wording(true, false, true, true, false, true, true, true, false));
    ReadSentence(WITHOUT_CARD);
  }

  lemma BanksOnlyPlain()
    ensures AllPlain(BANKS_ONLY) && "quanto" !in BANKS_ONLY && "tudo" !in BANKS_ONLY
  {}

  lemma BanksOnlySays()
    ensures Says(BANKS_ONLY, {"saldo", "saldos"}) && Says(BANKS_ONLY, TOTAL_SINGLES)
    ensures Says(BANKS_ONLY, FUNDS_WORDS)
  {
    SaysOne(BANKS_ONLY, {"saldo", "saldos"}, "saldo");
    SaysOne(BANKS_ONLY, TOTAL_SINGLES, "total");
    SaysOne(BANKS_ONLY, FUNDS_WORDS, "contas");
  }

  lemma BanksOnlyDoesNotSay()
    ensures !Says(BANKS_ONLY, CARD_WORDS) && !Says(BANKS_ONLY, BROAD_WORDS) && !Says(BANKS_ONLY, SUBTYPE_WORDS)
  {}

  lemma BanksOnlyNotExplicit()
    ensures !Says(BANKS_ONLY, ONLY_WORDS + EXCEPT_WORDS + KIND_WORDS)
  {}

  lemma BanksOnlyScope()
    ensures !Excludes(BANKS_ONLY) && !("conta" in BANKS_ONLY && "contas" !in BANKS_ONLY)
  {
    assert "sem" !in BANKS_ONLY;
    NoPhrases(BANKS_ONLY);
  }

  lemma ReadBanksOnly()
    ensures AllPlain(BANKS_ONLY) && Read(Sentence(BANKS_ONLY)) == Wording(true, false, false, false, true, true, false, false, false)
  {
    BanksOnlyPlain();
    BanksOnlySays();
    BanksOnlyDoesNotSay();
    BanksOnlyNotExplicit();
    BanksOnlyScope();
    Compose(BANKS_ONLY, Wording(true, false, false, false, true, true, false, false, false));
    ReadSentence(BANKS_ONLY);
  }

  lemma OnlyAccountsPlain()
    ensures AllPlain(ONLY_ACCOUNTS) && "quanto" !in ONLY_ACCOUNTS && "tudo" !in ONLY_ACCOUNTS
  {}

  lemma OnlyAccountsSays()
    ensures Says(ONLY_ACCOUNTS, {"saldo", "saldos"}) && Says(ONLY_ACCOUNTS, TOTAL_SINGLES)
    ensures Says(ONLY_ACCOUNTS, FUNDS_WORDS) && Says(ONLY_ACCOUNTS, ONLY_WORDS + EXCEPT_WORDS + KIND_WORDS)
  {
    SaysOne(ONLY_ACCOUNTS, {"saldo", "saldos"}, "saldo");
    SaysOne(ONLY_ACCOUNTS, TOTAL_SINGLES, "total");
    SaysOne(ONLY_ACCOUNTS, FUNDS_WORDS, "contas");
    SaysOne(ONLY_ACCOUNTS, ONLY_WORDS + EXCEPT_WORDS + KIND_WORDS, "so");
  }

  lemma OnlyAccountsDoesNotSay()
    ensures !Says(ONLY_ACCOUNTS, CARD_WORDS) && !Says(ONLY_ACCOUNTS, SUBTYPE_WORDS)
  {}

  lemma OnlyAccountsNotExplicit()
    ensures !Says(ONLY_ACCOUNTS, BROAD_WORDS)
  {}

  lemma OnlyAccountsScope()
    ensures !Excludes(ONLY_ACCOUNTS) && !("conta" in ONLY_ACCOUNTS && "contas" !in ONLY_ACCOUNTS)
  {
    assert "sem" !in ONLY_ACCOUNTS;
    NoPhrases(ONLY_ACCOUNTS);
  }

  lemma ReadOnlyAccounts()
    ensures AllPlain(ONLY_ACCOUNTS) && Read(Sentence(ONLY_ACCOUNTS)) == Wording(true, false, false, false, true, true, false, true, false)
  {
    OnlyAccountsPlain();
    OnlyAccountsSays();
    OnlyAccountsDoesNotSay();
    OnlyAccountsNotExplicit();
    OnlyAccountsScope();
    Compose(ONLY_ACCOUNTS, Wording(true, false, false, false, true, true, false, true, false));
    ReadSentence(ONLY_ACCOUNTS);
  }

  // ----- what the given sentences get

  lemma GenericSentence(words: seq<string>)
    requires AllPlain(words) && forall w :: w in words ==> IsGenericBalanceWord(w)
    ensures forall token :: token in Tokens(Sentence(words)) ==> IsGenericBalanceWord(token)
  {
    TokensOfSentence(words);
  }

  lemma WithoutCardGeneric()
    ensures forall w :: w in WITHOUT_CARD ==> IsGenericBalanceWord(w)
  {}

  lemma OnlyAccountsGeneric()
    ensures forall w :: w in ONLY_ACCOUNTS ==> IsGenericBalanceWord(w)
  {}

  lemma BankWordNotAmong()
    ensures "bancarias" !in AMOUNT_WORDS && "bancarias" !in ASKING_WORDS && "bancarias" !in POINTING_WORDS
  {}

  lemma BankWordNotLater()
    ensures "bancarias" !in LINKING_WORDS && "bancarias" !in PERSON_WORDS && "bancarias" !in FILLER_WORDS
    ensures "bancarias" !in EXTRA_GENERIC_BALANCE_WORDS
  {}

  lemma BankWordIsSpecific()
    ensures "bancarias" in BANKS_ONLY && |"bancarias"| > 1 && !IsGenericBalanceWord("bancarias")
  {
    BankWordNotAmong();
    BankWordNotLater();
  }

  /** One to twenty accounts, all bank or cash, none named, from a complete read. */
  predicate FundsUnnamed(words: seq<string>, ev: Evidence) {
    && 0 < |ev.accounts| <= MAX_LISTED_ACCOUNTS && (forall a :: a in ev.accounts ==> IsFunds(a)) && !ev.partial
    && MatchByName(Tokens(Sentence(words)), ev.accounts) == []
  }

  lemma FundsOnlyKinds(ev: Evidence)
    requires forall a :: a in ev.accounts ==> IsFunds(a)
    ensures Funds(ev.accounts) == ev.accounts && Cards(ev.accounts) == [] && !AnyUnknown(ev.accounts)
  {
    AllOrNothing(ev.accounts);
    KindsOfPool(ev);
  }

  lemma ExceptCardAsksBack(ev: Evidence)
    requires ev.accounts != [] && Cards(ev.accounts) == []
    ensures RenderAccountsAnswer(Sentence(EXCEPT_CARD), Some(ev)) == Ask(NoCardEvidence, ev.accounts, ev)
  {
    ReadExceptCard();
  }

  lemma WithoutCardSummed(ev: Evidence)
    requires FundsUnnamed(WITHOUT_CARD, ev)
    requires Funds(ev.accounts) == ev.accounts && Cards(ev.accounts) == [] && !AnyUnknown(ev.accounts)
    ensures RenderAccountsAnswer(Sentence(WITHOUT_CARD), Some(ev)) == Lines(ev.accounts, ScopedTotal(Sum(ev.accounts), CardsExcluded), ev)
  {
    ReadWithoutCard();
    WithoutCardGeneric();
    GenericSentence(WITHOUT_CARD);
    ExclusionSummed(Read(Sentence(WITHOUT_CARD)), Sentence(WITHOUT_CARD), Tokens(Sentence(WITHOUT_CARD)), ev);
  }

  lemma ExclusionSummed(w: Wording, text: string, said: set<string>, ev: Evidence)
    requires 0 < |ev.accounts| <= MAX_LISTED_ACCOUNTS && !ev.partial && MatchByName(said, ev.accounts) == []
    requires Funds(ev.accounts) == ev.accounts && Cards(ev.accounts) == [] && !AnyUnknown(ev.accounts)
    requires forall token :: token in said ==> IsGenericBalanceWord(token)
    requires w == Wording(true, false, true, true, false, true, true, true, false)
    ensures Decide(w, text, said, ev) == Lines(ev.accounts, ScopedTotal(Sum(ev.accounts), CardsExcluded), ev)
  {
    ListingAnswers(w, said, ev);
    VerdictOfListing(w, ev);
  }

  // Asked for the total of all without cards, bank and cash accounts are summed. Asked for
  // the total of all except cards, which the comment scopes alike, the same accounts get
  // no total and no figure: the answer asks which card is meant.
  lemma ExceptIsNotWithout(ev: Evidence)
    requires FundsUnnamed(WITHOUT_CARD, ev)
    ensures RenderAccountsAnswer(Sentence(WITHOUT_CARD), Some(ev)) == Lines(ev.accounts, ScopedTotal(Sum(ev.accounts), CardsExcluded), ev)
    ensures RenderAccountsAnswer(Sentence(EXCEPT_CARD), Some(ev)) == Ask(NoCardEvidence, ev.accounts, ev)
  {
    FundsOnlyKinds(ev);
    ExceptCardAsksBack(ev);
    WithoutCardSummed(ev);
  }

  const NUBANK := Account("Nubank", "nubank", Bank, 100)

  /** A sentence does not match an account of one word that it does not say. */
  lemma UnsaidName(words: seq<string>, a: Account, name: string)
    requires AllPlain(words) && name !in words
    requires IsPlainWord(name) && |name| > 2 && a.key == Sentence([name])
    ensures !Matches(Tokens(Sentence(words)), a)
  {
    TokensOfSentence(words);
    TokensOfSentence([name]);
    assert name in [name];
    assert name in Tokens(a.key) && name !in Tokens(Sentence(words));
  }

  lemma NubankNotSaid()
    ensures "nubank" !in WITHOUT_CARD
  {}

  lemma NubankName()
    ensures IsPlainWord("nubank") && |"nubank"| > 2 && NUBANK.key == "nubank" && IsFunds(NUBANK) && NUBANK.balanceCents == 100
  {}

  lemma OneWord(w: string)
    ensures Sentence([w]) == w
  {}

  lemma NubankUnnamed(name: string)
    requires name == "nubank"
    ensures !Matches(Tokens(Sentence(WITHOUT_CARD)), NUBANK)
  {
    WithoutCardPlain();
    NubankNotSaid();
    NubankName();
    OneWord(name);
    UnsaidName(WITHOUT_CARD, NUBANK, name);
  }

  lemma OneUnnamed(words: seq<string>, a: Account, ev: Evidence)
    requires ev == Evidence([a], 0, false) && IsFunds(a) && !Matches(Tokens(Sentence(words)), a)
    ensures FundsUnnamed(words, ev) && Sum(ev.accounts) == a.balanceCents
  {
    assert Sum([a]) == a.balanceCents + Sum([]);
  }

  // So it is for one bank account with 100 cents: summed without cards, withheld except cards.
  lemma ExceptedNubank(ev: Evidence)
    requires ev == Evidence([NUBANK], 0, false)
    ensures RenderAccountsAnswer(Sentence(WITHOUT_CARD), Some(ev)) == Lines(ev.accounts, ScopedTotal(100, CardsExcluded), ev)
    ensures RenderAccountsAnswer(Sentence(EXCEPT_CARD), Some(ev)) == Ask(NoCardEvidence, ev.accounts, ev)
  {
    NubankUnnamed("nubank");
    NubankName();
    OneUnnamed(WITHOUT_CARD, NUBANK, ev);
    ExceptIsNotWithout(ev);
  }

  // The word "bancarias" is not read as the kind scope of the comment. The total fails for
  // another reason: the word is taken for the name of an account that is not there, and
  // would be even if it were read as an explicit scope.
  lemma BankWordIsNoScope(ev: Evidence, explicit: bool)
    requires MatchByName(Tokens(Sentence(BANKS_ONLY)), Funds(ev.accounts)) == []
    ensures !Read(Sentence(BANKS_ONLY)).explicit
    ensures var text := Sentence(BANKS_ONLY);
            && RenderAccountsAnswer(text, Some(ev)) == Ask(AccountNotFound, ev.accounts, ev)
            && Decide(Read(text).(explicit := explicit), text, Tokens(text), ev) == Ask(AccountNotFound, ev.accounts, ev)
  {
    ReadBanksOnly();
    TokensOfSentence(BANKS_ONLY);
    BankWordIsSpecific();
    assert "bancarias" in Tokens(Sentence(BANKS_ONLY));
  }

  // A question that gets a heading and not one line: the total of the accounts only, where
  // every account known is of unconfirmed kind.
  lemma HeadingAlone(ev: Evidence)
    requires ev.accounts != [] && forall a :: a in ev.accounts ==> IsUnknown(a)
    ensures var a := RenderAccountsAnswer(Sentence(ONLY_ACCOUNTS), Some(ev)); a.Figures? && a.lines == []
  {
    ReadOnlyAccounts();
    OnlyAccountsGeneric();
    GenericSentence(ONLY_ACCOUNTS);
    assert ev.accounts[0] in ev.accounts;
    KindsOfPool(ev);
    EmptyAnswerExactly(Sentence(ONLY_ACCOUNTS), ev);
  }
}
