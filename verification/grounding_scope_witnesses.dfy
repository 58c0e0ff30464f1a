/** One question for each of the ten scope words, and what each of them gets. */
module GroundingScopeWitnesses {
  import opened Common
  import opened GroundingText
  import opened Grounding
  import opened GroundingAnswers
  import opened GroundingScopes
  import opened GroundingSentences
  import opened GroundingWitnesses

  const SUBTYPE_SCOPE_WORDS: set<string> := {"corrente", "poupanca"}

  const SCOPE_WORDS: set<string> := NAMELIKE_SCOPE_WORDS + {"so"} + SUBTYPE_SCOPE_WORDS

  /** "saldo total das contas" and the word, as in "saldo total das contas dinheiro". */
  function TotalBy(w: string): seq<string> { ["saldo", "total", "das", "contas", w] }

  // ----- how these questions are read

  lemma TotalByPlain(w: string)
    requires IsPlainWord(w)
    ensures AllPlain(TotalBy(w))
  {}

  lemma ScopeWordsPlain(w: string)
    requires w in SCOPE_WORDS
    ensures IsPlainWord(w) && |w| > 1
  {}

  lemma ScopeWordsApart(w: string)
    requires w in SCOPE_WORDS
    ensures w !in CARD_WORDS && w !in BROAD_WORDS && w != "quanto" && w != "tudo" && w != "sem" && w != "conta" && w != "nubank"
    ensures w in SUBTYPE_WORDS <==> w in SUBTYPE_SCOPE_WORDS
    ensures w in ONLY_WORDS + EXCEPT_WORDS + KIND_WORDS
  {}

  lemma TotalBySays(w: string)
    ensures var words := TotalBy(w);
            Says(words, {"saldo", "saldos"}) && Says(words, TOTAL_SINGLES) && Says(words, FUNDS_WORDS)
  {
    SaysOne(TotalBy(w), {"saldo", "saldos"}, "saldo");
    SaysOne(TotalBy(w), TOTAL_SINGLES, "total");
    SaysOne(TotalBy(w), FUNDS_WORDS, "contas");
  }

  lemma FourWordsApart(v: string)
    requires v in {"saldo", "total", "das", "contas"}
    ensures v !in CARD_WORDS && v !in BROAD_WORDS && v !in SUBTYPE_WORDS
    ensures v != "quanto" && v != "tudo" && v != "sem" && v != "conta" && v != "nubank" && IsGenericBalanceWord(v)
  {}

  lemma WordsOf(w: string, v: string)
    ensures v in TotalBy(w) <==> v in {"saldo", "total", "das", "contas"} || v == w
  {}

  lemma SaysLast(w: string, class_: set<string>)
    requires forall v :: v in {"saldo", "total", "das", "contas"} ==> v !in class_
    ensures Says(TotalBy(w), class_) <==> w in class_
  {
    forall v ensures v in TotalBy(w) <==> v in {"saldo", "total", "das", "contas"} || v == w { WordsOf(w, v); }
  }

  lemma TotalByDoesNotSay(w: string)
    requires w in SCOPE_WORDS
    ensures var words := TotalBy(w);
            && !Says(words, CARD_WORDS) && !Says(words, BROAD_WORDS) && (Says(words, SUBTYPE_WORDS) <==> w in SUBTYPE_SCOPE_WORDS)
            && Says(words, ONLY_WORDS + EXCEPT_WORDS + KIND_WORDS)
  {
    ScopeWordsApart(w);
    forall v | v in {"saldo", "total", "das", "contas"} ensures v !in CARD_WORDS && v !in BROAD_WORDS && v !in SUBTYPE_WORDS {
      FourWordsApart(v);
    }
    SaysLast(w, CARD_WORDS);
    SaysLast(w, BROAD_WORDS);
    SaysLast(w, SUBTYPE_WORDS);
    WordsOf(w, w);
    SaysOne(TotalBy(w), ONLY_WORDS + EXCEPT_WORDS + KIND_WORDS, w);
  }

  lemma NotInTotalBy(w: string, v: string)
    requires w in SCOPE_WORDS && v in {"quanto", "tudo", "sem", "conta", "nubank"}
    ensures v !in TotalBy(w)
  {
    ScopeWordsApart(w);
    WordsOf(w, v);
    if v in {"saldo", "total", "das", "contas"} { FourWordsApart(v); }
  }

  lemma ReadTotalBy(w: string)
    requires w in SCOPE_WORDS
    ensures AllPlain(TotalBy(w))
    ensures Read(Sentence(TotalBy(w))) == Wording(true, w in SUBTYPE_SCOPE_WORDS, false, false, true, true, false, true, false)
  {
    ScopeWordsPlain(w);
    TotalByPlain(w);
    TotalBySays(w);
    TotalByDoesNotSay(w);
    NotInTotalBy(w, "quanto");
    NotInTotalBy(w, "tudo");
    NotInTotalBy(w, "sem");
    NotInTotalBy(w, "conta");
    NoPhrases(TotalBy(w));
    Compose(TotalBy(w), Wording(true, w in SUBTYPE_SCOPE_WORDS, false, false, true, true, false, true, false));
    ReadSentence(TotalBy(w));
  }

  // ----- what they get

  lemma LastIsSaid(w: string)
    requires IsPlainWord(w) && |w| > 1
    ensures w in Tokens(Sentence(TotalBy(w)))
  {
    TotalByPlain(w);
    TokensOfSentence(TotalBy(w));
    WordsOf(w, w);
  }

  lemma NamelikeAsksBack(text: string, w: string, ev: Evidence)
    requires w in NAMELIKE_SCOPE_WORDS && w in Tokens(text) && MatchByName(Tokens(text), Funds(ev.accounts)) == []
    requires Read(text) == Wording(true, false, false, false, true, true, false, true, false)
    ensures RenderAccountsAnswer(text, Some(ev)) == Ask(AccountNotFound, ev.accounts, ev)
  {
    ScopeWordTakenForName(text, w, ev, true);
  }

  lemma SoIsGeneric()
    ensures IsGenericBalanceWord("so") && "so" in SCOPE_WORDS
  {}

  lemma SoIsSummed(w: string, ev: Evidence)
    requires w == "so" && FundsUnnamed(TotalBy(w), ev)
    ensures var a := RenderAccountsAnswer(Sentence(TotalBy(w)), Some(ev));
            a.Figures? && a.lines == ev.accounts && a.verdict == ScopedTotal(Sum(ev.accounts), CardsExcluded)
  {
    var text := Sentence(TotalBy(w));
    SoIsGeneric();
    ReadTotalBy(w);
    forall v | v in TotalBy(w) ensures IsGenericBalanceWord(v) {
      WordsOf(w, v);
      if v != w { FourWordsApart(v); }
    }
    GenericSentence(TotalBy(w));
    FundsOnlyKinds(ev);
    TotalsExactly(text, ev);
    SubtotalIsWhole(text, ev);
  }

  // The kind and exclusion words of the comment, one by one, each in the question for the
  // total of the accounts: all ten are read as an explicit scope. With "so" bank and cash
  // accounts are summed; seven of the others are taken for the name of an account that is
  // not there, and the last two for a subtype that is not supported.
  lemma OnlySoIsSummed(w: string, ev: Evidence)
    requires w in SCOPE_WORDS && FundsUnnamed(TotalBy(w), ev)
    ensures Read(Sentence(TotalBy(w))).explicit
    ensures var a := RenderAccountsAnswer(Sentence(TotalBy(w)), Some(ev));
            if w == "so" then a.Figures? && a.lines == ev.accounts && a.verdict == ScopedTotal(Sum(ev.accounts), CardsExcluded)
            else a == Ask(if w in SUBTYPE_SCOPE_WORDS then UnsupportedSubtype else AccountNotFound, ev.accounts, ev)
  {
    ReadTotalBy(w);
    FundsOnlyKinds(ev);
    if w == "so" {
      SoIsSummed(w, ev);
    } else if w in NAMELIKE_SCOPE_WORDS {
      SubtypesApart(w);
      ScopeWordsPlain(w);
      LastIsSaid(w);
      NamelikeAsksBack(Sentence(TotalBy(w)), w, ev);
    }
  }

  lemma SubtypesApart(w: string)
    requires w in NAMELIKE_SCOPE_WORDS
    ensures w !in SUBTYPE_SCOPE_WORDS
  {}

  // For one bank account with 100 cents nothing else is needed.
  lemma ScopedNubank(w: string, ev: Evidence)
    requires w in SCOPE_WORDS && ev == Evidence([NUBANK], 0, false)
    ensures var a := RenderAccountsAnswer(Sentence(TotalBy(w)), Some(ev));
            if w == "so" then a.Figures? && a.lines == [NUBANK] && a.verdict == ScopedTotal(100, CardsExcluded)
            else a == Ask(if w in SUBTYPE_SCOPE_WORDS then UnsupportedSubtype else AccountNotFound, [NUBANK], ev)
  {
    NubankName();
    NubankIn(w, "nubank");
    OneUnnamed(TotalBy(w), NUBANK, ev);
    OnlySoIsSummed(w, ev);
  }

  lemma NubankIn(w: string, name: string)
    requires w in SCOPE_WORDS && name == "nubank"
    ensures !Matches(Tokens(Sentence(TotalBy(w))), NUBANK)
  {
    NubankName();
    OneWord(name);
    ScopeWordsPlain(w);
    TotalByPlain(w);
    NotInTotalBy(w, name);
    UnsaidName(TotalBy(w), NUBANK, name);
  }
}
