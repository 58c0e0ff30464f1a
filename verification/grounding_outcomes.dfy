/**
 * Which questions get figures, which are told that nothing was found, and what a question
 * that names nothing gets: the first accounts of the scope its words give.
 */
module GroundingOutcomes {
  import opened Common
  import opened GroundingText
  import opened Grounding
  import opened GroundingNames
  import opened GroundingAnswers
  import opened GroundingLeftovers

  // ----- names said

  /** One account is left of those whose names are said. */
  predicate SoleSurvivor(said: set<string>, pool: seq<Account>) {
    |SelectMostSpecific(said, MatchByName(said, pool)).candidates| == 1
  }

  /** The question says the whole name, and nothing specific besides. */
  predicate SaysJust(said: set<string>, a: Account) {
    && (forall token :: token in Tokens(a.key) ==> token in said)
    && (forall token :: token in said ==> IsGenericBalanceWord(token) || token in Tokens(a.key))
  }

  predicate SoleAccepted(said: set<string>, pool: seq<Account>) {
    SoleSurvivor(said, pool) && SaysJust(said, SelectMostSpecific(said, MatchByName(said, pool)).candidates[0])
  }

  predicate SoleRefused(said: set<string>, pool: seq<Account>) { SoleSurvivor(said, pool) && !SoleAccepted(said, pool) }

  predicate NoneMatches(said: set<string>, pool: seq<Account>) { forall a :: a in pool ==> !Matches(said, a) }

  predicate AllGeneric(said: set<string>) { forall token :: token in said ==> IsGenericBalanceWord(token) }

  predicate AllGenericForCards(said: set<string>) { forall token :: token in said ==> token in GENERIC_CARD_QUERY_WORDS }

  lemma NoneIsEmpty(said: set<string>, pool: seq<Account>)
    ensures NoneMatches(said, pool) <==> MatchByName(said, pool) == []
  {
    if MatchByName(said, pool) != [] { MatchIsKept(said, pool, MatchByName(said, pool)[0]); }
    forall a | a in pool && Matches(said, a) ensures MatchByName(said, pool) != [] { MatchIsKept(said, pool, a); }
  }

  /** Nothing survives exactly where nothing matches. */
  lemma SomeSurvive(said: set<string>, pool: seq<Account>)
    ensures SoleSurvivor(said, pool) ==> MatchByName(said, pool) != []
  {
    if SoleSurvivor(said, pool) { CandidatesMatch(said, pool, SelectMostSpecific(said, MatchByName(said, pool)).candidates[0]); }
  }

  lemma SelectedOutcome(said: set<string>, sel: Selection, poolSize: nat, shown: seq<Account>, noun: Noun, ev: Evidence)
    requires noun == CARD_NOUN || noun == ACCOUNT_NOUN
    ensures var a := SelectedAnswer(said, sel, poolSize, shown, noun, ev);
            && (SaysNotFound(a) <==> |sel.candidates| == 1 && !SaysJust(said, sel.candidates[0]))
            && (|sel.candidates| == 1 ==> (a.Figures? <==> SaysJust(said, sel.candidates[0])))
  {}

  lemma NamedOutcome(said: set<string>, pool: seq<Account>, shown: seq<Account>, noun: Noun, ev: Evidence)
    requires noun == CARD_NOUN || noun == ACCOUNT_NOUN
    ensures var a := NamedAnswer(said, pool, shown, noun, ev);
            && (SaysNotFound(a) <==> SoleRefused(said, pool))
            && (a.Figures? <==> SoleAccepted(said, pool) || SeveralNamed(said, MatchByName(said, pool)))
            && (a.Figures? && SoleAccepted(said, pool) ==>
                  a == Line(SelectMostSpecific(said, MatchByName(said, pool)).candidates[0], |pool|, ev))
            && (SeveralNamed(said, MatchByName(said, pool)) ==> a == Lines(MatchByName(said, pool), EachOnItsOwn, ev))
  {
    var matches := MatchByName(said, pool);
    var sel := SelectMostSpecific(said, matches);
    SelectedOutcome(said, sel, |pool|, shown, noun, ev);
    if SeveralNamed(said, matches) {
      SeveralKept(said, matches);
      SeveralPrinted(said, pool, shown, noun, ev);
    } else if NamedAnswer(said, pool, shown, noun, ev).Figures? && !SoleSurvivor(said, pool) {
      ManyPrinted(said, sel, |pool|, shown, noun, ev);
      KeptAreSeveral(said, matches);
    }
  }

  /** The words that count of a name: those of three letters and more, or all where there is none. */
  predicate SaysWhatCounts(said: set<string>, tokens: set<string>) {
    if exists token :: token in tokens && |token| >= 3 then forall token :: token in tokens && |token| >= 3 ==> token in said
    else forall token :: token in tokens ==> token in said
  }

  lemma LongWordsCount(said: set<string>, tokens: set<string>)
    ensures var long := set token | token in tokens && |token| > 2;
            SaysWhatCounts(said, tokens) <==> (if long != {} then long else tokens) <= said
    ensures var long := set token | token in tokens && |token| > 2; (if long != {} then long else tokens) != {} <==> tokens != {}
  {
    var long := set token | token in tokens && |token| > 2;
    if token :| token in tokens && |token| >= 3 { assert token in long; }
    if token :| token in long { assert |token| >= 3; }
  }

  predicate SomeNot(tokens: set<string>, generic: string -> bool) { exists token :: token in tokens && !generic(token) }

  lemma SomeNotExactly(tokens: set<string>, generic: string -> bool)
    ensures SomeNot(tokens, generic) <==> tokens != {} && !(tokens != {} && forall token :: token in tokens ==> generic(token))
  {}

  // A name is matched by its words of three letters and more, all of which must be said;
  // shorter words count only where there are no others. A name of vocabulary only is never.
  lemma NameMatchesExactly(said: set<string>, a: Account)
    ensures Matches(said, a) <==> SomeNot(Tokens(a.key), IsGenericBalanceWord) && SaysWhatCounts(said, Tokens(a.key))
  {
    LongWordsCount(said, Tokens(a.key));
    SomeNotExactly(Tokens(a.key), IsGenericBalanceWord);
    assert IsGenericOnlyName(a) <==> Tokens(a.key) != {} && forall token :: token in Tokens(a.key) ==> IsGenericBalanceWord(token);
  }

  // ----- when nothing is found, and when there are figures

  predicate AnyOfKind(ev: Evidence, kinds: set<AccountKind>) { exists a :: a in ev.accounts && a.kind in kinds }

  lemma KindsThere(ev: Evidence)
    ensures AnyOfKind(ev, {CreditCard}) <==> Cards(ev.accounts) != []
    ensures AnyOfKind(ev, {Bank, Cash}) <==> Funds(ev.accounts) != []
    ensures AnyOfKind(ev, {Unknown}) <==> AnyUnknown(ev.accounts)
  {
    KindsOfPool(ev);
  }

  /** Bank and cash accounts are asked for, and there are none to list: not even, for a total, one of unconfirmed kind. */
  predicate NoFundsToList(w: Wording, ev: Evidence) {
    w.FundsScoped() && !AnyOfKind(ev, {Bank, Cash}) && !(w.total && AnyOfKind(ev, {Unknown}))
  }

  predicate CardNotFoundDue(said: set<string>, ev: Evidence) {
    && AnyOfKind(ev, {CreditCard})
    && (SoleRefused(said, Cards(ev.accounts)) || (NoneMatches(said, Cards(ev.accounts)) && !AllGenericForCards(said)))
  }

  predicate AccountNotFoundDue(w: Wording, said: set<string>, ev: Evidence) {
    || SoleRefused(said, NamePool(w, ev))
    || (NoneMatches(said, NamePool(w, ev))
        && (w.oneAccount || !AllGeneric(said) || (ev.accounts != [] && NoFundsToList(w, ev))))
  }

  predicate CardFiguresDue(said: set<string>, ev: Evidence) {
    && AnyOfKind(ev, {CreditCard})
    && var cards := Cards(ev.accounts);
       || SoleAccepted(said, cards) || SeveralNamed(said, MatchByName(said, cards))
       || (NoneMatches(said, cards) && AllGenericForCards(said))
  }

  predicate AccountFiguresDue(w: Wording, said: set<string>, ev: Evidence) {
    var pool := NamePool(w, ev);
    || SoleAccepted(said, pool) || SeveralNamed(said, MatchByName(said, pool))
    || (NoneMatches(said, pool) && !w.oneAccount && AllGeneric(said) && ev.accounts != [] && !NoFundsToList(w, ev))
  }

  lemma NothingSelected(said: set<string>, pool: seq<Account>)
    requires NoneMatches(said, pool)
    ensures !SoleSurvivor(said, pool) && !SeveralNamed(said, MatchByName(said, pool))
  {
    NoneIsEmpty(said, pool);
    SomeSurvive(said, pool);
  }

  lemma CardOutcome(said: set<string>, w: Wording, ev: Evidence)
    ensures SaysNotFound(CardAnswer(said, w, ev)) <==> CardNotFoundDue(said, ev)
    ensures CardAnswer(said, w, ev).Figures? <==> CardFiguresDue(said, ev)
  {
    var cards := Cards(ev.accounts);
    KindsThere(ev);
    NoneIsEmpty(said, cards);
    NamedOutcome(said, cards, cards, CARD_NOUN, ev);
    if NoneMatches(said, cards) { NothingSelected(said, cards); }
  }

  lemma AccountOutcome(said: set<string>, w: Wording, ev: Evidence)
    ensures SaysNotFound(AccountAnswer(said, w, ev)) <==> AccountNotFoundDue(w, said, ev)
    ensures AccountAnswer(said, w, ev).Figures? <==> AccountFiguresDue(w, said, ev)
  {
    var pool := NamePool(w, ev);
    KindsThere(ev);
    NoneIsEmpty(said, pool);
    NamedOutcome(said, pool, ev.accounts, ACCOUNT_NOUN, ev);
    if NoneMatches(said, pool) { NothingSelected(said, pool); }
  }

  /** Of a question about both, each segment names one account of its own kind and nothing else. */
  ghost predicate EachSegmentNamesOne(text: string, ev: Evidence) {
    && SplitMixed(text).Some?
    && SoleAccepted(Tokens(SplitMixed(text).value.funds), Funds(ev.accounts))
    && SoleAccepted(Tokens(SplitMixed(text).value.card), Cards(ev.accounts))
  }

  lemma ResolvesSole(said: set<string>, pool: seq<Account>)
    ensures ResolveSingle(said, pool) ==
              if SoleAccepted(said, pool) then Some(SelectMostSpecific(said, MatchByName(said, pool)).candidates[0]) else None
  {}

  lemma MixedOutcome(text: string, ev: Evidence)
    ensures !SaysNotFound(MixedAnswer(text, ev)) && (MixedAnswer(text, ev).Figures? <==> EachSegmentNamesOne(text, ev))
  {
    if SplitMixed(text).Some? {
      var s := SplitMixed(text).value;
      ResolvesSole(Tokens(s.funds), Funds(ev.accounts));
      ResolvesSole(Tokens(s.card), Cards(ev.accounts));
    }
  }

  // When exactly "not found" is said: the one account or card left of the names said is
  // not said in full, or the question says something specific besides; or no name is said,
  // and the question says something specific, or "conta" alone, or asks for bank and cash
  // accounts where there are none.
  lemma NotFoundExactly(text: string, ev: Evidence)
    ensures var w, said := Read(text), Tokens(text);
            SaysNotFound(RenderAccountsAnswer(text, Some(ev))) <==>
              && w.balance && !w.subtype
              && (if w.CardQuestion() then !w.funds && CardNotFoundDue(said, ev) else AccountNotFoundDue(w, said, ev))
  {
    var w, said := Read(text), Tokens(text);
    if w.CardQuestion() && w.funds {
      MixedOutcome(text, ev);
    } else if w.CardQuestion() {
      CardOutcome(said, w, ev);
    } else {
      AccountOutcome(said, w, ev);
    }
  }

  // When exactly a question gets figures: it names one account and nothing else, or several
  // side by side, or nothing at all where there is something to list; a question about both
  // gets them if each of its segments names one account.
  lemma FiguresExactly(text: string, ev: Evidence)
    ensures var w, said := Read(text), Tokens(text);
            RenderAccountsAnswer(text, Some(ev)).Figures? <==>
              && w.balance && !w.subtype
              && (if w.CardQuestion() && w.funds then EachSegmentNamesOne(text, ev)
                  else if w.CardQuestion() then CardFiguresDue(said, ev)
                  else AccountFiguresDue(w, said, ev))
  {
    var w, said := Read(text), Tokens(text);
    if w.CardQuestion() && w.funds {
      MixedOutcome(text, ev);
    } else if w.CardQuestion() {
      CardOutcome(said, w, ev);
    } else {
      AccountOutcome(said, w, ev);
    }
  }

  // ----- what a question that names nothing is answered with

  function FirstTwenty(accounts: seq<Account>): seq<Account> { if |accounts| <= 20 then accounts else accounts[..20] }

  /** Broad wording that excludes no cards, or an unconfirmed kind under a funds scope that is not explicit. */
  predicate Widened(w: Wording, ev: Evidence) {
    (w.broad && !w.withoutCard) || (w.FundsScoped() && AnyOfKind(ev, {Unknown}) && !w.explicit)
  }

  /** The accounts such a question is about: bank and cash accounts if it says so, unless it is widened to all. */
  function Scope(w: Wording, ev: Evidence): seq<Account> {
    if w.FundsScoped() && !Widened(w, ev) then Filter(ev.accounts, (a: Account) => a.kind in {Bank, Cash}) else ev.accounts
  }

  lemma {:induction false} FilterSame<T(!new)>(xs: seq<T>, p: T -> bool, q: T -> bool)
    requires forall x :: x in xs ==> p(x) == q(x)
    ensures Filter(xs, p) == Filter(xs, q)
  {
    if xs != [] {
      assert xs == [xs[0]] + xs[1..];
      FilterSame(xs[1..], p, q);
    }
  }

  lemma FundsAre(ev: Evidence)
    ensures Funds(ev.accounts) == Filter(ev.accounts, (a: Account) => a.kind in {Bank, Cash})
    ensures Cards(ev.accounts) == Filter(ev.accounts, (a: Account) => a.kind == CreditCard)
  {
    FilterSame(ev.accounts, IsFunds, (a: Account) => a.kind in {Bank, Cash});
    FilterSame(ev.accounts, IsCard, (a: Account) => a.kind == CreditCard);
  }

  lemma ScopeIs(w: Wording, ev: Evidence)
    requires w.withoutCard ==> w.explicit
    requires w.broad && w.explicit ==> w.withoutCard
    ensures ScopedPool(w, ev) == Scope(w, ev) && (UsesFullPool(w, ev) <==> Widened(w, ev))
  {
    KindsThere(ev);
    FundsAre(ev);
  }

  lemma PlainListing(w: Wording, ev: Evidence)
    requires !w.total
    ensures var scope := ScopedPool(w, ev);
            Listing(w, ev) == Figures(FirstTwenty(scope), if UsesFullPool(w, ev) && AnyUnknown(ev.accounts) then UnknownKindNoted else Plain,
                                      Note(if |scope| > 20 then Some(|scope|) else None, ev.partial),
                                      w.FundsScoped() && w.explicit && !UsesFullPool(w, ev) && AnyUnknown(ev.accounts))
  {}

  // A question without a total that names nothing is answered with the first twenty
  // accounts of its scope, with no word on their sum; that one of them is of unconfirmed
  // kind is noted exactly when the scope was widened, and that one was left out exactly
  // when the scope is explicit.
  lemma ListingExactly(text: string, ev: Evidence)
    requires var w := Read(text); w.balance && !w.subtype && !w.CardQuestion() && !w.total && !w.oneAccount
    requires NoneMatches(Tokens(text), NamePool(Read(text), ev)) && AllGeneric(Tokens(text))
    requires ev.accounts != [] && !NoFundsToList(Read(text), ev)
    ensures var w := Read(text);
            var scope := Scope(w, ev);
            RenderAccountsAnswer(text, Some(ev)) ==
              Figures(FirstTwenty(scope),
                      if Widened(w, ev) && AnyOfKind(ev, {Unknown}) then UnknownKindNoted else Plain,
                      Note(if |scope| > 20 then Some(|scope|) else None, ev.partial),
                      w.FundsScoped() && w.explicit && !Widened(w, ev) && AnyOfKind(ev, {Unknown}))
  {
    var w := Read(text);
    ExclusionIsExplicit(text);
    if w.broad { ExceptArmNeverDecides(text); }
    NoneIsEmpty(Tokens(text), NamePool(w, ev));
    KindsThere(ev);
    PlainListing(w, ev);
    ScopeIs(w, ev);
  }

  lemma ListingLists(w: Wording, ev: Evidence)
    requires w.total && (w.withoutCard ==> w.explicit) && (w.broad && w.explicit ==> w.withoutCard)
    ensures var a := Listing(w, ev);
            var scope := ScopedPool(w, ev);
            a.Figures? && a.lines == FirstTwenty(scope) && a.note == Note(if |scope| > 20 then Some(|scope|) else None, ev.partial)
  {}

  // A generic total lists the same accounts, whatever is said of their sum.
  lemma TotalListsTheSame(text: string, ev: Evidence)
    requires AsksGenericTotal(Read(text), Tokens(text), ev)
    ensures var a := RenderAccountsAnswer(text, Some(ev));
            var scope := Scope(Read(text), ev);
            a.Figures? && a.lines == FirstTwenty(scope) && a.note == Note(if |scope| > 20 then Some(|scope|) else None, ev.partial)
  {
    var w := Read(text);
    ExclusionIsExplicit(text);
    if w.broad { ExceptArmNeverDecides(text); }
    ListingAnswers(w, Tokens(text), ev);
    ListingLists(w, ev);
    ScopeIs(w, ev);
  }

  lemma CardLines(said: set<string>, w: Wording, ev: Evidence, cards: seq<Account>)
    requires cards == Cards(ev.accounts) && cards != [] && MatchByName(said, cards) == [] && AllGenericForCards(said)
    ensures CardAnswer(said, w, ev) ==
              Figures(FirstTwenty(cards), if w.total then EachOnItsOwn else Plain, Note(if |cards| > 20 then Some(|cards|) else None, ev.partial), false)
  {}

  // A card question that names no card is answered with the first twenty cards, total or
  // not: of a total it is said that they are not summed.
  lemma CardListingExactly(text: string, ev: Evidence)
    requires var w := Read(text); w.balance && !w.subtype && w.CardQuestion() && !w.funds
    requires AnyOfKind(ev, {CreditCard}) && NoneMatches(Tokens(text), Cards(ev.accounts)) && AllGenericForCards(Tokens(text))
    ensures var cards := Filter(ev.accounts, (a: Account) => a.kind == CreditCard);
            RenderAccountsAnswer(text, Some(ev)) ==
              Figures(FirstTwenty(cards), if Read(text).total then EachOnItsOwn else Plain,
                      Note(if |cards| > 20 then Some(|cards|) else None, ev.partial), false)
  {
    KindsThere(ev);
    FundsAre(ev);
    NoneIsEmpty(Tokens(text), Cards(ev.accounts));
    CardLines(Tokens(text), Read(text), ev, Cards(ev.accounts));
  }

  // A question about both whose funds segment names one bank or cash account and whose card
  // segment names one card is answered with the two, apart.
  lemma BothAreAnswered(text: string, ev: Evidence, x: Account, y: Account)
    requires Read(text).balance && !Read(text).subtype && Read(text).CardQuestion() && Read(text).funds && SplitMixed(text).Some?
    requires var said := Tokens(SplitMixed(text).value.funds);
             TheOneNamed(said, Funds(ev.accounts), x) && NamedInFull(said, x) && multiset(Funds(ev.accounts))[x] == 1
    requires var said := Tokens(SplitMixed(text).value.card);
             TheOneNamed(said, Cards(ev.accounts), y) && NamedInFull(said, y) && multiset(Cards(ev.accounts))[y] == 1
    ensures RenderAccountsAnswer(text, Some(ev)) == Figures([x, y], EachOnItsOwn, Note(None, ev.partial), false)
  {
    var s := SplitMixed(text).value;
    SegmentNames(Tokens(s.funds), Funds(ev.accounts), x);
    SegmentNames(Tokens(s.card), Cards(ev.accounts), y);
    BothResolved(text, ev, x, y);
  }

  lemma BothResolved(text: string, ev: Evidence, x: Account, y: Account)
    requires SplitMixed(text).Some?
    requires ResolveSingle(Tokens(SplitMixed(text).value.funds), Funds(ev.accounts)) == Some(x)
    requires ResolveSingle(Tokens(SplitMixed(text).value.card), Cards(ev.accounts)) == Some(y)
    ensures MixedAnswer(text, ev) == Figures([x, y], EachOnItsOwn, Note(None, ev.partial), false)
  {}

  lemma SegmentNames(said: set<string>, pool: seq<Account>, x: Account)
    requires TheOneNamed(said, pool, x) && NamedInFull(said, x) && multiset(pool)[x] == 1
    ensures ResolveSingle(said, pool) == Some(x)
  {
    FullNameMatches(said, x);
    MatchIsKept(said, pool, x);
    TheOneNamedIsChosen(said, pool, x);
  }

  // ----- what a question that gets no figures is asked back

  /** The label of an account in a list of names. */
  function LabelOf(a: Account): string { if a.kind == CreditCard then a.name + " (cart\U{e3}o)" else a.name }

  /** A clarification that names the first twenty of some accounts, cards marked, and tells how many there are if they are more. */
  ghost predicate AsksAmong(a: Answer, reason: Reason, among: seq<Account>, ev: Evidence) {
    && a.Clarify? && a.reason == reason && |a.names| == |FirstTwenty(among)|
    && (forall i :: 0 <= i < |a.names| ==> a.names[i] == LabelOf(among[i]))
    && a.note == Note(if |among| > 20 then Some(|among|) else None, ev.partial)
  }

  lemma {:induction false} LabelsAre(accounts: seq<Account>)
    ensures |Labels(accounts)| == |accounts| && forall i :: 0 <= i < |accounts| ==> Labels(accounts)[i] == LabelOf(accounts[i])
  {
    if accounts != [] { LabelsAre(accounts[1..]); }
  }

  lemma AskIs(reason: Reason, among: seq<Account>, ev: Evidence)
    ensures AsksAmong(Ask(reason, among, ev), reason, among, ev)
  {
    LabelsAre(FirstTwenty(among));
  }

  /** Several names are left: all of one name, or to be told apart. */
  ghost predicate NamesAsked(a: Answer, sel: Selection, shown: seq<Account>, which: Reason, same: Reason, ev: Evidence) {
    if sel.candidates != [] && forall x, y :: x in sel.candidates && y in sel.candidates ==> x.key == y.key
    then AsksAmong(a, same, sel.candidates, ev)
    else AsksAmong(a, which, if sel.narrowed || sel.candidates == [] then shown else sel.candidates, ev)
  }

  lemma OneKey(accounts: seq<Account>)
    requires accounts != []
    ensures |set a | a in accounts :: a.key| == 1 <==> forall x, y :: x in accounts && y in accounts ==> x.key == y.key
  {
    var keys := set a | a in accounts :: a.key;
    var first := accounts[0].key;
    assert accounts[0] in accounts && first in keys;
    if |keys| == 1 {
      Singleton(keys, first);
      forall x | x in accounts ensures x.key == first { assert x.key in keys; }
    }
    if forall x, y :: x in accounts && y in accounts ==> x.key == y.key { assert keys == {first}; }
  }

  lemma Singleton<T>(s: set<T>, x: T)
    requires |s| == 1 && x in s
    ensures s == {x}
  {
    assert |s - {x}| == 0;
  }

  lemma SelectedAsked(said: set<string>, sel: Selection, poolSize: nat, shown: seq<Account>, noun: Noun, ev: Evidence)
    requires !SelectedAnswer(said, sel, poolSize, shown, noun, ev).Figures? && |sel.candidates| != 1
    ensures NamesAsked(SelectedAnswer(said, sel, poolSize, shown, noun, ev), sel, shown, noun.which, noun.sameName, ev)
  {
    AskIs(noun.sameName, sel.candidates, ev);
    AskIs(noun.which, sel.candidates, ev);
    AskIs(noun.which, shown, ev);
    if sel.candidates != [] { OneKey(sel.candidates); }
  }

  /** What a question that names something is asked back, if it gets no figures. */
  ghost predicate NamedAsked(a: Answer, said: set<string>, pool: seq<Account>, shown: seq<Account>, noun: Noun, ev: Evidence) {
    if SoleRefused(said, pool) then AsksAmong(a, noun.notFound, shown, ev)
    else NamesAsked(a, SelectMostSpecific(said, MatchByName(said, pool)), shown, noun.which, noun.sameName, ev)
  }

  lemma NamedIsAsked(said: set<string>, pool: seq<Account>, shown: seq<Account>, noun: Noun, ev: Evidence)
    requires !NamedAnswer(said, pool, shown, noun, ev).Figures?
    ensures NamedAsked(NamedAnswer(said, pool, shown, noun, ev), said, pool, shown, noun, ev)
  {
    AskIs(noun.notFound, shown, ev);
    var sel := SelectMostSpecific(said, MatchByName(said, pool));
    if |sel.candidates| != 1 { SelectedAsked(said, sel, |pool|, shown, noun, ev); }
  }

  ghost predicate CardAsked(a: Answer, said: set<string>, ev: Evidence) {
    var cards := Cards(ev.accounts);
    if ev.accounts == [] then a == Clarify(NoCardEvidenceAtAll, [], Note(None, false))
    else if !AnyOfKind(ev, {CreditCard}) then AsksAmong(a, NoCardEvidence, ev.accounts, ev)
    else if NoneMatches(said, cards) then AsksAmong(a, CardNotFound, cards, ev)
    else NamedAsked(a, said, cards, cards, Noun(CardNotFound, WhichCard, SameNameCards), ev)
  }

  ghost predicate AccountAsked(a: Answer, said: set<string>, w: Wording, ev: Evidence) {
    if !NoneMatches(said, NamePool(w, ev)) then
      NamedAsked(a, said, NamePool(w, ev), ev.accounts, Noun(AccountNotFound, WhichAccount, SameNameAccounts), ev)
    else if !w.oneAccount && AllGeneric(said) && ev.accounts == [] then a == Clarify(NoAccounts, [], Note(None, false))
    else AsksAmong(a, AccountNotFound, ev.accounts, ev)
  }

  lemma CardIsAsked(said: set<string>, w: Wording, ev: Evidence)
    requires !CardAnswer(said, w, ev).Figures?
    ensures CardAsked(CardAnswer(said, w, ev), said, ev)
  {
    var cards := Cards(ev.accounts);
    KindsThere(ev);
    NoneIsEmpty(said, cards);
    AskIs(NoCardEvidence, ev.accounts, ev);
    AskIs(CardNotFound, cards, ev);
    if cards != [] && !NoneMatches(said, cards) { NamedIsAsked(said, cards, cards, CARD_NOUN, ev); }
  }

  lemma AccountIsAsked(said: set<string>, w: Wording, ev: Evidence)
    requires !AccountAnswer(said, w, ev).Figures?
    ensures AccountAsked(AccountAnswer(said, w, ev), said, w, ev)
  {
    NoneIsEmpty(said, NamePool(w, ev));
    AskIs(AccountNotFound, ev.accounts, ev);
    if !NoneMatches(said, NamePool(w, ev)) { NamedIsAsked(said, NamePool(w, ev), ev.accounts, ACCOUNT_NOUN, ev); }
  }

  // A balance question that gets no figures is asked back, and this is what: for which of
  // the eleven reasons, among which accounts, cards marked as such.
  lemma AsksExactly(text: string, ev: Evidence)
    requires Read(text).balance && !RenderAccountsAnswer(text, Some(ev)).Figures?
    ensures var w, said, a := Read(text), Tokens(text), RenderAccountsAnswer(text, Some(ev));
            if w.subtype then AsksAmong(a, UnsupportedSubtype, ev.accounts, ev)
            else if w.CardQuestion() && w.funds then AsksAmong(a, WhichOfBoth, ev.accounts, ev)
            else if w.CardQuestion() then CardAsked(a, said, ev)
            else AccountAsked(a, said, w, ev)
  {
    var w, said := Read(text), Tokens(text);
    AskIs(UnsupportedSubtype, ev.accounts, ev);
    AskIs(WhichOfBoth, ev.accounts, ev);
    if !w.subtype {
      if w.CardQuestion() && !w.funds { CardIsAsked(said, w, ev); }
      if !w.CardQuestion() { AccountIsAsked(said, w, ev); }
    }
  }
}
