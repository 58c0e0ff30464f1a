/** What every answer to a balance question keeps, whatever the wording and the evidence. */
module GroundingAnswers {
  import opened Common
  import opened Text
  import opened GroundingText
  import opened Grounding
  import opened GroundingNames
  import opened GroundingTokens

  // ----- an answer from a selection by name

  lemma SelectedShape(said: set<string>, sel: Selection, poolSize: nat, shown: seq<Account>, noun: Noun, ev: Evidence)
    requires SelectedAnswer(said, sel, poolSize, shown, noun, ev).Figures?
    ensures var a := SelectedAnswer(said, sel, poolSize, shown, noun, ev);
            && a.verdict.Subtotal() == None && a.note.incomplete == ev.partial && a.lines != []
            && (forall l :: l in a.lines ==> l in sel.candidates && FullyNamed(said, l))
            && (|a.lines| == 1 ==> a.lines == sel.candidates && !HasUnmatchedQualifier(said, a.lines[0]))
            && (a.note.of == None ==> a.lines == sel.candidates && (poolSize <= 1 || !sel.narrowed))
  {}

  lemma NamedShape(said: set<string>, pool: seq<Account>, shown: seq<Account>, noun: Noun, ev: Evidence)
    requires NamedAnswer(said, pool, shown, noun, ev).Figures?
    ensures var a := NamedAnswer(said, pool, shown, noun, ev);
            && a.verdict.Subtotal() == None && a.note.incomplete == ev.partial && a.lines != []
            && (forall l :: l in a.lines ==> l in pool && FullyNamed(said, l))
            && (|a.lines| == 1 ==> TheOneNamed(said, pool, a.lines[0]))
            && (forall x :: x in pool && Matches(said, x) && a.note.of == None ==> x in a.lines)
  {
    var matches := MatchByName(said, pool);
    var sel := SelectMostSpecific(said, matches);
    SelectedShape(said, sel, |pool|, shown, noun, ev);
    var a := NamedAnswer(said, pool, shown, noun, ev);
    forall l | l in a.lines ensures l in pool { CandidatesMatch(said, pool, l); }
    if |a.lines| == 1 { OneCandidate(said, pool); }
    forall x | x in pool && Matches(said, x) && a.note.of == None ensures x in a.lines {
      MatchIsKept(said, pool, x);
      if !sel.narrowed { NotNarrowed(said, matches, x); } else { OneInPool(pool, a.lines, x); }
    }
  }

  lemma OneInPool(pool: seq<Account>, lines: seq<Account>, x: Account)
    requires |pool| <= 1 && lines != [] && x in pool && forall l :: l in lines ==> l in pool
    ensures x in lines
  {
    assert lines[0] in pool;
  }

  lemma {:induction false} FilterKeepsLength<T(!new)>(xs: seq<T>, p: T -> bool)
    requires |Filter(xs, p)| == |xs|
    ensures Filter(xs, p) == xs
  {
    if xs != [] {
      assert xs == [xs[0]] + xs[1..];
      FilterKeepsLength(xs[1..], p);
    }
  }

  /** A selection that dropped nothing holds every match. */
  lemma NotNarrowed(said: set<string>, matches: seq<Account>, x: Account)
    requires !SelectMostSpecific(said, matches).narrowed && x in matches
    ensures x in SelectMostSpecific(said, matches).candidates
  {
    var fully := Filter(matches, (a: Account) => FullyNamed(said, a));
    if |matches| > 1 && fully != [] {
      var maximal := (a: Account) => !exists b :: b in fully && LessSpecific(a, b);
      assert SelectMostSpecific(said, matches).candidates == Filter(fully, maximal);
      FilterKeepsLength(matches, (a: Account) => FullyNamed(said, a));
      FilterKeepsLength(fully, maximal);
    }
  }

  // ----- totals

  lemma {:induction false} AllOrNothing(xs: seq<Account>)
    ensures (forall a :: a in xs ==> IsFunds(a)) ==> Funds(xs) == xs
  {
    if xs != [] && forall a :: a in xs ==> IsFunds(a) {
      assert xs == [xs[0]] + xs[1..];
      assert forall a :: a in xs[1..] ==> a in xs;
      AllOrNothing(xs[1..]);
    }
  }

  // When a listing prints a subtotal, exactly: a total was asked of a complete read, the
  // scope holds one to twenty accounts, bank and cash only, and an account of unconfirmed
  // kind is tolerated only under an explicit funds scope that is neither broad nor a mere
  // exclusion of cards.
  lemma SubtotalExactlyWhen(w: Wording, ev: Evidence)
    ensures Listing(w, ev).verdict.Subtotal().Some? <==>
              && w.total && HomogeneousFunds(ScopedPool(w, ev), ev) && |ScopedPool(w, ev)| <= MAX_LISTED_ACCOUNTS
              && (AnyUnknown(ev.accounts) ==> w.FundsScoped() && w.explicit && !w.broad && !w.withoutCard)
  {}

  /** A subtotal is the sum of every bank and cash account, all listed, and says what it leaves out. */
  ghost predicate WholeSubtotal(w: Wording, a: Answer, ev: Evidence) {
    a.Figures? && a.verdict.Subtotal().Some? ==>
      && a.lines == Funds(ev.accounts) && |a.lines| <= MAX_LISTED_ACCOUNTS
      && a.verdict.Subtotal() == Some(Sum(Funds(ev.accounts)))
      && a.note == Note(None, false) && !ev.partial && w.total
      && (AnyUnknown(ev.accounts) ==>
            && w.explicit && w.FundsScoped() && !w.broad && !w.withoutCard
            && a.unknownOutOfScope && a.verdict == ScopedTotal(Sum(Funds(ev.accounts)), UnknownKinds))
  }

  lemma ListingSubtotal(w: Wording, ev: Evidence)
    ensures WholeSubtotal(w, Listing(w, ev), ev)
  {
    SubtotalExactlyWhen(w, ev);
    AllOrNothing(ev.accounts);
  }

  lemma CardSubtotal(said: set<string>, w: Wording, ev: Evidence)
    ensures WholeSubtotal(w, CardAnswer(said, w, ev), ev)
  {
    var cards := Cards(ev.accounts);
    if NamedAnswer(said, cards, cards, CARD_NOUN, ev).Figures? { NamedShape(said, cards, cards, CARD_NOUN, ev); }
  }

  lemma AccountSubtotal(said: set<string>, w: Wording, ev: Evidence)
    ensures WholeSubtotal(w, AccountAnswer(said, w, ev), ev)
  {
    var pool := NamePool(w, ev);
    ListingSubtotal(w, ev);
    if NamedAnswer(said, pool, ev.accounts, ACCOUNT_NOUN, ev).Figures? { NamedShape(said, pool, ev.accounts, ACCOUNT_NOUN, ev); }
  }

  lemma MixedSubtotal(text: string, w: Wording, ev: Evidence)
    ensures WholeSubtotal(w, MixedAnswer(text, ev), ev)
  {}

  lemma DecideSubtotal(w: Wording, text: string, said: set<string>, ev: Evidence)
    ensures WholeSubtotal(w, Decide(w, text, said, ev), ev)
  {
    if w.CardQuestion() && w.funds {
      MixedSubtotal(text, w, ev);
    } else if w.CardQuestion() {
      CardSubtotal(said, w, ev);
    } else {
      AccountSubtotal(said, w, ev);
    }
  }

  // A printed subtotal is the sum of every bank and cash account of the evidence; all of
  // them are listed, the read was complete, and an account of unconfirmed kind is left
  // out only on an explicit funds-only question, and said to be left out.
  lemma SubtotalIsWhole(text: string, ev: Evidence)
    ensures WholeSubtotal(Read(text), RenderAccountsAnswer(text, Some(ev)), ev)
  {
    DecideSubtotal(Read(text), text, Tokens(text), ev);
  }

  /** A total is asked, nobody is named, and no reason to ask back comes first. */
  predicate AsksGenericTotal(w: Wording, said: set<string>, ev: Evidence) {
    && w.balance && !w.subtype && !w.CardQuestion() && w.total && !w.oneAccount
    && MatchByName(said, NamePool(w, ev)) == []
    && (forall token :: token in said ==> IsGenericBalanceWord(token))
    && (if w.FundsScoped() then Funds(ev.accounts) != [] || AnyUnknown(ev.accounts) else ev.accounts != [])
  }

  /** The verdict on a generic total, from the kinds that the evidence holds. */
  function ExpectedVerdict(w: Wording, ev: Evidence): Verdict {
    var funds, cards, unknown := Funds(ev.accounts) != [], Cards(ev.accounts) != [], AnyUnknown(ev.accounts);
    var fundsOnly := w.FundsScoped() && (w.explicit || (!w.broad && !unknown));
    var size := if fundsOnly then |Funds(ev.accounts)| else |ev.accounts|;
    var total := Sum(Funds(ev.accounts));
    if unknown && w.withoutCard then NotSummed(MayBeCard)
    else if unknown && (w.broad || (w.FundsScoped() && !w.explicit)) then NotSummed(if cards then UnknownWithCards else UnknownKept)
    else if ev.partial then NotSummed(PartialRead)
    else if fundsOnly then
      if !funds then NotSummed(NothingInScope)
      else if size > MAX_LISTED_ACCOUNTS then TotalOmitted
      else if !w.explicit then FundsTotal(total)
      else ScopedTotal(total, if unknown then UnknownKinds else if cards then CardsOutside else CardsExcluded)
    else if unknown then NotSummed(if cards then SomeUnknownWithCards else SomeUnknown)
    else if funds && cards then NotSummed(FundsAndDebt)
    else if cards then NotSummed(CardDebtOnly)
    else if size > MAX_LISTED_ACCOUNTS then TotalOmitted
    else FundsTotal(total)
  }

  /** Scope and kinds, seen from the evidence. */
  lemma KindsOfPool(ev: Evidence)
    ensures Funds(ev.accounts) != [] <==> AnyFunds(ev.accounts)
    ensures Cards(ev.accounts) != [] <==> AnyCard(ev.accounts)
    ensures !AnyUnknown(ev.accounts) && !AnyCard(ev.accounts) <==> forall a :: a in ev.accounts ==> IsFunds(a)
  {
    if a :| a in ev.accounts && IsFunds(a) { assert a in Funds(ev.accounts); }
    if Funds(ev.accounts) != [] { assert Funds(ev.accounts)[0] in Funds(ev.accounts); }
    if a :| a in ev.accounts && IsCard(a) { assert a in Cards(ev.accounts); }
    if Cards(ev.accounts) != [] { assert Cards(ev.accounts)[0] in Cards(ev.accounts); }
  }

  lemma FundsHoldFunds(ev: Evidence)
    ensures (forall a :: a in Funds(ev.accounts) ==> IsFunds(a)) && !AnyUnknown(Funds(ev.accounts)) && !AnyCard(Funds(ev.accounts))
    ensures AnyFunds(Funds(ev.accounts)) <==> Funds(ev.accounts) != []
  {
    if Funds(ev.accounts) != [] { assert Funds(ev.accounts)[0] in Funds(ev.accounts); }
  }

  lemma VerdictOfFunds(w: Wording, ev: Evidence)
    requires w.total && w.FundsScoped() && (w.withoutCard ==> w.explicit) && !UsesFullPool(w, ev)
    requires !(AnyUnknown(ev.accounts) && (w.withoutCard || w.broad || !w.explicit))
    ensures Listing(w, ev).verdict == ExpectedVerdict(w, ev)
  {
    KindsOfPool(ev);
    FundsHoldFunds(ev);
  }

  lemma VerdictOfAll(w: Wording, ev: Evidence)
    requires w.total && ev.accounts != [] && ScopedPool(w, ev) == ev.accounts && (w.FundsScoped() ==> UsesFullPool(w, ev))
    requires (w.withoutCard ==> w.explicit) && (w.broad && w.explicit ==> w.withoutCard)
    requires !(AnyUnknown(ev.accounts) && (w.withoutCard || w.broad || (w.FundsScoped() && !w.explicit)))
    ensures Listing(w, ev).verdict == ExpectedVerdict(w, ev)
  {
    KindsOfPool(ev);
    AllOrNothing(ev.accounts);
    assert ev.accounts[0] in ev.accounts;
  }

  lemma VerdictOfListing(w: Wording, ev: Evidence)
    requires w.total && (w.withoutCard ==> w.explicit) && (w.broad && w.explicit ==> w.withoutCard)
    requires if w.FundsScoped() then Funds(ev.accounts) != [] || AnyUnknown(ev.accounts) else ev.accounts != []
    ensures Listing(w, ev).verdict == ExpectedVerdict(w, ev)
  {
    KindsOfPool(ev);
    if AnyUnknown(ev.accounts) && (w.withoutCard || w.broad || (w.FundsScoped() && !w.explicit)) {
    } else if w.FundsScoped() && !UsesFullPool(w, ev) {
      VerdictOfFunds(w, ev);
    } else {
      if Funds(ev.accounts) != [] { assert Funds(ev.accounts)[0] in ev.accounts; }
      VerdictOfAll(w, ev);
    }
  }

  // Every generic total is answered with figures, and what is said of their sum follows
  // from the wording and from which kinds of account the evidence holds, how many they
  // are, and whether the read was complete: when exactly a total is given, left out or
  // refused, and for which reason.
  lemma TotalsExactly(text: string, ev: Evidence)
    requires AsksGenericTotal(Read(text), Tokens(text), ev)
    ensures var a := RenderAccountsAnswer(text, Some(ev)); a.Figures? && a.verdict == ExpectedVerdict(Read(text), ev)
  {
    ExclusionIsExplicit(text);
    var w, said := Read(text), Tokens(text);
    if w.broad { ExceptArmNeverDecides(text); }
    KindsOfPool(ev);
    if Funds(ev.accounts) != [] { assert Funds(ev.accounts)[0] in ev.accounts; }
    VerdictOfListing(w, ev);
    ListingAnswers(w, said, ev);
  }

  lemma ListingAnswers(w: Wording, said: set<string>, ev: Evidence)
    requires AsksGenericTotal(w, said, ev)
    ensures AccountAnswer(said, w, ev) == Listing(w, ev)
  {
    if ev.accounts == [] { assert Funds(ev.accounts) == []; }
  }

  lemma EmptyListing(w: Wording, ev: Evidence)
    requires ev.accounts != [] && !(w.FundsScoped() && Funds(ev.accounts) == [] && !(w.total && AnyUnknown(ev.accounts)))
    ensures Listing(w, ev).lines == [] <==>
              w.total && w.FundsScoped() && w.explicit && Funds(ev.accounts) == [] && (w.withoutCard || !w.broad)
  {}

  /** A funds-only total is asked in generic words where only accounts of other kinds are known, some unconfirmed. */
  predicate AsksEmptyTotal(w: Wording, said: set<string>, ev: Evidence) {
    && w.balance && !w.subtype && !w.CardQuestion() && w.FundsScoped() && w.total && w.explicit && !w.oneAccount
    && Funds(ev.accounts) == [] && AnyUnknown(ev.accounts)
    && forall token :: token in said ==> IsGenericBalanceWord(token)
  }

  lemma EmptyAccountAnswer(w: Wording, said: set<string>, ev: Evidence)
    requires w.balance && !w.subtype && !w.CardQuestion() && (w.broad && w.explicit ==> w.withoutCard)
    ensures var a := AccountAnswer(said, w, ev); a.Figures? && a.lines == [] <==> AsksEmptyTotal(w, said, ev)
  {
    var pool := NamePool(w, ev);
    if NamedAnswer(said, pool, ev.accounts, ACCOUNT_NOUN, ev).Figures? { NamedShape(said, pool, ev.accounts, ACCOUNT_NOUN, ev); }
    if ev.accounts != [] && !(w.FundsScoped() && Funds(ev.accounts) == [] && !(w.total && AnyUnknown(ev.accounts))) {
      EmptyListing(w, ev);
    }
  }

  lemma CardAnswerHasLines(said: set<string>, w: Wording, ev: Evidence)
    ensures CardAnswer(said, w, ev).Figures? ==> CardAnswer(said, w, ev).lines != []
  {
    var cards := Cards(ev.accounts);
    if NamedAnswer(said, cards, cards, CARD_NOUN, ev).Figures? { NamedShape(said, cards, cards, CARD_NOUN, ev); }
  }

  // An answer is a heading with no line under it exactly when an explicit funds-only total
  // is asked in generic words while no bank or cash account but some account of
  // unconfirmed kind is known.
  lemma EmptyAnswerExactly(text: string, ev: Evidence)
    ensures var a := RenderAccountsAnswer(text, Some(ev));
            a.Figures? && a.lines == [] <==> AsksEmptyTotal(Read(text), Tokens(text), ev)
  {
    var w, said := Read(text), Tokens(text);
    if w.CardQuestion() && w.funds {
      if MixedAnswer(text, ev).Figures? { MixedShape(text, ev); }
    } else if w.CardQuestion() {
      CardAnswerHasLines(said, w, ev);
    } else {
      if w.broad { ExceptArmNeverDecides(text); }
      if w.balance && !w.subtype { EmptyAccountAnswer(w, said, ev); }
    }
  }

  // ----- scope

  /** Lines are accounts of the evidence, and only of the kinds asked for. */
  ghost predicate InScope(w: Wording, a: Answer, ev: Evidence) {
    a.Figures? ==> forall l :: l in a.lines ==>
      && l in ev.accounts
      && (w.CardQuestion() && !w.funds ==> IsCard(l))
      && (w.withoutCard ==> IsFunds(l))
  }

  lemma ListingInScope(w: Wording, ev: Evidence)
    requires (w.withoutCard ==> w.explicit) && !w.CardQuestion()
    ensures InScope(w, Listing(w, ev), ev)
  {}

  /** Each segment names the one account printed for it. */
  ghost predicate OneOfEach(a: Answer, s: Segments, ev: Evidence) {
    && a.Figures? && |a.lines| == 2 && IsFunds(a.lines[0]) && IsCard(a.lines[1])
    && TheOneNamed(Tokens(s.funds), Funds(ev.accounts), a.lines[0])
    && TheOneNamed(Tokens(s.card), Cards(ev.accounts), a.lines[1])
    && a.verdict == EachOnItsOwn && a.note == Note(None, ev.partial)
  }

  lemma MixedShape(text: string, ev: Evidence)
    requires MixedAnswer(text, ev).Figures?
    ensures SplitMixed(text).Some? && OneOfEach(MixedAnswer(text, ev), SplitMixed(text).value, ev)
  {
    var s := SplitMixed(text).value;
    ResolvedInSegment(Tokens(s.funds), Funds(ev.accounts));
    ResolvedInSegment(Tokens(s.card), Cards(ev.accounts));
  }

  lemma CardInScope(said: set<string>, w: Wording, ev: Evidence)
    requires w.CardQuestion()
    ensures InScope(w, CardAnswer(said, w, ev), ev)
  {
    var cards := Cards(ev.accounts);
    if NamedAnswer(said, cards, cards, CARD_NOUN, ev).Figures? { NamedShape(said, cards, cards, CARD_NOUN, ev); }
  }

  lemma AccountInScope(said: set<string>, w: Wording, ev: Evidence)
    requires (w.withoutCard ==> w.explicit) && !w.CardQuestion()
    ensures InScope(w, AccountAnswer(said, w, ev), ev)
  {
    var pool := NamePool(w, ev);
    ListingInScope(w, ev);
    if NamedAnswer(said, pool, ev.accounts, ACCOUNT_NOUN, ev).Figures? { NamedShape(said, pool, ev.accounts, ACCOUNT_NOUN, ev); }
  }

  lemma DecideInScope(w: Wording, text: string, said: set<string>, ev: Evidence)
    requires w.withoutCard ==> w.explicit
    ensures InScope(w, Decide(w, text, said, ev), ev)
  {
    if w.CardQuestion() && w.funds {
      if MixedAnswer(text, ev).Figures? { MixedShape(text, ev); }
    } else if w.CardQuestion() {
      CardInScope(said, w, ev);
    } else {
      AccountInScope(said, w, ev);
    }
  }

  // Figures never cross scope: every line is an account of the evidence; a card question
  // without a funds word prints cards only; one that excludes cards prints bank and cash
  // accounts only.
  lemma FiguresStayInScope(text: string, ev: Evidence)
    ensures InScope(Read(text), RenderAccountsAnswer(text, Some(ev)), ev)
  {
    ExclusionIsExplicit(text);
    DecideInScope(Read(text), text, Tokens(text), ev);
  }

  // A question about both an account and a card prints one bank or cash line and one card
  // line or nothing: each is the one account its own segment names, and the two segments
  // and one separator rebuild the question, with no token of their own.
  lemma MixedNamesOneOfEach(text: string, ev: Evidence)
    requires Read(text).CardQuestion() && Read(text).funds && RenderAccountsAnswer(text, Some(ev)).Figures?
    ensures SplitMixed(text).Some?
    ensures var s := SplitMixed(text).value;
            && OneOfEach(RenderAccountsAnswer(text, Some(ev)), s, ev)
            && IsFundsSegment(s.funds) && IsCardSegment(s.card)
            && (Rebuilds(Trim(Collapse(text)), s.funds, s.card) || Rebuilds(Trim(Collapse(text)), s.card, s.funds))
            && Tokens(s.funds) <= Tokens(text) && Tokens(s.card) <= Tokens(text)
    ensures forall l :: l in RenderAccountsAnswer(text, Some(ev)).lines ==> FullyNamed(Tokens(text), l)
  {
    MixedShape(text, ev);
    SegmentsRebuildTheQuestion(text);
    SegmentTokens(text);
  }

  // ----- names

  /** Where a question that is not about both looks for names. */
  function Pool(w: Wording, ev: Evidence): seq<Account> {
    if w.CardQuestion() then Cards(ev.accounts) else NamePool(w, ev)
  }

  /** Named in full, or nothing but generic words. */
  ghost predicate Earned(w: Wording, said: set<string>, a: Answer, ev: Evidence) {
    a.Figures? ==>
      if MatchByName(said, Pool(w, ev)) != [] then
        && (forall l :: l in a.lines ==> l in Pool(w, ev) && FullyNamed(said, l))
        && (|a.lines| == 1 ==> TheOneNamed(said, Pool(w, ev), a.lines[0]))
      else
        forall token :: token in said ==> IsGenericBalanceWord(token)
  }

  lemma CardEarned(said: set<string>, w: Wording, ev: Evidence)
    requires w.CardQuestion()
    ensures Earned(w, said, CardAnswer(said, w, ev), ev)
  {
    var cards := Cards(ev.accounts);
    if NamedAnswer(said, cards, cards, CARD_NOUN, ev).Figures? { NamedShape(said, cards, cards, CARD_NOUN, ev); }
    if CardAnswer(said, w, ev).Figures? && MatchByName(said, cards) == [] {
      forall token | token in said ensures IsGenericBalanceWord(token) { assert IsGenericCardWord(token); }
    }
  }

  lemma AccountEarned(said: set<string>, w: Wording, ev: Evidence)
    requires !w.CardQuestion()
    ensures Earned(w, said, AccountAnswer(said, w, ev), ev)
  {
    var pool := NamePool(w, ev);
    if NamedAnswer(said, pool, ev.accounts, ACCOUNT_NOUN, ev).Figures? { NamedShape(said, pool, ev.accounts, ACCOUNT_NOUN, ev); }
  }

  // Figures are earned. Either some name matched and every line is an account the
  // question names in full, a single one leaving nothing specific unmatched and every
  // other full name inside its own; or the question holds generic words only.
  lemma FiguresAreEarned(text: string, ev: Evidence)
    requires !(Read(text).CardQuestion() && Read(text).funds)
    ensures Earned(Read(text), Tokens(text), RenderAccountsAnswer(text, Some(ev)), ev)
  {
    if Read(text).CardQuestion() { CardEarned(Tokens(text), Read(text), ev); } else { AccountEarned(Tokens(text), Read(text), ev); }
  }

  /** Answers that say an account or a card was not found. */
  predicate SaysNotFound(a: Answer) { a.Clarify? && (a.reason == CardNotFound || a.reason == AccountNotFound) }

  lemma SelectedNotFound(said: set<string>, sel: Selection, poolSize: nat, shown: seq<Account>, noun: Noun, ev: Evidence)
    requires noun == CARD_NOUN || noun == ACCOUNT_NOUN
    requires SaysNotFound(SelectedAnswer(said, sel, poolSize, shown, noun, ev))
    ensures |sel.candidates| == 1 && sel.candidates == [sel.candidates[0]]
    ensures HasUnmatchedQualifier(said, sel.candidates[0]) || !FullyNamed(said, sel.candidates[0])
  {}

  lemma NamedNotFound(said: set<string>, pool: seq<Account>, shown: seq<Account>, noun: Noun, ev: Evidence, x: Account)
    requires noun == CARD_NOUN || noun == ACCOUNT_NOUN
    requires SaysNotFound(NamedAnswer(said, pool, shown, noun, ev)) && x in pool && NamedInFull(said, x)
    ensures HasUnmatchedQualifier(said, x)
  {
    var sel := SelectMostSpecific(said, MatchByName(said, pool));
    SelectedNotFound(said, sel, |pool|, shown, noun, ev);
    RefusedAlone(said, pool, sel.candidates[0], x);
  }

  // "Not found" is honest: every account of the pool that the question names in full
  // lacks some specific word the question also says.
  lemma NotFoundIsHonest(text: string, ev: Evidence, x: Account)
    requires !(Read(text).CardQuestion() && Read(text).funds) && x in Pool(Read(text), ev)
    requires SaysNotFound(RenderAccountsAnswer(text, Some(ev))) && NamedInFull(Tokens(text), x)
    ensures HasUnmatchedQualifier(Tokens(text), x)
  {
    var w, said := Read(text), Tokens(text);
    FullNameMatches(said, x);
    MatchIsKept(said, Pool(w, ev), x);
    if w.CardQuestion() {
      NamedNotFound(said, Cards(ev.accounts), Cards(ev.accounts), CARD_NOUN, ev, x);
    } else {
      NamedNotFound(said, NamePool(w, ev), ev.accounts, ACCOUNT_NOUN, ev, x);
    }
  }

  // The converse of an earned single answer: a balance question that names one account,
  // in full and with nothing left over, is answered with that account and no other.
  lemma TheOneNamedIsAnswered(text: string, ev: Evidence, x: Account)
    requires Read(text).balance && !Read(text).subtype && !(Read(text).CardQuestion() && Read(text).funds)
    requires TheOneNamed(Tokens(text), Pool(Read(text), ev), x) && NamedInFull(Tokens(text), x)
    requires multiset(Pool(Read(text), ev))[x] == 1
    ensures RenderAccountsAnswer(text, Some(ev)) == Line(x, |Pool(Read(text), ev)|, ev)
  {
    TheOneNamedIsDecided(Read(text), text, Tokens(text), ev, x);
  }

  lemma TheOneNamedIsDecided(w: Wording, text: string, said: set<string>, ev: Evidence, x: Account)
    requires w.balance && !w.subtype && !(w.CardQuestion() && w.funds)
    requires TheOneNamed(said, Pool(w, ev), x) && NamedInFull(said, x) && multiset(Pool(w, ev))[x] == 1
    ensures Decide(w, text, said, ev) == Line(x, |Pool(w, ev)|, ev)
  {
    var pool := Pool(w, ev);
    FullNameMatches(said, x);
    MatchIsKept(said, pool, x);
    TheOneNamedIsChosen(said, pool, x);
    OneLine(said, pool, if w.CardQuestion() then pool else ev.accounts, if w.CardQuestion() then CARD_NOUN else ACCOUNT_NOUN, ev, x);
    if w.CardQuestion() { assert x in Cards(ev.accounts); }
  }

  lemma OneLine(said: set<string>, pool: seq<Account>, shown: seq<Account>, noun: Noun, ev: Evidence, x: Account)
    requires SelectMostSpecific(said, MatchByName(said, pool)).candidates == [x] && TheOneNamed(said, pool, x)
    ensures NamedAnswer(said, pool, shown, noun, ev) == Line(x, |pool|, ev)
  {}

  // ----- disclosure

  /** The question is not about this account: by kind, or because names were given and this is not one. */
  ghost predicate NotAskedFor(w: Wording, said: set<string>, ev: Evidence, x: Account) {
    || (w.CardQuestion() && !IsCard(x))
    || (!w.CardQuestion() && w.FundsScoped() && IsCard(x))
    || (MatchByName(said, Pool(w, ev)) != [] && !(x in Pool(w, ev) && Matches(said, x)))
  }

  ghost predicate Disclosed(w: Wording, said: set<string>, a: Answer, ev: Evidence, x: Account) {
    a.Figures? ==>
      && a.note.incomplete == ev.partial
      && (x in a.lines || a.note.of.Some? || (IsUnknown(x) && a.unknownOutOfScope) || NotAskedFor(w, said, ev, x))
  }

  lemma ListingDiscloses(w: Wording, ev: Evidence, x: Account)
    requires x in ev.accounts
    ensures var a := Listing(w, ev);
            && a.note.incomplete == ev.partial
            && (x in a.lines || a.note.of.Some? || (w.FundsScoped() && !IsFunds(x) && (IsUnknown(x) ==> a.unknownOutOfScope)))
  {}

  lemma CardDiscloses(said: set<string>, w: Wording, ev: Evidence, x: Account)
    requires w.CardQuestion() && x in ev.accounts
    ensures Disclosed(w, said, CardAnswer(said, w, ev), ev, x)
  {
    var cards := Cards(ev.accounts);
    if NamedAnswer(said, cards, cards, CARD_NOUN, ev).Figures? { NamedShape(said, cards, cards, CARD_NOUN, ev); }
  }

  lemma AccountDiscloses(said: set<string>, w: Wording, ev: Evidence, x: Account)
    requires !w.CardQuestion() && x in ev.accounts
    ensures Disclosed(w, said, AccountAnswer(said, w, ev), ev, x)
  {
    var pool := NamePool(w, ev);
    ListingDiscloses(w, ev, x);
    if NamedAnswer(said, pool, ev.accounts, ACCOUNT_NOUN, ev).Figures? { NamedShape(said, pool, ev.accounts, ACCOUNT_NOUN, ev); }
  }

  /** Neither segment of a question about both names this account. */
  ghost predicate NamedByNoSegment(text: string, ev: Evidence, x: Account) {
    && SplitMixed(text).Some?
    && var s := SplitMixed(text).value;
       && !(NamedInFull(Tokens(s.funds), x) && TheOneNamed(Tokens(s.funds), Funds(ev.accounts), x))
       && !(NamedInFull(Tokens(s.card), x) && TheOneNamed(Tokens(s.card), Cards(ev.accounts), x))
  }

  lemma MixedDiscloses(text: string, ev: Evidence, x: Account)
    requires MixedAnswer(text, ev).Figures?
    ensures var a := MixedAnswer(text, ev);
            a.note.incomplete == ev.partial && (x in a.lines || NamedByNoSegment(text, ev, x))
  {
    var a, s := MixedAnswer(text, ev), SplitMixed(text).value;
    MixedShape(text, ev);
    if NamedInFull(Tokens(s.funds), x) && TheOneNamed(Tokens(s.funds), Funds(ev.accounts), x) {
      NoOtherResolved(Tokens(s.funds), Funds(ev.accounts), x);
      assert x == a.lines[0];
    }
    if NamedInFull(Tokens(s.card), x) && TheOneNamed(Tokens(s.card), Cards(ev.accounts), x) {
      NoOtherResolved(Tokens(s.card), Cards(ev.accounts), x);
      assert x == a.lines[1];
    }
  }

  // No silent omission: an answer with figures says whether the read was incomplete, and
  // every account of the evidence is printed, or counted in a "showing X of N" note, or
  // said to be of unconfirmed kind and out of scope, or was not asked for; in a question
  // about both an account and a card, it is printed or named by neither segment.
  lemma NothingHidden(text: string, ev: Evidence, x: Account)
    requires x in ev.accounts
    ensures var a, w := RenderAccountsAnswer(text, Some(ev)), Read(text);
            if w.CardQuestion() && w.funds then
              a.Figures? ==> a.note.incomplete == ev.partial && (x in a.lines || NamedByNoSegment(text, ev, x))
            else
              Disclosed(w, Tokens(text), a, ev, x)
  {
    if Read(text).CardQuestion() && Read(text).funds {
      if MixedAnswer(text, ev).Figures? { MixedDiscloses(text, ev, x); }
    } else if Read(text).CardQuestion() { CardDiscloses(Tokens(text), Read(text), ev, x); } else { AccountDiscloses(Tokens(text), Read(text), ev, x); }
  }

  // ----- clarifications

  /** The names of at most the first twenty of a list of accounts, with its length if some are not named. */
  ghost predicate NamesOf(a: Answer, among: seq<Account>, ev: Evidence) {
    && a.Clarify? && (forall x :: x in among ==> x in ev.accounts)
    && a.names == Labels(Listed(among)) && |a.names| <= MAX_LISTED_ACCOUNTS
    && (a.note.of == if |among| > |a.names| then Some(|among|) else None)
    && (ev.accounts != [] ==> a.note.incomplete == ev.partial)
  }

  ghost predicate WellAsked(a: Answer, ev: Evidence) { a.Clarify? ==> exists among :: NamesOf(a, among, ev) }

  lemma {:induction false} OneLabelEach(accounts: seq<Account>)
    ensures |Labels(accounts)| == |accounts|
  {
    if accounts != [] { OneLabelEach(accounts[1..]); }
  }

  lemma AskNames(reason: Reason, among: seq<Account>, ev: Evidence)
    requires forall x :: x in among ==> x in ev.accounts
    ensures WellAsked(Ask(reason, among, ev), ev)
  {
    OneLabelEach(Listed(among));
    assert NamesOf(Ask(reason, among, ev), among, ev);
  }

  lemma SelectedAsks(said: set<string>, sel: Selection, poolSize: nat, shown: seq<Account>, noun: Noun, ev: Evidence)
    requires forall x :: x in shown + sel.candidates ==> x in ev.accounts
    ensures WellAsked(SelectedAnswer(said, sel, poolSize, shown, noun, ev), ev)
  {
    assert forall x :: x in shown ==> x in shown + sel.candidates;
    AskNames(noun.notFound, shown, ev);
    AskNames(noun.which, shown, ev);
    AskNames(noun.which, sel.candidates, ev);
    AskNames(noun.sameName, sel.candidates, ev);
  }

  lemma NamedAsks(said: set<string>, pool: seq<Account>, shown: seq<Account>, noun: Noun, ev: Evidence)
    requires forall x :: x in pool + shown ==> x in ev.accounts
    ensures WellAsked(NamedAnswer(said, pool, shown, noun, ev), ev)
  {
    var sel := SelectMostSpecific(said, MatchByName(said, pool));
    forall x | x in shown + sel.candidates ensures x in ev.accounts {
      if x in sel.candidates { CandidatesMatch(said, pool, x); }
      assert x in pool + shown;
    }
    SelectedAsks(said, sel, |pool|, shown, noun, ev);
  }

  lemma NoNames(reason: Reason, ev: Evidence)
    requires ev.accounts == []
    ensures WellAsked(Clarify(reason, [], Note(None, false)), ev)
  {
    assert NamesOf(Clarify(reason, [], Note(None, false)), [], ev);
  }

  lemma CardAsks(said: set<string>, w: Wording, ev: Evidence)
    ensures WellAsked(CardAnswer(said, w, ev), ev)
  {
    var cards := Cards(ev.accounts);
    NamedAsks(said, cards, cards, CARD_NOUN, ev);
    AskNames(NoCardEvidence, ev.accounts, ev);
    AskNames(CardNotFound, cards, ev);
    if ev.accounts == [] { NoNames(NoCardEvidenceAtAll, ev); }
  }

  lemma AccountAsks(said: set<string>, w: Wording, ev: Evidence)
    ensures WellAsked(AccountAnswer(said, w, ev), ev)
  {
    NamedAsks(said, NamePool(w, ev), ev.accounts, ACCOUNT_NOUN, ev);
    AskNames(AccountNotFound, ev.accounts, ev);
    if ev.accounts == [] { NoNames(NoAccounts, ev); }
  }

  lemma MixedAsks(text: string, ev: Evidence)
    ensures WellAsked(MixedAnswer(text, ev), ev)
  {
    AskNames(WhichOfBoth, ev.accounts, ev);
  }

  // Every clarification names accounts of the evidence only, at most twenty of a list
  // whose length it tells if it is longer, and says whether the read was incomplete.
  lemma ClarificationsDisclose(text: string, ev: Evidence)
    ensures WellAsked(RenderAccountsAnswer(text, Some(ev)), ev)
  {
    DecideAsks(Read(text), text, Tokens(text), ev);
  }

  lemma DecideAsks(w: Wording, text: string, said: set<string>, ev: Evidence)
    ensures WellAsked(Decide(w, text, said, ev), ev)
  {
    if w.balance && w.subtype { AskNames(UnsupportedSubtype, ev.accounts, ev); }
    else if w.CardQuestion() && w.funds { MixedAsks(text, ev); }
    else if w.CardQuestion() { CardAsks(said, w, ev); }
    else { AccountAsks(said, w, ev); }
  }
}
