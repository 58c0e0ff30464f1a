/**
 * Words of a question that an answer with figures leaves unanswered: a question that
 * names one account and something else is refused, one that names several is not.
 */
module GroundingLeftovers {
  import opened Common
  import opened GroundingText
  import opened Grounding
  import opened GroundingNames
  import opened GroundingAnswers
  import opened GroundingSentences
  import opened GroundingWitnesses

  /** A specific word is said that none of the lines carries in its name. */
  predicate LeavesOver(said: set<string>, lines: seq<Account>) {
    exists token :: token in said && !IsGenericBalanceWord(token) && forall l :: l in lines ==> token !in Tokens(l.key)
  }

  /** Several accounts match, each named in full, no name inside another, and not all of one name. */
  predicate SeveralNamed(said: set<string>, matches: seq<Account>) {
    && |matches| > 1 && (forall a :: a in matches ==> FullyNamed(said, a))
    && (forall a, b :: a in matches && b in matches ==> !LessSpecific(a, b))
    && |set a | a in matches :: a.key| != 1
  }

  lemma {:induction false} FilterAll<T(!new)>(xs: seq<T>, p: T -> bool)
    requires forall x :: x in xs ==> p(x)
    ensures Filter(xs, p) == xs
  {
    if xs != [] {
      assert xs == [xs[0]] + xs[1..];
      FilterAll(xs[1..], p);
    }
  }

  /** Several named accounts are all kept. */
  lemma SeveralKept(said: set<string>, matches: seq<Account>)
    requires SeveralNamed(said, matches)
    ensures SelectMostSpecific(said, matches) == Selection(matches, false)
  {
    var fully := Filter(matches, (a: Account) => FullyNamed(said, a));
    FilterAll(matches, (a: Account) => FullyNamed(said, a));
    FilterAll(fully, (a: Account) => !exists b :: b in fully && LessSpecific(a, b));
  }

  /** Where several are kept, all named in full, none was dropped, so none lies inside another. */
  lemma KeptAreSeveral(said: set<string>, matches: seq<Account>)
    requires var sel := SelectMostSpecific(said, matches);
             && !sel.narrowed && |sel.candidates| > 1 && (forall a :: a in sel.candidates ==> FullyNamed(said, a))
             && |set a | a in sel.candidates :: a.key| != 1
    ensures SeveralNamed(said, matches) && SelectMostSpecific(said, matches).candidates == matches
  {
    var fully := Filter(matches, (a: Account) => FullyNamed(said, a));
    var maximal := (a: Account) => !exists b :: b in fully && LessSpecific(a, b);
    assert SelectMostSpecific(said, matches).candidates == Filter(fully, maximal);
    FilterKeepsLength(matches, (a: Account) => FullyNamed(said, a));
    FilterKeepsLength(fully, maximal);
    forall a, b | a in matches && b in matches ensures !LessSpecific(a, b) { assert maximal(a); }
  }

  lemma SeveralPrinted(said: set<string>, pool: seq<Account>, shown: seq<Account>, noun: Noun, ev: Evidence)
    requires SeveralNamed(said, MatchByName(said, pool))
    ensures NamedAnswer(said, pool, shown, noun, ev) == Lines(MatchByName(said, pool), EachOnItsOwn, ev)
  {
    SeveralKept(said, MatchByName(said, pool));
  }

  lemma SoleLeavesNothing(said: set<string>, sel: Selection, poolSize: nat, shown: seq<Account>, noun: Noun, ev: Evidence)
    requires |sel.candidates| == 1 && SelectedAnswer(said, sel, poolSize, shown, noun, ev).Figures?
    ensures !LeavesOver(said, SelectedAnswer(said, sel, poolSize, shown, noun, ev).lines)
  {
    var a := sel.candidates[0];
    assert SelectedAnswer(said, sel, poolSize, shown, noun, ev).lines == [a] && !HasUnmatchedQualifier(said, a);
    assert a in [a];
  }

  /** When several survivors are printed. */
  lemma ManyPrinted(said: set<string>, sel: Selection, poolSize: nat, shown: seq<Account>, noun: Noun, ev: Evidence)
    requires |sel.candidates| != 1 && SelectedAnswer(said, sel, poolSize, shown, noun, ev).Figures?
    ensures !sel.narrowed && |sel.candidates| > 1 && (forall a :: a in sel.candidates ==> FullyNamed(said, a))
    ensures |set a | a in sel.candidates :: a.key| != 1
  {}

  lemma FewLeaveNothing(said: set<string>, pool: seq<Account>, shown: seq<Account>, noun: Noun, ev: Evidence)
    requires !SeveralNamed(said, MatchByName(said, pool)) && NamedAnswer(said, pool, shown, noun, ev).Figures?
    ensures !LeavesOver(said, NamedAnswer(said, pool, shown, noun, ev).lines)
  {
    var sel := SelectMostSpecific(said, MatchByName(said, pool));
    if |sel.candidates| == 1 {
      SoleLeavesNothing(said, sel, |pool|, shown, noun, ev);
    } else {
      ManyPrinted(said, sel, |pool|, shown, noun, ev);
      KeptAreSeveral(said, MatchByName(said, pool));
    }
  }

  lemma NamedLeavesOver(said: set<string>, pool: seq<Account>, shown: seq<Account>, noun: Noun, ev: Evidence)
    ensures var a, matches := NamedAnswer(said, pool, shown, noun, ev), MatchByName(said, pool);
            a.Figures? && LeavesOver(said, a.lines) <==> SeveralNamed(said, matches) && LeavesOver(said, Listed(matches))
  {
    if SeveralNamed(said, MatchByName(said, pool)) {
      SeveralPrinted(said, pool, shown, noun, ev);
    } else if NamedAnswer(said, pool, shown, noun, ev).Figures? {
      FewLeaveNothing(said, pool, shown, noun, ev);
    }
  }

  // Of a question that is not about both an account and a card, an answer with figures
  // leaves a specific word over exactly when several accounts are named side by side and
  // the word is in none of the names listed: then it is ignored, whatever it asks for.
  lemma LeftOverExactly(text: string, ev: Evidence)
    requires !(Read(text).CardQuestion() && Read(text).funds)
    ensures var a, w, said := RenderAccountsAnswer(text, Some(ev)), Read(text), Tokens(text);
            var matches := MatchByName(said, Pool(w, ev));
            a.Figures? && LeavesOver(said, a.lines) <==>
              w.balance && !w.subtype && SeveralNamed(said, matches) && LeavesOver(said, Listed(matches))
  {
    var w, said := Read(text), Tokens(text);
    FiguresAreEarned(text, ev);
    if w.CardQuestion() {
      NamedLeavesOver(said, Cards(ev.accounts), Cards(ev.accounts), CARD_NOUN, ev);
    } else {
      NamedLeavesOver(said, NamePool(w, ev), ev.accounts, ACCOUNT_NOUN, ev);
    }
  }

  // ----- a word ignored, and the same word refused

  const ITAU := Account("Ita\U{fa}", "itau", Bank, 200)

  const TWO_AND_ANOTHER := ["saldo", "itau", "nubank", "xp"]
  const ONE_AND_ANOTHER := ["saldo", "nubank", "xp"]

  lemma NotGenericFirst(v: string)
    requires v in {"itau", "nubank", "xp"}
    ensures v !in AMOUNT_WORDS && v !in ASKING_WORDS && v !in POINTING_WORDS
  {}

  lemma NotGenericLast(v: string)
    requires v in {"itau", "nubank", "xp"}
    ensures v !in LINKING_WORDS && v !in PERSON_WORDS && v !in FILLER_WORDS && v !in EXTRA_GENERIC_BALANCE_WORDS
  {}

  lemma NotGeneric(v: string)
    requires v in {"itau", "nubank", "xp"}
    ensures !IsGenericBalanceWord(v)
  {
    NotGenericFirst(v);
    NotGenericLast(v);
  }

  /** An account of one specific word, in a sentence that says it. */
  lemma OneWordNamed(words: seq<string>, a: Account, name: string)
    requires AllPlain(words) && name in words
    requires IsPlainWord(name) && |name| > 2 && a.key == Sentence([name]) && !IsGenericBalanceWord(name)
    ensures Tokens(a.key) == {name} && Matches(Tokens(Sentence(words)), a) && FullyNamed(Tokens(Sentence(words)), a)
  {
    TokensOfSentence(words);
    TokensOfSentence([name]);
    assert forall v :: v in [name] <==> v == name;
    assert Tokens(a.key) == {name};
    var long := set token | token in Tokens(a.key) && |token| > 2;
    assert name in long && long == {name};
  }

  lemma TheNames()
    ensures IsPlainWord("itau") && |"itau"| > 2 && ITAU.key == "itau"
    ensures IsPlainWord("nubank") && |"nubank"| > 2 && NUBANK.key == "nubank"
    ensures "itau" != "nubank" && "itau" != "xp" && "nubank" != "xp" && ITAU != NUBANK
  {}

  lemma SentencesPlain()
    ensures AllPlain(TWO_AND_ANOTHER) && AllPlain(ONE_AND_ANOTHER)
  {}

  lemma SentencesName()
    ensures "itau" in TWO_AND_ANOTHER && "nubank" in TWO_AND_ANOTHER && "xp" in TWO_AND_ANOTHER
    ensures "nubank" in ONE_AND_ANOTHER && "xp" in ONE_AND_ANOTHER && |"xp"| > 1
  {}

  /** The part of the wording that decides here. */
  predicate PlainBalance(w: Wording) { w.balance && !w.subtype && !w.card && !w.FundsScoped() }

  lemma PlainBalanceOf(words: seq<string>)
    requires AllPlain(words) && "saldo" in words && "sem" !in words
    requires !Says(words, SUBTYPE_WORDS) && !Says(words, CARD_WORDS) && !Says(words, FUNDS_WORDS)
    ensures PlainBalance(Read(Sentence(words)))
  {
    SaysOne(words, {"saldo", "saldos"}, "saldo");
    NoPhrases(words);
    ReadSentence(words);
  }

  lemma SentencesSayNoKind()
    ensures "saldo" in TWO_AND_ANOTHER && "sem" !in TWO_AND_ANOTHER
    ensures !Says(TWO_AND_ANOTHER, SUBTYPE_WORDS) && !Says(TWO_AND_ANOTHER, CARD_WORDS) && !Says(TWO_AND_ANOTHER, FUNDS_WORDS)
  {}

  lemma OtherSentenceSaysNoKind()
    ensures "saldo" in ONE_AND_ANOTHER && "sem" !in ONE_AND_ANOTHER
    ensures !Says(ONE_AND_ANOTHER, SUBTYPE_WORDS) && !Says(ONE_AND_ANOTHER, CARD_WORDS) && !Says(ONE_AND_ANOTHER, FUNDS_WORDS)
  {}

  lemma BothMatch(said: set<string>, a: Account, b: Account)
    requires Matches(said, a) && Matches(said, b)
    ensures MatchByName(said, [a, b]) == [a, b]
  {
    FilterAll([a, b], (x: Account) => Matches(said, x));
  }

  lemma TwoSideBySide(said: set<string>, a: Account, b: Account, v: string, u: string)
    requires Tokens(a.key) == {v} && Tokens(b.key) == {u} && v in said && u in said && a.key != b.key
    ensures SeveralNamed(said, [a, b])
  {
    var keys := set x | x in [a, b] :: x.key;
    assert a in [a, b] && b in [a, b];
    assert a.key in keys && b.key in keys;
    if |keys| == 1 { OneElement(keys, a.key, b.key); }
  }

  lemma OneElement(xs: set<string>, x: string, y: string)
    requires |xs| == 1 && x in xs && y in xs
    ensures x == y
  {
    if x != y { SubsetSmaller({x}, xs); }
  }

  lemma SideBySide(text: string, said: set<string>, a: Account, b: Account, v: string, u: string, ev: Evidence, other: string)
    requires PlainBalance(Read(text)) && said == Tokens(text) && other in said && !IsGenericBalanceWord(other)
    requires ev.accounts == [a, b] && SeveralNamed(said, [a, b]) && MatchByName(said, [a, b]) == [a, b]
    requires Tokens(a.key) == {v} && Tokens(b.key) == {u} && other != v && other != u
    ensures RenderAccountsAnswer(text, Some(ev)) == Lines([a, b], EachOnItsOwn, ev) && LeavesOver(said, [a, b])
  {
    SeveralPrinted(said, ev.accounts, ev.accounts, ACCOUNT_NOUN, ev);
  }

  lemma SecondMatches(said: set<string>, a: Account, b: Account)
    requires !Matches(said, a) && Matches(said, b)
    ensures MatchByName(said, [a, b]) == [b]
  {
    var p := (x: Account) => Matches(said, x);
    assert [a, b][1..] == [b] && [b][1..] == [];
    assert Filter([b], p) == [b] + Filter([], p);
  }

  lemma OneAlone(text: string, said: set<string>, a: Account, b: Account, ev: Evidence, other: string)
    requires PlainBalance(Read(text)) && said == Tokens(text) && other in said && !IsGenericBalanceWord(other)
    requires ev.accounts == [a, b] && MatchByName(said, [a, b]) == [b] && other !in Tokens(b.key)
    ensures RenderAccountsAnswer(text, Some(ev)) == Ask(AccountNotFound, ev.accounts, ev)
  {
    assert HasUnmatchedQualifier(said, b);
    assert SelectMostSpecific(said, [b]).candidates == [b];
    assert NamedAnswer(said, ev.accounts, ev.accounts, ACCOUNT_NOUN, ev) == Ask(AccountNotFound, ev.accounts, ev);
  }

  lemma ReadTwo()
    ensures AllPlain(TWO_AND_ANOTHER) && PlainBalance(Read(Sentence(TWO_AND_ANOTHER)))
  {
    SentencesPlain();
    SentencesSayNoKind();
    PlainBalanceOf(TWO_AND_ANOTHER);
  }

  lemma ReadOne()
    ensures AllPlain(ONE_AND_ANOTHER) && PlainBalance(Read(Sentence(ONE_AND_ANOTHER)))
  {
    SentencesPlain();
    OtherSentenceSaysNoKind();
    PlainBalanceOf(ONE_AND_ANOTHER);
  }

  lemma BothNamed(itau: string, nubank: string, words: seq<string>)
    requires itau == "itau" && nubank == "nubank" && words == TWO_AND_ANOTHER
    ensures var said := Tokens(Sentence(words));
            && MatchByName(said, [ITAU, NUBANK]) == [ITAU, NUBANK] && SeveralNamed(said, [ITAU, NUBANK])
            && Tokens(ITAU.key) == {itau} && Tokens(NUBANK.key) == {nubank}
  {
    TheNames();
    SentencesPlain();
    SentencesName();
    NotGeneric(itau);
    NotGeneric(nubank);
    OneWord(itau);
    OneWord(nubank);
    OneWordNamed(words, ITAU, itau);
    OneWordNamed(words, NUBANK, nubank);
    BothMatch(Tokens(Sentence(words)), ITAU, NUBANK);
    TwoSideBySide(Tokens(Sentence(words)), ITAU, NUBANK, itau, nubank);
  }

  lemma OneNamed(itau: string, nubank: string, words: seq<string>)
    requires itau == "itau" && nubank == "nubank" && words == ONE_AND_ANOTHER
    ensures var said := Tokens(Sentence(words));
            MatchByName(said, [ITAU, NUBANK]) == [NUBANK] && Tokens(NUBANK.key) == {nubank}
  {
    TheNames();
    SentencesPlain();
    SentencesName();
    ItauUnsaid();
    NotGeneric(nubank);
    OneWord(itau);
    OneWord(nubank);
    UnsaidName(words, ITAU, itau);
    OneWordNamed(words, NUBANK, nubank);
    SecondMatches(Tokens(Sentence(words)), ITAU, NUBANK);
  }

  lemma ItauUnsaid()
    ensures "itau" !in ONE_AND_ANOTHER
  {}

  lemma AnotherIsSaid(words: seq<string>, other: string)
    requires AllPlain(words) && other in words && |other| > 1
    ensures other in Tokens(Sentence(words))
  {
    TokensOfSentence(words);
  }

  lemma OtherNames(itau: string, nubank: string, xp: string)
    requires itau == "itau" && nubank == "nubank" && xp == "xp"
    ensures xp != itau && xp != nubank && !IsGenericBalanceWord(xp) && |xp| > 1
    ensures xp in TWO_AND_ANOTHER && xp in ONE_AND_ANOTHER
  {
    TheNames();
    NotGeneric(xp);
    SentencesName();
  }

  lemma RefusedBeside(ev: Evidence, itau: string, nubank: string, xp: string, one: string)
    requires ev == Evidence([ITAU, NUBANK], 0, false) && itau == "itau" && nubank == "nubank" && xp == "xp"
    requires one == Sentence(ONE_AND_ANOTHER)
    ensures RenderAccountsAnswer(one, Some(ev)) == Ask(AccountNotFound, ev.accounts, ev)
  {
    ReadOne();
    OtherNames(itau, nubank, xp);
    AnotherIsSaid(ONE_AND_ANOTHER, xp);
    OneNamed(itau, nubank, ONE_AND_ANOTHER);
    OneAlone(one, Tokens(one), ITAU, NUBANK, ev, xp);
  }

  lemma PrintedTogether(ev: Evidence, itau: string, nubank: string, xp: string, two: string)
    requires ev == Evidence([ITAU, NUBANK], 0, false) && itau == "itau" && nubank == "nubank" && xp == "xp"
    requires two == Sentence(TWO_AND_ANOTHER)
    ensures RenderAccountsAnswer(two, Some(ev)) == Lines(ev.accounts, EachOnItsOwn, ev)
    ensures xp in Tokens(two) && LeavesOver(Tokens(two), ev.accounts)
  {
    ReadTwo();
    OtherNames(itau, nubank, xp);
    AnotherIsSaid(TWO_AND_ANOTHER, xp);
    BothNamed(itau, nubank, TWO_AND_ANOTHER);
    SideBySide(two, Tokens(two), ITAU, NUBANK, itau, nubank, ev, xp);
  }

  // Asked for Nubank and XP where XP is unknown, the answer is that the account was not
  // found. Asked for Itau, Nubank and XP, it prints the two and passes over the third.
  lemma TwoNamesHideAThird(ev: Evidence, xp: string, one: string, two: string)
    requires ev == Evidence([ITAU, NUBANK], 0, false) && xp == "xp"
    requires one == Sentence(ONE_AND_ANOTHER) && two == Sentence(TWO_AND_ANOTHER)
    ensures RenderAccountsAnswer(one, Some(ev)) == Ask(AccountNotFound, ev.accounts, ev)
    ensures RenderAccountsAnswer(two, Some(ev)) == Lines(ev.accounts, EachOnItsOwn, ev)
    ensures xp in Tokens(two) && LeavesOver(Tokens(two), ev.accounts)
  {
    RefusedBeside(ev, "itau", "nubank", xp, one);
    PrintedTogether(ev, "itau", "nubank", xp, two);
  }
}
