/**
 * When a total of the bank and cash accounts only is given: which words of a question
 * really bring it about, of those that are read as an explicit scope.
 */
module GroundingScopes {
  import opened Common
  import opened Text
  import opened GroundingText
  import opened GroundingTokens
  import opened Grounding
  import opened GroundingAnswers

  // ----- words that match are tokens

  /** A word of two or more letters and digits that matches is a token of the text. */
  lemma WordIsToken(t: string, w: string, i: int)
    requires WordAt(t, w, i) && |w| > 1 && forall k :: 0 <= k < |w| ==> IsTokenChar(w[k])
    ensures w in Tokens(t)
  {
    forall k | i <= k < i + |w| ensures IsTokenChar(t[k]) { LetterAt(t, w, i, k - i); }
    assert IsTokenRun(t, i, i + |w|) && t[i..i + |w|] == w;
  }

  lemma FoldedWordIsSaid(text: string, w: string, i: int)
    requires WordAt(Trim(Collapse(text)), w, i) && |w| > 1 && forall k :: 0 <= k < |w| ==> IsTokenChar(w[k])
    ensures w in Tokens(text)
  {
    WordIsToken(Trim(Collapse(text)), w, i);
    TokensOfTrimmed(Collapse(text));
    TokensOfCollapsed(text);
  }

  /** What matches in the trimmed text matches in the whole. */
  lemma TrimAddsNoWord(t: string, w: string, i: int)
    requires WordAt(Trim(t), w, i)
    ensures exists j: nat :: j <= |t| && WordAt(t, w, j)
  {
    var k := TrimmedPart(t);
    var n := |Trim(t)|;
    SubSlice(t, k, k + n, i, i + |w|);
    assert i > 0 ==> t[k + i - 1] == Trim(t)[i - 1];
    assert i + |w| < n ==> t[k + i + |w|] == Trim(t)[i + |w|];
    SpacesAreNoWords(t, k, n);
    assert WordAt(t, w, k + i);
  }

  lemma SpacesAreNoWords(t: string, k: nat, n: nat)
    requires k + n <= |t| && forall m :: 0 <= m < k || k + n <= m < |t| ==> IsSpace(t[m])
    ensures k > 0 ==> !IsWordChar(t[k - 1])
    ensures k + n < |t| ==> !IsWordChar(t[k + n])
  {}

  lemma TrimAddsNone(t: string, words: set<string>)
    requires HasWord(Trim(t), words)
    ensures HasWord(t, words)
  {
    var i :| 0 <= i <= |Trim(t)| && AnyWordAt(Trim(t), words, i);
    var w :| w in words && WordAt(Trim(t), w, i);
    TrimAddsNoWord(t, w, i);
    var j: nat :| j <= |t| && WordAt(t, w, j);
    assert AnyWordAt(t, words, j);
  }

  // ----- which scope words are vocabulary that names nothing

  /** Scope words that the generic vocabulary lacks: they are taken for part of a name. */
  const NAMELIKE_SCOPE_WORDS: set<string> := {"somente", "apenas", "exceto", "excluindo", "bancari", "dinheiro", "especie"}

  lemma NotAmongFirst(w: string)
    requires w in NAMELIKE_SCOPE_WORDS
    ensures w !in AMOUNT_WORDS && w !in ASKING_WORDS
  {}

  lemma NotAmongNext(w: string)
    requires w in NAMELIKE_SCOPE_WORDS
    ensures w !in POINTING_WORDS && w !in LINKING_WORDS
  {}

  lemma NotAmongLast(w: string)
    requires w in NAMELIKE_SCOPE_WORDS
    ensures w !in PERSON_WORDS && w !in FILLER_WORDS && w !in EXTRA_GENERIC_BALANCE_WORDS
  {}

  lemma NamelikeIsSpecific(w: string)
    requires w in NAMELIKE_SCOPE_WORDS
    ensures !IsGenericBalanceWord(w)
  {
    NotAmongFirst(w);
    NotAmongNext(w);
    NotAmongLast(w);
  }

  /** The scope words are these, the one generic word "so", and the subtypes. */
  lemma ScopeWordsAre()
    ensures ONLY_WORDS + EXCEPT_WORDS + KIND_WORDS == NAMELIKE_SCOPE_WORDS + {"so", "corrente", "poupanca"}
    ensures "corrente" in SUBTYPE_WORDS && "poupanca" in SUBTYPE_WORDS
  {}

  lemma ScopeWordIsPlain(w: string)
    requires w in NAMELIKE_SCOPE_WORDS || w == "so"
    ensures |w| > 1 && forall k :: 0 <= k < |w| ==> IsTokenChar(w[k])
  {}

  /** The word "so" stands between word boundaries. */
  predicate SaysSo(text: string) { HasWord(Trim(Collapse(text)), {"so"}) }

  lemma SoIsToken(text: string)
    requires SaysSo(text)
    ensures "so" in Tokens(text)
  {
    var t := Trim(Collapse(text));
    var i :| 0 <= i <= |t| && AnyWordAt(t, {"so"}, i);
    ScopeWordIsPlain("so");
    FoldedWordIsSaid(text, "so", i);
  }

  /** A scope word that matches is "so", or a subtype, or a word the question says specifically. */
  lemma ScopeWordMatched(text: string) returns (w: string)
    requires HasWord(Trim(Collapse(text)), ONLY_WORDS + EXCEPT_WORDS) || HasWord(Trim(Collapse(text)), KIND_WORDS)
    ensures (w in NAMELIKE_SCOPE_WORDS && w in Tokens(text)) || (w == "so" && SaysSo(text)) || Read(text).subtype
  {
    var t := Trim(Collapse(text));
    var i: int;
    if HasWord(t, KIND_WORDS) {
      i :| 0 <= i <= |t| && AnyWordAt(t, KIND_WORDS, i);
      w :| w in KIND_WORDS && WordAt(t, w, i);
    } else {
      i :| 0 <= i <= |t| && AnyWordAt(t, ONLY_WORDS + EXCEPT_WORDS, i);
      w :| w in ONLY_WORDS + EXCEPT_WORDS && WordAt(t, w, i);
    }
    ScopeWordsAre();
    assert w in NAMELIKE_SCOPE_WORDS + {"so", "corrente", "poupanca"};
    if w in NAMELIKE_SCOPE_WORDS {
      ScopeWordIsPlain(w);
      FoldedWordIsSaid(text, w, i);
    } else if w == "so" {
      assert AnyWordAt(t, {"so"}, i);
    } else {
      assert AnyWordAt(t, SUBTYPE_WORDS, i);
      TrimAddsNone(Collapse(text), SUBTYPE_WORDS);
    }
  }

  predicate SaysNothingSpecific(said: set<string>) { forall token :: token in said ==> IsGenericBalanceWord(token) }

  /** The scope is explicit by an exclusion of cards, or by the one word "so" where nothing broad is said. */
  predicate EffectiveScope(text: string) {
    Read(text).withoutCard || (!Read(text).broad && SaysSo(text))
  }

  lemma SplitExplicit(t: string)
    requires HasWord(t, ONLY_WORDS + EXCEPT_WORDS + NO_CARD_PHRASES)
    ensures HasWord(t, ONLY_WORDS + EXCEPT_WORDS) || HasWord(t, NO_CARD_PHRASES)
  {
    var i :| 0 <= i <= |t| && AnyWordAt(t, ONLY_WORDS + EXCEPT_WORDS + NO_CARD_PHRASES, i);
    var w :| w in ONLY_WORDS + EXCEPT_WORDS + NO_CARD_PHRASES && WordAt(t, w, i);
    if w in NO_CARD_PHRASES { assert AnyWordAt(t, NO_CARD_PHRASES, i); } else { assert AnyWordAt(t, ONLY_WORDS + EXCEPT_WORDS, i); }
  }

  lemma SoIsExplicit(text: string)
    requires !Read(text).broad && SaysSo(text)
    ensures Read(text).explicit
  {
    var t := Trim(Collapse(text));
    var i :| 0 <= i <= |t| && AnyWordAt(t, {"so"}, i);
    assert WordAt(t, "so", i) && "so" in ONLY_WORDS + EXCEPT_WORDS + NO_CARD_PHRASES;
    assert AnyWordAt(t, ONLY_WORDS + EXCEPT_WORDS + NO_CARD_PHRASES, i);
  }

  // Of a question that says nothing specific, of the ten scope words only "so" is left:
  // its scope is explicit exactly by excluding cards or by that word.
  lemma GenericScopeExactly(text: string)
    requires SaysNothingSpecific(Tokens(text)) && !Read(text).CardQuestion() && !Read(text).subtype
    ensures Read(text).explicit <==> EffectiveScope(text)
  {
    ExclusionIsExplicit(text);
    if Read(text).broad {
      ExceptArmNeverDecides(text);
    } else if SaysSo(text) {
      SoIsExplicit(text);
    } else if Read(text).explicit && !Read(text).withoutCard {
      var t := Trim(Collapse(text));
      if HasWord(t, ONLY_WORDS + EXCEPT_WORDS + NO_CARD_PHRASES) {
        SplitExplicit(t);
        if HasWord(t, NO_CARD_PHRASES) { TrimAddsNone(Collapse(text), NO_CARD_PHRASES); }
      }
      var w := ScopeWordMatched(text);
      if w in NAMELIKE_SCOPE_WORDS { NamelikeIsSpecific(w); }
    }
  }

  // ----- the total of the bank and cash accounts only

  predicate GivesScopedTotal(a: Answer) { a.Figures? && a.verdict.ScopedTotal? }

  /** A generic total under an effective scope, of one to twenty bank and cash accounts completely read. */
  predicate ScopedTotalDue(text: string, ev: Evidence) {
    && AsksGenericTotal(Read(text), Tokens(text), ev) && Read(text).FundsScoped() && EffectiveScope(text)
    && 0 < |Funds(ev.accounts)| <= MAX_LISTED_ACCOUNTS && !ev.partial
    && (Read(text).withoutCard ==> !AnyUnknown(ev.accounts))
  }

  /** Only a listing gives such a total, and only to a generic total question. */
  lemma OnlyGenericTotals(w: Wording, text: string, said: set<string>, ev: Evidence)
    requires GivesScopedTotal(Decide(w, text, said, ev))
    ensures AsksGenericTotal(w, said, ev)
  {
    var pool, cards := NamePool(w, ev), Cards(ev.accounts);
    if w.CardQuestion() {
      if NamedAnswer(said, cards, cards, CARD_NOUN, ev).Figures? { NamedShape(said, cards, cards, CARD_NOUN, ev); }
      assert false;
    } else if MatchByName(said, pool) != [] {
      NamedShape(said, pool, ev.accounts, ACCOUNT_NOUN, ev);
      assert false;
    }
  }

  // A total of the bank and cash accounts only is given exactly to a generic total
  // question, scoped to accounts, that excludes cards or says "so" and nothing broad.
  lemma ScopedTotalExactly(text: string, ev: Evidence)
    ensures GivesScopedTotal(RenderAccountsAnswer(text, Some(ev))) <==> ScopedTotalDue(text, ev)
  {
    if GivesScopedTotal(RenderAccountsAnswer(text, Some(ev))) { OnlyGenericTotals(Read(text), text, Tokens(text), ev); }
    if AsksGenericTotal(Read(text), Tokens(text), ev) {
      TotalsExactly(text, ev);
      GenericScopeExactly(text);
      ExclusionIsExplicit(text);
      if Read(text).broad { ExceptArmNeverDecides(text); }
    }
  }

  // So whoever gets it excluded cards or said "so": none of the other nine scope words,
  // the five of the kind scope included, ever brings it about.
  lemma ScopedTotalSaysSo(text: string, ev: Evidence)
    requires GivesScopedTotal(RenderAccountsAnswer(text, Some(ev)))
    ensures Read(text).withoutCard || "so" in Tokens(text)
    ensures Tokens(text) !! NAMELIKE_SCOPE_WORDS && !Read(text).subtype
  {
    ScopedTotalExactly(text, ev);
    if SaysSo(text) { SoIsToken(text); }
    forall w | w in NAMELIKE_SCOPE_WORDS ensures w !in Tokens(text) { NamelikeIsSpecific(w); }
  }

  // A scope word that the vocabulary lacks is taken for part of a name: where no account
  // is named, the answer is that there is none, and it stays so however the scope is read.
  lemma ScopeWordTakenForName(text: string, w: string, ev: Evidence, explicit: bool)
    requires w in NAMELIKE_SCOPE_WORDS && w in Tokens(text)
    requires Read(text).balance && !Read(text).subtype && !Read(text).CardQuestion()
    requires MatchByName(Tokens(text), NamePool(Read(text), ev)) == []
    ensures Decide(Read(text).(explicit := explicit), text, Tokens(text), ev) == Ask(AccountNotFound, ev.accounts, ev)
    ensures RenderAccountsAnswer(text, Some(ev)) == Ask(AccountNotFound, ev.accounts, ev)
  {
    NamelikeIsSpecific(w);
  }
}
