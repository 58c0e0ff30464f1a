/**
 * The wording of plain sentences, words of letters and digits with one space between
 * them: every flag that regular expressions read off such a text is a matter of which
 * words, and which neighbouring words, the sentence holds.
 */
module GroundingSentences {
  import opened Common
  import opened Text
  import opened GroundingText

  predicate IsPlainWord(w: string) { w != [] && forall i :: 0 <= i < |w| ==> IsTokenChar(w[i]) }

  predicate AllPlain(words: seq<string>) { forall i :: 0 <= i < |words| ==> IsPlainWord(words[i]) }

  function Sentence(words: seq<string>): string {
    if words == [] then []
    else if |words| == 1 then words[0]
    else words[0] + ([' '] + Sentence(words[1..]))
  }

  // ----- which words a sentence says

  /** The sentence begins with a phrase, word by word. */
  predicate BeginsWith(words: seq<string>, phrase: seq<string>) { |phrase| <= |words| && words[..|phrase|] == phrase }

  predicate Contains(words: seq<string>, phrase: seq<string>) {
    BeginsWith(words, phrase) || (words != [] && Contains(words[1..], phrase))
  }

  predicate Says(words: seq<string>, class_: set<string>) { exists w :: w in words && w in class_ }

  /** What the wording of a sentence comes to, word by word. */
  function WordingOf(words: seq<string>): Wording {
    var card := Says(words, CARD_WORDS);
    var withoutCard := exists c :: c in CARD_WORDS && Contains(words, ["sem", c]);
    var broad := Says(words, BROAD_WORDS);
    Wording(
      Says(words, {"saldo", "saldos"}) || Contains(words, ["quanto", "tenho"]) || Contains(words, ["quanto", "eu", "tenho"]),
      Says(words, SUBTYPE_WORDS),
      card,
      withoutCard,
      Says(words, FUNDS_WORDS),
      Says(words, TOTAL_SINGLES) || Contains(words, ["tudo", "junto"]),
      broad,
      if broad then withoutCard || (Says(words, EXCEPT_WORDS) && card)
      else Says(words, ONLY_WORDS + EXCEPT_WORDS + KIND_WORDS) || withoutCard,
      "conta" in words && "contas" !in words)
  }

  // ----- occurrences of a phrase in a sentence

  /** A first word, and whatever may follow it: nothing, or a space and more. */
  ghost predicate Follows(rest: string) { rest == [] || rest[0] == ' ' }

  lemma Split(words: seq<string>) returns (rest: string)
    requires AllPlain(words) && words != []
    ensures Sentence(words) == words[0] + rest && Follows(rest)
    ensures if |words| == 1 then rest == [] else rest == [' '] + Sentence(words[1..]) && AllPlain(words[1..])
  {
    rest := if |words| == 1 then [] else [' '] + Sentence(words[1..]);
  }

  /** Where two texts agree, their first words agree. */
  lemma SameFirstWord(w: string, rest: string, q: string, tail: string)
    requires IsPlainWord(w) && IsPlainWord(q) && Follows(rest) && Follows(tail)
    requires WordAt(w + rest, q + tail, 0)
    ensures w == q
  {
    var t, p := w + rest, q + tail;
    assert t[..|p|] == p;
    assert forall k :: 0 <= k < |p| ==> t[k] == p[k];
    assert w == t[..|w|] && q == p[..|q|];
  }

  lemma StripFirst(w: string, u: string, v: string)
    requires IsPlainWord(w)
    ensures WordAt(w + ([' '] + u), w + ([' '] + v), 0) <==> WordAt(u, v, 0)
  {
    var t, p, n := w + ([' '] + u), w + ([' '] + v), |w| + 1;
    assert forall k :: 0 <= k < |u| ==> t[n + k] == u[k];
    assert forall k :: 0 <= k < |v| ==> p[n + k] == v[k];
    if OccursAt(t, p, 0) { assert u[..|v|] == t[..|p|][n..] == p[n..] == v; }
    if OccursAt(u, v, 0) { assert t[..|p|] == w + ([' '] + u[..|v|]) == p; }
  }

  lemma EndsAtOnce(w: string, rest: string)
    requires IsPlainWord(w) && Follows(rest)
    ensures WordAt(w + rest, w, 0)
  {
    assert (w + rest)[..|w|] == w;
  }

  lemma {:induction false} PhraseAtStart(words: seq<string>, phrase: seq<string>)
    requires AllPlain(words) && AllPlain(phrase) && phrase != []
    ensures WordAt(Sentence(words), Sentence(phrase), 0) <==> BeginsWith(words, phrase)
  {
    if words == [] {
      var tail := Split(phrase);
    } else {
      var rest := Split(words);
      var tail := Split(phrase);
      if words[0] == phrase[0] {
        var w := words[0];
        if |phrase| == 1 {
          EndsAtOnce(w, rest);
          assert words[..1] == phrase;
        } else if |words| == 1 {
          assert |Sentence(phrase)| > |Sentence(words)|;
        } else {
          StripFirst(w, Sentence(words[1..]), Sentence(phrase[1..]));
          PhraseAtStart(words[1..], phrase[1..]);
          assert words == [w] + words[1..] && phrase == [w] + phrase[1..];
          FirstAndRest(w, words[1..], phrase[1..]);
        }
      } else {
        if WordAt(Sentence(words), Sentence(phrase), 0) { SameFirstWord(words[0], rest, phrase[0], tail); }
        if |phrase| <= |words| { assert words[..|phrase|][0] == words[0]; }
      }
    }
  }

  lemma FirstAndRest(w: string, words: seq<string>, phrase: seq<string>)
    ensures BeginsWith([w] + words, [w] + phrase) <==> BeginsWith(words, phrase)
  {
    if |phrase| <= |words| {
      assert ([w] + words)[..|phrase| + 1] == [w] + words[..|phrase|];
      if [w] + words[..|phrase|] == [w] + phrase { assert words[..|phrase|] == ([w] + phrase)[1..] == phrase; }
    }
  }

  lemma SameLetters(w: string, u: string, p: string, j: nat)
    ensures OccursAt(w + ([' '] + u), p, |w| + 1 + j) <==> OccursAt(u, p, j)
  {
    var t, n := w + ([' '] + u), |w| + 1;
    if j + |p| <= |u| { assert t[n + j..n + j + |p|] == u[j..j + |p|]; }
  }

  lemma BehindSpace(w: string, u: string, p: string, j: nat)
    ensures WordAt(w + ([' '] + u), p, |w| + 1 + j) <==> WordAt(u, p, j)
  {
    var t, n := w + ([' '] + u), |w| + 1;
    SameLetters(w, u, p, j);
    assert t[|w|] == ' ' && (0 < j <= |u| ==> t[n + j - 1] == u[j - 1]);
    assert j + |p| < |u| ==> t[n + j + |p|] == u[j + |p|];
  }

  /** Behind its first word, a sentence holds a phrase just where the rest of it does. */
  lemma Shifted(w: string, u: string, p: string, i: nat)
    requires IsPlainWord(w) && i > 0 && p != [] && IsWordChar(p[0])
    ensures WordAt(w + ([' '] + u), p, i) <==> i > |w| && WordAt(u, p, i - |w| - 1)
  {
    var t := w + ([' '] + u);
    if i <= |w| {
      assert t[i - 1] == w[i - 1] && IsWordChar(w[i - 1]);
    } else {
      BehindSpace(w, u, p, i - |w| - 1);
    }
  }

  lemma PhraseStart(phrase: seq<string>)
    requires AllPlain(phrase) && phrase != []
    ensures Sentence(phrase) != [] && IsWordChar(Sentence(phrase)[0])
  {
    var rest := Split(phrase);
    assert Sentence(phrase)[0] == phrase[0][0];
  }

  ghost predicate HasPhrase(t: string, p: string) { exists i: nat :: i <= |t| && WordAt(t, p, i) }

  lemma PhraseBy(t: string, p: string, i: nat)
    requires i <= |t| && WordAt(t, p, i)
    ensures HasPhrase(t, p)
  {}

  lemma PhraseAfter(w: string, u: string, p: string, i: nat)
    requires IsPlainWord(w) && p != [] && IsWordChar(p[0]) && 0 < i && WordAt(w + ([' '] + u), p, i)
    ensures HasPhrase(u, p)
  {
    Shifted(w, u, p, i);
    PhraseBy(u, p, i - |w| - 1);
  }

  lemma PhraseLater(w: string, u: string, p: string)
    requires IsPlainWord(w) && p != [] && IsWordChar(p[0])
    ensures HasPhrase(w + ([' '] + u), p) <==> WordAt(w + ([' '] + u), p, 0) || HasPhrase(u, p)
  {
    var t := w + ([' '] + u);
    if HasPhrase(t, p) {
      var i: nat :| i <= |t| && WordAt(t, p, i);
      if i > 0 { PhraseAfter(w, u, p, i); }
    }
    if WordAt(t, p, 0) { PhraseBy(t, p, 0); }
    if HasPhrase(u, p) {
      var j: nat :| j <= |u| && WordAt(u, p, j);
      BehindSpace(w, u, p, j);
      PhraseBy(t, p, |w| + 1 + j);
    }
  }

  /** A word alone holds nothing behind its start. */
  lemma PhraseInWord(w: string, p: string)
    requires IsPlainWord(w) && p != []
    ensures HasPhrase(w, p) <==> WordAt(w, p, 0)
  {
    if HasPhrase(w, p) {
      var i: nat :| i <= |w| && WordAt(w, p, i);
      if i > 0 { assert IsWordChar(w[i - 1]); }
    }
  }

  // A phrase stands between word boundaries of a sentence exactly when its words stand in
  // the sentence next to each other.
  lemma {:induction false} PhraseInSentence(words: seq<string>, phrase: seq<string>)
    requires AllPlain(words) && AllPlain(phrase) && phrase != []
    ensures HasPhrase(Sentence(words), Sentence(phrase)) <==> Contains(words, phrase)
  {
    PhraseAtStart(words, phrase);
    PhraseStart(phrase);
    if words == [] {
      assert !HasPhrase([], Sentence(phrase));
    } else if |words| == 1 {
      PhraseInWord(words[0], Sentence(phrase));
      assert words[1..] == [];
    } else {
      PhraseLater(words[0], Sentence(words[1..]), Sentence(phrase));
      PhraseInSentence(words[1..], phrase);
    }
  }

  lemma {:induction false} ContainsOne(words: seq<string>, w: string)
    ensures Contains(words, [w]) <==> w in words
  {
    if words != [] {
      ContainsOne(words[1..], w);
      assert words[..1] == [words[0]] && words == [words[0]] + words[1..];
      assert [w][0] == w;
    }
  }

  ghost predicate PlainWords(class_: set<string>) { forall w :: w in class_ ==> IsPlainWord(w) }

  // A class of single words occurs in a sentence exactly when the sentence says one of them.
  lemma WordsInSentence(words: seq<string>, class_: set<string>)
    requires AllPlain(words) && PlainWords(class_)
    ensures HasWord(Sentence(words), class_) <==> Says(words, class_)
  {
    var t := Sentence(words);
    forall w | w in class_ ensures HasPhrase(t, w) <==> w in words {
      assert Sentence([w]) == w;
      PhraseInSentence(words, [w]);
      ContainsOne(words, w);
    }
    if HasWord(t, class_) {
      var i :| 0 <= i <= |t| && AnyWordAt(t, class_, i);
      var w :| w in class_ && WordAt(t, w, i);
      assert HasPhrase(t, w);
    }
    if w :| w in words && w in class_ {
      assert HasPhrase(t, w);
      var i: nat :| i <= |t| && WordAt(t, w, i);
      assert AnyWordAt(t, class_, i);
    }
  }

  lemma OnePhrase(t: string, class_: set<string>, p: string)
    requires p in class_ && HasPhrase(t, p)
    ensures HasWord(t, class_)
  {
    var i: nat :| i <= |t| && WordAt(t, p, i);
    assert AnyWordAt(t, class_, i);
  }

  lemma SomePhrase(t: string, class_: set<string>) returns (p: string)
    requires HasWord(t, class_)
    ensures p in class_ && HasPhrase(t, p)
  {
    var i :| 0 <= i <= |t| && AnyWordAt(t, class_, i);
    p :| p in class_ && WordAt(t, p, i);
    var j: nat := i;
    assert j <= |t| && WordAt(t, p, j);
  }

  // ----- white space and tokens

  lemma {:induction false} CollapseWord(w: string, rest: string)
    requires forall i :: 0 <= i < |w| ==> !IsSpace(w[i])
    ensures Collapse(w + rest) == w + Collapse(rest)
  {
    if w == [] {
      assert w + rest == rest;
    } else {
      assert (w + rest)[0] == w[0] && (w + rest)[1..] == w[1..] + rest;
      CollapseWord(w[1..], rest);
      assert w == [w[0]] + w[1..];
    }
  }

  lemma CollapseSpace(u: string)
    requires u != [] && !IsSpace(u[0])
    ensures Collapse([' '] + u) == [' '] + Collapse(u)
  {
    var t := [' '] + u;
    assert t[1..] == u && RunEnd(t[1..], 0, IsSpace) == 0;
    assert t[RunEnd(t[1..], 0, IsSpace) + 1..] == u;
  }

  lemma {:induction false} CollapseSentence(words: seq<string>)
    requires AllPlain(words)
    ensures Collapse(Sentence(words)) == Sentence(words)
  {
    if words != [] {
      var w := words[0];
      assert forall i :: 0 <= i < |w| ==> IsTokenChar(w[i]) && !IsSpace(w[i]);
      if |words| == 1 {
        CollapseWord(w, []);
        assert w + [] == w;
      } else {
        PhraseStart(words[1..]);
        CollapseSentence(words[1..]);
        CollapseSpace(Sentence(words[1..]));
        CollapseWord(w, [' '] + Sentence(words[1..]));
      }
    }
  }

  lemma {:induction false} SentenceEnds(words: seq<string>)
    requires AllPlain(words) && words != []
    ensures var t := Sentence(words); t != [] && IsTokenChar(t[0]) && IsTokenChar(t[|t| - 1])
  {
    var rest := Split(words);
    assert Sentence(words)[0] == words[0][0];
    if |words| == 1 {
      assert Sentence(words) == words[0];
    } else {
      SentenceEnds(words[1..]);
    }
  }

  lemma TrimSentence(words: seq<string>)
    requires AllPlain(words)
    ensures Trim(Sentence(words)) == Sentence(words)
  {
    if words != [] { SentenceEnds(words); }
    TrimmedIsFixed(Sentence(words));
  }

  ghost predicate HasRun(t: string, w: string) { exists i, j :: IsTokenRun(t, i, j) && w == t[i..j] }

  lemma RunOfWord(w: string, v: string)
    requires IsPlainWord(w)
    ensures HasRun(w, v) <==> v == w
  {
    assert IsTokenRun(w, 0, |w|) && w == w[0..|w|];
    if i, j :| IsTokenRun(w, i, j) && v == w[i..j] {
      assert i == 0 && j == |w|;
    }
  }

  lemma RunsAround(w: string, u: string, v: string)
    requires IsPlainWord(w)
    ensures HasRun(w + ([' '] + u), v) <==> v == w || HasRun(u, v)
  {
    var t, n := w + ([' '] + u), |w| + 1;
    assert t[|w|] == ' ' && forall k :: 0 <= k < |u| ==> t[n + k] == u[k];
    assert forall k :: 0 <= k < |w| ==> t[k] == w[k];
    if v == w { assert IsTokenRun(t, 0, |w|) && t[0..|w|] == w; }
    if i, j :| IsTokenRun(u, i, j) && v == u[i..j] {
      assert IsTokenRun(t, n + i, n + j) && t[n + i..n + j] == v;
    }
    if i, j :| IsTokenRun(t, i, j) && v == t[i..j] { RunPlace(w, u, i, j); }
  }

  lemma RunPlace(w: string, u: string, i: int, j: int)
    requires IsPlainWord(w) && IsTokenRun(w + ([' '] + u), i, j)
    ensures var v := (w + ([' '] + u))[i..j]; v == w || HasRun(u, v)
  {
    var t, n := w + ([' '] + u), |w| + 1;
    assert t[|w|] == ' ' && forall k :: 0 <= k < |u| ==> t[n + k] == u[k];
    assert forall k :: 0 <= k < |w| ==> t[k] == w[k];
    if i < n {
      assert i == 0 && j == |w|;
      assert t[0..|w|] == w;
    } else {
      assert IsTokenRun(u, i - n, j - n) && u[i - n..j - n] == t[i..j];
    }
  }

  lemma {:induction false} RunsInSentence(words: seq<string>, v: string)
    requires AllPlain(words)
    ensures HasRun(Sentence(words), v) <==> v in words
  {
    if words == [] {
    } else if |words| == 1 {
      RunOfWord(words[0], v);
    } else {
      RunsAround(words[0], Sentence(words[1..]), v);
      RunsInSentence(words[1..], v);
      assert words == [words[0]] + words[1..];
    }
  }

  // The tokens of a sentence are its words of more than one character.
  lemma TokensOfSentence(words: seq<string>)
    requires AllPlain(words)
    ensures Tokens(Sentence(words)) == set w | w in words && |w| > 1
  {
    var t := Sentence(words);
    forall v ensures v in Tokens(t) <==> v in words && |v| > 1 {
      RunsInSentence(words, v);
      if v in Tokens(t) {
        var i, j :| 0 <= i <= |t| && 0 <= j <= |t| && IsTokenRun(t, i, j) && j - i > 1 && v == t[i..j];
        assert HasRun(t, v);
      }
      if HasRun(t, v) && |v| > 1 {
        var i, j :| IsTokenRun(t, i, j) && v == t[i..j];
        assert j - i > 1;
      }
    }
  }

  // ----- the wording of a sentence

  /** Single words and phrases, as the alternatives of a regular expression. */
  function Alternatives(singles: set<string>, phrases: set<seq<string>>): set<string> {
    singles + set p | p in phrases :: Sentence(p)
  }

  ghost predicate PlainPhrases(phrases: set<seq<string>>) { forall p :: p in phrases ==> p != [] && AllPlain(p) }

  lemma AlternativesInSentence(words: seq<string>, singles: set<string>, phrases: set<seq<string>>)
    requires AllPlain(words) && PlainWords(singles) && PlainPhrases(phrases)
    ensures HasWord(Sentence(words), Alternatives(singles, phrases)) <==>
              Says(words, singles) || exists p :: p in phrases && Contains(words, p)
  {
    var t, class_ := Sentence(words), Alternatives(singles, phrases);
    WordsInSentence(words, singles);
    if HasWord(t, class_) {
      var q := SomePhrase(t, class_);
      if q in singles {
        OnePhrase(t, singles, q);
      } else {
        var p :| p in phrases && q == Sentence(p);
        PhraseInSentence(words, p);
      }
    }
    if Says(words, singles) {
      var q := SomePhrase(t, singles);
      OnePhrase(t, class_, q);
    }
    if p :| p in phrases && Contains(words, p) {
      PhraseInSentence(words, p);
      OnePhrase(t, class_, Sentence(p));
    }
  }

  function Pairs(first: string, seconds: set<string>): set<seq<string>> { set c | c in seconds :: [first, c] }

  lemma PairsContained(words: seq<string>, first: string, seconds: set<string>)
    ensures (exists p :: p in Pairs(first, seconds) && Contains(words, p)) <==> exists c :: c in seconds && Contains(words, [first, c])
  {
    if c :| c in seconds && Contains(words, [first, c]) { assert [first, c] in Pairs(first, seconds); }
  }

  lemma PlainPairs(first: string, seconds: set<string>)
    requires IsPlainWord(first) && PlainWords(seconds)
    ensures PlainPhrases(Pairs(first, seconds))
  {}

  lemma TwoPhrases(words: seq<string>, class_: set<string>, singles: set<string>, p: seq<string>, q: seq<string>)
    requires AllPlain(words) && PlainWords(singles) && PlainPhrases({p, q}) && class_ == Alternatives(singles, {p, q})
    ensures HasWord(Sentence(words), class_) <==> Says(words, singles) || Contains(words, p) || Contains(words, q)
  {
    AlternativesInSentence(words, singles, {p, q});
    assert p in {p, q} && q in {p, q};
  }

  lemma MarkerClasses()
    ensures PlainWords(CARD_WORDS) && PlainWords(FUNDS_WORDS) && PlainWords(BROAD_WORDS)
  {}

  lemma ScopeClasses()
    ensures PlainWords(EXCEPT_WORDS) && PlainWords(ONLY_WORDS) && PlainWords(KIND_WORDS) && PlainWords(SUBTYPE_WORDS)
  {}

  lemma Classes()
    ensures PlainWords(CARD_WORDS) && PlainWords(FUNDS_WORDS) && PlainWords(BROAD_WORDS)
    ensures PlainWords(EXCEPT_WORDS) && PlainWords(ONLY_WORDS) && PlainWords(KIND_WORDS) && PlainWords(SUBTYPE_WORDS)
  {
    MarkerClasses();
    ScopeClasses();
  }

  lemma Pair(a: string, b: string)
    ensures Sentence([a, b]) == a + ([' '] + b)
  {
    assert [a, b][1..] == [b];
  }

  lemma Phrases()
    ensures PlainPhrases({["quanto", "tenho"], ["quanto", "eu", "tenho"]}) && PlainPhrases({["tudo", "junto"], ["tudo", "junto"]})
  {}

  lemma NoCardPhrases()
    ensures NO_CARD_PHRASES == Alternatives({}, Pairs("sem", CARD_WORDS))
  {
    Pair("sem", "cartao");
    Pair("sem", "cartoes");
    Pair("sem", "fatura");
    Pair("sem", "faturas");
    assert Sentence(["sem", "cartao"]) == "sem cartao" && Sentence(["sem", "cartoes"]) == "sem cartoes";
    assert Sentence(["sem", "fatura"]) == "sem fatura" && Sentence(["sem", "faturas"]) == "sem faturas";
    forall p ensures p in NO_CARD_PHRASES <==> p in Alternatives({}, Pairs("sem", CARD_WORDS)) {
      if p == "sem cartao" { assert ["sem", "cartao"] in Pairs("sem", CARD_WORDS); }
      if p == "sem cartoes" { assert ["sem", "cartoes"] in Pairs("sem", CARD_WORDS); }
      if p == "sem fatura" { assert ["sem", "fatura"] in Pairs("sem", CARD_WORDS); }
      if p == "sem faturas" { assert ["sem", "faturas"] in Pairs("sem", CARD_WORDS); }
    }
  }

  lemma TwoAlternatives(singles: set<string>, p: seq<string>, q: seq<string>)
    ensures Alternatives(singles, {p, q}) == singles + {Sentence(p), Sentence(q)}
  {
    forall w ensures w in Alternatives(singles, {p, q}) <==> w in singles + {Sentence(p), Sentence(q)} {
      assert p in {p, q} && q in {p, q};
    }
  }

  lemma Triple(a: string, b: string, c: string)
    ensures Sentence([a, b, c]) == a + ([' '] + (b + ([' '] + c)))
  {
    Pair(b, c);
    assert [a, b, c][1..] == [b, c];
  }

  lemma BalancePhrases()
    ensures PlainWords({"saldo", "saldos"}) && PlainPhrases({["quanto", "tenho"], ["quanto", "eu", "tenho"]})
    ensures BALANCE_PHRASES == Alternatives({"saldo", "saldos"}, {["quanto", "tenho"], ["quanto", "eu", "tenho"]})
  {
    Pair("quanto", "tenho");
    Triple("quanto", "eu", "tenho");
    assert Sentence(["quanto", "tenho"]) == "quanto tenho" && Sentence(["quanto", "eu", "tenho"]) == "quanto eu tenho";
    TwoAlternatives({"saldo", "saldos"}, ["quanto", "tenho"], ["quanto", "eu", "tenho"]);
    assert BALANCE_PHRASES == {"saldo", "saldos"} + {"quanto tenho", "quanto eu tenho"};
  }

  const TOTAL_SINGLES: set<string> := {"total", "totais", "soma", "somando", "somado", "geral", "consolidado", "somatorio"}

  lemma TotalPhrases()
    ensures TOTAL_WORDS == Alternatives(TOTAL_SINGLES, {["tudo", "junto"], ["tudo", "junto"]}) && PlainWords(TOTAL_SINGLES)
  {
    Pair("tudo", "junto");
    assert Sentence(["tudo", "junto"]) == "tudo junto";
    forall p ensures p in TOTAL_WORDS <==> p in Alternatives(TOTAL_SINGLES, {["tudo", "junto"], ["tudo", "junto"]}) {
      if p == "tudo junto" { assert ["tudo", "junto"] in {["tudo", "junto"], ["tudo", "junto"]}; }
    }
  }

  lemma HasEither(t: string, a: set<string>, b: set<string>)
    ensures HasWord(t, a + b) <==> HasWord(t, a) || HasWord(t, b)
  {
    if HasWord(t, a + b) {
      var p := SomePhrase(t, a + b);
      if p in a { OnePhrase(t, a, p); } else { OnePhrase(t, b, p); }
    }
    if HasWord(t, a) { var p := SomePhrase(t, a); OnePhrase(t, a + b, p); }
    if HasWord(t, b) { var p := SomePhrase(t, b); OnePhrase(t, a + b, p); }
  }

  lemma NoCardInSentence(words: seq<string>)
    requires AllPlain(words)
    ensures HasWord(Sentence(words), NO_CARD_PHRASES) <==> exists c :: c in CARD_WORDS && Contains(words, ["sem", c])
  {
    Classes();
    NoCardPhrases();
    PlainPairs("sem", CARD_WORDS);
    AlternativesInSentence(words, {}, Pairs("sem", CARD_WORDS));
    PairsContained(words, "sem", CARD_WORDS);
  }

  lemma BalanceInSentence(words: seq<string>)
    requires AllPlain(words)
    ensures HasWord(Sentence(words), BALANCE_PHRASES) <==>
              Says(words, {"saldo", "saldos"}) || Contains(words, ["quanto", "tenho"]) || Contains(words, ["quanto", "eu", "tenho"])
  {
    BalancePhrases();
    TwoPhrases(words, BALANCE_PHRASES, {"saldo", "saldos"}, ["quanto", "tenho"], ["quanto", "eu", "tenho"]);
  }

  lemma TotalInSentence(words: seq<string>)
    requires AllPlain(words)
    ensures HasWord(Sentence(words), TOTAL_WORDS) <==> Says(words, TOTAL_SINGLES) || Contains(words, ["tudo", "junto"])
  {
    Phrases();
    TotalPhrases();
    TwoPhrases(words, TOTAL_WORDS, TOTAL_SINGLES, ["tudo", "junto"], ["tudo", "junto"]);
  }

  lemma CardInSentence(words: seq<string>)
    requires AllPlain(words)
    ensures Tokens(Sentence(words)) * CARD_WORDS != {} <==> Says(words, CARD_WORDS)
  {
    TokensOfSentence(words);
    assert forall c :: c in CARD_WORDS ==> |c| > 1;
    if w :| w in words && w in CARD_WORDS { assert w in Tokens(Sentence(words)) * CARD_WORDS; }
    if Tokens(Sentence(words)) * CARD_WORDS != {} {
      var w :| w in Tokens(Sentence(words)) * CARD_WORDS;
      assert w in words;
    }
  }

  lemma ExplicitInSentence(words: seq<string>)
    requires AllPlain(words)
    ensures ExplicitFundsOnly(Sentence(words), Says(words, CARD_WORDS)) <==>
              var withoutCard := exists c :: c in CARD_WORDS && Contains(words, ["sem", c]);
              if Says(words, BROAD_WORDS) then withoutCard || (Says(words, EXCEPT_WORDS) && Says(words, CARD_WORDS))
              else Says(words, ONLY_WORDS + EXCEPT_WORDS + KIND_WORDS) || withoutCard
  {
    var t := Sentence(words);
    TrimSentence(words);
    Classes();
    NoCardInSentence(words);
    WordsInSentence(words, BROAD_WORDS);
    WordsInSentence(words, EXCEPT_WORDS);
    WordsInSentence(words, ONLY_WORDS + EXCEPT_WORDS + KIND_WORDS);
    HasEither(t, ONLY_WORDS + EXCEPT_WORDS, NO_CARD_PHRASES);
    HasEither(t, ONLY_WORDS + EXCEPT_WORDS, KIND_WORDS);
  }

  // Read off a sentence, every flag is a matter of the words it says.
  lemma ReadSentence(words: seq<string>)
    requires AllPlain(words)
    ensures Read(Sentence(words)) == WordingOf(words)
  {
    var t := Sentence(words);
    CollapseSentence(words);
    Classes();
    BalanceInSentence(words);
    WordsInSentence(words, SUBTYPE_WORDS);
    CardInSentence(words);
    NoCardInSentence(words);
    WordsInSentence(words, FUNDS_WORDS);
    TotalInSentence(words);
    WordsInSentence(words, BROAD_WORDS);
    ExplicitInSentence(words);
    WordsInSentence(words, {"conta"});
    WordsInSentence(words, {"contas"});
  }

  // ----- whole words only

  predicate IsWordRun(t: string, i: int, j: int) {
    && 0 <= i < j <= |t|
    && (forall k :: i <= k < j ==> IsWordChar(t[k]))
    && (i == 0 || !IsWordChar(t[i - 1]))
    && (j == |t| || !IsWordChar(t[j]))
  }

  lemma WordIsRun(t: string, w: string, i: int)
    requires w != [] && forall k :: 0 <= k < |w| ==> IsWordChar(w[k])
    ensures WordAt(t, w, i) <==> IsWordRun(t, i, i + |w|) && t[i..i + |w|] == w
  {
    if WordAt(t, w, i) {
      forall k | i <= k < i + |w| ensures IsWordChar(t[k]) { LetterAt(t, w, i, k - i); }
    }
  }

  // A class of words matches exactly the texts in which one of them is a whole run of word
  // characters: in any text, "bancari" matches neither "bancaria" nor "bancarias".
  lemma WholeWordsOnly(t: string, class_: set<string>)
    requires PlainWords(class_)
    ensures HasWord(t, class_) <==> exists i, j :: IsWordRun(t, i, j) && t[i..j] in class_
  {
    if HasWord(t, class_) {
      var i :| 0 <= i <= |t| && AnyWordAt(t, class_, i);
      var w :| w in class_ && WordAt(t, w, i);
      WordIsRun(t, w, i);
      assert t[i..i + |w|] in class_;
    }
    if i, j :| IsWordRun(t, i, j) && t[i..j] in class_ {
      WordIsRun(t, t[i..j], i);
      assert AnyWordAt(t, class_, i);
    }
  }

  // The kind scope of a text: one of its words is, whole, one of the five of the class.
  lemma KindScopeExactly(t: string)
    ensures HasWord(t, KIND_WORDS) <==> exists i, j :: IsWordRun(t, i, j) && t[i..j] in KIND_WORDS
  {
    ScopeClasses();
    WholeWordsOnly(t, KIND_WORDS);
  }

  // ----- phrases of given sentences

  lemma {:induction false} ContainsHead(words: seq<string>, phrase: seq<string>)
    requires phrase != [] && Contains(words, phrase)
    ensures phrase[0] in words
  {
    if BeginsWith(words, phrase) {
      assert words[0] == words[..|phrase|][0];
    } else {
      ContainsHead(words[1..], phrase);
      assert words == [words[0]] + words[1..];
    }
  }

  lemma {:induction false} ContainsAt(words: seq<string>, phrase: seq<string>, k: nat)
    requires k + |phrase| <= |words| && words[k..k + |phrase|] == phrase
    ensures Contains(words, phrase)
  {
    if k == 0 {
      assert words[..|phrase|] == phrase;
    } else {
      assert words[1..][k - 1..k - 1 + |phrase|] == phrase;
      ContainsAt(words[1..], phrase, k - 1);
    }
  }
}
