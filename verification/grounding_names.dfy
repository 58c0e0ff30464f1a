/** What choosing accounts by name guarantees: the survivors are the most specific names said. */
module GroundingNames {
  import opened Common
  import opened GroundingText
  import opened Grounding

  lemma SubsetSmaller(a: set<string>, b: set<string>)
    requires a <= b
    ensures |a| <= |b| && (a != b ==> |a| < |b|)
  {
    assert b == a + (b - a);
  }

  /** Comparing sizes first, as the code does, is proper containment of the token sets. */
  lemma LessSpecificIsContained(a: Account, b: Account)
    ensures LessSpecific(a, b) <==> Tokens(a.key) < Tokens(b.key)
  {
    if Tokens(a.key) <= Tokens(b.key) { SubsetSmaller(Tokens(a.key), Tokens(b.key)); }
  }

  // When several names match and one is said in full, the survivors are exactly the
  // matches said in full whose token set no other such match properly contains.
  lemma SurvivorsAreMaximal(said: set<string>, matches: seq<Account>, a: Account)
    requires |matches| > 1 && exists b :: b in matches && FullyNamed(said, b)
    ensures a in SelectMostSpecific(said, matches).candidates <==>
              && a in matches && FullyNamed(said, a)
              && forall b :: b in matches && FullyNamed(said, b) ==> !(Tokens(a.key) < Tokens(b.key))
  {
    var fully := Filter(matches, (a: Account) => FullyNamed(said, a));
    var named :| named in matches && FullyNamed(said, named);
    assert named in fully;
    forall b ensures LessSpecific(a, b) <==> Tokens(a.key) < Tokens(b.key) { LessSpecificIsContained(a, b); }
  }

  // Nothing said in full is lost: it is contained in the name of some survivor.
  lemma {:induction false} EveryFullNameIsCovered(said: set<string>, matches: seq<Account>, a: Account) returns (survivor: Account)
    requires |matches| > 1 && a in matches && FullyNamed(said, a)
    ensures survivor in SelectMostSpecific(said, matches).candidates
    ensures Tokens(a.key) <= Tokens(survivor.key) && FullyNamed(said, survivor)
    decreases said - Tokens(a.key)
  {
    SurvivorsAreMaximal(said, matches, a);
    if b :| b in matches && FullyNamed(said, b) && Tokens(a.key) < Tokens(b.key) {
      survivor := EveryFullNameIsCovered(said, matches, b);
    } else {
      survivor := a;
    }
  }

  /** A name with some token, not all of them generic, matches as soon as it is said in full. */
  lemma FullNameMatches(said: set<string>, a: Account)
    requires FullyNamed(said, a) && Tokens(a.key) != {} && !IsGenericOnlyName(a)
    ensures Matches(said, a)
  {}

  lemma CandidatesMatch(said: set<string>, pool: seq<Account>, a: Account)
    requires a in SelectMostSpecific(said, MatchByName(said, pool)).candidates
    ensures a in pool && Matches(said, a)
  {}

  /** Tokens that make a name selectable and are all said. */
  predicate NamedInFull(said: set<string>, a: Account) {
    FullyNamed(said, a) && Tokens(a.key) != {} && !IsGenericOnlyName(a)
  }

  lemma OnlySurvivor(said: set<string>, matches: seq<Account>, chosen: Account, other: Account)
    requires |matches| > 1 && SelectMostSpecific(said, matches).candidates == [chosen]
    requires other in matches && other != chosen && FullyNamed(said, other)
    ensures Tokens(other.key) < Tokens(chosen.key)
  {
    var survivor := EveryFullNameIsCovered(said, matches, other);
    assert survivor == chosen;
    if Tokens(other.key) == Tokens(chosen.key) {
      SurvivorsAreMaximal(said, matches, other);
      SurvivorsAreMaximal(said, matches, chosen);
    }
  }

  // An account chosen alone: every other account of the pool that is named in full is a
  // shorter name inside its own.
  lemma ChosenAlone(said: set<string>, pool: seq<Account>, chosen: Account, other: Account)
    requires SelectMostSpecific(said, MatchByName(said, pool)).candidates == [chosen]
    requires other in pool && other != chosen && NamedInFull(said, other)
    ensures Tokens(other.key) < Tokens(chosen.key)
  {
    var matches := MatchByName(said, pool);
    FullNameMatches(said, other);
    MatchIsKept(said, pool, other);
    if |matches| > 1 { OnlySurvivor(said, matches, chosen, other); }
  }

  lemma MatchIsKept(said: set<string>, pool: seq<Account>, a: Account)
    ensures a in MatchByName(said, pool) <==> a in pool && Matches(said, a)
  {}

  /** Chosen alone, in full, with nothing specific left over, and above every other full name. */
  ghost predicate TheOneNamed(said: set<string>, pool: seq<Account>, a: Account) {
    && a in pool && FullyNamed(said, a)
    && (forall token :: token in said && token !in Tokens(a.key) ==> IsGenericBalanceWord(token))
    && (forall other :: other in pool && other != a && NamedInFull(said, other) ==> Tokens(other.key) < Tokens(a.key))
  }

  lemma OneCandidate(said: set<string>, pool: seq<Account>)
    requires |SelectMostSpecific(said, MatchByName(said, pool)).candidates| == 1
    ensures var a := SelectMostSpecific(said, MatchByName(said, pool)).candidates[0];
            FullyNamed(said, a) && !HasUnmatchedQualifier(said, a) ==> TheOneNamed(said, pool, a)
  {
    var candidates := SelectMostSpecific(said, MatchByName(said, pool)).candidates;
    var a := candidates[0];
    CandidatesMatch(said, pool, a);
    assert candidates == [a];
    forall other | other in pool && other != a && NamedInFull(said, other) ensures Tokens(other.key) < Tokens(a.key) {
      ChosenAlone(said, pool, a, other);
    }
  }

  lemma ResolvedInSegment(said: set<string>, pool: seq<Account>)
    requires ResolveSingle(said, pool).Some?
    ensures TheOneNamed(said, pool, ResolveSingle(said, pool).value)
  {
    OneCandidate(said, pool);
  }

  // There is only one account a segment can name: the one it resolves to.
  lemma NoOtherResolved(said: set<string>, pool: seq<Account>, x: Account)
    requires ResolveSingle(said, pool).Some? && TheOneNamed(said, pool, x) && NamedInFull(said, x)
    ensures x == ResolveSingle(said, pool).value
  {
    var a := ResolveSingle(said, pool).value;
    ResolvedInSegment(said, pool);
    CandidatesMatch(said, pool, a);
    MatchHasName(said, a);
  }

  // ----- the other direction: what is named is answered

  lemma {:induction false} FilterCounts<T(!new)>(xs: seq<T>, p: T -> bool, x: T)
    ensures multiset(Filter(xs, p))[x] <= multiset(xs)[x]
  {
    if xs != [] {
      FilterCounts(xs[1..], p, x);
      assert xs == [xs[0]] + xs[1..];
    }
  }

  lemma {:induction false} AllTheSame<T>(xs: seq<T>, x: T)
    requires forall y :: y in xs ==> y == x
    ensures multiset(xs)[x] == |xs|
  {
    if xs != [] {
      assert xs[0] in xs && forall y :: y in xs[1..] ==> y in xs;
      AllTheSame(xs[1..], x);
      assert xs == [xs[0]] + xs[1..];
    }
  }

  lemma OnlyOne<T>(xs: seq<T>, x: T)
    requires x in xs && (forall y :: y in xs ==> y == x) && multiset(xs)[x] <= 1
    ensures xs == [x]
  {
    AllTheSame(xs, x);
    assert xs[0] in xs;
  }

  lemma SelectionCounts(said: set<string>, matches: seq<Account>, x: Account)
    ensures multiset(SelectMostSpecific(said, matches).candidates)[x] <= multiset(matches)[x]
  {
    var fully := Filter(matches, (a: Account) => FullyNamed(said, a));
    FilterCounts(matches, (a: Account) => FullyNamed(said, a), x);
    FilterCounts(fully, (a: Account) => !exists b :: b in fully && LessSpecific(a, b), x);
  }

  /** A match is never a name of generic words only, and has some token. */
  lemma MatchHasName(said: set<string>, a: Account)
    requires Matches(said, a)
    ensures Tokens(a.key) != {} && !IsGenericOnlyName(a)
  {}

  /** The one account named is a survivor, and every survivor is that account. */
  lemma TheOneSurvives(said: set<string>, pool: seq<Account>, x: Account, y: Account)
    requires TheOneNamed(said, pool, x) && NamedInFull(said, x) && |MatchByName(said, pool)| > 1
    ensures var candidates := SelectMostSpecific(said, MatchByName(said, pool)).candidates;
            x in candidates && (y in candidates ==> y == x)
  {
    var matches := MatchByName(said, pool);
    FullNameMatches(said, x);
    MatchIsKept(said, pool, x);
    SurvivorsAreMaximal(said, matches, x);
    forall b | b in matches && FullyNamed(said, b) ensures !(Tokens(x.key) < Tokens(b.key)) {
      MatchIsKept(said, pool, b);
      MatchHasName(said, b);
    }
    if y in SelectMostSpecific(said, matches).candidates && y != x {
      SurvivorsAreMaximal(said, matches, y);
      MatchIsKept(said, pool, y);
      MatchHasName(said, y);
    }
  }

  // The one account a question names, present once in the pool, is the one candidate.
  lemma TheOneNamedIsChosen(said: set<string>, pool: seq<Account>, x: Account)
    requires TheOneNamed(said, pool, x) && NamedInFull(said, x) && multiset(pool)[x] == 1
    ensures SelectMostSpecific(said, MatchByName(said, pool)).candidates == [x]
  {
    var matches := MatchByName(said, pool);
    var candidates := SelectMostSpecific(said, matches).candidates;
    FullNameMatches(said, x);
    MatchIsKept(said, pool, x);
    FilterCounts(pool, (a: Account) => Matches(said, a), x);
    SelectionCounts(said, matches, x);
    if |matches| > 1 {
      forall y ensures x in candidates && (y in candidates ==> y == x) { TheOneSurvives(said, pool, x, y); }
    } else {
      assert matches == [matches[0]];
    }
    OnlyOne(candidates, x);
  }

  // A sole candidate that is refused leaves no account unanswered: whatever else of the
  // pool is named in full lacks some specific word of the question too.
  lemma RefusedAlone(said: set<string>, pool: seq<Account>, a: Account, x: Account)
    requires SelectMostSpecific(said, MatchByName(said, pool)).candidates == [a]
    requires HasUnmatchedQualifier(said, a) || !FullyNamed(said, a)
    requires x in pool && NamedInFull(said, x)
    ensures HasUnmatchedQualifier(said, x)
  {
    AboveFullNames(said, pool, a, x);
    StillUnmatched(said, a, x);
  }

  /** A sole candidate contains every full name of the pool, and is then a full name itself. */
  lemma AboveFullNames(said: set<string>, pool: seq<Account>, a: Account, x: Account)
    requires SelectMostSpecific(said, MatchByName(said, pool)).candidates == [a]
    requires x in pool && NamedInFull(said, x)
    ensures Tokens(x.key) <= Tokens(a.key) && FullyNamed(said, a)
  {
    var matches := MatchByName(said, pool);
    FullNameMatches(said, x);
    MatchIsKept(said, pool, x);
    if |matches| > 1 {
      var survivor := EveryFullNameIsCovered(said, matches, x);
      assert survivor in [a];
    } else {
      assert matches == [matches[0]] && x in matches;
    }
  }

  lemma StillUnmatched(said: set<string>, a: Account, x: Account)
    requires HasUnmatchedQualifier(said, a) && Tokens(x.key) <= Tokens(a.key)
    ensures HasUnmatchedQualifier(said, x)
  {
    var token :| token in said && !IsGenericBalanceWord(token) && token !in Tokens(a.key);
    assert token !in Tokens(x.key);
  }
}
