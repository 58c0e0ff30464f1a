/** The tokens of a question survive collapsing, trimming and cutting: no token is made by them. */
module GroundingTokens {
  import opened Common
  import opened Text
  import opened GroundingText

  lemma CollapseHead(t: string)
    requires t != []
    ensures Collapse(t) != [] && Collapse(t)[0] == if IsSpace(t[0]) then ' ' else t[0]
  {}

  lemma RunBehind(c: char, u: string, i: int, j: int)
    requires IsTokenRun([c] + u, i, j) && i > 0
    ensures IsTokenRun(u, i - 1, j - 1) && ([c] + u)[i..j] == u[i - 1..j - 1]
    ensures i == 1 ==> !IsTokenChar(c)
  {
    assert forall k :: 0 <= k < |u| ==> ([c] + u)[k + 1] == u[k];
    forall k | i - 1 <= k < j - 1 ensures IsTokenChar(u[k]) { assert ([c] + u)[k + 1] == u[k]; }
  }

  lemma SpaceOpensNoRun(u: string, i: int, j: int)
    requires IsTokenRun([' '] + u, i, j)
    ensures i > 0 && IsTokenRun(u, i - 1, j - 1)
  {
    assert ([' '] + u)[0] == ' ';
    RunBehind(' ', u, i, j);
  }

  lemma RunMoved(t: string, n: nat, p: int, q: int)
    requires n <= |t| && IsTokenRun(t[n..], p, q) && (p == 0 && n > 0 ==> !IsTokenChar(t[n - 1]))
    ensures IsTokenRun(t, n + p, n + q) && t[n + p..n + q] == t[n..][p..q]
  {
    assert forall k :: 0 <= k < |t| - n ==> t[n..][k] == t[n + k];
    forall k | n + p <= k < n + q ensures IsTokenChar(t[k]) { assert t[n..][k - n] == t[k]; }
  }

  lemma CollapseAtSpace(t: string) returns (n: nat)
    requires t != [] && IsSpace(t[0])
    ensures 1 <= n <= |t| && IsSpace(t[n - 1]) && Collapse(t) == [' '] + Collapse(t[n..])
  {
    n := RunEnd(t[1..], 0, IsSpace) + 1;
    RunEndsThere(t[1..], 0, IsSpace);
    if n > 1 { assert t[n - 1] == t[1..][n - 2]; }
  }

  lemma CollapseAtLetter(t: string)
    requires t != [] && !IsSpace(t[0])
    ensures Collapse(t) == [t[0]] + Collapse(t[1..])
  {}

  /** A run of a collapsed text is one of the text, and opens the one if it opens the other. */
  ghost predicate Kept(t: string, p: int, q: int, s: string, i: int, j: int) {
    IsTokenRun(t, p, q) && IsTokenRun(s, i, j) && t[p..q] == s[i..j] && (p == 0 <==> i == 0)
  }

  /** One step of collapsing keeps the runs behind its first character. */
  lemma KeptBehind(t: string, n: nat, c: char, u: string, i: int, j: int, p: int, q: int)
    requires 1 <= n <= |t| && i > 0 && IsTokenRun([c] + u, i, j) && (i == 1 ==> !IsTokenChar(t[n - 1]))
    requires Kept(t[n..], p, q, u, i - 1, j - 1)
    ensures Kept(t, n + p, n + q, [c] + u, i, j)
  {
    RunBehind(c, u, i, j);
    RunMoved(t, n, p, q);
  }

  lemma {:induction false} CollapsedRun(t: string, i: int, j: int) returns (p: int, q: int)
    requires IsTokenRun(Collapse(t), i, j)
    ensures Kept(t, p, q, Collapse(t), i, j)
    decreases |t|
  {
    if IsSpace(t[0]) {
      p, q := RunAfterSpace(t, i, j);
    } else if i > 0 {
      p, q := RunAfterLetter(t, i, j);
    } else {
      p, q := OpeningRun(t, j);
    }
  }

  lemma {:induction false} RunAfterSpace(t: string, i: int, j: int) returns (p: int, q: int)
    requires t != [] && IsSpace(t[0]) && IsTokenRun(Collapse(t), i, j)
    ensures Kept(t, p, q, Collapse(t), i, j)
    decreases |t|, 0
  {
    var n := CollapseAtSpace(t);
    var u := Collapse(t[n..]);
    SpaceOpensNoRun(u, i, j);
    var p', q' := CollapsedRun(t[n..], i - 1, j - 1);
    KeptBehind(t, n, ' ', u, i, j, p', q');
    p, q := n + p', n + q';
  }

  lemma {:induction false} RunAfterLetter(t: string, i: int, j: int) returns (p: int, q: int)
    requires t != [] && !IsSpace(t[0]) && i > 0 && IsTokenRun(Collapse(t), i, j)
    ensures Kept(t, p, q, Collapse(t), i, j)
    decreases |t|, 0
  {
    CollapseAtLetter(t);
    var u := Collapse(t[1..]);
    RunBehind(t[0], u, i, j);
    var p', q' := CollapsedRun(t[1..], i - 1, j - 1);
    KeptBehind(t, 1, t[0], u, i, j, p', q');
    p, q := 1 + p', 1 + q';
  }

  lemma Longer(c: char, u: string, v: string, j: int)
    requires IsTokenRun([c] + u, 0, j) && j > 1 && u != [] && v != [] && v[0] == u[0]
    ensures IsTokenRun(u, 0, j - 1) && IsTokenChar(v[0])
  {
    assert forall k :: 0 <= k < |u| ==> ([c] + u)[k + 1] == u[k];
    forall k | 0 <= k < j - 1 ensures IsTokenChar(u[k]) { assert IsTokenChar(([c] + u)[k + 1]); }
  }

  lemma Prefixed(c: char, u: string, q: int)
    requires IsTokenChar(c) && (if q == 0 then u == [] || !IsTokenChar(u[0]) else IsTokenRun(u, 0, q))
    ensures IsTokenRun([c] + u, 0, q + 1) && ([c] + u)[0..q + 1] == [c] + u[0..q]
  {
    assert forall k :: 0 <= k < |u| ==> ([c] + u)[k + 1] == u[k];
    forall k | 0 <= k < q + 1 ensures IsTokenChar(([c] + u)[k]) { if k > 0 { assert IsTokenChar(u[k - 1]); } }
    assert q < |u| ==> !IsTokenChar(u[q]);
  }

  lemma {:induction false} OpeningRun(t: string, j: int) returns (p: int, q: int)
    requires t != [] && !IsSpace(t[0]) && IsTokenRun(Collapse(t), 0, j)
    ensures p == 0 && Kept(t, 0, q, Collapse(t), 0, j)
    decreases |t|, 0
  {
    var c, u := t[0], t[1..];
    CollapseAtLetter(t);
    assert t == [c] + u && Collapse(t)[0] == c;
    if u != [] { CollapseHead(u); }
    p := 0;
    if j == 1 {
      q := 1;
      assert u != [] ==> Collapse(t)[1] == Collapse(u)[0];
      Prefixed(c, u, 0);
      assert t[0..1] == [c] == Collapse(t)[0..1];
    } else {
      assert Collapse(t)[1] == Collapse(u)[0] && IsTokenChar(Collapse(u)[0]);
      Longer(c, Collapse(u), u, j);
      var p', q' := OpeningRun(u, j - 1);
      q := q' + 1;
      Prefixed(c, u, q');
      Prefixed(c, Collapse(u), j - 1);
    }
  }

  lemma TokensOfCollapsed(t: string)
    ensures Tokens(Collapse(t)) <= Tokens(t)
  {
    forall v | v in Tokens(Collapse(t)) ensures v in Tokens(t) {
      var i, j :| IsTokenRun(Collapse(t), i, j) && j - i > 1 && v == Collapse(t)[i..j];
      var p, q := CollapsedRun(t, i, j);
      assert |t[p..q]| == |v|;
    }
  }

  /** A slice cut where no token stands astride has no other tokens than the text. */
  lemma TokensOfSlice(t: string, n: nat, m: nat)
    requires n <= m <= |t| && (n == 0 || !IsTokenChar(t[n - 1])) && (m == |t| || !IsTokenChar(t[m]))
    ensures Tokens(t[n..m]) <= Tokens(t)
  {
    var s := t[n..m];
    assert forall k :: 0 <= k < |s| ==> s[k] == t[n + k];
    forall v | v in Tokens(s) ensures v in Tokens(t) {
      var i, j :| IsTokenRun(s, i, j) && j - i > 1 && v == s[i..j];
      SliceRun(t, n, m, i, j);
      assert v == t[n + i..n + j];
    }
  }

  lemma SliceRun(t: string, n: nat, m: nat, i: int, j: int)
    requires n <= m <= |t| && (n == 0 || !IsTokenChar(t[n - 1])) && (m == |t| || !IsTokenChar(t[m]))
    requires IsTokenRun(t[n..m], i, j)
    ensures IsTokenRun(t, n + i, n + j) && t[n..m][i..j] == t[n + i..n + j]
  {
    var s := t[n..m];
    assert forall k :: 0 <= k < |s| ==> s[k] == t[n + k];
    forall k | n + i <= k < n + j ensures IsTokenChar(t[k]) { assert s[k - n] == t[k]; }
    assert j < |s| ==> s[j] == t[n + j];
    assert i > 0 ==> s[i - 1] == t[n + i - 1];
  }

  lemma TokensOfTrimmed(t: string)
    ensures Tokens(Trim(t)) <= Tokens(t)
  {
    var k := TrimmedPart(t);
    assert forall c :: IsSpace(c) ==> !IsTokenChar(c);
    TokensOfSlice(t, k, k + |Trim(t)|);
  }

  /** The two halves of a text around a separator. */
  lemma TokensOfHalves(t: string, i: nat, j: nat)
    requires i < j <= |t| && SeparatorAt(t, i) == j - i
    ensures Tokens(Trim(t[..i])) <= Tokens(t) && Tokens(Trim(t[j..])) <= Tokens(t)
  {
    assert !IsTokenChar(t[i]) && !IsTokenChar(t[j - 1]);
    TokensOfSlice(t, 0, i);
    TokensOfSlice(t, j, |t|);
    assert t[0..i] == t[..i] && t[j..|t|] == t[j..];
    TokensOfTrimmed(t[..i]);
    TokensOfTrimmed(t[j..]);
  }

  // What either segment of a mixed question says, the question says.
  lemma SegmentTokens(text: string)
    requires SplitMixed(text).Some?
    ensures var s := SplitMixed(text).value; Tokens(s.funds) <= Tokens(text) && Tokens(s.card) <= Tokens(text)
  {
    var folded := Trim(Collapse(text));
    var funds, card := FirstWord(folded, FUNDS_WORDS, 0), FirstWord(folded, CARD_WORDS, 0);
    var first, second := if funds < card then funds else card, if funds < card then card else funds;
    CutIsSeparator(folded, first, second);
    var cut := CutBetween(folded, first, second).value;
    TokensOfHalves(folded, cut.0, cut.1);
    TokensOfTrimmed(Collapse(text));
    TokensOfCollapsed(text);
  }
}
