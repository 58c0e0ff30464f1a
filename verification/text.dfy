/** Strings as the regular expressions and string methods of the source see them. */
module Text {
  predicate IsSpace(c: char) {
    c == ' ' || '\U{9}' <= c <= '\U{D}' || c == '\U{A0}' || c == '\U{1680}' || '\U{2000}' <= c <= '\U{200A}'
    || c == '\U{2028}' || c == '\U{2029}' || c == '\U{202F}' || c == '\U{205F}' || c == '\U{3000}' || c == '\U{FEFF}'
  }

  predicate IsDigit(c: char) { '0' <= c <= '9' }

  function Digit(c: char): int { c as int - 48 }

  function Char(d: int): (c: char)
    requires 0 <= d < 10
    ensures IsDigit(c) && Digit(c) == d
  {
    (48 + d) as char
  }

  predicate AllDigits(s: string) { forall i :: 0 <= i < |s| ==> IsDigit(s[i]) }

  predicate AllSpace(t: string) { forall i :: 0 <= i < |t| ==> IsSpace(t[i]) }

  predicate OccursAt(t: string, pattern: string, i: int) {
    0 <= i && i + |pattern| <= |t| && t[i..i + |pattern|] == pattern
  }

  /** First occurrence at or after from, or -1. */
  function Find(t: string, pattern: string, from: nat): (i: int)
    ensures i == -1 || (from <= i && OccursAt(t, pattern, i))
    ensures forall j :: from <= j && (i == -1 || j < i) ==> !OccursAt(t, pattern, j)
    decreases |t| - from
  {
    if from > |t| then -1
    else if OccursAt(t, pattern, from) then from
    else Find(t, pattern, from + 1)
  }

  /** Last occurrence at or before upto, or -1. */
  function FindLast(t: string, pattern: string, upto: int): (i: int)
    ensures i == -1 || (i <= upto && OccursAt(t, pattern, i))
    ensures forall j :: j <= upto && j > i ==> !OccursAt(t, pattern, j)
    decreases upto + 1
  {
    if upto < 0 then -1
    else if OccursAt(t, pattern, upto) then upto
    else FindLast(t, pattern, upto - 1)
  }

  /** The end of the longest run, from a position, of characters of a class. */
  function RunEnd(t: string, from: nat, kind: char -> bool): (i: nat)
    requires from <= |t|
    ensures from <= i <= |t|
    decreases |t| - from
  {
    if from < |t| && kind(t[from]) then RunEnd(t, from + 1, kind) else from
  }

  lemma {:induction false} RunEndsThere(t: string, from: nat, kind: char -> bool)
    requires from <= |t|
    ensures var i := RunEnd(t, from, kind);
            (i < |t| ==> !kind(t[i])) && forall j :: from <= j < i ==> kind(t[j])
    decreases |t| - from
  {
    if from < |t| && kind(t[from]) { RunEndsThere(t, from + 1, kind); }
  }

  /** The index of the first character that is not white space, from a position on. */
  function FirstKept(t: string, i: nat): (k: nat)
    requires i <= |t|
    ensures i <= k <= |t|
    decreases |t| - i
  {
    if i < |t| && IsSpace(t[i]) then FirstKept(t, i + 1) else i
  }

  /** The end of what is left of the first n characters without the white space at their end. */
  function LastKept(t: string, n: nat): (m: nat)
    requires n <= |t|
    ensures m <= n
  {
    if n > 0 && IsSpace(t[n - 1]) then LastKept(t, n - 1) else n
  }

  function Trim(t: string): (r: string)
    ensures |r| <= |t|
  {
    var k, n := FirstKept(t, 0), LastKept(t, |t|);
    if k <= n then t[k..n] else []
  }

  lemma {:induction false} FirstIsKept(t: string, i: nat)
    requires i <= |t|
    ensures var k := FirstKept(t, i);
            (k < |t| ==> !IsSpace(t[k])) && forall j :: i <= j < k ==> IsSpace(t[j])
    decreases |t| - i
  {
    if i < |t| && IsSpace(t[i]) { FirstIsKept(t, i + 1); }
  }

  lemma {:induction false} LastIsKept(t: string, n: nat)
    requires n <= |t|
    ensures var m := LastKept(t, n);
            (m > 0 ==> !IsSpace(t[m - 1])) && forall j :: m <= j < n ==> IsSpace(t[j])
  {
    if n > 0 && IsSpace(t[n - 1]) { LastIsKept(t, n - 1); }
  }

  predicate Trimmed(t: string) { t != [] ==> !IsSpace(t[0]) && !IsSpace(t[|t| - 1]) }

  /** What trimming keeps, and that it drops white space only. */
  lemma TrimmedPart(t: string) returns (k: nat)
    ensures k + |Trim(t)| <= |t| && Trim(t) == t[k..k + |Trim(t)|]
    ensures forall m :: 0 <= m < k || k + |Trim(t)| <= m < |t| ==> IsSpace(t[m])
    ensures Trim(t) != [] ==> !IsSpace(t[k]) && !IsSpace(t[k + |Trim(t)| - 1])
  {
    k := FirstKept(t, 0);
    FirstIsKept(t, 0);
    LastIsKept(t, |t|);
  }

  // Trimming is what is left between the first and the last character that is no white space.
  lemma TrimIs(t: string, i: nat, j: nat)
    requires i < j <= |t| && !IsSpace(t[i]) && !IsSpace(t[j - 1])
    requires forall m :: 0 <= m < i || j <= m < |t| ==> IsSpace(t[m])
    ensures Trim(t) == t[i..j]
  {
    FirstIsKept(t, 0);
    LastIsKept(t, |t|);
  }

  lemma TrimIsTrimmed(t: string)
    ensures Trimmed(Trim(t))
  {
    var k := TrimmedPart(t);
  }

  lemma TrimmedIsFixed(t: string)
    requires Trimmed(t)
    ensures Trim(t) == t
  {
    if t != [] { TrimIs(t, 0, |t|); }
  }

  /** One text is a contiguous slice of another. */
  ghost predicate SliceOf(s: string, t: string) {
    exists i, j :: 0 <= i <= j <= |t| && s == t[i..j]
  }

  lemma SliceBy(t: string, i: nat, j: nat)
    requires i <= j <= |t|
    ensures SliceOf(t[i..j], t)
  {}

  lemma SliceOfSlice(r: string, s: string, t: string)
    requires SliceOf(r, s) && SliceOf(s, t)
    ensures SliceOf(r, t)
  {
    var i, j :| 0 <= i <= j <= |s| && r == s[i..j];
    var k, l :| 0 <= k <= l <= |t| && s == t[k..l];
    SubSlice(t, k, l, i, j);
    SliceBy(t, k + i, k + j);
  }

  lemma SubSlice(t: string, k: nat, l: nat, i: nat, j: nat)
    requires k <= l <= |t| && i <= j <= l - k
    ensures t[k..l][i..j] == t[k + i..k + j]
  {
    forall m | 0 <= m < j - i ensures t[k..l][i..j][m] == t[k + i..k + j][m] {
      assert t[k..l][i + m] == t[k + (i + m)];
    }
  }

  lemma TrimIsSlice(t: string)
    ensures SliceOf(Trim(t), t)
  {
    var i := TrimmedPart(t);
    SliceBy(t, i, i + |Trim(t)|);
  }

  lemma WholeSlice(t: string)
    ensures SliceOf(t, t)
  {
    assert t == t[0..|t|];
    SliceBy(t, 0, |t|);
  }

  lemma LetterAt(t: string, pattern: string, i: nat, k: nat)
    requires OccursAt(t, pattern, i) && k < |pattern|
    ensures t[i + k] == pattern[k]
  {
    assert t[i..i + |pattern|][k] == t[i + k];
  }

  lemma FirstOf(t: string, pattern: string, i: nat)
    requires OccursAt(t, pattern, i) && pattern != []
    ensures t[i] == pattern[0] && t[i + |pattern| - 1] == pattern[|pattern| - 1]
  {
    assert t[i..i + |pattern|][0] == t[i] && t[i..i + |pattern|][|pattern| - 1] == t[i + |pattern| - 1];
  }
}
