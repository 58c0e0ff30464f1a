/** Two separate tool-call pairs around a text: both are cut, and the text between them survives. */
module SanitizerPairs {
  import opened Common
  import opened Text
  import opened SegmentStripper
  import opened Sanitizer

  predicate TagFree(s: string) {
    forall i :: 0 <= i < |s| ==> !OccursAt(s, OPEN_TAG, i) && !OccursAt(s, CLOSE_TAG, i)
  }

  function Pair(body: string): string { OPEN_TAG + (body + CLOSE_TAG) }

  lemma Letters(k: nat)
    ensures k < |OPEN_TAG| ==> (OPEN_TAG[k] == '<' <==> k == 0)
    ensures k < |CLOSE_TAG| ==> (CLOSE_TAG[k] == '<' <==> k == 0)
    ensures OPEN_TAG[1] == 't' && CLOSE_TAG[1] == '/' && CLOSE_TAG[|CLOSE_TAG| - 1] == '>'
  {}

  /** A tag in a body that is followed by an angle bracket lies wholly inside the body. */
  lemma TagInside(t: string, start: nat, end: nat, tag: string, j: nat)
    requires start <= j < end < |t| && t[end] == '<' && (tag == OPEN_TAG || tag == CLOSE_TAG) && OccursAt(t, tag, j)
    ensures OccursAt(t[start..end], tag, j - start)
  {
    if j + |tag| > end {
      LetterAt(t, tag, j, end - j);
      Letters(end - j);
    }
    SubSlice(t, start, end, j - start, j - start + |tag|);
  }

  /** Inside a pair no tag stands but its own two. */
  lemma OwnTags(t: string, open: nat, body: string, tag: string, j: nat)
    requires TagFree(body) && open + |Pair(body)| <= |t| && t[open..open + |Pair(body)|] == Pair(body)
    requires (tag == OPEN_TAG || tag == CLOSE_TAG) && open <= j < open + |Pair(body)| && OccursAt(t, tag, j)
    ensures if tag == OPEN_TAG then j == open else j == open + |OPEN_TAG| + |body|
  {
    var close := open + |OPEN_TAG| + |body|;
    PairTags(t, open, body);
    LetterAt(t, tag, j, 0);
    LetterAt(t, tag, j, 1);
    LetterAt(t, OPEN_TAG, open, 1);
    LetterAt(t, CLOSE_TAG, close, 0);
    LetterAt(t, CLOSE_TAG, close, 1);
    Letters(0);
    if j < open + |OPEN_TAG| {
      LetterAt(t, OPEN_TAG, open, j - open);
      Letters(j - open);
    } else if j < close {
      TagInside(t, open + |OPEN_TAG|, close, tag, j);
    } else {
      LetterAt(t, CLOSE_TAG, close, j - close);
      Letters(j - close);
    }
  }

  lemma PairTags(t: string, open: nat, body: string)
    requires open + |Pair(body)| <= |t| && t[open..open + |Pair(body)|] == Pair(body)
    ensures OccursAt(t, OPEN_TAG, open) && OccursAt(t, CLOSE_TAG, open + |OPEN_TAG| + |body|)
    ensures t[open + |OPEN_TAG|..open + |OPEN_TAG| + |body|] == body
  {
    var n, m := |OPEN_TAG|, |OPEN_TAG| + |body|;
    var p := Pair(body);
    assert p[0..n] == OPEN_TAG && p[n..m] == body && p[m..m + |CLOSE_TAG|] == CLOSE_TAG;
    SubSlice(t, open, open + |p|, 0, n);
    SubSlice(t, open, open + |p|, n, m);
    SubSlice(t, open, open + |p|, m, m + |CLOSE_TAG|);
  }

  // ----- the pair at the head

  lemma HeadPair(body: string, rest: string, isPayload: string -> bool)
    requires TagFree(body)
    ensures LeadingSegmentLength(Pair(body) + rest, isPayload) == |Pair(body)|
  {
    var t := Pair(body) + rest;
    assert t[0..|Pair(body)|] == Pair(body);
    PairTags(t, 0, body);
    var close := |OPEN_TAG| + |body|;
    forall j | |OPEN_TAG| <= j < close ensures !OccursAt(t, CLOSE_TAG, j) {
      if OccursAt(t, CLOSE_TAG, j) { OwnTags(t, 0, body, CLOSE_TAG, j); }
    }
    HeadPairEndsAtFirstCloser(t, isPayload, close);
  }

  // ----- the pair at the tail

  lemma TailPair(front: string, body: string)
    requires TagFree(body)
    ensures TrailingPair(front + Pair(body)) == |front|
  {
    var t, open := front + Pair(body), |front|;
    var close := open + |OPEN_TAG| + |body|;
    assert t[open..open + |Pair(body)|] == Pair(body);
    PairTags(t, open, body);
    LastCloser(t, close);
    assert t[close + |CLOSE_TAG|..] == [];
    LastOpener(t, open, body);
    NoCloserIn(body);
  }

  lemma LastCloser(t: string, close: nat)
    requires OccursAt(t, CLOSE_TAG, close) && close + |CLOSE_TAG| == |t|
    ensures FindLast(t, CLOSE_TAG, |t|) == close
  {}

  lemma LastOpener(t: string, open: nat, body: string)
    requires TagFree(body) && open + |Pair(body)| <= |t| && t[open..open + |Pair(body)|] == Pair(body)
    ensures FindLast(t, OPEN_TAG, open + |OPEN_TAG| + |body|) == open
  {
    PairTags(t, open, body);
    var last := FindLast(t, OPEN_TAG, open + |OPEN_TAG| + |body|);
    if last != open { OwnTags(t, open, body, OPEN_TAG, last); }
  }

  lemma NoCloserIn(body: string)
    requires TagFree(body)
    ensures Find(body, CLOSE_TAG, 0) == -1
  {}

  lemma TailPairIsCut(front: string, body: string, isPayload: string -> bool)
    requires TagFree(body)
    ensures TrailingSegmentLength(front + Pair(body), isPayload) == |Pair(body)|
  {
    TailPair(front, body);
  }

  // ----- both pairs

  /** Trimming a text with something behind it that ends in no white space trims its front only. */
  lemma TrimFront(mid: string, k: nat, p: string)
    requires k < |mid| && !IsSpace(mid[k]) && (forall m :: 0 <= m < k ==> IsSpace(mid[m]))
    requires p != [] && !IsSpace(p[|p| - 1])
    ensures Trim(mid + p) == mid[k..] + p
  {
    var t := mid + p;
    assert t[k] == mid[k] && t[|t| - 1] == p[|p| - 1];
    assert forall m :: 0 <= m < k ==> t[m] == mid[m];
    TrimIs(t, k, |t|);
    assert t[k..|t|] == mid[k..] + p;
  }

  /** The front white space gone, the rest is trimmed as before. */
  lemma TrimAgain(mid: string, k: nat)
    requires k <= |mid| && k + |Trim(mid)| <= |mid| && Trim(mid) != [] && Trim(mid) == mid[k..k + |Trim(mid)|]
    requires forall m :: 0 <= m < k || k + |Trim(mid)| <= m < |mid| ==> IsSpace(mid[m])
    ensures Trim(mid[k..]) == Trim(mid)
  {
    var n, u := |Trim(mid)|, mid[k..];
    TrimIsTrimmed(mid);
    assert u[0] == mid[k] == Trim(mid)[0] && u[n - 1] == mid[k + n - 1] == Trim(mid)[n - 1];
    assert forall m :: n <= m < |u| ==> u[m] == mid[k + m];
    TrimIs(u, 0, n);
    SubSlice(mid, k, |mid|, 0, n);
  }

  lemma CutsHead(body: string, rest: string, isPayload: string -> bool)
    requires TagFree(body)
    ensures Cut(Pair(body) + rest, ToolCalls(isPayload)) == Some(Trim(rest))
  {
    HeadPair(body, rest, isPayload);
    CutHead(Pair(body) + rest, rest, |Pair(body)|, ToolCalls(isPayload));
  }

  lemma CutsTail(front: string, body: string, isPayload: string -> bool)
    requires TagFree(body) && ProseHead(front)
    ensures Cut(front + Pair(body), ToolCalls(isPayload)) == Some(Trim(front))
  {
    ProseStays(front, Pair(body));
    HeadDecides(front + Pair(body), isPayload);
    TailPairIsCut(front, body, isPayload);
    CutTail(front + Pair(body), front, |front|, ToolCalls(isPayload));
  }

  lemma ProseStays(front: string, p: string)
    requires ProseHead(front)
    ensures ProseHead(front + p)
  {}

  /** The text between the pairs is cut no further. */
  lemma MidStays(mid: string, isPayload: string -> bool)
    requires ProseHead(Trim(mid)) && ProseTail(Trim(mid))
    ensures ToolCalls(isPayload).leading(Trim(mid)) == 0 && ToolCalls(isPayload).trailing(Trim(mid)) == 0
  {
    TrimIsTrimmed(mid);
    HeadDecides(Trim(mid), isPayload);
    TailDecides(Trim(mid), isPayload);
  }

  lemma PairEnds(body: string)
    ensures Pair(body)[0] == '<' && Pair(body)[|Pair(body)| - 1] == '>'
  {
    Letters(0);
  }

  // Of a message that is two tool-call pairs with prose between them, both pairs go and
  // the whole text between them stays, whatever it quotes.
  lemma TextBetweenPairsSurvives(a: string, mid: string, b: string, isPayload: string -> bool)
    requires TagFree(a) && TagFree(b) && |Pair(a) + (mid + Pair(b))| <= 200000
    requires ProseHead(Trim(mid)) && ProseTail(Trim(mid))
    ensures Sanitized(Pair(a) + (mid + Pair(b)), isPayload) == Result(Trim(mid), 2)
  {
    var raw := Pair(a) + (mid + Pair(b));
    PairEnds(a);
    PairEnds(b);
    assert raw[0] == Pair(a)[0] && raw[|raw| - 1] == Pair(b)[|Pair(b)| - 1];
    TrimmedIsFixed(raw);
    var k := TrimmedPart(mid);
    var front := mid[k..];
    TrimFront(mid, k, Pair(b));
    TrimAgain(mid, k);
    assert front[0] == Trim(mid)[0];
    CutsHead(a, mid + Pair(b), isPayload);
    CutsTail(front, b, isPayload);
    MidStays(mid, isPayload);
    TwoPasses(raw, front + Pair(b), Trim(mid), ToolCalls(isPayload));
  }
}
