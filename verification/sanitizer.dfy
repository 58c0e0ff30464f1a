/**
 * The markup sanitizer: invocation-shaped segments are cut from the two ends of a
 * trimmed message, one block per pass. Whether a JSON text is a tool-call payload is
 * decided by a library parser, here a parameter.
 */
module Sanitizer {
  import opened Common
  import opened BraceScanner
  import opened SegmentStripper
  import opened Text

  const SPECIAL_PAYLOAD_WINDOW := 512
  const MAX_REMOVED_BLOCKS := 64

  const OPEN_TAG := "<tool_call>"
  const CLOSE_TAG := "</tool_call>"
  const FENCE_MARK := "```"
  const SPECIAL_ASCII := "<|tool_call|>"
  const SPECIAL_BLOCK := "<|tool\U{2581}call|>"

  /** The class [ \t\r\n]. */
  predicate IsPlainSpace(c: char) { c == ' ' || c == '\t' || c == '\r' || c == '\n' }

  // ----- one leading segment

  predicate IsTokenChar(c: char) { c != '|' && c != '<' && c != '>' }

  /** Length of a special token <|...|> of 1 to 32 characters at a position, or 0. */
  function SpecialTokenLength(t: string, at: nat): (n: nat)
    ensures n > 0 ==> at + n <= |t| && t[at] == '<' && t[at + n - 1] == '>'
  {
    if !OccursAt(t, "<|", at) then 0
    else
      var end := RunEnd(t, at + 2, IsTokenChar);
      if 1 <= end - (at + 2) <= 32 && OccursAt(t, "|>", end) then
        assert t[at] == t[at..at + 2][0] && t[end + 1] == t[end..end + 2][1];
        end + 2 - at
      else 0
  }

  /** First special token that lies wholly between two positions, or -1. */
  function FindSpecial(t: string, from: nat, limit: nat): (i: int)
    ensures i == -1 || (from <= i && SpecialTokenLength(t, i) > 0 && i + SpecialTokenLength(t, i) <= limit)
    decreases limit - from
  {
    if from >= limit then -1
    else if SpecialTokenLength(t, from) > 0 && from + SpecialTokenLength(t, from) <= limit then from
    else FindSpecial(t, from + 1, limit)
  }

  predicate IsBlank(c: char) { c == ' ' || c == '\t' }

  predicate IsInfoChar(c: char) {
    'A' <= c <= 'Z' || 'a' <= c <= 'z' || '0' <= c <= '9' || c == '_' || c == '-'
  }

  /** Where the body of a fence that opens the text begins, or -1. */
  function FenceBody(t: string): (i: int)
    ensures i == -1 || (4 <= i <= |t| && OccursAt(t, FENCE_MARK, 0))
  {
    if !OccursAt(t, FENCE_MARK, 0) then -1
    else
      var eol := RunEnd(t, RunEnd(t, RunEnd(t, 3, IsBlank), IsInfoChar), IsBlank);
      if OccursAt(t, "\r\n", eol) then eol + 2
      else if OccursAt(t, "\n", eol) then eol + 1
      else -1
  }

  /** A pair wrapped in the fence: some closer after the opener is followed by the closing fence. */
  predicate IsFencedPair(t: string) {
    && FenceBody(t) != -1
    && var open := RunEnd(t, FenceBody(t), IsPlainSpace);
       && OccursAt(t, OPEN_TAG, open)
       && exists j :: open + |OPEN_TAG| <= j <= |t| && OccursAt(t, CLOSE_TAG, j)
                      && OccursAt(t, FENCE_MARK, RunEnd(t, j + |CLOSE_TAG|, IsPlainSpace))
  }

  /** A fence whose whole body is one object that parses as a tool-call payload. */
  predicate IsPayloadFence(fence: string, isPayload: string -> bool) {
    var bodyStart := Find(fence, "\n", 0) + 1;
    var bodyEnd := FindLast(fence, FENCE_MARK, |fence|);
    && 0 < bodyStart < bodyEnd
    && var body := Trim(fence[bodyStart..bodyEnd]);
       && OccursAt(body, "{", 0) && BalancedEnd(body, 0) == |body| && isPayload(body)
  }

  predicate IsToolCallFence(fence: string, isPayload: string -> bool) {
    IsFencedPair(fence) || IsPayloadFence(fence, isPayload)
  }

  /** What a special open token takes with it; at is where the token ends. */
  function SpecialSegment(t: string, at: nat): (n: nat)
    requires at <= |t|
    ensures at <= n <= |t|
  {
    var cursor := RunEnd(t, at, IsSpace);
    var jsonEnd := BalancedEnd(t, cursor);
    BalancedEndInLimit(t, cursor);
    var after := if jsonEnd > 0 then RunEnd(t, jsonEnd, IsSpace) else cursor;
    if SpecialTokenLength(t, after) > 0 then after + SpecialTokenLength(t, after)
    else if jsonEnd >= 0 then after
    else
      var limit := if after + SPECIAL_PAYLOAD_WINDOW < |t| then after + SPECIAL_PAYLOAD_WINDOW else |t|;
      var closing := FindSpecial(t, after, limit);
      if closing != -1 then closing + SpecialTokenLength(t, closing) else after
  }

  function ToolCallFences(isPayload: string -> bool): string -> bool {
    (fence: string) => IsToolCallFence(fence, isPayload)
  }

  /** A position found, if the text from there to an end is accepted, or -1. */
  function IfAccepted(t: string, open: int, end: int, accepts: string -> bool): (r: int)
    requires open == -1 || 0 <= open <= end <= |t|
    ensures r == open || r == -1
  {
    if open != -1 && accepts(t[open..end]) then open else -1
  }

  /** Where the fence that opens the text closes, or -1. */
  function FirstFenceEnd(t: string): (end: int)
    ensures end == -1 || (0 <= end - 3 && end <= |t| && OccursAt(t, FENCE_MARK, 0) && OccursAt(t, FENCE_MARK, end - 3))
  {
    var body := FenceBody(t);
    var mark := if body == -1 then -1 else Find(t, FENCE_MARK, body);
    if mark == -1 then -1 else mark + 3
  }

  function LeadingFence(t: string, isPayload: string -> bool): (n: nat)
    ensures n <= |t|
  {
    var end := FirstFenceEnd(t);
    if end != -1 && IfAccepted(t, 0, end, ToolCallFences(isPayload)) == 0 then end else 0
  }

  function LeadingSegmentLength(t: string, isPayload: string -> bool): (n: nat)
    ensures n <= |t|
  {
    var close := Find(t, CLOSE_TAG, |OPEN_TAG|);
    if OccursAt(t, OPEN_TAG, 0) && close != -1 then close + |CLOSE_TAG|
    else if OccursAt(t, OPEN_TAG, 0) then |t|
    else if OccursAt(t, SPECIAL_ASCII, 0) || OccursAt(t, SPECIAL_BLOCK, 0) then SpecialSegment(t, 13)
    else LeadingFence(t, isPayload)
  }

  // ----- one trailing segment

  /** Where a trailing pair opens, or -1: the last opener before a closer that ends the text, with no closer between. */
  function TrailingPair(t: string): (open: int)
    ensures open == -1 || (0 <= open < |t| && OccursAt(t, OPEN_TAG, open))
  {
    var close := FindLast(t, CLOSE_TAG, |t|);
    if close == -1 || !AllSpace(t[close + |CLOSE_TAG|..]) then -1
    else
      var open := FindLast(t, OPEN_TAG, close);
      if open != -1 && (close < open + |OPEN_TAG| || Find(t[open + |OPEN_TAG|..close], CLOSE_TAG, 0) == -1) then open else -1
  }

  /** Where the last fence opens, if it closes at the end of the text and stands behind white space, or -1. */
  function LastFence(t: string): (open: int)
    ensures open == -1 || (0 <= open <= FindLast(t, FENCE_MARK, |t|) && OccursAt(t, FENCE_MARK, open))
  {
    var closing := FindLast(t, FENCE_MARK, |t|);
    if closing == -1 || !AllSpace(t[closing + 3..]) then -1
    else
      var opener := FindLast(t, FENCE_MARK, if closing == 0 then 0 else closing - 1);
      if opener != -1 && (opener == 0 || IsSpace(t[opener - 1])) then opener else -1
  }

  function TrailingFence(t: string, isPayload: string -> bool): (open: int)
    ensures open == -1 || 0 <= open < |t|
  {
    IfAccepted(t, LastFence(t), FindLast(t, FENCE_MARK, |t|) + 3, ToolCallFences(isPayload))
  }

  /** A special token followed by nothing but plain white space. */
  function TrailingSpecial(t: string): (n: nat)
    ensures n <= |t|
  {
    var i := FindSpecialTail(t, 0);
    if i == -1 then 0 else |t| - i
  }

  function FindSpecialTail(t: string, from: nat): (i: int)
    ensures i == -1 || (0 <= i && i + 13 <= |t| && (OccursAt(t, SPECIAL_ASCII, i) || OccursAt(t, SPECIAL_BLOCK, i))
                        && RunEnd(t, i + 13, IsPlainSpace) == |t|)
    decreases |t| - from
  {
    if from >= |t| then -1
    else if (OccursAt(t, SPECIAL_ASCII, from) || OccursAt(t, SPECIAL_BLOCK, from)) && RunEnd(t, from + 13, IsPlainSpace) == |t| then from
    else FindSpecialTail(t, from + 1)
  }

  function TrailingSegmentLength(t: string, isPayload: string -> bool): (n: nat)
    ensures n <= |t|
  {
    if TrailingPair(t) != -1 then |t| - TrailingPair(t)
    else if TrailingFence(t, isPayload) != -1 then |t| - TrailingFence(t, isPayload)
    else TrailingSpecial(t)
  }

  // ----- the loop

  /** The segments that look like a printed tool call. */
  function ToolCalls(isPayload: string -> bool): (kind: Segments)
    ensures Bounded(kind) && kind.most == MAX_REMOVED_BLOCKS
  {
    Segments((t: string) => LeadingSegmentLength(t, isPayload), (t: string) => TrailingSegmentLength(t, isPayload), MAX_REMOVED_BLOCKS)
  }

  function Sanitized(raw: string, isPayload: string -> bool): Result { Stripped(raw, ToolCalls(isPayload)) }

  method StripToolCallMarkup(raw: string, isPayload: string -> bool) returns (text: string, removedBlocks: nat, changed: bool)
    ensures Result(text, removedBlocks) == Sanitized(raw, isPayload)
    ensures changed == (removedBlocks > 0) && removedBlocks <= 64
    ensures raw == "" || |raw| > 200000 ==> text == raw && !changed
  {
    text, removedBlocks, changed := StripSegments(raw, ToolCalls(isPayload));
  }

  // ----- what comes out

  // The sanitized text is one contiguous slice of the message, and sanitizing it again
  // changes nothing if fewer than 64 blocks were removed.
  lemma SanitizedIsSliceAndFixpoint(raw: string, isPayload: string -> bool)
    ensures var r := Sanitized(raw, isPayload);
            && SliceOf(r.text, raw)
            && (r.removedBlocks < 64 ==> Sanitized(r.text, isPayload) == Result(r.text, 0))
  {
    StrippedIsSliceAndFixpoint(raw, ToolCalls(isPayload));
  }

  lemma ToolCallsOf(t: string, isPayload: string -> bool)
    ensures ToolCalls(isPayload).leading(t) == LeadingSegmentLength(t, isPayload)
    ensures ToolCalls(isPayload).trailing(t) == TrailingSegmentLength(t, isPayload)
  {}

  lemma NothingCut(t: string, removed: nat, isPayload: string -> bool)
    requires LeadingSegmentLength(t, isPayload) == 0 && TrailingSegmentLength(t, isPayload) == 0
    ensures Strip(t, removed, ToolCalls(isPayload)) == Result(t, removed)
  {
    ToolCallsOf(t, isPayload);
    NoSegment(t, removed, ToolCalls(isPayload));
  }

  lemma NothingRemoved(raw: string, isPayload: string -> bool)
    requires |raw| <= 200000
    requires LeadingSegmentLength(Trim(raw), isPayload) == 0 && TrailingSegmentLength(Trim(raw), isPayload) == 0
    ensures Sanitized(raw, isPayload) == Result(Trim(raw), 0)
  {
    NothingCut(Trim(raw), 0, isPayload);
  }

  /** No opener and no special token anywhere, and no stretch between fence marks that is a payload fence. */
  ghost predicate Unmarked(t: string, isPayload: string -> bool) {
    && (forall i: nat :: !OccursAt(t, OPEN_TAG, i) && !OccursAt(t, SPECIAL_ASCII, i) && !OccursAt(t, SPECIAL_BLOCK, i))
    && (forall i, j :: 0 <= i <= j <= |t| && OccursAt(t, FENCE_MARK, i) && OccursAt(t, FENCE_MARK, j - 3)
                       ==> !IsPayloadFence(t[i..j], isPayload))
  }

  predicate ProseHead(t: string) { t != [] && t[0] != '<' && t[0] != '`' }

  predicate ProseTail(t: string) { t != [] && t[|t| - 1] != '>' && t[|t| - 1] != '`' }

  // What is kept: a message that at its head and at its tail is prose, or holds no opener,
  // special token or payload fence at all, loses only outer white space. So other code
  // fences are kept wherever they stand, and so is markup quoted between prose.
  lemma ProseSurvives(raw: string, isPayload: string -> bool)
    requires |raw| <= 200000
    requires ProseHead(Trim(raw)) || Unmarked(Trim(raw), isPayload)
    requires ProseTail(Trim(raw)) || Unmarked(Trim(raw), isPayload)
    ensures Sanitized(raw, isPayload) == Result(Trim(raw), 0)
  {
    var t := Trim(raw);
    TrimIsTrimmed(raw);
    if ProseHead(t) { HeadDecides(t, isPayload); } else { NoHead(t, isPayload); }
    if ProseTail(t) { TailDecides(t, isPayload); } else { NoTail(t, isPayload); }
    NothingRemoved(raw, isPayload);
  }

  lemma OccursInside(t: string, i: nat, j: nat, pattern: string, k: nat)
    requires i <= j <= |t| && OccursAt(t[i..j], pattern, k)
    ensures OccursAt(t, pattern, i + k)
  {
    SubSlice(t, i, j, k, k + |pattern|);
  }

  lemma NoToolCallFence(t: string, i: nat, j: nat, isPayload: string -> bool)
    requires Unmarked(t, isPayload) && i <= j <= |t| && j >= 3 && OccursAt(t, FENCE_MARK, i) && OccursAt(t, FENCE_MARK, j - 3)
    ensures !IsToolCallFence(t[i..j], isPayload)
  {
    var fence := t[i..j];
    if IsFencedPair(fence) {
      var open := RunEnd(fence, FenceBody(fence), IsPlainSpace);
      OccursInside(t, i, j, OPEN_TAG, open);
    }
  }

  lemma NotAccepted(t: string, open: int, end: int, accepts: string -> bool)
    requires open == -1 || (0 <= open <= end <= |t| && !accepts(t[open..end]))
    ensures IfAccepted(t, open, end, accepts) == -1
  {}

  lemma NoHeadFence(t: string, isPayload: string -> bool)
    requires Unmarked(t, isPayload)
    ensures LeadingFence(t, isPayload) == 0
  {
    var end := FirstFenceEnd(t);
    if end != -1 {
      NoToolCallFence(t, 0, end, isPayload);
      NotAccepted(t, 0, end, ToolCallFences(isPayload));
    }
  }

  lemma NoHead(t: string, isPayload: string -> bool)
    requires Unmarked(t, isPayload)
    ensures LeadingSegmentLength(t, isPayload) == 0
  {
    NoHeadFence(t, isPayload);
    assert !OccursAt(t, OPEN_TAG, 0) && !OccursAt(t, SPECIAL_ASCII, 0) && !OccursAt(t, SPECIAL_BLOCK, 0);
  }

  lemma NoTailFence(t: string, isPayload: string -> bool)
    requires Unmarked(t, isPayload)
    ensures TrailingFence(t, isPayload) == -1
  {
    var open, end := LastFence(t), FindLast(t, FENCE_MARK, |t|) + 3;
    if open != -1 { NoToolCallFence(t, open, end, isPayload); }
    NotAccepted(t, open, end, ToolCallFences(isPayload));
  }

  lemma NoTail(t: string, isPayload: string -> bool)
    requires Unmarked(t, isPayload)
    ensures TrailingSegmentLength(t, isPayload) == 0
  {
    NoTailFence(t, isPayload);
    assert forall i: nat :: !OccursAt(t, OPEN_TAG, i);
  }

  lemma HeadDecides(t: string, isPayload: string -> bool)
    requires ProseHead(t)
    ensures LeadingSegmentLength(t, isPayload) == 0
  {
    if OccursAt(t, OPEN_TAG, 0) { FirstOf(t, OPEN_TAG, 0); }
    if OccursAt(t, SPECIAL_ASCII, 0) { FirstOf(t, SPECIAL_ASCII, 0); }
    if OccursAt(t, SPECIAL_BLOCK, 0) { FirstOf(t, SPECIAL_BLOCK, 0); }
    if OccursAt(t, FENCE_MARK, 0) { FirstOf(t, FENCE_MARK, 0); }
  }

  /** A pattern followed by white space only ends a trimmed text. */
  lemma EndsWith(t: string, pattern: string, i: nat)
    requires Trimmed(t) && OccursAt(t, pattern, i) && pattern != []
    requires forall j :: i + |pattern| <= j < |t| ==> IsSpace(t[j])
    ensures t[|t| - 1] == pattern[|pattern| - 1]
  {
    FirstOf(t, pattern, i);
  }

  lemma NoProsePair(t: string)
    requires Trimmed(t) && ProseTail(t)
    ensures TrailingPair(t) == -1
  {
    var close := FindLast(t, CLOSE_TAG, |t|);
    if close != -1 && AllSpace(t[close + |CLOSE_TAG|..]) {
      SpaceAfter(t, close + |CLOSE_TAG|);
      EndsWith(t, CLOSE_TAG, close);
    }
  }

  lemma NoProseFence(t: string, isPayload: string -> bool)
    requires Trimmed(t) && ProseTail(t)
    ensures TrailingFence(t, isPayload) == -1
  {
    var closing := FindLast(t, FENCE_MARK, |t|);
    if closing != -1 && AllSpace(t[closing + 3..]) {
      SpaceAfter(t, closing + 3);
      EndsWith(t, FENCE_MARK, closing);
    }
  }

  lemma NoProseSpecial(t: string)
    requires Trimmed(t) && ProseTail(t)
    ensures TrailingSpecial(t) == 0
  {
    var i := FindSpecialTail(t, 0);
    if i != -1 {
      RunEndsThere(t, i + 13, IsPlainSpace);
      if OccursAt(t, SPECIAL_ASCII, i) { EndsWith(t, SPECIAL_ASCII, i); } else { EndsWith(t, SPECIAL_BLOCK, i); }
    }
  }

  lemma TailDecides(t: string, isPayload: string -> bool)
    requires Trimmed(t) && ProseTail(t)
    ensures TrailingSegmentLength(t, isPayload) == 0
  {
    NoProsePair(t);
    NoProseFence(t, isPayload);
    NoProseSpecial(t);
  }

  lemma SpaceAfter(t: string, n: nat)
    requires n <= |t| && AllSpace(t[n..])
    ensures forall j :: n <= j < |t| ==> IsSpace(t[j])
  {
    forall j | n <= j < |t| ensures IsSpace(t[j]) { assert t[j] == t[n..][j - n]; }
  }

  // A removed head pair ends at the first closer after its opener.
  lemma HeadPairEndsAtFirstCloser(t: string, isPayload: string -> bool, close: nat)
    requires OccursAt(t, OPEN_TAG, 0) && close >= |OPEN_TAG| && OccursAt(t, CLOSE_TAG, close)
    requires forall j :: |OPEN_TAG| <= j < close ==> !OccursAt(t, CLOSE_TAG, j)
    ensures LeadingSegmentLength(t, isPayload) == close + |CLOSE_TAG|
  {
    assert Find(t, CLOSE_TAG, |OPEN_TAG|) == close;
  }

  // A removed tail pair holds exactly one opener, at its start, and one closer, so the
  // text between two separate pairs is never swallowed.
  lemma TailPairIsInnermost(t: string)
    requires TrailingPair(t) != -1
    ensures var open := TrailingPair(t);
            && OccursAt(t, OPEN_TAG, open)
            && (forall j :: open < j ==> !OccursAt(t, OPEN_TAG, j))
            && (exists close :: open + |OPEN_TAG| <= close && OccursAt(t, CLOSE_TAG, close)
                                && forall j :: open <= j && j != close ==> !OccursAt(t, CLOSE_TAG, j))
  {
    var close := FindLast(t, CLOSE_TAG, |t|);
    var open := TrailingPair(t);
    SpaceAfter(t, close + |CLOSE_TAG|);
    TagsApart(t, open, close);
    forall j | open < j ensures !OccursAt(t, OPEN_TAG, j) {
      if OccursAt(t, OPEN_TAG, j) {
        FirstOf(t, OPEN_TAG, j);
        if j > close && j < close + |CLOSE_TAG| { InsideCloser(t, close, j); }
      }
    }
    forall j | open <= j && j != close ensures !OccursAt(t, CLOSE_TAG, j) {
      if OccursAt(t, CLOSE_TAG, j) {
        CloserBefore(t, open, close, j);
        FirstOf(t, CLOSE_TAG, close);
        if j < close { InsideCloser(t, j, close); }
      }
    }
  }

  lemma InsideCloser(t: string, close: nat, j: nat)
    requires OccursAt(t, CLOSE_TAG, close) && close < j < close + |CLOSE_TAG|
    ensures t[j] != '<'
  {
    assert t[j] == t[close..close + |CLOSE_TAG|][j - close] == CLOSE_TAG[j - close];
  }

  lemma TagsApart(t: string, open: nat, close: nat)
    requires OccursAt(t, OPEN_TAG, open) && OccursAt(t, CLOSE_TAG, close) && open <= close
    ensures open + |OPEN_TAG| <= close
  {
    LetterAt(t, CLOSE_TAG, close, 0);
    LetterAt(t, CLOSE_TAG, close, 1);
    LetterAt(t, OPEN_TAG, open, 1);
    if close < open + |OPEN_TAG| { LetterAt(t, OPEN_TAG, open, close - open); }
  }

  lemma CloserBefore(t: string, open: nat, close: nat, j: nat)
    requires OccursAt(t, OPEN_TAG, open) && OccursAt(t, CLOSE_TAG, j) && open <= j
    requires open + |OPEN_TAG| <= close <= |t|
    requires Find(t[open + |OPEN_TAG|..close], CLOSE_TAG, 0) == -1
    ensures j + |CLOSE_TAG| > close
  {
    TagsApart(t, open, j);
    if j + |CLOSE_TAG| <= close {
      var s := t[open + |OPEN_TAG|..close];
      var k := j - (open + |OPEN_TAG|);
      SubSlice(t, open + |OPEN_TAG|, close, k, k + |CLOSE_TAG|);
      assert OccursAt(s, CLOSE_TAG, k);
    }
  }
}
