/**
 * What the sanitizer removes besides pairs: a truncated invocation, a fence around a
 * tool-call payload, and special tokens with what belongs to them, at the two ends of
 * prose that stays.
 */
module SanitizerCuts {
  import opened Common
  import opened BraceScanner
  import opened Text
  import opened SegmentStripper
  import opened Sanitizer
  import opened SanitizerPairs

  // ----- one segment at one end

  lemma OnePass(t: string, rest: string, kind: Segments)
    requires Bounded(kind) && kind.most >= 1 && t != [] && Cut(t, kind) == Some(rest)
    requires rest == [] || (kind.leading(rest) == 0 && kind.trailing(rest) == 0)
    ensures Strip(t, 0, kind) == Result(rest, 1)
  {
    StripStep(t, rest, 0, kind);
    if rest == [] { StripEnds(rest, 1, kind); } else { NoSegment(rest, 1, kind); }
  }

  /** Nothing at all, or prose at both its ends. */
  predicate Stays(prose: string) { Trim(prose) == [] || (ProseHead(Trim(prose)) && ProseTail(Trim(prose))) }

  lemma HeadGoes(markup: string, prose: string, isPayload: string -> bool)
    requires markup != [] && Trimmed(markup + prose) && |markup + prose| <= 200000 && Stays(prose)
    requires LeadingSegmentLength(markup + prose, isPayload) == |markup|
    ensures Sanitized(markup + prose, isPayload) == Result(Trim(prose), 1)
  {
    TrimmedIsFixed(markup + prose);
    CutHead(markup + prose, prose, |markup|, ToolCalls(isPayload));
    if Trim(prose) != [] { MidStays(prose, isPayload); }
    OnePass(markup + prose, Trim(prose), ToolCalls(isPayload));
  }

  lemma TailGoes(prose: string, markup: string, isPayload: string -> bool)
    requires markup != [] && Trimmed(prose + markup) && |prose + markup| <= 200000
    requires ProseHead(prose) && ProseTail(Trim(prose)) && ProseHead(Trim(prose))
    requires TrailingSegmentLength(prose + markup, isPayload) == |markup|
    ensures Sanitized(prose + markup, isPayload) == Result(Trim(prose), 1)
  {
    TrimmedIsFixed(prose + markup);
    ProseStays(prose, markup);
    HeadDecides(prose + markup, isPayload);
    CutTail(prose + markup, prose, |prose|, ToolCalls(isPayload));
    MidStays(prose, isPayload);
    OnePass(prose + markup, Trim(prose), ToolCalls(isPayload));
  }

  // ----- many pairs

  function Pairs(bodies: seq<string>): string {
    if bodies == [] then [] else Pair(bodies[0]) + Pairs(bodies[1..])
  }

  lemma FirstPair(bodies: seq<string>, prose: string)
    requires bodies != []
    ensures Pairs(bodies) + prose == Pair(bodies[0]) + (Pairs(bodies[1..]) + prose)
  {}

  lemma {:induction false} PairsEnd(bodies: seq<string>)
    requires bodies != []
    ensures var p := Pairs(bodies); p != [] && p[0] == '<' && p[|p| - 1] == '>'
    decreases |bodies|
  {
    PairEnds(bodies[0]);
    if |bodies| > 1 { PairsEnd(bodies[1..]); } else { assert Pairs(bodies[1..]) == []; }
  }

  lemma PairsBegin(bodies: seq<string>, prose: string)
    requires bodies != []
    ensures var t := Pairs(bodies) + prose;
            t == Pair(bodies[0]) + (Pairs(bodies[1..]) + prose) && t[0] == '<' && (prose == "" ==> t[|t| - 1] == '>')
  {
    FirstPair(bodies, prose);
    PairsEnd(bodies);
  }

  lemma PairsTrimmed(bodies: seq<string>, prose: string)
    requires bodies != [] && (prose == "" || !IsSpace(prose[|prose| - 1]))
    ensures Trim(Pairs(bodies) + prose) == Pairs(bodies) + prose
  {
    PairsBegin(bodies, prose);
    var t := Pairs(bodies) + prose;
    if prose != "" { assert t[|t| - 1] == prose[|prose| - 1]; }
    TrimmedIsFixed(t);
  }

  /** The pairs from one on, and what is behind them; after the last pair that is trimmed. */
  function PairsFrom(bodies: seq<string>, prose: string, i: nat): string
    requires i <= |bodies|
  {
    if i < |bodies| then Pairs(bodies[i..]) + prose else Trim(prose)
  }

  /** Each pass cuts one pair, and what is left at last is cut no further. */
  ghost predicate EachIsCut(bodies: seq<string>, prose: string, kind: Segments)
    requires Bounded(kind)
  {
    && (forall i: nat :: i < |bodies| ==> PairsFrom(bodies, prose, i) != [] && Cut(PairsFrom(bodies, prose, i), kind) == Some(PairsFrom(bodies, prose, i + 1)))
    && (Trim(prose) == [] || Cut(Trim(prose), kind) == None)
  }

  lemma {:induction false} StripsEach(bodies: seq<string>, prose: string, i: nat, kind: Segments)
    requires Bounded(kind) && EachIsCut(bodies, prose, kind) && i <= |bodies| && i <= kind.most
    ensures Strip(PairsFrom(bodies, prose, i), i, kind) ==
              if |bodies| <= kind.most then Result(Trim(prose), |bodies|) else Result(PairsFrom(bodies, prose, kind.most), kind.most)
    decreases |bodies| - i
  {
    var t := PairsFrom(bodies, prose, i);
    if i == |bodies| || i == kind.most {
      StripEnds(t, i, kind);
    } else {
      assert Cut(t, kind) == Some(PairsFrom(bodies, prose, i + 1));
      StripStep(t, PairsFrom(bodies, prose, i + 1), i, kind);
      StripsEach(bodies, prose, i + 1, kind);
    }
  }

  lemma NextPair(bodies: seq<string>, prose: string, i: nat, isPayload: string -> bool)
    requires i < |bodies| && TagFree(bodies[i]) && (prose == "" || !IsSpace(prose[|prose| - 1]))
    ensures PairsFrom(bodies, prose, i) != []
    ensures Cut(PairsFrom(bodies, prose, i), ToolCalls(isPayload)) == Some(PairsFrom(bodies, prose, i + 1))
  {
    var from := bodies[i..];
    PairsBegin(from, prose);
    CutsHead(from[0], Pairs(from[1..]) + prose, isPayload);
    assert from[1..] == bodies[i + 1..];
    if i + 1 < |bodies| { PairsTrimmed(bodies[i + 1..], prose); } else { assert Pairs([]) + prose == prose; }
  }

  lemma ProseIsLeft(prose: string, isPayload: string -> bool)
    requires Stays(prose) && Trim(prose) != []
    ensures Cut(Trim(prose), ToolCalls(isPayload)) == None
  {
    MidStays(prose, isPayload);
  }

  lemma AllAreCut(bodies: seq<string>, prose: string, isPayload: string -> bool)
    requires (forall i :: 0 <= i < |bodies| ==> TagFree(bodies[i])) && Stays(prose) && (prose == "" || !IsSpace(prose[|prose| - 1]))
    ensures EachIsCut(bodies, prose, ToolCalls(isPayload))
  {
    forall i: nat | i < |bodies|
      ensures PairsFrom(bodies, prose, i) != []
              && Cut(PairsFrom(bodies, prose, i), ToolCalls(isPayload)) == Some(PairsFrom(bodies, prose, i + 1))
    {
      NextPair(bodies, prose, i, isPayload);
    }
    if Trim(prose) != [] { ProseIsLeft(prose, isPayload); }
  }

  lemma StripsAll(bodies: seq<string>, prose: string, kind: Segments)
    requires Bounded(kind) && EachIsCut(bodies, prose, kind) && kind.most == 64
    requires bodies != [] && |Pairs(bodies) + prose| <= 200000 && (prose == "" || !IsSpace(prose[|prose| - 1]))
    ensures Stripped(Pairs(bodies) + prose, kind) ==
              if |bodies| <= 64 then Result(Trim(prose), |bodies|) else Result(Pairs(bodies[64..]) + prose, 64)
  {
    assert bodies[0..] == bodies;
    PairsTrimmed(bodies, prose);
    PairsBegin(bodies, prose);
    StripsEach(bodies, prose, 0, kind);
  }

  // Of any number of pairs at the head of a message the first 64 go, and nothing else.
  lemma PairsGo(bodies: seq<string>, prose: string, isPayload: string -> bool)
    requires (forall i :: 0 <= i < |bodies| ==> TagFree(bodies[i])) && Stays(prose) && (prose == "" || !IsSpace(prose[|prose| - 1]))
    requires bodies != [] && |Pairs(bodies) + prose| <= 200000
    ensures Sanitized(Pairs(bodies) + prose, isPayload) ==
              if |bodies| <= 64 then Result(Trim(prose), |bodies|) else Result(Pairs(bodies[64..]) + prose, 64)
  {
    AllAreCut(bodies, prose, isPayload);
    StripsAll(bodies, prose, ToolCalls(isPayload));
  }

  // ----- a truncated invocation

  // An opener at the head that is never closed takes the whole message with it.
  lemma TruncatedTakesAll(rest: string, isPayload: string -> bool)
    requires var t := OPEN_TAG + rest;
             Trimmed(t) && |t| <= 200000 && forall i :: |OPEN_TAG| <= i ==> !OccursAt(t, CLOSE_TAG, i)
    ensures Sanitized(OPEN_TAG + rest, isPayload) == Result([], 1)
  {
    var t := OPEN_TAG + rest;
    assert OccursAt(t, OPEN_TAG, 0);
    assert t + [] == t;
    TrimmedIsFixed([]);
    HeadGoes(t, [], isPayload);
  }

  // ----- runs

  lemma {:induction false} RunIs(t: string, from: nat, end: nat, kind: char -> bool)
    requires from <= end <= |t| && (forall i :: from <= i < end ==> kind(t[i])) && (end < |t| ==> !kind(t[end]))
    ensures RunEnd(t, from, kind) == end
    decreases end - from
  {
    if from < end { RunIs(t, from + 1, end, kind); }
  }

  // ----- a fence

  /** Fence marks around a line and a body. */
  function Fence(line: string, body: string): string { FENCE_MARK + (line + ("\n" + (body + FENCE_MARK))) }

  predicate OneLine(line: string) { forall i :: 0 <= i < |line| ==> line[i] != '\n' && line[i] != '`' }

  predicate All(s: string, kind: char -> bool) { forall i :: 0 <= i < |s| ==> kind(s[i]) }

  /** A first line made of an info word between blanks, with or without a carriage return. */
  predicate OpeningOf(line: string, before: string, word: string, behind: string, cr: string) {
    && line == before + (word + (behind + cr)) && All(before, IsBlank) && All(word, IsInfoChar) && All(behind, IsBlank)
    && (word == "" ==> behind == "") && (cr == "" || cr == "\r")
  }

  ghost predicate IsOpening(line: string) { exists before, word, behind, cr :: OpeningOf(line, before, word, behind, cr) }

  /** One JSON object that is a tool-call payload, and nothing else but white space. */
  ghost predicate HoldsPayload(body: string, isPayload: string -> bool) {
    '`' !in body && IsObject(Trim(body)) && |Trim(body)| <= 4096 && isPayload(Trim(body))
  }

  predicate PairBetween(body: string, before: string, inner: string, behind: string) {
    body == before + (Pair(inner) + behind) && All(before, IsPlainSpace) && All(behind, IsPlainSpace)
  }

  /** One tool-call pair, and nothing else but white space. */
  ghost predicate HoldsPair(body: string) { '`' !in body && exists before, inner, behind :: PairBetween(body, before, inner, behind) }

  ghost predicate FencesCall(line: string, body: string, isPayload: string -> bool) {
    OneLine(line) && (HoldsPayload(body, isPayload) || (IsOpening(line) && HoldsPair(body)))
  }

  lemma TwoPieces(t: string, at: nat, a: string, rest: string)
    requires OccursAt(t, a + rest, at)
    ensures OccursAt(t, a, at) && OccursAt(t, rest, at + |a|)
  {
    SubSlice(t, at, at + |a + rest|, 0, |a|);
    SubSlice(t, at, at + |a + rest|, |a|, |a + rest|);
  }

  /** The pieces of a text that holds a fence from a position on. */
  lemma FencePieces(t: string, at: nat, line: string, body: string)
    requires OccursAt(t, Fence(line, body), at)
    ensures var eol := at + 3 + |line|;
            var end := eol + 1 + |body|;
            && end + 3 == at + |Fence(line, body)|
            && OccursAt(t, FENCE_MARK, at) && OccursAt(t, line, at + 3) && OccursAt(t, "\n", eol) && OccursAt(t, body, eol + 1)
            && OccursAt(t, FENCE_MARK, end)
  {
    TwoPieces(t, at, FENCE_MARK, line + ("\n" + (body + FENCE_MARK)));
    TwoPieces(t, at + 3, line, "\n" + (body + FENCE_MARK));
    TwoPieces(t, at + 3 + |line|, "\n", body + FENCE_MARK);
    TwoPieces(t, at + 4 + |line|, body, FENCE_MARK);
  }

  lemma FenceLetters(t: string, at: nat, line: string, body: string)
    requires at + |Fence(line, body)| <= |t| && t[at..at + |Fence(line, body)|] == Fence(line, body)
    ensures var eol := at + 3 + |line|;
            var end := eol + 1 + |body|;
            && end + 3 == at + |Fence(line, body)|
            && OccursAt(t, FENCE_MARK, at) && OccursAt(t, FENCE_MARK, end) && t[eol] == '\n' && OccursAt(t, "\n", eol)
            && t[at + 3..eol] == line && t[eol + 1..end] == body
  {
    FencePieces(t, at, line, body);
    LetterAt(t, "\n", at + 3 + |line|, 0);
  }

  lemma TickLetters(t: string, i: int)
    requires OccursAt(t, FENCE_MARK, i)
    ensures t[i] == '`' && t[i + 1] == '`' && t[i + 2] == '`'
  {
    LetterAt(t, FENCE_MARK, i, 0);
    LetterAt(t, FENCE_MARK, i, 1);
    LetterAt(t, FENCE_MARK, i, 2);
  }

  /** Between its marks a fence holds no back quote, so no mark begins there. */
  lemma NoTickInside(t: string, at: nat, line: string, body: string, k: nat)
    requires '`' !in body && OneLine(line)
    requires at + 4 + |line| + |body| <= |t| && at + 3 <= k < at + 4 + |line| + |body|
    requires t[at + 3..at + 3 + |line|] == line && t[at + 3 + |line|] == '\n' && t[at + 4 + |line|..at + 4 + |line| + |body|] == body
    ensures t[k] != '`'
  {
    var eol := at + 3 + |line|;
    if k < eol { assert t[k] == line[k - at - 3]; } else if k > eol { assert t[k] == body[k - eol - 1]; }
  }

  lemma NoMarkInside(t: string, at: nat, line: string, body: string, i: nat)
    requires OneLine(line) && '`' !in body && OccursAt(t, Fence(line, body), at) && at < i < at + 4 + |line| + |body|
    ensures !OccursAt(t, FENCE_MARK, i)
  {
    FenceLetters(t, at, line, body);
    NoTickInside(t, at, line, body, if i < at + 3 then at + 3 else i);
    if OccursAt(t, FENCE_MARK, i) { TickLetters(t, i); }
  }

  lemma InLine(t: string, from: nat, s: string, kind: char -> bool)
    requires OccursAt(t, s, from) && All(s, kind)
    ensures forall i :: from <= i < from + |s| ==> kind(t[i])
  {
    forall i | from <= i < from + |s| ensures kind(t[i]) { LetterAt(t, s, from, i - from); }
  }

  lemma ThreeRuns(t: string, i: nat, j: nat, k: nat)
    requires 3 <= i <= j <= k < |t|
    requires (forall m :: 3 <= m < i ==> IsBlank(t[m])) && !IsBlank(t[i])
    requires (forall m :: i <= m < j ==> IsInfoChar(t[m])) && !IsInfoChar(t[j])
    requires (forall m :: j <= m < k ==> IsBlank(t[m])) && !IsBlank(t[k])
    ensures RunEnd(t, RunEnd(t, RunEnd(t, 3, IsBlank), IsInfoChar), IsBlank) == k
  {
    RunIs(t, 3, i, IsBlank);
    RunIs(t, i, j, IsInfoChar);
    RunIs(t, j, k, IsBlank);
  }

  lemma LinePieces(t: string, before: string, word: string, behind: string, cr: string)
    requires OccursAt(t, before + (word + (behind + cr)), 3)
    ensures OccursAt(t, before, 3) && OccursAt(t, word, 3 + |before|) && OccursAt(t, behind, 3 + |before| + |word|)
    ensures OccursAt(t, cr, 3 + |before| + |word| + |behind|)
  {
    TwoPieces(t, 3, before, word + (behind + cr));
    TwoPieces(t, 3 + |before|, word, behind + cr);
    TwoPieces(t, 3 + |before| + |word|, behind, cr);
  }

  /** Where the runs of an opening line end. */
  lemma LineRuns(t: string, before: string, word: string, behind: string, cr: string, line: string)
    requires OpeningOf(line, before, word, behind, cr) && 3 + |line| < |t| && OccursAt(t, line, 3) && t[3 + |line|] == '\n'
    ensures RunEnd(t, RunEnd(t, RunEnd(t, 3, IsBlank), IsInfoChar), IsBlank) == 3 + |line| - |cr|
    ensures cr == "\r" ==> t[2 + |line|] == '\r'
  {
    var i, j, k := 3 + |before|, 3 + |before| + |word|, 3 + |line| - |cr|;
    LinePieces(t, before, word, behind, cr);
    InLine(t, 3, before, IsBlank);
    InLine(t, i, word, IsInfoChar);
    InLine(t, j, behind, IsBlank);
    if cr == "\r" { LetterAt(t, cr, k, 0); }
    ThreeRuns(t, i, j, k);
  }

  lemma BodyAfter(t: string, eol: nat)
    requires OccursAt(t, FENCE_MARK, 0) && RunEnd(t, RunEnd(t, RunEnd(t, 3, IsBlank), IsInfoChar), IsBlank) == eol
    requires eol < |t| && (OccursAt(t, "\n", eol) || OccursAt(t, "\r\n", eol))
    ensures FenceBody(t) == if OccursAt(t, "\r\n", eol) then eol + 2 else eol + 1
  {}

  /** Where the body of the fence begins. */
  lemma FenceOpens(t: string, line: string, body: string)
    requires IsOpening(line) && OccursAt(t, Fence(line, body), 0)
    ensures FenceBody(t) == 4 + |line|
  {
    var before, word, behind, cr :| OpeningOf(line, before, word, behind, cr);
    FenceLetters(t, 0, line, body);
    LineRuns(t, before, word, behind, cr, line);
    if cr == "\r" {
      assert t[2 + |line|..4 + |line|] == "\r\n";
      BodyAfter(t, 2 + |line|);
    } else {
      if OccursAt(t, "\r\n", 3 + |line|) { LetterAt(t, "\r\n", 3 + |line|, 0); }
      BodyAfter(t, 3 + |line|);
    }
  }

  lemma PayloadFenceIs(f: string, start: int, end: int, text: string, isPayload: string -> bool)
    requires start == Find(f, "\n", 0) + 1 && end == FindLast(f, FENCE_MARK, |f|) && 0 < start < end && text == Trim(f[start..end])
    ensures IsPayloadFence(f, isPayload) == (OccursAt(text, "{", 0) && BalancedEnd(text, 0) == |text| && isPayload(text))
  {}

  lemma ObjectBegins(s: string)
    requires IsObject(s)
    ensures s != [] && s[0] == '{' && OccursAt(s, "{", 0)
  {
    ObjectOpens(s);
    assert s[0..1] == "{";
  }

  /** The fence around a payload is that of a tool call. */
  lemma PayloadIsToolCall(line: string, body: string, isPayload: string -> bool)
    requires OneLine(line) && HoldsPayload(body, isPayload)
    ensures IsPayloadFence(Fence(line, body), isPayload)
  {
    var f, text := Fence(line, body), Trim(body);
    assert f[0..|f|] == f;
    FenceLetters(f, 0, line, body);
    var eol, end := 3 + |line|, 4 + |line| + |body|;
    FirstNewline(f, line, body, eol);
    LastMark(f, end);
    ObjectBegins(text);
    assert text[0..|text|] == text;
    BalancedEndExact(text, 0, |text|);
    PayloadFenceIs(f, eol + 1, end, text, isPayload);
  }

  lemma PairPieces(f: string, from: nat, before: string, inner: string, behind: string)
    requires OccursAt(f, before + (Pair(inner) + behind), from)
    ensures var open := from + |before|;
            var close := open + |OPEN_TAG| + |inner|;
            && OccursAt(f, before, from) && OccursAt(f, OPEN_TAG, open) && OccursAt(f, CLOSE_TAG, close)
            && OccursAt(f, behind, close + |CLOSE_TAG|)
            && close + |CLOSE_TAG| + |behind| == from + |before + (Pair(inner) + behind)|
  {
    TwoPieces(f, from, before, Pair(inner) + behind);
    TwoPieces(f, from + |before|, Pair(inner), behind);
    PairTags(f, from + |before|, inner);
  }

  lemma RunOf(f: string, from: nat, spaces: string, end: nat)
    requires OccursAt(f, spaces, from) && All(spaces, IsPlainSpace) && end == from + |spaces| && end < |f| && !IsPlainSpace(f[end])
    ensures RunEnd(f, from, IsPlainSpace) == end
  {
    InLine(f, from, spaces, IsPlainSpace);
    RunIs(f, from, end, IsPlainSpace);
  }

  lemma PairInside(f: string, from: nat, before: string, inner: string, behind: string)
    requires OccursAt(f, before + (Pair(inner) + behind), from) && All(before, IsPlainSpace) && All(behind, IsPlainSpace)
    requires OccursAt(f, FENCE_MARK, from + |before + (Pair(inner) + behind)|)
    ensures var open := from + |before|;
            var close := open + |OPEN_TAG| + |inner|;
            && RunEnd(f, from, IsPlainSpace) == open && OccursAt(f, OPEN_TAG, open) && OccursAt(f, CLOSE_TAG, close)
            && close + |CLOSE_TAG| <= |f| && OccursAt(f, FENCE_MARK, RunEnd(f, close + |CLOSE_TAG|, IsPlainSpace))
  {
    var open := from + |before|;
    var close, end := open + |OPEN_TAG| + |inner|, from + |before + (Pair(inner) + behind)|;
    PairPieces(f, from, before, inner, behind);
    LetterAt(f, OPEN_TAG, open, 0);
    TickLetters(f, end);
    RunOf(f, from, before, open);
    RunOf(f, close + |CLOSE_TAG|, behind, end);
  }

  lemma FencedPairIs(f: string, body: nat, open: nat, close: nat)
    requires FenceBody(f) == body && RunEnd(f, body, IsPlainSpace) == open && OccursAt(f, OPEN_TAG, open)
    requires open + |OPEN_TAG| <= close && OccursAt(f, CLOSE_TAG, close)
    requires OccursAt(f, FENCE_MARK, RunEnd(f, close + |CLOSE_TAG|, IsPlainSpace))
    ensures IsFencedPair(f)
  {}

  lemma FenceBodyAt(line: string, body: string)
    requires IsOpening(line)
    ensures var f := Fence(line, body);
            FenceBody(f) == 4 + |line| && OccursAt(f, body, 4 + |line|) && OccursAt(f, FENCE_MARK, 4 + |line| + |body|)
  {
    var f := Fence(line, body);
    assert f[0..|f|] == f;
    FencePieces(f, 0, line, body);
    FenceOpens(f, line, body);
  }

  lemma PairInBody(f: string, from: nat, body: string, before: string, inner: string, behind: string)
    requires PairBetween(body, before, inner, behind)
    requires FenceBody(f) == from && OccursAt(f, body, from) && OccursAt(f, FENCE_MARK, from + |body|)
    ensures IsFencedPair(f)
  {
    PairInside(f, from, before, inner, behind);
    FencedPairIs(f, from, from + |before|, from + |before| + |OPEN_TAG| + |inner|);
  }

  /** So is the fence around a pair. */
  lemma PairIsToolCall(line: string, body: string)
    requires IsOpening(line) && HoldsPair(body)
    ensures IsFencedPair(Fence(line, body))
  {
    FenceBodyAt(line, body);
    var before, inner, behind :| PairBetween(body, before, inner, behind);
    PairInBody(Fence(line, body), 4 + |line|, body, before, inner, behind);
  }

  lemma FirstNewline(f: string, line: string, body: string, eol: nat)
    requires f == Fence(line, body) && eol == 3 + |line| && OccursAt(f, "\n", eol) && OneLine(line)
    ensures Find(f, "\n", 0) == eol
  {
    assert f[0..|f|] == f;
    FencePieces(f, 0, line, body);
    assert forall i :: 0 <= i < 3 ==> f[i] == f[0..3][i];
    assert forall i :: 3 <= i < eol ==> f[i] == f[3..eol][i - 3];
    forall i: nat | i < eol ensures !OccursAt(f, "\n", i) {
      if OccursAt(f, "\n", i) { LetterAt(f, "\n", i, 0); }
    }
  }

  lemma LastMark(t: string, end: nat)
    requires OccursAt(t, FENCE_MARK, end) && end + 3 == |t|
    ensures FindLast(t, FENCE_MARK, |t|) == end
  {}

  lemma FenceIsAccepted(line: string, body: string, isPayload: string -> bool)
    requires FencesCall(line, body, isPayload)
    ensures ToolCallFences(isPayload)(Fence(line, body))
  {
    if HoldsPayload(body, isPayload) { PayloadIsToolCall(line, body, isPayload); } else { PairIsToolCall(line, body); }
    AcceptsIt(Fence(line, body), isPayload);
  }

  lemma AcceptsIt(f: string, isPayload: string -> bool)
    requires IsPayloadFence(f, isPayload) || IsFencedPair(f)
    ensures ToolCallFences(isPayload)(f)
  {}

  lemma Accepted(t: string, open: nat, end: nat, f: string, accepts: string -> bool)
    requires open <= end <= |t| && t[open..end] == f && accepts(f)
    ensures IfAccepted(t, open, end, accepts) == open
  {}

  lemma FirstFenceEnds(t: string, line: string, body: string)
    requires OneLine(line) && '`' !in body && IsOpening(line) && OccursAt(t, Fence(line, body), 0)
    ensures FirstFenceEnd(t) == |Fence(line, body)|
  {
    FenceOpens(t, line, body);
    FenceLetters(t, 0, line, body);
    var from, end := 4 + |line|, 4 + |line| + |body|;
    forall i: nat | from <= i < end ensures !OccursAt(t, FENCE_MARK, i) { NoMarkInside(t, 0, line, body, i); }
    assert Find(t, FENCE_MARK, from) == end;
  }

  lemma HeadIs(t: string, end: int, isPayload: string -> bool)
    requires end == FirstFenceEnd(t) && end != -1
    ensures LeadingFence(t, isPayload) == if IfAccepted(t, 0, end, ToolCallFences(isPayload)) == 0 then end else 0
  {}

  lemma FenceLeads(line: string, body: string, rest: string, isPayload: string -> bool)
    requires FencesCall(line, body, isPayload) && IsOpening(line)
    ensures LeadingFence(Fence(line, body) + rest, isPayload) == |Fence(line, body)|
  {
    var f := Fence(line, body);
    var t := f + rest;
    assert t[0..|f|] == f;
    FirstFenceEnds(t, line, body);
    FenceIsAccepted(line, body, isPayload);
    Accepted(t, 0, |f|, f, ToolCallFences(isPayload));
    HeadIs(t, |f|, isPayload);
  }

  lemma StartsWithTick(t: string)
    requires t != [] && t[0] == '`'
    ensures !OccursAt(t, OPEN_TAG, 0) && !OccursAt(t, SPECIAL_ASCII, 0) && !OccursAt(t, SPECIAL_BLOCK, 0)
  {
    if OccursAt(t, OPEN_TAG, 0) { LetterAt(t, OPEN_TAG, 0, 0); }
    if OccursAt(t, SPECIAL_ASCII, 0) { LetterAt(t, SPECIAL_ASCII, 0, 0); }
    if OccursAt(t, SPECIAL_BLOCK, 0) { LetterAt(t, SPECIAL_BLOCK, 0, 0); }
  }

  lemma NoOther(t: string, isPayload: string -> bool)
    requires !OccursAt(t, OPEN_TAG, 0) && !OccursAt(t, SPECIAL_ASCII, 0) && !OccursAt(t, SPECIAL_BLOCK, 0)
    ensures LeadingSegmentLength(t, isPayload) == LeadingFence(t, isPayload)
  {}

  // A fence at the head of a message around a tool-call payload, or around a pair, goes, and
  // the prose behind it stays.
  lemma LeadingFenceGoes(line: string, body: string, prose: string, isPayload: string -> bool)
    requires FencesCall(line, body, isPayload) && IsOpening(line) && Stays(prose)
    requires Trimmed(Fence(line, body) + prose) && |Fence(line, body) + prose| <= 200000
    ensures Sanitized(Fence(line, body) + prose, isPayload) == Result(Trim(prose), 1)
  {
    var t := Fence(line, body) + prose;
    assert t[0] == FENCE_MARK[0];
    StartsWithTick(t);
    NoOther(t, isPayload);
    FenceLeads(line, body, prose, isPayload);
    HeadGoes(Fence(line, body), prose, isPayload);
  }

  lemma TrailsAt(t: string, at: nat, end: nat)
    requires at < end && end + 3 == |t| && (at > 0 ==> IsSpace(t[at - 1]))
    requires FindLast(t, FENCE_MARK, |t|) == end && FindLast(t, FENCE_MARK, end - 1) == at
    ensures LastFence(t) == at
  {
    assert t[end + 3..] == [];
  }

  lemma {:induction false} LastBefore(t: string, pattern: string, upto: int, at: nat)
    requires at <= upto && OccursAt(t, pattern, at) && forall i :: at < i <= upto ==> !OccursAt(t, pattern, i)
    ensures FindLast(t, pattern, upto) == at
  {
    var i := FindLast(t, pattern, upto);
    assert i == -1 || (i <= upto && OccursAt(t, pattern, i));
  }

  lemma MarkBefore(t: string, at: nat, end: nat, line: string, body: string)
    requires OneLine(line) && '`' !in body && end == at + 4 + |line| + |body| && OccursAt(t, Fence(line, body), at)
    ensures FindLast(t, FENCE_MARK, end - 1) == at
  {
    FenceLetters(t, at, line, body);
    forall i | at < i <= end - 1 ensures !OccursAt(t, FENCE_MARK, i) { NoMarkInside(t, at, line, body, i); }
    LastBefore(t, FENCE_MARK, end - 1, at);
  }

  lemma FenceIsLast(t: string, at: nat, end: nat, line: string, body: string)
    requires OneLine(line) && '`' !in body && end == at + 4 + |line| + |body|
    requires at < |t| && (at > 0 ==> IsSpace(t[at - 1])) && t[at..|t|] == Fence(line, body)
    ensures LastFence(t) == at && FindLast(t, FENCE_MARK, |t|) == end && end + 3 == |t|
  {
    FenceLetters(t, at, line, body);
    LastMark(t, end);
    MarkBefore(t, at, end, line, body);
    TrailsAt(t, at, end);
  }

  lemma TailIs(t: string, open: int, end: int, isPayload: string -> bool)
    requires open == LastFence(t) && end == FindLast(t, FENCE_MARK, |t|) + 3
    ensures TrailingFence(t, isPayload) == IfAccepted(t, open, end, ToolCallFences(isPayload))
  {}

  lemma FenceTrails(t: string, at: nat, line: string, body: string, isPayload: string -> bool)
    requires FencesCall(line, body, isPayload) && at < |t| && (at > 0 ==> IsSpace(t[at - 1])) && t[at..|t|] == Fence(line, body)
    ensures TrailingFence(t, isPayload) == at
  {
    FenceIsLast(t, at, at + 4 + |line| + |body|, line, body);
    FenceIsAccepted(line, body, isPayload);
    Accepted(t, at, |t|, Fence(line, body), ToolCallFences(isPayload));
    TailIs(t, at, |t|, isPayload);
  }

  lemma EndsInTick(t: string)
    requires t != [] && t[|t| - 1] == '`'
    ensures TrailingPair(t) == -1
  {
    var close := FindLast(t, CLOSE_TAG, |t|);
    if close != -1 && AllSpace(t[close + |CLOSE_TAG|..]) {
      SpaceAfter(t, close + |CLOSE_TAG|);
      FirstOf(t, CLOSE_TAG, close);
    }
  }

  lemma SegmentIsFence(t: string, at: int, isPayload: string -> bool)
    requires TrailingPair(t) == -1 && at == TrailingFence(t, isPayload) && at != -1
    ensures TrailingSegmentLength(t, isPayload) == |t| - at
  {}

  lemma TailLetters(prose: string, f: string)
    requires prose != [] && f != []
    ensures var t := prose + f;
            && t[|prose| - 1] == prose[|prose| - 1] && t[|prose|..|t|] == f && t[|t| - 1] == f[|f| - 1]
  {}

  lemma FenceEnds(line: string, body: string)
    ensures var f := Fence(line, body); f != [] && f[0] == '`' && f[|f| - 1] == '`'
  {
    var f := Fence(line, body);
    assert f[0] == FENCE_MARK[0];
  }

  lemma TailOfText(t: string, at: nat, line: string, body: string, isPayload: string -> bool)
    requires FencesCall(line, body, isPayload) && at < |t| && (at > 0 ==> IsSpace(t[at - 1])) && t[at..|t|] == Fence(line, body)
    requires t[|t| - 1] == '`'
    ensures TrailingSegmentLength(t, isPayload) == |t| - at
  {
    EndsInTick(t);
    FenceTrails(t, at, line, body, isPayload);
    SegmentIsFence(t, at, isPayload);
  }

  lemma FenceAtTail(prose: string, f: string, line: string, body: string, isPayload: string -> bool)
    requires f == Fence(line, body) && FencesCall(line, body, isPayload) && prose != [] && IsSpace(prose[|prose| - 1])
    ensures TrailingSegmentLength(prose + f, isPayload) == |f|
  {
    FenceEnds(line, body);
    TailLetters(prose, f);
    TailOfText(prose + f, |prose|, line, body, isPayload);
  }

  // The same at the tail, where white space stands before it; what its first line says does
  // not matter there if it holds a payload.
  lemma TrailingFenceGoes(prose: string, line: string, body: string, isPayload: string -> bool)
    requires FencesCall(line, body, isPayload) && prose != [] && IsSpace(prose[|prose| - 1])
    requires ProseHead(prose) && ProseHead(Trim(prose)) && ProseTail(Trim(prose))
    requires Trimmed(prose + Fence(line, body)) && |prose + Fence(line, body)| <= 200000
    ensures Sanitized(prose + Fence(line, body), isPayload) == Result(Trim(prose), 1)
  {
    FenceAtTail(prose, Fence(line, body), line, body, isPayload);
    TailGoes(prose, Fence(line, body), isPayload);
  }

  /** At the head, a fence with any first line is cut whole or not at all. */
  lemma WholeOrNot(line: string, body: string, isPayload: string -> bool)
    requires OneLine(line) && '`' !in body
    ensures LeadingFence(Fence(line, body), isPayload) in {0, |Fence(line, body)|}
  {
    var f := Fence(line, body);
    assert f[0..|f|] == f;
    FenceLetters(f, 0, line, body);
    var end := FirstFenceEnd(f);
    if end != -1 && end < |f| { NoMarkInside(f, 0, line, body, end - 3); }
  }

  lemma CutWhole(f: string, kind: Segments)
    requires Bounded(kind) && f != [] && (kind.leading(f) == |f| || (kind.leading(f) == 0 && kind.trailing(f) == |f|))
    ensures Cut(f, kind) == Some([])
  {
    TrimmedIsFixed([]);
    assert f[|f|..] == [] && f[..0] == [];
  }

  lemma WholeIsSegment(f: string, line: string, body: string, isPayload: string -> bool)
    requires f == Fence(line, body) && FencesCall(line, body, isPayload)
    ensures LeadingSegmentLength(f, isPayload) == |f| || (LeadingSegmentLength(f, isPayload) == 0 && TrailingSegmentLength(f, isPayload) == |f|)
  {
    assert f[0] == FENCE_MARK[0] && f[|f| - 1] == '`' && f[0..|f|] == f;
    StartsWithTick(f);
    NoOther(f, isPayload);
    WholeOrNot(line, body, isPayload);
    EndsInTick(f);
    FenceTrails(f, 0, line, body, isPayload);
    SegmentIsFence(f, 0, isPayload);
  }

  // A message that is nothing but such a fence goes whole.
  lemma WholeFenceGoes(line: string, body: string, isPayload: string -> bool)
    requires FencesCall(line, body, isPayload) && |Fence(line, body)| <= 200000
    ensures Sanitized(Fence(line, body), isPayload) == Result([], 1)
  {
    var f := Fence(line, body);
    assert f[0] == FENCE_MARK[0] && f[|f| - 1] == '`';
    TrimmedIsFixed(f);
    WholeIsSegment(f, line, body, isPayload);
    ToolCallsOf(f, isPayload);
    CutWhole(f, ToolCalls(isPayload));
    OnePass(f, [], ToolCalls(isPayload));
  }

  // ----- special tokens

  predicate IsSpecial(token: string) { token == "<|tool_call|>" || token == "<|tool\U{2581}call|>" }

  lemma SpecialLetters(token: string)
    requires IsSpecial(token)
    ensures |token| == 13 && token[0] == '<' && token[1] == '|' && token[12] == '>'
  {}

  lemma SpecialLeads(token: string, rest: string, isPayload: string -> bool)
    requires IsSpecial(token)
    ensures LeadingSegmentLength(token + rest, isPayload) == SpecialSegment(token + rest, 13)
  {
    var t := token + rest;
    SpecialLetters(token);
    assert t[..13] == token && t[0..13] == token;
    assert OccursAt(t, token, 0);
    if OccursAt(t, OPEN_TAG, 0) { LetterAt(t, OPEN_TAG, 0, 1); }
  }

  /** A special token of any name. */
  function Token(name: string): string { "<|" + (name + "|>") }

  predicate TokenChars(name: string) { forall i :: 0 <= i < |name| ==> name[i] != '|' && name[i] != '<' && name[i] != '>' }

  predicate IsTokenName(name: string) { 1 <= |name| <= 32 && TokenChars(name) }

  // A special token is a name of 1 to 32 characters, no bar and no angle bracket among them.
  lemma TokenAt(t: string, at: nat, name: string)
    requires OccursAt(t, Token(name), at) && TokenChars(name)
    ensures SpecialTokenLength(t, at) == if 1 <= |name| <= 32 then |name| + 4 else 0
  {
    TwoPieces(t, at, "<|", name + "|>");
    TwoPieces(t, at + 2, name, "|>");
    InLine(t, at + 2, name, Sanitizer.IsTokenChar);
    LetterAt(t, "|>", at + 2 + |name|, 0);
    RunIs(t, at + 2, at + 2 + |name|, Sanitizer.IsTokenChar);
  }

  lemma ObjectOpens(s: string)
    requires IsObject(s)
    ensures s != [] && s[0] == '{'
  {
    var ps :| PiecesOk(ps) && s == PieceText(Braces(ps));
  }

  /** What follows the object: a token is taken with it, anything else is not. */
  lemma SegmentWithObject(t: string, from: nat, at: nat, end: nat)
    requires 13 <= from < at <= end <= |t| && at <= Limit(t, from) && IsObject(t[from..at])
    requires (forall m :: 13 <= m < from || at <= m < end ==> IsSpace(t[m])) && (end < |t| ==> !IsSpace(t[end]))
    ensures SpecialSegment(t, 13) == end + SpecialTokenLength(t, end)
  {
    BalancedEndExact(t, from, at);
    ObjectOpens(t[from..at]);
    assert t[from] == t[from..at][0];
    RunIs(t, 13, from, IsSpace);
    RunIs(t, at, end, IsSpace);
  }

  lemma ThreePieces(a: string, b: string, c: string, d: string)
    ensures var s := a + (b + c) + d;
            s == a + (b + c + d) && s[|a|..|a| + |b|] == b && s[|a| + |b|..|a| + |b| + |c|] == c && |s| == |a| + |b| + |c| + |d|
  {}

  lemma FourPieces(t: string, at: nat, a: string, b: string, c: string, rest: string)
    requires OccursAt(t, a + (b + (c + rest)), at)
    ensures OccursAt(t, a, at) && OccursAt(t, b, at + |a|) && OccursAt(t, c, at + |a| + |b|) && OccursAt(t, rest, at + |a| + |b| + |c|)
  {
    TwoPieces(t, at, a, b + (c + rest));
    TwoPieces(t, at + |a|, b, c + rest);
    TwoPieces(t, at + |a| + |b|, c, rest);
  }

  /** The letters of an object between white space, behind a special token. */
  lemma ObjectLetters(t: string, a: string, object_: string, b: string, rest: string)
    requires OccursAt(t, a + (object_ + (b + rest)), 13) && AllSpace(a) && AllSpace(b) && (rest == "" || !IsSpace(rest[0]))
    requires 13 + |a + (object_ + (b + rest))| == |t|
    ensures var from, at, end := 13 + |a|, 13 + |a| + |object_|, 13 + |a| + |object_| + |b|;
            && (forall m :: 13 <= m < from || at <= m < end ==> IsSpace(t[m])) && (end < |t| ==> !IsSpace(t[end]))
            && t[from..at] == object_ && OccursAt(t, rest, end) && end + |rest| == |t|
  {
    var at := 13 + |a| + |object_|;
    FourPieces(t, 13, a, object_, b, rest);
    InLine(t, 13, a, IsSpace);
    InLine(t, at, b, IsSpace);
    if rest != "" { LetterAt(t, rest, at + |b|, 0); }
  }

  lemma BehindSpecial(token: string, rest: string)
    requires IsSpecial(token)
    ensures |token| == 13 && OccursAt(token + rest, rest, 13)
  {
    SpecialLetters(token);
  }

  /** An object between white space, at the start of what follows a special token. */
  lemma ObjectSegment(token: string, a: string, object_: string, b: string, rest: string)
    requires IsSpecial(token) && AllSpace(a) && IsObject(object_) && |object_| <= 4096 && AllSpace(b) && (rest == "" || !IsSpace(rest[0]))
    ensures var t := token + (a + (object_ + (b + rest)));
            var end := 13 + |a| + |object_| + |b|;
            OccursAt(t, rest, end) && end + |rest| == |t| && SpecialSegment(t, 13) == end + SpecialTokenLength(t, end)
  {
    var t := token + (a + (object_ + (b + rest)));
    BehindSpecial(token, a + (object_ + (b + rest)));
    ObjectLetters(t, a, object_, b, rest);
    ObjectOpens(object_);
    SegmentWithObject(t, 13 + |a|, 13 + |a| + |object_|, 13 + |a| + |object_| + |b|);
  }

  lemma ObjectAndToken(token: string, a: string, object_: string, b: string, name: string, prose: string)
    requires IsSpecial(token) && AllSpace(a) && IsObject(object_) && |object_| <= 4096 && AllSpace(b) && IsTokenName(name)
    ensures var markup := token + (a + (object_ + (b + Token(name))));
            && markup + prose == token + (a + (object_ + (b + (Token(name) + prose))))
            && SpecialSegment(markup + prose, 13) == |markup|
  {
    var markup := token + (a + (object_ + (b + Token(name))));
    var rest, end := Token(name) + prose, 13 + |a| + |object_| + |b|;
    assert markup + prose == token + (a + (object_ + (b + rest)));
    SpecialLetters(token);
    ObjectSegment(token, a, object_, b, rest);
    TwoPieces(markup + prose, end, Token(name), prose);
    TokenAt(markup + prose, end, name);
  }

  // A special token at the head takes the JSON object behind it, and one closing token.
  lemma SpecialWithObjectGoes(token: string, a: string, object_: string, b: string, name: string, prose: string, isPayload: string -> bool)
    requires IsSpecial(token) && AllSpace(a) && IsObject(object_) && |object_| <= 4096 && AllSpace(b) && IsTokenName(name) && Stays(prose)
    requires var t := token + (a + (object_ + (b + Token(name)))) + prose; Trimmed(t) && |t| <= 200000
    ensures Sanitized(token + (a + (object_ + (b + Token(name)))) + prose, isPayload) == Result(Trim(prose), 1)
  {
    ObjectAndToken(token, a, object_, b, name, prose);
    SpecialLeads(token, a + (object_ + (b + (Token(name) + prose))), isPayload);
    HeadGoes(token + (a + (object_ + (b + Token(name)))), prose, isPayload);
  }

  lemma ObjectAlone(token: string, a: string, object_: string, b: string, prose: string)
    requires IsSpecial(token) && AllSpace(a) && IsObject(object_) && |object_| <= 4096 && AllSpace(b) && Stays(prose)
    requires prose == "" || !IsSpace(prose[0])
    ensures SpecialSegment(token + (a + (object_ + (b + prose))), 13) == |token + (a + (object_ + b))|
  {
    var t, end := token + (a + (object_ + (b + prose))), 13 + |a| + |object_| + |b|;
    SpecialLetters(token);
    ObjectSegment(token, a, object_, b, prose);
    NoTokenThere(t, end, prose);
  }

  lemma NoTokenThere(t: string, at: nat, prose: string)
    requires OccursAt(t, prose, at) && at + |prose| == |t| && Stays(prose) && (prose == "" || !IsSpace(prose[0]))
    ensures SpecialTokenLength(t, at) == 0
  {
    if prose != "" { ProseNoToken(t, at, prose); }
  }

  lemma ObjectAloneParts(token: string, a: string, object_: string, b: string, prose: string)
    ensures token + (a + (object_ + b)) + prose == token + (a + (object_ + (b + prose)))
  {}

  // Without a closing token it takes the object alone, and the prose behind it stays.
  lemma SpecialWithObjectAlone(token: string, a: string, object_: string, b: string, prose: string, isPayload: string -> bool)
    requires IsSpecial(token) && AllSpace(a) && IsObject(object_) && |object_| <= 4096 && AllSpace(b) && Stays(prose)
    requires prose == "" || !IsSpace(prose[0])
    requires var t := token + (a + (object_ + (b + prose))); Trimmed(t) && |t| <= 200000
    ensures Sanitized(token + (a + (object_ + (b + prose))), isPayload) == Result(Trim(prose), 1)
  {
    ObjectAlone(token, a, object_, b, prose);
    ObjectAloneParts(token, a, object_, b, prose);
    SpecialLeads(token, a + (object_ + (b + prose)), isPayload);
    HeadGoes(token + (a + (object_ + b)), prose, isPayload);
  }

  lemma ProseNoToken(t: string, at: nat, prose: string)
    requires OccursAt(t, prose, at) && Stays(prose) && prose != "" && !IsSpace(prose[0])
    ensures SpecialTokenLength(t, at) == 0
  {
    LetterAt(t, prose, at, 0);
    var k := TrimmedPart(prose);
    if OccursAt(t, "<|", at) { LetterAt(t, "<|", at, 0); }
  }

  /** A bare name: no bracket in it, and no brace or white space to begin with. */
  predicate IsBareName(name: string) { name != [] && name[0] != '{' && !IsSpace(name[0]) && '<' !in name }

  lemma SegmentWithName(t: string, from: nat, at: nat, name: string, token: string)
    requires 13 <= from < at && OccursAt(t, name, from) && at == from + |name| && IsBareName(name)
    requires (forall m :: 13 <= m < from ==> IsSpace(t[m])) && IsTokenName(token) && OccursAt(t, Token(token), at)
    requires |name| + |Token(token)| <= 512
    ensures SpecialSegment(t, 13) == at + |Token(token)|
  {
    LetterAt(t, name, from, 0);
    RunIs(t, 13, from, IsSpace);
    TokenAt(t, at, token);
    NameHoldsNoToken(t, from, at, name);
    NextToken(t, from, at, if from + SPECIAL_PAYLOAD_WINDOW < |t| then from + SPECIAL_PAYLOAD_WINDOW else |t|);
  }

  lemma NameAndToken(special: string, a: string, name: string, token: string, prose: string)
    requires IsSpecial(special) && AllSpace(a) && IsBareName(name) && IsTokenName(token) && |name| + |Token(token)| <= 512
    ensures var markup := special + (a + (name + Token(token)));
            && markup + prose == special + (a + (name + (Token(token) + prose)))
            && SpecialSegment(markup + prose, 13) == |markup|
  {
    var t := special + (a + (name + Token(token))) + prose;
    assert t == special + (a + (name + (Token(token) + prose))) && t[0..|t|] == t;
    SpecialLetters(special);
    TwoPieces(t, 0, special, a + (name + (Token(token) + prose)));
    FourPieces(t, 13, a, name, Token(token), prose);
    InLine(t, 13, a, IsSpace);
    SegmentWithName(t, 13 + |a|, 13 + |a| + |name|, name, token);
  }

  // A special token at the head takes a bare name up to the next special token with it, if
  // both lie within 512 characters.
  lemma SpecialWithNameGoes(special: string, a: string, name: string, token: string, prose: string, isPayload: string -> bool)
    requires IsSpecial(special) && AllSpace(a) && IsBareName(name) && IsTokenName(token) && |name| + |Token(token)| <= 512 && Stays(prose)
    requires var t := special + (a + (name + Token(token))) + prose; Trimmed(t) && |t| <= 200000
    ensures Sanitized(special + (a + (name + Token(token))) + prose, isPayload) == Result(Trim(prose), 1)
  {
    NameAndToken(special, a, name, token, prose);
    SpecialLeads(special, a + (name + (Token(token) + prose)), isPayload);
    HeadGoes(special + (a + (name + Token(token))), prose, isPayload);
  }

  lemma NameHoldsNoToken(t: string, from: nat, end: nat, name: string)
    requires from <= end <= |t| && t[from..end] == name && '<' !in name
    ensures forall i :: from <= i < end ==> SpecialTokenLength(t, i) == 0
  {
    forall i | from <= i < end ensures SpecialTokenLength(t, i) == 0 {
      assert t[i] == name[i - from];
      if OccursAt(t, "<|", i) { LetterAt(t, "<|", i, 0); }
    }
  }

  lemma {:induction false} NextToken(t: string, from: nat, at: nat, limit: nat)
    requires from <= at && at + SpecialTokenLength(t, at) <= limit && SpecialTokenLength(t, at) > 0
    requires forall i :: from <= i < at ==> SpecialTokenLength(t, i) == 0
    ensures FindSpecial(t, from, limit) == at
    decreases at - from
  {
    if from < at { NextToken(t, from + 1, at, limit); }
  }

  /** Nothing in the first 512 characters looks like the start of a special token. */
  predicate TokenFree(s: string) { forall i :: 0 <= i < |s| - 1 && i < 512 ==> !(s[i] == '<' && s[i + 1] == '|') }

  lemma {:induction false} NoToken(t: string, from: nat, limit: nat)
    requires forall i :: from <= i < limit ==> !OccursAt(t, "<|", i)
    ensures FindSpecial(t, from, limit) == -1
    decreases limit - from
  {
    if from < limit { NoToken(t, from + 1, limit); }
  }

  lemma SegmentAlone(t: string, prose: string)
    requires 13 < |t| && t[13..] == prose && !IsSpace(prose[0]) && prose[0] != '{' && TokenFree(prose)
    ensures SpecialSegment(t, 13) == 13
  {
    assert forall i :: 13 <= i < |t| ==> t[i] == prose[i - 13];
    RunIs(t, 13, 13, IsSpace);
    var limit := if 13 + SPECIAL_PAYLOAD_WINDOW < |t| then 13 + SPECIAL_PAYLOAD_WINDOW else |t|;
    forall i: nat | 13 <= i < limit ensures !OccursAt(t, "<|", i) {
      if OccursAt(t, "<|", i) {
        LetterAt(t, "<|", i, 0);
        LetterAt(t, "<|", i, 1);
      }
    }
    NoToken(t, 13, limit);
  }

  // A special token alone goes, and the prose behind it stays whole.
  lemma SpecialAloneGoes(token: string, prose: string, isPayload: string -> bool)
    requires IsSpecial(token) && prose != [] && !IsSpace(prose[0]) && prose[0] != '{' && TokenFree(prose) && Stays(prose)
    requires Trimmed(token + prose) && |token + prose| <= 200000
    ensures Sanitized(token + prose, isPayload) == Result(Trim(prose), 1)
  {
    SpecialLetters(token);
    SpecialLeads(token, prose, isPayload);
    assert (token + prose)[13..] == prose;
    SegmentAlone(token + prose, prose);
    HeadGoes(token, prose, isPayload);
  }

  lemma EndsInSpecial(prose: string, token: string, isPayload: string -> bool)
    requires IsSpecial(token)
    ensures TrailingPair(prose + token) == -1 && TrailingFence(prose + token, isPayload) == -1
  {
    var t := prose + token;
    SpecialLetters(token);
    assert t[|t| - 1] == '>' && t[|t| - 12] == token[1];
    var close := FindLast(t, CLOSE_TAG, |t|);
    if close != -1 && AllSpace(t[close + |CLOSE_TAG|..]) {
      SpaceAfter(t, close + |CLOSE_TAG|);
      FirstOf(t, CLOSE_TAG, close);
    }
    var closing := FindLast(t, FENCE_MARK, |t|);
    if closing != -1 && AllSpace(t[closing + 3..]) {
      SpaceAfter(t, closing + 3);
      FirstOf(t, FENCE_MARK, closing);
    }
  }

  lemma {:induction false} SpecialIsLast(t: string, from: nat, at: nat)
    requires from <= at && at + 13 == |t| && (OccursAt(t, SPECIAL_ASCII, at) || OccursAt(t, SPECIAL_BLOCK, at)) && t[|t| - 1] == '>'
    ensures FindSpecialTail(t, from) == at
    decreases at - from
  {
    if from < at {
      RunEndsThere(t, if from + 13 <= |t| then from + 13 else |t|, IsPlainSpace);
      SpecialIsLast(t, from + 1, at);
    } else {
      RunIs(t, |t|, |t|, IsPlainSpace);
    }
  }

  // A special token at the tail goes.
  lemma TrailingSpecialGoes(prose: string, token: string, isPayload: string -> bool)
    requires IsSpecial(token) && ProseHead(prose) && ProseHead(Trim(prose)) && ProseTail(Trim(prose))
    requires Trimmed(prose + token) && |prose + token| <= 200000
    ensures Sanitized(prose + token, isPayload) == Result(Trim(prose), 1)
  {
    var t := prose + token;
    SpecialLetters(token);
    EndsInSpecial(prose, token, isPayload);
    assert t[|prose|..|prose| + 13] == token && t[|t| - 1] == token[12];
    SpecialIsLast(t, 0, |prose|);
    TailGoes(prose, token, isPayload);
  }
}
