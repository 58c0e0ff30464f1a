/**
 * The loop of the markup sanitizer: as long as a segment to cut is recognised at one of
 * the two ends of a trimmed message, the leading one first, it is cut and the rest is
 * trimmed again. What is recognised is a parameter here.
 */
module SegmentStripper {
  import opened Common
  import opened Text

  const MAX_SANITIZE_INPUT := 200000

  /** How long the leading and the trailing segment of a text are, 0 for none; at most so many are cut. */
  datatype Segments = Segments(leading: string -> nat, trailing: string -> nat, most: nat)

  ghost predicate Bounded(kind: Segments) { forall t :: kind.leading(t) <= |t| && kind.trailing(t) <= |t| }

  datatype Result = Result(text: string, removedBlocks: nat)

  /** One pass: what is left after cutting one segment, the leading one first; None when there is none. */
  function Cut(t: string, kind: Segments): (r: Option<string>)
    requires Bounded(kind)
    ensures r.Some? ==> |r.value| < |t|
  {
    var lead, tail := kind.leading(t), kind.trailing(t);
    if lead > 0 then Some(Trim(t[lead..]))
    else if tail > 0 then Some(Trim(t[..|t| - tail]))
    else None
  }

  function Strip(t: string, removed: nat, kind: Segments): Result
    requires Bounded(kind)
    decreases |t|
  {
    if t == [] || removed >= kind.most || Cut(t, kind) == None then Result(t, removed)
    else Strip(Cut(t, kind).value, removed + 1, kind)
  }

  function Stripped(raw: string, kind: Segments): Result
    requires Bounded(kind)
  {
    if raw == [] || |raw| > MAX_SANITIZE_INPUT then Result(raw, 0) else Strip(Trim(raw), 0, kind)
  }

  /** What one pass leaves is stripped like the text it was found in. */
  lemma StripStep(t: string, next: string, removed: nat, kind: Segments)
    requires Bounded(kind) && t != [] && removed < kind.most && Cut(t, kind) == Some(next)
    ensures |next| < |t| && Strip(t, removed, kind) == Strip(next, removed + 1, kind)
  {}

  lemma StripEnds(t: string, removed: nat, kind: Segments)
    requires Bounded(kind) && (t == [] || removed >= kind.most || Cut(t, kind) == None)
    ensures Strip(t, removed, kind) == Result(t, removed)
  {}

  lemma NoSegment(t: string, removed: nat, kind: Segments)
    requires Bounded(kind) && kind.leading(t) == 0 && kind.trailing(t) == 0
    ensures Strip(t, removed, kind) == Result(t, removed)
  {}

  lemma CutHead(t: string, rest: string, n: nat, kind: Segments)
    requires Bounded(kind) && kind.leading(t) == n && 0 < n <= |t| && t[n..] == rest
    ensures Cut(t, kind) == Some(Trim(rest))
  {}

  lemma CutTail(t: string, front: string, n: nat, kind: Segments)
    requires Bounded(kind) && kind.leading(t) == 0 && kind.trailing(t) == |t| - n && n < |t| && t[..n] == front
    ensures Cut(t, kind) == Some(Trim(front))
  {}

  /** Two cuts, and then nothing more to cut. */
  lemma TwoPasses(t: string, next: string, rest: string, kind: Segments)
    requires Bounded(kind) && kind.most >= 2 && t != [] && next != []
    requires Cut(t, kind) == Some(next) && Cut(next, kind) == Some(rest)
    requires kind.leading(rest) == 0 && kind.trailing(rest) == 0
    ensures Strip(t, 0, kind) == Result(rest, 2)
  {
    StripStep(t, next, 0, kind);
    StripStep(next, rest, 1, kind);
    NoSegment(rest, 2, kind);
  }

  method StripSegments(raw: string, kind: Segments) returns (text: string, removedBlocks: nat, changed: bool)
    requires Bounded(kind)
    ensures Result(text, removedBlocks) == Stripped(raw, kind)
    ensures changed == (removedBlocks > 0) && removedBlocks <= kind.most
  {
    if raw == [] || |raw| > MAX_SANITIZE_INPUT { return raw, 0, false; }
    text, removedBlocks := Trim(raw), 0;
    ghost var whole := Strip(text, 0, kind);
    while |text| > 0 && removedBlocks < kind.most
      invariant removedBlocks <= kind.most && Strip(text, removedBlocks, kind) == whole
      decreases |text|
    {
      ghost var before := text;
      var lead := kind.leading(text);
      if lead > 0 {
        text := Trim(text[lead..]);
        StripStep(before, text, removedBlocks, kind);
        removedBlocks := removedBlocks + 1;
        continue;
      }
      var tail := kind.trailing(text);
      if tail > 0 {
        text := Trim(text[..|text| - tail]);
        StripStep(before, text, removedBlocks, kind);
        removedBlocks := removedBlocks + 1;
        continue;
      }
      break;
    }
    StripEnds(text, removedBlocks, kind);
    changed := removedBlocks > 0;
  }

  // ----- what comes out

  /** A finished strip: a trimmed slice of the text with nothing more to cut, unless the limit was hit. */
  ghost predicate Finished(r: Result, t: string, removed: nat, kind: Segments)
    requires Bounded(kind)
  {
    && SliceOf(r.text, t) && Trimmed(r.text) && r.removedBlocks >= removed
    && (r.removedBlocks < kind.most ==> r.text == [] || Cut(r.text, kind) == None)
  }

  lemma {:induction false} StripShape(t: string, removed: nat, kind: Segments)
    requires Bounded(kind) && Trimmed(t)
    ensures Finished(Strip(t, removed, kind), t, removed, kind)
    decreases |t|
  {
    if t == [] || removed >= kind.most || Cut(t, kind) == None {
      StripEnds(t, removed, kind);
      WholeSlice(t);
    } else {
      var next := Cut(t, kind).value;
      CutShape(t, kind);
      StripStep(t, next, removed, kind);
      StripShape(next, removed + 1, kind);
      SliceOfSlice(Strip(next, removed + 1, kind).text, next, t);
    }
  }

  lemma CutShape(t: string, kind: Segments)
    requires Bounded(kind) && Cut(t, kind).Some?
    ensures Trimmed(Cut(t, kind).value) && SliceOf(Cut(t, kind).value, t)
  {
    var lead, tail := kind.leading(t), kind.trailing(t);
    if lead > 0 { PieceShape(t, lead, |t|); } else { PieceShape(t, 0, |t| - tail); }
  }

  lemma PieceShape(t: string, i: nat, j: nat)
    requires i <= j <= |t|
    ensures Trimmed(Trim(t[i..j])) && SliceOf(Trim(t[i..j]), t)
    ensures t[i..j] == if j == |t| then t[i..] else t[i..j]
    ensures t[i..j] == if i == 0 then t[..j] else t[i..j]
  {
    SliceBy(t, i, j);
    TrimIsTrimmed(t[i..j]);
    TrimIsSlice(t[i..j]);
    SliceOfSlice(Trim(t[i..j]), t[i..j], t);
  }

  // Stripping returns one contiguous slice of its input: nothing is ever stitched
  // together. When fewer blocks than the limit were removed, stripping again changes nothing.
  lemma StrippedIsSliceAndFixpoint(raw: string, kind: Segments)
    requires Bounded(kind)
    ensures var r := Stripped(raw, kind);
            && SliceOf(r.text, raw)
            && (r.removedBlocks < kind.most ==> Stripped(r.text, kind) == Result(r.text, 0))
  {
    var r := Stripped(raw, kind);
    if raw == [] || |raw| > MAX_SANITIZE_INPUT {
      WholeSlice(raw);
    } else {
      TrimIsTrimmed(raw);
      TrimIsSlice(raw);
      StripShape(Trim(raw), 0, kind);
      SliceOfSlice(r.text, Trim(raw), raw);
      TrimmedIsFixed(r.text);
      var i, j :| 0 <= i <= j <= |raw| && r.text == raw[i..j];
    }
  }
}
