/**
 * The string-aware brace scanner of the markup sanitizer, against a grammar of
 * balanced text that does not mention scanning.
 */
module BraceScanner {
  import opened Common

  const MAX_JSON_SCAN := 4096

  // ----- the grammar

  /** One step inside a string literal: a bare character, or a backslash with whatever follows it. */
  datatype Mark = Bare(c: char) | Escaped(c: char)

  datatype Piece = Plain(c: char) | Literal(marks: seq<Mark>) | Braces(pieces: seq<Piece>)

  predicate MarksOk(marks: seq<Mark>) {
    forall i :: 0 <= i < |marks| ==> marks[i].Bare? ==> marks[i].c != '"' && marks[i].c != '\\'
  }

  predicate PieceOk(p: Piece) {
    match p
    case Plain(c) => c != '"' && c != '{' && c != '}'
    case Literal(marks) => MarksOk(marks)
    case Braces(pieces) => forall i :: 0 <= i < |pieces| ==> PieceOk(pieces[i])
  }

  predicate PiecesOk(ps: seq<Piece>) { forall i :: 0 <= i < |ps| ==> PieceOk(ps[i]) }

  function MarksText(marks: seq<Mark>): string {
    if marks == [] then []
    else (if marks[0].Bare? then [marks[0].c] else ['\\', marks[0].c]) + MarksText(marks[1..])
  }

  function PieceText(p: Piece): string
    decreases p, 0
  {
    match p
    case Plain(c) => [c]
    case Literal(marks) => ['"'] + MarksText(marks) + ['"']
    case Braces(pieces) => ['{'] + PiecesText(pieces) + ['}']
  }

  function PiecesText(ps: seq<Piece>): string
    decreases ps, 1
  {
    if ps == [] then [] else PieceText(ps[0]) + PiecesText(ps[1..])
  }

  /** A text is an object when it is braces around balanced text. */
  ghost predicate IsObject(s: string) {
    exists ps :: PiecesOk(ps) && s == PieceText(Braces(ps))
  }

  // ----- the scanner

  datatype Reading = Reading(depth: int, inString: bool, escaped: bool)

  function Next(r: Reading, c: char): Reading {
    if r.inString then
      if r.escaped then r.(escaped := false)
      else if c == '\\' then r.(escaped := true)
      else if c == '"' then r.(inString := false)
      else r
    else if c == '"' then r.(inString := true)
    else if c == '{' then r.(depth := r.depth + 1)
    else if c == '}' then r.(depth := r.depth - 1)
    else r
  }

  predicate Closes(r: Reading, c: char) { !r.inString && c == '}' && r.depth == 1 }

  function At(depth: int): Reading { Reading(depth, false, false) }

  function InString(depth: int): Reading { Reading(depth, true, false) }

  /** How many characters the scan reads before a closing brace takes the depth to zero. */
  function Scan(s: string, r: Reading): Option<nat> {
    if s == [] then None
    else if Closes(r, s[0]) then Some(1)
    else More(1, Scan(s[1..], Next(r, s[0])))
  }

  function More(k: nat, n: Option<nat>): Option<nat> { if n.None? then None else Some(k + n.value) }

  lemma ScanCons(c: char, rest: string, r: Reading)
    ensures Scan([c] + rest, r) == if Closes(r, c) then Some(1) else More(1, Scan(rest, Next(r, c)))
  {
    assert ([c] + rest)[1..] == rest;
  }

  lemma ScanUncons(s: string, r: Reading, n: nat)
    requires Scan(s, r) == Some(n)
    ensures s != [] && n >= 1
    ensures if Closes(r, s[0]) then n == 1 else n >= 2 && Scan(s[1..], Next(r, s[0])) == Some(n - 1)
  {
    if !Closes(r, s[0]) { ScanPositive(s[1..], Next(r, s[0])); }
  }

  lemma ScanPositive(s: string, r: Reading)
    ensures Scan(s, r).Some? ==> 1 <= Scan(s, r).value <= |s|
  {}

  lemma Wrapped(c: char, m: string, d: char, rest: string)
    ensures [c] + m + [d] + rest == [c] + (m + ([d] + rest))
  {}

  lemma Front(s: string, n: nat)
    requires 0 < n <= |s|
    ensures s[..n] == [s[0]] + s[1..][..n - 1]
  {}

  function Limit(text: string, start: nat): nat {
    if |text| < start + MAX_JSON_SCAN then |text| else start + MAX_JSON_SCAN
  }

  /** End of the balanced object at start, or -1. */
  function BalancedEnd(text: string, start: nat): (end: int)
    ensures end == -1 || start < end
  {
    if start >= |text| || text[start] != '{' then -1
    else
      var n := Scan(text[start..Limit(text, start)], At(0));
      if n.None? || n.value == 0 then -1 else start + n.value
  }

  method BalancedJsonObjectEnd(text: string, start: nat) returns (end: int)
    ensures end == BalancedEnd(text, start)
  {
    if start >= |text| || text[start] != '{' { return -1; }
    var depth, inString, escaped := 0, false, false;
    var limit := Limit(text, start);
    ghost var whole := Scan(text[start..limit], At(0));
    for index := start to limit
      invariant whole == More(index - start, Scan(text[index..limit], Reading(depth, inString, escaped)))
    {
      var c := text[index];
      ghost var before := Reading(depth, inString, escaped);
      assert text[index..limit] == [c] + text[index + 1..limit];
      ScanCons(c, text[index + 1..limit], before);
      if inString {
        if escaped { escaped := false; }
        else if c == '\\' { escaped := true; }
        else if c == '"' { inString := false; }
      } else if c == '"' {
        inString := true;
      } else if c == '{' {
        depth := depth + 1;
      } else if c == '}' {
        depth := depth - 1;
        if depth == 0 { return index + 1; }
      }
      assert Next(before, c) == Reading(depth, inString, escaped);
    }
    assert text[limit..limit] == [];
    return -1;
  }

  // ----- balanced text is read to its end, and no further

  lemma {:induction false} ScanMarks(marks: seq<Mark>, rest: string, depth: int)
    requires MarksOk(marks)
    ensures Scan(MarksText(marks) + rest, InString(depth)) == More(|MarksText(marks)|, Scan(rest, InString(depth)))
    decreases |marks|
  {
    if marks == [] {
      assert MarksText(marks) + rest == rest;
    } else {
      var m, tail := marks[0], MarksText(marks[1..]) + rest;
      ScanMarks(marks[1..], rest, depth);
      ScanCons(m.c, tail, InString(depth));
      if m.Bare? {
        assert MarksText(marks) + rest == [m.c] + tail;
      } else {
        assert MarksText(marks) + rest == ['\\'] + ([m.c] + tail);
        ScanCons('\\', [m.c] + tail, InString(depth));
        ScanCons(m.c, tail, InString(depth).(escaped := true));
      }
    }
  }

  lemma {:induction false} ScanPiece(p: Piece, rest: string, depth: int)
    requires PieceOk(p) && depth >= 1
    ensures Scan(PieceText(p) + rest, At(depth)) == More(|PieceText(p)|, Scan(rest, At(depth)))
    decreases p, 0
  {
    match p
    case Plain(c) =>
      ScanCons(c, rest, At(depth));
    case Literal(marks) =>
      ScanLiteral(marks, rest, depth);
    case Braces(pieces) =>
      ScanPieces(pieces, ['}'] + rest, depth + 1);
      ScanBraces(PiecesText(pieces), rest, depth);
  }

  lemma ScanBraces(m: string, rest: string, depth: int)
    requires depth >= 0
    requires Scan(m + (['}'] + rest), At(depth + 1)) == More(|m|, Scan(['}'] + rest, At(depth + 1)))
    ensures Scan(['{'] + m + ['}'] + rest, At(depth))
            == if depth == 0 then Some(|m| + 2) else More(|m| + 2, Scan(rest, At(depth)))
  {
    Wrapped('{', m, '}', rest);
    ScanBoth(m + (['}'] + rest), |m|, rest, depth);
  }

  lemma ScanBoth(u: string, k: nat, rest: string, depth: int)
    requires depth >= 0
    requires Scan(u, At(depth + 1)) == More(k, Scan(['}'] + rest, At(depth + 1)))
    ensures Scan(['{'] + u, At(depth)) == if depth == 0 then Some(k + 2) else More(k + 2, Scan(rest, At(depth)))
  {
    ScanOpen(u, depth);
    ScanClose(rest, depth);
  }

  lemma ScanOpen(u: string, depth: int)
    requires depth >= 0
    ensures Scan(['{'] + u, At(depth)) == More(1, Scan(u, At(depth + 1)))
  {
    ScanCons('{', u, At(depth));
  }

  lemma ScanClose(rest: string, depth: int)
    requires depth >= 0
    ensures Scan(['}'] + rest, At(depth + 1)) == if depth == 0 then Some(1) else More(1, Scan(rest, At(depth)))
  {
    ScanCons('}', rest, At(depth + 1));
  }

  lemma ScanLiteral(marks: seq<Mark>, rest: string, depth: int)
    requires MarksOk(marks)
    ensures var t := ['"'] + MarksText(marks) + ['"'];
            Scan(t + rest, At(depth)) == More(|t|, Scan(rest, At(depth)))
  {
    var m := MarksText(marks);
    Wrapped('"', m, '"', rest);
    ScanCons('"', m + (['"'] + rest), At(depth));
    ScanMarks(marks, ['"'] + rest, depth);
    ScanCons('"', rest, InString(depth));
  }

  lemma {:induction false} ScanPieces(ps: seq<Piece>, rest: string, depth: int)
    requires PiecesOk(ps) && depth >= 1
    ensures Scan(PiecesText(ps) + rest, At(depth)) == More(|PiecesText(ps)|, Scan(rest, At(depth)))
    decreases ps, 1
  {
    if ps == [] {
      assert PiecesText(ps) + rest == rest;
    } else {
      assert PiecesText(ps) + rest == PieceText(ps[0]) + (PiecesText(ps[1..]) + rest);
      ScanPiece(ps[0], PiecesText(ps[1..]) + rest, depth);
      ScanPieces(ps[1..], rest, depth);
    }
  }

  lemma ScanObject(ps: seq<Piece>, rest: string)
    requires PiecesOk(ps)
    ensures Scan(PieceText(Braces(ps)) + rest, At(0)) == Some(|PieceText(Braces(ps))|)
  {
    ScanPieces(ps, ['}'] + rest, 1);
    ScanBraces(PiecesText(ps), rest, 0);
  }

  // ----- what the scan reads is balanced text

  predicate LayersOk(layers: seq<seq<Piece>>) { forall i :: 0 <= i < |layers| ==> PiecesOk(layers[i]) }

  /** Balanced runs, each followed by the brace that closes one more level. */
  function LayersText(layers: seq<seq<Piece>>): string {
    if layers == [] then [] else PiecesText(layers[0]) + ['}'] + LayersText(layers[1..])
  }

  lemma PiecesCons(p: Piece, ps: seq<Piece>)
    requires PieceOk(p) && PiecesOk(ps)
    ensures PiecesOk([p] + ps) && PiecesText([p] + ps) == PieceText(p) + PiecesText(ps)
  {
    assert ([p] + ps)[1..] == ps;
  }

  lemma LayersCons(ps: seq<Piece>, layers: seq<seq<Piece>>)
    requires PiecesOk(ps) && LayersOk(layers)
    ensures LayersOk([ps] + layers) && LayersText([ps] + layers) == PiecesText(ps) + (['}'] + LayersText(layers))
  {
    var l := [ps] + layers;
    assert l[1..] == layers && forall i :: 0 < i < |l| ==> l[i] == layers[i - 1];
    assert LayersText(l) == PiecesText(ps) + ['}'] + LayersText(layers);
    Regroup(PiecesText(ps), ['}'], LayersText(layers));
  }

  lemma Regroup(a: string, b: string, c: string)
    ensures a + b + c == a + (b + c)
  {}

  lemma Prepend(p: Piece, layers: seq<seq<Piece>>)
    requires PieceOk(p) && layers != [] && LayersOk(layers)
    ensures var l := [[p] + layers[0]] + layers[1..];
            LayersOk(l) && LayersText(l) == PieceText(p) + LayersText(layers)
  {
    var head, tail := layers[0], layers[1..];
    assert PiecesOk(head) && LayersOk(tail);
    PiecesCons(p, head);
    LayersCons([p] + head, tail);
    LayersCons(head, tail);
    assert layers == [head] + tail;
    Regroup(PieceText(p), PiecesText(head), ['}'] + LayersText(tail));
  }

  lemma Enclose(layers: seq<seq<Piece>>)
    requires |layers| >= 2 && LayersOk(layers)
    ensures var l := [[Braces(layers[0])] + layers[1]] + layers[2..];
            LayersOk(l) && LayersText(l) == ['{'] + LayersText(layers)
  {
    assert PiecesOk(layers[0]);
    var tail := layers[1..];
    Prepend(Braces(layers[0]), tail);
    assert tail[1..] == layers[2..];
    Wrapped('{', PiecesText(layers[0]), '}', LayersText(tail));
    LayersCons(layers[0], tail);
    assert layers == [layers[0]] + tail;
  }

  lemma {:induction false} Outside(s: string, depth: nat, n: nat) returns (layers: seq<seq<Piece>>)
    requires depth >= 1 && Scan(s, At(depth)) == Some(n)
    ensures |layers| == depth && LayersOk(layers) && n <= |s| && s[..n] == LayersText(layers)
    decreases |s|
  {
    ScanUncons(s, At(depth), n);
    ScanPositive(s, At(depth));
    Front(s, n);
    if s[0] == '"' {
      var marks, inner := Inside(s[1..], depth, n - 1);
      layers := OpenLiteral(marks, inner);
    } else if s[0] == '{' {
      var inner := Outside(s[1..], depth + 1, n - 1);
      Enclose(inner);
      layers := [[Braces(inner[0])] + inner[1]] + inner[2..];
    } else if s[0] == '}' {
      if depth == 1 {
        layers := LastLayer();
      } else {
        var inner := Outside(s[1..], depth - 1, n - 1);
        layers := EmptyLayer(inner);
      }
    } else {
      var inner := Outside(s[1..], depth, n - 1);
      Prepend(Plain(s[0]), inner);
      layers := [[Plain(s[0])] + inner[0]] + inner[1..];
    }
  }

  lemma LastLayer() returns (layers: seq<seq<Piece>>)
    ensures |layers| == 1 && LayersOk(layers) && LayersText(layers) == ['}']
  {
    layers := [[]];
    assert layers[1..] == [];
  }

  lemma EmptyLayer(inner: seq<seq<Piece>>) returns (layers: seq<seq<Piece>>)
    requires LayersOk(inner)
    ensures |layers| == |inner| + 1 && LayersOk(layers) && LayersText(layers) == ['}'] + LayersText(inner)
  {
    layers := [[]] + inner;
    assert layers[1..] == inner && forall i :: 1 <= i < |layers| ==> layers[i] == inner[i - 1];
  }

  lemma OpenLiteral(marks: seq<Mark>, inner: seq<seq<Piece>>) returns (layers: seq<seq<Piece>>)
    requires MarksOk(marks) && LayersOk(inner) && inner != []
    ensures |layers| == |inner| && LayersOk(layers)
    ensures LayersText(layers) == ['"'] + (MarksText(marks) + (['"'] + LayersText(inner)))
  {
    Prepend(Literal(marks), inner);
    layers := [[Literal(marks)] + inner[0]] + inner[1..];
    Wrapped('"', MarksText(marks), '"', LayersText(inner));
    assert MarksText(marks) + ['"'] + LayersText(inner) == MarksText(marks) + (['"'] + LayersText(inner));
  }

  lemma PrependMark(m: Mark, marks: seq<Mark>, t: string)
    requires MarksOk(marks) && (m.Bare? ==> m.c != '"' && m.c != '\\')
    ensures MarksOk([m] + marks)
    ensures MarksText([m] + marks) + t == (if m.Bare? then [m.c] else ['\\', m.c]) + (MarksText(marks) + t)
  {
    assert ([m] + marks)[1..] == marks;
  }

  lemma FrontTwo(s: string, n: nat)
    requires 2 <= n <= |s|
    ensures s[..n] == [s[0], s[1]] + s[2..][..n - 2] && s[1..][1..] == s[2..] && s[1..][0] == s[1]
  {}

  lemma {:induction false} Inside(s: string, depth: nat, n: nat) returns (marks: seq<Mark>, layers: seq<seq<Piece>>)
    requires depth >= 1 && Scan(s, InString(depth)) == Some(n)
    ensures |layers| == depth && LayersOk(layers) && MarksOk(marks)
    ensures n <= |s| && s[..n] == MarksText(marks) + (['"'] + LayersText(layers))
    decreases |s|
  {
    ScanUncons(s, InString(depth), n);
    ScanPositive(s, InString(depth));
    if s[0] == '\\' {
      ScanUncons(s[1..], InString(depth).(escaped := true), n - 1);
      FrontTwo(s, n);
      var inner;
      inner, layers := Inside(s[2..], depth, n - 2);
      marks := [Escaped(s[1])] + inner;
      PrependMark(Escaped(s[1]), inner, ['"'] + LayersText(layers));
    } else if s[0] == '"' {
      Front(s, n);
      layers := Outside(s[1..], depth, n - 1);
      marks := [];
    } else {
      Front(s, n);
      var inner;
      inner, layers := Inside(s[1..], depth, n - 1);
      marks := [Bare(s[0])] + inner;
      PrependMark(Bare(s[0]), inner, ['"'] + LayersText(layers));
    }
  }

  lemma OneLayer(layers: seq<seq<Piece>>)
    requires |layers| == 1 && LayersOk(layers)
    ensures PiecesOk(layers[0]) && ['{'] + LayersText(layers) == PieceText(Braces(layers[0]))
  {
    assert layers[1..] == [];
    var m := PiecesText(layers[0]);
    assert LayersText(layers) == m + ['}'] + [];
    assert ['{'] + (m + ['}']) == ['{'] + m + ['}'];
  }

  lemma ScannedIsObject(s: string, n: nat)
    requires s != [] && s[0] == '{' && Scan(s, At(0)) == Some(n)
    ensures 0 < n <= |s| && IsObject(s[..n])
  {
    ScanUncons(s, At(0), n);
    ScanPositive(s, At(0));
    Front(s, n);
    var layers := Outside(s[1..], 1, n - 1);
    OneLayer(layers);
  }

  // The scanner returns the one end, inside its limit, at which the text from start is
  // an object of the grammar, and -1 exactly when there is none.
  lemma BalancedEndExact(text: string, start: nat, e: nat)
    requires start <= e <= Limit(text, start)
    ensures IsObject(text[start..e]) <==> BalancedEnd(text, start) == e
  {
    var s := text[start..Limit(text, start)];
    if IsObject(text[start..e]) {
      var ps :| PiecesOk(ps) && text[start..e] == PieceText(Braces(ps));
      assert s == PieceText(Braces(ps)) + text[e..Limit(text, start)];
      ScanObject(ps, text[e..Limit(text, start)]);
      assert text[start..e][0] == '{';
    }
    if BalancedEnd(text, start) == e {
      ScannedIsObject(s, e - start);
      assert s[..e - start] == text[start..e];
    }
  }

  lemma BalancedEndInLimit(text: string, start: nat)
    ensures BalancedEnd(text, start) <= Limit(text, start)
  {
    if BalancedEnd(text, start) != -1 {
      var s := text[start..Limit(text, start)];
      ScannedIsObject(s, BalancedEnd(text, start) - start);
    }
  }
}
