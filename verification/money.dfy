/** Amounts in cents: how the coordinator prints them and how the mutation parser reads them. */
module Money {
  import opened Common
  import opened Text

  /** Decimal digits, without leading zeros. */
  function Digits(n: nat): (s: string)
    ensures s != [] && AllDigits(s)
  {
    if n < 10 then [Char(n)] else Digits(n / 10) + [Char(n % 10)]
  }

  function Number(s: string): nat
    requires AllDigits(s)
  {
    if s == [] then 0 else Number(s[..|s| - 1]) * 10 + (Digit(s[|s| - 1]))
  }

  lemma {:induction false} NumberOfDigits(n: nat)
    ensures Number(Digits(n)) == n
  {
    if n >= 10 {
      NumberOfDigits(n / 10);
      assert Digits(n)[..|Digits(n)| - 1] == Digits(n / 10);
    }
  }

  // ----- printing

  /** A dot before every group of three digits, counted from the right. */
  function Grouped(s: string): string {
    if |s| <= 3 then s else Grouped(s[..|s| - 3]) + "." + s[|s| - 3..]
  }

  function TwoDigits(n: nat): string
    requires n < 100
  {
    [Char(n / 10), Char(n % 10)]
  }

  /** The amount with two decimals and a comma, as printed after the currency sign. */
  function Figure(whole: nat, fraction: nat): string
    requires fraction < 100
  {
    Grouped(Digits(whole)) + "," + TwoDigits(fraction)
  }

  function FormatAmount(cents: int): string {
    "R$ " + (if cents < 0 then "-" + Figure(-cents / 100, -cents % 100) else Figure(cents / 100, cents % 100))
  }

  // ----- parsing

  function WithoutDots(s: string): string {
    if s == [] then [] else (if s[0] == '.' then [] else [s[0]]) + WithoutDots(s[1..])
  }

  /** Where a character first occurs, or the length. */
  function IndexOf(s: string, c: char): (i: nat)
    ensures i <= |s| && (i < |s| ==> s[i] == c) && forall j :: 0 <= j < i ==> s[j] != c
  {
    if s == [] || s[0] == c then 0 else 1 + IndexOf(s[1..], c)
  }

  /** Dots group and a comma separates the cents; without a comma the dot does. */
  function Cents(raw: string): Option<nat> {
    ReadDecimal(if ',' in raw then CommaToDot(WithoutDots(raw)) else raw)
  }

  function CommaToDot(s: string): string {
    var comma := IndexOf(s, ',');
    if comma < |s| then s[..comma] + "." + s[comma + 1..] else s
  }

  /** A whole part, and up to two decimals after the first dot. */
  function ReadDecimal(s: string): Option<nat> {
    var dot := IndexOf(s, '.');
    var rest := if dot < |s| then s[dot + 1..] else [];
    ReadParts(s[..dot], rest[..IndexOf(rest, '.')])
  }

  function ReadParts(whole: string, fraction: string): Option<nat> {
    if whole == [] || !AllDigits(whole) || |fraction| > 2 || !AllDigits(fraction) then None
    else Some(Number(whole) * 100 + Number(if |fraction| == 0 then "00" else if |fraction| == 1 then fraction + "0" else fraction))
  }

  function ParseMoneyToCents(value: string): Option<nat> {
    var prefixed := |value| >= 2 && (value[0] == 'r' || value[0] == 'R') && value[1] == '$';
    Cents(Trim(if prefixed then value[FirstKept(value, 2)..] else value))
  }

  // ----- the round trip

  lemma {:induction false} WithoutDotsConcat(a: string, b: string)
    ensures WithoutDots(a + b) == WithoutDots(a) + WithoutDots(b)
  {
    if a == [] {
      assert a + b == b;
    } else {
      assert (a + b)[1..] == a[1..] + b;
      WithoutDotsConcat(a[1..], b);
    }
  }

  lemma {:induction false} NoDots(s: string)
    requires forall i :: 0 <= i < |s| ==> s[i] != '.'
    ensures WithoutDots(s) == s
  {
    if s != [] {
      NoDots(s[1..]);
      assert s == [s[0]] + s[1..];
    }
  }

  lemma UngroupStep(g: string, a: string, b: string)
    requires WithoutDots(g) == a && WithoutDots(b) == b
    ensures WithoutDots(g + "." + b) == a + b
  {
    WithoutDotsConcat(g + ".", b);
    WithoutDotsConcat(g, ".");
    assert WithoutDots(".") == [] + WithoutDots([]);
    assert a + [] == a;
  }

  lemma DigitsHaveNoDots(s: string)
    requires AllDigits(s)
    ensures WithoutDots(s) == s
  {
    NoDots(s);
  }

  lemma SplitDigits(s: string)
    requires AllDigits(s) && |s| > 3
    ensures var a, b := s[..|s| - 3], s[|s| - 3..];
            AllDigits(a) && AllDigits(b) && s == a + b && Grouped(s) == Grouped(a) + "." + b
  {}

  // Removing the dots gives back the digits that were grouped.
  lemma {:induction false} UngroupGrouped(s: string)
    requires AllDigits(s)
    ensures WithoutDots(Grouped(s)) == s
    decreases |s|
  {
    if |s| <= 3 {
      DigitsHaveNoDots(s);
    } else {
      var a, b := s[..|s| - 3], s[|s| - 3..];
      SplitDigits(s);
      UngroupGrouped(a);
      DigitsHaveNoDots(b);
      UngroupStep(Grouped(a), a, b);
    }
  }

  lemma FirstOccurrence(a: string, c: char, b: string)
    requires forall i :: 0 <= i < |a| ==> a[i] != c
    ensures var s := a + [c] + b; IndexOf(s, c) == |a| && s[..|a|] == a && s[|a| + 1..] == b
  {
    var s := a + [c] + b;
    assert s[|a|] == c && forall i :: 0 <= i < |a| ==> s[i] == a[i];
  }

  lemma GroupedEnds(s: string)
    requires s != [] && AllDigits(s)
    ensures Grouped(s) != [] && !IsSpace(Grouped(s)[0]) && Grouped(s)[0] == s[0]
  {}

  lemma TwoDigitsRead(n: nat)
    requires n < 100
    ensures AllDigits(TwoDigits(n)) && Number(TwoDigits(n)) == n
  {
    var f := TwoDigits(n);
    assert f[..1] == [Char(n / 10)];
    assert Number(f[..1][..0]) == 0;
    assert Number(f[..1]) == n / 10;
    assert Number(f) == Number(f[..1]) * 10 + (Digit(f[1]));
  }

  lemma Absent(s: string, c: char)
    requires forall i :: 0 <= i < |s| ==> s[i] != c
    ensures IndexOf(s, c) == |s| && s[..|s|] == s
  {}

  lemma CommaBetween(w: string, f: string)
    requires AllDigits(w)
    ensures CommaToDot(w + [','] + f) == w + ['.'] + f
  {
    FirstOccurrence(w, ',', f);
  }

  lemma DotBetween(w: string, f: string)
    requires AllDigits(w) && AllDigits(f)
    ensures ReadDecimal(w + ['.'] + f) == ReadParts(w, f)
  {
    FirstOccurrence(w, '.', f);
    Absent(f, '.');
  }

  lemma PlainFigure(g: string, w: string, f: string)
    requires WithoutDots(g) == w && WithoutDots(f) == f
    ensures ',' in g + "," + f && WithoutDots(g + "," + f) == w + [','] + f
  {
    WithoutDotsConcat(g + ",", f);
    WithoutDotsConcat(g, ",");
    NoDots(",");
    assert (g + "," + f)[|g|] == ',';
  }

  lemma CentsOfPlain(raw: string, w: string, f: string)
    requires ',' in raw && WithoutDots(raw) == w + [','] + f && AllDigits(w) && AllDigits(f)
    ensures Cents(raw) == ReadParts(w, f)
  {
    CommaBetween(w, f);
    DotBetween(w, f);
  }

  lemma PrintedParts(whole: nat, fraction: nat)
    requires fraction < 100
    ensures ReadParts(Digits(whole), TwoDigits(fraction)) == Some(whole * 100 + fraction)
  {
    NumberOfDigits(whole);
    TwoDigitsRead(fraction);
  }

  lemma PrintedFigure(whole: nat, fraction: nat)
    requires fraction < 100
    ensures Cents(Figure(whole, fraction)) == Some(whole * 100 + fraction)
  {
    var w, f := Digits(whole), TwoDigits(fraction);
    UngroupGrouped(w);
    DigitsHaveNoDots(f);
    PlainFigure(Grouped(w), w, f);
    CentsOfPlain(Grouped(w) + "," + f, w, f);
    PrintedParts(whole, fraction);
  }

  lemma MinusIsNoDecimal(s: string)
    requires s != [] && s[0] == '-'
    ensures ReadDecimal(s) == None
  {
    var dot := IndexOf(s, '.');
    assert s[..dot][0] == '-';
  }

  lemma MinusFails(raw: string)
    requires raw != [] && raw[0] == '-'
    ensures Cents(raw) == None
  {
    if ',' in raw {
      var plain := WithoutDots(raw);
      assert plain == ['-'] + WithoutDots(raw[1..]);
      MinusIsNoDecimal(CommaToDot(plain));
    } else {
      MinusIsNoDecimal(raw);
    }
  }

  // Printing an amount and parsing the text gives the amount back, exactly for the
  // amounts that are not negative; a negative one is refused.
  lemma RoundTrip(cents: int)
    ensures cents >= 0 ==> ParseMoneyToCents(FormatAmount(cents)) == Some(cents)
    ensures cents < 0 ==> ParseMoneyToCents(FormatAmount(cents)) == None
  {
    var size := if cents < 0 then -cents else cents;
    var whole, fraction := Split(size);
    if cents < 0 { PrintedNegative(whole, fraction); } else { PrintedNonNegative(whole, fraction); }
  }

  lemma Split(size: nat) returns (whole: nat, fraction: nat)
    ensures whole == size / 100 && fraction == size % 100 && fraction < 100 && whole * 100 + fraction == size
  {
    whole, fraction := size / 100, size % 100;
  }

  lemma PrintedNegative(whole: nat, fraction: nat)
    requires fraction < 100
    ensures ParseMoneyToCents("R$ " + ("-" + Figure(whole, fraction))) == None
  {
    FigureEnds(whole, fraction);
    StripPrefix("-" + Figure(whole, fraction));
    MinusFails("-" + Figure(whole, fraction));
  }

  lemma PrintedNonNegative(whole: nat, fraction: nat)
    requires fraction < 100
    ensures ParseMoneyToCents("R$ " + Figure(whole, fraction)) == Some(whole * 100 + fraction)
  {
    FigureEnds(whole, fraction);
    StripPrefix(Figure(whole, fraction));
    PrintedFigure(whole, fraction);
  }

  lemma FigureEnds(whole: nat, fraction: nat)
    requires fraction < 100
    ensures var t := Figure(whole, fraction); t != [] && IsDigit(t[0]) && IsDigit(t[|t| - 1])
  {
    GroupedEnds(Digits(whole));
  }

  lemma StripPrefix(body: string)
    requires body != [] && !IsSpace(body[0]) && !IsSpace(body[|body| - 1])
    ensures ParseMoneyToCents("R$ " + body) == Cents(body)
  {
    var text := "R$ " + body;
    assert text[2] == ' ' && text[3] == body[0];
    assert FirstKept(text, 2) == FirstKept(text, 3) == 3;
    assert text[3..] == body;
    TrimmedIsFixed(body);
  }
}
