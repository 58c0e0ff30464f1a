/**
 * What the canonical text looks like: a JSON text (RFC 8259) of the value, with the
 * members of an object in the lexicographic order of their keys (RFC 8785, section 3.2.3).
 */
module CanonicalShape {
  import opened Common
  import opened CanonicalJson

  // ----- order

  // The order of keys is the lexicographic one: at the first difference the smaller unit
  // comes first, and a key comes before the keys it begins.
  lemma {:induction false} LessIsLexicographic(a: Text, b: Text)
    ensures Less(a, b) <==>
              exists i: nat :: i <= |a| && i < |b| && a[..i] == b[..i] && (i == |a| || a[i] < b[i])
  {
    if a != [] && b != [] && a[0] == b[0] {
      LessIsLexicographic(a[1..], b[1..]);
      if Less(a, b) {
        var i: nat :| i <= |a[1..]| && i < |b[1..]| && a[1..][..i] == b[1..][..i] && (i == |a[1..]| || a[1..][i] < b[1..][i]);
        assert a[..i + 1] == [a[0]] + a[1..][..i] && b[..i + 1] == [b[0]] + b[1..][..i];
      }
      if i: nat :| i <= |a| && i < |b| && a[..i] == b[..i] && (i == |a| || a[i] < b[i]) {
        assert i > 0;
        assert a[1..][..i - 1] == a[..i][1..] && b[1..][..i - 1] == b[..i][1..];
        assert i - 1 <= |a[1..]| && i - 1 < |b[1..]| && (i - 1 == |a[1..]| || a[1..][i - 1] < b[1..][i - 1]);
      }
    } else if Less(a, b) {
      assert a[..0] == b[..0];
    } else if a != [] && b != [] {
      assert forall i :: 0 < i <= |a| && i <= |b| ==> a[..i][0] == a[0] && b[..i][0] == b[0];
    }
  }

  // ----- strings

  function HexValue(u: Unit): Option<int> {
    if 48 <= u <= 57 then Some(u - 48)
    else if 97 <= u <= 102 then Some(u - 87)
    else if 65 <= u <= 70 then Some(u - 55)
    else None
  }

  /** The unit a string text begins with, and how long it is written (RFC 8259, section 7). */
  function FirstUnit(t: Text): Option<(Unit, nat)>
    requires t != []
  {
    if t[0] == '\"' as int || t[0] < 0x20 then None
    else if t[0] != '\\' as int then Some((t[0], 1))
    else if |t| < 2 then None
    else if t[1] in {'\"' as int, '\\' as int, '/' as int} then Some((t[1], 2))
    else if t[1] == 'b' as int then Some((8, 2))
    else if t[1] == 't' as int then Some((9, 2))
    else if t[1] == 'n' as int then Some((10, 2))
    else if t[1] == 'f' as int then Some((12, 2))
    else if t[1] == 'r' as int then Some((13, 2))
    else if t[1] == 'u' as int && |t| >= 6 then
      var (a, b, c, d) := (HexValue(t[2]), HexValue(t[3]), HexValue(t[4]), HexValue(t[5]));
      if a.Some? && b.Some? && c.Some? && d.Some? then Some((Code(a.value, b.value, c.value, d.value), 6)) else None
    else None
  }

  function Code(a: int, b: int, c: int, d: int): (u: Unit)
    requires 0 <= a < 16 && 0 <= b < 16 && 0 <= c < 16 && 0 <= d < 16
  {
    ((a * 16 + b) * 16 + c) * 16 + d
  }

  /** What a string text says, if it is one. */
  function Decoded(t: Text): Option<Text>
    decreases |t|
  {
    if t == [] then Some([])
    else match FirstUnit(t)
      case None => None
      case Some((u, n)) =>
        if n > |t| then None
        else match Decoded(t[n..])
          case None => None
          case Some(rest) => Some([u] + rest)
  }

  lemma DigitOff(n: int, q: int, d: int)
    requires q == n / 16 && d == n % 16
    ensures q * 16 + d == n
  {}

  lemma Quotients(u: Unit)
    ensures u / 0x100 == u / 16 / 16 && u / 0x1000 == u / 0x100 / 16
  {}

  lemma CodeOfDigits(u: Unit)
    ensures Code(u / 0x1000, u / 0x100 % 16, u / 16 % 16, u % 16) == u
  {
    Quotients(u);
    DigitOff(u, u / 16, u % 16);
    DigitOff(u / 16, u / 0x100, u / 16 % 16);
    DigitOff(u / 0x100, u / 0x1000, u / 0x100 % 16);
  }

  lemma HexValueOfDigit(d: int)
    requires 0 <= d < 16
    ensures HexValue(HexDigit(d)) == Some(d)
  {}

  lemma FirstOfEscaped(u: Unit, rest: Text)
    ensures FirstUnit(EscapeUnit(u) + rest) == Some((u, |EscapeUnit(u)|))
    ensures (EscapeUnit(u) + rest)[|EscapeUnit(u)|..] == rest
  {
    var t := EscapeUnit(u) + rest;
    assert t[..|EscapeUnit(u)|] == EscapeUnit(u);
    if |EscapeUnit(u)| == 6 {
      HexValueOfDigit(u / 0x1000);
      HexValueOfDigit(u / 0x100 % 16);
      HexValueOfDigit(u / 16 % 16);
      HexValueOfDigit(u % 16);
      CodeOfDigits(u);
      assert t[0] == 92 && t[1] == 117 && t[2] == HexDigit(u / 0x1000) && t[3] == HexDigit(u / 0x100 % 16);
      assert t[4] == HexDigit(u / 16 % 16) && t[5] == HexDigit(u % 16);
    } else if |EscapeUnit(u)| == 2 {
      assert t[0] == 92 && t[1] == EscapeUnit(u)[1];
    } else {
      assert t[0] == u;
    }
  }

  lemma FirstRaw(u: Unit, rest: Text)
    requires u >= 0x20 && u != '\"' as int && u != '\\' as int
    ensures FirstUnit([u] + rest) == Some((u, 1)) && ([u] + rest)[1..] == rest
  {}

  // What is quoted reads back: the quoted text is a JSON string that says exactly the
  // string, and it begins and ends with a quotation mark.
  lemma QuotedReadsBack(s: Text)
    ensures var q := Quote(s);
            |q| >= 2 && q[0] == '\"' as int && q[|q| - 1] == '\"' as int && Decoded(q[1..|q| - 1]) == Some(s)
  {
    EscapedReadsBack(s, false);
    assert Quote(s)[1..|Quote(s)| - 1] == Escape(s, false);
  }

  lemma DecodedStep(t: Text, u: Unit, n: nat, rest: Text, s: Text)
    requires 0 < n <= |t| && FirstUnit(t) == Some((u, n)) && t[n..] == rest && Decoded(rest) == Some(s)
    ensures Decoded(t) == Some([u] + s)
  {}

  lemma EscapeStep(s: Text, inPair: bool)
    requires s != []
    ensures var pair := !inPair && High(s[0]) && |s| > 1 && Low(s[1]);
            Escape(s, inPair) == (if inPair || pair then [s[0]] else EscapeUnit(s[0])) + Escape(s[1..], pair)
  {}

  lemma {:induction false} EscapedReadsBack(s: Text, inPair: bool)
    requires inPair ==> s != [] && Low(s[0])
    ensures Decoded(Escape(s, inPair)) == Some(s)
  {
    if s != [] {
      var pair := !inPair && High(s[0]) && |s| > 1 && Low(s[1]);
      EscapedReadsBack(s[1..], pair);
      EscapeStep(s, inPair);
      var rest := Escape(s[1..], pair);
      if inPair || pair { FirstRaw(s[0], rest); } else { FirstOfEscaped(s[0], rest); }
      DecodedStep(Escape(s, inPair), s[0], if inPair || pair then 1 else |EscapeUnit(s[0])|, rest, s[1..]);
      assert [s[0]] + s[1..] == s;
    }
  }

  // The five short escapes are used where there is one, quotation mark and backslash are
  // escaped by a backslash, other controls and unpaired surrogates by their code in lower
  // case, and everything else stands for itself.
  lemma EscapesAre(u: Unit)
    ensures EscapeUnit(8) == Ascii("\\b") && EscapeUnit(9) == Ascii("\\t") && EscapeUnit(10) == Ascii("\\n")
    ensures EscapeUnit(12) == Ascii("\\f") && EscapeUnit(13) == Ascii("\\r")
    ensures EscapeUnit('\"' as int) == Ascii("\\\"") && EscapeUnit('\\' as int) == Ascii("\\\\")
    ensures EscapeUnit(0x1F) == Ascii("\\u001f") && EscapeUnit(0xDFAB) == Ascii("\\udfab")
    ensures |EscapeUnit(u)| == if u in {8, 9, 10, 12, 13, '\"' as int, '\\' as int} then 2
                               else if u < 0x20 || 0xD800 <= u < 0xE000 then 6 else 1
  {}

  // ----- values

  // The literal texts, and the brackets of what is empty.
  lemma LiteralsAre(n: NumText)
    ensures Print(Null) == Ascii("null") && Print(Bool(true)) == Ascii("true") && Print(Bool(false)) == Ascii("false")
    ensures Print(Num(n)) == n
    ensures Valid(Arr([])) && Print(Arr([])) == Ascii("[]")
    ensures Valid(Obj([])) && Print(Obj([])) == Ascii("{}")
  {
    assert Keys([]) == [];
  }

  /** Texts in order, with commas between them. */
  function Joined(texts: seq<Text>): Text {
    if texts == [] then [] else if |texts| == 1 then texts[0] else texts[0] + Ascii(",") + Joined(texts[1..])
  }

  lemma JoinedStep(texts: seq<Text>, from: nat)
    requires from < |texts|
    ensures Joined(texts[from..]) == texts[from] + (if from + 1 == |texts| then [] else Ascii(",") + Joined(texts[from + 1..]))
  {
    assert texts[from..][1..] == texts[from + 1..];
  }

  /** The texts from one on, as they stand behind the ones before. */
  function Rest(texts: seq<Text>, from: nat): Text
    requires from <= |texts|
  {
    (if from == 0 || from == |texts| then [] else Ascii(",")) + Joined(texts[from..])
  }

  lemma RestStep(texts: seq<Text>, from: nat)
    requires from < |texts|
    ensures Rest(texts, from) == Comma(from == 0) + texts[from] + Rest(texts, from + 1)
  {
    JoinedStep(texts, from);
    assert texts[|texts|..] == [];
  }

  lemma RestEnds(texts: seq<Text>)
    ensures Rest(texts, |texts|) == [] && Rest(texts, 0) == Joined(texts)
  {
    assert texts[|texts|..] == [] && texts[0..] == texts;
  }

  lemma ItemsUnfold(v: Json, from: nat)
    requires Valid(v) && v.Arr? && from < |v.items|
    ensures Valid(v.items[from]) && Items(v, from) == Comma(from == 0) + Print(v.items[from]) + Items(v, from + 1)
  {}

  lemma {:induction false} ItemsAreRest(v: Json, texts: seq<Text>, from: nat)
    requires Valid(v) && v.Arr? && |texts| == |v.items| && from <= |texts|
    requires forall i :: 0 <= i < |texts| ==> Valid(v.items[i]) && texts[i] == Print(v.items[i])
    ensures Items(v, from) == Rest(texts, from)
    decreases |texts| - from
  {
    if from < |texts| {
      ItemsUnfold(v, from);
      RestStep(texts, from);
      ItemsAreRest(v, texts, from + 1);
    } else {
      RestEnds(texts);
    }
  }

  // A list is the texts of its items, in order, between brackets.
  lemma ListIsJoined(items: seq<Json>, texts: seq<Text>)
    requires Valid(Arr(items)) && |texts| == |items|
    requires forall i :: 0 <= i < |texts| ==> Valid(items[i]) && texts[i] == Print(items[i])
    ensures Print(Arr(items)) == Ascii("[") + Joined(texts) + Ascii("]")
  {
    ItemsAreRest(Arr(items), texts, 0);
    RestEnds(texts);
    BracketsAre();
  }

  function MemberText(f: Field): Text
    requires Valid(f.value)
  {
    Quote(f.key) + Ascii(":") + Print(f.value)
  }

  lemma ValueOf(v: Json, f: Field)
    requires Valid(v) && v.Obj? && f in v.fields
    ensures Has(v.fields, f.key) && Value(v, f.key) == f.value && Valid(f.value)
  {
    var i :| 0 <= i < |v.fields| && v.fields[i] == f;
    AtIsIndex(v.fields, i);
  }

  lemma MembersOpen(v: Json, keys: seq<Text>, first: bool)
    requires Valid(v) && v.Obj? && keys != [] && AllHere(v, keys)
    ensures Valid(Value(v, keys[0])) && AllHere(v, keys[1..])
    ensures Members(v, keys, first) == Comma(first) + Quote(keys[0]) + [58] + Print(Value(v, keys[0])) + Members(v, keys[1..], false)
  {}

  lemma Grouped(a: Text, b: Text, c: Text, d: Text, e: Text)
    ensures a + b + c + d + e == a + (b + c + d) + e
  {}

  lemma MembersUnfold(v: Json, keys: seq<Text>, first: bool, f: Field)
    requires Valid(v) && v.Obj? && keys != [] && AllHere(v, keys)
    requires f in v.fields && f.key == keys[0]
    ensures Valid(f.value) && AllHere(v, keys[1..])
    ensures Members(v, keys, first) == Comma(first) + MemberText(f) + Members(v, keys[1..], false)
  {
    ValueOf(v, f);
    MembersOpen(v, keys, first);
    Grouped(Comma(first), Quote(f.key), [58], Print(f.value), Members(v, keys[1..], false));
    ColonIs(f);
  }

  lemma ColonIs(f: Field)
    requires Valid(f.value)
    ensures MemberText(f) == Quote(f.key) + [58] + Print(f.value)
  {
    assert Ascii(":") == [58];
  }

  lemma {:induction false} MembersAreRest(v: Json, keys: seq<Text>, sorted: seq<Field>, texts: seq<Text>, from: nat)
    requires Valid(v) && v.Obj? && |texts| == |sorted| == |keys| && from <= |texts|
    requires forall i :: 0 <= i < |sorted| ==> sorted[i] in v.fields && Valid(sorted[i].value) && texts[i] == MemberText(sorted[i])
    requires AllHere(v, keys) && forall i :: 0 <= i < |keys| ==> keys[i] == sorted[i].key
    ensures AllHere(v, keys[from..]) && Members(v, keys[from..], from == 0) == Rest(texts, from)
    decreases |texts| - from
  {
    if from < |texts| {
      MembersUnfold(v, keys[from..], from == 0, sorted[from]);
      assert keys[from..][1..] == keys[from + 1..];
      RestStep(texts, from);
      MembersAreRest(v, keys, sorted, texts, from + 1);
    } else {
      RestEnds(texts);
      assert keys[from..] == [];
    }
  }

  lemma SortedKeysAre(fields: seq<Field>, sorted: seq<Field>)
    requires KeysDistinct(fields) && Ascending(Keys(sorted)) && forall f :: f in sorted <==> f in fields
    ensures SortedKeys(Obj(fields)) == Keys(sorted)
  {
    forall k ensures k in Keys(sorted) <==> Has(fields, k) {
      if k in Keys(sorted) {
        var i :| 0 <= i < |sorted| && Keys(sorted)[i] == k;
        assert sorted[i] in fields;
      }
      if Has(fields, k) {
        var i :| 0 <= i < |fields| && fields[i].key == k;
        assert fields[i] in sorted;
        var j :| 0 <= j < |sorted| && sorted[j] == fields[i];
        assert Keys(sorted)[j] == k;
      }
    }
    AscendingUnique(SortedKeys(Obj(fields)), Keys(sorted));
  }

  // An object is its members in the order of their keys, between braces: each a quoted key,
  // a colon and the text of its value.
  lemma ObjectIsJoined(fields: seq<Field>, sorted: seq<Field>, texts: seq<Text>)
    requires Valid(Obj(fields)) && Ascending(Keys(sorted)) && (forall f :: f in sorted <==> f in fields) && |texts| == |sorted|
    requires forall i :: 0 <= i < |sorted| ==> Valid(sorted[i].value) && texts[i] == MemberText(sorted[i])
    ensures Print(Obj(fields)) == Ascii("{") + Joined(texts) + Ascii("}")
  {
    SortedKeysAre(fields, sorted);
    PrintObj(Obj(fields));
    forall i | 0 <= i < |sorted| ensures sorted[i] in fields { assert sorted[i] in sorted; }
    MembersAreRest(Obj(fields), Keys(sorted), sorted, texts, 0);
    RestEnds(texts);
    assert Keys(sorted)[0..] == Keys(sorted);
    BracketsAre();
  }

  lemma BracketsAre()
    ensures Ascii("[") == [91] && Ascii("]") == [93] && Ascii("{") == [123] && Ascii("}") == [125]
  {}

  lemma HashedKeysAscend(a: Text, b: Text, c: Text, d: Text, e: Text)
    requires a == Ascii("actorId") && b == Ascii("deviceId") && c == Ascii("normalizedArgs") && d == Ascii("tool") && e == Ascii("workspaceId")
    ensures Ascending([a, b, c, d, e])
  {
    assert a[0] == 97 && b[0] == 100 && c[0] == 110 && d[0] == 116 && e[0] == 119;
  }

  lemma FiveJoined(v: Json, a: Field, b: Field, c: Field, d: Field, e: Field)
    requires Valid(v) && v == Obj([d, c, e, a, b]) && Ascending([a.key, b.key, c.key, d.key, e.key])
    requires Valid(a.value) && Valid(b.value) && Valid(c.value) && Valid(d.value) && Valid(e.value)
    ensures Print(v) == Ascii("{") + Joined([MemberText(a), MemberText(b), MemberText(c), MemberText(d), MemberText(e)]) + Ascii("}")
  {
    var sorted := [a, b, c, d, e];
    assert Keys(sorted) == [a.key, b.key, c.key, d.key, e.key];
    ObjectIsJoined(v.fields, sorted, [MemberText(a), MemberText(b), MemberText(c), MemberText(d), MemberText(e)]);
  }

  // The text behind the hash of an operation: its five members, in this order.
  lemma HashTextIs(op: Operation)
    requires Valid(op.args)
    ensures HashInput(op) ==
              Ascii("{")
              + Joined([MemberText(Field(Ascii("actorId"), Str(op.actorId))), MemberText(Field(Ascii("deviceId"), Str(op.deviceId))),
                        MemberText(Field(Ascii("normalizedArgs"), op.args)), MemberText(Field(Ascii("tool"), Str(op.tool))),
                        MemberText(Field(Ascii("workspaceId"), Str(op.workspaceId)))])
              + Ascii("}")
  {
    HashedObjectValid(op);
    var a, b, c := Field(Ascii("actorId"), Str(op.actorId)), Field(Ascii("deviceId"), Str(op.deviceId)), Field(Ascii("normalizedArgs"), op.args);
    var d, e := Field(Ascii("tool"), Str(op.tool)), Field(Ascii("workspaceId"), Str(op.workspaceId));
    HashedKeysAscend(a.key, b.key, c.key, d.key, e.key);
    FiveJoined(HashedObject(op), a, b, c, d, e);
  }
}
