/**
 * The canonical printer behind the hash of a pending operation: object keys sorted
 * by code unit (RFC 8785, section 3.2.3), strings quoted as in RFC 8259, section 7.
 * Printing is shown to be injective and blind to the insertion order of keys.
 */
module CanonicalJson {
  /** One UTF-16 code unit. */
  type Unit = u: int | 0 <= u < 0x10000

  type Text = seq<Unit>

  predicate IsNumChar(u: Unit) { 48 <= u <= 57 || u == 45 || u == 43 || u == 46 || u == 101 }

  predicate IsNumText(t: Text) { t != [] && forall i :: 0 <= i < |t| ==> IsNumChar(t[i]) }

  /** A finite number, identified with the shortest text it prints as. */
  type NumText = t: Text | IsNumText(t) witness [48]

  datatype Field = Field(key: Text, value: Json)

  datatype Json =
    | Null
    | Bool(b: bool)
    | Num(n: NumText)
    | Str(s: Text)
    | Arr(items: seq<Json>)
    | Obj(fields: seq<Field>)    // in insertion order

  predicate KeysDistinct(fields: seq<Field>) {
    forall i, j :: 0 <= i < j < |fields| ==> fields[i].key != fields[j].key
  }

  /** Values as the language makes them: no object holds a key twice. */
  predicate Valid(v: Json) {
    match v
    case Arr(items) => forall i :: 0 <= i < |items| ==> Valid(items[i])
    case Obj(fields) => KeysDistinct(fields) && forall i :: 0 <= i < |fields| ==> Valid(fields[i].value)
    case _ => true
  }

  // ----- key order

  predicate Less(a: Text, b: Text) {
    if b == [] then false
    else if a == [] then true
    else a[0] < b[0] || (a[0] == b[0] && Less(a[1..], b[1..]))
  }

  lemma LessTotal(a: Text, b: Text)
    ensures Less(a, b) || Less(b, a) || a == b
  {
    if a != [] && b != [] && a[0] == b[0] {
      LessTotal(a[1..], b[1..]);
      assert a == [a[0]] + a[1..] && b == [b[0]] + b[1..];
    }
  }

  lemma LessTransitive(a: Text, b: Text, c: Text)
    requires Less(a, b) && Less(b, c)
    ensures Less(a, c)
  {}

  lemma LessStrict(a: Text, b: Text)
    requires Less(a, b)
    ensures a != b && !Less(b, a)
  {}

  predicate Ascending(keys: seq<Text>) {
    forall i, j :: 0 <= i < j < |keys| ==> Less(keys[i], keys[j])
  }

  function Insert(key: Text, keys: seq<Text>): (r: seq<Text>)
    requires Ascending(keys) && key !in keys
    ensures Ascending(r) && |r| == |keys| + 1
    ensures forall k :: k in r <==> k == key || k in keys
  {
    if keys == [] then [key]
    else if Less(key, keys[0]) then
      assert forall j :: 0 < j < |keys| ==> Less(key, keys[j]) by {
        forall j | 0 < j < |keys| ensures Less(key, keys[j]) { LessTransitive(key, keys[0], keys[j]); }
      }
      [key] + keys
    else
      var rest := Insert(key, keys[1..]);
      assert forall k :: k in rest ==> Less(keys[0], k) by {
        LessTotal(key, keys[0]);
        forall k | k in keys[1..] ensures Less(keys[0], k) {}
      }
      [keys[0]] + rest
  }

  /** Object.keys(value).sort() */
  function Sorted(keys: seq<Text>): (r: seq<Text>)
    requires forall i, j :: 0 <= i < j < |keys| ==> keys[i] != keys[j]
    ensures Ascending(r) && |r| == |keys|
    ensures forall k :: k in r <==> k in keys
  {
    if keys == [] then [] else
      assert keys[0] !in keys[1..];
      Insert(keys[0], Sorted(keys[1..]))
  }

  // A key set has one ascending enumeration, so sorting forgets the insertion order.
  lemma {:induction false} AscendingUnique(a: seq<Text>, b: seq<Text>)
    requires Ascending(a) && Ascending(b)
    requires forall k :: k in a <==> k in b
    ensures a == b
  {
    assert a != [] ==> a[0] in b;
    assert b != [] ==> b[0] in a;
    if a != [] {
      var i :| 0 <= i < |b| && b[i] == a[0];
      var j :| 0 <= j < |a| && a[j] == b[0];
      if i > 0 && j > 0 { LessStrict(b[0], b[i]); }
      assert a[0] == b[0];
      forall k ensures k in a[1..] <==> k in b[1..] {
        if k in a[1..] { LessStrict(a[0], k); assert k in b; }
        if k in b[1..] { LessStrict(b[0], k); assert k in a; }
      }
      AscendingUnique(a[1..], b[1..]);
      assert a == [a[0]] + a[1..] && b == [b[0]] + b[1..];
    }
  }

  // ----- the printer

  predicate High(u: Unit) { 0xD800 <= u < 0xDC00 }

  predicate Low(u: Unit) { 0xDC00 <= u < 0xE000 }

  function HexDigit(d: int): Unit
    requires 0 <= d < 16
  {
    if d < 10 then 48 + d else 87 + d
  }

  function EscapeUnit(u: Unit): Text {
    if u == 0x08 then [92, 98]
    else if u == 0x09 then [92, 116]
    else if u == 0x0A then [92, 110]
    else if u == 0x0C then [92, 102]
    else if u == 0x0D then [92, 114]
    else if u == 0x22 then [92, 34]
    else if u == 0x5C then [92, 92]
    else if u < 0x20 || High(u) || Low(u) then
      [92, 117, HexDigit(u / 0x1000), HexDigit(u / 0x100 % 16), HexDigit(u / 16 % 16), HexDigit(u % 16)]
    else [u]
  }

  /** Both halves of a surrogate pair are printed as they are; inPair: s[0] is the second half of one. */
  function Escape(s: Text, inPair: bool): Text {
    if s == [] then []
    else
      var pair := !inPair && High(s[0]) && |s| > 1 && Low(s[1]);
      (if inPair || pair then [s[0]] else EscapeUnit(s[0])) + Escape(s[1..], pair)
  }

  function Quote(s: Text): Text { [34] + Escape(s, false) + [34] }

  function Keys(fields: seq<Field>): seq<Text> {
    seq(|fields|, i requires 0 <= i < |fields| => fields[i].key)
  }

  predicate Has(fields: seq<Field>, key: Text) { exists i :: 0 <= i < |fields| && fields[i].key == key }

  /** Where a key of an object is. */
  function At(fields: seq<Field>, key: Text): (i: nat)
    requires Has(fields, key)
    ensures i < |fields| && fields[i].key == key
  {
    if fields[0].key == key then 0
    else
      assert Has(fields[1..], key) by {
        var i :| 0 <= i < |fields| && fields[i].key == key;
        assert fields[1..][i - 1].key == key;
      }
      1 + At(fields[1..], key)
  }

  function SortedKeys(v: Json): (r: seq<Text>)
    requires v.Obj? && KeysDistinct(v.fields)
    ensures Ascending(r)
    ensures forall k :: k in r <==> Has(v.fields, k)
  {
    var keys := Keys(v.fields);
    assert forall k :: Has(v.fields, k) ==> k in keys by {
      forall k | Has(v.fields, k) ensures k in keys {
        var i :| 0 <= i < |v.fields| && v.fields[i].key == k;
        assert keys[i] == k;
      }
    }
    Sorted(keys)
  }

  function Print(v: Json): Text
    requires Valid(v)
    decreases v, 1, 0
  {
    match v
    case Null => [110, 117, 108, 108]
    case Bool(b) => if b then [116, 114, 117, 101] else [102, 97, 108, 115, 101]
    case Num(n) => n
    case Str(s) => Quote(s)
    case Arr(items) => [91] + Items(v, 0) + [93]
    case Obj(fields) => [123] + Members(v, SortedKeys(v), true) + [125]
  }

  /** items[from..], separated by commas; a comma also precedes all but the first item of the array. */
  function Items(v: Json, from: nat): Text
    requires Valid(v) && v.Arr? && from <= |v.items|
    decreases v, 0, |v.items| - from
  {
    if from == |v.items| then []
    else Comma(from == 0) + Print(v.items[from]) + Items(v, from + 1)
  }

  function Comma(first: bool): Text { if first then [] else [44] }

  function Members(v: Json, keys: seq<Text>, first: bool): Text
    requires Valid(v) && v.Obj? && forall i :: 0 <= i < |keys| ==> Has(v.fields, keys[i])
    decreases v, 0, |keys|
  {
    if keys == [] then []
    else Comma(first) + Quote(keys[0]) + [58] + Print(v.fields[At(v.fields, keys[0])].value) + Members(v, keys[1..], false)
  }

  // ----- equality of values, objects taken as maps

  ghost predicate Same(a: Json, b: Json)
    decreases a
  {
    match a
    case Arr(items) => b.Arr? && |items| == |b.items| && forall i :: 0 <= i < |items| ==> Same(items[i], b.items[i])
    case Obj(fields) =>
      && b.Obj?
      && (forall k :: Has(fields, k) <==> Has(b.fields, k))
      && (forall i :: 0 <= i < |fields| && Has(b.fields, fields[i].key) ==>
            Same(fields[i].value, b.fields[At(b.fields, fields[i].key)].value))
    case _ => a == b
  }

  lemma {:induction false} AtIsIndex(fields: seq<Field>, i: nat)
    requires i < |fields| && KeysDistinct(fields)
    ensures Has(fields, fields[i].key) && At(fields, fields[i].key) == i
  {
    var j := At(fields, fields[i].key);
    if i < j || j < i { assert fields[i].key == fields[j].key; }
  }

  lemma {:induction false} SamePrintsEqual(a: Json, b: Json)
    requires Valid(a) && Valid(b) && Same(a, b)
    ensures Print(a) == Print(b)
    decreases a, 1, 0
  {
    match a
    case Arr(items) => SameItems(a, b, 0);
    case Obj(fields) =>
      AscendingUnique(SortedKeys(a), SortedKeys(b));
      SameMembers(a, b, SortedKeys(a), true);
    case _ =>
  }

  lemma {:induction false} SameItems(a: Json, b: Json, from: nat)
    requires Valid(a) && Valid(b) && a.Arr? && Same(a, b) && from <= |a.items|
    ensures Items(a, from) == Items(b, from)
    decreases a, 0, |a.items| - from
  {
    if from < |a.items| {
      SamePrintsEqual(a.items[from], b.items[from]);
      SameItems(a, b, from + 1);
    }
  }

  lemma {:induction false} SameMembers(a: Json, b: Json, keys: seq<Text>, first: bool)
    requires Valid(a) && Valid(b) && a.Obj? && Same(a, b)
    requires forall i :: 0 <= i < |keys| ==> Has(a.fields, keys[i])
    ensures Members(a, keys, first) == Members(b, keys, first)
    decreases a, 0, |keys|
  {
    if keys != [] {
      var i := At(a.fields, keys[0]);
      SamePrintsEqual(a.fields[i].value, b.fields[At(b.fields, keys[0])].value);
      SameMembers(a, b, keys[1..], false);
    }
  }

  // ----- unique decodability

  lemma Cancel(p: Text, x: Text, y: Text)
    requires p + x == p + y
    ensures x == y
  {
    assert x == (p + x)[|p|..] && y == (p + y)[|p|..];
  }

  /** What may follow a value in a printed text: nothing a number could go on with. */
  predicate Stop(r: Text) { r == [] || !IsNumChar(r[0]) }

  lemma NumUnique(m: Text, n: Text, r: Text, q: Text)
    requires IsNumText(m) && IsNumText(n) && Stop(r) && Stop(q) && m + r == n + q
    ensures m == n && r == q
  {
    NumRun(m, r);
    NumRun(n, q);
    assert m == (m + r)[..|m|] && n == (n + q)[..|n|];
    Cancel(m, r, q);
  }

  lemma NumRun(n: Text, q: Text)
    requires IsNumText(n) && Stop(q)
    ensures var t := n + q;
            (forall i :: 0 <= i < |n| ==> IsNumChar(t[i])) && (|n| < |t| ==> !IsNumChar(t[|n|]))
  {}

  function HexValue(u: Unit): int { if u < 58 then u - 48 else u - 87 }

  lemma HexValueOf(d: int)
    requires 0 <= d < 16
    ensures HexValue(HexDigit(d)) == d
  {}

  /** The code unit that a printed text starts with, and the length of its encoding. */
  function FirstUnit(t: Text): (int, nat) {
    if |t| > 0 && t[0] != 92 then (t[0], 1)
    else if |t| < 2 then (0, 0)
    else if t[1] == 98 then (0x08, 2)
    else if t[1] == 116 then (0x09, 2)
    else if t[1] == 110 then (0x0A, 2)
    else if t[1] == 102 then (0x0C, 2)
    else if t[1] == 114 then (0x0D, 2)
    else if t[1] == 34 then (0x22, 2)
    else if t[1] == 92 then (0x5C, 2)
    else if |t| < 6 then (0, 0)
    else (HexValue(t[2]) * 0x1000 + HexValue(t[3]) * 0x100 + HexValue(t[4]) * 16 + HexValue(t[5]), 6)
  }

  lemma HexDigitsOf(u: Unit)
    ensures 0 <= u / 0x1000 < 16
    ensures u / 0x1000 * 0x1000 + u / 0x100 % 16 * 0x100 + u / 16 % 16 * 16 + u % 16 == u
  {}

  lemma FirstUnitOfHex(a: int, b: int, c: int, d: int, r: Text)
    requires 0 <= a < 16 && 0 <= b < 16 && 0 <= c < 16 && 0 <= d < 16
    ensures FirstUnit([92, 117, HexDigit(a), HexDigit(b), HexDigit(c), HexDigit(d)] + r)
            == (a * 0x1000 + b * 0x100 + c * 16 + d, 6)
  {
    var t := [92, 117, HexDigit(a), HexDigit(b), HexDigit(c), HexDigit(d)] + r;
    assert t[0] == 92 && t[1] == 117 && t[2] == HexDigit(a) && t[3] == HexDigit(b) && t[4] == HexDigit(c) && t[5] == HexDigit(d);
    HexValueOf(a);
    HexValueOf(b);
    HexValueOf(c);
    HexValueOf(d);
  }

  lemma FirstUnitOfEscape(u: Unit, r: Text)
    ensures FirstUnit(EscapeUnit(u) + r) == (u, |EscapeUnit(u)|)
    ensures EscapeUnit(u)[0] != 34
  {
    var e := EscapeUnit(u);
    if |e| == 6 {
      HexDigitsOf(u);
      FirstUnitOfHex(u / 0x1000, u / 0x100 % 16, u / 16 % 16, u % 16, r);
    } else {
      assert forall i :: 0 <= i < |e| ==> (e + r)[i] == e[i];
    }
  }

  /** The first encoded unit of a string body, split off from what follows it. */
  lemma EscapeSplit(s: Text, inPair: bool, r: Text) returns (e: Text, pair: bool, rest: Text)
    requires s != [] && (inPair ==> Low(s[0]))
    ensures Escape(s, inPair) + r == e + rest && rest == Escape(s[1..], pair) + r
    ensures pair ==> |s| > 1 && Low(s[1])
    ensures e != [] && e[0] != 34 && FirstUnit(e + rest) == (s[0], |e|)
  {
    pair := !inPair && High(s[0]) && |s| > 1 && Low(s[1]);
    e := if inPair || pair then [s[0]] else EscapeUnit(s[0]);
    rest := Escape(s[1..], pair) + r;
    assert Escape(s, inPair) + r == e + rest;
    FirstUnitOfEscape(s[0], rest);
    if inPair || pair { assert (e + rest)[0] == s[0]; }
  }

  lemma {:induction false} EscapeUnique(s: Text, p: bool, t: Text, q: bool, r: Text, z: Text)
    requires (p ==> s != [] && Low(s[0])) && (q ==> t != [] && Low(t[0]))
    requires Escape(s, p) + ([34] + r) == Escape(t, q) + ([34] + z)
    ensures s == t && r == z
    decreases |s|
  {
    EscapeHead(s, p, r);
    EscapeHead(t, q, z);
    if s == [] {
      assert t == [];
      assert Escape(s, p) + ([34] + r) == [34] + r && Escape(t, q) + ([34] + z) == [34] + z;
      Cancel([34], r, z);
    } else {
      var x := Escape(s, p) + ([34] + r);
      var e, pair, rest := EscapeSplit(s, p, [34] + r);
      var e', pair', rest' := EscapeSplit(t, q, [34] + z);
      assert e == x[..|e|] && e' == x[..|e'|];
      Cancel(e, rest, rest');
      EscapeUnique(s[1..], pair, t[1..], pair', r, z);
      assert s == [s[0]] + s[1..] && t == [t[0]] + t[1..];
    }
  }

  lemma EscapeHead(s: Text, p: bool, r: Text)
    requires p ==> s != [] && Low(s[0])
    ensures (Escape(s, p) + ([34] + r))[0] == 34 <==> s == []
  {
    if s != [] { var e, pair, rest := EscapeSplit(s, p, [34] + r); }
  }

  lemma QuoteUnique(s: Text, t: Text, r: Text, z: Text)
    requires Quote(s) + r == Quote(t) + z
    ensures s == t && r == z
  {
    Regroup3([34], Escape(s, false), [34], r);
    Regroup3([34], Escape(t, false), [34], z);
    Cancel([34], Escape(s, false) + ([34] + r), Escape(t, false) + ([34] + z));
    EscapeUnique(s, false, t, false, r, z);
  }

  /** The first code unit of a printed value tells its kind. */
  function Head(v: Json): Unit
    requires Valid(v)
  {
    match v
    case Null => 110
    case Bool(b) => if b then 116 else 102
    case Num(n) => n[0]
    case Str(s) => 34
    case Arr(items) => 91
    case Obj(fields) => 123
  }

  lemma PrintHead(v: Json, r: Text)
    requires Valid(v)
    ensures Print(v) != [] && (Print(v) + r)[0] == Print(v)[0] == Head(v)
    ensures Head(v) != 44 && Head(v) != 93 && Head(v) != 125
  {}

  lemma {:induction false} PrintUnique(a: Json, b: Json, r: Text, z: Text)
    requires Valid(a) && Valid(b) && Stop(r) && Stop(z)
    requires Print(a) + r == Print(b) + z
    ensures Same(a, b) && r == z
    decreases a, 3, 0
  {
    PrintHead(a, r);
    PrintHead(b, z);
    match a
    case Num(n) =>
      assert b.Num?;
      NumUnique(n, b.n, r, z);
    case Str(s) =>
      assert b.Str?;
      QuoteUnique(s, b.s, r, z);
    case Arr(items) =>
      assert b.Arr?;
      ArrUnique(a, b, r, z);
    case Obj(fields) =>
      assert b.Obj?;
      ObjUnique(a, b, r, z);
    case _ =>
      assert a == b;
      Cancel(Print(a), r, z);
  }

  lemma {:induction false} ArrUnique(a: Json, b: Json, r: Text, z: Text)
    requires Valid(a) && Valid(b) && a.Arr? && b.Arr?
    requires Print(a) + r == Print(b) + z
    ensures Same(a, b) && r == z
    decreases a, 2, 0
  {
    var ta, tb := Items(a, 0) + ([93] + r), Items(b, 0) + ([93] + z);
    assert Print(a) + r == [91] + ta && Print(b) + z == [91] + tb;
    Cancel([91], ta, tb);
    ItemsUnique(a, b, 0, r, z);
  }

  lemma {:induction false} ObjUnique(a: Json, b: Json, r: Text, z: Text)
    requires Valid(a) && Valid(b) && a.Obj? && b.Obj?
    requires Print(a) + r == Print(b) + z
    ensures Same(a, b) && r == z
    decreases a, 2, 0
  {
    var ka, kb := SortedKeys(a), SortedKeys(b);
    var ta, tb := Members(a, ka, true) + ([125] + r), Members(b, kb, true) + ([125] + z);
    ObjPrint(a, r);
    ObjPrint(b, z);
    Cancel([123], ta, tb);
    MembersUnique(a, b, ka, kb, true, r, z);
    MembersSame(a, b);
  }

  lemma ObjPrint(v: Json, r: Text)
    requires Valid(v) && v.Obj?
    ensures AllHere(v, SortedKeys(v))
    ensures Print(v) + r == [123] + (Members(v, SortedKeys(v), true) + ([125] + r))
  {
    var m := Members(v, SortedKeys(v), true);
    PrintObj(v);
    Regroup3([123], m, [125], r);
  }

  lemma Regroup3(a: Text, b: Text, c: Text, d: Text)
    ensures a + b + c + d == a + (b + (c + d))
  {}

  lemma PrintObj(v: Json)
    requires Valid(v) && v.Obj?
    ensures AllHere(v, SortedKeys(v)) && Print(v) == [123] + Members(v, SortedKeys(v), true) + [125]
  {}

  /** The rest of an array print begins with its closer exactly when no item is left; later on it stops a number. */
  lemma ItemsHead(v: Json, from: nat, r: Text)
    requires Valid(v) && v.Arr? && from <= |v.items|
    ensures var x := Items(v, from) + ([93] + r);
            x != [] && (x[0] == 93 <==> from == |v.items|) && (from > 0 ==> Stop(x))
  {
    if from < |v.items| { PrintHead(v.items[from], Items(v, from + 1) + ([93] + r)); }
  }

  lemma ItemsStep(v: Json, from: nat, r: Text)
    requires Valid(v) && v.Arr? && from < |v.items|
    ensures Valid(v.items[from])
    ensures var x := Items(v, from + 1) + ([93] + r);
            Stop(x) && Items(v, from) + ([93] + r) == Comma(from == 0) + (Print(v.items[from]) + x)
  {
    ItemsHead(v, from + 1, r);
  }

  lemma {:induction false} ItemsUnique(a: Json, b: Json, from: nat, r: Text, z: Text)
    requires Valid(a) && Valid(b) && a.Arr? && b.Arr? && from <= |a.items| && from <= |b.items|
    requires Items(a, from) + ([93] + r) == Items(b, from) + ([93] + z)
    ensures |a.items| == |b.items| && r == z
    ensures forall i :: from <= i < |a.items| ==> Same(a.items[i], b.items[i])
    decreases a, 1, |a.items| - from
  {
    ItemsHead(a, from, r);
    ItemsHead(b, from, z);
    if from == |a.items| {
      assert Items(a, from) + ([93] + r) == [93] + r && Items(b, from) + ([93] + z) == [93] + z;
      Cancel([93], r, z);
    } else {
      ItemsStep(a, from, r);
      ItemsStep(b, from, z);
      var ta, tb := Items(a, from + 1) + ([93] + r), Items(b, from + 1) + ([93] + z);
      Cancel(Comma(from == 0), Print(a.items[from]) + ta, Print(b.items[from]) + tb);
      PrintUnique(a.items[from], b.items[from], ta, tb);
      ItemsUnique(a, b, from + 1, r, z);
    }
  }

  function Value(v: Json, key: Text): (r: Json)
    requires v.Obj? && Has(v.fields, key)
  {
    v.fields[At(v.fields, key)].value
  }

  predicate AllHere(v: Json, keys: seq<Text>)
    requires v.Obj?
  {
    forall i :: 0 <= i < |keys| ==> Has(v.fields, keys[i])
  }

  lemma MembersHead(v: Json, keys: seq<Text>, first: bool, r: Text)
    requires Valid(v) && v.Obj? && AllHere(v, keys)
    ensures var x := Members(v, keys, first) + ([125] + r);
            x != [] && (x[0] == 125 <==> keys == []) && (!first ==> Stop(x))
  {}

  lemma MembersStep(v: Json, keys: seq<Text>, first: bool, r: Text)
    requires Valid(v) && v.Obj? && AllHere(v, keys) && keys != []
    ensures AllHere(v, keys[1..]) && Valid(Value(v, keys[0]))
    ensures var x := Members(v, keys[1..], false) + ([125] + r);
            && Stop(x)
            && Members(v, keys, first) + ([125] + r)
               == Comma(first) + (Quote(keys[0]) + ([58] + (Print(Value(v, keys[0])) + x)))
  {
    MembersHead(v, keys[1..], false, r);
    var x := Members(v, keys[1..], false) + ([125] + r);
    var p := Print(Value(v, keys[0]));
    assert Members(v, keys, first) == Comma(first) + Quote(keys[0]) + [58] + p + Members(v, keys[1..], false);
    Regroup(Comma(first), Quote(keys[0]), [58], p, Members(v, keys[1..], false), [125] + r);
  }

  lemma Regroup(a: Text, b: Text, c: Text, d: Text, e: Text, f: Text)
    ensures a + b + c + d + e + f == a + (b + (c + (d + (e + f))))
  {}

  lemma MemberKeyUnique(c: Text, k: Text, l: Text, x: Text, y: Text)
    requires c + (Quote(k) + ([58] + x)) == c + (Quote(l) + ([58] + y))
    ensures k == l && x == y
  {
    Cancel(c, Quote(k) + ([58] + x), Quote(l) + ([58] + y));
    QuoteUnique(k, l, [58] + x, [58] + y);
    Cancel([58], x, y);
  }

  lemma {:induction false} MembersUnique(a: Json, b: Json, ka: seq<Text>, kb: seq<Text>, first: bool, r: Text, z: Text)
    requires Valid(a) && Valid(b) && a.Obj? && b.Obj? && AllHere(a, ka) && AllHere(b, kb)
    requires Members(a, ka, first) + ([125] + r) == Members(b, kb, first) + ([125] + z)
    ensures ka == kb && r == z
    ensures forall i :: 0 <= i < |ka| ==> Same(Value(a, ka[i]), Value(b, ka[i]))
    decreases a, 1, |ka|
  {
    MembersHead(a, ka, first, r);
    MembersHead(b, kb, first, z);
    if ka == [] {
      assert Members(a, ka, first) + ([125] + r) == [125] + r && Members(b, kb, first) + ([125] + z) == [125] + z;
      Cancel([125], r, z);
    } else {
      MembersStep(a, ka, first, r);
      MembersStep(b, kb, first, z);
      var va, vb := Value(a, ka[0]), Value(b, kb[0]);
      var ta, tb := Members(a, ka[1..], false) + ([125] + r), Members(b, kb[1..], false) + ([125] + z);
      MemberKeyUnique(Comma(first), ka[0], kb[0], Print(va) + ta, Print(vb) + tb);
      PrintUnique(va, vb, ta, tb);
      MembersUnique(a, b, ka[1..], kb[1..], false, r, z);
      assert ka == [ka[0]] + ka[1..] && kb == [kb[0]] + kb[1..];
    }
  }

  lemma MembersSame(a: Json, b: Json)
    requires Valid(a) && Valid(b) && a.Obj? && b.Obj? && SortedKeys(a) == SortedKeys(b)
    requires forall i :: 0 <= i < |SortedKeys(a)| ==> Same(Value(a, SortedKeys(a)[i]), Value(b, SortedKeys(a)[i]))
    ensures Same(a, b)
  {
    forall i | 0 <= i < |a.fields|
      ensures Has(b.fields, a.fields[i].key)
      ensures Same(a.fields[i].value, b.fields[At(b.fields, a.fields[i].key)].value)
    {
      AtIsIndex(a.fields, i);
      var k := a.fields[i].key;
      assert k in SortedKeys(a);
      var j :| 0 <= j < |SortedKeys(a)| && SortedKeys(a)[j] == k;
    }
  }

  // Two values print equally exactly when they are equal, objects taken as maps:
  // the printer is injective, and blind to the order in which keys were inserted.
  lemma CanonicalForm(a: Json, b: Json)
    requires Valid(a) && Valid(b)
    ensures Print(a) == Print(b) <==> Same(a, b)
  {
    if Print(a) == Print(b) {
      assert Print(a) + [] == Print(a) && Print(b) + [] == Print(b);
      PrintUnique(a, b, [], []);
    }
    if Same(a, b) { SamePrintsEqual(a, b); }
  }

  // ----- the hash input

  datatype Operation = Operation(tool: Text, args: Json, workspaceId: Text, actorId: Text, deviceId: Text)

  function Ascii(s: string): Text
    requires forall i :: 0 <= i < |s| ==> s[i] < 128 as char
  {
    seq(|s|, i requires 0 <= i < |s| => s[i] as int)
  }

  function HashedObject(op: Operation): Json {
    Obj([Field(Ascii("tool"), Str(op.tool)), Field(Ascii("normalizedArgs"), op.args),
         Field(Ascii("workspaceId"), Str(op.workspaceId)), Field(Ascii("actorId"), Str(op.actorId)),
         Field(Ascii("deviceId"), Str(op.deviceId))])
  }

  lemma HashedObjectValid(op: Operation)
    requires Valid(op.args)
    ensures Valid(HashedObject(op))
  {
    var f := HashedObject(op).fields;
    assert f[0].key[0] == 116 && f[1].key[0] == 110 && f[2].key[0] == 119 && f[3].key[0] == 97 && f[4].key[0] == 100;
  }

  function HashInput(op: Operation): Text
    requires Valid(op.args)
  {
    HashedObjectValid(op);
    Print(HashedObject(op))
  }

  lemma AlignedAt(a: Json, b: Json, i: nat)
    requires Valid(a) && Valid(b) && a.Obj? && b.Obj? && Keys(a.fields) == Keys(b.fields) && i < |a.fields|
    ensures i < |b.fields| && a.fields[i].key == b.fields[i].key
    ensures Has(b.fields, a.fields[i].key) && At(b.fields, a.fields[i].key) == i
  {
    assert |Keys(a.fields)| == |Keys(b.fields)| && Keys(a.fields)[i] == Keys(b.fields)[i];
    AtIsIndex(b.fields, i);
  }

  lemma AlignedHas(f: seq<Field>, g: seq<Field>, key: Text)
    requires Keys(f) == Keys(g)
    ensures Has(f, key) ==> Has(g, key)
  {
    if i :| 0 <= i < |f| && f[i].key == key {
      assert |Keys(f)| == |Keys(g)| && Keys(f)[i] == Keys(g)[i];
      assert g[i].key == key;
    }
  }

  // Objects with the same keys in the same places are the same exactly when their values are.
  lemma SameAligned(a: Json, b: Json)
    requires Valid(a) && Valid(b) && a.Obj? && b.Obj? && Keys(a.fields) == Keys(b.fields)
    ensures |a.fields| == |b.fields|
    ensures Same(a, b) <==> forall i :: 0 <= i < |a.fields| ==> Same(a.fields[i].value, b.fields[i].value)
  {
    assert |Keys(a.fields)| == |Keys(b.fields)|;
    if Same(a, b) {
      forall i | 0 <= i < |a.fields| ensures Same(a.fields[i].value, b.fields[i].value) { AlignedAt(a, b, i); }
    }
    if forall i :: 0 <= i < |a.fields| ==> Same(a.fields[i].value, b.fields[i].value) { AlignedIsSame(a, b); }
  }

  lemma AlignedIsSame(a: Json, b: Json)
    requires Valid(a) && Valid(b) && a.Obj? && b.Obj? && Keys(a.fields) == Keys(b.fields) && |a.fields| == |b.fields|
    requires forall i :: 0 <= i < |a.fields| ==> Same(a.fields[i].value, b.fields[i].value)
    ensures Same(a, b)
  {
    forall key ensures Has(a.fields, key) <==> Has(b.fields, key) {
      AlignedHas(a.fields, b.fields, key);
      AlignedHas(b.fields, a.fields, key);
    }
    forall i | 0 <= i < |a.fields|
      ensures Has(b.fields, a.fields[i].key) && At(b.fields, a.fields[i].key) == i
    {
      AlignedAt(a, b, i);
    }
  }

  // The text that is hashed separates any two operations that differ in tool, args,
  // workspace, actor or device, and no others.
  lemma HashInputSeparates(p: Operation, q: Operation)
    requires Valid(p.args) && Valid(q.args)
    ensures HashInput(p) == HashInput(q) <==>
            && p.tool == q.tool && Same(p.args, q.args) && p.workspaceId == q.workspaceId
            && p.actorId == q.actorId && p.deviceId == q.deviceId
  {
    HashedObjectValid(p);
    HashedObjectValid(q);
    var a, b := HashedObject(p), HashedObject(q);
    CanonicalForm(a, b);
    HashedKeys(p, q);
    SameFive(a, b);
  }

  lemma HashedKeys(p: Operation, q: Operation)
    ensures Keys(HashedObject(p).fields) == Keys(HashedObject(q).fields)
    ensures |HashedObject(p).fields| == 5
  {}

  lemma SameFive(a: Json, b: Json)
    requires Valid(a) && Valid(b) && a.Obj? && b.Obj? && Keys(a.fields) == Keys(b.fields) && |a.fields| == |b.fields| == 5
    ensures Same(a, b) <==>
            && Same(a.fields[0].value, b.fields[0].value) && Same(a.fields[1].value, b.fields[1].value)
            && Same(a.fields[2].value, b.fields[2].value) && Same(a.fields[3].value, b.fields[3].value)
            && Same(a.fields[4].value, b.fields[4].value)
  {
    SameAligned(a, b);
  }
}
